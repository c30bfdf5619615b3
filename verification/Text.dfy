/** The text routines of the user database: numbers, formats, fields and lines. */
module Text {

  predicate IsDigit(c: char) { '0' <= c <= '9' }

  function Digit(d: nat): char
    requires d < 10
  {
    '0' + d as char
  }

  // ---------------------------------------------------------------- numbers

  function Digits(n: nat): (r: string)
    ensures r != [] && (forall i :: 0 <= i < |r| ==> IsDigit(r[i])) && (|r| > 1 ==> r[0] != '0')
    ensures r[0] == '0' ==> n == 0
  {
    if n < 10 then [Digit(n)] else Digits(n / 10) + [Digit(n % 10)]
  }

  /** What `%d` prints. */
  function Decimal(v: int): string { if v < 0 then "-" + Digits(-v) else Digits(v) }

  /** `u_itoa`: the digits come out last first and are turned round. */
  method Itoa(v: int) returns (r: string)
    ensures r == Decimal(v)
    decreases if v < 0 then 1 else 0
  {
    if v < 0 {
      var t := Itoa(-v);
      return "-" + t;
    }
    var tmp := LastFirst(v);
    r := TurnRound(tmp);
  }

  method LastFirst(v: nat) returns (tmp: string)
    ensures Reverse(tmp) == Digits(v)
  {
    if v == 0 {
      tmp := "0";
      assert tmp[..0] == [];
      return;
    }
    tmp := [];
    var uv := v;
    while uv > 0
      invariant uv >= 0 && (uv > 0 ==> Digits(v) == Digits(uv) + Reverse(tmp))
      invariant uv == 0 ==> Digits(v) == Reverse(tmp)
    {
      ReverseAppend(tmp, Digit(uv % 10));
      MoveDigit(uv, Reverse(tmp));
      tmp := tmp + [Digit(uv % 10)];
      uv := uv / 10;
    }
  }

  lemma MoveDigit(n: nat, rest: string)
    ensures Digits(n) + rest == if n < 10 then [Digit(n)] + rest else Digits(n / 10) + ([Digit(n % 10)] + rest)
  {
  }

  method TurnRound(tmp: string) returns (r: string)
    ensures r == Reverse(tmp)
  {
    r := [];
    var i := |tmp| - 1;
    assert tmp[..i + 1] == tmp;
    while i >= 0
      invariant -1 <= i < |tmp| && r + Reverse(tmp[..i + 1]) == Reverse(tmp)
    {
      assert tmp[..i + 1] == tmp[..i] + [tmp[i]];
      ReverseAppend(tmp[..i], tmp[i]);
      r := r + [tmp[i]];
      i := i - 1;
    }
  }

  function Reverse(s: string): string { if s == [] then [] else [s[|s| - 1]] + Reverse(s[..|s| - 1]) }

  lemma ReverseAppend(s: string, c: char)
    ensures Reverse(s + [c]) == [c] + Reverse(s)
  {
  }

  /** The number that a string starts with, after `v` has been read. */
  function Number(s: string, v: nat): nat
    decreases |s|
  {
    if s == [] || !IsDigit(s[0]) then v else Number(s[1..], v * 10 + (s[0] - '0') as nat)
  }

  /** `simple_atoi` */
  method Atoi(s: string) returns (v: nat)
    ensures v == Number(s, 0)
  {
    v := 0;
    var i := 0;
    while i < |s| && IsDigit(s[i])
      invariant 0 <= i <= |s| && Number(s[i..], v) == Number(s, 0)
    {
      assert s[i..][1..] == s[i + 1..];
      v := v * 10 + (s[i] - '0') as nat;
      i := i + 1;
    }
  }

  lemma {:induction false} NumberConcat(s: string, t: string, v: nat)
    requires forall i :: 0 <= i < |s| ==> IsDigit(s[i])
    ensures Number(s + t, v) == Number(t, Number(s, v))
    decreases |s|
  {
    if s == [] {
      assert s + t == t;
    } else {
      assert (s + t)[1..] == s[1..] + t;
      NumberConcat(s[1..], t, v * 10 + (s[0] - '0') as nat);
    }
  }

  /** Reading a printed number gives the number back. */
  lemma {:induction false} NumberOfDigits(n: nat)
    ensures Number(Digits(n), 0) == n
  {
    if n >= 10 {
      NumberOfDigits(n / 10);
      NumberConcat(Digits(n / 10), [Digit(n % 10)], 0);
    }
    assert Number([Digit(n % 10)], n / 10) == n / 10 * 10 + n % 10 by { OneDigit(n % 10, n / 10); }
    if n < 10 { OneDigit(n, 0); }
  }

  function DigitValue(c: char): nat { if IsDigit(c) then (c - '0') as nat else 0 }

  /** What the digits of a string stand for, the last one counting once and each one before it ten times the next. */
  function Value(s: string): nat {
    if s == [] then 0 else Value(s[..|s| - 1]) * 10 + DigitValue(s[|s| - 1])
  }

  /** Reading stops at the first character that is no digit, and gives the value of the digits before it. */
  lemma {:induction false} NumberIs(digits: string, rest: string)
    requires (forall i :: 0 <= i < |digits| ==> IsDigit(digits[i])) && (rest != [] ==> !IsDigit(rest[0]))
    ensures Number(digits + rest, 0) == Value(digits)
    decreases |digits|
  {
    NumberConcat(digits, rest, 0);
    if digits != [] {
      var n := |digits| - 1;
      NumberIs(digits[..n], []);
      assert digits[..n] + [] == digits[..n] && digits == digits[..n] + [digits[n]];
      NumberConcat(digits[..n], [digits[n]], 0);
      OneMore(digits[n], Number(digits[..n], 0));
    }
  }

  lemma OneMore(c: char, v: nat)
    requires IsDigit(c)
    ensures Number([c], v) == v * 10 + (c - '0') as nat
  {
    assert [c][1..] == [];
  }

  lemma OneDigit(d: nat, v: nat)
    requires d < 10
    ensures Number([Digit(d)], v) == v * 10 + d
  {
  }

  // ---------------------------------------------------------------- formats

  datatype Arg = S(s: string) | D(v: int)

  /** Everything a format prints, in a buffer that is large enough. */
  function Format(fmt: string, args: seq<Arg>): string
    decreases |fmt|
  {
    if fmt == [] then []
    else if fmt[0] != '%' then [fmt[0]] + Format(fmt[1..], args)
    else if |fmt| == 1 then []
    else if fmt[1] == 's' && args != [] && args[0].S? then args[0].s + Format(fmt[2..], args[1..])
    else if (fmt[1] == 'd' || fmt[1] == 'u') && args != []
      && args[0].D? then Decimal(args[0].v) + Format(fmt[2..], args[1..])
    else Format(fmt[2..], args)
  }

  function Cut(s: string, n: nat): string { if n < |s| then s[..n] else s }

  lemma {:induction false} FormatLiteral(lit: string, rest: string, args: seq<Arg>)
    requires '%' !in lit
    ensures Format(lit + rest, args) == lit + Format(rest, args)
    decreases |lit|
  {
    if lit == [] {
      assert lit + rest == rest;
    } else {
      assert (lit + rest)[1..] == lit[1..] + rest;
      FormatLiteral(lit[1..], rest, args);
    }
  }

  lemma FormatString(rest: string, x: string, args: seq<Arg>)
    ensures Format("%s" + rest, [S(x)] + args) == x + Format(rest, args)
  {
  }

  lemma FormatNumber(rest: string, v: int, args: seq<Arg>)
    ensures Format("%d" + rest, [D(v)] + args) == Decimal(v) + Format(rest, args)
  {
  }

  /** What the format still prints from position `i` and argument `k` on. */
  function FormatFrom(fmt: string, i: nat, args: seq<Arg>, k: nat): string
    requires i <= |fmt| && k <= |args|
  {
    Format(fmt[i..], args[k..])
  }

  /** `u_fmt`: what the format prints, cut off where the buffer of `room` bytes is full. */
  method Fmt(fmt: string, args: seq<Arg>, room: nat) returns (r: string)
    requires room > 0
    ensures r == Cut(Format(fmt, args), room - 1)
  {
    hide Decimal, Format, FormatFrom, Cut;
    r := [];
    var i, k := 0, 0;
    FormatStart(fmt, args);
    while i < |fmt| && |r| + 1 < room
      invariant 0 <= i <= |fmt| && 0 <= k <= |args| && |r| < room
      invariant Cut(r + FormatFrom(fmt, i, args, k), room - 1) == Cut(Format(fmt, args), room - 1)
    {
      NextPiece(fmt, i, args, k);
      if fmt[i] != '%' {
        CutStep(r, [fmt[i]], FormatFrom(fmt, i + 1, args, k), room - 1);
        r := r + [fmt[i]];
        i := i + 1;
      } else {
        i := i + 1;
        if i < |fmt| && fmt[i] == 's' && k < |args| && args[k].S? {
          CutStep(r, args[k].s, FormatFrom(fmt, i + 1, args, k + 1), room - 1);
          r := Cut(r + args[k].s, room - 1);
          k := k + 1;
        } else if i < |fmt| && (fmt[i] == 'd' || fmt[i] == 'u') && k < |args| && args[k].D? {
          var tmp := Itoa(args[k].v);
          CutStep(r, tmp, FormatFrom(fmt, i + 1, args, k + 1), room - 1);
          r := Cut(r + tmp, room - 1);
          k := k + 1;
        }
        if i < |fmt| {
          i := i + 1;
        }
      }
    }
    CutDone(r, fmt, i, args, k, room);
  }

  lemma FormatStart(fmt: string, args: seq<Arg>)
    ensures [] + FormatFrom(fmt, 0, args, 0) == Format(fmt, args)
  {
  }

  /** One step of a format, seen from position `i` and argument `k`. */
  lemma NextPiece(fmt: string, i: nat, args: seq<Arg>, k: nat)
    requires i < |fmt| && k <= |args|
    ensures FormatFrom(fmt, i, args, k) ==
      if fmt[i] != '%' then [fmt[i]] + FormatFrom(fmt, i + 1, args, k)
      else if i + 1 == |fmt| then FormatFrom(fmt, i + 1, args, k)
      else if fmt[i + 1] == 's' && k < |args| && args[k].S? then args[k].s + FormatFrom(fmt, i + 2, args, k + 1)
      else if (fmt[i + 1] == 'd' || fmt[i + 1] == 'u') && k < |args|
        && args[k].D? then Decimal(args[k].v) + FormatFrom(fmt, i + 2, args, k + 1)
      else FormatFrom(fmt, i + 2, args, k)
  {
  }

  /** Cutting after each piece is cutting once. */
  lemma CutStep(r: string, piece: string, rest: string, n: nat)
    ensures Cut(Cut(r + piece, n) + rest, n) == Cut(r + (piece + rest), n)
    ensures |r| + |piece| <= n ==> Cut(r + piece, n) == r + piece
    ensures |Cut(r + piece, n)| <= n
  {
  }

  lemma CutDone(r: string, fmt: string, i: nat, args: seq<Arg>, k: nat, room: nat)
    requires i <= |fmt| && k <= |args| && 0 < room && |r| < room && (i == |fmt| || |r| + 1 >= room)
    ensures Cut(r + FormatFrom(fmt, i, args, k), room - 1) == r
  {
  }

  // ---------------------------------------------------------------- fields

  /** The fields of a line, at most `max` of them; the last one keeps any further colons. */
  function Fields(line: string, max: nat): seq<string>
    decreases |line|
  {
    var e := Colon(line, 0);
    if max <= 1 || e == |line| then [line] else [line[..e]] + Fields(line[e + 1..], max - 1)
  }

  /** Where the next colon is, from `i` on. */
  function Colon(line: string, i: nat): (r: nat)
    requires i <= |line|
    ensures i <= r <= |line| && (r < |line| ==> line[r] == ':') && forall j :: i <= j < r ==> line[j] != ':'
    decreases |line| - i
  {
    if i == |line| || line[i] == ':' then i else Colon(line, i + 1)
  }

  /** The fields from position `start` on. */
  function FieldsFrom(line: string, start: nat, max: nat): seq<string>
    requires start <= |line|
  {
    Fields(line[start..], max)
  }

  /** No colon stands between two positions. */
  predicate NoColon(line: string, start: nat, at: nat)
    requires start <= at <= |line|
  {
    forall j :: start <= j < at ==> line[j] != ':'
  }

  /** `split_fields` */
  method SplitFields(line: string, max: nat) returns (fields: seq<string>)
    requires max > 0
    ensures fields == Fields(line, max)
  {
    hide Fields, FieldsFrom;
    fields := [];
    var start, at := 0, 0;
    WholeLine(line, max);
    while at < |line| && |fields| + 1 < max
      invariant 0 <= start <= at <= |line| && |fields| < max && NoColon(line, start, at)
      invariant fields + FieldsFrom(line, start, max - |fields|) == Fields(line, max)
    {
      if line[at] == ':' {
        FieldStep(line, start, at, max - |fields|);
        Regroup(fields, line[start..at], FieldsFrom(line, at + 1, max - |fields| - 1));
        fields := fields + [line[start..at]];
        start := at + 1;
      }
      at := at + 1;
    }
    LastField(line, start, at, max - |fields|);
    fields := fields + [line[start..]];
  }

  lemma WholeLine(line: string, max: nat)
    ensures [] + FieldsFrom(line, 0, max) == Fields(line, max)
  {
  }

  lemma Regroup(xs: seq<string>, y: string, zs: seq<string>)
    ensures xs + ([y] + zs) == xs + [y] + zs
  {
  }

  lemma FieldStep(line: string, start: nat, at: nat, max: nat)
    requires start <= at < |line| && max > 1 && NoColon(line, start, at) && line[at] == ':'
    ensures FieldsFrom(line, start, max) == [line[start..at]] + FieldsFrom(line, at + 1, max - 1)
  {
    var l := line[start..];
    assert l[at - start] == line[at] && forall j :: 0 <= j < at - start ==> l[j] == line[start + j];
    assert Colon(l, 0) == at - start;
    assert l[..at - start] == line[start..at] && l[at - start + 1..] == line[at + 1..];
  }

  lemma LastField(line: string, start: nat, at: nat, max: nat)
    requires start <= at <= |line| && NoColon(line, start, at) && (at == |line| || max <= 1)
    ensures FieldsFrom(line, start, max) == [line[start..]]
  {
  }

  function Join(fields: seq<string>): string
    decreases |fields|
  {
    if fields == [] then [] else if |fields| == 1 then fields[0] else fields[0] + ":" + Join(fields[1..])
  }

  predicate Plain(s: string) { ':' !in s && '\n' !in s && '\0' !in s }

  /** Splitting undoes joining, but for the fields beyond the maximum, which stay joined. */
  lemma {:induction false} FieldsOfJoin(fields: seq<string>, max: nat)
    requires fields != [] && max > 0 && forall i :: 0 <= i < |fields| ==> ':' !in fields[i]
    ensures Fields(Join(fields), max) == AtMost(fields, max)
    decreases |fields|
  {
    hide Join, Fields;
    JoinParts(fields);
    if |fields| == 1 {
      OnlyField(fields[0], max);
      assert fields == [fields[0]];
    } else if max == 1 {
      LastOne(Join(fields));
      assert fields[0..] == fields && fields[..0] == [];
    } else {
      FieldsOfJoin(fields[1..], max - 1);
      FirstField(fields[0], Join(fields[1..]), max);
      assert AtMost(fields, max) == [fields[0]] + AtMost(fields[1..], max - 1) by {
        assert fields == [fields[0]] + fields[1..];
        assert |fields| > max ==> fields[1..][max - 2..] == fields[max - 1..];
      }
    }
  }

  /** The fields, of which the last may stand for several. */
  function AtMost(fields: seq<string>, max: nat): (r: seq<string>)
    requires max > 0
    ensures |fields| <= max ==> r == fields
    ensures |fields| > max ==> |r| == max && forall i :: 0 <= i < max - 1 ==> r[i] == fields[i]
  {
    if |fields| <= max then fields else fields[..max - 1] + [Join(fields[max - 1..])]
  }

  lemma LastOne(line: string)
    ensures Fields(line, 1) == [line]
  {
  }

  /** Every line is the fields it is split into, joined again. */
  lemma {:induction false} JoinOfFields(line: string, max: nat)
    requires max > 0
    ensures var f := Fields(line, max);
      && 0 < |f| <= max && Join(f) == line && (forall i :: 0 <= i < |f| - 1 ==> ':' !in f[i])
      && (|f| < max ==> ':' !in f[|f| - 1])
    decreases |line|
  {
    var e := Colon(line, 0);
    if max > 1 && e < |line| {
      JoinOfFields(line[e + 1..], max - 1);
      var f := Fields(line[e + 1..], max - 1);
      assert Fields(line, max) == [line[..e]] + f && ([line[..e]] + f)[1..] == f;
      assert line == line[..e] + ":" + line[e + 1..];
    }
  }

  lemma JoinParts(fields: seq<string>)
    requires fields != []
    ensures Join(fields) == if |fields| == 1 then fields[0] else fields[0] + ":" + Join(fields[1..])
  {
  }

  lemma FirstField(f: string, rest: string, max: nat)
    requires ':' !in f && max > 1
    ensures Fields(f + ":" + rest, max) == [f] + Fields(rest, max - 1)
  {
    var line := f + ":" + rest;
    assert line[|f|] == ':' && forall j :: 0 <= j < |f| ==> line[j] == f[j];
    assert Colon(line, 0) == |f|;
    assert line[..|f|] == f && line[|f| + 1..] == rest;
  }

  lemma OnlyField(f: string, max: nat)
    requires ':' !in f
    ensures Fields(f, max) == [f]
  {
  }

  // ---------------------------------------------------------------- lines

  function Newline(text: string, i: nat): (r: nat)
    requires i <= |text|
    ensures i <= r <= |text| && (r < |text| ==> text[r] == '\n') && forall j :: i <= j < r ==> text[j] != '\n'
    decreases |text| - i
  {
    if i == |text| || text[i] == '\n' then i else Newline(text, i + 1)
  }

  /** The lines of a text; a newline at the very end starts no further line. */
  function Lines(text: string): seq<string>
    decreases |text|
  {
    if text == [] then [] else
      var e := Newline(text, 0);
      if e == |text| then [text] else [text[..e]] + Lines(text[e + 1..])
  }

  function Unlines(lines: seq<string>): string
    decreases |lines|
  {
    if lines == [] then [] else lines[0] + "\n" + Unlines(lines[1..])
  }

  lemma {:induction false} LinesOfUnlines(lines: seq<string>)
    requires forall i :: 0 <= i < |lines| ==> '\n' !in lines[i]
    ensures Lines(Unlines(lines)) == lines
    decreases |lines|
  {
    hide Lines;
    if lines != [] {
      FirstLine(lines[0], Unlines(lines[1..]));
      LinesOfUnlines(lines[1..]);
    } else {
      NoLines();
    }
  }

  /**
   Every text is its lines, none of which holds a newline; a newline that is missing at the end makes no
   difference.
   */
  lemma {:induction false} UnlinesOfLines(text: string)
    ensures Unlines(Lines(text)) == if text == "" || text[|text| - 1] == '\n' then text else text + "\n"
    ensures forall i :: 0 <= i < |Lines(text)| ==> '\n' !in Lines(text)[i]
    decreases |text|
  {
    hide Lines, Unlines;
    LinesNext(text);
    if text != [] {
      var e := Newline(text, 0);
      if e < |text| {
        UnlinesOfLines(text[e + 1..]);
        UnlinesNext(text[..e], Lines(text[e + 1..]));
        assert text == text[..e] + "\n" + text[e + 1..];
      } else {
        UnlinesNext(text, []);
        assert text + "\n" + "" == text + "\n";
      }
    }
  }

  lemma LinesNext(text: string)
    ensures var e := Newline(text, 0);
      Lines(text) == if text == [] then [] else if e == |text| then [text] + [] else [text[..e]] + Lines(text[e + 1..])
    ensures Unlines([]) == ""
  {
  }

  lemma UnlinesNext(l: string, ls: seq<string>)
    ensures Unlines([l] + ls) == l + "\n" + Unlines(ls)
  {
    assert ([l] + ls)[1..] == ls;
  }

  lemma NoLines()
    ensures Lines([]) == []
  {
  }

  lemma FirstLine(l: string, rest: string)
    requires '\n' !in l
    ensures Lines(l + "\n" + rest) == [l] + Lines(rest)
  {
    var text := l + "\n" + rest;
    assert text[|l|] == '\n' && forall j :: 0 <= j < |l| ==> text[j] == l[j];
    assert Newline(text, 0) == |l|;
    assert text[..|l|] == l && text[|l| + 1..] == rest;
  }

  lemma {:induction false} UnlinesAppend(lines: seq<string>, l: string)
    ensures Unlines(lines + [l]) == Unlines(lines) + l + "\n"
    decreases |lines|
  {
    if lines == [] {
      assert lines + [l] == [l] && [l][1..] == [];
    } else {
      assert (lines + [l])[1..] == lines[1..] + [l];
      UnlinesAppend(lines[1..], l);
    }
  }
}
