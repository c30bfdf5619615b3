/**
 The initial stack of a user program: strings, pointer vectors and the auxiliary vector,
 written downwards in chunks of at most a page, and read back the way the C start-up code does.
 */
module UserStack {
  import opened Arith
  import opened Bytes

  type Pages = map<nat, seq<byte>>

  ghost predicate Whole(p: Pages) { forall q :: q in p ==> |p[q]| == 4096 }

  /** The byte a program sees at an address; a page that is not there yet will be zero. */
  function Byte(p: Pages, a: nat): byte {
    if a / 4096 in p && |p[a / 4096]| == 4096 then p[a / 4096][a % 4096] else 0
  }

  /** Memory changed to `data` from `dst` on, and nowhere else. */
  ghost predicate Written(p: Pages, q: Pages, dst: nat, data: seq<byte>) {
    forall a: nat :: Byte(q, a) == if dst <= a < dst + |data| then data[a - dst] else Byte(p, a)
  }

  // ---------------------------------------------------------------- words

  function Le(v: nat, n: nat): (r: seq<byte>)
    ensures |r| == n
  {
    if n == 0 then [] else [v % 256] + Le(v / 256, n - 1)
  }

  lemma LeAt(v: nat, n: nat)
    requires n > 0
    ensures Le(v, n)[0] == v % 256 && forall k :: 0 < k < n ==> Le(v, n)[k] == Le(v / 256, n - 1)[k - 1]
  {
  }

  function Pow256(n: nat): nat { if n == 0 then 1 else 256 * Pow256(n - 1) }

  /** The little-endian number in `n` bytes from `a` on. */
  function Number(p: Pages, a: nat, n: nat): nat
    decreases n
  {
    if n == 0 then 0 else Byte(p, a) + 256 * Number(p, a + 1, n - 1)
  }

  function Load64(p: Pages, a: nat): nat { Number(p, a, 8) }

  lemma {:induction false} NumberOfLe(p: Pages, a: nat, v: nat, n: nat)
    requires v < Pow256(n) && forall x: nat :: a <= x < a + n ==> Byte(p, x) == Le(v, n)[x - a]
    ensures Number(p, a, n) == v
    decreases n
  {
    if n > 0 {
      LeAt(v, n);
      hide Byte, Le;
      forall x: nat | a + 1 <= x < a + n ensures Byte(p, x) == Le(v / 256, n - 1)[x - (a + 1)] {
        assert Byte(p, x) == Le(v, n)[x - a];
      }
      assert Byte(p, a) == Le(v, n)[a - a];
      NumberOfLe(p, a + 1, v / 256, n - 1);
    }
  }

  lemma {:induction false} SameNumber(p: Pages, q: Pages, a: nat, n: nat)
    requires forall x: nat :: a <= x < a + n ==> Byte(q, x) == Byte(p, x)
    ensures Number(q, a, n) == Number(p, a, n)
    decreases n
  {
    if n > 0 {
      SameNumber(p, q, a + 1, n - 1);
    }
  }

  const WORD := 0x1_0000_0000_0000_0000

  lemma WordFits()
    ensures Pow256(8) == WORD
  {
    assert Pow256(4) == 0x1_0000_0000;
  }

  // ---------------------------------------------------------------- strings

  ghost predicate NulFree(s: seq<byte>) { forall i :: 0 <= i < |s| ==> s[i] != 0 }

  /** The C string at `a` is `s`. */
  ghost predicate Holds(p: Pages, a: nat, s: seq<byte>) {
    NulFree(s) && (forall i :: 0 <= i < |s| ==> Byte(p, a + i) == s[i]) && Byte(p, a + |s|) == 0
  }

  /** Everything from `a` up is as it was. */
  ghost predicate SameFrom(p: Pages, q: Pages, a: nat) { forall x: nat :: x >= a ==> Byte(q, x) == Byte(p, x) }

  lemma HoldsStill(p: Pages, q: Pages, floor: nat, a: nat, s: seq<byte>)
    requires Holds(p, a, s) && SameFrom(p, q, floor) && floor <= a
    ensures Holds(q, a, s)
  {
    hide Byte;
  }

  lemma LoadStill(p: Pages, q: Pages, floor: nat, a: nat)
    requires SameFrom(p, q, floor) && floor <= a
    ensures Load64(q, a) == Load64(p, a)
  {
    hide Byte;
    SameNumber(p, q, a, 8);
  }

  lemma WrittenBelow(p: Pages, q: Pages, dst: nat, data: seq<byte>, floor: nat)
    requires Written(p, q, dst, data) && dst + |data| <= floor
    ensures SameFrom(p, q, floor)
  {
    hide Byte;
  }

  /** The strings `s` stand at the addresses `ptrs`, none below `floor`. */
  ghost predicate Strings(p: Pages, ptrs: seq<nat>, s: seq<seq<byte>>, floor: nat) {
    |ptrs| == |s| && forall i :: 0 <= i < |s| ==> floor <= ptrs[i] < WORD && Holds(p, ptrs[i], s[i])
  }

  lemma StringsStill(p: Pages, q: Pages, ptrs: seq<nat>, s: seq<seq<byte>>, floor: nat, floor': nat)
    requires Strings(p, ptrs, s, floor) && SameFrom(p, q, floor) && floor' <= floor
    ensures Strings(q, ptrs, s, floor')
  {
    hide Holds;
    forall i | 0 <= i < |s| ensures Holds(q, ptrs[i], s[i]) {
      HoldsStill(p, q, floor, ptrs[i], s[i]);
    }
  }

  /** The words from `a` on are `ws`. */
  ghost predicate Words(p: Pages, a: nat, ws: seq<nat>) { forall i :: 0 <= i < |ws| ==> Load64(p, a + 8 * i) == ws[i] }

  lemma WordsStill(p: Pages, q: Pages, a: nat, ws: seq<nat>)
    requires Words(p, a, ws) && SameFrom(p, q, a)
    ensures Words(q, a, ws)
  {
    hide Load64, SameFrom;
    forall i | 0 <= i < |ws| ensures Load64(q, a + 8 * i) == ws[i] {
      LoadStill(p, q, a, a + 8 * i);
    }
  }

  /** One more word in front. */
  lemma WordsPush(p: Pages, q: Pages, a: nat, w: nat, ws: seq<nat>)
    requires Words(p, a, ws) && a >= 8 && SameFrom(p, q, a) && Load64(q, a - 8) == w
    ensures Words(q, a - 8, [w] + ws)
  {
    hide Load64, SameFrom;
    WordsStill(p, q, a, ws);
    forall i | 0 <= i < |ws| + 1 ensures Load64(q, a - 8 + 8 * i) == ([w] + ws)[i] {
      if i > 0 {
        assert a - 8 + 8 * i == a + 8 * (i - 1);
      }
    }
  }

  // ---------------------------------------------------------------- writing

  /** One page's worth of bytes. */
  lemma ChunkWritten(p: Pages, q: Pages, dst: nat, data: seq<byte>)
    requires Whole(p) && dst % 4096 + |data| <= 4096
    requires var page := if dst / 4096 in p then p[dst / 4096] else Zeros(4096);
      q == p[dst / 4096 := Splice(page, dst % 4096, data)]
    ensures Whole(q) && Written(p, q, dst, data)
  {
    forall a: nat ensures Byte(q, a) == if dst <= a < dst + |data| then data[a - dst] else Byte(p, a) {
      if a / 4096 == dst / 4096 {
        assert a - dst == a % 4096 - dst % 4096;
      }
    }
  }

  lemma WrittenMore(p: Pages, q: Pages, r: Pages, dst: nat, data: seq<byte>, i: nat, j: nat)
    requires i <= j <= |data| && Written(p, q, dst, data[..i]) && Written(q, r, dst + i, data[i..j])
    ensures Written(p, r, dst, data[..j])
  {
    hide Byte;
  }

  class UserMemory {
    var pages: Pages

    /** `write_bytes_to_user`, with memory for every page it needs. */
    method WriteBytes(start: nat, src: seq<byte>)
      requires Whole(pages)
      modifies this
      ensures Whole(pages) && Written(old(pages), pages, start, src)
    {
      hide Written, Whole;
      var dst, done := start, 0;
      WrittenNone(pages, start, src);
      while done < |src|
        invariant 0 <= done <= |src| && dst == start + done && Whole(pages)
        invariant Written(old(pages), pages, start, src[..done])
      {
        var page, off := dst / 4096, dst % 4096;
        var chunk := 4096 - off;
        if chunk > |src| - done {
          chunk := |src| - done;
        }
        ghost var before := pages;
        var content := Zeros(4096);
        if page in pages {
          WholePage(pages, page);
          content := pages[page];
        }
        pages := pages[page := Splice(content, off, src[done..done + chunk])];
        ChunkWritten(before, pages, dst, src[done..done + chunk]);
        WrittenMore(old(pages), before, pages, start, src, done, done + chunk);
        dst, done := dst + chunk, done + chunk;
      }
      assert src[..done] == src;
    }

    /** `push64_to_space` */
    method Push64(top: nat, v: nat) returns (sp: nat)
      requires Whole(pages) && top >= 8 && v < WORD
      modifies this
      ensures Whole(pages) && sp == top - 8 && Load64(pages, sp) == v && SameFrom(old(pages), pages, top)
    {
      hide Written, Whole, SameFrom, Load64;
      sp := top - 8;
      ghost var before := pages;
      WriteBytes(sp, Le(v, 8));
      WrittenBelow(before, pages, sp, Le(v, 8), top);
      WrittenWord(before, pages, sp, v);
    }

    /** Pushes the words so that they stand in order, in front of those already there. */
    method PushWords(top: nat, ws: seq<nat>, ghost rest: seq<nat>) returns (sp: nat)
      requires Whole(pages) && top >= 8 * |ws| && Words(pages, top, rest) && forall i :: 0 <= i < |ws| ==> ws[i] < WORD
      modifies this
      ensures Whole(pages) && sp == top - 8 * |ws| && Words(pages, sp, ws + rest) && SameFrom(old(pages), pages, top)
    {
      hide Whole, SameFrom, Load64, Words;
      sp := top;
      SameSelf(pages, top);
      var i := |ws|;
      assert ws[i..] + rest == rest;
      while i > 0
        invariant 0 <= i <= |ws| && sp == top - 8 * (|ws| - i) && Whole(pages)
        invariant Words(pages, sp, ws[i..] + rest) && SameFrom(old(pages), pages, top)
      {
        i := i - 1;
        ghost var before, above := pages, sp;
        sp := Push64(sp, ws[i]);
        WordsPush(before, pages, above, ws[i], ws[i + 1..] + rest);
        InFront(ws, i, rest);
        SameUp(before, pages, above, top);
        SameThen(old(pages), before, pages, top);
      }
      assert ws[0..] + rest == ws + rest;
    }

    /** Copies the strings, last one first, each below the one before. */
    method PushStrings(top: nat, strings: seq<seq<byte>>) returns (sp: nat, ptrs: seq<nat>)
      requires Whole(pages) && Total(strings) < top < WORD && forall i :: 0 <= i < |strings| ==> NulFree(strings[i])
      modifies this
      ensures Whole(pages) && sp == top - Total(strings) && Strings(pages, ptrs, strings, sp)
        && SameFrom(old(pages), pages, top)
    {
      hide Whole, SameFrom, Written, Holds, Strings, NulFree;
      sp, ptrs := top, [];
      SameSelf(pages, top);
      var i := |strings|;
      NoStrings(pages, strings, sp);
      while i > 0
        invariant 0 <= i <= |strings| && sp == top - Total(strings[i..]) && Whole(pages)
        invariant Strings(pages, ptrs, strings[i..], sp) && SameFrom(old(pages), pages, top)
        invariant Total(strings[i..]) <= Total(strings)
      {
        i := i - 1;
        TotalStep(strings, i);
        ghost var before, above := pages, sp;
        var text := strings[i] + [0];
        sp := sp - |text|;
        WriteBytes(sp, text);
        ptrs := [sp] + ptrs;
        WrittenBelow(before, pages, sp, text, above);
        OneMoreString(before, pages, ptrs[1..], strings, i, above, sp);
        SameUp(before, pages, above, top);
        SameThen(old(pages), before, pages, top);
      }
      assert strings[0..] == strings;
    }

    /** The auxiliary vector, the environment, the arguments and their number, below `top`. */
    method PushVectors(top: nat, ghost floor: nat, ghost argv: seq<seq<byte>>, ghost envp: seq<seq<byte>>,
                       argPtrs: seq<nat>, envPtrs: seq<nat>, rand: nat, ghost p2: Pages, ghost p3: Pages,
                         ghost sp2: nat) returns (sp: nat)
      requires Whole(pages) && pages == p3 && rand < WORD && top <= floor
      requires Strings(p2, envPtrs, envp, sp2) && Strings(p3, argPtrs, argv, floor)
      requires top >= 8 * (|argv| + |envp| + 9) && |argv| < WORD
      modifies this
      ensures Whole(pages) && sp == top - 8 * (|argv| + |envp| + 9) && SameFrom(p3, pages, floor)
      ensures Words(pages, sp, [|argv|] + (argPtrs + [0] + (envPtrs + [0] + (Aux(rand) + []))))
    {
      hide Whole, SameFrom, Words, Strings, Load64;
      PointersFit(p2, envPtrs, envp, sp2);
      PointersFit(p3, argPtrs, argv, floor);
      NoWords(pages, top);
      sp := PushWords(top, Aux(rand), []);
      ghost var p4, sp4 := pages, sp;
      sp := PushWords(sp, envPtrs + [0], Aux(rand) + []);
      ghost var p5, sp5 := pages, sp;
      sp := PushWords(sp, argPtrs + [0], envPtrs + [0] + (Aux(rand) + []));
      ghost var p6, sp6 := pages, sp;
      sp := PushWords(sp, [|argPtrs|], argPtrs + [0] + (envPtrs + [0] + (Aux(rand) + [])));
      SameUp(p3, p4, top, floor);
      SameUp(p4, p5, sp4, floor);
      SameUp(p5, p6, sp5, floor);
      SameUp(p6, pages, sp6, floor);
      SameThen(p3, p4, p5, floor);
      SameThen(p3, p5, p6, floor);
      SameThen(p3, p6, pages, floor);
    }

    /** `setup_user_stack_argv`: the stack pointer the program starts with. */
    method SetupStack(stackTop: nat, argv: seq<seq<byte>>, envp: seq<seq<byte>>) returns (sp: nat)
      requires Whole(pages) && stackTop < WORD && Space(argv, envp) <= stackTop
      requires (forall i :: 0 <= i < |argv| ==> NulFree(argv[i])) && forall i :: 0 <= i < |envp| ==> NulFree(envp[i])
      modifies this
      ensures Whole(pages) && SameFrom(old(pages), pages, stackTop) && sp % 8 == 0 && sp < stackTop
      ensures sp % 16 == 0 <==> (|argv| + |envp|) % 2 == 1
      ensures Image(pages, sp, argv, envp)
    {
      hide Whole, SameFrom, Written, Words, Strings, NulFree, Total, Load64, Image, Rand;
      ghost var p0 := pages;
      sp := (stackTop - 16) / 16 * 16;
      sp := sp - 16;
      var rand := sp;
      WriteBytes(sp, RandBytes);
      WrittenBelow(p0, pages, sp, RandBytes, stackTop);
      WrittenRand(p0, pages, rand);
      ghost var p1 := pages;
      var envPtrs, argPtrs;
      sp, envPtrs := PushStrings(sp, envp);
      ghost var p2, sp2 := pages, sp;
      sp, argPtrs := PushStrings(sp, argv);
      ghost var p3, sp3 := pages, sp;
      Sixteens(sp / 16, |argv| + |envp|);
      sp := sp / 16 * 16;
      sp := PushVectors(sp, sp3, argv, envp, argPtrs, envPtrs, rand, p2, p3, sp2);
      StringsStill(p3, pages, argPtrs, argv, sp3, sp3);
      SameUp(p3, pages, sp3, sp2);
      SameThen(p2, p3, pages, sp2);
      StringsStill(p2, pages, envPtrs, envp, sp2, sp3);
      SameUp(p2, pages, sp2, rand);
      SameThen(p1, p2, pages, rand);
      RandStill(p1, pages, rand);
      SameUp(p1, pages, rand, stackTop);
      SameThen(p0, p1, pages, stackTop);
      ImageIs(pages, sp, argv, envp, argPtrs, envPtrs, rand, sp3);
    }
  }

  lemma Multiple(k: nat, r: nat)
    requires r == 0 || r == 8
    ensures (16 * k + r) % 16 == r && (16 * k + r) % 8 == 0
  {
    DivModUnique(k, r, 16);
    DivModUnique(2 * k + r / 8, 0, 8);
  }

  /** An odd number of words below a multiple of 16 is no multiple of 16. */
  lemma Sixteens(q: nat, n: nat)
    requires 16 * q >= 8 * (n + 9)
    ensures (q * 16 - 8 * (n + 9)) % 16 == 0 <==> n % 2 == 1
    ensures (q * 16 - 8 * (n + 9)) % 8 == 0
  {
    var d := 16 * (q - n / 2 - 5);
    if n % 2 == 1 {
      assert n == 2 * (n / 2) + 1 && q * 16 - 8 * (n + 9) == d;
      Multiple(q - n / 2 - 5, 0);
    } else {
      assert n == 2 * (n / 2) && q * 16 - 8 * (n + 9) == d + 8;
      Multiple(q - n / 2 - 5, 8);
    }
  }

  const RandBytes: seq<byte> := [1, 2, 3, 4, 5, 6, 7, 8, 9, 10, 11, 12, 13, 14, 15, 16]

  /** The auxiliary vector: page size, random bytes, end. */
  function Aux(rand: nat): seq<nat> { [6, 0x1000, 25, rand, 0, 0] }

  /** Room that is always enough. */
  function Space(argv: seq<seq<byte>>, envp: seq<seq<byte>>): nat {
    Total(argv) + Total(envp) + 8 * (|argv| + |envp| + 9) + 64
  }

  ghost predicate Rand(p: Pages, a: nat) { forall i :: 0 <= i < 16 ==> Byte(p, a + i) == RandBytes[i] }

  /** The stack as the System V ABI lays it out: argc, argv, NULL, envp, NULL, auxv. */
  ghost predicate Layout(p: Pages, sp: nat, argv: seq<seq<byte>>, envp: seq<seq<byte>>, argPtrs: seq<nat>,
                         envPtrs: seq<nat>, rand: nat) {
    && Words(p, sp, [|argv|] + argPtrs + [0] + envPtrs + [0] + Aux(rand))
    && Strings(p, argPtrs, argv, 1) && Strings(p, envPtrs, envp, 1) && Rand(p, rand)
  }

  ghost predicate Image(p: Pages, sp: nat, argv: seq<seq<byte>>, envp: seq<seq<byte>>) {
    exists argPtrs: seq<nat>, envPtrs: seq<nat>, rand: nat :: Layout(p, sp, argv, envp, argPtrs, envPtrs, rand)
  }

  lemma WrittenRand(p: Pages, q: Pages, a: nat)
    requires Written(p, q, a, RandBytes)
    ensures Rand(q, a)
  {
    hide Byte;
  }

  lemma RandStill(p: Pages, q: Pages, a: nat)
    requires Rand(p, a) && SameFrom(p, q, a)
    ensures Rand(q, a)
  {
    hide Byte;
  }

  lemma NoWords(p: Pages, a: nat)
    ensures Words(p, a, [])
  {
  }

  lemma PointersFit(p: Pages, ptrs: seq<nat>, s: seq<seq<byte>>, floor: nat)
    requires Strings(p, ptrs, s, floor)
    ensures |ptrs| == |s| && forall i :: 0 <= i < |ptrs + [0]| ==> (ptrs + [0])[i] < WORD
  {
  }

  lemma ImageIs(p: Pages, sp: nat, argv: seq<seq<byte>>, envp: seq<seq<byte>>, argPtrs: seq<nat>, envPtrs: seq<nat>,
                rand: nat, floor: nat)
    requires Words(p, sp, [|argv|] + (argPtrs + [0] + (envPtrs + [0] + (Aux(rand) + []))))
    requires Strings(p, argPtrs, argv, floor) && Strings(p, envPtrs, envp, floor) && floor >= 1 && Rand(p, rand)
    ensures Image(p, sp, argv, envp)
  {
    hide Words, Holds, Rand;
    assert [|argv|] + (argPtrs + [0] + (envPtrs + [0] + (Aux(rand) + []))) ==
      [|argv|] + argPtrs + [0] + envPtrs + [0] + Aux(rand);
    assert Layout(p, sp, argv, envp, argPtrs, envPtrs, rand);
  }

  /** Bytes that a list of C strings takes. */
  function Total(strings: seq<seq<byte>>): nat
    decreases |strings|
  {
    if strings == [] then 0 else |strings[0]| + 1 + Total(strings[1..])
  }

  lemma {:induction false} TotalStep(strings: seq<seq<byte>>, i: nat)
    requires i < |strings|
    ensures Total(strings[i..]) == |strings[i]| + 1 + Total(strings[i + 1..]) && Total(strings[i..]) <= Total(strings)
  {
    assert strings[i..][1..] == strings[i + 1..];
    if i > 0 {
      TotalStep(strings, i - 1);
      assert strings[i - 1..][1..] == strings[i..];
    } else {
      assert strings[0..] == strings;
    }
  }

  lemma NoStrings(p: Pages, strings: seq<seq<byte>>, sp: nat)
    ensures Strings(p, [], strings[|strings|..], sp) && Total(strings[|strings|..]) == 0
  {
  }

  lemma OneMoreString(p: Pages, q: Pages, ptrs: seq<nat>, strings: seq<seq<byte>>, i: nat, above: nat, sp: nat)
    requires i < |strings| && NulFree(strings[i]) && Strings(p, ptrs, strings[i + 1..], above) && SameFrom(p, q, above)
    requires Written(p, q, sp, strings[i] + [0]) && sp + |strings[i]| + 1 == above < WORD
    ensures Strings(q, [sp] + ptrs, strings[i..], sp)
  {
    hide Byte, NulFree;
    StringsStill(p, q, ptrs, strings[i + 1..], above, sp);
    assert Holds(q, sp, strings[i]);
    hide Holds, SameFrom, Written;
    assert forall k :: 0 < k < |strings| - i ==> strings[i..][k] == strings[i + 1..][k - 1];
  }

  lemma SameSelf(p: Pages, a: nat)
    ensures SameFrom(p, p, a)
  {
  }

  lemma SameUp(p: Pages, q: Pages, a: nat, b: nat)
    requires SameFrom(p, q, a) && a <= b
    ensures SameFrom(p, q, b)
  {
    hide Byte;
  }

  lemma SameThen(p: Pages, q: Pages, r: Pages, a: nat)
    requires SameFrom(p, q, a) && SameFrom(q, r, a)
    ensures SameFrom(p, r, a)
  {
    hide Byte;
  }

  lemma WrittenWord(p: Pages, q: Pages, a: nat, v: nat)
    requires Written(p, q, a, Le(v, 8)) && v < WORD
    ensures Load64(q, a) == v
  {
    WordFits();
    hide Byte, Pow256;
    NumberOfLe(q, a, v, 8);
  }

  lemma InFront(ws: seq<nat>, i: nat, rest: seq<nat>)
    requires i < |ws|
    ensures [ws[i]] + (ws[i + 1..] + rest) == ws[i..] + rest
  {
  }

  lemma WrittenNone(p: Pages, dst: nat, src: seq<byte>)
    ensures Written(p, p, dst, src[..0])
  {
  }

  lemma WholePage(p: Pages, q: nat)
    requires Whole(p) && q in p
    ensures |p[q]| == 4096
  {
  }

  // ---------------------------------------------------------------- reading it back

  /** The C string at an address. */
  method ReadString(p: Pages, a: nat, ghost s: seq<byte>) returns (r: seq<byte>)
    requires Holds(p, a, s)
    ensures r == s
  {
    hide Byte;
    r := [];
    HoldsAt(p, a, s, 0);
    while Byte(p, a + |r|) != 0
      invariant |r| <= |s| && r == s[..|r|]
      invariant if |r| < |s| then Byte(p, a + |r|) == s[|r|] != 0 else Byte(p, a + |r|) == 0
      decreases |s| - |r|
    {
      HoldsAt(p, a, s, |r| + 1);
      r := r + [Byte(p, a + |r|)];
    }
    assert s[..|r|] == s;
  }

  lemma HoldsAt(p: Pages, a: nat, s: seq<byte>, i: nat)
    requires Holds(p, a, s) && i <= |s|
    ensures if i < |s| then Byte(p, a + i) == s[i] != 0 else Byte(p, a + i) == 0
  {
    hide Byte;
  }

  /** The strings of a vector of pointers that ends with NULL. */
  method ReadVector(p: Pages, a: nat, ghost ptrs: seq<nat>, ghost s: seq<seq<byte>>) returns (r: seq<seq<byte>>)
    requires Words(p, a, ptrs + [0]) && Strings(p, ptrs, s, 1)
    ensures r == s
  {
    hide Holds, Load64;
    r := [];
    WordIs(p, a, ptrs, 0);
    while Load64(p, a + 8 * |r|) != 0
      invariant |r| <= |s| && r == s[..|r|] && Load64(p, a + 8 * |r|) == (ptrs + [0])[|r|]
      decreases |s| - |r|
    {
      WordIs(p, a, ptrs, |r| + 1);
      var text := ReadString(p, Load64(p, a + 8 * |r|), s[|r|]);
      r := r + [text];
    }
    assert s[..|r|] == s;
  }

  lemma WordIs(p: Pages, a: nat, ptrs: seq<nat>, i: nat)
    requires Words(p, a, ptrs + [0])
    ensures i <= |ptrs| ==> Load64(p, a + 8 * i) == (ptrs + [0])[i]
  {
    hide Load64;
  }

  /** `_start`, and a `main` that looks at all it is given. */
  method StartUp(p: Pages, rsp: nat, ghost argv: seq<seq<byte>>, ghost envp: seq<seq<byte>>)
    returns (argc: nat, args: seq<seq<byte>>, envs: seq<seq<byte>>, aux: seq<nat>)
    requires Image(p, rsp, argv, envp)
    ensures argc == |argv| && args == argv && envs == envp
    ensures |aux| == 6 && aux == Aux(aux[3]) && Rand(p, aux[3])
  {
    hide Load64, Words, Strings, Rand;
    ghost var argPtrs: seq<nat>, envPtrs: seq<nat>, rand: nat :| Layout(p, rsp, argv, envp, argPtrs, envPtrs, rand);
    PartsOf(p, rsp, argv, envp, argPtrs, envPtrs, rand);
    argc := Load64(p, rsp);
    var rsi := rsp + 8;
    var rdx := rsi + 8 * argc + 8;
    args := ReadVector(p, rsi, argPtrs, argv);
    envs := ReadVector(p, rdx, envPtrs, envp);
    var end := rdx + 8 * |envs| + 8;
    WordsAre(p, end, Aux(rand));
    aux := [Load64(p, end), Load64(p, end + 8), Load64(p, end + 16), Load64(p, end + 24), Load64(p, end + 32),
      Load64(p, end + 40)];
  }

  lemma WordsAre(p: Pages, a: nat, ws: seq<nat>)
    requires Words(p, a, ws) && |ws| == 6
    ensures ws == [Load64(p, a), Load64(p, a + 8), Load64(p, a + 16), Load64(p, a + 24), Load64(p, a + 32),
      Load64(p, a + 40)]
  {
    hide Load64;
    assert Load64(p, a + 8 * 0) == ws[0] && Load64(p, a + 8 * 1) == ws[1] && Load64(p, a + 8 * 2) == ws[2];
    assert Load64(p, a + 8 * 3) == ws[3] && Load64(p, a + 8 * 4) == ws[4] && Load64(p, a + 8 * 5) == ws[5];
  }

  lemma WordsPart(p: Pages, a: nat, xs: seq<nat>, ys: seq<nat>, zs: seq<nat>)
    requires Words(p, a, xs + ys + zs)
    ensures Words(p, a + 8 * |xs|, ys)
  {
    hide Load64;
    forall i | 0 <= i < |ys| ensures Load64(p, a + 8 * |xs| + 8 * i) == ys[i] {
      assert a + 8 * |xs| + 8 * i == a + 8 * (|xs| + i);
      assert (xs + ys + zs)[|xs| + i] == ys[i];
    }
  }

  lemma PartsOf(p: Pages, sp: nat, argv: seq<seq<byte>>, envp: seq<seq<byte>>, argPtrs: seq<nat>, envPtrs: seq<nat>,
                rand: nat)
    requires Layout(p, sp, argv, envp, argPtrs, envPtrs, rand)
    ensures Load64(p, sp) == |argv| && |argPtrs| == |argv| && |envPtrs| == |envp|
    ensures Words(p, sp + 8, argPtrs + [0]) && Words(p, sp + 8 + 8 * |argv| + 8, envPtrs + [0])
    ensures Words(p, sp + 8 + 8 * |argv| + 8 + 8 * |envp| + 8, Aux(rand))
    ensures Strings(p, argPtrs, argv, 1) && Strings(p, envPtrs, envp, 1) && Rand(p, rand)
  {
    hide Load64, Words, Holds, Rand;
    var all := [|argv|] + argPtrs + [0] + envPtrs + [0] + Aux(rand);
    assert all == [] + [|argv|] + (argPtrs + [0] + envPtrs + [0] + Aux(rand));
    assert all == [|argv|] + (argPtrs + [0]) + (envPtrs + [0] + Aux(rand));
    assert all == ([|argv|] + argPtrs + [0]) + (envPtrs + [0]) + Aux(rand);
    assert all == ([|argv|] + argPtrs + [0] + envPtrs + [0]) + Aux(rand) + [];
    WordsPart(p, sp, [], [|argv|], argPtrs + [0] + envPtrs + [0] + Aux(rand));
    WordsPart(p, sp, [|argv|], argPtrs + [0], envPtrs + [0] + Aux(rand));
    WordsPart(p, sp, [|argv|] + argPtrs + [0], envPtrs + [0], Aux(rand));
    WordsPart(p, sp, [|argv|] + argPtrs + [0] + envPtrs + [0], Aux(rand), []);
    FirstWord(p, sp, |argv|);
  }

  lemma FirstWord(p: Pages, a: nat, w: nat)
    requires Words(p, a, [w])
    ensures Load64(p, a) == w
  {
    hide Load64;
    assert Load64(p, a + 8 * 0) == [w][0];
  }
}
