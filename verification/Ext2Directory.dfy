/** The map from names to inodes that the records of a directory's blocks stand for, and how changes act on it. */
module Ext2Directory {
  import opened Arith
  import opened Bytes
  import opened Options
  import opened Ext2Dir

  // ---------------------------------------------------------------- the map a directory stands for

  predicate Match(r: Rec, name: seq<byte>) { r.inode != 0 && r.name == name }

  /** The inode of the first record in use with this name. */
  function Find(rs: seq<Rec>, name: seq<byte>): Option<nat>
    decreases |rs|
  {
    if rs == [] then None else if Match(rs[0], name) then Some(rs[0].inode) else Find(rs[1..], name)
  }

  /** The records of all blocks, in order. */
  function Flat(recs: seq<seq<Rec>>): seq<Rec>
    decreases |recs|
  {
    if recs == [] then [] else recs[0] + Flat(recs[1..])
  }

  lemma {:induction false} FindConcat(xs: seq<Rec>, ys: seq<Rec>, name: seq<byte>)
    ensures Find(xs + ys, name) == if Find(xs, name).Some? then Find(xs, name) else Find(ys, name)
    decreases |xs|
  {
    if xs == [] {
      assert xs + ys == ys;
    } else {
      assert (xs + ys)[1..] == xs[1..] + ys;
      FindConcat(xs[1..], ys, name);
    }
  }

  lemma {:induction false} FlatSplit(recs: seq<seq<Rec>>, b: nat)
    requires b <= |recs|
    ensures Flat(recs) == Flat(recs[..b]) + Flat(recs[b..])
    decreases |recs|
  {
    if b == 0 {
      assert recs[..0] == [] && recs[0..] == recs;
    } else {
      assert recs[..b][1..] == recs[1..][..b - 1] && recs[b..] == recs[1..][b - 1..];
      FlatSplit(recs[1..], b - 1);
    }
  }

  /** No two records in use have the same name. */
  ghost predicate Unique(rs: seq<Rec>) {
    forall i, j :: 0 <= i < j < |rs| && rs[i].inode != 0 && rs[j].inode != 0 ==> rs[i].name != rs[j].name
  }

  // ---------------------------------------------------------------- walking a directory

  function Global(b: nat, off: nat, bs: nat): nat { b * bs + off }

  lemma GlobalSplit(b: nat, off: nat, bs: nat)
    requires off < bs
    ensures Global(b, off, bs) / bs == b && Global(b, off, bs) % bs == off
  {
    DivModUnique(b, off, bs);
  }

  lemma GlobalFacts(b: nat, off: nat, bs: nat, n: nat)
    ensures Global(b, off, bs) + n == Global(b, off + n, bs) && Global(b, bs, bs) == Global(b + 1, 0, bs)
  {
  }

  lemma GlobalLess(b: nat, off: nat, bs: nat, c: nat)
    requires off < bs
    ensures Global(b, off, bs) < Global(c, 0, bs) <==> b < c
  {
    if b < c { MulMono(b + 1, c, bs); } else { MulMono(c, b, bs); }
  }

  ghost predicate DirOk(blocks: seq<seq<byte>>, recs: seq<seq<Rec>>, bs: nat) {
    && |blocks| == |recs| && 1024 <= bs <= 4096 && bs % 4 == 0
    && forall b :: 0 <= b < |blocks| ==> BlockOk(blocks[b], recs[b], bs)
  }

  ghost predicate BlockOk(block: seq<byte>, rs: seq<Rec>, bs: nat) {
    |block| == bs && rs != [] && Tiles(block, 0, rs, |block|)
  }

  function Start(recs: seq<seq<Rec>>, b: nat, i: nat): nat {
    if b < |recs| && i <= |recs[b]| then Length(recs[b][..i]) else 0
  }

  /** The records from position `i` of block `b` on. */
  function Todo(recs: seq<seq<Rec>>, b: nat, i: nat): seq<Rec> {
    if b < |recs| && i <= |recs[b]| then recs[b][i..] + Flat(recs[b + 1..]) else []
  }

  function NextB(recs: seq<seq<Rec>>, b: nat, i: nat): nat { if b < |recs| && i + 1 < |recs[b]| then b else b + 1 }

  function NextI(recs: seq<seq<Rec>>, b: nat, i: nat): nat { if b < |recs| && i + 1 < |recs[b]| then i + 1 else 0 }

  /** A position of the walk: a record, or the end. */
  predicate Position(recs: seq<seq<Rec>>, b: nat, i: nat) {
    b <= |recs| && (if b < |recs| then i < |recs[b]| else i == 0)
  }

  /** At a position, the byte offset leads to that record. */
  lemma Here(blocks: seq<seq<byte>>, recs: seq<seq<Rec>>, bs: nat, b: nat, i: nat)
    requires DirOk(blocks, recs, bs) && Position(recs, b, i) && b < |recs|
    ensures var off := Start(recs, b, i);
      Encodes(blocks[b], off, recs[b][i]) && off + recs[b][i].len <= bs && 8 <= recs[b][i].len
      && Div(Global(b, off, bs), bs) == b && Mod(Global(b, off, bs), bs) == off && |blocks[b]| == bs
  {
    hide Global, Encodes, Length, Tiles;
    assert BlockOk(blocks[b], recs[b], bs);
    At(blocks[b], recs[b], i);
    EncodedShape(blocks[b], Start(recs, b, i), recs[b][i]);
    GlobalSplit(b, Start(recs, b, i), bs);
  }

  lemma Onward(blocks: seq<seq<byte>>, recs: seq<seq<Rec>>, bs: nat, b: nat, i: nat)
    requires DirOk(blocks, recs, bs) && Position(recs, b, i) && b < |recs|
    ensures var c, j := NextB(recs, b, i), NextI(recs, b, i);
      Position(recs, c, j) && Global(c, Start(recs, c, j), bs) == Global(b, Start(recs, b, i), bs) + recs[b][i].len
  {
    hide Global, Encodes, Length, Tiles;
    assert BlockOk(blocks[b], recs[b], bs);
    var rs := recs[b];
    At(blocks[b], rs, i);
    Around(rs, i);
    LengthAppend(rs[..i], rs[i]);
    TilesEnd(blocks[b], Start(recs, b, i) + rs[i].len, rs[i + 1..], |blocks[b]|);
    GlobalFacts(b, Start(recs, b, i), bs, rs[i].len);
    if b + 1 < |recs| {
      assert BlockOk(blocks[b + 1], recs[b + 1], bs);
      EmptyLength(recs[b + 1]);
    }
  }

  lemma EmptyLength(rs: seq<Rec>)
    ensures Length(rs[..0]) == 0
  {
  }

  lemma TodoNext(recs: seq<seq<Rec>>, b: nat, i: nat)
    requires Position(recs, b, i) && b < |recs|
    ensures var t := Todo(recs, b, i);
      && t != [] && t[0] == recs[b][i]
      && t[1..] == Todo(recs, NextB(recs, b, i), NextI(recs, b, i))
  {
    hide Flat;
    var rest := Flat(recs[b + 1..]);
    assert (recs[b][i..] + rest)[1..] == recs[b][i + 1..] + rest;
    if i + 1 == |recs[b]| {
      assert recs[b][i + 1..] + rest == rest;
      RestIs(recs, b + 1);
    }
  }

  lemma RestIs(recs: seq<seq<Rec>>, b: nat)
    requires b <= |recs|
    ensures Flat(recs[b..]) == Todo(recs, b, 0)
  {
    if b < |recs| { assert recs[b..][1..] == recs[b + 1..]; }
  }

  // ---------------------------------------------------------------- names under changes of the list

  /** Names and inodes agree, record by record. */
  ghost predicate SameKeys(xs: seq<Rec>, ys: seq<Rec>) {
    |xs| == |ys| && forall i :: 0 <= i < |xs| ==> xs[i].name == ys[i].name && xs[i].inode == ys[i].inode
  }

  lemma {:induction false} SameFind(xs: seq<Rec>, ys: seq<Rec>, name: seq<byte>)
    requires SameKeys(xs, ys)
    ensures Find(xs, name) == Find(ys, name) && (Unique(xs) ==> Unique(ys))
    decreases |xs|
  {
    if xs != [] { SameFind(xs[1..], ys[1..], name); }
  }

  lemma {:induction false} FindNone(rs: seq<Rec>, name: seq<byte>)
    ensures Find(rs, name) == None <==> forall i :: 0 <= i < |rs| ==> !Match(rs[i], name)
    decreases |rs|
  {
    if rs != [] {
      FindNone(rs[1..], name);
      assert forall i :: 0 < i < |rs| ==> rs[i] == rs[1..][i - 1];
    }
  }

  lemma FindOne(r: Rec, name: seq<byte>)
    ensures Find([r], name) == if Match(r, name) then Some(r.inode) else None
  {
  }

  /** A record for a new name is put somewhere into the list. */
  lemma FindInsert(xs: seq<Rec>, r: Rec, ys: seq<Rec>, name: seq<byte>)
    requires r.inode != 0 && Find(xs + ys, r.name) == None
    ensures Find(xs + [r] + ys, name) == if name == r.name then Some(r.inode) else Find(xs + ys, name)
  {
    hide Find;
    FindConcat(xs, ys, name);
    FindConcat(xs + [r], ys, name);
    FindConcat(xs, [r], name);
    FindOne(r, name);
    FindConcat(xs, ys, r.name);
  }

  lemma UniqueInsert(xs: seq<Rec>, r: Rec, ys: seq<Rec>)
    requires r.inode != 0 && Find(xs + ys, r.name) == None && Unique(xs + ys)
    ensures Unique(xs + [r] + ys)
  {
    FindNone(xs + ys, r.name);
    hide Find;
    var a, b := xs + [r] + ys, xs + ys;
    assert forall i :: 0 <= i < |a| ==> a[i] == if i < |xs| then b[i] else if i == |xs| then r else b[i - 1];
    forall i, j | 0 <= i < j < |a| && a[i].inode != 0 && a[j].inode != 0 ensures a[i].name != a[j].name {
      if i == |xs| {
        assert !Match(b[j - 1], r.name);
      } else if j == |xs| {
        assert !Match(b[i], r.name);
      } else {
        var x, y := if i < |xs| then i else i - 1, if j < |xs| then j else j - 1;
        assert b[x] == a[i] && b[y] == a[j] && x < y;
      }
    }
  }

  /** The record of a name is taken out of a list of unique names. */
  lemma FindDelete(xs: seq<Rec>, r: Rec, ys: seq<Rec>, name: seq<byte>)
    requires Unique(xs + [r] + ys) && r.inode != 0
    ensures Find(xs + ys, name) == if name == r.name then None else Find(xs + [r] + ys, name)
    ensures Unique(xs + ys)
  {
    var a, b := xs + [r] + ys, xs + ys;
    assert forall i :: 0 <= i < |b| ==> b[i] == a[if i < |xs| then i else i + 1] && a[|xs|] == r;
    FindNone(b, name);
    hide Find;
    FindConcat(xs, ys, name);
    FindConcat(xs + [r], ys, name);
    FindConcat(xs, [r], name);
    FindOne(r, name);
  }

  // ---------------------------------------------------------------- one block of a directory changes

  function Left(recs: seq<seq<Rec>>, b: nat, i: nat): seq<Rec>
    requires b < |recs| && i <= |recs[b]|
  {
    Flat(recs[..b]) + recs[b][..i]
  }

  lemma FlatUpdate(recs: seq<seq<Rec>>, b: nat, rs: seq<Rec>)
    requires b < |recs|
    ensures Flat(recs[b := rs]) == Flat(recs[..b]) + rs + Flat(recs[b + 1..])
  {
    var u := recs[b := rs];
    FlatSplit(u, b);
    assert u[..b] == recs[..b] && u[b..][0] == rs && u[b..][1..] == recs[b + 1..];
  }

  lemma FlatAround(recs: seq<seq<Rec>>, b: nat, i: nat)
    requires b < |recs| && i < |recs[b]|
    ensures Flat(recs) == Left(recs, b, i) + [recs[b][i]] + (recs[b][i + 1..] + Flat(recs[b + 1..]))
  {
    hide Flat;
    FlatUpdate(recs, b, recs[b]);
    assert recs[b := recs[b]] == recs;
    Around(recs[b], i);
    Rearrange(Flat(recs[..b]), recs[b][..i], [recs[b][i]], recs[b][i + 1..], Flat(recs[b + 1..]));
  }

  lemma Rearrange<T>(a: seq<T>, b: seq<T>, c: seq<T>, d: seq<T>, e: seq<T>)
    ensures a + (b + c + d) + e == a + b + c + (d + e)
  {
  }

  /** Splitting record `i` of block `b` for a new name inserts that name. */
  lemma AddNames(recs: seq<seq<Rec>>, b: nat, i: nat, r: Rec, name: seq<byte>)
    requires b < |recs| && i < |recs[b]| && r.inode != 0 && Find(Flat(recs), r.name) == None
    ensures Find(Flat(recs[b := WithSplit(recs[b], i, r)]), name) == if name == r.name then Some(r.inode)
      else Find(Flat(recs), name)
    ensures Unique(Flat(recs)) ==> Unique(Flat(recs[b := WithSplit(recs[b], i, r)]))
  {
    hide Flat, Find, Unique, Left;
    var x := recs[b][i];
    var x' := x.(len := Real(|x.name|));
    var ys := recs[b][i + 1..] + Flat(recs[b + 1..]);
    FlatAround(recs, b, i);
    FlatUpdate(recs, b, WithSplit(recs[b], i, r));
    SplitShape(Flat(recs[..b]), recs[b][..i], x', r, recs[b][i + 1..], Flat(recs[b + 1..]));
    var l := Flat(recs[..b]) + recs[b][..i];
    LeftIs(recs, b, i);
    KeysAround(l, x, x', ys);
    SameFind(l + [x] + ys, l + [x'] + ys, name);
    SameFind(l + [x] + ys, l + [x'] + ys, r.name);
    FindInsert(l + [x'], r, ys, name);
    if Unique(l + [x'] + ys) { UniqueInsert(l + [x'], r, ys); }
  }

  lemma LeftIs(recs: seq<seq<Rec>>, b: nat, i: nat)
    requires b < |recs| && i <= |recs[b]|
    ensures Left(recs, b, i) == Flat(recs[..b]) + recs[b][..i]
  {
  }

  lemma KeysAround(l: seq<Rec>, x: Rec, x': Rec, ys: seq<Rec>)
    requires x.name == x'.name && x.inode == x'.inode
    ensures SameKeys(l + [x] + ys, l + [x'] + ys)
  {
  }

  lemma SplitShape(a: seq<Rec>, b: seq<Rec>, x: Rec, r: Rec, d: seq<Rec>, e: seq<Rec>)
    ensures a + (b + [x, r] + d) + e == a + b + [x] + [r] + (d + e)
  {
  }

  /** Joining record `i` with the one before it deletes its name. */
  lemma RemoveNames(recs: seq<seq<Rec>>, b: nat, i: nat, name: seq<byte>)
    requires b < |recs| && 0 < i < |recs[b]| && recs[b][i].inode != 0 && Unique(Flat(recs))
    ensures Find(Flat(recs[b := WithJoin(recs[b], i - 1)]), name) == if name == recs[b][i].name then None
      else Find(Flat(recs), name)
    ensures Unique(Flat(recs[b := WithJoin(recs[b], i - 1)]))
  {
    hide Flat, Find, Unique, Left;
    var p, r := recs[b][i - 1], recs[b][i];
    var p' := p.(len := p.len + r.len);
    var l, d, e := Flat(recs[..b]), recs[b][i + 1..], Flat(recs[b + 1..]);
    FlatUpdate(recs, b, recs[b]);
    assert recs[b := recs[b]] == recs;
    FlatUpdate(recs, b, WithJoin(recs[b], i - 1));
    AroundTwo(recs[b], i - 1);
    SplitShape(l, recs[b][..i - 1], p, r, d, e);
    Rearrange(l, recs[b][..i - 1], [p'], d, e);
    var xs, ys := l + recs[b][..i - 1], d + e;
    FindDelete(xs + [p], r, ys, name);
    KeysAround(xs, p, p', ys);
    SameFind(xs + [p] + ys, xs + [p'] + ys, name);
  }

  /** Marking the first record unused deletes its name. */
  lemma UnuseNames(recs: seq<seq<Rec>>, name: seq<byte>)
    requires recs != [] && recs[0] != [] && recs[0][0].inode != 0 && Unique(Flat(recs))
    ensures var u := recs[0 := recs[0][0 := recs[0][0].(inode := 0)]];
      Find(Flat(u), name) == (if name == recs[0][0].name then None else Find(Flat(recs), name)) && Unique(Flat(u))
  {
    hide Flat, Find, Unique;
    var r, ys := recs[0][0], recs[0][1..] + Flat(recs[1..]);
    var u := recs[0 := recs[0][0 := r.(inode := 0)]];
    FlatHead(recs);
    FlatHead(u);
    SameTails(recs, u, r.(inode := 0));
    NoLeft(r, ys);
    FindDelete([], r, ys, name);
    FindConcat([r.(inode := 0)], ys, name);
    FindOne(r.(inode := 0), name);
    UnusedUnique(r.(inode := 0), ys);
  }

  lemma FlatHead(recs: seq<seq<Rec>>)
    requires recs != [] && recs[0] != []
    ensures Flat(recs) == [recs[0][0]] + (recs[0][1..] + Flat(recs[1..]))
  {
  }

  lemma SameTails(recs: seq<seq<Rec>>, u: seq<seq<Rec>>, x: Rec)
    requires recs != [] && recs[0] != [] && u == recs[0 := recs[0][0 := x]]
    ensures u[1..] == recs[1..] && u[0][0] == x && u[0][1..] == recs[0][1..]
  {
  }

  lemma NoLeft(r: Rec, ys: seq<Rec>)
    ensures [] + [r] + ys == [r] + ys && [] + ys == ys
  {
  }

  lemma UnusedUnique(r: Rec, ys: seq<Rec>)
    requires r.inode == 0 && Unique(ys)
    ensures Unique([r] + ys)
  {
  }

  /** A block of its own for a new name. */
  lemma AppendNames(recs: seq<seq<Rec>>, r: Rec, name: seq<byte>)
    requires r.inode != 0 && Find(Flat(recs), r.name) == None
    ensures Find(Flat(recs + [[r]]), name) == if name == r.name then Some(r.inode) else Find(Flat(recs), name)
    ensures Unique(Flat(recs)) ==> Unique(Flat(recs + [[r]]))
  {
    var all := Flat(recs);
    FlatSplit(recs + [[r]], |recs|);
    assert (recs + [[r]])[..|recs|] == recs && (recs + [[r]])[|recs|..] == [[r]] && [[r]][1..] == [];
    assert Flat(recs + [[r]]) == all + [r] + [] && all + [] == all;
    hide Flat, Find;
    FindInsert(all, r, [], name);
    if Unique(all) { UniqueInsert(all, r, []); }
  }

  // ---------------------------------------------------------------- a record that outgrows its block

  /** With the last record's length raised past the end, no list of records tiles the block. */
  lemma {:induction false} Overrun(s: seq<byte>, t: seq<byte>, a: nat, rs: seq<Rec>, last: nat, len: nat, rs': seq<Rec>)
    requires rs != [] && Tiles(s, a, rs, |s|) && last + rs[|rs| - 1].len == |s| && len > rs[|rs| - 1].len
    requires SameBytes(s, t, 0, last) && RecLen(t, last) == len
    ensures !Tiles(t, a, rs', |t|)
    decreases |rs|
  {
    hide Encodes, RecLen, SameBytes;
    if Tiles(t, a, rs', |t|) {
      SameLength(s, t, last);
      TilesEnd(s, a, rs, |s|);
      TilesEnd(t, a, rs', |t|);
      TilesLength(s, a, rs, |s|);
      EncodedLen(t, a, rs'[0]);
      EncodedLen(s, a, rs[0]);
      if |rs| > 1 {
        LastInside(rs);
        SameRecLen(s, t, a, last);
        Overrun(s, t, a + rs[0].len, rs[1..], last, len, rs'[1..]);
      }
    }
  }

  lemma SameLength(s: seq<byte>, t: seq<byte>, n: nat)
    requires SameBytes(s, t, 0, n)
    ensures |s| == |t|
  {
  }

  lemma EncodedLen(s: seq<byte>, a: nat, r: Rec)
    requires Encodes(s, a, r)
    ensures RecLen(s, a) == r.len && 8 <= r.len && a + r.len <= |s|
  {
  }

  lemma SameRecLen(s: seq<byte>, t: seq<byte>, a: nat, last: nat)
    requires SameBytes(s, t, 0, last) && a + 8 <= last
    ensures RecLen(t, a) == RecLen(s, a)
  {
  }

  lemma {:induction false} LastInside(rs: seq<Rec>)
    requires rs != []
    ensures rs[|rs| - 1].len <= Length(rs) && (|rs| > 1 ==> rs[0].len + rs[|rs| - 1].len <= Length(rs))
    decreases |rs|
  {
    if |rs| > 1 { LastInside(rs[1..]); }
  }

  // ---------------------------------------------------------------- going through the records

  predicate HasRoom(r: Rec, need: nat) { r.len >= Real(|r.name|) + need }

  /** The name belongs to the first record of a block other than the first one. */
  ghost predicate FirstOfLater(recs: seq<seq<Rec>>, name: seq<byte>) {
    exists b :: 0 < b < |recs| && recs[b] != [] && Match(recs[b][0], name) && Find(Flat(recs[..b]), name) == None
  }

  lemma Begin(blocks: seq<seq<byte>>, recs: seq<seq<Rec>>, bs: nat)
    requires DirOk(blocks, recs, bs)
    ensures Position(recs, 0, 0) && Global(0, Start(recs, 0, 0), bs) == 0 && Todo(recs, 0, 0) == Flat(recs)
  {
  }

  /** Below the size there is a record. */
  lemma AtBlock(blocks: seq<seq<byte>>, recs: seq<seq<Rec>>, bs: nat, b: nat, i: nat)
    requires DirOk(blocks, recs, bs) && Position(recs, b, i)
    ensures Global(b, Start(recs, b, i), bs) < Global(|blocks|, 0, bs) ==> b < |recs|
  {
  }

  lemma AtEnd(blocks: seq<seq<byte>>, recs: seq<seq<Rec>>, bs: nat, b: nat, i: nat)
    requires DirOk(blocks, recs, bs) && Position(recs, b, i)
      && Global(b, Start(recs, b, i), bs) >= Global(|blocks|, 0, bs)
    ensures b == |recs| && Todo(recs, b, i) == [] && forall name :: Find(Todo(recs, b, i), name) == None
  {
    hide Tiles, Encodes, Length;
    if b < |recs| {
      Here(blocks, recs, bs, b, i);
      GlobalLess(b, Start(recs, b, i), bs, |blocks|);
    }
  }

  lemma FindTodo(recs: seq<seq<Rec>>, b: nat, i: nat, name: seq<byte>)
    requires Position(recs, b, i) && b < |recs|
    ensures Find(Todo(recs, b, i), name) ==
      if Match(recs[b][i], name) then Some(recs[b][i].inode)
        else Find(Todo(recs, NextB(recs, b, i), NextI(recs, b, i)), name)
  {
    TodoNext(recs, b, i);
    hide Todo;
  }

  /** What the code compares is what the record says. */
  lemma RecordIs(s: seq<byte>, a: nat, r: Rec, name: seq<byte>)
    requires Encodes(s, a, r)
    ensures Inode(s, a) == r.inode && RecLen(s, a) == r.len && NameLen(s, a) == |r.name| && 8 <= r.len
    ensures Match(r, name) <==> Inode(s, a) != 0 && NameLen(s, a) == |name| && Name(s, a, NameLen(s, a)) == name
  {
  }

  // ---------------------------------------------------------------- adding

  ghost predicate AllFull(rs: seq<Rec>, need: nat) { forall k :: 0 <= k < |rs| ==> !HasRoom(rs[k], need) }

  /** The name, if it was new, is there with its inode, every other name is as it was, and names stay unique. */
  ghost predicate Inserted(before: seq<Rec>, after: seq<Rec>, name: seq<byte>, inode: nat) {
    Find(before, name) == None ==>
      && (forall n :: Find(after, n) == if n == name then Some(inode) else Find(before, n))
      && (Unique(before) ==> Unique(after))
  }

  lemma FullTodo(recs: seq<seq<Rec>>, b: nat, i: nat, need: nat)
    requires Position(recs, b, i) && b < |recs|
    ensures AllFull(Todo(recs, b, i), need) <==>
      !HasRoom(recs[b][i], need) && AllFull(Todo(recs, NextB(recs, b, i), NextI(recs, b, i)), need)
  {
    TodoNext(recs, b, i);
    hide Todo;
    var t := Todo(recs, b, i);
    assert forall k :: 0 < k < |t| ==> t[k] == t[1..][k - 1];
  }

  lemma FullNone(need: nat)
    ensures AllFull([], need)
  {
  }

  lemma AddSplit(blocks: seq<seq<byte>>, recs: seq<seq<Rec>>, bs: nat, b: nat, i: nat, entry: Rec)
    requires DirOk(blocks, recs, bs) && b < |recs| && i < |recs[b]| && entry.inode != 0
    requires Shape(entry) && Real(|recs[b][i].name|) + entry.len == recs[b][i].len
    ensures var at, need := Start(recs, b, i), Real(|recs[b][i].name|);
      DirOk(blocks[b := PutRec(PutLen(blocks[b], at, need), at + need, entry)],
        recs[b := WithSplit(recs[b], i, entry)], bs)
    ensures Inserted(Flat(recs), Flat(recs[b := WithSplit(recs[b], i, entry)]), entry.name, entry.inode)
  {
    hide Encodes, Length, Tiles, Flat, Find, PutRec, PutLen, Unique;
    assert BlockOk(blocks[b], recs[b], bs);
    SplitTiles(blocks[b], recs[b], i, entry);
    if Find(Flat(recs), entry.name) == None {
      forall n ensures Find(Flat(recs[b := WithSplit(recs[b], i, entry)]), n) == if n ==
        entry.name then Some(entry.inode) else Find(Flat(recs), n) {
        AddNames(recs, b, i, entry, n);
      }
      AddNames(recs, b, i, entry, []);
    }
  }

  lemma AddBlock(blocks: seq<seq<byte>>, recs: seq<seq<Rec>>, bs: nat, entry: Rec)
    requires DirOk(blocks, recs, bs) && entry.inode != 0 && Shape(entry) && entry.len == bs
    ensures DirOk(blocks + [PutRec(Zeros(bs), 0, entry)], recs + [[entry]], bs)
    ensures Inserted(Flat(recs), Flat(recs + [[entry]]), entry.name, entry.inode)
  {
    hide Encodes, Length, Tiles, Flat, Find, PutRec, Unique;
    PutRecEncodes(Zeros(bs), 0, entry);
    OneTile(PutRec(Zeros(bs), 0, entry), 0, entry);
    if Find(Flat(recs), entry.name) == None {
      forall n ensures Find(Flat(recs + [[entry]]), n) == if n == entry.name then Some(entry.inode)
        else Find(Flat(recs), n) {
        AppendNames(recs, entry, n);
      }
      AppendNames(recs, entry, []);
    }
  }

  // ---------------------------------------------------------------- removing

  /** The name is gone, every other name is as it was, and names stay unique. */
  ghost predicate Deleted(before: seq<Rec>, after: seq<Rec>, name: seq<byte>) {
    (forall n :: Find(after, n) == if n == name then None else Find(before, n)) && Unique(after)
  }

  /** No records at all tile these blocks. */
  ghost predicate Broken(blocks: seq<seq<byte>>, bs: nat) { forall rs :: !DirOk(blocks, rs, bs) }

  lemma RemoveJoin(blocks: seq<seq<byte>>, recs: seq<seq<Rec>>, bs: nat, b: nat, i: nat, name: seq<byte>)
    requires DirOk(blocks, recs, bs) && Unique(Flat(recs)) && b < |recs| && 0 < i < |recs[b]| && Match(recs[b][i], name)
    ensures var at, len := Start(recs, b, i - 1), recs[b][i - 1].len + recs[b][i].len;
      len < 0x1_0000 && DirOk(blocks[b := PutLen(blocks[b], at, len)], recs[b := WithJoin(recs[b], i - 1)], bs)
    ensures Deleted(Flat(recs), Flat(recs[b := WithJoin(recs[b], i - 1)]), name) && !FirstOfLater(recs, name)
  {
    hide Encodes, Length, Tiles, Flat, Find, PutLen, Unique, FirstOfLater;
    assert BlockOk(blocks[b], recs[b], bs);
    JoinTiles(blocks[b], recs[b], i - 1);
    AtTwo(blocks[b], recs[b], i - 1);
    EncodedShape(blocks[b], Start(recs, b, i - 1) + recs[b][i - 1].len, recs[b][i]);
    var before, after := Flat(recs), Flat(recs[b := WithJoin(recs[b], i - 1)]);
    forall n ensures Find(after, n) == if n == name then None else Find(before, n) {
      RemoveNames(recs, b, i, n);
    }
    RemoveNames(recs, b, i, []);
    assert Deleted(before, after, name);
    NotFirst(recs, b, i, name);
  }

  /** Where a unique name stands in one place, it does not stand in another. */
  lemma NotFirst(recs: seq<seq<Rec>>, b: nat, i: nat, name: seq<byte>)
    requires Unique(Flat(recs)) && b < |recs| && i < |recs[b]| && Match(recs[b][i], name) && (i > 0 || b == 0)
    ensures !FirstOfLater(recs, name)
  {
    hide Find, Flat, Left;
    forall c | 0 < c < |recs| && recs[c] != [] ensures !Match(recs[c][0], name) {
      FlatIs(recs, b, i);
      FlatIs(recs, c, 0);
      Placed(recs, b, i, c);
    }
  }

  lemma FlatIs(recs: seq<seq<Rec>>, b: nat, i: nat)
    requires b < |recs| && i < |recs[b]|
    ensures |Left(recs, b, i)| < |Flat(recs)| && Flat(recs)[|Left(recs, b, i)|] == recs[b][i]
  {
    hide Flat, Left;
    FlatAround(recs, b, i);
  }

  /** Two different positions are two different places of the flat list. */
  lemma Placed(recs: seq<seq<Rec>>, b: nat, i: nat, c: nat)
    requires b < |recs| && i < |recs[b]| && c < |recs| && recs[c] != [] && (b != c || i != 0)
    ensures |Left(recs, b, i)| != |Left(recs, c, 0)|
  {
    if b < c {
      Longer(recs, b, c);
    } else if c < b {
      Longer(recs, c, b);
    }
  }

  lemma Longer(recs: seq<seq<Rec>>, b: nat, c: nat)
    requires b < c < |recs|
    ensures |Flat(recs[..c])| >= |Flat(recs[..b])| + |recs[b]|
  {
    FlatSplit(recs[..c], b);
    assert recs[..c][..b] == recs[..b] && recs[..c][b..][0] == recs[b];
  }

  lemma FirstFound(recs: seq<seq<Rec>>, name: seq<byte>)
    ensures FirstOfLater(recs, name) ==> Find(Flat(recs), name) != None
  {
    hide Find, Flat, Left;
    if FirstOfLater(recs, name) {
      var b :| 0 < b < |recs| && recs[b] != [] && Match(recs[b][0], name) && Find(Flat(recs[..b]), name) == None;
      FlatAround(recs, b, 0);
      FindNone(Flat(recs), name);
      assert Flat(recs)[|Left(recs, b, 0)|] == recs[b][0];
    }
  }

  lemma IsFirst(recs: seq<seq<Rec>>, b: nat, name: seq<byte>)
    requires 0 < b < |recs| && recs[b] != [] && Match(recs[b][0], name) && Unique(Flat(recs))
    ensures FirstOfLater(recs, name)
  {
    hide Find, Flat;
    var l := Flat(recs[..b]);
    FlatAround(recs, b, 0);
    assert recs[b][..0] == [] && Left(recs, b, 0) == l;
    assert Flat(recs)[|l|] == recs[b][0];
    assert forall k :: 0 <= k < |l| ==> l[k] == Flat(recs)[k] && !Match(l[k], name);
    FindNone(l, name);
  }

  lemma RemoveFirst(blocks: seq<seq<byte>>, recs: seq<seq<Rec>>, bs: nat, name: seq<byte>)
    requires DirOk(blocks, recs, bs) && Unique(Flat(recs)) && recs != [] && recs[0] != [] && Match(recs[0][0], name)
    ensures DirOk(blocks[0 := PutInode(blocks[0], 0, 0)], recs[0 := recs[0][0 := recs[0][0].(inode := 0)]], bs)
    ensures Deleted(Flat(recs), Flat(recs[0 := recs[0][0 := recs[0][0].(inode := 0)]]), name)
      && !FirstOfLater(recs, name)
    ensures Start(recs, 0, 0) == 0
  {
    hide Encodes, Tiles, Flat, Find, PutInode, Unique, FirstOfLater;
    assert BlockOk(blocks[0], recs[0], bs);
    UnuseTiles(blocks[0], recs[0]);
    EmptyLength(recs[0]);
    var before, after := Flat(recs), Flat(recs[0 := recs[0][0 := recs[0][0].(inode := 0)]]);
    forall n ensures Find(after, n) == if n == name then None else Find(before, n) {
      UnuseNames(recs, n);
    }
    UnuseNames(recs, []);
    assert Deleted(before, after, name);
    NotFirst(recs, 0, 0, name);
  }

  /** Joining the first record of a block with the last of the one before leaves no directory. */
  lemma RemoveAcross(blocks: seq<seq<byte>>, recs: seq<seq<Rec>>, bs: nat, b: nat, name: seq<byte>)
    requires DirOk(blocks, recs, bs) && Unique(Flat(recs)) && 0 < b < |recs| && recs[b] != [] && Match(recs[b][0], name)
    ensures FirstOfLater(recs, name) && recs[b - 1] != []
    ensures var p := recs[b - 1]; var len := p[|p| - 1].len + recs[b][0].len;
      len < 0x1_0000 && Broken(blocks[b - 1 := PutLen(blocks[b - 1], Start(recs, b - 1, |p| - 1), len)], bs)
  {
    hide Encodes, Tiles, Flat, Find, PutLen, Unique, FirstOfLater, Length;
    IsFirst(recs, b, name);
    assert BlockOk(blocks[b - 1], recs[b - 1], bs) && BlockOk(blocks[b], recs[b], bs);
    var p := recs[b - 1];
    At(blocks[b], recs[b], 0);
    assert recs[b][..0] == [];
    EmptyLength(recs[b]);
    EncodedShape(blocks[b], 0, recs[b][0]);
    EncodedLen(blocks[b], 0, recs[b][0]);
    At(blocks[b - 1], p, |p| - 1);
    var last := Start(recs, b - 1, |p| - 1);
    EncodedShape(blocks[b - 1], last, p[|p| - 1]);
    TilesEnd(blocks[b - 1], last + p[|p| - 1].len, p[|p|..], bs);
    var len := p[|p| - 1].len + recs[b][0].len;
    var t := PutLen(blocks[b - 1], last, len);
    LenStored(blocks[b - 1], last, len);
    var after := blocks[b - 1 := t];
    forall rs ensures !DirOk(after, rs, bs) {
      if DirOk(after, rs, bs) {
        assert BlockOk(t, rs[b - 1], bs);
        Overrun(blocks[b - 1], t, 0, p, last, len, rs[b - 1]);
      }
    }
  }

  lemma LenStored(s: seq<byte>, a: nat, len: nat)
    requires a + 6 <= |s| && len < 0x1_0000
    ensures RecLen(PutLen(s, a, len), a) == len && SameBytes(s, PutLen(s, a, len), 0, a)
  {
  }

  /** A directory of two blocks with one name each: removing the second name leaves no directory. */
  lemma AcrossExample()
    ensures exists blocks, recs :: DirOk(blocks, recs, 1024) && Unique(Flat(recs)) && FirstOfLater(recs, ['b' as int])
  {
    var x, y := Rec(11, 1024, ['a' as int], 1), Rec(12, 1024, ['b' as int], 1);
    var blocks, recs := [PutRec(Zeros(1024), 0, x), PutRec(Zeros(1024), 0, y)], [[x], [y]];
    PutRecEncodes(Zeros(1024), 0, x);
    PutRecEncodes(Zeros(1024), 0, y);
    OneTile(blocks[0], 0, x);
    OneTile(blocks[1], 0, y);
    hide Encodes, Tiles, PutRec, Length, Find, FirstOfLater;
    assert recs[1..] == [[y]] && [[y]][1..] == [];
    assert Flat([[y]]) == [y] + Flat([]) && Flat(recs) == [x] + Flat([[y]]);
    assert Flat(recs) == [x, y];
    IsFirst(recs, 1, ['b' as int]);
    assert DirOk(blocks, recs, 1024);
  }
}
