/**
 Directories of the ext2 driver: each block is tiled by records that carry a name and an
 inode number, and together they stand for a map from names to inodes.
 */
module Ext2Dir {
  import opened Bytes

  /** One record: inode 0 marks it unused; `len` is its whole length on disk. */
  datatype Rec = Rec(inode: nat, len: nat, name: seq<byte>, kind: byte)

  /** `ALIGN_UP(8 + name_len, 4)` */
  function Real(n: nat): nat { (8 + n + 3) / 4 * 4 }

  predicate Shape(r: Rec) {
    r.inode < 0x1_0000_0000 && |r.name| <= 255 && Real(|r.name|) <= r.len < 0x1_0000 && r.len % 4 == 0
  }

  // ---------------------------------------------------------------- bytes

  function Byte(s: seq<byte>, a: nat): byte { if a < |s| then s[a] else 0 }

  function Inode(s: seq<byte>, a: nat): nat { if a + 4 <= |s| then Read32(s, a) else 0 }

  function RecLen(s: seq<byte>, a: nat): nat { if a + 6 <= |s| then Read16(s, a + 4) else 0 }

  function NameLen(s: seq<byte>, a: nat): nat { Byte(s, a + 6) }

  function Name(s: seq<byte>, a: nat, n: nat): seq<byte> { if a + 8 + n <= |s| then s[a + 8..a + 8 + n] else [] }

  /** The record at `a` is `r`. */
  ghost predicate Encodes(s: seq<byte>, a: nat, r: Rec) {
    && Shape(r) && a + r.len <= |s|
    && Inode(s, a) == r.inode && RecLen(s, a) == r.len && NameLen(s, a) == |r.name| && Byte(s, a + 7) == r.kind
    && Name(s, a, |r.name|) == r.name
  }

  /** The records `rs` fill the bytes from `a` up to `end`. */
  ghost predicate Tiles(s: seq<byte>, a: nat, rs: seq<Rec>, end: nat)
    decreases |rs|
  {
    if rs == [] then a == end else Encodes(s, a, rs[0]) && Tiles(s, a + rs[0].len, rs[1..], end)
  }

  function Length(rs: seq<Rec>): nat
    decreases |rs|
  {
    if rs == [] then 0 else rs[0].len + Length(rs[1..])
  }

  lemma {:induction false} TilesLength(s: seq<byte>, a: nat, rs: seq<Rec>, end: nat)
    requires Tiles(s, a, rs, end)
    ensures a + Length(rs) == end
    decreases |rs|
  {
    hide Encodes;
    if rs != [] { TilesLength(s, a + rs[0].len, rs[1..], end); }
  }

  lemma {:induction false} TilesSplit(s: seq<byte>, a: nat, xs: seq<Rec>, ys: seq<Rec>, end: nat)
    ensures Tiles(s, a, xs + ys, end) <==> Tiles(s, a, xs, a + Length(xs)) && Tiles(s, a + Length(xs), ys, end)
    decreases |xs|
  {
    hide Encodes;
    if xs == [] {
      assert xs + ys == ys;
    } else {
      assert (xs + ys)[1..] == xs[1..] + ys;
      TilesSplit(s, a + xs[0].len, xs[1..], ys, end);
    }
  }

  /** Between `a` and `b` nothing differs. */
  ghost predicate SameBytes(s: seq<byte>, t: seq<byte>, a: nat, b: nat) {
    |s| == |t| && forall x :: a <= x < b && x < |s| ==> t[x] == s[x]
  }

  lemma EncodesStill(s: seq<byte>, t: seq<byte>, a: nat, r: Rec)
    requires Encodes(s, a, r) && SameBytes(s, t, a, a + 8 + |r.name|)
    ensures Encodes(t, a, r)
  {
  }

  lemma {:induction false} TilesStill(s: seq<byte>, t: seq<byte>, a: nat, rs: seq<Rec>, end: nat)
    requires Tiles(s, a, rs, end) && SameBytes(s, t, a, end)
    ensures Tiles(t, a, rs, end)
    decreases |rs|
  {
    hide Encodes;
    if rs != [] {
      TilesLength(s, a + rs[0].len, rs[1..], end);
      EncodedShape(s, a, rs[0]);
      EncodesStill(s, t, a, rs[0]);
      TilesStill(s, t, a + rs[0].len, rs[1..], end);
    }
  }

  lemma EncodedShape(s: seq<byte>, a: nat, r: Rec)
    requires Encodes(s, a, r)
    ensures Shape(r) && 8 + |r.name| <= r.len && a + r.len <= |s|
  {
  }

  /** The bytes alone determine the records. */
  lemma {:induction false} TilesUnique(s: seq<byte>, a: nat, xs: seq<Rec>, ys: seq<Rec>)
    requires Tiles(s, a, xs, |s|) && Tiles(s, a, ys, |s|)
    ensures xs == ys
    decreases |xs|
  {
    TilesEnd(s, a, xs, |s|);
    TilesEnd(s, a, ys, |s|);
    if xs != [] {
      assert xs[0] == ys[0];
      TilesUnique(s, a + xs[0].len, xs[1..], ys[1..]);
      assert xs == [xs[0]] + xs[1..] && ys == [ys[0]] + ys[1..];
    }
  }

  lemma TilesEnd(s: seq<byte>, a: nat, rs: seq<Rec>, end: nat)
    requires Tiles(s, a, rs, end)
    ensures a == end <==> rs == []
  {
    TilesLength(s, a, rs, end);
    if rs != [] { EncodedShape(s, a, rs[0]); }
  }

  // ---------------------------------------------------------------- stores

  /** The stores that fill in a record. */
  function PutRec(s: seq<byte>, a: nat, r: Rec): (t: seq<byte>)
    ensures |t| == |s|
  {
    if a + 8 + |r.name| <= |s| && |r.name| <= 255
    then Splice(Write16(Write32(s, a, r.inode), a + 4, r.len), a + 6, [|r.name|, r.kind] + r.name) else s
  }

  function PutLen(s: seq<byte>, a: nat, len: nat): (t: seq<byte>)
    ensures |t| == |s|
  {
    if a + 6 <= |s| then Write16(s, a + 4, len) else s
  }

  function PutInode(s: seq<byte>, a: nat, inode: nat): (t: seq<byte>)
    ensures |t| == |s|
  {
    if a + 4 <= |s| then Write32(s, a, inode) else s
  }

  lemma PutRecEncodes(s: seq<byte>, a: nat, r: Rec)
    requires Shape(r) && a + r.len <= |s|
    ensures Encodes(PutRec(s, a, r), a, r)
    ensures SameBytes(s, PutRec(s, a, r), 0, a) && SameBytes(s, PutRec(s, a, r), a + 8 + |r.name|, |s|)
  {
    var u := Write32(s, a, r.inode);
    var v := Write16(u, a + 4, r.len);
    var d := [|r.name|, r.kind] + r.name;
    var t := Splice(v, a + 6, d);
    Read32OfWrite32(s, a, r.inode, a);
    Read32OfSplice(u, a + 4, Le16(r.len), a);
    Read32OfSplice(v, a + 6, d, a);
    Read16OfWrite16(u, a + 4, r.len);
    Read16OfSplice(v, a + 6, d, a + 4);
    hide Read32, Read16, Le32, Le16;
    assert t[a + 6] == d[0] && t[a + 7] == d[1];
    assert Name(t, a, |r.name|) == r.name;
  }

  lemma PutLenEncodes(s: seq<byte>, a: nat, r: Rec, len: nat)
    requires Encodes(s, a, r) && Shape(r.(len := len)) && a + len <= |s|
    ensures Encodes(PutLen(s, a, len), a, r.(len := len))
    ensures SameBytes(s, PutLen(s, a, len), 0, a) && SameBytes(s, PutLen(s, a, len), a + 6, |s|)
  {
    Read16OfWrite16(s, a + 4, len);
    Read32OfSplice(s, a + 4, Le16(len), a);
    hide Read32, Read16, Le16;
    assert Name(PutLen(s, a, len), a, |r.name|) == Name(s, a, |r.name|);
  }

  lemma PutInodeEncodes(s: seq<byte>, a: nat, r: Rec, inode: nat)
    requires Encodes(s, a, r) && inode < 0x1_0000_0000
    ensures Encodes(PutInode(s, a, inode), a, r.(inode := inode))
    ensures SameBytes(s, PutInode(s, a, inode), 0, a) && SameBytes(s, PutInode(s, a, inode), a + 4, |s|)
  {
    Read32OfWrite32(s, a, inode, a);
    Read16OfSplice(s, a, Le32(inode), a + 4);
    hide Read32, Read16, Le32;
    assert Name(PutInode(s, a, inode), a, |r.name|) == Name(s, a, |r.name|);
  }

  // ---------------------------------------------------------------- changes to one block

  lemma Assoc<T>(xs: seq<T>, ys: seq<T>, zs: seq<T>)
    ensures xs + ys + zs == xs + (ys + zs)
  {
  }

  lemma Around<T>(rs: seq<T>, i: nat)
    requires i < |rs|
    ensures rs == rs[..i] + rs[i..] && rs[i..] != [] && rs[i..][0] == rs[i] && rs[i..][1..] == rs[i + 1..]
    ensures rs[..i] + [rs[i]] + rs[i + 1..] == rs && rs[..i + 1] == rs[..i] + [rs[i]]
  {
  }

  lemma AroundTwo<T>(rs: seq<T>, i: nat)
    requires i + 1 < |rs|
    ensures rs[..i] + [rs[i], rs[i + 1]] + rs[i + 2..] == rs
  {
  }

  /** Some records in the middle give way to others that take the same room. */
  lemma ReplaceMiddle(s: seq<byte>, t: seq<byte>, xs: seq<Rec>, ys: seq<Rec>, ys': seq<Rec>, zs: seq<Rec>)
    requires Tiles(s, 0, xs + ys + zs, |s|) && |t| == |s|
    requires SameBytes(s, t, 0, Length(xs)) && SameBytes(s, t, Length(xs) + Length(ys), |s|)
    requires Tiles(t, Length(xs), ys', Length(xs) + Length(ys))
    ensures Tiles(t, 0, xs + ys' + zs, |t|)
  {
    hide Encodes, Tiles, SameBytes, Length;
    var a := Length(xs);
    TilesThree(s, xs, ys, zs, |s|);
    TilesStill(s, t, 0, xs, a);
    TilesStill(s, t, a + Length(ys), zs, |s|);
    TilesLength(t, a, ys', a + Length(ys));
    TilesThree(t, xs, ys', zs, |s|);
  }

  lemma TilesThree(s: seq<byte>, xs: seq<Rec>, ys: seq<Rec>, zs: seq<Rec>, end: nat)
    ensures Tiles(s, 0, xs + ys + zs, end) <==>
      Tiles(s, 0, xs, Length(xs)) && Tiles(s, Length(xs), ys, Length(xs) + Length(ys))
        && Tiles(s, Length(xs) + Length(ys), zs, end)
  {
    hide Encodes, Tiles, Length;
    Assoc(xs, ys, zs);
    TilesSplit(s, 0, xs, ys + zs, end);
    TilesSplit(s, Length(xs), ys, zs, end);
  }

  lemma TilesHead(s: seq<byte>, a: nat, rs: seq<Rec>, end: nat)
    requires Tiles(s, a, rs, end) && rs != []
    ensures Encodes(s, a, rs[0]) && Tiles(s, a + rs[0].len, rs[1..], end)
  {
    hide Encodes;
  }

  /** Where record `i` of a block starts, and that it is there. */
  lemma At(s: seq<byte>, rs: seq<Rec>, i: nat)
    requires Tiles(s, 0, rs, |s|) && i < |rs|
    ensures Encodes(s, Length(rs[..i]), rs[i])
    ensures Tiles(s, Length(rs[..i]), rs[i..], |s|) && Tiles(s, Length(rs[..i]) + rs[i].len, rs[i + 1..], |s|)
  {
    hide Encodes, Length, Tiles;
    Around(rs, i);
    TilesSplit(s, 0, rs[..i], rs[i..], |s|);
    TilesHead(s, Length(rs[..i]), rs[i..], |s|);
  }

  lemma TwoTile(t: seq<byte>, a: nat, x: Rec, y: Rec)
    requires Encodes(t, a, x) && Encodes(t, a + x.len, y)
    ensures Tiles(t, a, [x, y], a + x.len + y.len)
  {
    hide Encodes;
    assert [x, y][1..] == [y] && [y][1..] == [];
    assert Tiles(t, a + x.len, [y], a + x.len + y.len);
  }

  lemma TwoLength(x: Rec, y: Rec)
    ensures Length([x, y]) == x.len + y.len
  {
    assert [x, y][1..] == [y] && [y][1..] == [];
    assert Length([y]) == y.len;
  }

  lemma OneTile(t: seq<byte>, a: nat, x: Rec)
    requires Encodes(t, a, x)
    ensures Tiles(t, a, [x], a + x.len) && Length([x]) == x.len
  {
    hide Encodes;
    assert [x][1..] == [];
  }

  /** Record `i` keeps what it needs and a new record takes the rest. */
  function WithSplit(rs: seq<Rec>, i: nat, r: Rec): seq<Rec>
    requires i < |rs|
  {
    rs[..i] + [rs[i].(len := Real(|rs[i].name|)), r] + rs[i + 1..]
  }

  lemma SplitTiles(s: seq<byte>, rs: seq<Rec>, i: nat, r: Rec)
    requires Tiles(s, 0, rs, |s|) && i < |rs| && Shape(r)
    requires Real(|rs[i].name|) + r.len == rs[i].len
    ensures var a, need := Length(rs[..i]), Real(|rs[i].name|);
      Tiles(PutRec(PutLen(s, a, need), a + need, r), 0, WithSplit(rs, i, r), |s|)
  {
    hide Encodes, Tiles, PutRec, PutLen, Length;
    At(s, rs, i);
    var a, need, x := Length(rs[..i]), Real(|rs[i].name|), rs[i];
    EncodedShape(s, a, x);
    var u := PutLen(s, a, need);
    PutLenEncodes(s, a, x, need);
    var t := PutRec(u, a + need, r);
    PutRecEncodes(u, a + need, r);
    EncodesStill(u, t, a, x.(len := need));
    TwoTile(t, a, x.(len := need), r);
    OneTile(s, a, x);
    Around(rs, i);
    ReplaceMiddle(s, t, rs[..i], [x], [x.(len := need), r], rs[i + 1..]);
  }

  /** Record `i` takes over the room of its successor. */
  function WithJoin(rs: seq<Rec>, i: nat): seq<Rec>
    requires i + 1 < |rs|
  {
    rs[..i] + [rs[i].(len := rs[i].len + rs[i + 1].len)] + rs[i + 2..]
  }

  lemma AtTwo(s: seq<byte>, rs: seq<Rec>, i: nat)
    requires Tiles(s, 0, rs, |s|) && i + 1 < |rs|
    ensures Encodes(s, Length(rs[..i]), rs[i]) && Encodes(s, Length(rs[..i]) + rs[i].len, rs[i + 1])
  {
    hide Encodes, Tiles, Length;
    At(s, rs, i);
    At(s, rs, i + 1);
    Around(rs, i);
    LengthAppend(rs[..i], rs[i]);
  }

  lemma JoinTiles(s: seq<byte>, rs: seq<Rec>, i: nat)
    requires Tiles(s, 0, rs, |s|) && i + 1 < |rs| && |s| <= 4096
    ensures Tiles(PutLen(s, Length(rs[..i]), rs[i].len + rs[i + 1].len), 0, WithJoin(rs, i), |s|)
  {
    hide Encodes, Tiles, PutLen, Length, SameBytes;
    AtTwo(s, rs, i);
    JoinedPair(s, Length(rs[..i]), rs[i], rs[i + 1]);
    AroundTwo(rs, i);
    TwoLength(rs[i], rs[i + 1]);
    ReplaceMiddle(s, PutLen(s, Length(rs[..i]), rs[i].len + rs[i + 1].len), rs[..i], [rs[i], rs[i + 1]],
      [rs[i].(len := rs[i].len + rs[i + 1].len)], rs[i + 2..]);
  }

  lemma JoinedPair(s: seq<byte>, a: nat, x: Rec, y: Rec)
    requires Encodes(s, a, x) && Encodes(s, a + x.len, y) && |s| <= 4096
    ensures var t := PutLen(s, a, x.len + y.len);
      Tiles(t, a, [x.(len := x.len + y.len)], a + x.len + y.len) && SameBytes(s, t, 0, a)
        && SameBytes(s, t, a + x.len + y.len, |s|)
  {
    hide Encodes, Tiles, PutLen, Length;
    EncodedShape(s, a, x);
    EncodedShape(s, a + x.len, y);
    PutLenEncodes(s, a, x, x.len + y.len);
    OneTile(PutLen(s, a, x.len + y.len), a, x.(len := x.len + y.len));
  }

  lemma {:induction false} LengthAppend(rs: seq<Rec>, r: Rec)
    ensures Length(rs + [r]) == Length(rs) + r.len
    decreases |rs|
  {
    if rs == [] {
      assert rs + [r] == [r] && [r][1..] == [];
    } else {
      assert (rs + [r])[1..] == rs[1..] + [r];
      LengthAppend(rs[1..], r);
    }
  }

  lemma UnuseTiles(s: seq<byte>, rs: seq<Rec>)
    requires Tiles(s, 0, rs, |s|) && rs != []
    ensures Tiles(PutInode(s, 0, 0), 0, rs[0 := rs[0].(inode := 0)], |s|)
  {
    hide Encodes, Tiles, PutInode;
    At(s, rs, 0);
    assert rs[..0] == [];
    var t := PutInode(s, 0, 0);
    EncodedShape(s, 0, rs[0]);
    PutInodeEncodes(s, 0, rs[0], 0);
    OneTile(s, 0, rs[0]);
    OneTile(t, 0, rs[0].(inode := 0));
    assert [] + [rs[0]] + rs[1..] == rs && [] + [rs[0].(inode := 0)] + rs[1..] == rs[0 := rs[0].(inode := 0)];
    ReplaceMiddle(s, t, [], [rs[0]], [rs[0].(inode := 0)], rs[1..]);
  }
}
