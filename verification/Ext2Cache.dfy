/**
 The write-back block cache under the ext2 driver: a doubly linked list of entries, most
 recently used first, over a block device whose transfers may fail at any time.
 */
module Ext2Cache {
  import opened Bytes

  // ---------------------------------------------------------------- what the cache means

  /** The value of one cache entry. */
  datatype Line = Line(num: nat, data: seq<byte>, dirty: bool, refs: nat)

  /** The content of a block as the driver sees it: the cached data if there is any, else what the device holds. */
  function Logical(lines: seq<Line>, device: seq<seq<byte>>, n: nat): seq<byte>
    decreases |lines|
  {
    if lines == [] then (if n < |device| then device[n] else [])
    else if lines[0].num == n then lines[0].data
    else Logical(lines[1..], device, n)
  }

  ghost predicate Unique(lines: seq<Line>) {
    forall i, j :: 0 <= i < j < |lines| ==> lines[i].num != lines[j].num
  }

  /** An entry nobody holds and nobody has changed equals the device. */
  ghost predicate Settled(k: Line, device: seq<seq<byte>>) {
    k.num < |device| && (!k.dirty && k.refs == 0 ==> k.data == device[k.num])
  }

  ghost predicate Coherent(lines: seq<Line>, device: seq<seq<byte>>) {
    Unique(lines) && forall i :: 0 <= i < |lines| ==> Settled(lines[i], device)
  }

  ghost predicate SameLogical(lines: seq<Line>, device: seq<seq<byte>>, lines': seq<Line>, device': seq<seq<byte>>) {
    |device'| == |device| && forall n: nat :: Logical(lines', device', n) == Logical(lines, device, n)
  }

  lemma SameTrans(lines: seq<Line>, device: seq<seq<byte>>, lines1: seq<Line>, device1: seq<seq<byte>>,
                  lines2: seq<Line>, device2: seq<seq<byte>>, n: nat)
    requires SameLogical(lines, device, lines1, device1) && SameLogical(lines1, device1, lines2, device2)
    ensures SameLogical(lines, device, lines2, device2) && Logical(lines1, device1, n) == Logical(lines, device, n)
  {
  }

  lemma SameItself(lines: seq<Line>, device: seq<seq<byte>>)
    ensures SameLogical(lines, device, lines, device)
  {
  }


  lemma {:induction false} LogicalHit(lines: seq<Line>, device: seq<seq<byte>>, i: nat)
    requires Unique(lines) && i < |lines|
    ensures Logical(lines, device, lines[i].num) == lines[i].data
    decreases |lines|
  {
    if i > 0 {
      LogicalHit(lines[1..], device, i - 1);
    }
  }

  lemma {:induction false} LogicalMiss(lines: seq<Line>, device: seq<seq<byte>>, n: nat)
    requires forall i :: 0 <= i < |lines| ==> lines[i].num != n
    ensures Logical(lines, device, n) == if n < |device| then device[n] else []
    decreases |lines|
  {
    if lines != [] {
      LogicalMiss(lines[1..], device, n);
    }
  }

  function Without<T>(s: seq<T>, k: nat): (r: seq<T>)
    requires k < |s|
    ensures |r| == |s| - 1 && forall i :: 0 <= i < |r| ==> r[i] == s[if i < k then i else i + 1]
  {
    s[..k] + s[k + 1..]
  }

  lemma WithoutUnique(lines: seq<Line>, device: seq<seq<byte>>, k: nat)
    requires k < |lines| && Coherent(lines, device)
    ensures Coherent(Without(lines, k), device)
    ensures forall i :: 0 <= i < |lines| - 1 ==> Without(lines, k)[i].num != lines[k].num
  {
    var w := Without(lines, k);
    assert forall i :: 0 <= i < |w| ==> w[i] == lines[if i < k then i else i + 1];
  }

  /** Every block in one list is in the other. */
  lemma LogicalPart(lines: seq<Line>, w: seq<Line>, device: seq<seq<byte>>, n: nat)
    requires Unique(lines) && Unique(w)
    requires exists i :: 0 <= i < |lines| && lines[i].num == n && lines[i] in w
    ensures Logical(w, device, n) == Logical(lines, device, n)
  {
    var i :| 0 <= i < |lines| && lines[i].num == n && lines[i] in w;
    var j :| 0 <= j < |w| && w[j] == lines[i];
    LogicalHit(lines, device, i);
    LogicalHit(w, device, j);
  }

  /** Dropping an entry that equals the device changes nothing. */
  lemma DropSame(lines: seq<Line>, device: seq<seq<byte>>, k: nat)
    requires k < |lines| && Coherent(lines, device) && lines[k].data == device[lines[k].num]
    ensures Coherent(Without(lines, k), device) && SameLogical(lines, device, Without(lines, k), device)
  {
    var w := Without(lines, k);
    WithoutUnique(lines, device, k);
    forall n: nat ensures Logical(w, device, n) == Logical(lines, device, n) {
      if n == lines[k].num {
        LogicalHit(lines, device, k);
        LogicalMiss(w, device, n);
      } else if i :| 0 <= i < |lines| && lines[i].num == n {
        assert w[if i < k then i else i - 1] == lines[i];
        LogicalPart(lines, w, device, n);
      } else {
        assert forall i :: 0 <= i < |w| ==> w[i] == lines[if i < k then i else i + 1];
        LogicalMiss(lines, device, n);
        LogicalMiss(w, device, n);
      }
    }
  }

  /** Adding what the device holds changes nothing. */
  lemma LoadSame(lines: seq<Line>, device: seq<seq<byte>>, k: Line)
    requires Coherent(lines, device) && Settled(k, device) && k.data == device[k.num]
    requires forall i :: 0 <= i < |lines| ==> lines[i].num != k.num
    ensures Coherent([k] + lines, device) && SameLogical(lines, device, [k] + lines, device)
  {
    var w := [k] + lines;
    assert w[1..] == lines;
    LogicalMiss(lines, device, k.num);
  }

  /** Writing an entry to the device changes nothing. */
  lemma StoreSame(lines: seq<Line>, device: seq<seq<byte>>, k: nat)
    requires k < |lines| && Coherent(lines, device)
    ensures Coherent(lines[k := lines[k].(dirty := false)], device[lines[k].num := lines[k].data])
    ensures SameLogical(lines, device, lines[k := lines[k].(dirty := false)], device[lines[k].num := lines[k].data])
  {
    var w, d := lines[k := lines[k].(dirty := false)], device[lines[k].num := lines[k].data];
    assert Settled(lines[k], device);
    assert forall i :: 0 <= i < |w| ==>
      Settled(lines[i], device) && w[i].num == lines[i].num && w[i].data == lines[i].data;
    forall n: nat ensures Logical(w, d, n) == Logical(lines, device, n) {
      if i :| 0 <= i < |lines| && lines[i].num == n {
        LogicalHit(lines, device, i);
        LogicalHit(w, d, i);
      } else {
        LogicalMiss(lines, device, n);
        LogicalMiss(w, d, n);
      }
    }
  }

  /** The effect of writing entry `k` back: its block, and no other, is brought up to date on the device. */
  ghost predicate Flushed(lines: seq<Line>, device: seq<seq<byte>>, k: nat, ok: bool, lines': seq<Line>,
                          device': seq<seq<byte>>) {
    && k < |lines| && SameLogical(lines, device, lines', device') && lines[k].num < |device|
    && (if ok then lines' == lines[k := lines[k].(dirty := false)] else lines' == lines && device' == device)
    && (if ok && lines[k].dirty then device' == device[lines[k].num := lines[k].data] else device' == device)
  }

  lemma FlushedAll(lines: seq<Line>, device: seq<seq<byte>>, k: nat)
    requires k < |lines| && Coherent(lines, device)
    ensures lines[k].num < |device| && Flushed(lines, device, k, false, lines, device)
    ensures !lines[k].dirty ==> Flushed(lines, device, k, true, lines, device)
    ensures var d := device[lines[k].num := lines[k].data];
      Coherent(lines[k := lines[k].(dirty := false)], d)
      && (lines[k].dirty ==> Flushed(lines, device, k, true, lines[k := lines[k].(dirty := false)], d))
  {
    StoreSame(lines, device, k);
    assert Settled(lines[k], device);
    assert !lines[k].dirty ==> lines[k := lines[k].(dirty := false)] == lines;
  }

  /** Only flags and counts of an entry change. */
  lemma MarkSame(lines: seq<Line>, device: seq<seq<byte>>, k: nat, x: Line)
    requires k < |lines| && Coherent(lines, device) && x.num == lines[k].num && x.data == lines[k].data
      && Settled(x, device)
    ensures Coherent(lines[k := x], device) && SameLogical(lines, device, lines[k := x], device)
  {
    var w := lines[k := x];
    forall n: nat ensures Logical(w, device, n) == Logical(lines, device, n) {
      if i :| 0 <= i < |lines| && lines[i].num == n {
        LogicalHit(lines, device, i);
        LogicalHit(w, device, i);
      } else {
        LogicalMiss(lines, device, n);
        LogicalMiss(w, device, n);
      }
    }
  }

  lemma FrontCoherent(lines: seq<Line>, device: seq<seq<byte>>, k: nat)
    requires k < |lines| && Coherent(lines, device)
    ensures var w := [lines[k]] + Without(lines, k);
      Coherent(w, device) && |w| == |lines| && forall i :: 0 <= i < |w| ==>
        w[i] == lines[if i == 0 then k else if i <= k then i - 1 else i]
  {
    hide Without, Settled;
    var w := [lines[k]] + Without(lines, k);
    assert forall i :: 0 <= i < |w| ==> w[i] == lines[if i == 0 then k else if i <= k then i - 1 else i];
  }

  /** An entry moves to the front. */
  lemma FrontSame(lines: seq<Line>, device: seq<seq<byte>>, k: nat)
    requires k < |lines| && Coherent(lines, device)
    ensures var w := [lines[k]] + Without(lines, k); Coherent(w, device) && SameLogical(lines, device, w, device)
  {
    hide Without, Logical;
    var w := [lines[k]] + Without(lines, k);
    FrontCoherent(lines, device, k);
    forall n: nat ensures Logical(w, device, n) == Logical(lines, device, n) {
      if i :| 0 <= i < |lines| && lines[i].num == n {
        assert w[if i == k then 0 else if i < k then i + 1 else i] == lines[i];
        LogicalPart(lines, w, device, n);
      } else {
        LogicalMiss(lines, device, n);
        LogicalMiss(w, device, n);
      }
    }
  }

  // ---------------------------------------------------------------- the linked list

  class Entry {
    var num: nat
    var data: array<byte>
    var dirty: bool
    var refs: nat
    var next: Entry?
    var prev: Entry?

    /** A fresh entry for a block just read. */
    constructor (num: nat, data: array<byte>)
      ensures Value() == Line(num, data[..], false, 1) && this.data == data
    {
      this.num, this.data, dirty, refs, next, prev := num, data, false, 1, null, null;
    }

    ghost function Value(): Line
      reads this`num, this`data, this`dirty, this`refs, data
    {
      Line(num, data[..], dirty, refs)
    }
  }

  function Nth(list: seq<Entry>, i: int): Entry? { if 0 <= i < |list| then list[i] else null }

  ghost predicate Distinct(list: seq<Entry>) { forall i, j :: 0 <= i < j < |list| ==> list[i] != list[j] }

  /** The links of the entry at position `i` of a list. */
  ghost predicate LinkAt(list: seq<Entry>, i: int)
    reads (set e | e in list)`next, (set e | e in list)`prev
  {
    0 <= i < |list| ==> list[i].next == Nth(list, i + 1) && list[i].prev == Nth(list, i - 1)
  }

  const MAX32 := 0x1_0000_0000

  ghost function Values(list: seq<Entry>): (r: seq<Line>)
    reads (set e | e in list)`num, (set e | e in list)`data, (set e | e in list)`dirty, (set e | e in list)`refs,
      set e | e in list :: e.data
    ensures |r| == |list| && forall i :: 0 <= i < |list| ==> r[i] == list[i].Value()
    decreases |list|
  {
    if list == [] then [] else [list[0].Value()] + Values(list[1..])
  }

  lemma ValuesWithout(list: seq<Entry>, k: nat)
    requires k < |list|
    ensures Values(Without(list, k)) == Without(Values(list), k)
  {
    hide Without, Values;
    var a, b := Values(Without(list, k)), Without(Values(list), k);
    assert forall i :: 0 <= i < |a| ==> a[i] == b[i];
  }

  /** The values of entries are known one by one. */
  lemma ValuesOf(list: seq<Entry>, r: seq<Line>)
    requires |r| == |list| && forall i :: 0 <= i < |list| ==> r[i] == list[i].Value()
    ensures Values(list) == r
  {
    assert Values(list) == r;
  }

  lemma FrontValue(list: seq<Entry>)
    requires list != []
    ensures Values(list) == [list[0].Value()] + Values(list[1..])
  {
  }

  lemma Updated1<T>(xs: seq<T>, ys: seq<T>, k: nat)
    requires |xs| == |ys| && k < |xs| && forall i :: 0 <= i < |xs| && i != k ==> xs[i] == ys[i]
    ensures xs == ys[k := xs[k]]
  {
  }

  class Cache {
    var head: Entry?
    var tail: Entry?
    var size: nat
    const limit: nat                    // max_cache_entries
    const blockSize: nat
    var device: seq<seq<byte>>
    ghost var list: seq<Entry>
    ghost var refusals: nat             // how often memory or the device has said no

    /** An empty cache over a device of equal blocks. */
    constructor (device: seq<seq<byte>>, blockSize: nat, limit: nat)
      requires forall n :: 0 <= n < |device| ==> |device[n]| == blockSize
      ensures Valid() && list == [] && this.device == device && this.blockSize == blockSize && this.limit == limit
    {
      head, tail, size, list, refusals := null, null, 0, [], 0;
      this.device, this.blockSize, this.limit := device, blockSize, limit;
    }

    ghost function Nodes(): set<Entry>
      reads this`list
    {
      set e | e in list
    }

    ghost function Buffers(): set<array<byte>>
      reads this`list, Nodes()`data
    {
      set e | e in list :: e.data
    }

    /** The links, the ends and the size all describe `list`. */
    ghost predicate Linked()
      reads this`head, this`tail, this`size, this`list, Nodes()`next, Nodes()`prev
    {
      && size == |list| && head == Nth(list, 0) && tail == Nth(list, |list| - 1) && Distinct(list)
      && forall i :: LinkAt(list, i)
    }

    ghost function Lines(): (r: seq<Line>)
      reads this`list, Nodes()`num, Nodes()`data, Nodes()`dirty, Nodes()`refs, Buffers()
      ensures |r| == |list| && forall i :: 0 <= i < |list| ==> r[i] == list[i].Value()
    {
      Values(list)
    }

    /** No two entries share a buffer, and each buffer holds one block. */
    ghost predicate Buffered()
      reads this`list, this`device, Nodes()`data
    {
      && (forall i :: 0 <= i < |list| ==> list[i].data.Length == blockSize)
      && (forall i, j :: 0 <= i < j < |list| ==> list[i].data != list[j].data)
      && (forall n :: 0 <= n < |device| ==> |device[n]| == blockSize)
    }

    ghost predicate Valid()
      reads this, Nodes(), Buffers()
    {
      Linked() && Buffered() && Coherent(Lines(), device)
    }

    lemma LineFacts()
      requires Buffered()
      ensures forall k :: 0 <= k < |list| ==> Lines()[k] == list[k].Value() && list[k].data.Length == blockSize
      ensures forall k :: 0 <= k < |list| ==> Lines()[k].refs == list[k].refs
    {
    }

    lemma HeadFirst(k: nat)
      requires Linked() && k < |list|
      ensures list[k] == head ==> k == 0
    {
    }

    method Find(n: nat) returns (e: Entry?, ghost k: nat)
      requires Valid()
      ensures Valid() && Lines() == old(Lines())
      ensures e == null ==> forall x :: x in list ==> x.num != n
      ensures e != null <==> Cached(Lines(), n)
      ensures e != null ==> k < |list| && list[k] == e && e.num == n
    {
      e, k := head, 0;
      while e != null
        invariant k <= |list| && e == Nth(list, k)
        invariant forall i :: 0 <= i < k ==> list[i].num != n
        decreases |list| - k
      {
        if e.num == n {
          return;
        }
        assert LinkAt(list, k);
        e, k := e.next, k + 1;
      }
    }

    method Remove(e: Entry, ghost k: nat)
      requires Linked() && k < |list| && list[k] == e
      modifies this`head, this`tail, this`size, this`list, Nodes()`next, Nodes()`prev
      ensures Linked() && list == Without(old(list), k)
    {
      hide Without;
      assert LinkAt(list, k);
      if e.prev != null {
        e.prev.next := e.next;
      } else {
        head := e.next;
      }
      if e.next != null {
        e.next.prev := e.prev;
      } else {
        tail := e.prev;
      }
      size := size - 1;
      ghost var was := list;
      list := Without(list, k);
      forall i ensures LinkAt(list, i) {
        if 0 <= i < |list| {
          assert old(LinkAt(was, if i < k then i else i + 1));
        }
      }
    }

    method AddFront(e: Entry)
      requires Linked() && e !in list
      modifies this`head, this`tail, this`size, this`list, e`next, e`prev, Nodes()`prev
      ensures Linked() && list == [e] + old(list)
    {
      e.next := head;
      e.prev := null;
      if head != null {
        head.prev := e;
      } else {
        tail := e;
      }
      head := e;
      size := size + 1;
      ghost var was := list;
      list := [e] + list;
      forall i ensures LinkAt(list, i) {
        if 0 < i < |list| {
          assert old(LinkAt(was, i - 1));
        }
      }
    }

    // ------------------------------------------------------------ transfers

    /** A transfer may be refused for reasons of the device's own; past its end there is nothing to transfer. */
    method ReadBlock(n: nat) returns (ok: bool, buf: array<byte>)
      requires Valid()
      modifies this`refusals
      ensures Valid() && Lines() == old(Lines()) && fresh(buf)
      ensures ok ==> n < |device| && buf[..] == device[n] && buf.Length == blockSize
      ensures refusals == old(refusals) + if ok || n >= |device| then 0 else 1
    {
      hide Linked, Coherent, Values;
      ok := *;
      if n >= |device| {
        ok := false;
      } else if !ok {
        refusals := refusals + 1;
      }
      if ok {
        var content := device[n];
        buf := new byte[blockSize](i requires 0 <= i < |content| => content[i]);
        assert buf[..] == content;
      } else {
        buf := new byte[blockSize](_ => 0);
      }
    }

    method WriteBlock(n: nat, buf: array<byte>) returns (ok: bool)
      requires Linked() && Buffered() && buf.Length == blockSize
      modifies this`device, this`refusals
      ensures Linked() && Buffered() && Lines() == old(Lines())
      ensures if ok then n < |old(device)| && device == old(device)[n := buf[..]] else device == old(device)
      ensures refusals == old(refusals) + if ok || n >= |device| then 0 else 1
    {
      hide LinkAt, Distinct, Values;
      ok := *;
      if n >= |device| {
        ok := false;
      } else if !ok {
        refusals := refusals + 1;
      }
      if ok {
        device := device[n := buf[..]];
      }
    }

    /** One entry's flags change in place. */
    method Mark(e: Entry, ghost k: nat, dirty: bool, refs: nat)
      requires Linked() && Buffered() && k < |list| && list[k] == e
      modifies e`dirty, e`refs
      ensures Linked() && Buffered() && Lines() == old(Lines())[k := old(Lines())[k].(dirty := dirty, refs := refs)]
    {
      hide Distinct, Values, LinkAt;
      ghost var was := Lines();
      SelfOnce(k);
      e.dirty, e.refs := dirty, refs;
      Updated1(Lines(), was, k);
    }

    /** The entry is written back if it must be; the logical content stays. */
    method FlushEntry(e: Entry, ghost k: nat) returns (ok: bool)
      requires Valid() && k < |list| && list[k] == e
      modifies this`device, this`refusals, e`dirty, e`refs
      ensures Valid() && Flushed(old(Lines()), old(device), k, ok, Lines(), device)
      ensures refusals == old(refusals) + if ok then 0 else 1
    {
      hide Linked, Buffered, Coherent, Flushed, Lines, Logical;
      LineFacts();
      FlushedAll(Lines(), device, k);
      if !e.dirty {
        return true;
      }
      ok := WriteBlock(e.num, e.data);
      if ok {
        Mark(e, k, false, e.refs);
      }
    }

    method Unlink(e: Entry, ghost k: nat)
      requires Linked() && Buffered() && k < |list| && list[k] == e
      modifies this`head, this`tail, this`size, this`list, Nodes()`next, Nodes()`prev
      ensures Linked() && Buffered() && list == Without(old(list), k) && Lines() == Without(old(Lines()), k)
      ensures e !in list && e.data !in Buffers() && e.data.Length == blockSize && e.Value() == old(Lines())[k]
    {
      hide Without, Linked, LinkAt, Values;
      ghost var was := list;
      LineFacts();
      OtherBuffers(k);
      SelfOnce(k);
      Remove(e, k);
      assert Values(was) == old(Values(was));
      ValuesWithout(was, k);
    }

    lemma SelfOnce(k: nat)
      requires Linked() && k < |list|
      ensures forall i :: 0 <= i < |list| && i != k ==> list[i] != list[k]
    {
      hide LinkAt;
    }

    method Link(e: Entry)
      requires Linked() && Buffered() && e !in list && e.data.Length == blockSize && e.data !in Buffers()
      modifies this`head, this`tail, this`size, this`list, e`next, e`prev, Nodes()`prev
      ensures Linked() && Buffered() && list == [e] + old(list) && Lines() == [e.Value()] + old(Lines())
        && e.Value() == old(e.Value())
    {
      hide Linked, LinkAt, Distinct, Values;
      AddFront(e);
      assert Values(list[1..]) == old(Values(list)) by { ValuesOf(list[1..], old(Values(list))); }
      FrontValue(list);
    }

    /** The entry becomes the most recently used one. */
    method MoveFront(e: Entry, ghost k: nat)
      requires Linked() && Buffered() && k < |list| && list[k] == e
      modifies this`head, this`tail, this`size, this`list, Nodes()`next, Nodes()`prev
      ensures Linked() && Buffered() && list == [e] + Without(old(list), k)
        && Lines() == [old(Lines())[k]] + Without(old(Lines()), k)
    {
      hide Without, Linked, Buffered, Lines, Distinct;
      if e == head {
        HeadFirst(k);
        FrontAlready(list);
        FrontAlready(Lines());
        return;
      }
      Unlink(e, k);
      Link(e);
    }

    // ------------------------------------------------------------ operations

    /** Drops the least recently used entry that nobody holds, after writing it back. */
    method Evict() returns (r: int)
      requires Valid()
      modifies this`device, this`refusals, this`head, this`tail, this`size, this`list, Nodes()`next, Nodes()`prev,
        Nodes()`dirty, Nodes()`refs
      ensures Valid() && Evicted(old(Lines()), old(device), r, Lines(), device)
        && (r == SUCCESS || r == IO || r == NO_MEM)
      ensures forall e :: e in old(list) && old(e.refs) > 0 ==> e in list
      ensures forall e :: e in list ==> e in old(list)
      ensures if r == SUCCESS then old(size) > 0 && size == old(size) - 1 else size == old(size)
      ensures refusals == old(refusals) + if r == IO then 1 else 0
      ensures old(Said(Lines(), device)) ==> Said(Lines(), device)
    {
      ghost var k := |list| - 1;
      var e := tail;
      while e != null
        invariant -1 <= k < |list| && e == Nth(list, k)
        invariant forall j :: k < j < |list| ==> list[j].refs != 0
        decreases k
      {
        if e.refs == 0 {
          r := EvictEntry(e, k);
          return;
        }
        assert LinkAt(list, k);
        e, k := e.prev, k - 1;
      }
      NoneEvicted(Lines(), device);
      r := NO_MEM;
    }

    method EvictEntry(e: Entry, ghost k: nat) returns (r: int)
      requires Valid() && k < |list| && list[k] == e && e.refs == 0 && forall j :: k < j < |list| ==> list[j].refs != 0
      modifies this`device, this`refusals, this`head, this`tail, this`size, this`list, Nodes()`next, Nodes()`prev,
        Nodes()`dirty, Nodes()`refs
      ensures Valid() && Evicted(old(Lines()), old(device), r, Lines(), device) && (r == SUCCESS || r == IO)
      ensures forall x :: x in old(list) && old(x.refs) > 0 ==> x in list
      ensures forall x :: x in list ==> x in old(list)
      ensures if r == SUCCESS then old(size) > 0 && size == old(size) - 1 else size == old(size)
      ensures refusals == old(refusals) + if r == IO then 1 else 0
      ensures old(Said(Lines(), device)) ==> Said(Lines(), device)
    {
      hide Linked, Buffered, Coherent, Flushed, Lines, Evicted, SameLogical, Without, Logical, LinkAt, Said;
      ghost var lines, dev := Lines(), device;
      LineFacts();
      SizeIs();
      WithoutMembers(list, k);
      var ok := FlushEntry(e, k);
      if Said(lines, dev) {
        CoherentUnique(lines, dev);
        FlushedSaid(lines, dev, k, ok, Lines(), device);
        WithoutSaid(Lines(), device, k);
      }
      EvictedSteps(lines, dev, k, ok, Lines(), device);
      if !ok {
        return IO;
      }
      Unlink(e, k);
      SizeIs();
      return SUCCESS;
    }

    /** `ext2_get_block`: the block's buffer, held by the caller, or null. */
    method GetBlock(n: nat) returns (block: array?<byte>)
      requires Valid() && forall i :: 0 <= i < |list| ==> list[i].refs < MAX32 - 1
      modifies this`device, this`refusals, this`head, this`tail, this`size, this`list, Nodes()`next, Nodes()`prev,
        Nodes()`dirty, Nodes()`refs
      ensures Valid() && SameLogical(old(Lines()), old(device), Lines(), device)
      ensures forall e :: e in old(list) && old(e.refs) > 0 ==> e in list
      ensures block != null ==>
        && list != [] && list[0].data == block && list[0].num == n && 0 < list[0].refs < MAX32
        && block[..] == Logical(old(Lines()), old(device), n)
      ensures 0 < limit && old(size) <= limit ==> size <= limit
      ensures block != null ==> block in old(Buffers()) || fresh(block)
      ensures forall e :: e in list ==> e in old(list) || fresh(e)
      ensures block == null <==> Unavailable(old(Lines()), |device|, limit, n, refusals > old(refusals))
      ensures old(Said(Lines(), device)) ==> Said(Lines(), device)
    {
      hide Linked, Buffered, Coherent, Flushed, Lines, Evicted, SameLogical, Without, Logical, LinkAt, Distinct,
        Cached, AllHeld, Said;
      ghost var lines, dev := Lines(), device;
      SameItself(lines, dev);
      SizeIs();
      var e, k := Find(n);
      if e != null {
        block := Hit(e, k);
        return;
      }
      if size >= limit {
        var r := Evict();
        EvictedSame(lines, dev, r, Lines(), device);
        SizeIs();
        if r != SUCCESS {
          return null;
        }
      }
      ghost var rest, dev' := Lines(), device;
      block := Load(n);
      SameTrans(lines, dev, rest, dev', Lines(), device, n);
    }

    method Hit(e: Entry, ghost k: nat) returns (block: array<byte>)
      requires Valid() && k < |list| && list[k] == e && e.refs < MAX32 - 1
      modifies this`head, this`tail, this`size, this`list, Nodes()`next, Nodes()`prev, Nodes()`dirty, Nodes()`refs
      ensures Valid() && SameLogical(old(Lines()), device, Lines(), device)
      ensures list != [] && list[0] == e && 0 < e.refs < MAX32 && block == e.data && size == old(size)
        && forall x :: x in old(list) <==> x in list
      ensures block[..] == Logical(old(Lines()), device, e.num)
      ensures old(Said(Lines(), device)) ==> Said(Lines(), device)
    {
      hide Linked, Buffered, Coherent, Lines, SameLogical, Without, Logical, LinkAt, Distinct, Said, Settled, Values;
      ghost var lines := Lines();
      LineFacts();
      HitSteps(lines, device, k);
      if Said(lines, device) { HitSaid(lines, device, k); }
      WithoutMembers(list, k);
      SizeIs();
      Mark(e, k, e.dirty, e.refs + 1);
      MoveFront(e, k);
      SizeIs();
      block := e.data;
    }

    method Load(n: nat) returns (block: array?<byte>)
      requires Valid() && forall x :: x in list ==> x.num != n
      modifies this`head, this`tail, this`size, this`list, this`refusals, Nodes()`prev
      ensures (block == null <==> n >= |device| || refusals > old(refusals)) && refusals >= old(refusals)
      ensures Valid() && SameLogical(old(Lines()), device, Lines(), device)
      ensures block == null ==> list == old(list) && size == old(size)
      ensures block != null ==>
        && list != [] && list[1..] == old(list) && list[0].data == block && list[0].num == n && list[0].refs == 1
          && fresh(block) && fresh(list[0])
        && block[..] == Logical(old(Lines()), device, n) && size == old(size) + 1
      ensures old(Said(Lines(), device)) ==> Said(Lines(), device)
    {
      hide Linked, Buffered, Coherent, Lines, SameLogical, Logical, LinkAt, Distinct, Said;
      ghost var lines := Lines();
      SameItself(lines, device);
      SizeIs();
      var e := Fetch(n);
      if e == null {
        return null;
      }
      LineFacts();
      LoadSame(lines, device, e.Value());
      if Said(lines, device) { FrontSaid(lines, device, e.Value()); }
      LogicalMiss(lines, device, n);
      Link(e);
      SizeIs();
      block := e.data;
    }

    /** A new entry holding the block as the device has it; memory or the device may refuse. */
    method Fetch(n: nat) returns (e: Entry?)
      requires Valid()
      modifies this`refusals
      ensures (e == null <==> n >= |device| || refusals > old(refusals)) && refusals >= old(refusals)
      ensures Valid() && Lines() == old(Lines())
      ensures e != null ==>
        fresh(e) && fresh(e.data) && e.data.Length == blockSize && n < |device|
        && e.Value() == Line(n, device[n], false, 1)
      ensures e != null ==> e !in list && e.data !in Buffers()
    {
      hide Distinct, Unique, Settled, Values;
      var memory: bool := *;
      if !memory {
        refusals := refusals + 1;
        return null;
      }
      var ok, data := ReadBlock(n);
      if !ok {
        return null;
      }
      e := new Entry(n, data);
    }

    /** `ext2_put_block`: a holder lets go, saying whether it changed the block. */
    method PutBlock(block: array<byte>, dirty: bool)
      requires Valid() && forall i :: 0 <= i < |list| && list[i].data == block ==>
        list[i].refs < MAX32 && MayPut(list[i].Value(), device, dirty)
      modifies Nodes()`dirty, Nodes()`refs
      ensures Valid() && SameLogical(old(Lines()), device, Lines(), device)
      ensures forall i :: 0 <= i < |list| ==> Lines()[i] == if list[i].data == block then Put(old(Lines())[i], dirty)
        else old(Lines())[i]
      ensures old(Said(Lines(), device)) ==> Said(Lines(), device)
    {
      hide Linked, Buffered, Coherent, Lines, SameLogical, LinkAt, Said, Put, MayPut, Distinct;
      SameItself(Lines(), device);
      LineFacts();
      var e, k := FindBuffer(block);
      if e != null {
        OtherBuffers(k);
        Release(e, k, dirty);
      }
    }

    method FindBuffer(block: array<byte>) returns (e: Entry?, ghost k: nat)
      requires Valid()
      ensures Valid() && Lines() == old(Lines())
      ensures e == null ==> forall i :: 0 <= i < |list| ==> list[i].data != block
      ensures e != null ==> k < |list| && list[k] == e && e.data == block
    {
      e, k := head, 0;
      while e != null
        invariant k <= |list| && e == Nth(list, k)
        invariant forall i :: 0 <= i < k ==> list[i].data != block
        decreases |list| - k
      {
        if e.data == block {
          return;
        }
        assert LinkAt(list, k);
        e, k := e.next, k + 1;
      }
    }

    method Release(e: Entry, ghost k: nat, dirty: bool)
      requires Valid() && k < |list| && list[k] == e && e.refs < MAX32 && MayPut(e.Value(), device, dirty)
      modifies e`dirty, e`refs
      ensures Valid() && SameLogical(old(Lines()), device, Lines(), device)
      ensures Lines() == old(Lines())[k := Put(old(Lines())[k], dirty)]
      ensures old(Said(Lines(), device)) ==> Said(Lines(), device)
    {
      hide Linked, Buffered, Coherent, Lines, SameLogical, Said;
      LineFacts();
      if Said(Lines(), device) { PutSaid(Lines(), device, k, dirty); }
      PutSettled(Lines(), device, k, dirty);
      MarkSame(Lines(), device, k, Put(Lines()[k], dirty));
      Mark(e, k, e.dirty || dirty, (e.refs + MAX32 - 1) % MAX32);
    }

    /** A holder overwrites part of its buffer: only that block's content changes. */
    method Store(block: array<byte>, off: nat, src: seq<byte>, ghost k: nat)
      requires Valid() && k < |list| && list[k].data == block && list[k].refs > 0 && off + |src| <= block.Length
      modifies block
      ensures Valid() && Changed(old(Lines()), Lines(), device, list[k].num, Splice(old(block[..]), off, src))
      ensures Lines() == old(Lines())[k := old(Lines())[k].(data := Splice(old(block[..]), off, src))]
    {
      hide Linked, Buffered, Coherent, Lines, Changed;
      LineFacts();
      ChangeOne(Lines(), device, k, Splice(block[..], off, src));
      CopyInto(block, off, src, k);
    }

    method CopyInto(block: array<byte>, off: nat, src: seq<byte>, ghost k: nat)
      requires Linked() && Buffered() && k < |list| && list[k].data == block && off + |src| <= block.Length
      modifies block
      ensures Linked() && Buffered() && block[..] == Splice(old(block[..]), off, src)
      ensures Lines() == old(Lines())[k := old(Lines())[k].(data := Splice(old(block[..]), off, src))]
    {
      hide Linked, Buffered, Lines;
      OtherBuffers(k);
      forall i | 0 <= i < |src| {
        block[off + i] := src[i];
      }
      assert block[..] == Splice(old(block[..]), off, src);
    }

    lemma OtherBuffers(k: nat)
      requires Buffered() && k < |list|
      ensures forall i :: 0 <= i < |list| && i != k ==> list[i].data != list[k].data
    {
    }

    /** Fetch a block, overwrite part of it and let go, as every in-place update of the driver does. */
    method Update(n: nat, off: nat, src: seq<byte>) returns (ok: bool)
      requires Valid() && off + |src| <= blockSize && forall i :: 0 <= i < |list| ==> list[i].refs < MAX32 - 1
      modifies this`device, this`refusals, this`head, this`tail, this`size, this`list, Nodes()`next, Nodes()`prev,
        Nodes()`dirty, Nodes()`refs, Buffers()
      ensures Valid()
      ensures !ok ==> SameLogical(old(Lines()), old(device), Lines(), device)
      ensures ok ==> Updated(old(Lines()), old(device), Lines(), device, n, off, src)
      ensures !ok <==> Unavailable(old(Lines()), |device|, limit, n, refusals > old(refusals))
      ensures old(Said(Lines(), device)) ==> Said(Lines(), device)
    {
      hide Linked, Buffered, Coherent, Lines, Logical, SameLogical, Changed, Updated, LinkAt, Unavailable, Said,
        Distinct,
        Put, MayPut;
      ghost var lines, dev := Lines(), device;
      var block := GetBlock(n);
      if block == null {
        return false;
      }
      LineFacts();
      OtherBuffers(0);
      ghost var lines1 := Lines();
      Store(block, off, src, 0);
      ghost var lines2 := Lines();
      PutDirty(list[0].Value(), device);
      PutDirty(lines2[0], device);
      PutBlock(block, true);
      UpdateSaid(lines1, lines2, Lines(), device, Splice(lines1[0].data, off, src));
      UpdatedSteps(lines, dev, lines1, lines2, Lines(), device, n, off, src);
      return true;
    }

    /** `ext2_flush_cache`: every changed block is written back, until a write fails. */
    method FlushCache() returns (r: int)
      requires Valid()
      modifies this`device, this`refusals, Nodes()`dirty, Nodes()`refs
      ensures Valid() && SameLogical(old(Lines()), old(device), Lines(), device)
      ensures r == SUCCESS ==> Synced(old(Lines()), old(device), Lines(), device)
      ensures r == if refusals == old(refusals) then SUCCESS else IO
      ensures old(Said(Lines(), device)) ==> Said(Lines(), device)
    {
      hide Linked, Buffered, Coherent, Flushed, FlushedTo, Lines, Logical, SameLogical, Synced, LinkAt, Said;
      ghost var lines, dev := Lines(), device;
      FlushedNone(lines, dev);
      Ends();
      ghost var k := 0;
      var e := head;
      while e != null
        invariant 0 <= k <= |list| && e == Nth(list, k) && list == old(list) && |lines| == |list|
        invariant Linked() && Buffered() && Coherent(Lines(), device)
        invariant Said(lines, dev) ==> Said(Lines(), device)
        invariant FlushedTo(lines, dev, k, Lines(), device) && refusals == old(refusals)
        decreases |list| - k
      {
        ghost var before, dev' := Lines(), device;
        LineFacts();
        FlushedClean(lines, dev, k, before, dev');
        if e.dirty {
          var ok := FlushEntry(e, k);
          if Said(before, dev') {
            CoherentUnique(before, dev');
            FlushedSaid(before, dev', k, ok, Lines(), device);
          }
          FlushedNext(lines, dev, k, ok, before, dev', Lines(), device);
          if !ok {
            return IO;
          }
        }
        NextIs(k);
        e, k := e.next, k + 1;
      }
      FlushedWhole(lines, dev, Lines(), device);
      r := SUCCESS;
    }

    lemma Ends()
      requires Linked()
      ensures head == Nth(list, 0)
    {
    }

    lemma NextIs(k: nat)
      requires Linked() && k < |list|
      ensures list[k].next == Nth(list, k + 1)
    {
      assert LinkAt(list, k);
    }

    lemma SizeIs()
      requires Linked()
      ensures size == |list| == |Lines()|
    {
    }
  }

  /** A hit counts a reference and moves the entry to the front. */
  lemma HitSteps(lines: seq<Line>, device: seq<seq<byte>>, k: nat)
    requires k < |lines| && Coherent(lines, device)
    ensures Logical(lines, device, lines[k].num) == lines[k].data
    ensures var m := lines[k := lines[k].(refs := lines[k].refs + 1)];
      var w := [m[k]] + Without(m, k);
      Coherent(w, device) && SameLogical(lines, device, w, device)
  {
    LogicalHit(lines, device, k);
    assert Settled(lines[k], device);
    MarkSame(lines, device, k, lines[k].(refs := lines[k].refs + 1));
    FrontSame(lines[k := lines[k].(refs := lines[k].refs + 1)], device, k);
  }

  /** An entry after one reference to it is dropped. */
  function Put(k: Line, dirty: bool): Line { k.(dirty := k.dirty || dirty, refs := (k.refs + MAX32 - 1) % MAX32) }

  /** The last holder of a block that it changed has to say so. */
  ghost predicate MayPut(k: Line, device: seq<seq<byte>>, dirty: bool) {
    k.refs == 1 && !k.dirty && !dirty ==> k.num < |device| && k.data == device[k.num]
  }

  lemma PutDirty(k: Line, device: seq<seq<byte>>)
    ensures MayPut(k, device, true) && Put(k, true).dirty
  {
  }

  lemma PutSettled(lines: seq<Line>, device: seq<seq<byte>>, k: nat, dirty: bool)
    requires Coherent(lines, device) && k < |lines| && lines[k].refs < MAX32 && MayPut(lines[k], device, dirty)
    ensures Settled(Put(lines[k], dirty), device)
  {
    assert Settled(lines[k], device);
  }

  /** Changing the buffer of an entry that is held changes that block's content and no other. */
  lemma ChangeOne(lines: seq<Line>, device: seq<seq<byte>>, k: nat, data: seq<byte>)
    requires Coherent(lines, device) && k < |lines| && lines[k].refs > 0
    ensures Coherent(lines[k := lines[k].(data := data)], device)
    ensures Changed(lines, lines[k := lines[k].(data := data)], device, lines[k].num, data)
  {
    var w := lines[k := lines[k].(data := data)];
    assert forall i :: 0 <= i < |w| ==> w[i].num == lines[i].num && Settled(lines[i], device);
    LogicalHit(w, device, k);
    forall n: nat | n != lines[k].num ensures Logical(w, device, n) == Logical(lines, device, n) {
      if i :| 0 <= i < |lines| && lines[i].num == n {
        LogicalHit(lines, device, i);
        LogicalHit(w, device, i);
      } else {
        LogicalMiss(lines, device, n);
        LogicalMiss(w, device, n);
      }
    }
  }

  /** The logical content changed at one block. */
  ghost predicate Changed(lines: seq<Line>, lines': seq<Line>, device: seq<seq<byte>>, n: nat, data: seq<byte>) {
    && Logical(lines', device, n) == data
    && forall m: nat :: m != n ==> Logical(lines', device, m) == Logical(lines, device, m)
  }

  /** A flush that has passed the first `k` entries. */
  ghost predicate FlushedTo(lines0: seq<Line>, device0: seq<seq<byte>>, k: nat, lines: seq<Line>,
                            device: seq<seq<byte>>) {
    && |lines| == |lines0| && k <= |lines0| && SameLogical(lines0, device0, lines, device) && Unique(lines0)
    && (forall i :: 0 <= i < |lines| ==> lines[i] == if i < k then lines0[i].(dirty := false) else lines0[i])
    && (forall i :: 0 <= i < k && lines0[i].dirty ==>
      lines0[i].num < |device| && device[lines0[i].num] == lines0[i].data)
    && |device| == |device0|
    && (forall n :: 0 <= n < |device| && (forall i :: 0 <= i < k && lines0[i].dirty ==> lines0[i].num != n) ==>
      device[n] == device0[n])
  }

  /** The entry was changed by a holder who has not said so. */
  predicate Differs(k: Line, device: seq<seq<byte>>, n: nat) {
    k.num == n && !k.dirty && (n < |device| ==> k.data != device[n])
  }

  ghost predicate Unsaid(lines: seq<Line>, device: seq<seq<byte>>, n: nat) {
    exists i :: 0 <= i < |lines| && Differs(lines[i], device, n)
  }

  /** The device holds the logical content of exactly the blocks that are not so. */
  ghost predicate Synced(lines0: seq<Line>, device0: seq<seq<byte>>, lines: seq<Line>, device: seq<seq<byte>>) {
    forall n: nat :: n < |device| ==> (device[n] == Logical(lines, device, n) <==> !Unsaid(lines0, device0, n))
  }

  lemma FlushedNone(lines: seq<Line>, device: seq<seq<byte>>)
    requires Coherent(lines, device)
    ensures FlushedTo(lines, device, 0, lines, device)
  {
    SameItself(lines, device);
  }

  lemma FlushedClean(lines0: seq<Line>, device0: seq<seq<byte>>, k: nat, lines: seq<Line>, device: seq<seq<byte>>)
    requires FlushedTo(lines0, device0, k, lines, device) && k < |lines0|
    ensures SameLogical(lines0, device0, lines, device)
    ensures !lines[k].dirty ==> FlushedTo(lines0, device0, k + 1, lines, device)
  {
  }

  lemma FlushedNext(lines0: seq<Line>, device0: seq<seq<byte>>, k: nat, ok: bool,
                    lines: seq<Line>, device: seq<seq<byte>>, lines': seq<Line>, device': seq<seq<byte>>)
    requires FlushedTo(lines0, device0, k, lines, device) && Flushed(lines, device, k, ok, lines', device')
      && lines[k].dirty
    ensures SameLogical(lines0, device0, lines', device') && (ok ==> FlushedTo(lines0, device0, k + 1, lines', device'))
  {
    SameTrans(lines0, device0, lines, device, lines', device', 0);
    assert forall i :: 0 <= i < k ==> lines0[i].num != lines0[k].num;
    hide SameLogical, Logical;
  }

  lemma FlushedWhole(lines0: seq<Line>, device0: seq<seq<byte>>, lines: seq<Line>, device: seq<seq<byte>>)
    requires FlushedTo(lines0, device0, |lines0|, lines, device) && Coherent(lines, device)
    ensures Synced(lines0, device0, lines, device) && SameLogical(lines0, device0, lines, device)
  {
    hide SameLogical, Logical, Settled;
    forall n: nat | n < |device| ensures device[n] == Logical(lines, device, n) <==> !Unsaid(lines0, device0, n) {
      if i :| 0 <= i < |lines| && lines[i].num == n {
        LogicalHit(lines, device, i);
        assert Unsaid(lines0, device0, n) <==> Differs(lines0[i], device0, n);
      } else {
        LogicalMiss(lines, device, n);
      }
    }
  }

  /** An entry that is not marked equals the device. */
  predicate Marked(k: Line, device: seq<seq<byte>>) { k.dirty || (k.num < |device| && k.data == device[k.num]) }

  /** No entry differs from the device without being marked. */
  ghost predicate Said(lines: seq<Line>, device: seq<seq<byte>>) {
    forall i :: 0 <= i < |lines| ==> Marked(lines[i], device)
  }

  /** Then, and only then, a flush that succeeds makes the whole device the logical content. */
  lemma FlushedDevice(lines0: seq<Line>, device0: seq<seq<byte>>, lines: seq<Line>, device: seq<seq<byte>>)
    requires Synced(lines0, device0, lines, device) && SameLogical(lines0, device0, lines, device)
    requires Coherent(lines0, device0)
    ensures |device| == |device0|
    ensures Said(lines0, device0) <==> forall n: nat :: n < |device| ==> device[n] == Logical(lines0, device0, n)
  {
    hide Logical;
    forall n: nat | n < |device| ensures device[n] == Logical(lines0, device0, n) <==> !Unsaid(lines0, device0, n) {
      assert Logical(lines, device, n) == Logical(lines0, device0, n);
    }
    if !Said(lines0, device0) {
      var i :| 0 <= i < |lines0| && !Marked(lines0[i], device0);
      assert Settled(lines0[i], device0);
      assert Differs(lines0[i], device0, lines0[i].num);
      assert Unsaid(lines0, device0, lines0[i].num);
    }
  }

  lemma FlushedSaid(lines: seq<Line>, device: seq<seq<byte>>, k: nat, ok: bool, lines': seq<Line>,
                    device': seq<seq<byte>>)
    requires Flushed(lines, device, k, ok, lines', device') && Unique(lines) && Said(lines, device)
    ensures Said(lines', device')
  {
    hide SameLogical;
    forall i | 0 <= i < |lines'| ensures Marked(lines'[i], device') {
      assert Marked(lines[i], device);
    }
  }

  lemma WithoutSaid(lines: seq<Line>, device: seq<seq<byte>>, k: nat)
    requires k < |lines| && Said(lines, device)
    ensures Said(Without(lines, k), device) && Said([lines[k]] + Without(lines, k), device)
  {
    hide Marked, Without;
    assert forall i :: 0 <= i < |lines| - 1 ==>
      Without(lines, k)[i] == lines[if i < k then i else i + 1] by { WithoutIs(lines, k); }
  }

  lemma WithoutIs(lines: seq<Line>, k: nat)
    requires k < |lines|
    ensures forall i :: 0 <= i < |lines| - 1 ==> Without(lines, k)[i] == lines[if i < k then i else i + 1]
  {
  }

  /** One entry is replaced, by an entry that is marked or equal to the device. */
  lemma OneSaid(lines: seq<Line>, device: seq<seq<byte>>, k: nat, x: Line)
    requires k < |lines| && Marked(x, device)
    requires forall i :: 0 <= i < |lines| && i != k ==> Marked(lines[i], device)
    ensures Said(lines[k := x], device)
  {
    hide Marked;
  }

  lemma FrontSaid(lines: seq<Line>, device: seq<seq<byte>>, x: Line)
    requires Said(lines, device) && Marked(x, device)
    ensures Said([x] + lines, device)
  {
    hide Marked;
  }

  lemma CoherentUnique(lines: seq<Line>, device: seq<seq<byte>>)
    requires Coherent(lines, device)
    ensures Unique(lines)
  {
  }

  lemma PutSaid(lines: seq<Line>, device: seq<seq<byte>>, k: nat, dirty: bool)
    requires k < |lines| && Said(lines, device)
    ensures Said(lines[k := Put(lines[k], dirty)], device)
  {
    assert Marked(lines[k], device);
  }

  lemma HitSaid(lines: seq<Line>, device: seq<seq<byte>>, k: nat)
    requires k < |lines| && Said(lines, device)
    ensures var m := lines[k := lines[k].(refs := lines[k].refs + 1)]; Said([m[k]] + Without(m, k), device)
  {
    hide Without;
    var m := lines[k := lines[k].(refs := lines[k].refs + 1)];
    assert Marked(lines[k], device);
    OneSaid(lines, device, k, m[k]);
    WithoutSaid(m, device, k);
  }

  /** A buffer changed and then declared changed leaves nothing unsaid. */
  lemma UpdateSaid(lines1: seq<Line>, lines2: seq<Line>, lines3: seq<Line>, device: seq<seq<byte>>, data: seq<byte>)
    requires lines1 != [] && lines2 == lines1[0 := lines1[0].(data := data)] && |lines3| == |lines1|
    requires lines3[0].dirty && forall i :: 0 < i < |lines3| ==> lines3[i] == lines2[i]
    ensures Said(lines1, device) ==> Said(lines3, device)
  {
  }

  /** The logical content of one block was overwritten in part; every other block's stayed. */
  ghost predicate Updated(lines: seq<Line>, device: seq<seq<byte>>, lines': seq<Line>, device': seq<seq<byte>>, n: nat,
                          off: nat, src: seq<byte>) {
    && |device'| == |device| && off + |src| <= |Logical(lines, device, n)|
    && Logical(lines', device', n) == Splice(Logical(lines, device, n), off, src)
    && forall m: nat :: m != n ==> Logical(lines', device', m) == Logical(lines, device, m)
  }

  lemma UpdatedSteps(lines: seq<Line>, device: seq<seq<byte>>, lines1: seq<Line>, lines2: seq<Line>, lines3: seq<Line>,
                     device': seq<seq<byte>>,
                     n: nat, off: nat, src: seq<byte>)
    requires SameLogical(lines, device, lines1, device') && SameLogical(lines2, device', lines3, device')
    requires off + |src| <= |Logical(lines, device, n)|
    requires Changed(lines1, lines2, device', n, Splice(Logical(lines, device, n), off, src))
    ensures Updated(lines, device, lines3, device', n, off, src)
  {
  }

  ghost predicate Cached(lines: seq<Line>, n: nat) { exists i :: 0 <= i < |lines| && lines[i].num == n }

  ghost predicate AllHeld(lines: seq<Line>) { forall i :: 0 <= i < |lines| ==> lines[i].refs != 0 }

  /**
   A block cannot be had: it is not cached, and something was refused, or it does not exist, or there is no
   room for it.
   */
  ghost predicate Unavailable(lines: seq<Line>, blocks: nat, limit: nat, n: nat, refused: bool) {
    !Cached(lines, n) && (refused || n >= blocks || (|lines| >= limit && AllHeld(lines)))
  }

  const SUCCESS := 0
  const NO_MEM := -2
  const IO := -3

  /**
   What an eviction does: the last entry nobody holds is gone, with nothing lost; it fails for memory only if
   all are held.
   */
  ghost predicate Evicted(lines: seq<Line>, device: seq<seq<byte>>, r: int, lines': seq<Line>,
                          device': seq<seq<byte>>) {
    && SameLogical(lines, device, lines', device')
    && (r == SUCCESS ==>
      exists k: nat ::
        && k < |lines| && lines[k].refs == 0 && (forall j :: k < j < |lines| ==> lines[j].refs != 0)
        && lines' == Without(lines, k))
    && (r != SUCCESS ==> lines' == lines && device' == device)
    && (r == NO_MEM <==> AllHeld(lines))
  }

  lemma EvictedSame(lines: seq<Line>, device: seq<seq<byte>>, r: int, lines': seq<Line>, device': seq<seq<byte>>)
    requires Evicted(lines, device, r, lines', device')
    ensures SameLogical(lines, device, lines', device') && |device'| == |device| && (r == NO_MEM <==> AllHeld(lines))
  {
  }

  lemma NoneEvicted(lines: seq<Line>, device: seq<seq<byte>>)
    requires forall j :: 0 <= j < |lines| ==> lines[j].refs != 0
    ensures Evicted(lines, device, NO_MEM, lines, device)
  {
  }

  /** Writing back, then dropping. */
  lemma EvictedSteps(lines: seq<Line>, device: seq<seq<byte>>, k: nat, ok: bool, lines': seq<Line>,
                     device': seq<seq<byte>>)
    requires k < |lines| && lines[k].refs == 0 && (forall j :: k < j < |lines| ==> lines[j].refs != 0)
    requires Coherent(lines', device') && Flushed(lines, device, k, ok, lines', device')
    ensures k < |lines'|
    ensures if ok then Coherent(Without(lines', k), device')
      && Evicted(lines, device, SUCCESS, Without(lines', k), device')
      else Evicted(lines, device, IO, lines', device')
  {
    if ok {
      assert Settled(lines'[k], device');
      DropSame(lines', device', k);
      assert Without(lines', k) == Without(lines, k);
    }
  }

  lemma WithoutMembers<T>(s: seq<T>, k: nat)
    requires k < |s|
    ensures forall x :: x in s ==> x == s[k] || x in Without(s, k)
    ensures forall x :: x in Without(s, k) ==> x in s
  {
    var w := Without(s, k);
    forall x | x in s && x != s[k] ensures x in w {
      var i :| 0 <= i < |s| && s[i] == x;
      assert w[if i < k then i else i - 1] == x;
    }
  }

  lemma FrontAlready<T>(s: seq<T>)
    requires s != []
    ensures [s[0]] + Without(s, 0) == s
  {
  }
}
