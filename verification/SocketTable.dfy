/**
The socket table as it is kept in memory: a table of records, each with a circular receive
 buffer and a circular backlog, changed in place. Every stretch of code between two yields
 is shown to take the abstract step that `UnixSockets` gives for it.
 */
module SocketTable {
  import opened Bytes
  import U = UnixSockets

  /** Circular storage: `unix_ring_t`, and the backlog of a `unix_socket_t`. */
  datatype Ring<T> = Ring(data: seq<T>, head: nat, tail: nat, count: nat)

  /** `unix_socket_t` */
  datatype Slot = Slot(
    inUse: bool, state: U.State, kind: int, path: string, peer: int,
    rx: Ring<byte>, backlog: Ring<U.Pending>, reader: int, owner: int)

  /** How a stretch of code ends: the call returns, or the process waits inside it. */
  datatype Outcome = Done(value: int) | Waits

  // ---------------------------------------------------------------- circular storage

  function Wrap(a: nat, b: nat, m: nat): nat { if a + b < m then a + b else a + b - m }

  predicate RingOk<T>(r: Ring<T>, capacity: nat) {
    |r.data| == capacity && r.head < capacity && r.count <= capacity && r.tail == Wrap(r.head, r.count, capacity)
  }

  /** `n` cells of circular storage, from `head` on. */
  function Window<T>(data: seq<T>, head: nat, n: nat): (r: seq<T>)
    requires n <= |data| && head < |data|
    ensures |r| == n && forall k :: 0 <= k < n ==> r[k] == data[Wrap(head, k, |data|)]
  {
    seq(n, k requires 0 <= k < n => data[Wrap(head, k, |data|)])
  }

  function Content<T>(r: Ring<T>): seq<T> {
    if r.count <= |r.data| && r.head < |r.data| then Window(r.data, r.head, r.count) else []
  }

  /** Storing at the tail appends. */
  lemma StoreAppends<T>(data: seq<T>, head: nat, n: nat, x: T)
    requires head < |data| && n < |data|
    ensures Window(data[Wrap(head, n, |data|) := x], head, n + 1) == Window(data, head, n) + [x]
  {
    assert forall k :: 0 <= k < n ==> Wrap(head, k, |data|) != Wrap(head, n, |data|);
  }

  /** Moving the head drops the first element. */
  lemma HeadDrops<T>(data: seq<T>, head: nat, n: nat)
    requires head < |data| && 0 < n <= |data|
    ensures Window(data, Wrap(head, 1, |data|), n - 1) == Window(data, head, n)[1..]
    ensures data[head] == Window(data, head, n)[0]
  {
    assert forall k :: 0 <= k < n - 1 ==> Wrap(Wrap(head, 1, |data|), k, |data|) == Wrap(head, k + 1, |data|);
  }

  /** `extra` bytes have been stored past the recorded count; one more is. */
  lemma RingPush(rb: Ring<byte>, extra: nat, x: byte)
    requires RingOk(rb.(count := rb.count + extra), 8192) && rb.count + extra < 8192
    ensures rb.tail < |rb.data| && RingOk(rb.(data := rb.data[rb.tail := x], tail := (rb.tail + 1) % 8192,
      count := rb.count + extra + 1), 8192)
    ensures Content(rb.(data := rb.data[rb.tail := x], tail := (rb.tail + 1) % 8192, count := rb.count + extra + 1))
         == Content(rb.(count := rb.count + extra)) + [x]
  {
    StoreAppends(rb.data, rb.head, rb.count + extra, x);
  }

  /** `gone` bytes of the recorded count have been taken; one more is. */
  lemma RingPop(rb: Ring<byte>, gone: nat)
    requires gone < rb.count && RingOk(rb.(count := rb.count - gone), 8192)
    ensures rb.head < |rb.data| && RingOk(rb.(head := (rb.head + 1) % 8192, count := rb.count - gone - 1), 8192)
    ensures Content(rb.(head := (rb.head + 1) % 8192, count := rb.count - gone - 1)) ==
      Content(rb.(count := rb.count - gone))[1..]
    ensures |Content(rb.(count := rb.count - gone))| > 0
      && rb.data[rb.head] == Content(rb.(count := rb.count - gone))[0]
  {
    hide Window;
    HeadDrops(rb.data, rb.head, rb.count - gone);
  }

  function Fit(want: nat, n: nat): nat { if want < n then want else n }

  /** Copies into the ring, byte by byte; refuses what does not fit. */
  lemma MoreOf(c: seq<byte>, src: seq<byte>, i: nat)
    requires i < |src|
    ensures c + src[..i] + [src[i]] == c + src[..i + 1]
  {
  }

  /** The oldest entry of a backlog and the backlog without it. */
  lemma Popped(k: Slot)
    requires SlotOk(k) && k.backlog.count > 0
    ensures var q := k.backlog; var q' := q.(head := (q.head + 1) % 8, count := q.count - 1);
      && q.head < |q.data| && PendingOk(q.data[q.head]) && SlotOk(k.(backlog := q'))
      && |Content(q)| > 0 && q.data[q.head] == Content(q)[0] && Content(q') == Content(q)[1..]
  {
    hide Window, Wrap;
    HeadDrops(k.backlog.data, k.backlog.head, k.backlog.count);
    WrapNext(k.backlog.head, k.backlog.count);
    WindowSize(k.backlog.data, k.backlog.head, k.backlog.count);
  }

  lemma WindowSize<T>(data: seq<T>, head: nat, n: nat)
    requires n <= |data| && head < |data|
    ensures |Window(data, head, n)| == n
  {
  }

  lemma WrapNext(head: nat, n: nat)
    requires head < 8 && 0 < n <= 8
    ensures (head + 1) % 8 == Wrap(head, 1, 8) < 8 && Wrap(Wrap(head, 1, 8), n - 1, 8) == Wrap(head, n, 8)
  {
  }

  method RingWrite(ring: Ring<byte>, src: seq<byte>) returns (ok: bool, rb: Ring<byte>)
    requires RingOk(ring, 8192)
    ensures ok == (ring.count + |src| <= 8192) && RingOk(rb, 8192)
    ensures if ok then Content(rb) == Content(ring) + src && rb.count == ring.count + |src| else rb == ring
  {
    hide RingOk, Content, Wrap;
    rb := ring;
    if rb.count + |src| > 8192 {
      return false, rb;
    }
    assert src[..0] == [];
    var i := 0;
    while i < |src|
      invariant 0 <= i <= |src| && rb.count == ring.count
      invariant RingOk(rb.(count := rb.count + i), 8192)
      invariant Content(rb.(count := rb.count + i)) == Content(ring) + src[..i]
    {
      RingPush(rb, i, src[i]);
      MoreOf(Content(ring), src, i);
      rb := rb.(data := rb.data[rb.tail := src[i]], tail := (rb.tail + 1) % 8192);
      i := i + 1;
    }
    assert src[..i] == src;
    rb := rb.(count := rb.count + |src|);
    ok := true;
  }

  lemma Split<T>(c: seq<T>, i: nat)
    requires i < |c|
    ensures c[i..] != [] && c[i..][0] == c[i] && c[i..][1..] == c[i + 1..] && c[..i] + [c[i]] == c[..i + 1]
  {
  }

  lemma Rejoin<T>(c: seq<T>, n: nat)
    requires n <= |c|
    ensures c[..n] + c[n..] == c
  {
  }

  /** Copies out of the ring, byte by byte, at most `want`. */
  method RingRead(ring: Ring<byte>, want: nat) returns (dst: seq<byte>, rb: Ring<byte>)
    requires RingOk(ring, 8192)
    ensures RingOk(rb, 8192) && dst + Content(rb) == Content(ring) && |dst| == Fit(want, ring.count)
      && |Content(ring)| == ring.count
  {
    rb := ring;
    var n := if want < rb.count then want else rb.count;
    ContentSize(ring, 8192);
    ghost var c := Content(ring);
    hide RingOk, Content;
    dst := [];
    var i := 0;
    while i < n
      invariant 0 <= i <= n <= |c| && rb.count == ring.count
      invariant RingOk(rb.(count := rb.count - i), 8192)
      invariant Content(rb.(count := rb.count - i)) == c[i..] && dst == c[..i]
    {
      RingPop(rb, i);
      Split(c, i);
      dst := dst + [rb.data[rb.head]];
      rb := rb.(head := (rb.head + 1) % 8192);
      i := i + 1;
    }
    rb := rb.(count := rb.count - n);
    Rejoin(c, n);
  }

  lemma ContentSize<T>(r: Ring<T>, capacity: nat)
    requires RingOk(r, capacity) && capacity > 0
    ensures |Content(r)| == r.count <= capacity
  {
  }

  // ---------------------------------------------------------------- the abstract table

  function Abs(k: Slot): U.Sock {
    U.Sock(k.inUse, k.state, k.kind, k.path, k.peer, Content(k.rx), Content(k.backlog), k.reader, k.owner)
  }

  function View(slots: seq<Slot>): (r: seq<U.Sock>)
    ensures |r| == |slots| && forall i :: 0 <= i < |slots| ==> r[i] == Abs(slots[i])
  {
    seq(|slots|, i requires 0 <= i < |slots| => Abs(slots[i]))
  }

  predicate PendingOk(e: U.Pending) { 0 <= e.sock < 64 && e.pid >= 0 }

  predicate SlotOk(k: Slot) {
    && RingOk(k.rx, 8192) && RingOk(k.backlog, 8) && |k.path| < U.PATH_MAX && k.peer < 64
    && forall a :: 0 <= a < 8 ==> PendingOk(k.backlog.data[a])
  }

  function Blank(state: U.State, kind: int, path: string, peer: int, owner: int): Slot {
    Slot(true, state, kind, path, peer, Ring(seq(8192, i => 0), 0, 0, 0), Ring(seq(8, i => U.Pending(0, 0)), 0, 0, 0),
      -1, owner)
  }

  lemma BlankIs(state: U.State, kind: int, path: string, peer: int, owner: int)
    requires |path| < U.PATH_MAX && peer < 64
    ensures SlotOk(Blank(state, kind, path, peer, owner))
      && Abs(Blank(state, kind, path, peer, owner)) == U.Fresh(state, kind, path, peer, owner)
  {
  }

  /** The oldest entry of a backlog is gone. */
  function WithoutHead(s: U.Sys, id: int): U.Sys {
    if 0 <= id < |s.socks| && s.socks[id].backlog != [] then U.SetSock(s, id,
      s.socks[id].(backlog := s.socks[id].backlog[1..])) else s
  }

  class Table {
    var slots: seq<Slot>
    var procs: map<int, U.Proc>
    ghost var hist: seq<U.Hist>

    ghost predicate Valid()
      reads this
    {
      |slots| == 64 && |hist| == 64 && forall i :: 0 <= i < 64 ==> SlotOk(slots[i])
    }

    ghost function State(): U.Sys
      reads this
    {
      U.Sys(View(slots), procs, hist)
    }

    /** `unix_sock_init` */
    constructor ()
      ensures Valid()
      ensures State() == U.Sys(seq(64, i => U.Sock(false, U.Free, 0, "", -1, [], [], -1, 0)), map[],
        seq(64, i => U.NewHist))
    {
      slots := seq(64, i => Blank(U.Free, 0, "", -1, 0).(inUse := false));
      procs := map[];
      hist := seq(64, i => U.NewHist);
      new;
      BlankIs(U.Free, 0, "", -1, 0);
      assert View(slots) == seq(64, i => U.Sock(false, U.Free, 0, "", -1, [], [], -1, 0));
    }

    predicate Get(id: int)
      reads this
    {
      0 <= id < |slots| && slots[id].inUse
    }

    /** One record changes in place. */
    method Put(id: int, k: Slot)
      requires Valid() && 0 <= id < 64 && SlotOk(k)
      modifies this`slots
      ensures Valid() && slots == old(slots)[id := k]
      ensures State() == U.SetSock(old(State()), id, Abs(k))
    {
      slots := slots[id := k];
      assert View(slots) == View(old(slots))[id := Abs(k)];
    }

    /** `proc_unblock` */
    method Unblock(pid: int)
      requires Valid()
      modifies this`procs
      ensures Valid() && State() == U.Unblock(old(State()), pid)
    {
      if pid in procs {
        procs := procs[pid := procs[pid].(blocked := false)];
      }
    }

    method WakeReader(id: int)
      requires Valid() && 0 <= id < 64
      modifies this`procs, this`slots
      ensures Valid() && State() == U.WakeReader(old(State()), id)
      ensures slots == old(slots)[id := slots[id]] && slots[id] == old(slots[id]).(reader := slots[id].reader)
    {
      if slots[id].reader >= 0 {
        Unblock(slots[id].reader);
        Put(id, slots[id].(reader := -1));
      }
    }

    method RbWrite(id: int, src: seq<byte>) returns (ok: bool)
      requires Valid() && 0 <= id < 64
      modifies this`hist, this`slots
      ensures Valid() && ok == (old(slots[id]).rx.count + |src| <= 8192)
      ensures State() == if ok then U.Put(old(State()), id, src) else old(State())
      ensures slots == old(slots)[id := slots[id]] && slots[id] == old(slots[id]).(rx := slots[id].rx)
      ensures ok ==> slots[id].rx.count == old(slots[id]).rx.count + |src|
    {
      assert SlotOk(slots[id]);
      var rb;
      ok, rb := RingWrite(slots[id].rx, src);
      if ok {
        hide RingOk, Content;
        Put(id, slots[id].(rx := rb));
        hist := hist[id := hist[id].(put := hist[id].put + src)];
      }
    }

    method RbRead(id: int, want: nat) returns (dst: seq<byte>)
      requires Valid() && 0 <= id < 64
      modifies this`hist, this`slots
      ensures Valid() && State() == U.Take(old(State()), id, want)
      ensures dst == Content(old(slots[id]).rx)[..Fit(want, |Content(old(slots[id]).rx)|)]
    {
      assert SlotOk(slots[id]);
      var rb;
      dst, rb := RingRead(slots[id].rx, want);
      hide RingOk, Content;
      Put(id, slots[id].(rx := rb));
      hist := hist[id := hist[id].(got := hist[id].got + dst)];
    }

    method FindFree() returns (r: int)
      requires Valid()
      ensures r == U.FirstFree(State().socks, 64)
    {
      var i := 0;
      while i < 64
        invariant 0 <= i <= 64 && U.FirstFree(State().socks, i) == -1
      {
        if !slots[i].inUse {
          FirstIs(State().socks, i);
          return i;
        }
        i := i + 1;
      }
      return -1;
    }

    method FindListener(path: string) returns (r: int)
      requires Valid()
      ensures r == U.FindListener(State().socks, path, 64)
    {
      var i := 0;
      while i < 64
        invariant 0 <= i <= 64 && U.FindListener(State().socks, path, i) == -1
      {
        if slots[i].inUse && slots[i].state == U.Listening && slots[i].path == path {
          ListenerIs(State().socks, path, i);
          return i;
        }
        i := i + 1;
      }
      return -1;
    }

    method FindBound(path: string) returns (r: int)
      requires Valid()
      ensures r == U.FindBound(State().socks, path, 64)
    {
      var i := 0;
      while i < 64
        invariant 0 <= i <= 64 && U.FindBound(State().socks, path, i) == -1
      {
        if slots[i].inUse && (slots[i].state == U.Bound || slots[i].state == U.Listening) && slots[i].path == path {
          BoundIs(State().socks, path, i);
          return i;
        }
        i := i + 1;
      }
      return -1;
    }

    method Create(pid: int, kind: int) returns (r: int)
      requires Valid()
      modifies this`hist, this`slots
      ensures Valid() && State() == U.Create(old(State()), pid, kind)
      ensures r >= 0 ==> 0 <= r < 64 && !old(slots[r]).inUse && forall i :: 0 <= i < r ==> old(slots)[i].inUse
      ensures r >= 0 ==> State().socks[r] == U.Sock(true, U.Created, kind, "", -1, [], [], -1, pid)
      ensures forall i :: 0 <= i < 64 && i != r ==> slots[i] == old(slots)[i]
      ensures r < 0 <==> (kind != U.SOCK_STREAM && kind != U.SOCK_DGRAM) || forall i :: 0 <= i < 64 ==>
        old(slots)[i].inUse
    {
      if kind != U.SOCK_STREAM && kind != U.SOCK_DGRAM {
        return -1;
      }
      ghost var s := State();
      r := FindFree();
      assert forall i :: 0 <= i < 64 ==> s.socks[i].inUse == old(slots)[i].inUse;
      if r >= 0 {
        assert !s.socks[r].inUse && !old(slots[r]).inUse;
        BlankIs(U.Created, kind, "", -1, pid);
        Put(r, Blank(U.Created, kind, "", -1, pid));
        hist := hist[r := U.NewHist];
      }
    }

    /** The listener's oldest entry leaves its backlog. */
    method Dequeue(id: int) returns (e: U.Pending)
      requires Valid() && 0 <= id < 64 && slots[id].backlog.count > 0
      modifies this`slots
      ensures Valid() && |Content(old(slots[id]).backlog)| > 0 && e == Content(old(slots[id]).backlog)[0]
        && PendingOk(e)
      ensures slots == old(slots)[id := slots[id]] && slots[id] == old(slots[id]).(backlog := slots[id].backlog)
      ensures slots[id].backlog.count == old(slots[id]).backlog.count - 1
      ensures Content(slots[id].backlog) == Content(old(slots[id]).backlog)[1..]
      ensures State() == WithoutHead(old(State()), id)
    {
      hide RingOk, Content, SlotOk, PendingOk, Wrap;
      var q := slots[id].backlog;
      assert SlotOk(slots[id]);
      Popped(slots[id]);
      e := q.data[q.head];
      q := q.(head := (q.head + 1) % 8, count := q.count - 1);
      Put(id, slots[id].(backlog := q));
    }

    method Destroy(id: int)
      requires Valid()
      modifies this`procs, this`slots
      ensures Valid() && State() == U.Destroy(old(State()), id) && !Get(id)
      ensures var p := if old(Get(id)) then old(slots[id]).peer else -1;
        p != id && old(Get(p)) ==>
          Get(p) && slots[p].state == U.Closed && slots[p].peer == -1 && State().socks[p].rx == old(State()).socks[p].rx
    {
      hide RingOk, Content, Wrap, PendingOk, U.UnblockedAll, U.WakeReader;
      if !Get(id) {
        return;
      }
      WakeReader(id);
      Hangup(id);
      Drain(id);
      Put(id, slots[id].(state := U.Closed, inUse := false));
    }

    method Hangup(id: int)
      requires Valid() && Get(id)
      modifies this`procs, this`slots
      ensures Valid() && Get(id) && State() == U.Hangup(old(State()), id)
      ensures var p := old(slots[id]).peer;
        p != id && old(Get(p)) ==>
          Get(p) && slots[p].state == U.Closed && slots[p].peer == -1 && slots[p].rx == old(slots[p]).rx
    {
      if slots[id].peer >= 0 {
        var p := slots[id].peer;
        if Get(p) {
          Put(p, slots[p].(state := U.Closed, peer := -1));
          WakeReader(p);
        }
        Put(id, slots[id].(peer := -1));
      }
    }

    /** Every client in the backlog is woken, in order. */
    method Drain(id: int)
      requires Valid() && Get(id)
      modifies this`procs, this`slots
      ensures Valid() && Get(id)
      ensures slots == old(slots)[id := slots[id]]
      ensures procs == U.UnblockedAll(old(procs), Content(old(slots[id]).backlog))
      ensures State() == U.SetSock(old(State()), id, old(State()).socks[id].(backlog := [])).(procs := procs)
    {
      while slots[id].backlog.count > 0
        invariant Valid() && Get(id)
        invariant U.UnblockedAll(procs, Content(slots[id].backlog)) ==
          U.UnblockedAll(old(procs), Content(old(slots[id]).backlog))
        invariant slots == old(slots)[id := slots[id]] && slots[id] == old(slots[id]).(backlog := slots[id].backlog)
        decreases slots[id].backlog.count
      {
        var e := Dequeue(id);
        if e.pid >= 0 {
          Unblock(e.pid);
        }
      }
      assert SlotOk(slots[id]);
      assert Content(slots[id].backlog) == [];
    }

    method Bind(id: int, path: string) returns (r: int)
      requires Valid()
      modifies this`slots
      ensures Valid() && State() == U.Bind(old(State()), id, path)
      ensures if MayBind(old(State()), id, path) then r == 0 && State().socks[id].state == U.Bound
        else r == -1 && State() == old(State())
    {
      if !Get(id) || slots[id].state != U.Created || path == "" {
        return -1;
      }
      var f := FindBound(path);
      if f >= 0 {
        return -1;
      }
      Put(id, slots[id].(path := U.Truncate(path), state := U.Bound));
      return 0;
    }

    method Listen(id: int) returns (r: int)
      requires Valid()
      modifies this`slots
      ensures Valid() && State() == U.Listen(old(State()), id)
      ensures if MayListen(old(State()), id) then r == 0 && State().socks[id].state == U.Listening
        else r == -1 && State() == old(State())
    {
      if !Get(id) || slots[id].kind != U.SOCK_STREAM || slots[id].state != U.Bound {
        return -1;
      }
      Put(id, slots[id].(state := U.Listening));
      return 0;
    }

    /** `accept` from its start, or from where it waited. */
    method Accept(pid: int, id: int) returns (o: Outcome)
      requires Valid()
      modifies this
      ensures Valid() && State() == U.Accept(old(State()), pid, id)
      ensures o.Waits? <==> procs[pid].blocked
      ensures o == if !Listens(old(State()), id) then Done(-1) else if old(State()).socks[id].backlog == [] then Waits
        else Done(U.FirstFree(old(State()).socks, 64))
      ensures o.Done? && o.value >= 0 ==>
        !U.Get(old(State()), o.value) && Get(o.value) && slots[o.value].state == U.Connected
          && slots[o.value].owner == pid
    {
      if !Get(id) || slots[id].state != U.Listening {
        procs := procs[pid := U.Proc(U.Running, false)];
        return Done(-1);
      }
      assert SlotOk(slots[id]);
      ContentSize(slots[id].backlog, 8);
      if slots[id].backlog.count == 0 {
        Put(id, slots[id].(reader := pid));
        procs := procs[pid := U.Proc(U.InAccept(id), true)];
        return Waits;
      }
      ghost var s := State();
      SameFree(s.socks, WithoutHead(s, id).socks, 64);
      assert !U.Get(s, U.FirstFree(WithoutHead(s, id).socks, 64));
      var e := Dequeue(id);
      ghost var t := State();
      hide RingOk, Content, SlotOk, U.Accept, WithoutHead, Admitted;
      var r := Admit(pid, id, e);
      AcceptIs(s, pid, id, e, t, r);
      o := Done(r);
    }

    /** The client gets a connection, if a slot is free, and is woken either way. */
    method Admit(pid: int, id: int, e: U.Pending) returns (r: int)
      requires Valid() && 0 <= id < 64 && PendingOk(e)
      modifies this
      ensures Valid() && r == U.FirstFree(old(State()).socks, 64) && State() == Admitted(old(State()), pid, id, e, r)
      ensures r >= 0 ==> Get(r) && slots[r].state == U.Connected && slots[r].owner == pid
    {
      ghost var t := State();
      hide RingOk, Content, SlotOk, U.Pair;
      r := FindFree();
      if r >= 0 {
        assert !t.socks[r].inUse;
        Pair(id, e.sock, r, pid);
      }
      Unblock(e.pid);
      procs := procs[pid := U.Proc(U.Running, false)];
    }

    method Pair(id: int, client: int, i: int, pid: int)
      requires Valid() && 0 <= id < 64 && 0 <= client < 64 && 0 <= i < 64 && !slots[i].inUse
      modifies this`hist, this`slots
      ensures Valid() && State() == U.Pair(old(State()), id, client, i, pid)
      ensures Get(i) && slots[i].state == U.Connected && slots[i].owner == pid
    {
      assert SlotOk(slots[id]);
      BlankIs(U.Connected, slots[id].kind, slots[id].path, client, pid);
      hide SlotOk, Abs, Blank;
      Put(i, Blank(U.Connected, slots[id].kind, U.Truncate(slots[id].path), client, pid));
      hist := hist[i := U.NewHist];
      if Get(client) {
        Put(client, slots[client].(state := U.Connected, peer := i));
        hist := hist[client := hist[client].(early := hist[client].put)];
      }
    }

    /** `connect` up to its yield. */
    method Connect(pid: int, id: int, path: string) returns (o: Outcome)
      requires Valid() && pid >= 0
      modifies this
      ensures Valid() && State() == U.Connect(old(State()), pid, id, path)
      ensures if MayConnect(old(State()), id, path) then o == Waits && procs[pid] == U.Proc(U.InConnect(id), true)
        else o == Done(-1) && State() == old(State())
    {
      if !Get(id) || (slots[id].state != U.Created && slots[id].state != U.Bound) || slots[id].kind != U.SOCK_STREAM {
        return Done(-1);
      }
      var l := FindListener(path);
      if l < 0 {
        return Done(-1);
      }
      assert SlotOk(slots[l]);
      ContentSize(slots[l].backlog, 8);
      if slots[l].backlog.count >= 8 {
        return Done(-1);
      }
      Enqueue(l, U.Pending(id, pid));
      WakeReader(l);
      procs := procs[pid := U.Proc(U.InConnect(id), true)];
      return Waits;
    }

    /** `connect` once it is woken: the socket has become connected, or not. */
    method ConnectEnd(pid: int, id: int) returns (r: int)
      requires Valid()
      modifies this`procs
      ensures Valid() && State() == U.Return(old(State()), pid)
      ensures r == if U.Get(old(State()), id) && old(State()).socks[id].state == U.Connected then 0 else -1
    {
      procs := procs[pid := U.Proc(U.Running, false)];
      if !Get(id) || slots[id].state != U.Connected {
        return -1;
      }
      return 0;
    }

    method Enqueue(l: int, e: U.Pending)
      requires Valid() && 0 <= l < 64 && slots[l].backlog.count < 8 && PendingOk(e)
      modifies this`slots
      ensures Valid()
      ensures State() == U.SetSock(old(State()), l,
        old(State()).socks[l].(backlog := old(State()).socks[l].backlog + [e]))
    {
      var q := slots[l].backlog;
      assert SlotOk(slots[l]);
      StoreAppends(q.data, q.head, q.count, e);
      q := q.(data := q.data[q.tail := e], tail := (q.tail + 1) % 8, count := q.count + 1);
      assert RingOk(q, 8);
      Put(l, slots[l].(backlog := q));
    }

    method Deposit(id: int, peer: int, data: seq<byte>)
      requires Valid() && 0 <= id < 64 && Get(peer) && slots[peer].rx.count + |data| <= 8192
      modifies this
      ensures Valid() && State() == Deposited(old(State()), id, peer, data)
      ensures slots[id].peer == old(slots[id]).peer && Get(peer) && slots[peer].state == old(slots[peer]).state
      ensures slots[peer].rx.count == old(slots[peer]).rx.count + |data|
    {
      var _ := RbWrite(peer, data);
      hist := hist[id := hist[id].(sent := hist[id].sent + data)];
      WakeReader(peer);
    }

    /** `write`, once found connected or from its yield: as much as the peer's ring takes, then it returns or yields. */
    method Write(pid: int, id: int, rest: seq<byte>) returns (o: Outcome)
      requires Valid() && 0 <= id < 64
      modifies this
      ensures Valid() && State() == U.Write(old(State()), pid, id, rest)
      ensures o.Done? <==> procs[pid].at == U.Running
      ensures o.Done? ==> o.value == if rest == [] || U.PeerLive(old(State()), id) then |rest| else 0
    {
      hide Deposited, U.Write, RingOk, Content, SlotOk, U.PeerLive, Abs, View, U.SetProc;
      Prepare(pid, id, rest);
      var written := 0;
      ghost var s := State();
      ghost var p := slots[id].peer;
      ghost var live := Get(p) && slots[p].state != U.Closed;
      ghost var used := if live then slots[p].rx.count else 0;
      ghost var n := Fit(|rest|, 8192 - used);
      while written < |rest|
        invariant Valid() && 0 <= written <= |rest| && slots[id].peer == p
          && live == (Get(p) && slots[p].state != U.Closed)
        invariant written == 0 ==> State() == s && (live ==> slots[p].rx.count == used)
        invariant written > 0 ==>
          live && written == n && slots[p].rx.count == used + n && State() == Deposited(s, id, p, rest[..n])
      {
        var peer := slots[id].peer;
        if !Get(peer) || slots[peer].state == U.Closed {
          break;
        }
        var room := 8192 - slots[peer].rx.count;
        if room == 0 {
          Stopped(State(), pid, id, rest, written);
          procs := procs[pid := U.Proc(U.InWrite(id, rest[written..]), false)];
          return Waits;
        }
        var chunk := |rest| - written;
        if chunk > room {
          chunk := room;
        }
        Deposit(id, peer, rest[written..written + chunk]);
        written := written + chunk;
      }
      Stopped(State(), pid, id, rest, written);
      procs := procs[pid := U.Proc(U.Running, false)];
      return Done(written);
    }

    /** `write` from its start. */
    method WriteCall(pid: int, id: int, data: seq<byte>) returns (o: Outcome)
      requires Valid()
      modifies this
      ensures Valid() && State() == U.WriteCall(old(State()), pid, id, data)
      ensures var connected := U.Get(old(State()), id) && old(State()).socks[id].state == U.Connected;
        && (!connected ==> o == Done(-1))
        && (connected ==> (o.Done? <==> procs[pid].at == U.Running))
        && (connected && o.Done? ==> o.value == if data == [] || U.PeerLive(old(State()), id) then |data| else 0)
    {
      if !Get(id) || slots[id].state != U.Connected {
        return Done(-1);
      }
      o := Write(pid, id, data);
    }

    /** What the abstract write will do, in terms of the peer's ring. */
    lemma Prepare(pid: int, id: int, rest: seq<byte>)
      requires Valid() && 0 <= id < 64
      ensures var p := slots[id].peer; U.PeerLive(State(), id) == (Get(p) && slots[p].state != U.Closed)
      ensures U.PeerLive(State(), id) ==> 0 <= slots[id].peer < 64 && slots[slots[id].peer].rx.count <= 8192
      ensures U.PeerLive(State(), id) && rest != [] ==>
        U.Write(State(), pid, id, rest) == Stop(State(), pid, id, slots[id].peer, rest,
          Fit(|rest|, 8192 - slots[slots[id].peer].rx.count))
      ensures !U.PeerLive(State(), id) || rest == [] ==> U.Write(State(), pid, id, rest) == U.Return(State(), pid)
    {
      var s, p := State(), slots[id].peer;
      WriteGone(s, pid, id, rest);
      if U.PeerLive(s, id) {
        assert SlotOk(slots[p]);
        ContentSize(slots[p].rx, 8192);
        if rest != [] { WriteIs(s, pid, id, rest, Fit(|rest|, 8192 - slots[p].rx.count)); }
      }
    }

    /** `read`, once found connected or closed, or from where it waited. */
    method Read(pid: int, id: int, want: nat) returns (o: Outcome, dst: seq<byte>)
      requires Valid()
      modifies this
      ensures Valid() && State() == U.Read(old(State()), pid, id, want)
      ensures o.Done? <==> procs[pid].at == U.Running
      ensures o.Done? ==>
        if U.Get(old(State()), id) then o.value == |dst|
          && Delivered(old(State()), State(), id, want, dst) else o.value == -1
    {
      dst := [];
      if !Get(id) {
        procs := procs[pid := U.Proc(U.Running, false)];
        return Done(-1), [];
      }
      assert SlotOk(slots[id]);
      ContentSize(slots[id].rx, 8192);
      if slots[id].rx.count == 0 {
        if slots[id].peer < 0 || !slots[slots[id].peer].inUse || slots[slots[id].peer].state == U.Closed {
          procs := procs[pid := U.Proc(U.Running, false)];
          return Done(0), [];
        }
        Put(id, slots[id].(reader := pid));
        procs := procs[pid := U.Proc(U.InRead(id, want), true)];
        return Waits, [];
      }
      dst := RbRead(id, want);
      TakeDelivers(old(State()), pid, id, want, dst);
      procs := procs[pid := U.Proc(U.Running, false)];
      return Done(|dst|), dst;
    }

    /** `read` from its start. */
    method ReadCall(pid: int, id: int, want: nat) returns (o: Outcome, dst: seq<byte>)
      requires Valid()
      modifies this
      ensures Valid() && State() == U.ReadCall(old(State()), pid, id, want)
      ensures o.Done? ==>
        if MayRead(old(State()), id) then o.value == |dst|
        && Delivered(old(State()), State(), id, want, dst) else o.value == -1
      ensures !MayRead(old(State()), id) ==> o.Done?
      ensures MayRead(old(State()), id) ==> (o.Done? <==> procs[pid].at == U.Running)
    {
      if !Get(id) || (slots[id].state != U.Connected && slots[id].state != U.Closed) {
        return Done(-1), [];
      }
      o, dst := Read(pid, id, want);
    }

    method SendTo(id: int, data: seq<byte>, path: string) returns (r: int)
      requires Valid()
      modifies this
      ensures Valid() && State() == U.SendTo(old(State()), id, data, path)
      ensures if MaySend(old(State()), id, data, path) then r == |data| else r == -1 && State() == old(State())
      ensures MaySend(old(State()), id, data, path) ==>
        var d := U.FindBound(old(State()).socks, path, 64);
        State().socks[d].rx == old(State()).socks[d].rx + data
    {
      if !Get(id) || slots[id].kind != U.SOCK_DGRAM {
        return -1;
      }
      var d := FindBound(path);
      if d < 0 {
        return -1;
      }
      assert SlotOk(slots[d]);
      ContentSize(slots[d].rx, 8192);
      if |data| > 8192 - slots[d].rx.count {
        return -1;
      }
      var _ := RbWrite(d, data);
      WakeReader(d);
      return |data|;
    }

    /** `recvfrom`, once found a datagram socket, or from where it waited. */
    method Recv(pid: int, id: int, want: nat) returns (o: Outcome, dst: seq<byte>)
      requires Valid()
      modifies this
      ensures Valid() && State() == U.Recv(old(State()), pid, id, want)
      ensures o.Done? <==> procs[pid].at == U.Running
      ensures o.Done? ==>
        if U.Get(old(State()), id) then o.value == |dst|
          && Delivered(old(State()), State(), id, want, dst) else o.value == -1
    {
      dst := [];
      if !Get(id) {
        procs := procs[pid := U.Proc(U.Running, false)];
        return Done(-1), [];
      }
      assert SlotOk(slots[id]);
      ContentSize(slots[id].rx, 8192);
      if slots[id].rx.count == 0 {
        Put(id, slots[id].(reader := pid));
        procs := procs[pid := U.Proc(U.InRecv(id, want), true)];
        return Waits, [];
      }
      dst := RbRead(id, want);
      TakeDelivers(old(State()), pid, id, want, dst);
      procs := procs[pid := U.Proc(U.Running, false)];
      return Done(|dst|), dst;
    }

    /** `recvfrom` from its start. */
    method RecvCall(pid: int, id: int, want: nat) returns (o: Outcome, dst: seq<byte>)
      requires Valid()
      modifies this
      ensures Valid() && State() == U.RecvCall(old(State()), pid, id, want)
      ensures var dgram := U.Get(old(State()), id) && old(State()).socks[id].kind == U.SOCK_DGRAM;
        && (!dgram ==> o == Done(-1))
        && (dgram ==> (o.Done? <==> procs[pid].at == U.Running))
        && (dgram && o.Done? ==> o.value == |dst| && Delivered(old(State()), State(), id, want, dst))
    {
      if !Get(id) || slots[id].kind != U.SOCK_DGRAM {
        return Done(-1), [];
      }
      o, dst := Recv(pid, id, want);
    }
  }

  /**
   The bytes handed out are those that left the ring, from its front, as many as asked for or as there are, and they
   are on record as received.
   */
  ghost predicate Delivered(s: U.Sys, t: U.Sys, id: int, want: nat, dst: seq<byte>) {
    && 0 <= id < |s.socks| == |t.socks| && id < |s.hist| == |t.hist|
    && dst + t.socks[id].rx == s.socks[id].rx && t.hist[id].got == s.hist[id].got + dst
    && |dst| == if want < |s.socks[id].rx| then want else |s.socks[id].rx|
  }

  /** What each call asks of the table; the path of a socket is compared as it is stored. */
  ghost predicate MayBind(s: U.Sys, id: int, path: string) {
    && U.Get(s, id) && s.socks[id].state == U.Created && path != ""
    && forall i :: 0 <= i < |s.socks| ==> !U.HoldsBound(s.socks[i], path)
  }

  predicate MayListen(s: U.Sys, id: int) {
    U.Get(s, id) && s.socks[id].kind == U.SOCK_STREAM && s.socks[id].state == U.Bound
  }

  predicate Listens(s: U.Sys, id: int) { U.Get(s, id) && s.socks[id].state == U.Listening }

  /** A fresh stream socket, a listener at the path, and room in its backlog. */
  predicate MayConnect(s: U.Sys, id: int, path: string) {
    && U.Get(s, id) && (s.socks[id].state == U.Created || s.socks[id].state == U.Bound)
    && s.socks[id].kind == U.SOCK_STREAM
    && var l := U.FindListener(s.socks, path, |s.socks|); l >= 0 && |s.socks[l].backlog| < 8
  }

  /** A datagram socket, a socket bound to the path, and room for all bytes in its ring. */
  predicate MaySend(s: U.Sys, id: int, data: seq<byte>, path: string) {
    && U.Get(s, id) && s.socks[id].kind == U.SOCK_DGRAM
    && var d := U.FindBound(s.socks, path, |s.socks|); d >= 0 && |s.socks[d].rx| + |data| <= 8192
  }

  /** Which slot is the first free one depends on the flags only. */
  lemma {:induction false} SameFree(a: seq<U.Sock>, b: seq<U.Sock>, n: nat)
    requires n <= |a| == |b| && forall i :: 0 <= i < |a| ==> a[i].inUse == b[i].inUse
    ensures U.FirstFree(a, n) == U.FirstFree(b, n)
  {
    if n > 0 { SameFree(a, b, n - 1); }
  }

  predicate MayRead(s: U.Sys, id: int) {
    U.Get(s, id) && (s.socks[id].state == U.Connected || s.socks[id].state == U.Closed)
  }

  lemma TakeDelivers(s: U.Sys, pid: int, id: int, want: nat, dst: seq<byte>)
    requires 0 <= id < |s.socks| && id < |s.hist| && dst == s.socks[id].rx[..Fit(want, |s.socks[id].rx|)]
    ensures Delivered(s, U.Return(U.Take(s, id, want), pid), id, want, dst)
  {
  }

  function Admitted(t: U.Sys, pid: int, id: int, e: U.Pending, i: int): U.Sys {
    U.Return(U.Unblock(if i < 0 then t else U.Pair(t, id, e.sock, i, pid), e.pid), pid)
  }

  lemma AcceptIs(s: U.Sys, pid: int, id: int, e: U.Pending, t: U.Sys, i: int)
    requires U.Get(s, id) && s.socks[id].state == U.Listening && s.socks[id].backlog != []
      && e == s.socks[id].backlog[0]
    requires t == WithoutHead(s, id) && i == U.FirstFree(t.socks, |t.socks|)
    ensures U.Accept(s, pid, id) == Admitted(t, pid, id, e, i) && !Admitted(t, pid, id, e, i).procs[pid].blocked
  {
    hide U.Pair, U.FirstFree;
  }

  function Deposited(s: U.Sys, id: int, p: int, data: seq<byte>): U.Sys { U.WakeReader(U.Send(s, id, p, data), p) }

  /** The state when `n` bytes have gone into the ring of `p` and the write returns or yields. */
  function Stop(s: U.Sys, pid: int, id: int, p: int, rest: seq<byte>, n: nat): U.Sys
    requires n <= |rest|
  {
    U.SetProc(if n == 0 then s else Deposited(s, id, p, rest[..n]), pid,
              if n == |rest| then U.Proc(U.Running, false) else U.Proc(U.InWrite(id, rest[n..]), false))
  }

  /** Leaving the write at a point is a change of the process table only. */
  lemma Stopped(t: U.Sys, pid: int, id: int, rest: seq<byte>, n: nat)
    requires n <= |rest|
    ensures forall p :: U.SetProc(t, pid, p) == t.(procs := t.procs[pid := p])
    ensures U.Return(t, pid) == t.(procs := t.procs[pid := U.Proc(U.Running, false)])
  {
  }

  lemma WriteIs(s: U.Sys, pid: int, id: int, rest: seq<byte>, n: nat)
    requires rest != [] && 0 <= id < |s.socks| && id < |s.hist| && U.PeerLive(s, id)
      && |s.socks[s.socks[id].peer].rx| <= 8192
    requires n == Fit(|rest|, 8192 - |s.socks[s.socks[id].peer].rx|)
    ensures U.Write(s, pid, id, rest) == Stop(s, pid, id, s.socks[id].peer, rest, n)
  {
    hide U.Send, U.WakeReader;
  }

  lemma WriteGone(s: U.Sys, pid: int, id: int, rest: seq<byte>)
    requires 0 <= id < |s.socks|
    ensures rest == [] || !U.PeerLive(s, id) ==> U.Write(s, pid, id, rest) == U.Return(s, pid)
  {
  }

  lemma FirstIs(socks: seq<U.Sock>, i: nat)
    requires i < 64 <= |socks| && U.FirstFree(socks, i) == -1 && !socks[i].inUse
    ensures U.FirstFree(socks, 64) == i
  {
  }

  lemma ListenerIs(socks: seq<U.Sock>, path: string, i: nat)
    requires i < 64 <= |socks| && U.FindListener(socks, path, i) == -1 && U.HoldsListening(socks[i], path)
    ensures U.FindListener(socks, path, 64) == i
  {
  }

  lemma BoundIs(socks: seq<U.Sock>, path: string, i: nat)
    requires i < 64 <= |socks| && U.FindBound(socks, path, i) == -1 && U.HoldsBound(socks[i], path)
    ensures U.FindBound(socks, path, 64) == i
  {
  }
}
