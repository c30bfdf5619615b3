/** What each socket call makes of every socket and every process, and the order in which clients are accepted. */
module SocketSteps {
  import opened Bytes
  import opened UnixSockets
  import opened SocketInvariants

  /** Exactly these processes have been woken; where each one is has not changed. */
  ghost predicate Woke(a: map<int, Proc>, b: map<int, Proc>, who: set<int>) {
    && (forall q :: q in b <==> q in a)
    && forall q :: q in a ==> b[q] == Proc(a[q].at, a[q].blocked && q !in who)
  }

  /** All sockets but these are as they were. */
  ghost predicate Others(s: Sys, t: Sys, touched: set<int>) {
    |t.socks| == |s.socks| && forall i :: 0 <= i < |s.socks| && i !in touched ==> t.socks[i] == s.socks[i]
  }

  function ReaderOf(s: Sys, id: int): set<int> {
    if Get(s, id) && s.socks[id].reader >= 0 then {s.socks[id].reader} else {}
  }

  function NoReader(k: Sock): Sock { if k.reader >= 0 then k.(reader := -1) else k }

  function Clients(b: seq<Pending>): set<int> { set e | e in b && e.pid >= 0 :: e.pid }

  function Least(a: nat, b: nat): nat { if a < b then a else b }

  // ---------------------------------------------------------------- each call

  /** A new socket lies in the lowest free slot, empty, and belongs to its creator. */
  lemma CreateSteps(s: Sys, pid: int, kind: int, i: nat)
    requires Sizes(s) && i < |s.socks| && !s.socks[i].inUse && forall j :: 0 <= j < i ==> s.socks[j].inUse
    requires kind == SOCK_STREAM || kind == SOCK_DGRAM
    ensures var t := Create(s, pid, kind);
      && Others(s, t, {i}) && t.procs == s.procs && t.hist == s.hist[i := Hist([], [], [], [])]
      && t.socks[i] == Sock(true, Created, kind, "", -1, [], [], -1, pid)
  {
    assert FirstFree(s.socks, |s.socks|) == i;
  }

  /**
   Destroying a socket frees its slot; its peer is closed but keeps what is queued for it; the readers of both and
   all clients in the backlog are woken.
   */
  lemma DestroySteps(s: Sys, id: int)
    requires Get(s, id) && s.socks[id].peer != id
    ensures var t, p := Destroy(s, id), s.socks[id].peer;
      && Others(s, t, {id, p}) && !Get(t, id) && t.hist == s.hist
      && (Get(s, p) ==> t.socks[p] == NoReader(s.socks[p]).(state := Closed, peer := -1))
      && (!Get(s, p) && 0 <= p < |s.socks| ==> t.socks[p] == s.socks[p])
      && Woke(s.procs, t.procs, ReaderOf(s, id) + ReaderOf(s, p) + Clients(s.socks[id].backlog))
  {
    hide Woke, Clients, UnblockedAll, WakeReader, Hangup, ReaderOf, NoReader;
    var p := s.socks[id].peer;
    var w := WakeReader(s, id);
    WakeSteps(s, id);
    HangupSteps(w, id);
    var h := Hangup(w, id);
    AllWoken(h.procs, s.socks[id].backlog);
    SameReader(s, w, p);
    WokeBoth(s.procs, w.procs, h.procs, ReaderOf(s, id), ReaderOf(s, p));
    WokeBoth(s.procs, h.procs, Destroy(s, id).procs, ReaderOf(s, id) + ReaderOf(s, p), Clients(s.socks[id].backlog));
  }

  lemma WokeBoth(a: map<int, Proc>, b: map<int, Proc>, c: map<int, Proc>, x: set<int>, y: set<int>)
    requires Woke(a, b, x) && Woke(b, c, y)
    ensures Woke(a, c, x + y)
  {
  }

  lemma WakeSteps(s: Sys, id: int)
    requires Get(s, id)
    ensures var t := WakeReader(s, id);
      Others(s, t, {id}) && t.socks[id] == NoReader(s.socks[id]) && t.hist == s.hist
        && Woke(s.procs, t.procs, ReaderOf(s, id))
    ensures NoReader(s.socks[id]) == s.socks[id].(reader := NoReader(s.socks[id]).reader)
  {
  }

  lemma SameReader(s: Sys, t: Sys, p: int)
    requires |t.socks| == |s.socks| && (0 <= p < |s.socks| ==> t.socks[p] == s.socks[p])
    ensures ReaderOf(t, p) == ReaderOf(s, p)
  {
  }

  lemma HangupSteps(s: Sys, id: int)
    requires Get(s, id) && s.socks[id].peer != id
    ensures var t, p := Hangup(s, id), s.socks[id].peer;
      && Others(s, t, {id, p}) && t.socks[id].backlog == s.socks[id].backlog && t.hist == s.hist
      && (Get(s, p) ==> t.socks[p] == NoReader(s.socks[p]).(state := Closed, peer := -1))
      && (!Get(s, p) && 0 <= p < |s.socks| ==> t.socks[p] == s.socks[p])
      && Woke(s.procs, t.procs, ReaderOf(s, p))
  {
    var p := s.socks[id].peer;
    if Get(s, p) {
      WakeSteps(SetSock(s, p, s.socks[p].(state := Closed, peer := -1)), p);
      hide WakeReader, Woke;
    }
  }

  lemma {:induction false} AllWoken(procs: map<int, Proc>, b: seq<Pending>)
    ensures Woke(procs, UnblockedAll(procs, b), Clients(b))
    decreases |b|
  {
    if b != [] {
      var next := if b[0].pid >= 0 then Unblocked(procs, b[0].pid) else procs;
      AllWoken(next, b[1..]);
      assert b == [b[0]] + b[1..];
      assert forall q :: q in Clients(b) <==> q in Clients(b[1..]) || (q == b[0].pid && q >= 0);
    }
  }

  /**
   Accepting serves the client that has waited longest: it leaves the backlog and is woken, and if a slot is free, the
   lowest one becomes a connection whose peer it is.
   */
  lemma AcceptSteps(s: Sys, pid: int, id: int)
    requires Sizes(s) && Get(s, id) && s.socks[id].state == Listening && s.socks[id].backlog != []
      && s.socks[id].backlog[0].sock != id
    ensures var t, e, i := Accept(s, pid, id), s.socks[id].backlog[0], FirstFree(s.socks, |s.socks|);
      && Others(s, t, {id, e.sock, i}) && t.socks[id] == s.socks[id].(backlog := s.socks[id].backlog[1..])
      && (i >= 0 ==> t.socks[i] == Sock(true, Connected, s.socks[id].kind, s.socks[id].path, e.sock, [], [], -1, pid))
      && (i >= 0 && Get(s, e.sock) ==> t.socks[e.sock] == s.socks[e.sock].(state := Connected, peer := i))
      && (0 <= e.sock < |s.socks| && e.sock != i && (i < 0 || !Get(s, e.sock)) ==> t.socks[e.sock] == s.socks[e.sock])
      && pid in t.procs && t.procs[pid] == Proc(Running, false)
      && Woke(s.procs[pid := Proc(Running, false)], t.procs, {e.pid})
  {
    hide FirstFree, Pair, Woke;
    var e, t := s.socks[id].backlog[0], SetSock(s, id, s.socks[id].(backlog := s.socks[id].backlog[1..]));
    var i := FirstFree(s.socks, |s.socks|);
    SameFree(s.socks, t.socks, |s.socks|);
    FreeSlot(s.socks);
    if i >= 0 { PairSteps(t, id, e.sock, i, pid); }
    WokeOne(s.procs, e.pid, pid);
  }

  lemma FreeSlot(socks: seq<Sock>)
    ensures var i := FirstFree(socks, |socks|); -1 <= i < |socks| && (i >= 0 ==> !socks[i].inUse)
  {
  }

  lemma WokeOne(a: map<int, Proc>, q: int, pid: int)
    ensures Woke(a[pid := Proc(Running, false)], Unblocked(a, q)[pid := Proc(Running, false)], {q})
  {
  }

  lemma PairSteps(t: Sys, id: int, client: int, i: int, pid: int)
    requires Sizes(t) && Get(t, id) && 0 <= i < |t.socks| && !t.socks[i].inUse && client != id
    ensures var u := Pair(t, id, client, i, pid);
      && Others(t, u, {client, i}) && u.procs == t.procs
      && u.socks[i] == Sock(true, Connected, t.socks[id].kind, t.socks[id].path, client, [], [], -1, pid)
      && (Get(t, client) ==> u.socks[client] == t.socks[client].(state := Connected, peer := i))
      && (0 <= client < |t.socks| && client != i && !Get(t, client) ==> u.socks[client] == t.socks[client])
  {
  }

  /** With no client waiting, a call on a listener waits as its reader; on another socket it returns. */
  lemma AcceptWaits(s: Sys, pid: int, id: int)
    requires !Get(s, id) || s.socks[id].state != Listening || s.socks[id].backlog == []
    ensures var t := Accept(s, pid, id);
      if !Get(s, id) || s.socks[id].state != Listening then t == s.(procs := s.procs[pid := Proc(Running, false)])
      else
        && Others(s, t, {id}) && t.socks[id] == s.socks[id].(reader := pid) && t.hist == s.hist
        && t.procs == s.procs[pid := Proc(InAccept(id), true)]
  {
  }

  /** Binding and listening touch that socket's path and state alone, and only when they may. */
  lemma BindSteps(s: Sys, id: int, path: string)
    ensures var t := Bind(s, id, path);
      if Get(s, id) && s.socks[id].state == Created && path != "" && (forall d: nat :: !BoundAt(s, d, path)) then
        t == s.(socks := s.socks[id := s.socks[id].(path := Truncate(path), state := Bound)])
      else t == s
    ensures var t := Listen(s, id);
      if Get(s, id) && s.socks[id].state == Bound && s.socks[id].kind == SOCK_STREAM then
        t == s.(socks := s.socks[id := s.socks[id].(state := Listening)])
      else t == s
  {
    var f := FindBound(s.socks, path, |s.socks|);
    if f >= 0 { assert BoundAt(s, f, path); }
  }

  lemma {:induction false} SameFree(a: seq<Sock>, b: seq<Sock>, n: nat)
    requires n <= |a| == |b| && forall i :: 0 <= i < |a| ==> a[i].inUse == b[i].inUse
    ensures FirstFree(a, n) == FirstFree(b, n)
  {
    if n > 0 { SameFree(a, b, n - 1); }
  }

  /** Slot `l` holds the first listener at a path. */
  ghost predicate ListensAt(s: Sys, l: nat, path: string) {
    l < |s.socks| && HoldsListening(s.socks[l], path) && forall i :: 0 <= i < l ==> !HoldsListening(s.socks[i], path)
  }

  ghost predicate MayJoin(s: Sys, id: int) {
    Get(s, id) && s.socks[id].kind == SOCK_STREAM && s.socks[id].state in {Created, Bound}
  }

  /** A client queues up at the end of the backlog, wakes the listener's reader and waits. */
  lemma ConnectSteps(s: Sys, pid: int, id: int, path: string, l: nat)
    requires MayJoin(s, id) && ListensAt(s, l, path) && |s.socks[l].backlog| < BACKLOG_MAX
    ensures var t := Connect(s, pid, id, path);
      && Others(s, t, {l}) && t.hist == s.hist
      && t.socks[l] == NoReader(s.socks[l]).(backlog := s.socks[l].backlog + [Pending(id, pid)])
      && pid in t.procs && t.procs[pid] == Proc(InConnect(id), true)
      && Woke(s.procs[pid := Proc(InConnect(id), true)], t.procs[pid := Proc(InConnect(id), true)],
        ReaderOf(s, l) - {pid})
  {
    assert FindListener(s.socks, path, |s.socks|) == l;
  }

  /** Without a listener at the path, or with a full backlog, nothing happens. */
  lemma ConnectRefused(s: Sys, pid: int, id: int, path: string)
    requires !MayJoin(s, id) || forall l: nat :: ListensAt(s, l, path) ==> |s.socks[l].backlog| >= BACKLOG_MAX
    ensures Connect(s, pid, id, path) == s
  {
    var l := FindListener(s.socks, path, |s.socks|);
    if l >= 0 { assert ListensAt(s, l, path); }
  }

  /**
   A write moves as many bytes as the peer's ring has room for, in order, and wakes the peer's reader if there were
   any; what it has sent and what it still has to send are what it was given.
   */
  lemma WriteSteps(s: Sys, pid: int, id: int, rest: seq<byte>)
    requires Sizes(s) && Get(s, id) && rest != [] && s.socks[id].peer != id && Get(s, s.socks[id].peer)
    requires s.socks[s.socks[id].peer].state != Closed && |s.socks[s.socks[id].peer].rx| <= BUF_SIZE
    ensures var t, p := Write(s, pid, id, rest), s.socks[id].peer;
      var n := Least(|rest|, BUF_SIZE - |s.socks[p].rx|);
      var point := if n == |rest| then Running else InWrite(id, rest[n..]);
      && Others(s, t, {p}) && |t.hist| == |s.hist|
      && t.socks[p] == (if n > 0 then NoReader(s.socks[p]) else s.socks[p]).(rx := s.socks[p].rx + rest[..n])
      && t.hist[p].put == s.hist[p].put + rest[..n] && t.hist[id].sent == s.hist[id].sent + rest[..n]
      && pid in t.procs && t.procs[pid] == Proc(point, false)
      && Woke(s.procs[pid := Proc(point, false)], t.procs, if n > 0 then ReaderOf(s, p) else {})
  {
    var p := s.socks[id].peer;
    var n := Least(|rest|, BUF_SIZE - |s.socks[p].rx|);
    hide WakeReader, Send, Woke, ReaderOf, NoReader;
    if n > 0 {
      SendSteps(s, id, p, rest[..n]);
      WakeSteps(Send(s, id, p, rest[..n]), p);
      WokePut(s.procs, WakeReader(Send(s, id, p, rest[..n]), p).procs, ReaderOf(s, p), pid,
        if n == |rest| then Running else InWrite(id, rest[n..]));
    } else {
      assert s.socks[p].rx + rest[..n] == s.socks[p].rx && s.hist[p].put + rest[..n] == s.hist[p].put
        && s.hist[id].sent + rest[..n] == s.hist[id].sent;
      WokeNone(s.procs[pid := Proc(InWrite(id, rest[n..]), false)]);
    }
  }

  lemma SendSteps(s: Sys, id: int, p: int, data: seq<byte>)
    requires Sizes(s) && Get(s, id) && Get(s, p) && p != id
    ensures var t := Send(s, id, p, data);
      && Get(t, p) && Others(s, t, {p}) && t.procs == s.procs && |t.hist| == |s.hist|
      && t.socks[p] == s.socks[p].(rx := s.socks[p].rx + data)
      && NoReader(t.socks[p]) == NoReader(s.socks[p]).(rx := s.socks[p].rx + data) && ReaderOf(t, p) == ReaderOf(s, p)
      && t.hist[p].put == s.hist[p].put + data && t.hist[id].sent == s.hist[id].sent + data
  {
  }

  lemma WokePut(a: map<int, Proc>, b: map<int, Proc>, who: set<int>, pid: int, point: Point)
    requires Woke(a, b, who)
    ensures Woke(a[pid := Proc(point, false)], b[pid := Proc(point, false)], who)
  {
  }

  lemma WokeNone(a: map<int, Proc>)
    ensures Woke(a, a, {})
  {
  }

  /** Without a live peer, or with nothing to write, the call returns and nothing moves. */
  lemma WriteEnds(s: Sys, pid: int, id: int, rest: seq<byte>)
    requires Sizes(s) && Get(s, id)
    requires rest == [] || !Get(s, s.socks[id].peer) || s.socks[s.socks[id].peer].state == Closed
    ensures Write(s, pid, id, rest) == s.(procs := s.procs[pid := Proc(Running, false)])
  {
  }

  /** A read or a receive takes bytes from the front of the ring, as many as asked for or as there are. */
  lemma TakeSteps(s: Sys, id: int, want: nat)
    requires Sizes(s) && Get(s, id)
    ensures var t, n := Take(s, id, want), Least(want, |s.socks[id].rx|);
      && Others(s, t, {id}) && t.procs == s.procs && |t.hist| == |s.hist|
      && t.socks[id] == s.socks[id].(rx := s.socks[id].rx[n..])
      && t.hist[id].got == s.hist[id].got + s.socks[id].rx[..n]
      && forall i :: 0 <= i < |s.hist| && i != id ==> t.hist[i] == s.hist[i]
  {
  }

  /** With bytes queued, read takes them whoever the peer is; with none it waits exactly for a live peer. */
  lemma ReadSteps(s: Sys, pid: int, id: int, want: nat)
    requires Sizes(s) && Get(s, id)
    ensures var t, p := Read(s, pid, id, want), s.socks[id].peer;
      if s.socks[id].rx != [] then t == Take(s, id, want).(procs := s.procs[pid := Proc(Running, false)])
      else if Get(s, p) && s.socks[p].state != Closed then
        && Others(s, t, {id}) && t.socks[id] == s.socks[id].(reader := pid) && t.hist == s.hist
        && t.procs == s.procs[pid := Proc(InRead(id, want), true)]
      else t == s.(procs := s.procs[pid := Proc(Running, false)])
  {
  }

  /** A receive takes what is queued, and with nothing queued it waits. */
  lemma RecvSteps(s: Sys, pid: int, id: int, want: nat)
    requires Sizes(s) && Get(s, id)
    ensures var t := Recv(s, pid, id, want);
      if s.socks[id].rx != [] then t == Take(s, id, want).(procs := s.procs[pid := Proc(Running, false)]) else
        && Others(s, t, {id}) && t.socks[id] == s.socks[id].(reader := pid) && t.hist == s.hist
        && t.procs == s.procs[pid := Proc(InRecv(id, want), true)]
  {
  }

  /** Slot `d` holds the first socket bound to a path. */
  ghost predicate BoundAt(s: Sys, d: nat, path: string) {
    d < |s.socks| && HoldsBound(s.socks[d], path) && forall i :: 0 <= i < d ==> !HoldsBound(s.socks[i], path)
  }

  /** A datagram goes whole to the first socket bound to the path, whose reader is woken. */
  lemma SendToSteps(s: Sys, id: int, data: seq<byte>, path: string, d: nat)
    requires Sizes(s) && Get(s, id) && s.socks[id].kind == SOCK_DGRAM && BoundAt(s, d, path)
    ensures var t := SendTo(s, id, data, path);
      if |s.socks[d].rx| + |data| > BUF_SIZE then t == s else
        && Others(s, t, {d}) && t.socks[d] == NoReader(s.socks[d]).(rx := s.socks[d].rx + data)
        && Woke(s.procs, t.procs, ReaderOf(s, d)) && |t.hist| == |s.hist|
        && t.hist[d].put == s.hist[d].put + data
  {
    assert FindBound(s.socks, path, |s.socks|) == d;
  }

  // ---------------------------------------------------------------- first come, first served

  /** The client that a step queues up at listener `l`. */
  ghost function Joins(s: Sys, op: Op, l: nat): seq<Pending> {
    if op.DoConnect? && MayJoin(s, op.id) && ListensAt(s, l, op.path) && |s.socks[l].backlog| < BACKLOG_MAX
    then [Pending(op.id, op.pid)] else []
  }

  /** The step accepts at `l`, from its start or from where it waited. */
  predicate Accepts(s: Sys, op: Op, l: nat) {
    || (op.DoAccept? && op.id == l)
    || (op.DoResume? && op.pid in s.procs && s.procs[op.pid].at == InAccept(l))
  }

  /** The client that a step serves at listener `l`: the one at the front. */
  function Serves(s: Sys, op: Op, l: nat): seq<Pending> {
    if Get(s, l) && s.socks[l].state == Listening && Accepts(s, op, l) && s.socks[l].backlog != []
    then s.socks[l].backlog[..1] else []
  }

  /** Through a step a backlog loses the client that is served and gains the one that queues up. */
  lemma QueueStep(s: Sys, op: Op, l: nat)
    requires Inv(s) && Enabled(s, op) && Get(s, l) && (op.DoDestroy? ==> op.id != l)
    ensures Get(Apply(s, op), l)
    ensures s.socks[l].backlog + Joins(s, op, l) == Serves(s, op, l) + Apply(s, op).socks[l].backlog
  {
    hide Inv, Accept, Destroy, Connect, Write, Read, Recv, SendTo, ListensAt, Create, Bind, Listen, Resume, MayJoin;
    match op
    case DoDestroy(_, id) => DestroyQueue(s, id, l);
    case DoAccept(pid, id) => AcceptQueue(s, pid, id, l);
    case DoConnect(pid, id, path) => ConnectQueue(s, pid, id, path, l);
    case DoWrite(pid, id, data) => MoveQueue(s, pid, id, data, 0, l);
    case DoRead(pid, id, want) => MoveQueue(s, pid, id, [], want, l);
    case DoSendTo(_, id, data, path) => SendToQueue(s, id, data, path, l);
    case DoRecv(pid, id, want) => MoveQueue(s, pid, id, [], want, l);
    case DoResume(pid) => ResumeQueue(s, pid, l);
    case _ => PlainQueue(s, op, l);
  }

  lemma ResumeQueue(s: Sys, pid: int, l: nat)
    requires Get(s, l) && pid in s.procs && s.procs[pid].at != Running
    ensures Get(Resume(s, pid), l)
    ensures s.socks[l].backlog == Serves(s, DoResume(pid), l) + Resume(s, pid).socks[l].backlog
  {
    hide Accept, Write, Read, Recv;
    match s.procs[pid].at
    case InAccept(id) => AcceptQueue(s, pid, id, l);
    case InConnect(_) =>
    case InRead(id, want) => MoveQueue(s, pid, id, [], want, l);
    case InWrite(id, rest) => MoveQueue(s, pid, id, rest, 0, l);
    case InRecv(id, want) => MoveQueue(s, pid, id, [], want, l);
  }

  lemma PlainQueue(s: Sys, op: Op, l: nat)
    requires Get(s, l) && (op.DoSpawn? || op.DoExit? || op.DoCreate? || op.DoBind? || op.DoListen?)
    ensures SameQueue(s, Apply(s, op), l)
  {
  }

  ghost predicate SameQueue(s: Sys, t: Sys, l: nat) {
    Get(s, l) && Get(t, l) && t.socks[l].backlog == s.socks[l].backlog
  }

  lemma DestroyQueue(s: Sys, id: int, l: nat)
    requires Inv(s) && Get(s, l) && id != l
    ensures SameQueue(s, Destroy(s, id), l)
  {
    hide Peers, Backlogs, NoLostWakeup, Readers, Owners, Streams, UnblockedAll;
    WakeQueue(s, id, l);
    HangupQueue(WakeReader(s, id), id, l);
    hide WakeReader, Hangup;
  }

  lemma WakeQueue(s: Sys, id: int, l: nat)
    requires Get(s, l)
    ensures SameQueue(s, WakeReader(s, id), l)
  {
  }

  lemma HangupQueue(s: Sys, id: int, l: nat)
    requires Get(s, l)
    ensures SameQueue(s, Hangup(s, id), l)
  {
    if Get(s, id) && Get(s, s.socks[id].peer) {
      var p := s.socks[id].peer;
      WakeQueue(SetSock(s, p, s.socks[p].(state := Closed, peer := -1)), p, l);
      hide WakeReader;
    }
  }

  lemma AcceptQueue(s: Sys, pid: int, id: int, l: nat)
    requires Get(s, l)
    ensures Get(Accept(s, pid, id), l)
    ensures Accept(s, pid, id).socks[l].backlog == if id == l && s.socks[l].state == Listening
      && s.socks[l].backlog != []
      then s.socks[l].backlog[1..] else s.socks[l].backlog
  {
  }

  lemma ConnectQueue(s: Sys, pid: int, id: int, path: string, l: nat)
    requires Get(s, l)
    ensures Get(Connect(s, pid, id, path), l)
    ensures Connect(s, pid, id, path).socks[l].backlog ==
      s.socks[l].backlog + Joins(s, DoConnect(pid, id, path), l)
  {
    var f := FindListener(s.socks, path, |s.socks|);
    if ListensAt(s, l, path) { assert f == l; }
    if f == l { assert ListensAt(s, l, path); }
  }

  lemma MoveQueue(s: Sys, pid: int, id: int, rest: seq<byte>, want: nat, l: nat)
    requires Get(s, l)
    ensures SameQueue(s, Write(s, pid, id, rest), l) && SameQueue(s, Read(s, pid, id, want), l)
      && SameQueue(s, Recv(s, pid, id, want), l)
  {
    WriteQueue(s, pid, id, rest, l);
    hide Write;
  }

  lemma WriteQueue(s: Sys, pid: int, id: int, rest: seq<byte>, l: nat)
    requires Get(s, l)
    ensures SameQueue(s, Write(s, pid, id, rest), l)
  {
  }

  lemma SendToQueue(s: Sys, id: int, data: seq<byte>, path: string, l: nat)
    requires Get(s, l)
    ensures SameQueue(s, SendTo(s, id, data, path), l)
  {
  }

  /** All clients that queued up, or were served, at `l` during a run. */
  ghost function Joined(s: Sys, ops: seq<Op>, l: nat): seq<Pending>
    decreases |ops|
  {
    if ops == [] then [] else Joins(s, ops[0], l) + Joined(Apply(s, ops[0]), ops[1..], l)
  }

  function Served(s: Sys, ops: seq<Op>, l: nat): seq<Pending>
    decreases |ops|
  {
    if ops == [] then [] else Serves(s, ops[0], l) + Served(Apply(s, ops[0]), ops[1..], l)
  }

  /** Over every run, clients are served in the order in which they queued up, and the others still wait, in order. */
  lemma {:induction false} FirstComeFirstServed(s: Sys, ops: seq<Op>, l: nat)
    requires Inv(s) && CanRun(s, ops) && Get(s, l)
      && forall k :: 0 <= k < |ops| && ops[k].DoDestroy? ==> ops[k].id != l
    ensures Get(Run(s, ops), l)
    ensures s.socks[l].backlog + Joined(s, ops, l) == Served(s, ops, l) + Run(s, ops).socks[l].backlog
    decreases |ops|
  {
    hide Inv, Enabled, Apply, Joins, Serves;
    if ops != [] {
      var t := Apply(s, ops[0]);
      StepKeeps(s, ops[0]);
      QueueStep(s, ops[0], l);
      FirstComeFirstServed(t, ops[1..], l);
      assert s.socks[l].backlog + (Joins(s, ops[0], l) + Joined(t, ops[1..], l))
        == (s.socks[l].backlog + Joins(s, ops[0], l)) + Joined(t, ops[1..], l);
      assert Serves(s, ops[0], l) + (t.socks[l].backlog + Joined(t, ops[1..], l))
        == (Serves(s, ops[0], l) + t.socks[l].backlog) + Joined(t, ops[1..], l);
    }
  }
}
