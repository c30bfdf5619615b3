/** Properties of whole socket lifetimes and of bound paths, over every run. */
module SocketTheorems {
  import opened Bytes
  import opened UnixSockets
  import opened SocketInvariants

  // ---------------------------------------------------------------- who deposits

  /** The socket a step writes from, and what it still has to write; -1 for a step that is not a stream write. */
  function Writer(s: Sys, op: Op): int {
    match op
    case DoWrite(_, id, _) => id
    case DoResume(pid) => if pid in s.procs && s.procs[pid].at.InWrite? then s.procs[pid].at.id else -1
    case _ => -1
  }

  function Offered(s: Sys, op: Op): seq<byte> {
    match op
    case DoWrite(_, _, data) => data
    case DoResume(pid) => if pid in s.procs && s.procs[pid].at.InWrite? then s.procs[pid].at.rest else []
    case _ => []
  }

  /** Nothing is put into socket `i` between two states. */
  ghost predicate Quiet(s: Sys, t: Sys, i: int) {
    0 <= i < |s.hist| && i < |t.hist| && t.hist[i].put == s.hist[i].put
  }

  lemma WakeQuiet(s: Sys, id: int)
    ensures WakeReader(s, id).hist == s.hist
  {
  }

  lemma AcceptQuiet(s: Sys, pid: int, id: int, i: int)
    requires Sizes(s) && Get(s, i)
    ensures Quiet(s, Accept(s, pid, id), i)
  {
  }

  lemma DestroyQuiet(s: Sys, id: int)
    ensures Destroy(s, id).hist == s.hist
  {
  }

  /** What a stream write puts, and where. */
  lemma WriteDeposits(s: Sys, pid: int, id: int, rest: seq<byte>, i: int)
    requires Inv(s) && Get(s, id) && 0 <= i < |s.hist|
    ensures var t := Write(s, pid, id, rest);
      |t.hist| == |s.hist| && s.hist[i].put <= t.hist[i].put
      && (t.hist[i].put != s.hist[i].put ==> s.socks[id].peer == i && t.hist[i].put[|s.hist[i].put|..] <= rest)
  {
    hide Backlogs, NoLostWakeup, Readers, Owners, Streams;
    var p := s.socks[id].peer;
    assert p != id;
    if rest != [] && Get(s, p) && s.socks[p].state != Closed {
      var space := if |s.socks[p].rx| < BUF_SIZE then BUF_SIZE - |s.socks[p].rx| else 0;
      var n := if |rest| < space then |rest| else space;
      WakeQuiet(Send(s, id, p, rest[..n]), p);
      hide WakeReader;
      if n != 0 && i == p {
        assert Write(s, pid, id, rest).hist[i].put == s.hist[i].put + rest[..n];
      }
    }
  }

  lemma ReadQuiet(s: Sys, pid: int, id: int, want: nat, i: int)
    requires 0 <= i < |s.hist|
    ensures Quiet(s, Read(s, pid, id, want), i) && Quiet(s, Recv(s, pid, id, want), i)
  {
  }

  /** A socket bound to a path is not connected, so a datagram never enters a connection. */
  lemma SendToDeposits(s: Sys, id: int, data: seq<byte>, path: string, i: int)
    requires Sizes(s) && 0 <= i < |s.hist|
    ensures var t := SendTo(s, id, data, path);
      |t.hist| == |s.hist| && s.hist[i].put <= t.hist[i].put
        && (s.socks[i].state == Connected ==> t.hist[i].put == s.hist[i].put)
  {
    if Get(s, id) && s.socks[id].kind == SOCK_DGRAM {
      var d := FindBound(s.socks, path, |s.socks|);
      if d >= 0 && |data| + |s.socks[d].rx| <= BUF_SIZE {
        WakeQuiet(Put(s, d, data), d);
        hide WakeReader;
        assert s.socks[d].state != Connected;
      }
    }
  }

  /** What is put into a socket in use only grows; while it is connected, what is added comes from its peer's write. */
  ghost predicate PeerDeposits(s: Sys, op: Op, t: Sys, i: int) {
    && 0 <= i < |s.hist| && i < |t.hist| && i < |s.socks| && s.hist[i].put <= t.hist[i].put
    && (s.socks[i].state == Connected && t.hist[i].put != s.hist[i].put ==>
          Writer(s, op) == s.socks[i].peer && t.hist[i].put[|s.hist[i].put|..] <= Offered(s, op))
  }

  lemma OnlyPeerDeposits(s: Sys, op: Op, i: int)
    requires Inv(s) && Enabled(s, op) && Get(s, i)
    ensures PeerDeposits(s, op, Apply(s, op), i)
  {
    hide Create, Accept, Destroy, Write, Read, Recv, SendTo;
    match op
    case DoSpawn(_) =>
    case DoExit(_) =>
    case DoCreate(pid, kind) => CreateQuiet(s, pid, kind, i);
    case DoDestroy(_, id) => DestroyQuiet(s, id);
    case DoBind(_, _, _) =>
    case DoListen(_, _) =>
    case DoAccept(pid, id) => AcceptQuiet(s, pid, id, i);
    case DoConnect(pid, id, path) => ConnectQuiet(s, pid, id, path);
    case DoWrite(pid, id, data) =>
      if Get(s, id) {
        WriteDeposits(s, pid, id, data, i);
        if s.socks[id].peer == i { MutualPeer(s, id); }
      }
    case DoRead(pid, id, want) => ReadQuiet(s, pid, id, want, i);
    case DoSendTo(_, id, data, path) => SendToDeposits(s, id, data, path, i);
    case DoRecv(pid, id, want) => ReadQuiet(s, pid, id, want, i);
    case DoResume(pid) => ResumeDeposits(s, pid, i);
  }

  lemma CreateQuiet(s: Sys, pid: int, kind: int, i: int)
    requires Get(s, i) && i < |s.hist|
    ensures Quiet(s, Create(s, pid, kind), i)
  {
  }

  lemma ConnectQuiet(s: Sys, pid: int, id: int, path: string)
    ensures Connect(s, pid, id, path).hist == s.hist
  {
  }

  lemma MutualPeer(s: Sys, id: int)
    requires Inv(s) && Get(s, id) && s.socks[id].peer >= 0
    ensures Get(s, s.socks[id].peer) && s.socks[s.socks[id].peer].peer == id
  {
  }

  lemma ResumeDeposits(s: Sys, pid: int, i: int)
    requires Inv(s) && Enabled(s, DoResume(pid)) && Get(s, i)
    ensures PeerDeposits(s, DoResume(pid), Resume(s, pid), i)
  {
    assert Get(s, s.procs[pid].at.id);
    hide Accept, Write, Read, Recv;
    match s.procs[pid].at
    case InAccept(id) => AcceptQuiet(s, pid, id, i);
    case InConnect(_) =>
    case InRead(id, want) => ReadQuiet(s, pid, id, want, i);
    case InWrite(id, rest) =>
      WriteDeposits(s, pid, id, rest, i);
      if s.socks[id].peer == i { MutualPeer(s, id); }
    case InRecv(id, want) => ReadQuiet(s, pid, id, want, i);
  }

  // ---------------------------------------------------------------- paths

  /** No slot comes to hold a path it did not hold. */
  ghost predicate NoNewHolder(s: Sys, t: Sys) {
    |t.socks| == |s.socks| && forall i, path :: 0 <= i < |s.socks| && HoldsBound(t.socks[i], path) ==>
      HoldsBound(s.socks[i], path)
  }

  /** Every socket in use, but for `id`, stays in use. */
  ghost predicate StillUsed(s: Sys, t: Sys, id: int) { forall i :: Get(s, i) && i != id ==> Get(t, i) }

  lemma NoNewKeeps(s: Sys, t: Sys)
    requires PathsUnique(s) && NoNewHolder(s, t)
    ensures PathsUnique(t)
  {
    hide HoldsBound;
  }

  lemma WakeHolders(s: Sys, id: int)
    ensures NoNewHolder(s, WakeReader(s, id)) && StillUsed(s, WakeReader(s, id), -1)
  {
  }

  lemma PairHolders(s: Sys, id: int, client: int, free: int, pid: int)
    ensures NoNewHolder(s, Pair(s, id, client, free, pid)) && StillUsed(s, Pair(s, id, client, free, pid), -1)
  {
  }

  lemma AcceptHolders(s: Sys, pid: int, id: int)
    ensures NoNewHolder(s, Accept(s, pid, id)) && StillUsed(s, Accept(s, pid, id), -1)
  {
    if Get(s, id) && s.socks[id].state == Listening && s.socks[id].backlog != [] {
      var t := SetSock(s, id, s.socks[id].(backlog := s.socks[id].backlog[1..]));
      PairHolders(t, id, s.socks[id].backlog[0].sock, FirstFree(t.socks, |t.socks|), pid);
      hide Pair;
    }
  }

  lemma HangupHolders(s: Sys, id: int)
    ensures NoNewHolder(s, Hangup(s, id)) && StillUsed(s, Hangup(s, id), -1)
  {
    if Get(s, id) && Get(s, s.socks[id].peer) {
      var p := s.socks[id].peer;
      WakeHolders(SetSock(s, p, s.socks[p].(state := Closed, peer := -1)), p);
      hide WakeReader;
    }
  }

  lemma DestroyHolders(s: Sys, id: int)
    ensures NoNewHolder(s, Destroy(s, id)) && StillUsed(s, Destroy(s, id), id)
  {
    if Get(s, id) {
      WakeHolders(s, id);
      HangupHolders(WakeReader(s, id), id);
      hide WakeReader, Hangup;
    }
  }

  lemma ConnectHolders(s: Sys, pid: int, id: int, path: string)
    ensures NoNewHolder(s, Connect(s, pid, id, path)) && StillUsed(s, Connect(s, pid, id, path), -1)
  {
  }

  lemma WriteHolders(s: Sys, pid: int, id: int, rest: seq<byte>)
    ensures NoNewHolder(s, Write(s, pid, id, rest)) && StillUsed(s, Write(s, pid, id, rest), -1)
  {
  }

  lemma TransferHolders(s: Sys, pid: int, id: int, want: nat)
    ensures NoNewHolder(s, Read(s, pid, id, want)) && StillUsed(s, Read(s, pid, id, want), -1)
    ensures NoNewHolder(s, Recv(s, pid, id, want)) && StillUsed(s, Recv(s, pid, id, want), -1)
  {
  }

  lemma SendToHolders(s: Sys, id: int, data: seq<byte>, path: string)
    ensures NoNewHolder(s, SendTo(s, id, data, path)) && StillUsed(s, SendTo(s, id, data, path), -1)
  {
  }

  lemma ResumeHolders(s: Sys, pid: int)
    ensures NoNewHolder(s, Resume(s, pid)) && StillUsed(s, Resume(s, pid), -1)
  {
    hide Accept, Read, Write, Recv;
    if pid in s.procs {
      match s.procs[pid].at
      case Running =>
      case InAccept(id) => AcceptHolders(s, pid, id);
      case InConnect(_) =>
      case InRead(id, want) => TransferHolders(s, pid, id, want);
      case InWrite(id, rest) => WriteHolders(s, pid, id, rest);
      case InRecv(id, want) => TransferHolders(s, pid, id, want);
    }
  }

  /** `bind` on a socket that accepts one: its caller can tell whether uniqueness survives. */
  predicate Accepted(s: Sys, id: int, path: string) {
    Get(s, id) && s.socks[id].state == Created && path != "" && FindBound(s.socks, path, |s.socks|) < 0
  }

  /**
   The search compares the whole path and the table stores the truncated one, so uniqueness is kept
   exactly when the truncated path is free as well.
   */
  lemma BindUnique(s: Sys, id: int, path: string)
    requires PathsUnique(s)
    ensures PathsUnique(Bind(s, id, path)) <==>
      (Accepted(s, id, path) ==> FindBound(s.socks, Truncate(path), |s.socks|) < 0)
  {
    if Accepted(s, id, path) {
      var t := Bind(s, id, path);
      var f := FindBound(s.socks, Truncate(path), |s.socks|);
      assert HoldsBound(t.socks[id], Truncate(path));
      if f >= 0 {
        assert f != id && HoldsBound(t.socks[f], Truncate(path));
        assert !PathsUnique(t);
      } else {
        assert forall i, q :: 0 <= i < |t.socks| && i != id && HoldsBound(t.socks[i], q) ==>
          HoldsBound(s.socks[i], q) && q != Truncate(path);
      }
    }
  }

  predicate ShortPath(op: Op) { op.DoBind? ==> |op.path| < PATH_MAX }

  lemma StepPaths(s: Sys, op: Op)
    requires PathsUnique(s) && ShortPath(op)
    ensures PathsUnique(Apply(s, op))
  {
    hide Accept, Destroy, Connect, Write, Read, Recv, SendTo, Resume, Bind, PathsUnique;
    match op
    case DoSpawn(_) => NoNewKeeps(s, Apply(s, op));
    case DoExit(_) => NoNewKeeps(s, Apply(s, op));
    case DoCreate(_, _) => NoNewKeeps(s, Apply(s, op));
    case DoDestroy(_, id) => DestroyHolders(s, id); NoNewKeeps(s, Apply(s, op));
    case DoBind(_, id, path) => BindUnique(s, id, path);
    case DoListen(_, _) => NoNewKeeps(s, Apply(s, op));
    case DoAccept(pid, id) => AcceptHolders(s, pid, id); NoNewKeeps(s, Apply(s, op));
    case DoConnect(pid, id, path) => ConnectHolders(s, pid, id, path); NoNewKeeps(s, Apply(s, op));
    case DoWrite(pid, id, data) => WriteHolders(s, pid, id, data); NoNewKeeps(s, Apply(s, op));
    case DoRead(pid, id, want) => TransferHolders(s, pid, id, want); NoNewKeeps(s, Apply(s, op));
    case DoSendTo(_, id, data, path) => SendToHolders(s, id, data, path); NoNewKeeps(s, Apply(s, op));
    case DoRecv(pid, id, want) => TransferHolders(s, pid, id, want); NoNewKeeps(s, Apply(s, op));
    case DoResume(pid) => ResumeHolders(s, pid); NoNewKeeps(s, Apply(s, op));
  }

  lemma {:induction false} RunPaths(s: Sys, ops: seq<Op>)
    requires PathsUnique(s) && forall k :: 0 <= k < |ops| ==> ShortPath(ops[k])
    ensures PathsUnique(Run(s, ops))
    decreases |ops|
  {
    hide PathsUnique, Apply;
    if ops != [] {
      StepPaths(s, ops[0]);
      RunPaths(Apply(s, ops[0]), ops[1..]);
    }
  }

  /** Over every run in which the paths bound are shorter than 108 bytes. */
  lemma ReachablePaths(ops: seq<Op>)
    requires forall k :: 0 <= k < |ops| ==> ShortPath(ops[k])
    ensures PathsUnique(Run(InitSys(), ops))
  {
    RunPaths(InitSys(), ops);
  }

  function LongPath(last: char): string { seq(PATH_MAX - 1, i => 'a') + [last] }

  /** Two paths of 108 bytes that differ in the last one end up on two sockets as one path. */
  lemma LongPathsClash(s: Sys, i: int, j: int)
    requires Get(s, i) && Get(s, j) && i < j && s.socks[i].state == Created && s.socks[j].state == Created
    requires forall k, path :: 0 <= k < |s.socks| ==> !HoldsBound(s.socks[k], path)
    ensures PathsUnique(s) && !PathsUnique(Bind(Bind(s, i, LongPath('x')), j, LongPath('y')))
  {
    var t := Bind(s, i, LongPath('x'));
    assert Truncate(LongPath('x')) == Truncate(LongPath('y')) == seq(PATH_MAX - 1, i => 'a');
    assert |LongPath('y')| == 108 && |t.socks[i].path| == 107;
    assert forall k :: 0 <= k < |t.socks| ==> !HoldsBound(t.socks[k], LongPath('y'));
    assert HoldsBound(t.socks[i], Truncate(LongPath('y')));
    BindUnique(t, j, LongPath('y'));
    assert PathsUnique(t);
  }

  // ---------------------------------------------------------------- whole lifetimes

  /** The run never destroys socket `i`. */
  predicate Keeps(ops: seq<Op>, i: int) { forall k :: 0 <= k < |ops| && ops[k].DoDestroy? ==> ops[k].id != i }

  lemma StaysInUse(s: Sys, op: Op, i: int)
    requires Get(s, i) && (op.DoDestroy? ==> op.id != i)
    ensures Get(Apply(s, op), i)
  {
    hide Accept, Destroy, Connect, Write, Read, Recv, SendTo, Resume, NoNewHolder;
    match op
    case DoDestroy(_, id) => DestroyHolders(s, id);
    case DoAccept(pid, id) => AcceptHolders(s, pid, id);
    case DoConnect(pid, id, path) => ConnectHolders(s, pid, id, path);
    case DoWrite(pid, id, data) => WriteHolders(s, pid, id, data);
    case DoRead(pid, id, want) => TransferHolders(s, pid, id, want);
    case DoSendTo(_, id, data, path) => SendToHolders(s, id, data, path);
    case DoRecv(pid, id, want) => TransferHolders(s, pid, id, want);
    case DoResume(pid) => ResumeHolders(s, pid);
    case _ =>
  }

  /**
   In `t`, later than `s`: more was put into socket `i`, and what it read and still holds is all of that, in
   order.
   */
  ghost predicate Delivered(s: Sys, t: Sys, i: int) {
    && Get(t, i) && 0 <= i < |s.hist| && i < |t.hist| && s.hist[i].put <= t.hist[i].put
    && t.hist[i].got + t.socks[i].rx == t.hist[i].put
  }

  /** Over a lifetime, what a socket was given starts with what it had been given at any earlier moment. */
  lemma {:induction false} LifetimeGrows(s: Sys, ops: seq<Op>, i: int)
    requires Inv(s) && CanRun(s, ops) && Get(s, i) && Keeps(ops, i)
    ensures Delivered(s, Run(s, ops), i)
    decreases |ops|
  {
    hide Enabled, Apply;
    if ops != [] {
      OnlyPeerDeposits(s, ops[0], i);
      StaysInUse(s, ops[0], i);
      StepKeeps(s, ops[0]);
      LifetimeGrows(Apply(s, ops[0]), ops[1..], i);
    }
  }
}
