/**
 AF_UNIX sockets as a concurrent protocol. A system call runs with interrupts masked, so
 each stretch of socket code between two yields is one atomic step; processes that wait
 are at a named point of the call they are in, and a blocked process takes no step.
 */
module UnixSockets {
  import opened Bytes

  const MAX_SOCKETS := 64
  const BUF_SIZE := 8192
  const BACKLOG_MAX := 8
  const PATH_MAX := 108
  const SOCK_STREAM := 1
  const SOCK_DGRAM := 2

  datatype State = Free | Created | Bound | Listening | Connected | Closed

  /** A client waiting to be accepted. */
  datatype Pending = Pending(sock: int, pid: int)

  datatype Sock = Sock(
    inUse: bool, state: State, kind: int, path: string, peer: int,
    rx: seq<byte>,            // content of the receive ring
    backlog: seq<Pending>,    // content of the backlog ring
    reader: int,              // blocked_reader_pid
    owner: int)               // owner_pid

  /** Where a process is: running user code, or waiting inside a socket call. */
  datatype Point =
    | Running
    | InAccept(id: int)
    | InConnect(id: int)
    | InRead(id: int, want: nat)
    | InWrite(id: int, rest: seq<byte>)
    | InRecv(id: int, want: nat)

  datatype Proc = Proc(at: Point, blocked: bool)

  /** What happened in a socket's lifetime: bytes put in, taken out, put in before it was connected, and sent by it. */
  datatype Hist = Hist(put: seq<byte>, got: seq<byte>, early: seq<byte>, sent: seq<byte>)

  datatype Sys = Sys(socks: seq<Sock>, procs: map<int, Proc>, hist: seq<Hist>)

  const NewHist := Hist([], [], [], [])

  // ---------------------------------------------------------------- building blocks

  /** `unix_sock_get(id)` is not null. */
  predicate Get(s: Sys, id: int) { 0 <= id < |s.socks| && s.socks[id].inUse }

  function SetSock(s: Sys, id: int, k: Sock): Sys {
    if 0 <= id < |s.socks| then s.(socks := s.socks[id := k]) else s
  }

  function SetHist(s: Sys, id: int, h: Hist): Sys {
    if 0 <= id < |s.hist| then s.(hist := s.hist[id := h]) else s
  }

  function SetProc(s: Sys, pid: int, p: Proc): Sys { s.(procs := s.procs[pid := p]) }

  /** `proc_unblock` */
  function Unblocked(procs: map<int, Proc>, pid: int): map<int, Proc> {
    if pid in procs then procs[pid := procs[pid].(blocked := false)] else procs
  }

  function Unblock(s: Sys, pid: int): Sys { s.(procs := Unblocked(s.procs, pid)) }

  /** `wake_reader` */
  function WakeReader(s: Sys, id: int): Sys {
    if 0 <= id < |s.socks| && s.socks[id].reader >= 0
    then SetSock(Unblock(s, s.socks[id].reader), id, s.socks[id].(reader := -1))
    else s
  }

  /** The lowest slot below `n` that satisfies a condition, or -1. */
  function FirstFree(socks: seq<Sock>, n: nat): int
    requires n <= |socks|
    ensures -1 <= FirstFree(socks, n) < n
    ensures FirstFree(socks, n) >= 0 ==> !socks[FirstFree(socks, n)].inUse
    ensures forall i :: 0 <= i < n && (FirstFree(socks, n) < 0 || i < FirstFree(socks, n)) ==> socks[i].inUse
  {
    if n == 0 then -1 else
      var r := FirstFree(socks, n - 1);
      if r >= 0 then r else if !socks[n - 1].inUse then n - 1 else -1
  }

  predicate HoldsListening(k: Sock, path: string) { k.inUse && k.state == Listening && k.path == path }

  predicate HoldsBound(k: Sock, path: string) {
    k.inUse && (k.state == Bound || k.state == Listening) && k.path == path
  }

  function FindListener(socks: seq<Sock>, path: string, n: nat): int
    requires n <= |socks|
    ensures -1 <= FindListener(socks, path, n) < n
    ensures FindListener(socks, path, n) >= 0 ==> HoldsListening(socks[FindListener(socks, path, n)], path)
    ensures forall i :: 0 <= i < n && (FindListener(socks, path, n) < 0 || i < FindListener(socks, path, n)) ==>
      !HoldsListening(socks[i], path)
  {
    if n == 0 then -1 else
      var r := FindListener(socks, path, n - 1);
      if r >= 0 then r else if HoldsListening(socks[n - 1], path) then n - 1 else -1
  }

  function FindBound(socks: seq<Sock>, path: string, n: nat): int
    requires n <= |socks|
    ensures -1 <= FindBound(socks, path, n) < n
    ensures FindBound(socks, path, n) >= 0 ==> HoldsBound(socks[FindBound(socks, path, n)], path)
    ensures forall i :: 0 <= i < n && (FindBound(socks, path, n) < 0 || i < FindBound(socks, path, n)) ==>
      !HoldsBound(socks[i], path)
  {
    if n == 0 then -1 else
      var r := FindBound(socks, path, n - 1);
      if r >= 0 then r else if HoldsBound(socks[n - 1], path) then n - 1 else -1
  }

  /** `strncpy(s->path, path, UNIX_PATH_MAX - 1)` */
  function Truncate(path: string): (r: string)
    ensures r <= path && |r| == if |path| < PATH_MAX then |path| else PATH_MAX - 1
  {
    if |path| < PATH_MAX then path else path[..PATH_MAX - 1]
  }

  // ---------------------------------------------------------------- atomic steps

  function Fresh(state: State, kind: int, path: string, peer: int, owner: int): Sock {
    Sock(true, state, kind, path, peer, [], [], -1, owner)
  }

  function Create(s: Sys, pid: int, kind: int): Sys {
    if kind != SOCK_STREAM && kind != SOCK_DGRAM then s else
      var i := FirstFree(s.socks, |s.socks|);
      if i < 0 then s else SetHist(SetSock(s, i, Fresh(Created, kind, "", -1, pid)), i, NewHist)
  }

  /** Every client of a backlog is woken, in order. */
  function UnblockedAll(procs: map<int, Proc>, entries: seq<Pending>): map<int, Proc>
    decreases |entries|
  {
    if entries == [] then procs else
      UnblockedAll(if entries[0].pid >= 0 then Unblocked(procs, entries[0].pid) else procs, entries[1..])
  }

  /** The peer, if any, learns that the connection is over. */
  function Hangup(s: Sys, id: int): Sys {
    if !Get(s, id) || s.socks[id].peer < 0 then s else
      var p := s.socks[id].peer;
      var t := if Get(s, p) then WakeReader(SetSock(s, p, s.socks[p].(state := Closed, peer := -1)), p) else s;
      SetSock(t, id, t.socks[id].(peer := -1))
  }

  function Destroy(s: Sys, id: int): Sys {
    if !Get(s, id) then s else
      var t := Hangup(WakeReader(s, id), id);
      var u := t.(procs := UnblockedAll(t.procs, t.socks[id].backlog));
      SetSock(u, id, u.socks[id].(backlog := [], state := Closed, inUse := false))
  }

  function Bind(s: Sys, id: int, path: string): Sys {
    if !Get(s, id) || s.socks[id].state != Created || path == "" || FindBound(s.socks, path, |s.socks|) >= 0 then s
    else SetSock(s, id, s.socks[id].(path := Truncate(path), state := Bound))
  }

  function Listen(s: Sys, id: int): Sys {
    if !Get(s, id) || s.socks[id].kind != SOCK_STREAM || s.socks[id].state != Bound then s
    else SetSock(s, id, s.socks[id].(state := Listening))
  }

  function Return(s: Sys, pid: int): Sys { SetProc(s, pid, Proc(Running, false)) }

  /** `accept`, from its start or from where it waits. */
  function Accept(s: Sys, pid: int, id: int): Sys {
    if !Get(s, id) || s.socks[id].state != Listening then Return(s, pid)
    else if s.socks[id].backlog == [] then
      SetProc(SetSock(s, id, s.socks[id].(reader := pid)), pid, Proc(InAccept(id), true))
    else
      var e := s.socks[id].backlog[0];
      var t := SetSock(s, id, s.socks[id].(backlog := s.socks[id].backlog[1..]));
      var i := FirstFree(t.socks, |t.socks|);
      Return(if i < 0 then Unblock(t, e.pid) else Unblock(Pair(t, id, e.sock, i, pid), e.pid), pid)
  }

  /** The new connection in slot `i` and the client become peers. */
  function Pair(t: Sys, id: int, client: int, i: int, pid: int): Sys {
    if !(0 <= id < |t.socks|) then t else
      var u := SetHist(SetSock(t, i, Fresh(Connected, t.socks[id].kind, t.socks[id].path, client, pid)), i, NewHist);
      if Get(u, client) && client < |u.hist|
      then SetHist(SetSock(u, client, u.socks[client].(state := Connected, peer := i)), client,
                   u.hist[client].(early := u.hist[client].put))
      else u
  }

  /** `connect` up to where it waits. */
  function Connect(s: Sys, pid: int, id: int, path: string): Sys {
    if !Get(s, id) || (s.socks[id].state != Created && s.socks[id].state != Bound)
      || s.socks[id].kind != SOCK_STREAM then s else
      var l := FindListener(s.socks, path, |s.socks|);
      if l < 0 || |s.socks[l].backlog| >= BACKLOG_MAX then s else
        var t := SetSock(s, l, s.socks[l].(backlog := s.socks[l].backlog + [Pending(id, pid)]));
        SetProc(WakeReader(t, l), pid, Proc(InConnect(id), true))
  }

  /** Bytes enter a receive ring. */
  function Put(s: Sys, id: int, data: seq<byte>): Sys {
    if 0 <= id < |s.socks| && id < |s.hist|
    then SetHist(SetSock(s, id, s.socks[id].(rx := s.socks[id].rx + data)), id,
      s.hist[id].(put := s.hist[id].put + data))
    else s
  }

  /** Bytes go from a connected socket into its peer's receive ring. */
  function Send(s: Sys, id: int, p: int, data: seq<byte>): Sys {
    var t := Put(s, p, data);
    if 0 <= id < |t.hist| then SetHist(t, id, t.hist[id].(sent := t.hist[id].sent + data)) else t
  }

  /** Bytes leave a receive ring. */
  function Take(s: Sys, id: int, want: nat): Sys {
    if 0 <= id < |s.socks| && id < |s.hist| then
      var n := if want < |s.socks[id].rx| then want else |s.socks[id].rx|;
      SetHist(SetSock(s, id, s.socks[id].(rx := s.socks[id].rx[n..])), id,
              s.hist[id].(got := s.hist[id].got + s.socks[id].rx[..n]))
    else s
  }

  /** `write`, from its start (once found connected) or from a yield, as far as the peer's ring lets it. */
  function Write(s: Sys, pid: int, id: int, rest: seq<byte>): Sys {
    if rest == [] || !(0 <= id < |s.socks|) || id >= |s.hist| then Return(s, pid) else
      var p := s.socks[id].peer;
      if !Get(s, p) || s.socks[p].state == Closed then Return(s, pid) else
        var space := if |s.socks[p].rx| < BUF_SIZE then BUF_SIZE - |s.socks[p].rx| else 0;
        var n := if |rest| < space then |rest| else space;
        var t := if n == 0 then s else WakeReader(Send(s, id, p, rest[..n]), p);
        SetProc(t, pid, if n == |rest| then Proc(Running, false) else Proc(InWrite(id, rest[n..]), false))
  }

  function WriteCall(s: Sys, pid: int, id: int, data: seq<byte>): Sys {
    if !Get(s, id) || s.socks[id].state != Connected then s else Write(s, pid, id, data)
  }

  predicate PeerLive(s: Sys, id: int)
    requires 0 <= id < |s.socks|
  {
    var p := s.socks[id].peer;
    Get(s, p) && s.socks[p].state != Closed
  }

  /** `read`, from its start (once found connected or closed) or from where it waits. */
  function Read(s: Sys, pid: int, id: int, want: nat): Sys {
    if !Get(s, id) then Return(s, pid)
    else if s.socks[id].rx == [] then
      if !PeerLive(s, id) then Return(s, pid)
      else SetProc(SetSock(s, id, s.socks[id].(reader := pid)), pid, Proc(InRead(id, want), true))
    else Return(Take(s, id, want), pid)
  }

  function ReadCall(s: Sys, pid: int, id: int, want: nat): Sys {
    if !Get(s, id) || (s.socks[id].state != Connected && s.socks[id].state != Closed) then s else Read(s, pid, id, want)
  }

  function SendTo(s: Sys, id: int, data: seq<byte>, path: string): Sys {
    if !Get(s, id) || s.socks[id].kind != SOCK_DGRAM then s else
      var d := FindBound(s.socks, path, |s.socks|);
      if d < 0 || |data| + |s.socks[d].rx| > BUF_SIZE then s else WakeReader(Put(s, d, data), d)
  }

  function Recv(s: Sys, pid: int, id: int, want: nat): Sys {
    if !Get(s, id) then Return(s, pid)
    else if s.socks[id].rx == [] then
      SetProc(SetSock(s, id, s.socks[id].(reader := pid)), pid, Proc(InRecv(id, want), true))
    else Return(Take(s, id, want), pid)
  }

  function RecvCall(s: Sys, pid: int, id: int, want: nat): Sys {
    if !Get(s, id) || s.socks[id].kind != SOCK_DGRAM then s else Recv(s, pid, id, want)
  }

  /** A woken process goes on from its point. */
  function Resume(s: Sys, pid: int): Sys {
    if pid !in s.procs then s else
      match s.procs[pid].at
      case Running => s
      case InAccept(id) => Accept(s, pid, id)
      case InConnect(_) => Return(s, pid)
      case InRead(id, want) => Read(s, pid, id, want)
      case InWrite(id, rest) => Write(s, pid, id, rest)
      case InRecv(id, want) => Recv(s, pid, id, want)
  }

  datatype Op =
    | DoSpawn(pid: int) | DoExit(pid: int)
    | DoCreate(pid: int, kind: int) | DoDestroy(pid: int, id: int)
    | DoBind(pid: int, id: int, path: string) | DoListen(pid: int, id: int)
    | DoAccept(pid: int, id: int) | DoConnect(pid: int, id: int, path: string)
    | DoWrite(pid: int, id: int, data: seq<byte>) | DoRead(pid: int, id: int, want: nat)
    | DoSendTo(pid: int, id: int, data: seq<byte>, path: string) | DoRecv(pid: int, id: int, want: nat)
    | DoResume(pid: int)

  /** A socket in use is only used by the process that got it. */
  predicate Mine(s: Sys, pid: int, id: int) { Get(s, id) ==> s.socks[id].owner == pid }

  predicate Idle(s: Sys, pid: int) { pid in s.procs && s.procs[pid] == Proc(Running, false) }

  predicate Enabled(s: Sys, op: Op) {
    match op
    case DoSpawn(pid) => pid > 0 && pid !in s.procs
    case DoExit(pid) => Idle(s, pid)
    case DoCreate(pid, _) => Idle(s, pid)
    case DoDestroy(pid, id) => Idle(s, pid) && Mine(s, pid, id)
    case DoBind(pid, id, _) => Idle(s, pid) && Mine(s, pid, id)
    case DoListen(pid, id) => Idle(s, pid) && Mine(s, pid, id)
    case DoAccept(pid, id) => Idle(s, pid) && Mine(s, pid, id)
    case DoConnect(pid, id, _) => Idle(s, pid) && Mine(s, pid, id)
    case DoWrite(pid, id, _) => Idle(s, pid) && Mine(s, pid, id)
    case DoRead(pid, id, _) => Idle(s, pid) && Mine(s, pid, id)
    case DoSendTo(pid, id, _, _) => Idle(s, pid) && Mine(s, pid, id)
    case DoRecv(pid, id, _) => Idle(s, pid) && Mine(s, pid, id)
    case DoResume(pid) => pid in s.procs && !s.procs[pid].blocked && s.procs[pid].at != Running
  }

  function Apply(s: Sys, op: Op): Sys {
    match op
    case DoSpawn(pid) => SetProc(s, pid, Proc(Running, false))
    case DoExit(pid) => s.(procs := s.procs - {pid})
    case DoCreate(pid, kind) => Create(s, pid, kind)
    case DoDestroy(_, id) => Destroy(s, id)
    case DoBind(_, id, path) => Bind(s, id, path)
    case DoListen(_, id) => Listen(s, id)
    case DoAccept(pid, id) => Accept(s, pid, id)
    case DoConnect(pid, id, path) => Connect(s, pid, id, path)
    case DoWrite(pid, id, data) => WriteCall(s, pid, id, data)
    case DoRead(pid, id, want) => ReadCall(s, pid, id, want)
    case DoSendTo(_, id, data, path) => SendTo(s, id, data, path)
    case DoRecv(pid, id, want) => RecvCall(s, pid, id, want)
    case DoResume(pid) => Resume(s, pid)
  }
}
