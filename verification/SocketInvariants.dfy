/** What holds of the sockets in every reachable state. */
module SocketInvariants {
  import opened Bytes
  import opened UnixSockets

  ghost predicate Sizes(s: Sys) {
    |s.socks| == MAX_SOCKETS && |s.hist| == MAX_SOCKETS && forall i :: 0 <= i < |s.socks| ==>
      |s.socks[i].rx| <= BUF_SIZE
  }

  /** Peer links are mutual, between two distinct connected sockets. */
  ghost predicate Peers(s: Sys) {
    forall i :: 0 <= i < |s.socks| && s.socks[i].inUse ==>
      && (s.socks[i].state == Connected <==> s.socks[i].peer >= 0)
      && (s.socks[i].peer >= 0 ==>
        Get(s, s.socks[i].peer) && s.socks[i].peer != i && s.socks[s.socks[i].peer].peer == i)
  }

  /** An entry names a client that exists, is not connected, and is blocked in connect. */
  ghost predicate Waits(s: Sys, e: Pending) {
    && Get(s, e.sock) && (s.socks[e.sock].state == Created || s.socks[e.sock].state == Bound)
    && s.socks[e.sock].kind == SOCK_STREAM && s.socks[e.sock].owner == e.pid
    && e.pid in s.procs && s.procs[e.pid] == Proc(InConnect(e.sock), true)
  }

  predicate At(s: Sys, i: int, a: int) { 0 <= i < |s.socks| && 0 <= a < |s.socks[i].backlog| }

  /** Only listeners have backlogs, within bounds, of waiting clients, none of them twice. */
  ghost predicate Backlogs(s: Sys) {
    && (forall i :: 0 <= i < |s.socks| && s.socks[i].backlog != [] ==>
          s.socks[i].inUse && s.socks[i].state == Listening && |s.socks[i].backlog| <= BACKLOG_MAX)
    && (forall i, a :: At(s, i, a) ==> Waits(s, s.socks[i].backlog[a]))
    && (forall i, a, j, b :: At(s, i, a) && At(s, j, b) && s.socks[i].backlog[a].sock == s.socks[j].backlog[b].sock ==>
      i == j && a == b)
  }

  ghost predicate Queued(s: Sys, e: Pending) { exists i, a :: At(s, i, a) && s.socks[i].backlog[a] == e }

  /** A blocked process has something to wait for, and will be told. */
  ghost predicate Justified(s: Sys, pid: int, p: Point) {
    match p
    case Running => false
    case InWrite(_, _) => false
    case InAccept(id) => Get(s, id) && s.socks[id].state == Listening && s.socks[id].backlog == []
      && s.socks[id].reader == pid
    case InConnect(id) => Queued(s, Pending(id, pid))
    case InRead(id, _) => Get(s, id) && s.socks[id].rx == [] && PeerLive(s, id) && s.socks[id].reader == pid
    case InRecv(id, _) => Get(s, id) && s.socks[id].rx == [] && s.socks[id].reader == pid
  }

  ghost predicate NoLostWakeup(s: Sys) {
    forall pid :: pid in s.procs && s.procs[pid].blocked ==> Justified(s, pid, s.procs[pid].at)
  }

  predicate ReadsAt(p: Point, i: int) {
    match p
    case InAccept(id) => id == i
    case InRead(id, _) => id == i
    case InRecv(id, _) => id == i
    case _ => false
  }

  /** A registered reader is really blocked on that socket. */
  ghost predicate Readers(s: Sys) {
    forall i :: 0 <= i < |s.socks| && s.socks[i].inUse && s.socks[i].reader >= 0 ==>
      s.socks[i].reader in s.procs && s.procs[s.socks[i].reader].blocked && ReadsAt(s.procs[s.socks[i].reader].at, i)
  }

  /** A process inside a call is the owner of the socket it called on. */
  ghost predicate Owners(s: Sys) {
    forall pid :: pid in s.procs ==>
      && pid > 0
      && (s.procs[pid].at != Running ==> Get(s, s.procs[pid].at.id) && s.socks[s.procs[pid].at.id].owner == pid)
  }

  /** At most one bound or listening socket holds a path. */
  ghost predicate PathsUnique(s: Sys) {
    forall i, j, path :: 0 <= i < j < |s.socks| && HoldsBound(s.socks[i], path) ==> !HoldsBound(s.socks[j], path)
  }

  /** Bytes read, then bytes queued, are the bytes put in; a connected socket got its peer's, in order. */
  ghost predicate Streams(s: Sys) {
    |s.hist| == |s.socks| && forall i :: 0 <= i < |s.socks| && s.socks[i].inUse ==>
      && s.hist[i].got + s.socks[i].rx == s.hist[i].put
      && (s.socks[i].state == Created || s.socks[i].state == Bound || s.socks[i].state == Listening ==>
        s.hist[i].sent == [])
      && (s.socks[i].state == Connected && 0 <= s.socks[i].peer < |s.hist| ==>
            s.hist[i].put == s.hist[i].early + s.hist[s.socks[i].peer].sent)
  }

  ghost predicate Inv(s: Sys) {
    && Sizes(s) && Peers(s) && Backlogs(s) && NoLostWakeup(s) && Readers(s) && Owners(s) && Streams(s)
  }

  // ---------------------------------------------------------------- consequences

  /** No process other than the owner is, or is registered, at a socket. */
  lemma FreeOwner(s: Sys, pid: int, id: int)
    requires Inv(s) && pid in s.procs && !s.procs[pid].blocked && Get(s, id) && s.socks[id].owner == pid
    ensures s.socks[id].reader < 0
    ensures forall i, a :: At(s, i, a) ==> s.socks[i].backlog[a].sock != id && s.socks[i].backlog[a].pid != pid
    ensures forall q :: q in s.procs && s.procs[q].blocked && s.procs[q].at != Running ==> s.procs[q].at.id != id
  {
    hide Peers, Streams, NoLostWakeup;
  }

  // ---------------------------------------------------------------- steps that leave the links alone

  ghost predicate SameLink(k: Sock, l: Sock) {
    l.inUse == k.inUse && l.state == k.state && l.peer == k.peer && l.kind == k.kind && l.owner == k.owner
      && l.backlog == k.backlog
  }

  ghost predicate SameLinks(s: Sys, t: Sys) {
    |t.socks| == |s.socks| && forall i :: 0 <= i < |s.socks| ==> SameLink(s.socks[i], t.socks[i])
  }

  /** Clients blocked in connect are not touched. */
  ghost predicate SameClients(s: Sys, t: Sys) {
    forall pid :: pid in s.procs && s.procs[pid].blocked && s.procs[pid].at.InConnect? ==>
      pid in t.procs && t.procs[pid] == s.procs[pid]
  }

  lemma LinksPeers(s: Sys, t: Sys)
    requires Peers(s) && SameLinks(s, t)
    ensures Peers(t)
  {
  }

  lemma LinksWaits(s: Sys, t: Sys, e: Pending)
    requires SameLinks(s, t) && SameClients(s, t) && Waits(s, e)
    ensures Waits(t, e)
  {
  }

  lemma LinksBacklogs(s: Sys, t: Sys)
    requires Backlogs(s) && SameLinks(s, t) && SameClients(s, t)
    ensures Backlogs(t)
  {
    hide Waits, SameClients;
    assert forall i :: 0 <= i < |s.socks| ==> SameLink(s.socks[i], t.socks[i]);
    forall i, a | At(t, i, a) ensures Waits(t, t.socks[i].backlog[a]) {
      assert At(s, i, a);
      LinksWaits(s, t, s.socks[i].backlog[a]);
    }
  }

  /** One process and the ring and reader of one socket change; everything else stays. */
  ghost predicate Local(s: Sys, t: Sys, id: int, pid: int) {
    && SameLinks(s, t) && SameClients(s, t)
    && (forall i :: 0 <= i < |s.socks| && i != id ==>
      t.socks[i].rx == s.socks[i].rx && t.socks[i].reader == s.socks[i].reader)
    && (forall q :: q != pid ==> (q in t.procs <==> q in s.procs) && (q in s.procs ==> t.procs[q] == s.procs[q]))
  }

  ghost predicate SameRing(s: Sys, t: Sys, id: int) {
    Get(s, id) && |t.socks| == |s.socks| && t.socks[id].rx == s.socks[id].rx && t.socks[id].reader == s.socks[id].reader
  }

  /** No process but `pid` is blocked on reading, receiving or accepting at the socket. */
  ghost predicate Vacant(s: Sys, id: int, pid: int) {
    forall q :: q in s.procs && q != pid && s.procs[q].blocked && s.procs[q].at != Running ==>
      s.procs[q].at.InConnect? || s.procs[q].at.id != id
  }

  /** Blocked processes other than `pid` wait on other sockets, for what they waited for. */
  lemma LocalJustified(s: Sys, t: Sys, id: int, pid: int)
    requires NoLostWakeup(s) && Owners(s) && Local(s, t, id, pid)
    requires SameRing(s, t, id) || Vacant(s, id, pid)
    requires pid in t.procs && t.procs[pid].blocked ==> Justified(t, pid, t.procs[pid].at)
    ensures NoLostWakeup(t)
  {
  }

  /** With no reader registered at a socket, no process is blocked on it. */
  lemma NoReader(s: Sys, id: int, pid: int)
    requires NoLostWakeup(s) && (Get(s, id) ==> s.socks[id].reader < 0 || s.socks[id].reader == pid) && Owners(s)
    ensures Vacant(s, id, pid)
  {
  }

  lemma StreamsSame(s: Sys, t: Sys)
    requires Streams(s) && SameLinks(s, t) && t.hist == s.hist && forall i :: 0 <= i < |s.socks| ==>
      t.socks[i].rx == s.socks[i].rx
    ensures Streams(t)
  {
  }

  lemma LocalKeeps(s: Sys, t: Sys, id: int, pid: int)
    requires Inv(s) && Local(s, t, id, pid) && Sizes(t) && Streams(t) && Owners(t) && Readers(t)
    requires SameRing(s, t, id) || Vacant(s, id, pid)
    requires pid in t.procs && t.procs[pid].blocked ==> Justified(t, pid, t.procs[pid].at)
    ensures Inv(t)
  {
    hide Peers, Backlogs, Streams, NoLostWakeup, Owners, Readers, Justified;
    LinksPeers(s, t);
    LinksBacklogs(s, t);
    LocalJustified(s, t, id, pid);
  }

  // ---------------------------------------------------------------- local steps

  lemma WakeIs(s: Sys, id: int)
    requires Readers(s) && Get(s, id)
    ensures var t, r := WakeReader(s, id), s.socks[id].reader;
      if r < 0 then t == s else
        && r in s.procs && s.procs[r].blocked && ReadsAt(s.procs[r].at, id)
        && t.procs == s.procs[r := s.procs[r].(blocked := false)]
        && t.socks == s.socks[id := s.socks[id].(reader := -1)] && t.hist == s.hist
  {
  }

  lemma WakeKeeps(s: Sys, id: int)
    requires Inv(s) && Get(s, id)
    ensures Inv(WakeReader(s, id)) && WakeReader(s, id).socks[id].reader < 0
  {
    hide WakeReader, Peers, Backlogs, Streams, NoLostWakeup;
    var t := WakeReader(s, id);
    var r := s.socks[id].reader;
    WakeIs(s, id);
    if r >= 0 {
      NoReader(s, id, r);
      StreamsSame(s, t);
      LocalKeeps(s, t, id, r);
    }
  }

  /** A process that is not blocked goes back to running. */
  lemma ReturnKeeps(s: Sys, pid: int)
    requires Inv(s) && pid in s.procs && !s.procs[pid].blocked
    ensures Inv(Return(s, pid))
  {
    hide Peers, Backlogs, Streams, NoLostWakeup;
    var t := Return(s, pid);
    NoReader(s, -1, pid);
    StreamsSame(s, t);
    LocalKeeps(s, t, -1, pid);
  }

  /** A process starts to wait on its socket, registered as its reader, for a reason it has. */
  lemma BlockKeeps(s: Sys, pid: int, id: int, p: Point)
    requires Inv(s) && pid in s.procs && !s.procs[pid].blocked && Get(s, id) && s.socks[id].owner == pid
      && ReadsAt(p, id)
    requires Justified(SetSock(s, id, s.socks[id].(reader := pid)), pid, p)
    ensures Inv(SetProc(SetSock(s, id, s.socks[id].(reader := pid)), pid, Proc(p, true)))
  {
    hide Peers, Backlogs, Streams, NoLostWakeup, Queued;
    var t := SetProc(SetSock(s, id, s.socks[id].(reader := pid)), pid, Proc(p, true));
    FreeOwner(s, pid, id);
    NoReader(s, id, pid);
    assert SameLinks(s, t);
    StreamsSame(s, t);
    LocalKeeps(s, t, id, pid);
  }

  lemma TakeKeeps(s: Sys, pid: int, id: int, want: nat)
    requires Inv(s) && pid in s.procs && !s.procs[pid].blocked && Get(s, id) && s.socks[id].owner == pid
    ensures Inv(Take(s, id, want))
  {
    hide Peers, Backlogs, Streams, NoLostWakeup;
    var t := Take(s, id, want);
    FreeOwner(s, pid, id);
    TakeStreams(s, id, want);
    NoReader(s, id, pid);
    LocalKeeps(s, t, id, pid);
  }

  lemma TakeStreams(s: Sys, id: int, want: nat)
    requires Streams(s) && Get(s, id)
    ensures Streams(Take(s, id, want))
  {
  }

  /** Bytes are put into a socket that is not connected. */
  lemma PutKeeps(s: Sys, id: int, data: seq<byte>)
    requires Inv(s) && Get(s, id) && s.socks[id].reader < 0 && s.socks[id].state != Connected
    requires |s.socks[id].rx| + |data| <= BUF_SIZE
    ensures Inv(Put(s, id, data))
  {
    hide Peers, Backlogs, Streams, NoLostWakeup;
    var t := Put(s, id, data);
    PutStreams(s, id, data);
    NoReader(s, id, 0);
    assert 0 !in s.procs;
    LocalKeeps(s, t, id, 0);
  }

  lemma PutStreams(s: Sys, id: int, data: seq<byte>)
    requires Streams(s) && Peers(s) && Get(s, id) && s.socks[id].state != Connected
    ensures Streams(Put(s, id, data))
  {
  }

  lemma SendKeeps(s: Sys, id: int, data: seq<byte>)
    requires Inv(s) && Get(s, id) && s.socks[id].peer >= 0 && s.socks[s.socks[id].peer].reader < 0
    requires |s.socks[s.socks[id].peer].rx| + |data| <= BUF_SIZE
    ensures Inv(Send(s, id, s.socks[id].peer, data))
  {
    hide Peers, Backlogs, Streams, NoLostWakeup;
    var p := s.socks[id].peer;
    PeerFacts(s, id);
    var t := Send(s, id, p, data);
    SendStreams(s, id, data);
    NoReader(s, p, 0);
    assert 0 !in s.procs;
    LocalKeeps(s, t, p, 0);
  }

  lemma PeerFacts(s: Sys, id: int)
    requires Peers(s) && Get(s, id) && s.socks[id].peer >= 0
    ensures var p := s.socks[id].peer;
      && p != id && Get(s, p) && s.socks[p].peer == id
      && s.socks[id].state == Connected && s.socks[p].state == Connected
  {
  }

  lemma SendStreams(s: Sys, id: int, data: seq<byte>)
    requires Peers(s) && Streams(s) && Get(s, id) && s.socks[id].peer >= 0
    ensures Streams(Send(s, id, s.socks[id].peer, data))
  {
    hide Peers, Streams, Put;
    var p := s.socks[id].peer;
    PeerFacts(s, id);
    StreamsSize(s);
    PutIs(s, p, data);
    SentStreams(s, Send(s, id, p, data), id, p, data);
  }

  lemma StreamsSize(s: Sys)
    requires Streams(s)
    ensures |s.hist| == |s.socks|
  {
  }

  lemma PutIs(s: Sys, p: int, data: seq<byte>)
    requires 0 <= p < |s.socks| && p < |s.hist|
    ensures Put(s, p, data) == s.(socks := s.socks[p := s.socks[p].(rx := s.socks[p].rx + data)],
      hist := s.hist[p := s.hist[p].(put := s.hist[p].put + data)])
  {
  }

  lemma SentStreams(s: Sys, t: Sys, id: int, p: int, data: seq<byte>)
    requires Peers(s) && Streams(s) && Get(s, id) && Get(s, p) && p != id && s.socks[id].peer == p
      && s.socks[p].peer == id
    requires s.socks[id].state == Connected && s.socks[p].state == Connected
    requires t.socks == s.socks[p := s.socks[p].(rx := s.socks[p].rx + data)]
    requires t.hist ==
      s.hist[p := s.hist[p].(put := s.hist[p].put + data)][id := s.hist[id].(sent := s.hist[id].sent + data)]
    ensures Streams(t)
  {
    assert s.hist[p].got + (s.socks[p].rx + data) == s.hist[p].put + data;
    assert s.hist[p].early + (s.hist[id].sent + data) == s.hist[p].put + data;
  }

  // ---------------------------------------------------------------- steps on the links

  /** Nobody waits on a free slot or is queued with it. */
  lemma FreeSlot(s: Sys, i: int)
    requires Inv(s) && 0 <= i < |s.socks| && !s.socks[i].inUse
    ensures s.socks[i].backlog == []
    ensures forall j, a :: At(s, j, a) ==> s.socks[j].backlog[a].sock != i
    ensures forall q :: q in s.procs && s.procs[q].at != Running ==> s.procs[q].at.id != i
    ensures forall j :: 0 <= j < |s.socks| && s.socks[j].inUse ==> s.socks[j].peer != i
  {
    hide Streams, NoLostWakeup, Readers;
  }

  /** Exactly socket `id` was replaced, and nobody blocked elsewhere depends on it. */
  ghost predicate Replaced(s: Sys, t: Sys, id: int, k: Sock) {
    && 0 <= id < |s.socks| && t.socks == s.socks[id := k] && t.procs == s.procs
    && k.backlog == s.socks[id].backlog
    && (forall q :: q in s.procs && s.procs[q].blocked && !s.procs[q].at.Running? ==> s.procs[q].at.id != id)
    && (forall j :: 0 <= j < |s.socks| && s.socks[j].inUse && j != id ==> s.socks[j].peer != id)
  }

  lemma ReplacedNoLost(s: Sys, t: Sys, id: int, k: Sock)
    requires NoLostWakeup(s) && Replaced(s, t, id, k)
    ensures NoLostWakeup(t)
  {
    hide Queued;
    forall q | q in t.procs && t.procs[q].blocked ensures Justified(t, q, t.procs[q].at) {
      assert Justified(s, q, s.procs[q].at);
      if s.procs[q].at.InConnect? {
        var e := Pending(s.procs[q].at.id, q);
        assert Queued(t, e) by {
          assert forall i :: 0 <= i < |s.socks| ==> t.socks[i].backlog == s.socks[i].backlog;
          SameQueued(s, t, e);
        }
      }
    }
  }

  lemma SameQueued(s: Sys, t: Sys, e: Pending)
    requires |t.socks| == |s.socks| && Queued(s, e)
    requires forall i :: 0 <= i < |s.socks| ==> t.socks[i].backlog == s.socks[i].backlog
    ensures Queued(t, e)
  {
  }

  lemma CreateKeeps(s: Sys, pid: int, kind: int)
    requires Inv(s)
    ensures Inv(Create(s, pid, kind))
  {
    var i := FirstFree(s.socks, |s.socks|);
    if (kind == SOCK_STREAM || kind == SOCK_DGRAM) && i >= 0 {
      NewSockKeeps(s, i, kind, pid);
    }
  }

  lemma NewSockKeeps(s: Sys, i: int, kind: int, pid: int)
    requires Inv(s) && 0 <= i < |s.socks| && !s.socks[i].inUse
    ensures Inv(SetHist(SetSock(s, i, Fresh(Created, kind, "", -1, pid)), i, NewHist))
  {
    hide Peers, Backlogs, NoLostWakeup, Readers, Owners, Streams;
    var k := Fresh(Created, kind, "", -1, pid);
    var t := SetHist(SetSock(s, i, k), i, NewHist);
    FreeSlot(s, i);
    ReplacedNoLost(s, t, i, k);
    ReplacedPeers(s, t, i, k);
    ReplacedStreams(s, t, i, k);
    ReplacedBacklogs(s, t, i, k);
    ReplacedReaders(s, t, i, k);
  }

  /** A socket that is not connected takes the slot: peers, streams, backlogs and readers are as they were. */
  lemma ReplacedPeers(s: Sys, t: Sys, id: int, k: Sock)
    requires Peers(s) && Replaced(s, t, id, k) && k.state != Connected && k.peer < 0
    ensures Peers(t)
  {
  }

  lemma ReplacedStreams(s: Sys, t: Sys, id: int, k: Sock)
    requires Streams(s) && Replaced(s, t, id, k) && k.state != Connected
    requires |t.hist| == |s.hist| && forall j :: 0 <= j < |s.hist| && j != id ==> t.hist[j] == s.hist[j]
    requires t.hist[id].got + k.rx == t.hist[id].put && t.hist[id].sent == []
    ensures Streams(t)
  {
  }

  lemma ReplacedBacklogs(s: Sys, t: Sys, id: int, k: Sock)
    requires Backlogs(s) && Replaced(s, t, id, k) && k.backlog == []
    requires forall j, a :: At(s, j, a) ==> s.socks[j].backlog[a].sock != id
    ensures Backlogs(t)
  {
    forall j, a | At(t, j, a) ensures At(s, j, a) && j != id && Waits(t, t.socks[j].backlog[a]) {
      assert At(s, j, a);
      assert Waits(s, s.socks[j].backlog[a]);
    }
    hide Waits;
  }

  lemma ReplacedReaders(s: Sys, t: Sys, id: int, k: Sock)
    requires Readers(s) && Owners(s) && Replaced(s, t, id, k) && k.reader < 0 && k.inUse
    requires s.socks[id].inUse ==> k.owner == s.socks[id].owner
    ensures Readers(t) && Owners(t)
  {
  }

  /** A socket whose owner is outside any call moves on towards listening. */
  lemma PromoteKeeps(s: Sys, pid: int, id: int, path: string, state: State)
    requires Inv(s) && Idle(s, pid) && Get(s, id) && s.socks[id].owner == pid
    requires (s.socks[id].state == Created && state == Bound) || (s.socks[id].state == Bound && state == Listening)
    ensures Inv(SetSock(s, id, s.socks[id].(path := path, state := state)))
  {
    hide Peers, Backlogs, NoLostWakeup, Readers, Owners, Streams;
    var k := s.socks[id].(path := path, state := state);
    var t := SetSock(s, id, k);
    FreeOwner(s, pid, id);
    NotPeer(s, id);
    QuietSock(s, id);
    ReplacedNoLost(s, t, id, k);
    ReplacedPeers(s, t, id, k);
    ReplacedStreams(s, t, id, k);
    ReplacedBacklogs(s, t, id, k);
    ReplacedReaders(s, t, id, k);
  }

  /** A socket on its way to listening has no peer and no backlog, and has sent nothing. */
  lemma QuietSock(s: Sys, id: int)
    requires Peers(s) && Streams(s) && Backlogs(s) && Get(s, id)
      && (s.socks[id].state == Created || s.socks[id].state == Bound)
    ensures s.socks[id].peer < 0 && s.socks[id].backlog == [] && s.hist[id].sent == []
      && s.hist[id].got + s.socks[id].rx == s.hist[id].put
  {
    hide Waits;
  }

  /** A socket that is not connected is nobody's peer. */
  lemma NotPeer(s: Sys, id: int)
    requires Peers(s) && Get(s, id) && s.socks[id].state != Connected
    ensures forall j :: 0 <= j < |s.socks| && s.socks[j].inUse ==> s.socks[j].peer != id
  {
  }

  /** A client joins a listener's backlog and blocks. */
  function Enqueue(s: Sys, pid: int, id: int, l: int): Sys
    requires 0 <= l < |s.socks|
  {
    SetProc(SetSock(s, l, s.socks[l].(backlog := s.socks[l].backlog + [Pending(id, pid)])), pid,
      Proc(InConnect(id), true))
  }

  ghost predicate CanEnqueue(s: Sys, pid: int, id: int, l: int) {
    && pid in s.procs && !s.procs[pid].blocked && Get(s, id) && s.socks[id].owner == pid
    && (s.socks[id].state == Created || s.socks[id].state == Bound) && s.socks[id].kind == SOCK_STREAM
    && Get(s, l) && s.socks[l].state == Listening && |s.socks[l].backlog| < BACKLOG_MAX && s.socks[l].reader < 0
  }

  lemma EnqueueBacklogs(s: Sys, pid: int, id: int, l: int)
    requires Backlogs(s) && CanEnqueue(s, pid, id, l)
    requires forall i, a :: At(s, i, a) ==> s.socks[i].backlog[a].sock != id && s.socks[i].backlog[a].pid != pid
    ensures Backlogs(Enqueue(s, pid, id, l))
  {
    hide Waits;
    var t := Enqueue(s, pid, id, l);
    assert forall i, a :: At(t, i, a) ==> At(s, i, a) || (i == l && a == |s.socks[l].backlog|);
    forall i, a | At(t, i, a) ensures Waits(t, t.socks[i].backlog[a]) {
      EnqueueWaits(s, pid, id, l, t.socks[i].backlog[a]);
    }
  }

  lemma EnqueueWaits(s: Sys, pid: int, id: int, l: int, e: Pending)
    requires CanEnqueue(s, pid, id, l) && (e == Pending(id, pid) || (Waits(s, e) && e.pid != pid))
    ensures Waits(Enqueue(s, pid, id, l), e)
  {
  }

  lemma EnqueueNoLost(s: Sys, pid: int, id: int, l: int)
    requires NoLostWakeup(s) && Owners(s) && CanEnqueue(s, pid, id, l) && Vacant(s, l, pid)
    ensures NoLostWakeup(Enqueue(s, pid, id, l))
  {
    var t := Enqueue(s, pid, id, l);
    hide Queued;
    forall q | q in t.procs && t.procs[q].blocked ensures Justified(t, q, t.procs[q].at) {
      if q == pid {
        NowQueued(t, l, |s.socks[l].backlog|, Pending(id, pid));
      } else {
        assert Justified(s, q, s.procs[q].at);
        if s.procs[q].at.InConnect? {
          MoreQueued(s, t, l, Pending(s.procs[q].at.id, q));
        }
      }
    }
  }

  lemma EnqueueKeeps(s: Sys, pid: int, id: int, l: int)
    requires Inv(s) && CanEnqueue(s, pid, id, l)
    ensures Inv(Enqueue(s, pid, id, l))
  {
    hide Peers, Backlogs, NoLostWakeup, Readers, Owners, Streams;
    FreeOwner(s, pid, id);
    NoReader(s, l, pid);
    EnqueueBacklogs(s, pid, id, l);
    EnqueueNoLost(s, pid, id, l);
    QueuePeers(s, Enqueue(s, pid, id, l), l);
    EnqueueReaders(s, pid, id, l);
  }

  lemma EnqueueReaders(s: Sys, pid: int, id: int, l: int)
    requires Readers(s) && Owners(s) && CanEnqueue(s, pid, id, l)
    ensures Readers(Enqueue(s, pid, id, l)) && Owners(Enqueue(s, pid, id, l))
  {
  }

  /** A backlog changes; peers and streams do not. */
  lemma QueuePeers(s: Sys, t: Sys, l: int)
    requires Peers(s) && Streams(s) && 0 <= l < |s.socks| == |t.socks| && t.hist == s.hist
    requires t.socks == s.socks[l := s.socks[l].(backlog := t.socks[l].backlog)]
    ensures Peers(t) && Streams(t)
  {
  }

  lemma NowQueued(t: Sys, l: int, a: int, e: Pending)
    requires At(t, l, a) && t.socks[l].backlog[a] == e
    ensures Queued(t, e)
  {
  }

  lemma MoreQueued(s: Sys, t: Sys, l: int, e: Pending)
    requires |t.socks| == |s.socks| && 0 <= l < |s.socks| && Queued(s, e)
    requires forall i :: 0 <= i < |s.socks| ==> s.socks[i].backlog <= t.socks[i].backlog
    ensures Queued(t, e)
  {
  }

  /** The head of a listener's backlog is taken and its process woken. */
  function Dequeue(s: Sys, l: int): Sys
    requires 0 <= l < |s.socks| && s.socks[l].backlog != []
  {
    Unblock(SetSock(s, l, s.socks[l].(backlog := s.socks[l].backlog[1..])), s.socks[l].backlog[0].pid)
  }

  /** The head's process is the client of no other entry. */
  lemma HeadUnique(s: Sys, l: int, i: int, a: int)
    requires Backlogs(s) && At(s, l, 0) && At(s, i, a) && (i != l || a != 0)
    ensures s.socks[i].backlog[a].sock != s.socks[l].backlog[0].sock
      && s.socks[i].backlog[a].pid != s.socks[l].backlog[0].pid
  {
  }

  lemma DequeueBacklogs(s: Sys, l: int)
    requires Backlogs(s) && At(s, l, 0)
    ensures Backlogs(Dequeue(s, l))
    ensures forall i, a :: At(Dequeue(s, l), i, a) ==>
      Dequeue(s, l).socks[i].backlog[a].sock != s.socks[l].backlog[0].sock
  {
    var t := Dequeue(s, l);
    var e := s.socks[l].backlog[0];
    assert Waits(s, e);
    forall i, a | At(t, i, a)
      ensures Waits(t, t.socks[i].backlog[a]) && t.socks[i].backlog[a].sock != e.sock
      ensures At(s, i, if i == l then a + 1 else a)
        && t.socks[i].backlog[a] == s.socks[i].backlog[if i == l then a + 1 else a]
    {
      var b := if i == l then a + 1 else a;
      assert At(s, i, b);
      HeadUnique(s, l, i, b);
      assert Waits(s, s.socks[i].backlog[b]);
    }
    hide Waits;
  }

  lemma LessQueued(s: Sys, l: int, e: Pending)
    requires At(s, l, 0) && Queued(s, e) && e != s.socks[l].backlog[0]
    ensures Queued(Dequeue(s, l), e)
  {
    var t := Dequeue(s, l);
    var i, a :| At(s, i, a) && s.socks[i].backlog[a] == e;
    assert At(t, i, if i == l then a - 1 else a);
  }

  lemma DequeueNoLost(s: Sys, l: int)
    requires NoLostWakeup(s) && At(s, l, 0)
    ensures NoLostWakeup(Dequeue(s, l))
  {
    var t := Dequeue(s, l);
    hide Queued;
    forall q | q in t.procs && t.procs[q].blocked ensures Justified(t, q, t.procs[q].at) {
      assert Justified(s, q, s.procs[q].at);
      if s.procs[q].at.InConnect? {
        LessQueued(s, l, Pending(s.procs[q].at.id, q));
      }
    }
  }

  lemma DequeueKeeps(s: Sys, l: int)
    requires Inv(s) && At(s, l, 0)
    ensures Inv(Dequeue(s, l))
    ensures forall i, a :: At(Dequeue(s, l), i, a) ==>
      Dequeue(s, l).socks[i].backlog[a].sock != s.socks[l].backlog[0].sock
  {
    hide Peers, Backlogs, NoLostWakeup, Readers, Owners, Streams, Waits;
    DequeueBacklogs(s, l);
    DequeueNoLost(s, l);
    QueuePeers(s, Dequeue(s, l), l);
    DequeueReaders(s, l);
  }

  lemma DequeueReaders(s: Sys, l: int)
    requires Readers(s) && Owners(s) && Backlogs(s) && At(s, l, 0)
    ensures Readers(Dequeue(s, l)) && Owners(Dequeue(s, l))
  {
    assert Waits(s, s.socks[l].backlog[0]);
    hide Backlogs;
  }

  // ---------------------------------------------------------------- making and breaking connections

  /** Two sockets were replaced, that nobody blocked waits on and nobody else has as peer. */
  ghost predicate ReplacedTwo(s: Sys, t: Sys, i: int, j: int) {
    && 0 <= i < |s.socks| && 0 <= j < |s.socks| && |t.socks| == |s.socks| && t.procs == s.procs
    && (forall x :: 0 <= x < |s.socks| && x != i && x != j ==> t.socks[x] == s.socks[x])
    && t.socks[i].backlog == s.socks[i].backlog && t.socks[j].backlog == s.socks[j].backlog
    && (forall q :: q in s.procs && s.procs[q].blocked && !s.procs[q].at.Running? ==>
      s.procs[q].at.id != i && s.procs[q].at.id != j)
    && (forall x :: 0 <= x < |s.socks| && s.socks[x].inUse && x != i && x != j ==>
      s.socks[x].peer != i && s.socks[x].peer != j)
  }

  lemma ReplacedTwoNoLost(s: Sys, t: Sys, i: int, j: int)
    requires NoLostWakeup(s) && ReplacedTwo(s, t, i, j)
    ensures NoLostWakeup(t)
  {
  }

  ghost predicate CanPair(s: Sys, client: int, i: int) {
    && Get(s, client) && (s.socks[client].state == Created || s.socks[client].state == Bound)
    && 0 <= i < |s.socks| && !s.socks[i].inUse
    && (forall j, a :: At(s, j, a) ==> s.socks[j].backlog[a].sock != client)
    && (forall q :: q in s.procs && s.procs[q].blocked && !s.procs[q].at.Running? ==> s.procs[q].at.id != client)
  }

  lemma PairBacklogs(s: Sys, t: Sys, i: int, client: int)
    requires Backlogs(s) && ReplacedTwo(s, t, i, client) && t.socks[i].backlog == []
    requires forall j, a :: At(s, j, a) ==> s.socks[j].backlog[a].sock != client && s.socks[j].backlog[a].sock != i
    requires s.socks[client].state != Listening
    ensures Backlogs(t)
  {
    forall j, a | At(t, j, a) ensures At(s, j, a) && j != i && j != client && Waits(t, t.socks[j].backlog[a]) {
      assert At(s, j, a);
      assert Waits(s, s.socks[j].backlog[a]);
    }
    hide Waits;
  }

  lemma PairKeeps(s: Sys, id: int, client: int, i: int, pid: int)
    requires Inv(s) && 0 <= id < |s.socks| && CanPair(s, client, i)
    ensures Inv(Pair(s, id, client, i, pid))
  {
    hide Peers, Backlogs, NoLostWakeup, Readers, Owners, Streams;
    var t := Pair(s, id, client, i, pid);
    FreeSlot(s, i);
    NotPeer(s, client);
    PairReplaces(s, id, client, i, pid);
    ReplacedTwoNoLost(s, t, i, client);
    PairBacklogs(s, t, i, client);
    PairPeers(s, t, i, client);
    PairStreams(s, t, i, client);
    ReplacedTwoReaders(s, t, i, client);
  }

  /** The new connection and the client after pairing. */
  ghost predicate Paired(s: Sys, t: Sys, i: int, client: int) {
    && ReplacedTwo(s, t, i, client) && i != client && |t.hist| == |s.hist| == |s.socks|
    && t.socks[i].inUse && t.socks[i].state == Connected && t.socks[i].peer == client && t.socks[i].rx == []
      && t.socks[i].reader < 0
    && t.socks[client] == s.socks[client].(state := Connected, peer := i) && s.socks[client].inUse
    && t.hist[i] == NewHist && t.hist[client] == s.hist[client].(early := s.hist[client].put)
    && (forall x :: 0 <= x < |s.hist| && x != i && x != client ==> t.hist[x] == s.hist[x])
  }

  lemma PairReplaces(s: Sys, id: int, client: int, i: int, pid: int)
    requires Inv(s) && 0 <= id < |s.socks| && CanPair(s, client, i)
    ensures Paired(s, Pair(s, id, client, i, pid), i, client) && Pair(s, id, client, i, pid).socks[i].backlog == []
  {
    hide Peers, Backlogs, NoLostWakeup, Readers, Owners, Streams;
    FreeSlot(s, i);
    NotPeer(s, client);
  }

  lemma PairPeers(s: Sys, t: Sys, i: int, client: int)
    requires Peers(s) && Paired(s, t, i, client)
    ensures Peers(t)
  {
  }

  lemma PairStreams(s: Sys, t: Sys, i: int, client: int)
    requires Streams(s) && Paired(s, t, i, client)
      && (s.socks[client].state == Created || s.socks[client].state == Bound)
    ensures Streams(t)
  {
  }

  /** Nobody reads on the two sockets, or the reader stays. */
  lemma ReplacedTwoReaders(s: Sys, t: Sys, i: int, j: int)
    requires Readers(s) && Owners(s) && ReplacedTwo(s, t, i, j) && t.socks[i].reader < 0
    requires i != j ==>
      t.socks[j].reader == s.socks[j].reader && t.socks[j].inUse == s.socks[j].inUse
      && t.socks[j].owner == s.socks[j].owner
    requires forall q :: q in s.procs && s.procs[q].at != Running ==> s.procs[q].at.id != i
    ensures Readers(t) && Owners(t)
  {
  }

  /** A socket leaves the table; its peer, if it has one, is left closed and alone. */
  function Cut(s: Sys, id: int): Sys
    requires Get(s, id)
  {
    var p := s.socks[id].peer;
    var t := if Get(s, p) then SetSock(s, p, s.socks[p].(state := Closed, peer := -1)) else s;
    SetSock(t, id, t.socks[id].(peer := if p >= 0 then -1 else p, backlog := [], state := Closed, inUse := false))
  }

  /** The peer of a socket being cut, or the socket itself when it has none. */
  function Other(s: Sys, id: int): int
    requires Get(s, id)
  {
    if Get(s, s.socks[id].peer) then s.socks[id].peer else id
  }

  lemma CutReplaces(s: Sys, pid: int, id: int)
    requires Inv(s) && Idle(s, pid) && Get(s, id) && s.socks[id].owner == pid && s.socks[id].backlog == []
    requires Get(s, s.socks[id].peer) ==> s.socks[s.socks[id].peer].reader < 0
    ensures ReplacedTwo(s, Cut(s, id), id, Other(s, id)) && s.socks[Other(s, id)].backlog == []
    ensures forall i, a :: At(s, i, a) ==>
      s.socks[i].backlog[a].sock != id && s.socks[i].backlog[a].sock != Other(s, id)
  {
    var p, j := s.socks[id].peer, Other(s, id);
    FreeOwner(s, pid, id);
    NoReader(s, j, pid);
    NoneAt(s, pid, id);
    assert forall x :: 0 <= x < |s.socks| && s.socks[x].inUse && x != id && x != j ==>
      s.socks[x].peer != id && s.socks[x].peer != j by {
      hide Backlogs, NoLostWakeup, Readers, Owners, Streams;
    }
    if Get(s, p) {
      assert s.socks[p].state == Connected && s.socks[p].backlog == [];
      NotConnecting(s, p);
      forall i, a | At(s, i, a) ensures s.socks[i].backlog[a].sock != p {
        assert Waits(s, s.socks[i].backlog[a]);
      }
    }
  }

  lemma CutKeeps(s: Sys, pid: int, id: int)
    requires Inv(s) && Idle(s, pid) && Get(s, id) && s.socks[id].owner == pid && s.socks[id].backlog == []
    requires Get(s, s.socks[id].peer) ==> s.socks[s.socks[id].peer].reader < 0
    ensures Inv(Cut(s, id))
  {
    hide Peers, Backlogs, NoLostWakeup, Readers, Owners, Streams, ReplacedTwo;
    var t := Cut(s, id);
    CutReplaces(s, pid, id);
    FreeOwner(s, pid, id);
    NoneAt(s, pid, id);
    ReplacedTwoNoLost(s, t, id, Other(s, id));
    CutBacklogs(s, t, id, Other(s, id));
    CutPeers(s, id);
    CutStreams(s, id);
    ReplacedTwoReaders(s, t, id, Other(s, id));
  }

  lemma CutPeers(s: Sys, id: int)
    requires Peers(s) && Get(s, id)
    ensures Peers(Cut(s, id))
  {
  }

  lemma CutStreams(s: Sys, id: int)
    requires Streams(s) && Peers(s) && Get(s, id)
    ensures Streams(Cut(s, id))
  {
  }

  /** Nobody is in a call on a socket whose owner is outside any. */
  lemma NoneAt(s: Sys, pid: int, id: int)
    requires Owners(s) && Idle(s, pid) && Get(s, id) && s.socks[id].owner == pid
    ensures forall q :: q in s.procs && s.procs[q].at != Running ==> s.procs[q].at.id != id
  {
  }

  /** No process is blocked in connect with a socket that is connected. */
  lemma NotConnecting(s: Sys, j: int)
    requires NoLostWakeup(s) && Backlogs(s) && Get(s, j) && s.socks[j].state == Connected
    ensures forall q :: q in s.procs && s.procs[q].blocked && s.procs[q].at.InConnect? ==> s.procs[q].at.id != j
  {
  }

  lemma CutBacklogs(s: Sys, t: Sys, id: int, j: int)
    requires Backlogs(s) && ReplacedTwo(s, t, id, j) && s.socks[id].backlog == [] && s.socks[j].backlog == []
    requires forall i, a :: At(s, i, a) ==> s.socks[i].backlog[a].sock != id && s.socks[i].backlog[a].sock != j
    ensures Backlogs(t)
  {
    forall i, a | At(t, i, a) ensures At(s, i, a) && i != id && i != j && Waits(t, t.socks[i].backlog[a]) {
      assert At(s, i, a);
      assert Waits(s, s.socks[i].backlog[a]);
    }
    hide Waits;
  }

  lemma SpawnKeeps(s: Sys, pid: int)
    requires Inv(s) && pid > 0 && pid !in s.procs
    ensures Inv(SetProc(s, pid, Proc(Running, false)))
  {
    hide Peers, Backlogs, Streams, NoLostWakeup;
    var t := SetProc(s, pid, Proc(Running, false));
    NoReader(s, -1, pid);
    StreamsSame(s, t);
    LocalKeeps(s, t, -1, pid);
  }

  lemma ExitKeeps(s: Sys, pid: int)
    requires Inv(s) && Idle(s, pid)
    ensures Inv(s.(procs := s.procs - {pid}))
  {
    hide Peers, Backlogs, Streams, NoLostWakeup;
    var t := s.(procs := s.procs - {pid});
    NoReader(s, -1, pid);
    StreamsSame(s, t);
    LocalKeeps(s, t, -1, pid);
  }

  // ---------------------------------------------------------------- the calls

  lemma AcceptKeeps(s: Sys, pid: int, id: int)
    requires Inv(s) && pid in s.procs && !s.procs[pid].blocked && Mine(s, pid, id)
    ensures Inv(Accept(s, pid, id))
  {
    if !Get(s, id) || s.socks[id].state != Listening {
      ReturnKeeps(s, pid);
    } else if s.socks[id].backlog == [] {
      BlockKeeps(s, pid, id, InAccept(id));
    } else {
      AcceptNext(s, pid, id);
    }
  }

  /** Taking the head, then pairing, then waking, is taking and waking, then pairing. */
  lemma AcceptNext(s: Sys, pid: int, id: int)
    requires Inv(s) && pid in s.procs && !s.procs[pid].blocked && Get(s, id) && s.socks[id].state == Listening
      && s.socks[id].backlog != []
    ensures Inv(Accept(s, pid, id))
  {
    var e := s.socks[id].backlog[0];
    assert At(s, id, 0) && Waits(s, e);
    assert e.pid != pid;
    var d := Dequeue(s, id);
    DequeueKeeps(s, id);
    var i := FirstFree(d.socks, |d.socks|);
    if i < 0 {
      ReturnKeeps(d, pid);
    } else {
      assert CanPair(d, e.sock, i) by { hide Peers, Streams, NoLostWakeup, Readers; }
      hide Inv;
      PairKeeps(d, id, e.sock, i, pid);
      var t := SetSock(s, id, s.socks[id].(backlog := s.socks[id].backlog[1..]));
      assert Pair(d, id, e.sock, i, pid) == Unblock(Pair(t, id, e.sock, i, pid), e.pid);
      assert Pair(d, id, e.sock, i, pid).procs == d.procs;
      ReturnKeeps(Pair(d, id, e.sock, i, pid), pid);
    }
  }

  lemma ConnectKeeps(s: Sys, pid: int, id: int, path: string)
    requires Inv(s) && Idle(s, pid) && Mine(s, pid, id)
    ensures Inv(Connect(s, pid, id, path))
  {
    hide Peers, Backlogs, NoLostWakeup, Readers, Owners, Streams, WakeReader, Enqueue;
    if Get(s, id) && (s.socks[id].state == Created || s.socks[id].state == Bound) && s.socks[id].kind == SOCK_STREAM {
      var l := FindListener(s.socks, path, |s.socks|);
      if l >= 0 && |s.socks[l].backlog| < BACKLOG_MAX {
        WakeKeeps(s, l);
        WakeSelf(s, l);
        WakeFrame(s, l, id, pid);
        WakeEnqueue(s, pid, id, l);
        EnqueueKeeps(WakeReader(s, l), pid, id, l);
      }
    }
  }

  lemma WakeEnqueue(s: Sys, pid: int, id: int, l: int)
    requires 0 <= l < |s.socks|
    ensures |WakeReader(s, l).socks| == |s.socks|
    ensures SetProc(WakeReader(SetSock(s, l, s.socks[l].(backlog := s.socks[l].backlog + [Pending(id, pid)])), l), pid,
      Proc(InConnect(id), true))
         == Enqueue(WakeReader(s, l), pid, id, l)
  {
  }

  /** Sending, then waking the reader, is waking it, then sending. */
  lemma DepositKeeps(s: Sys, pid: int, id: int, data: seq<byte>)
    requires Inv(s) && pid in s.procs && !s.procs[pid].blocked && Get(s, id) && s.socks[id].owner == pid
    requires Get(s, s.socks[id].peer) && |s.socks[s.socks[id].peer].rx| + |data| <= BUF_SIZE
    ensures var t := WakeReader(Send(s, id, s.socks[id].peer, data), s.socks[id].peer);
      Inv(t) && pid in t.procs && !t.procs[pid].blocked && Get(t, id) && t.socks[id].owner == pid
  {
    hide Peers, Backlogs, NoLostWakeup, Readers, Owners, Streams, WakeReader, Send;
    var p := s.socks[id].peer;
    PeerFacts(s, id);
    WakeKeeps(s, p);
    WakeFrame(s, p, id, pid);
    WakeSend(s, id, p, data);
    SendFrame(WakeReader(s, p), id, p, data);
    SendKeeps(WakeReader(s, p), id, data);
  }

  lemma WakeSend(s: Sys, id: int, p: int, data: seq<byte>)
    requires 0 <= p < |s.socks| && p != id
    ensures WakeReader(Send(s, id, p, data), p) == Send(WakeReader(s, p), id, p, data)
  {
    hide WakeReader, Put;
    WakePut(s, p, data);
    var t := Put(s, p, data);
    if 0 <= id < |t.hist| { WakeSetHist(t, p, id, t.hist[id].(sent := t.hist[id].sent + data)); }
    WakeHist(t, p);
  }

  lemma WakeHist(s: Sys, p: int)
    ensures WakeReader(s, p).hist == s.hist
  {
  }

  lemma WakeSetHist(s: Sys, p: int, id: int, h: Hist)
    ensures WakeReader(SetHist(s, id, h), p) == SetHist(WakeReader(s, p), id, h)
  {
  }

  /** A ring and a reader change in either order. */
  lemma WakePut(s: Sys, p: int, data: seq<byte>)
    ensures WakeReader(Put(s, p, data), p) == Put(WakeReader(s, p), p, data)
  {
    assert WakeReader(Put(s, p, data), p).socks == Put(WakeReader(s, p), p, data).socks;
  }

  /** What waking a reader leaves alone. */
  lemma WakeFrame(s: Sys, p: int, id: int, pid: int)
    requires 0 <= p < |s.socks| && p != id
    ensures var w := WakeReader(s, p);
      |w.socks| == |s.socks| && (0 <= id < |s.socks| ==> w.socks[id] == s.socks[id]) && w.socks[p].rx == s.socks[p].rx
      && (pid in s.procs ==> pid in w.procs && (!s.procs[pid].blocked ==> !w.procs[pid].blocked))
  {
  }

  lemma SendFrame(s: Sys, id: int, p: int, data: seq<byte>)
    requires p != id
    ensures var t := Send(s, id, p, data);
      && t.procs == s.procs && |t.socks| == |s.socks|
      && (0 <= id < |s.socks| ==> t.socks[id] == s.socks[id])
  {
  }

  lemma WriteKeeps(s: Sys, pid: int, id: int, rest: seq<byte>)
    requires Inv(s) && pid in s.procs && !s.procs[pid].blocked && Get(s, id) && s.socks[id].owner == pid
    ensures Inv(Write(s, pid, id, rest))
  {
    hide Peers, Backlogs, NoLostWakeup, Readers, Owners, Streams, Send, WakeReader;
    var p := s.socks[id].peer;
    if rest == [] || !Get(s, p) || s.socks[p].state == Closed {
      ReturnKeeps(s, pid);
    } else {
      var space := BUF_SIZE - |s.socks[p].rx|;
      var n := if |rest| < space then |rest| else space;
      var v := if n == 0 then s else WakeReader(Send(s, id, p, rest[..n]), p);
      if n > 0 {
        DepositKeeps(s, pid, id, rest[..n]);
      }
      PointKeeps(v, pid, id, if n == |rest| then Running else InWrite(id, rest[n..]));
    }
  }

  /** A process that is not blocked moves to a point of a call on its own socket. */
  lemma PointKeeps(s: Sys, pid: int, id: int, p: Point)
    requires Inv(s) && pid in s.procs && !s.procs[pid].blocked && Get(s, id) && s.socks[id].owner == pid
    requires p == Running || p.id == id
    ensures Inv(SetProc(s, pid, Proc(p, false)))
  {
    hide Peers, Backlogs, Streams, NoLostWakeup;
    var t := SetProc(s, pid, Proc(p, false));
    NoReader(s, -1, pid);
    StreamsSame(s, t);
    LocalKeeps(s, t, -1, pid);
  }

  lemma ReadKeeps(s: Sys, pid: int, id: int, want: nat)
    requires Inv(s) && pid in s.procs && !s.procs[pid].blocked && Mine(s, pid, id)
    ensures Inv(Read(s, pid, id, want))
  {
    if !Get(s, id) || (s.socks[id].rx == [] && !PeerLive(s, id)) {
      ReturnKeeps(s, pid);
    } else if s.socks[id].rx == [] {
      assert s.socks[id].peer != id by { hide Streams, Backlogs, NoLostWakeup, Owners, Readers; }
      BlockKeeps(s, pid, id, InRead(id, want));
    } else {
      TakeKeeps(s, pid, id, want);
      ReturnKeeps(Take(s, id, want), pid);
    }
  }

  lemma RecvKeeps(s: Sys, pid: int, id: int, want: nat)
    requires Inv(s) && pid in s.procs && !s.procs[pid].blocked && Mine(s, pid, id)
    ensures Inv(Recv(s, pid, id, want))
  {
    if !Get(s, id) {
      ReturnKeeps(s, pid);
    } else if s.socks[id].rx == [] {
      BlockKeeps(s, pid, id, InRecv(id, want));
    } else {
      TakeKeeps(s, pid, id, want);
      ReturnKeeps(Take(s, id, want), pid);
    }
  }

  /** What waking its reader leaves of the socket itself. */
  lemma WakeSelf(s: Sys, p: int)
    requires 0 <= p < |s.socks|
    ensures |WakeReader(s, p).socks| == |s.socks|
      && WakeReader(s, p).socks[p] == s.socks[p].(reader := WakeReader(s, p).socks[p].reader)
  {
  }

  lemma SendToKeeps(s: Sys, id: int, data: seq<byte>, path: string)
    requires Inv(s)
    ensures Inv(SendTo(s, id, data, path))
  {
    hide Peers, Backlogs, NoLostWakeup, Readers, Owners, Streams, WakeReader, Put;
    if Get(s, id) && s.socks[id].kind == SOCK_DGRAM {
      var d := FindBound(s.socks, path, |s.socks|);
      if d >= 0 && |data| + |s.socks[d].rx| <= BUF_SIZE {
        WakeKeeps(s, d);
        WakeSelf(s, d);
        WakePut(s, d, data);
        PutKeeps(WakeReader(s, d), d, data);
      }
    }
  }

  /** The whole backlog of a listener is dropped, its clients woken. */
  function Drained(s: Sys, id: int): Sys
    requires 0 <= id < |s.socks|
  {
    SetSock(s.(procs := UnblockedAll(s.procs, s.socks[id].backlog)), id, s.socks[id].(backlog := []))
  }

  lemma {:induction false} DrainKeeps(s: Sys, id: int)
    requires Inv(s) && Get(s, id)
    ensures Inv(Drained(s, id))
    ensures forall q :: q in Drained(s, id).procs <==> q in s.procs
    ensures forall q :: q in s.procs ==>
      Drained(s, id).procs[q].at == s.procs[q].at && (Drained(s, id).procs[q].blocked ==> s.procs[q].blocked)
    decreases |s.socks[id].backlog|
  {
    hide Inv, Drained, Dequeue;
    if s.socks[id].backlog == [] {
      DrainedNone(s, id);
    } else {
      DequeueKeeps(s, id);
      DrainedOne(s, id);
      DrainKeeps(Dequeue(s, id), id);
    }
  }

  lemma DrainedNone(s: Sys, id: int)
    requires Get(s, id) && s.socks[id].backlog == []
    ensures Drained(s, id) == s
  {
    assert s.socks[id := s.socks[id].(backlog := [])] == s.socks;
  }

  /** Draining is dequeuing one client and draining the rest. */
  lemma DrainedOne(s: Sys, id: int)
    requires Inv(s) && Get(s, id) && s.socks[id].backlog != []
    ensures var d := Dequeue(s, id);
      && Get(d, id) && |d.socks[id].backlog| < |s.socks[id].backlog| && Drained(d, id) == Drained(s, id)
      && (forall q :: q in d.procs <==> q in s.procs)
      && forall q :: q in s.procs ==> d.procs[q].at == s.procs[q].at && (d.procs[q].blocked ==> s.procs[q].blocked)
  {
    assert At(s, id, 0) && Waits(s, s.socks[id].backlog[0]) && s.socks[id].backlog[0].pid > 0;
    hide Inv;
    var d := Dequeue(s, id);
    assert Drained(d, id).socks == Drained(s, id).socks;
    assert Drained(d, id).procs == Drained(s, id).procs;
  }

  lemma DestroyKeeps(s: Sys, pid: int, id: int)
    requires Inv(s) && Idle(s, pid) && Mine(s, pid, id)
    ensures Inv(Destroy(s, id))
  {
    hide Peers, Backlogs, NoLostWakeup, Readers, Owners, Streams, WakeReader, Drained, Cut, Destroy;
    if Get(s, id) {
      var p := s.socks[id].peer;
      FreeOwner(s, pid, id);
      var w := if p >= 0 then WakeReader(s, p) else s;
      if p >= 0 {
        PeerFacts(s, id);
        WakeKeeps(s, p);
        WakeSelf(s, p);
        WakeFrame(s, p, id, pid);
        WakePoint(s, p, pid);
      }
      var d := Drained(w, id);
      DrainKeeps(w, id);
      DrainFrame(w, id);
      CutKeeps(d, pid, id);
      DestroyIsCut(s, id, w, d);
    }
    DestroyNothing(s, id);
  }

  lemma DestroyNothing(s: Sys, id: int)
    ensures !Get(s, id) ==> Destroy(s, id) == s
  {
  }

  lemma WakePoint(s: Sys, p: int, pid: int)
    ensures pid in s.procs ==> pid in WakeReader(s, p).procs && WakeReader(s, p).procs[pid].at == s.procs[pid].at
  {
  }

  lemma DrainFrame(s: Sys, id: int)
    requires 0 <= id < |s.socks|
    ensures Drained(s, id).socks == s.socks[id := s.socks[id].(backlog := [])]
  {
  }

  lemma DestroyIsCut(s: Sys, id: int, w: Sys, d: Sys)
    requires Get(s, id) && s.socks[id].reader < 0
    requires s.socks[id].peer >= 0 ==> Get(s, s.socks[id].peer) && s.socks[id].peer != id
    requires w == (if s.socks[id].peer >= 0 then WakeReader(s, s.socks[id].peer) else s) && d == Drained(w, id)
    ensures Destroy(s, id) == Cut(d, id)
  {
    var p := s.socks[id].peer;
    var t := Hangup(s, id);
    assert t.procs == w.procs && t.hist == w.hist && t.socks[id].backlog == w.socks[id].backlog;
    assert Destroy(s, id).procs == Cut(d, id).procs;
    assert Destroy(s, id).socks == Cut(d, id).socks;
  }

  // ---------------------------------------------------------------- every step, every run

  lemma ResumeKeeps(s: Sys, pid: int)
    requires Inv(s) && pid in s.procs && !s.procs[pid].blocked && s.procs[pid].at != Running
    ensures Inv(Resume(s, pid))
  {
    assert Get(s, s.procs[pid].at.id) && s.socks[s.procs[pid].at.id].owner == pid;
    match s.procs[pid].at
    case InAccept(id) => AcceptKeeps(s, pid, id);
    case InConnect(_) => ReturnKeeps(s, pid);
    case InRead(id, want) => ReadKeeps(s, pid, id, want);
    case InWrite(id, rest) => WriteKeeps(s, pid, id, rest);
    case InRecv(id, want) => RecvKeeps(s, pid, id, want);
  }

  /** Every atomic step of every process keeps every invariant. */
  lemma StepKeeps(s: Sys, op: Op)
    requires Inv(s) && Enabled(s, op)
    ensures Inv(Apply(s, op))
  {
    hide Inv;
    match op
    case DoSpawn(pid) => SpawnKeeps(s, pid);
    case DoExit(pid) => ExitKeeps(s, pid);
    case DoCreate(pid, kind) => CreateKeeps(s, pid, kind);
    case DoDestroy(pid, id) => DestroyKeeps(s, pid, id);
    case DoBind(pid, id, path) =>
      if Bind(s, id, path) != s {
        PromoteKeeps(s, pid, id, Truncate(path), Bound);
      }
    case DoListen(pid, id) =>
      if Listen(s, id) != s {
        PromoteKeeps(s, pid, id, s.socks[id].path, Listening);
      }
    case DoAccept(pid, id) => AcceptKeeps(s, pid, id);
    case DoConnect(pid, id, path) => ConnectKeeps(s, pid, id, path);
    case DoWrite(pid, id, data) =>
      if Get(s, id) {
        WriteKeeps(s, pid, id, data);
      }
    case DoRead(pid, id, want) => ReadKeeps(s, pid, id, want);
    case DoSendTo(_, id, data, path) => SendToKeeps(s, id, data, path);
    case DoRecv(pid, id, want) => RecvKeeps(s, pid, id, want);
    case DoResume(pid) => ResumeKeeps(s, pid);
  }

  /** After `unix_sock_init`, before any process. */
  function InitSys(): Sys {
    Sys(seq(MAX_SOCKETS, i => Sock(false, Free, 0, "", -1, [], [], -1, 0)), map[], seq(MAX_SOCKETS, i => NewHist))
  }

  /** The state after a run, provided each step could be taken. */
  predicate CanRun(s: Sys, ops: seq<Op>)
    decreases |ops|
  {
    ops == [] || (Enabled(s, ops[0]) && CanRun(Apply(s, ops[0]), ops[1..]))
  }

  function Run(s: Sys, ops: seq<Op>): Sys
    decreases |ops|
  {
    if ops == [] then s else Run(Apply(s, ops[0]), ops[1..])
  }

  lemma {:induction false} RunKeeps(s: Sys, ops: seq<Op>)
    requires Inv(s) && CanRun(s, ops)
    ensures Inv(Run(s, ops))
    decreases |ops|
  {
    hide Inv, Enabled, Apply;
    if ops != [] {
      StepKeeps(s, ops[0]);
      RunKeeps(Apply(s, ops[0]), ops[1..]);
    }
  }

  /** In every reachable state: mutual peers, sound backlogs, no lost wake-up, streams in order. */
  lemma Reachable(ops: seq<Op>)
    requires CanRun(InitSys(), ops)
    ensures var s := Run(InitSys(), ops); Peers(s) && Backlogs(s) && NoLostWakeup(s) && Streams(s)
  {
    assert Inv(InitSys());
    RunKeeps(InitSys(), ops);
  }
}
