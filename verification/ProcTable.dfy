/** The process table and the killing of a process's descendants. */
module ProcTable {

  datatype State = Unused | Ready | Running | Zombie | Blocked

  /** The scheduling part of a process control block; -1 stands for "none". */
  datatype PCB = PCB(pid: nat, ppid: nat, state: State, waitingFor: int, vforkParent: int)

  /** A slot of the table as it is cleared at boot. */
  const Empty := PCB(0, 0, Unused, 0, 0)

  /** A slot cleared up to its kernel stack; `vfork_parent` lies behind that and stays. */
  function Wiped(p: PCB): PCB { Empty.(vforkParent := p.vforkParent) }

  predicate Live(p: PCB) { p.state != Unused && p.state != Zombie }

  /** A live process is younger than its parent. */
  ghost predicate Ordered(t: seq<PCB>, next: nat) {
    forall i :: 0 <= i < |t| && Live(t[i]) ==> t[i].ppid < t[i].pid < next
  }

  /** A slot is either unused and cleared, or used with a number above its parent's, used numbers being different. */
  ghost predicate Numbered(t: seq<PCB>, next: nat) {
    && 0 < next
    && (forall i :: 0 <= i < |t| ==> SlotNumbered(t[i], next))
    && (forall i, j :: 0 <= i < j < |t| && t[i].state != Unused && t[j].state != Unused ==> t[i].pid != t[j].pid)
  }

  predicate SlotNumbered(p: PCB, next: nat) {
    if p.state == Unused then p.pid == 0 && p.waitingFor == 0 else p.ppid < p.pid < next
  }

  // ---------------------------------------------------------------- descendants

  /** The live process in slot `i` descends from `p` through live processes. */
  ghost predicate Reached(t: seq<PCB>, p: nat, i: nat)
    decreases if i < |t| then t[i].pid else 0
  {
    && i < |t| && Live(t[i])
    && (t[i].ppid == p || exists j :: Parent(t, j, i) && Reached(t, p, j))
  }

  ghost predicate Parent(t: seq<PCB>, j: nat, i: nat) {
    j < |t| && i < |t| && Live(t[j]) && t[j].pid == t[i].ppid && t[j].pid < t[i].pid
  }

  ghost function Descendants(t: seq<PCB>, p: nat): set<nat> { set i: nat | i < |t| && Reached(t, p, i) }

  /** The table with some slots wiped. */
  ghost function Minus(t: seq<PCB>, gone: set<nat>): (r: seq<PCB>)
    ensures |r| == |t| && forall i :: 0 <= i < |t| ==> r[i] == if i in gone then Wiped(t[i]) else t[i]
  {
    seq(|t|, i requires 0 <= i < |t| => if i in gone then Wiped(t[i]) else t[i])
  }

  lemma MinusIs(t: seq<PCB>, gone: set<nat>, i: nat)
    requires i < |t|
    ensures |Minus(t, gone)| == |t| && Minus(t, gone)[i] == if i in gone then Wiped(t[i]) else t[i]
    ensures !Live(Wiped(t[i]))
  {
  }

  /** What killing the children of `p` leaves. */
  ghost function Cleared(t: seq<PCB>, p: nat): seq<PCB> { Minus(t, Descendants(t, p)) }

  lemma ClearedIs(t: seq<PCB>, p: nat)
    ensures Cleared(t, p) == Minus(t, Descendants(t, p))
  {
  }

  /** With a process, all its children are in the set. */
  ghost predicate Closed(t: seq<PCB>, gone: set<nat>) {
    forall i: nat, j: nat :: j in gone && i < |t| && Live(t[i]) && Parent(t, j, i) ==> i in gone
  }

  lemma {:induction false} ReachedAbove(t: seq<PCB>, next: nat, p: nat, i: nat)
    requires Ordered(t, next) && Reached(t, p, i)
    ensures t[i].pid > p && t[i].ppid >= p
    decreases t[i].pid
  {
    if t[i].ppid != p {
      var j :| Parent(t, j, i) && Reached(t, p, j);
      ReachedAbove(t, next, p, j);
    }
  }

  lemma DescendantsClosed(t: seq<PCB>, next: nat, p: nat)
    requires Ordered(t, next)
    ensures Closed(t, Descendants(t, p))
  {
  }

  /** Descent outside a closed set does not see that the set is gone. */
  lemma {:induction false} ReachedMinus(t: seq<PCB>, gone: set<nat>, q: nat, x: nat)
    requires Closed(t, gone) && x !in gone
    ensures Reached(Minus(t, gone), q, x) <==> Reached(t, q, x)
    decreases if x < |t| then t[x].pid else 0
  {
    var u := Minus(t, gone);
    if Reached(u, q, x) && t[x].ppid != q {
      var j: nat :| Parent(u, j, x) && Reached(u, q, j);
      assert Parent(t, j, x);
      ReachedMinus(t, gone, q, j);
    }
    if Reached(t, q, x) && t[x].ppid != q {
      var j: nat :| Parent(t, j, x) && Reached(t, q, j);
      assert j !in gone;
      assert Parent(u, j, x);
      ReachedMinus(t, gone, q, j);
    }
  }

  lemma DescendantsMinus(t: seq<PCB>, gone: set<nat>, q: nat)
    requires Closed(t, gone)
    ensures Cleared(Minus(t, gone), q) == Minus(t, gone + Descendants(t, q))
  {
    var u := Minus(t, gone);
    forall x: nat | x < |t| ensures Cleared(u, q)[x] == Minus(t, gone + Descendants(t, q))[x] {
      if x !in gone {
        ReachedMinus(t, gone, q, x);
      }
    }
  }

  /** The first `i` slots' children of `p`, with everything below them. */
  ghost function Via(t: seq<PCB>, p: nat, i: nat): set<nat>
    requires i <= |t|
  {
    if i == 0 then {} else Via(t, p, i - 1) + (if Live(t[i - 1])
      && t[i - 1].ppid == p then {i - 1} + Descendants(t, t[i - 1].pid) else {})
  }

  lemma {:induction false} ViaMember(t: seq<PCB>, p: nat, i: nat, x: nat)
    requires i <= |t|
    ensures x in Via(t, p, i) <==> exists c: nat :: c < i && IsVia(t, p, c, x)
  {
    if i > 0 {
      ViaMember(t, p, i - 1, x);
      assert IsVia(t, p, i - 1, x) <==> (Live(t[i - 1]) && t[i - 1].ppid == p
        && x in {i - 1} + Descendants(t, t[i - 1].pid));
    }
  }

  ghost predicate IsVia(t: seq<PCB>, p: nat, c: nat, x: nat) {
    c < |t| && Live(t[c]) && t[c].ppid == p && (x == c || Reached(t, t[c].pid, x))
  }

  /** A child of `p` is not below another child of `p`. */
  lemma ChildFresh(t: seq<PCB>, next: nat, p: nat, i: nat)
    requires Ordered(t, next) && i < |t| && Live(t[i]) && t[i].ppid == p
    ensures i !in Via(t, p, i)
  {
    ViaMember(t, p, i, i);
    forall c: nat | c < i ensures !IsVia(t, p, c, i) {
      if Live(t[c]) && t[c].ppid == p && Reached(t, t[c].pid, i) {
        ReachedAbove(t, next, t[c].pid, i);
      }
    }
  }

  lemma {:induction false} ViaClosed(t: seq<PCB>, next: nat, p: nat, i: nat)
    requires Ordered(t, next) && i <= |t|
    ensures Closed(t, Via(t, p, i))
  {
    if i > 0 {
      ViaClosed(t, next, p, i - 1);
      DescendantsClosed(t, next, t[i - 1].pid);
      var v, d := Via(t, p, i - 1), Descendants(t, t[i - 1].pid);
      if Live(t[i - 1]) && t[i - 1].ppid == p {
        forall x: nat, j: nat | j in v + ({i - 1} + d) && x < |t| && Live(t[x]) && Parent(t, j, x)
          ensures x in v + ({i - 1} + d) {
          if j == i - 1 {
            assert Reached(t, t[i - 1].pid, x);
          }
        }
      }
    }
  }

  /** Below a child of `p` is below `p`. */
  lemma {:induction false} ReachedDown(t: seq<PCB>, p: nat, c: nat, x: nat)
    requires c < |t| && Live(t[c]) && t[c].ppid == p && Reached(t, t[c].pid, x)
    requires forall i :: 0 <= i < |t| && Live(t[i]) ==> t[i].ppid < t[i].pid
    ensures Reached(t, p, x)
    decreases t[x].pid
  {
    if t[x].ppid == t[c].pid {
      assert Parent(t, c, x) && Reached(t, p, c);
    } else {
      var j: nat :| Parent(t, j, x) && Reached(t, t[c].pid, j);
      ReachedDown(t, p, c, j);
    }
  }

  /** Below `p` is a child of `p`, or below one. */
  lemma {:induction false} ReachedVia(t: seq<PCB>, p: nat, x: nat)
    requires Reached(t, p, x)
    ensures exists c: nat :: c < |t| && IsVia(t, p, c, x)
    decreases t[x].pid
  {
    if t[x].ppid == p {
      assert IsVia(t, p, x, x);
    } else {
      var j: nat :| Parent(t, j, x) && Reached(t, p, j);
      ReachedVia(t, p, j);
      var c: nat :| c < |t| && IsVia(t, p, c, j);
      assert Reached(t, t[c].pid, x);
      assert IsVia(t, p, c, x);
    }
  }

  lemma ViaAll(t: seq<PCB>, next: nat, p: nat)
    requires Ordered(t, next)
    ensures Via(t, p, |t|) == Descendants(t, p)
  {
    forall x: nat ensures x in Via(t, p, |t|) <==> x in Descendants(t, p) {
      ViaMember(t, p, |t|, x);
      if x in Via(t, p, |t|) {
        var c: nat :| c < |t| && IsVia(t, p, c, x);
        if x != c { ReachedDown(t, p, c, x); }
      }
      if Reached(t, p, x) { ReachedVia(t, p, x); }
    }
  }

  lemma OrderedAt(t: seq<PCB>, next: nat, i: nat, q: nat)
    requires Ordered(t, next) && i < |t| && Live(t[i])
    ensures t[i].ppid < t[i].pid < next && |Cleared(t, q)| == |t| && Wiped(Cleared(t, q)[i]) == Wiped(t[i])
  {
  }

  lemma ViaNone(t: seq<PCB>, p: nat)
    ensures Minus(t, Via(t, p, 0)) == t
  {
  }

  /** One round of the killing loop. */
  lemma ViaNext(t: seq<PCB>, next: nat, p: nat, i: nat)
    requires Ordered(t, next) && i < |t|
    ensures var u := Minus(t, Via(t, p, i));
      if Live(u[i]) && u[i].ppid == p
      then u[i] == t[i] && Minus(t, Via(t, p, i + 1)) == Cleared(u, t[i].pid)[i := Wiped(t[i])]
        && Ordered(Cleared(u, t[i].pid), next)
      else Minus(t, Via(t, p, i + 1)) == u
    ensures Ordered(Minus(t, Via(t, p, i + 1)), next)
  {
    hide Reached, Closed, Minus, Wiped, Descendants;
    MinusIs(t, Via(t, p, i), i);
    var g := Via(t, p, i);
    var u := Minus(t, g);
    if Live(t[i]) && t[i].ppid == p {
      ChildFresh(t, next, p, i);
      ViaClosed(t, next, p, i);
      DescendantsMinus(t, g, t[i].pid);
      MinusOne(t, g, Descendants(t, t[i].pid), i, next);
    }
    MinusOne(t, Via(t, p, i + 1), {}, i, next);
    assert Via(t, p, i + 1) + {} == Via(t, p, i + 1);
  }

  lemma MinusOne(t: seq<PCB>, g: set<nat>, d: set<nat>, i: nat, next: nat)
    requires i < |t|
    ensures Minus(t, g + ({i} + d)) == Minus(t, g + d)[i := Wiped(t[i])]
    ensures Ordered(t, next) ==> Ordered(Minus(t, g + d), next)
  {
    var a, b := Minus(t, g + ({i} + d)), Minus(t, g + d)[i := Wiped(t[i])];
    assert forall j :: 0 <= j < |t| ==> a[j] == b[j];
  }
}
