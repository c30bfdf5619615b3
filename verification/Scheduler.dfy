/** Round-robin scheduling over the process table, and what every run of it keeps. */
module Scheduler {
  import opened ProcTable

  datatype Sched = Sched(table: seq<PCB>, current: int, next: nat, enabled: bool)

  // ---------------------------------------------------------------- steps

  /** The first slot at or after `i` with this PID, or -1. */
  function FindPid(t: seq<PCB>, pid: int, i: nat): (r: int)
    requires i <= |t|
    ensures r == -1 || (i <= r < |t| && t[r].pid == pid)
    ensures forall j :: i <= j < (if r < 0 then |t| else r) ==> t[j].pid != pid
    decreases |t| - i
  {
    if i == |t| then -1 else if t[i].pid == pid then i else FindPid(t, pid, i + 1)
  }

  function FindUnused(t: seq<PCB>, i: nat): (r: int)
    requires i <= |t|
    ensures r == -1 || (i <= r < |t| && t[r].state == Unused)
    ensures forall j :: i <= j < (if r < 0 then |t| else r) ==> t[j].state != Unused
    decreases |t| - i
  {
    if i == |t| then -1 else if t[i].state == Unused then i else FindUnused(t, i + 1)
  }

  /** `k` slots after `c`, going round. */
  function Slot(c: int, k: nat): (r: nat)
    ensures r < 64
  {
    if c + k < 0 then 0 else (c + k) % 64
  }

  /** None of the slots `k` up to `j` after `c` is ready. */
  ghost predicate NoneReadyIn(t: seq<PCB>, c: int, k: nat, j: nat)
    requires |t| == 64
  {
    forall i: nat :: k <= i < j ==> t[Slot(c, i)].state != Ready
  }

  /** `find_next` from its `k`-th candidate on. */
  function FindNext(t: seq<PCB>, c: int, k: nat): (r: int)
    requires |t| == 64 && -1 <= c < 64 && 1 <= k <= 65
    ensures r != -1 ==>
      && 0 <= r < 64 && t[r].state == Ready
      && exists j: nat :: k <= j <= 64 && r == Slot(c, j) && NoneReadyIn(t, c, k, j)
    ensures r == -1 ==> NoneReadyIn(t, c, k, 65)
    decreases 65 - k
  {
    if k == 65 then -1 else if t[Slot(c, k)].state == Ready then Slot(c, k) else FindNext(t, c, k + 1)
  }

  lemma FindStep(t: seq<PCB>, c: int, k: nat)
    requires |t| == 64 && -1 <= c < 64 && 1 <= k <= 64
    ensures Slot(c, k) == (c + k) % 64
    ensures FindNext(t, c, k) == if t[Slot(c, k)].state == Ready then Slot(c, k) else FindNext(t, c, k + 1)
  {
  }

  lemma FindLast(t: seq<PCB>, c: int)
    requires |t| == 64 && -1 <= c < 64
    ensures FindNext(t, c, 65) == -1
  {
  }

  function SetState(t: seq<PCB>, i: int, s: State): seq<PCB> {
    if 0 <= i < |t| then t[i := t[i].(state := s)] else t
  }

  function Block(t: seq<PCB>, pid: int): seq<PCB> { SetState(t, FindPid(t, pid, 0), Blocked) }

  function Unblock(t: seq<PCB>, pid: int): seq<PCB> { SetState(t, FindPid(t, pid, 0), Ready) }

  /** A child created by `vfork` gives its blocked parent back. */
  function WakeVfork(t: seq<PCB>, i: nat): seq<PCB>
    requires i < |t|
  {
    if t[i].vforkParent > 0 then
      var v := FindPid(t, t[i].vforkParent, 0);
      var u := if v >= 0 && t[v].state == Blocked then t[v := t[v].(waitingFor := -1, state := Ready)] else t;
      u[i := u[i].(vforkParent := -1)]
    else t
  }

  /** The parent, if it waits for this process, is woken. */
  function WakeParent(t: seq<PCB>, i: nat, pid: nat): seq<PCB>
    requires i < |t|
  {
    var p := FindPid(t, t[i].ppid, 0);
    if p >= 0 && t[p].waitingFor == pid then
      var u := t[p := t[p].(waitingFor := -1)];
      Unblock(u, u[p].pid)
    else t
  }

  ghost function Terminate(t: seq<PCB>, i: nat): seq<PCB>
    requires i < |t|
  {
    var pid := t[i].pid;
    var k := Cleared(t[i := t[i].(state := Zombie)], pid);
    WakeParent(WakeVfork(k, i), i, pid)
  }

  function Create(s: Sched, ppid: nat): Sched {
    var i := FindUnused(s.table, 0);
    if i < 0 then s else s.(table := s.table[i := PCB(s.next, ppid, Ready, -1, -1)], next := s.next + 1)
  }

  predicate HasCurrent(s: Sched) { 0 <= s.current < |s.table| }

  function Fork(s: Sched): Sched {
    if HasCurrent(s) then Create(s, s.table[s.current].pid) else s
  }

  function Vfork(s: Sched): Sched {
    var i := FindUnused(s.table, 0);
    if !HasCurrent(s) || i < 0 then s else
      var p := s.table[s.current].pid;
      var t := s.table[i := PCB(s.next, p, Ready, -1, p)];
      s.(table := t[s.current := t[s.current].(state := Blocked, waitingFor := s.next)], next := s.next + 1)
  }

  /** `proc_wait_pid` up to its yield. */
  function Wait(s: Sched, pid: nat): Sched {
    var c := FindPid(s.table, pid, 0);
    if c < 0 || s.table[c].state == Zombie || !HasCurrent(s) then s else
      var i := FindPid(s.table, s.table[s.current].pid, 0);
      if i < 0 then s else s.(table := s.table[i := s.table[i].(waitingFor := pid, state := Blocked)])
  }

  function Reap(s: Sched, pid: nat): Sched {
    var c := FindPid(s.table, pid, 0);
    if c < 0 then s else s.(table := s.table[c := Wiped(s.table[c])])
  }

  ghost function Kill(s: Sched, pid: nat): Sched {
    var i := FindPid(s.table, pid, 0);
    if i < 0 then s else s.(table := Terminate(s.table, i))
  }

  /** The next process runs, if there is one. */
  function Dispatch(s: Sched): Sched
    requires |s.table| == 64 && -1 <= s.current < 64
  {
    var n := FindNext(s.table, s.current, 1);
    if n < 0 then s else s.(table := SetState(s.table, n, Running), current := n)
  }

  function Preempt(s: Sched): Sched {
    if HasCurrent(s) && s.table[s.current].state == Running then s.(table := SetState(s.table, s.current, Ready)) else s
  }

  /** `proc_schedule_interrupt` */
  function Tick(s: Sched): Sched
    requires |s.table| == 64 && -1 <= s.current < 64
  {
    if !s.enabled then s else Dispatch(Preempt(s))
  }

  /** `proc_exit` by the current process. */
  ghost function Exit(s: Sched): Sched
    requires |s.table| == 64 && -1 <= s.current < 64
  {
    if s.current < 0 then s else
      var t := s.(table := Terminate(s.table, s.current));
      if FindNext(t.table, t.current, 1) < 0 then t.(current := -1) else Dispatch(t)
  }

  /** `proc_start_scheduling`; `kinds` says which slots hold user tasks. */
  function FirstUser(t: seq<PCB>, user: seq<bool>, i: nat): (r: int)
    requires i <= |t|
    ensures r == -1 || (i <= r < |t| && t[r].state == Ready && r < |user| && user[r])
    ensures forall j :: i <= j < (if r < 0 then |t| else r) && j < |user| && user[j] ==> t[j].state != Ready
    decreases |t| - i
  {
    if i == |t| then -1 else if t[i].state == Ready && i < |user| && user[i] then i else FirstUser(t, user, i + 1)
  }

  function FirstReady(t: seq<PCB>, i: nat): (r: int)
    requires i <= |t|
    ensures r == -1 || (i <= r < |t| && t[r].state == Ready)
    ensures forall j :: i <= j < (if r < 0 then |t| else r) ==> t[j].state != Ready
    decreases |t| - i
  {
    if i == |t| then -1 else if t[i].state == Ready then i else FirstReady(t, i + 1)
  }

  function Start(s: Sched, user: seq<bool>): Sched {
    var u := FirstUser(s.table, user, 0);
    var n := if u >= 0 then u else FirstReady(s.table, 0);
    if n < 0 then s.(enabled := true) else s.(enabled := true, table := SetState(s.table, n, Running), current := n)
  }

  datatype Op =
    | DoCreate(parent: nat) | DoFork | DoVfork | DoBlock(pid: int) | DoUnblock(pid: int)
    | DoWait(child: nat) | DoReap(child: nat) | DoKill(victim: nat) | DoTick | DoExit

  ghost function Apply(s: Sched, op: Op): Sched
    requires Fits(s)
  {
    match op
    case DoCreate(parent) => Create(s, parent)
    case DoFork => Fork(s)
    case DoVfork => Vfork(s)
    case DoBlock(pid) => s.(table := Block(s.table, pid))
    case DoUnblock(pid) => s.(table := Unblock(s.table, pid))
    case DoWait(child) => Wait(s, child)
    case DoReap(child) => Reap(s, child)
    case DoKill(victim) => Kill(s, victim)
    case DoTick => Tick(s)
    case DoExit => Exit(s)
  }

  predicate Fits(s: Sched) { |s.table| == 64 && -1 <= s.current < 64 }

  // ---------------------------------------------------------------- who runs

  /** Only the current process is in state RUNNING. */
  ghost predicate OnlyCurrentRuns(s: Sched) {
    Fits(s) && forall i :: 0 <= i < |s.table| && s.table[i].state == Running ==> i == s.current
  }

  /** No slot starts to run. */
  ghost predicate NoNewRunner(t: seq<PCB>, u: seq<PCB>) {
    |u| == |t| && forall i :: 0 <= i < |t| && u[i].state == Running ==> t[i].state == Running
  }

  lemma TerminateRunners(t: seq<PCB>, i: nat)
    requires i < |t|
    ensures NoNewRunner(t, Terminate(t, i)) && Terminate(t, i)[i].state != Running
  {
    hide Descendants, WakeVfork, WakeParent;
    var k := Cleared(t[i := t[i].(state := Zombie)], t[i].pid);
    VforkRunners(k, i);
    ParentRunners(WakeVfork(k, i), i, t[i].pid);
  }

  lemma VforkRunners(t: seq<PCB>, i: nat)
    requires i < |t|
    ensures NoNewRunner(t, WakeVfork(t, i))
  {
  }

  lemma ParentRunners(t: seq<PCB>, i: nat, pid: nat)
    requires i < |t|
    ensures NoNewRunner(t, WakeParent(t, i, pid))
  {
  }

  lemma DispatchRuns(s: Sched)
    requires OnlyCurrentRuns(s) && (FindNext(s.table, s.current, 1) >= 0 ==> forall i :: 0 <= i < 64 ==>
      s.table[i].state != Running)
    ensures OnlyCurrentRuns(Dispatch(s))
  {
  }

  lemma ExitRuns(s: Sched)
    requires OnlyCurrentRuns(s)
    ensures OnlyCurrentRuns(Exit(s))
  {
    hide Terminate;
    if s.current >= 0 {
      TerminateRunners(s.table, s.current);
      var t := s.(table := Terminate(s.table, s.current));
      DispatchRuns(t);
    }
  }

  lemma KillRuns(s: Sched, pid: nat)
    requires OnlyCurrentRuns(s)
    ensures OnlyCurrentRuns(Kill(s, pid))
  {
    hide Terminate;
    var i := FindPid(s.table, pid, 0);
    if i >= 0 {
      TerminateRunners(s.table, i);
    }
  }

  lemma StepRuns(s: Sched, op: Op)
    requires OnlyCurrentRuns(s)
    ensures OnlyCurrentRuns(Apply(s, op))
  {
    hide Terminate, Kill, Exit;
    match op
    case DoKill(victim) => KillRuns(s, victim);
    case DoExit => ExitRuns(s);
    case DoTick => DispatchRuns(Preempt(s));
    case _ =>
  }

  lemma StartRuns(s: Sched, user: seq<bool>)
    requires Fits(s) && forall i :: 0 <= i < 64 ==> s.table[i].state != Running
    ensures OnlyCurrentRuns(Start(s, user))
  {
  }

  ghost function Run(s: Sched, ops: seq<Op>): Sched
    requires Fits(s)
    decreases |ops|
  {
    if ops == [] then s else
      StepFits(s, ops[0]);
      Run(Apply(s, ops[0]), ops[1..])
  }

  lemma StepFits(s: Sched, op: Op)
    requires Fits(s)
    ensures Fits(Apply(s, op)) && Apply(s, op).enabled == s.enabled
  {
    hide Terminate, FindNext, Slot;
    if op.DoKill? && FindPid(s.table, op.victim, 0) >= 0 { TerminateSize(s.table, FindPid(s.table, op.victim, 0)); }
    if s.current >= 0 { TerminateSize(s.table, s.current); }
  }

  /** Over every run, a RUNNING process is the current one. */
  lemma {:induction false} RunRuns(s: Sched, ops: seq<Op>)
    requires OnlyCurrentRuns(s)
    ensures OnlyCurrentRuns(Run(s, ops))
    decreases |ops|
  {
    hide Apply;
    if ops != [] {
      StepRuns(s, ops[0]);
      RunRuns(Apply(s, ops[0]), ops[1..]);
    }
  }

  /** Until scheduling starts, nobody is chosen. */
  lemma {:induction false} RunIdle(s: Sched, ops: seq<Op>)
    requires OnlyCurrentRuns(s) && !s.enabled && s.current == -1
    ensures OnlyCurrentRuns(Run(s, ops)) && !Run(s, ops).enabled && Run(s, ops).current == -1
    decreases |ops|
  {
    if ops != [] {
      StepRuns(s, ops[0]);
      StepFits(s, ops[0]);
      StepIdle(s, ops[0]);
      RunIdle(Apply(s, ops[0]), ops[1..]);
    }
  }

  lemma StepIdle(s: Sched, op: Op)
    requires Fits(s) && !s.enabled && s.current == -1
    ensures Apply(s, op).current == -1
  {
    hide Terminate, FindNext;
  }

  /** After `proc_init`. */
  function Booted(): Sched { Sched(seq(64, i => Empty), -1, 1, false) }

  /** In every state that can be reached, before or after scheduling starts, a RUNNING process is the current one. */
  lemma Reachable(before: seq<Op>, user: seq<bool>, after: seq<Op>)
    ensures Fits(Run(Booted(), before)) && OnlyCurrentRuns(Run(Booted(), before))
    ensures Fits(Start(Run(Booted(), before), user)) && OnlyCurrentRuns(Run(Start(Run(Booted(), before), user), after))
  {
    hide Run;
    RunIdle(Booted(), before);
    StartRuns(Run(Booted(), before), user);
    RunRuns(Start(Run(Booted(), before), user), after);
  }

  // ---------------------------------------------------------------- process numbers

  /** No slot changed between used and unused, nor its numbers, nor did an unused slot start to wait. */
  ghost predicate SameNumbers(t: seq<PCB>, u: seq<PCB>) {
    |u| == |t| && forall i :: 0 <= i < |t| ==>
      && u[i].pid == t[i].pid && u[i].ppid == t[i].ppid && (u[i].state == Unused <==> t[i].state == Unused)
      && (t[i].state == Unused ==> u[i].waitingFor == t[i].waitingFor)
  }

  lemma SameNumbered(t: seq<PCB>, u: seq<PCB>, next: nat)
    requires SameNumbers(t, u)
    ensures Numbered(u, next) <==> Numbered(t, next)
  {
    assert forall i :: 0 <= i < |t| ==> (SlotNumbered(u[i], next) <==> SlotNumbered(t[i], next));
  }

  lemma MinusNumbered(t: seq<PCB>, gone: set<nat>, next: nat)
    requires Numbered(t, next)
    ensures Numbered(Minus(t, gone), next)
  {
  }

  /** A number other than 0 belongs to a used slot. */
  lemma FoundUsed(t: seq<PCB>, next: nat, pid: int)
    requires Numbered(t, next) && FindPid(t, pid, 0) >= 0
    ensures pid != 0 <==> t[FindPid(t, pid, 0)].state != Unused
  {
    assert SlotNumbered(t[FindPid(t, pid, 0)], next);
  }

  /** A used slot without a number spoils the table. */
  ghost predicate Nameless(t: seq<PCB>, i: int) { 0 <= i < |t| && t[i].state != Unused && t[i].pid == 0 }

  lemma NamelessSpoils(t: seq<PCB>, next: nat, i: int)
    requires Nameless(t, i)
    ensures !Numbered(t, next)
  {
    assert !SlotNumbered(t[i], next);
  }

  lemma WakeVforkNumbers(t: seq<PCB>, next: nat, i: nat)
    requires i < |t|
    ensures |WakeVfork(t, i)| == |t| && (Numbered(t, next) ==> SameNumbers(t, WakeVfork(t, i)))
    ensures Nameless(t, i) ==> Nameless(WakeVfork(t, i), i)
  {
    if t[i].vforkParent > 0 && FindPid(t, t[i].vforkParent, 0) >= 0 && Numbered(t, next) {
      FoundUsed(t, next, t[i].vforkParent);
    }
  }

  lemma WakeParentNumbers(t: seq<PCB>, next: nat, i: nat, pid: nat)
    requires i < |t|
    ensures Numbered(t, next) && pid > 0 ==> SameNumbers(t, WakeParent(t, i, pid))
    ensures Nameless(t, i) ==> Nameless(WakeParent(t, i, pid), i)
  {
    var p := FindPid(t, t[i].ppid, 0);
    if p >= 0 && t[p].waitingFor == pid && Numbered(t, next) && pid > 0 {
      assert SlotNumbered(t[p], next);
      var u := t[p := t[p].(waitingFor := -1)];
      assert SlotNumbered(u[FindPid(u, u[p].pid, 0)], next);
    }
  }

  /** Ending a process keeps the numbers exactly when there is a process in the slot. */
  lemma TerminateNumbered(t: seq<PCB>, next: nat, i: nat)
    requires Numbered(t, next) && i < |t|
    ensures Numbered(Terminate(t, i), next) <==> t[i].state != Unused
  {
    hide Numbered, FindPid, WakeVfork, WakeParent;
    var z := t[i := t[i].(state := Zombie)];
    var k := Cleared(z, t[i].pid);
    var v := WakeVfork(k, i);
    WakeVforkNumbers(k, next, i);
    WakeParentNumbers(v, next, i, t[i].pid);
    NumberOf(t, next, i);
    if t[i].state != Unused {
      SameNumbered(t, z, next);
      MinusNumbered(z, Descendants(z, t[i].pid), next);
      SameNumbered(k, v, next);
      SameNumbered(v, WakeParent(v, i, t[i].pid), next);
    } else {
      NamelessSpoils(WakeParent(v, i, t[i].pid), next, i);
    }
  }

  lemma NumberOf(t: seq<PCB>, next: nat, i: nat)
    requires Numbered(t, next) && i < |t|
    ensures if t[i].state == Unused then t[i].pid == 0 else t[i].pid > 0
  {
    assert SlotNumbered(t[i], next);
  }

  lemma DispatchNumbered(s: Sched)
    requires Fits(s)
    ensures SameNumbers(s.table, Dispatch(s).table) && Dispatch(s).next == s.next && Fits(Dispatch(s))
    ensures SameNumbers(s.table, Preempt(s).table)
  {
    hide FindNext, NoneReadyIn, Slot;
    var n := FindNext(s.table, s.current, 1);
    assert n == -1 || (0 <= n < 64 && s.table[n].state == Ready) by { NextReady(s); }
  }

  lemma NextReady(s: Sched)
    requires Fits(s)
    ensures var n := FindNext(s.table, s.current, 1); n == -1 || (0 <= n < 64 && s.table[n].state == Ready)
  {
  }

  lemma ExitSteps(s: Sched)
    requires Fits(s)
    ensures s.current >= 0 ==> Fits(s.(table := Terminate(s.table, s.current)))
    ensures Exit(s) == if s.current < 0 then s else
      var t := s.(table := Terminate(s.table, s.current));
      if FindNext(t.table, t.current, 1) < 0 then t.(current := -1) else Dispatch(t)
  {
    hide Terminate, FindNext, Dispatch;
    if s.current >= 0 { TerminateSize(s.table, s.current); }
  }

  lemma ExitNumbered(s: Sched)
    requires Fits(s) && Numbered(s.table, s.next)
    ensures Exit(s).next == s.next
    ensures Numbered(Exit(s).table, s.next) <==> s.current < 0 || s.table[s.current].state != Unused
  {
    hide Terminate, FindNext, Dispatch, Numbered, Exit;
    ExitSteps(s);
    if s.current >= 0 {
      TerminateNumbered(s.table, s.next, s.current);
      var t := s.(table := Terminate(s.table, s.current));
      DispatchNumbered(t);
      SameNumbered(t.table, Dispatch(t).table, s.next);
    }
  }

  lemma CreateNumbered(s: Sched, ppid: nat)
    requires Numbered(s.table, s.next)
    ensures Numbered(Create(s, ppid).table, Create(s, ppid).next) <==> ppid < s.next || FindUnused(s.table, 0) < 0
  {
    var i := FindUnused(s.table, 0);
    if i >= 0 {
      var t := Create(s, ppid).table;
      assert forall j :: 0 <= j < |t| && j != i ==> SlotNumbered(s.table[j], s.next);
      assert SlotNumbered(t[i], s.next + 1) <==> ppid < s.next;
    }
  }

  lemma VforkNumbered(s: Sched)
    requires Numbered(s.table, s.next)
    ensures Numbered(Vfork(s).table, Vfork(s).next) <==> Proper(s, DoVfork)
  {
    hide Numbered;
    var i := FindUnused(s.table, 0);
    if HasCurrent(s) && i >= 0 {
      NumberBelow(s.table, s.next, s.current);
      CreateNumbered(s, s.table[s.current].pid);
      var t, u := Create(s, s.table[s.current].pid).table, Vfork(s).table;
      if s.table[s.current].state != Unused || i == s.current {
        SameNumbered(t, u, s.next + 1);
      } else {
        NumberOf(s.table, s.next, s.current);
        NamelessSpoils(u, s.next + 1, s.current);
      }
    }
  }

  lemma NumberBelow(t: seq<PCB>, next: nat, i: nat)
    requires Numbered(t, next) && i < |t|
    ensures t[i].pid < next
  {
    assert SlotNumbered(t[i], next);
  }

  lemma StateNumbered(t: seq<PCB>, next: nat, pid: int, st: State)
    requires Numbered(t, next) && st != Unused
    ensures Numbered(SetState(t, FindPid(t, pid, 0), st), next) <==> pid != 0 || FindPid(t, 0, 0) < 0
  {
    hide Numbered;
    var i := FindPid(t, pid, 0);
    var u := SetState(t, i, st);
    if i >= 0 {
      FoundUsed(t, next, pid);
      if pid != 0 { SameNumbered(t, u, next); } else { NamelessSpoils(u, next, i); }
    }
  }

  lemma WaitNumbered(s: Sched, pid: nat)
    requires Numbered(s.table, s.next)
    ensures Numbered(Wait(s, pid).table, s.next) <==> Proper(s, DoWait(pid))
  {
    hide Numbered;
    var c := FindPid(s.table, pid, 0);
    if c >= 0 && s.table[c].state != Zombie && HasCurrent(s) {
      var p := s.table[s.current].pid;
      var i := FindPid(s.table, p, 0);
      NumberOf(s.table, s.next, s.current);
      FoundUsed(s.table, s.next, p);
      if p != 0 {
        SameNumbered(s.table, Wait(s, pid).table, s.next);
      } else {
        NamelessSpoils(Wait(s, pid).table, s.next, i);
      }
    }
  }

  lemma ReapNumbered(s: Sched, pid: nat)
    requires Numbered(s.table, s.next)
    ensures Numbered(Reap(s, pid).table, s.next)
  {
    var c := FindPid(s.table, pid, 0);
    if c >= 0 { assert Reap(s, pid).table == Minus(s.table, {c}); }
  }

  /**
   The step names a process: a parent that has been given out, a number other than 0, a current process that
   has not been cleared.
   */
  predicate Proper(s: Sched, op: Op) {
    var t := s.table;
    var idle := !HasCurrent(s) || t[s.current].state != Unused;
    match op
    case DoCreate(parent) => parent < s.next || FindUnused(t, 0) < 0
    case DoVfork => idle || FindUnused(t, 0) == s.current
    case DoBlock(pid) => pid != 0 || FindPid(t, 0, 0) < 0
    case DoUnblock(pid) => pid != 0 || FindPid(t, 0, 0) < 0
    case DoWait(child) => idle || FindPid(t, child, 0) < 0 || t[FindPid(t, child, 0)].state == Zombie
    case DoKill(victim) => victim != 0 || FindPid(t, 0, 0) < 0
    case DoExit => idle
    case _ => true
  }

  /** A step keeps the numbering exactly when it is proper. */
  lemma StepNumbered(s: Sched, op: Op)
    requires Fits(s) && Numbered(s.table, s.next)
    ensures Numbered(Apply(s, op).table, Apply(s, op).next) <==> Proper(s, op)
  {
    hide Numbered, Terminate, Exit, Wait, Vfork, Create, FindNext, Dispatch, Preempt, Reap, SetState;
    match op
    case DoCreate(parent) => CreateNumbered(s, parent);
    case DoFork => if HasCurrent(s) { NumberBelow(s.table, s.next, s.current);
      CreateNumbered(s, s.table[s.current].pid); }
    case DoVfork => VforkNumbered(s);
    case DoBlock(pid) => StateNumbered(s.table, s.next, pid, Blocked);
    case DoUnblock(pid) => StateNumbered(s.table, s.next, pid, Ready);
    case DoWait(child) => WaitNumbered(s, child); NextKept(s, child);
    case DoReap(child) => ReapNumbered(s, child); NextKept(s, child);
    case DoKill(victim) =>
      var i := FindPid(s.table, victim, 0);
      if i >= 0 {
        FoundUsed(s.table, s.next, victim);
        TerminateNumbered(s.table, s.next, i);
      }
    case DoTick => TickNumbered(s);
    case DoExit => ExitNumbered(s);
  }

  lemma NextKept(s: Sched, pid: nat)
    ensures Wait(s, pid).next == s.next && Reap(s, pid).next == s.next
  {
  }

  lemma TickNumbered(s: Sched)
    requires Fits(s) && Numbered(s.table, s.next)
    ensures Numbered(Tick(s).table, Tick(s).next)
  {
    hide Numbered, FindNext, Dispatch;
    DispatchNumbered(s);
    DispatchNumbered(Preempt(s));
    SameNumbered(s.table, Preempt(s).table, s.next);
    SameNumbered(Preempt(s).table, Dispatch(Preempt(s)).table, s.next);
  }

  ghost predicate AllProper(s: Sched, ops: seq<Op>)
    requires Fits(s)
    decreases |ops|
  {
    ops != [] ==> Proper(s, ops[0]) && (StepFits(s, ops[0]); AllProper(Apply(s, ops[0]), ops[1..]))
  }

  ghost predicate NumberedAlong(s: Sched, ops: seq<Op>)
    requires Fits(s)
    decreases |ops|
  {
    Numbered(s.table, s.next) && (ops != [] ==> (StepFits(s, ops[0]); NumberedAlong(Apply(s, ops[0]), ops[1..])))
  }

  /** Numbers are right in every state of a run exactly when every step of it is proper. */
  lemma {:induction false} RunNumbered(s: Sched, ops: seq<Op>)
    requires Fits(s) && Numbered(s.table, s.next)
    ensures NumberedAlong(s, ops) <==> AllProper(s, ops)
    ensures AllProper(s, ops) ==> Numbered(Run(s, ops).table, Run(s, ops).next)
    decreases |ops|
  {
    hide Numbered, Apply, Proper;
    if ops != [] {
      StepNumbered(s, ops[0]);
      StepFits(s, ops[0]);
      if Proper(s, ops[0]) { RunNumbered(Apply(s, ops[0]), ops[1..]); }
      AlongStarts(Apply(s, ops[0]), ops[1..]);
    }
  }

  lemma AlongStarts(s: Sched, ops: seq<Op>)
    requires Fits(s)
    ensures NumberedAlong(s, ops) ==> Numbered(s.table, s.next)
  {
  }

  /**
   In every state that proper steps lead to from boot, every live process is younger than its parent, and
   numbers are unique.
   */
  lemma ReachableNumbered(before: seq<Op>, user: seq<bool>, after: seq<Op>)
    requires AllProper(Booted(), before)
    requires Fits(Run(Booted(), before)) && Fits(Start(Run(Booted(), before), user))
      && AllProper(Start(Run(Booted(), before), user), after)
    ensures var s := Run(Start(Run(Booted(), before), user), after);
      Numbered(s.table, s.next) && Ordered(s.table, s.next)
  {
    hide Numbered, Run, AllProper;
    BootedNumbered();
    RunNumbered(Booted(), before);
    var s := Run(Booted(), before);
    StartNumbers(s, user);
    SameNumbered(s.table, Start(s, user).table, s.next);
    RunNumbered(Start(s, user), after);
    NumberedOrdered(Run(Start(s, user), after).table, Run(Start(s, user), after).next);
  }

  lemma NumberedOrdered(t: seq<PCB>, next: nat)
    requires Numbered(t, next)
    ensures Ordered(t, next)
  {
    assert forall i :: 0 <= i < |t| ==> SlotNumbered(t[i], next);
  }

  lemma BootedNumbered()
    ensures Numbered(Booted().table, 1)
  {
  }

  lemma StartNumbers(s: Sched, user: seq<bool>)
    ensures SameNumbers(s.table, Start(s, user).table) && Start(s, user).next == s.next
  {
  }

  /** Unblocking number 0 after boot makes a process out of an unused slot, with that number. */
  lemma UnblockZero()
    ensures var t := Apply(Booted(), DoUnblock(0)).table;
      t[0].state == Ready && t[0].pid == 0 && !Numbered(t, 1) && !Ordered(t, 1)
  {
    var t := Apply(Booted(), DoUnblock(0)).table;
    assert Live(t[0]);
    NamelessSpoils(t, 1, 0);
  }

  // ---------------------------------------------------------------- slot by slot

  /** Slot `j` is the first with this number. */
  ghost predicate First(t: seq<PCB>, pid: int, j: nat) {
    j < |t| && t[j].pid == pid && forall l :: 0 <= l < j ==> t[l].pid != pid
  }

  /** Slot `j` is the lowest unused one. */
  ghost predicate FirstFree(t: seq<PCB>, j: nat) {
    j < |t| && t[j].state == Unused && forall l :: 0 <= l < j ==> t[l].state != Unused
  }

  /** Slot `i` can run next: it is ready, or it is the one that runs. */
  predicate Willing(s: Sched, i: nat) {
    i < |s.table| && (s.table[i].state == Ready || (i == s.current && s.table[i].state == Running))
  }

  /** Slot `n`, `d` places after the current one, is the first that can run. */
  ghost predicate NextUp(s: Sched, n: int, d: nat) {
    && 1 <= d <= 64 && n == Slot(s.current, d) && Willing(s, n)
    && forall i: nat :: 1 <= i < d ==> !Willing(s, Slot(s.current, i))
  }

  /**
   A turn: of all slots that can run, the first one after the current slot, going round and ending with it, becomes
   the current one and runs; the one that ran before goes back to the ready ones. Nothing else changes.
   */
  ghost predicate Turn(s: Sched, t: Sched)
    requires Fits(s)
  {
    if !s.enabled || (forall i: nat :: !Willing(s, i)) then t == s else
      (exists d: nat :: NextUp(s, t.current, d)) && t == s.(table := t.table, current := t.current) && |t.table| == 64
      && (forall i :: 0 <= i < 64 ==> t.table[i] == AfterTurn(s, t.current, i))
  }

  /** What a turn makes of a slot. */
  function AfterTurn(s: Sched, n: int, i: nat): PCB
    requires i < |s.table|
  {
    if i == n then s.table[i].(state := Running)
    else if i == s.current && s.table[i].state == Running then s.table[i].(state := Ready)
    else s.table[i]
  }

  /** The ready slots, once the running process was put back, are those that can run. */
  lemma PreemptWilling(s: Sched, i: nat)
    requires Fits(s) && i < 64
    ensures |Preempt(s).table| == 64 && Preempt(s) == s.(table := Preempt(s).table)
    ensures Preempt(s).table[i].state == Ready <==> Willing(s, i)
    ensures Preempt(s).table[i] == AfterTurn(s, -1, i)
  {
  }

  lemma TickTurns(s: Sched)
    requires Fits(s)
    ensures Turn(s, Tick(s))
  {
    hide FindNext, Slot;
    var u, t := Preempt(s), Tick(s);
    forall i: nat | i < 64
      ensures |u.table| == 64 && u == s.(table := u.table) && (u.table[i].state == Ready <==> Willing(s, i))
      ensures u.table[i] == AfterTurn(s, -1, i)
    {
      PreemptWilling(s, i);
    }
    assert |u.table| == 64 by { PreemptWilling(s, 0); }
    var n := FindNext(u.table, s.current, 1);
    if s.enabled && n < 0 {
      forall i: nat ensures !Willing(s, i) {
        if i < 64 { NoneReady(u, i); }
      }
      assert u.table == s.table;
    } else if s.enabled {
      FoundNext(u, n);
      var d: nat :| 1 <= d <= 64 && n == Slot(s.current, d) && NoneReadyIn(u.table, s.current, 1, d);
      forall i: nat | 1 <= i < d ensures !Willing(s, Slot(s.current, i)) {
        assert u.table[Slot(s.current, i)].state != Ready;
      }
      assert NextUp(s, n, d);
    }
  }

  lemma FoundNext(s: Sched, n: int)
    requires Fits(s) && n == FindNext(s.table, s.current, 1) >= 0
    ensures 0 <= n < 64 && s.table[n].state == Ready
    ensures exists d: nat :: 1 <= d <= 64 && n == Slot(s.current, d) && NoneReadyIn(s.table, s.current, 1, d)
  {
  }

  /** A timer interrupt is exactly a turn. */
  lemma TickIsTurn(s: Sched, t: Sched)
    requires Fits(s)
    ensures t == Tick(s) <==> Turn(s, t)
  {
    hide Tick, Slot, Willing;
    var u := Tick(s);
    TickTurns(s);
    if Turn(s, t) && s.enabled && exists i: nat :: Willing(s, i) {
      var d: nat :| NextUp(s, t.current, d);
      var e: nat :| NextUp(s, u.current, e);
      assert d == e;
      assert t.table == u.table;
    }
  }

  /** Nobody is lost and somebody runs: what a timer interrupt means for each process. */
  lemma TurnFair(s: Sched)
    requires OnlyCurrentRuns(s) && s.enabled
    ensures var t := Tick(s);
      && |t.table| == 64
      && (forall i :: 0 <= i < 64 && s.table[i].state == Running ==> t.table[i].state in {Ready, Running})
      && (forall i :: 0 <= i < 64 && i != s.current && t.table[i] != s.table[i] ==>
        i == t.current && s.table[i].state == Ready && t.table[i].state == Running)
      && ((exists i :: 0 <= i < 64 && s.table[i].state in {Ready, Running}) ==>
        HasCurrent(t) && t.table[t.current].state == Running)
  {
    hide Tick, Slot;
    TickTurns(s);
    if i: nat :| i < 64 && s.table[i].state in {Ready, Running} {
      assert Willing(s, i);
    }
  }

  lemma FirstIs(t: seq<PCB>, pid: int, j: nat)
    ensures First(t, pid, j) <==> FindPid(t, pid, 0) == j
  {
  }

  lemma FirstFreeIs(t: seq<PCB>, j: nat)
    ensures FirstFree(t, j) <==> FindUnused(t, 0) == j
  {
  }

  /** Blocking and unblocking reach the first process of that number alone. */
  lemma BlockSlots(t: seq<PCB>, pid: int, j: nat)
    requires j < |t|
    ensures |Block(t, pid)| == |Unblock(t, pid)| == |t|
    ensures Block(t, pid)[j] == if First(t, pid, j) then t[j].(state := Blocked) else t[j]
    ensures Unblock(t, pid)[j] == if First(t, pid, j) then t[j].(state := Ready) else t[j]
  {
    FirstIs(t, pid, j);
  }

  /** A new process is ready, waits for nobody, and lies in the lowest unused slot. */
  lemma CreateSlots(s: Sched, ppid: nat, j: nat)
    requires j < |s.table|
    ensures var t := Create(s, ppid);
      && |t.table| == |s.table| && t.current == s.current && t.enabled == s.enabled
      && t.next == s.next + (if exists i :: 0 <= i < |s.table| && s.table[i].state == Unused then 1 else 0)
      && t.table[j] == if FirstFree(s.table, j) then PCB(s.next, ppid, Ready, -1, -1) else s.table[j]
  {
    FirstFreeIs(s.table, j);
  }

  /** The child of `vfork` is ready and keeps its parent, which is blocked until the child is gone. */
  lemma VforkSlots(s: Sched, j: nat)
    requires j < |s.table| && HasCurrent(s) && s.table[s.current].state != Unused
    ensures var t := Vfork(s);
      && |t.table| == |s.table| && t.current == s.current && t.enabled == s.enabled
      && if forall i :: 0 <= i < |s.table| ==> s.table[i].state != Unused then t == s else
        && t.next == s.next + 1
        && t.table[j] == if FirstFree(s.table, j) then PCB(s.next, s.table[s.current].pid, Ready, -1,
          s.table[s.current].pid)
          else if j == s.current then s.table[j].(state := Blocked, waitingFor := s.next) else s.table[j]
  {
    FirstFreeIs(s.table, j);
  }

  /** There is a process of that number, and it has not ended. */
  ghost predicate Pending(t: seq<PCB>, pid: int) { exists c: nat :: First(t, pid, c) && t[c].state != Zombie }

  /** The caller blocks, waiting for the child, exactly while the child is there and has not ended. */
  lemma WaitSlots(s: Sched, pid: nat, j: nat)
    requires j < |s.table| && HasCurrent(s)
    ensures var t := Wait(s, pid);
      && |t.table| == |s.table| && t == s.(table := t.table)
      && t.table[j] == if Pending(s.table, pid) && First(s.table, s.table[s.current].pid, j)
        then s.table[j].(waitingFor := pid, state := Blocked) else s.table[j]
  {
    FirstIs(s.table, s.table[s.current].pid, j);
    var c := FindPid(s.table, pid, 0);
    if c >= 0 { FirstIs(s.table, pid, c); }
    forall d: nat | First(s.table, pid, d) ensures d == c { FirstIs(s.table, pid, d); }
  }

  /** Reaping clears the slot of that number, so it can be used again. */
  lemma ReapSlots(s: Sched, pid: nat, j: nat)
    requires j < |s.table|
    ensures var t := Reap(s, pid);
      && |t.table| == |s.table| && t == s.(table := t.table)
      && t.table[j] == if First(s.table, pid, j) then Wiped(s.table[j]) else s.table[j]
  {
    FirstIs(s.table, pid, j);
  }

  /** A process whose child ended is ready and waits no more. */
  function Woken(p: PCB): PCB { p.(waitingFor := -1, state := Ready) }

  /** What slot `j` becomes when the parent of `i` goes on because it waits for this number. */
  ghost function ParentWoken(t: seq<PCB>, i: nat, pid: nat, j: nat): PCB
    requires i < |t| && j < |t|
  {
    if First(t, t[i].ppid, j) && t[j].waitingFor == pid then Woken(t[j]) else t[j]
  }

  /** What slot `j` becomes when the blocked parent of a `vfork` goes on and the child forgets it. */
  ghost function VforkWoken(t: seq<PCB>, i: nat, j: nat): PCB
    requires i < |t| && j < |t|
  {
    if t[i].vforkParent <= 0 then t[j] else
      var p := if First(t, t[i].vforkParent, j) && t[j].state == Blocked then Woken(t[j]) else t[j];
      if j == i then p.(vforkParent := -1) else p
  }

  /** The parent goes on exactly if it waits for this child. */
  lemma WakeParentSlots(t: seq<PCB>, i: nat, pid: nat, j: nat)
    requires i < |t| && j < |t|
    ensures |WakeParent(t, i, pid)| == |t|
    ensures WakeParent(t, i, pid)[j] == ParentWoken(t, i, pid, j)
  {
    FirstIs(t, t[i].ppid, j);
    var p := FindPid(t, t[i].ppid, 0);
    if p >= 0 {
      FirstIs(t, t[i].ppid, p);
      FirstIs(t[p := t[p].(waitingFor := -1)], t[i].ppid, p);
    }
  }

  /** The blocked parent of a `vfork` goes on, and the child forgets it. */
  lemma WakeVforkSlots(t: seq<PCB>, i: nat, j: nat)
    requires i < |t| && j < |t|
    ensures |WakeVfork(t, i)| == |t|
    ensures WakeVfork(t, i)[j] == VforkWoken(t, i, j)
  {
    FirstIs(t, t[i].vforkParent, j);
  }

  /** Process `i` has ended: slot `j` waits for it, as its parent or as the parent it was taken from by `vfork`. */
  predicate WaitsFor(t: seq<PCB>, i: nat, j: nat)
    requires i < |t| && j < |t|
  {
    || (t[j].pid == t[i].ppid && t[j].waitingFor == t[i].pid)
    || (t[i].vforkParent > 0 && t[j].pid == t[i].vforkParent && t[j].state == Blocked)
  }

  lemma FirstOnly(t: seq<PCB>, next: nat, pid: int, j: nat)
    requires Numbered(t, next) && pid > 0 && j < |t|
    ensures First(t, pid, j) <==> t[j].pid == pid
  {
    assert forall l :: 0 <= l < |t| ==> SlotNumbered(t[l], next);
  }

  /**
   Ending a process, slot by slot: it becomes a zombie, its descendants are cleared, and of all others exactly those
   that wait for it go on; nothing else changes.
   */
  lemma TerminateSlots(t: seq<PCB>, next: nat, i: nat, j: nat)
    requires Numbered(t, next) && i < |t| && t[i].state != Unused && j < |t|
    ensures |Terminate(t, i)| == |t|
    ensures Terminate(t, i)[j] == Ended(t, i, j)
  {
    hide Numbered, FindPid, WakeVfork, WakeParent, Descendants, First, Minus;
    var pid := t[i].pid;
    var z := t[i := t[i].(state := Zombie)];
    var k := Cleared(z, pid);
    SameNumbered(t, z, next);
    MinusNumbered(z, Descendants(z, pid), next);
    NotBelow(z, pid, i);
    MinusIs(z, Descendants(z, pid), i);
    MinusIs(z, Descendants(z, pid), j);
    NumberOf(t, next, i);
    ParentBelow(t, next, i);
    WakeBoth(k, next, i, j);
  }

  lemma ParentBelow(t: seq<PCB>, next: nat, i: nat)
    requires Numbered(t, next) && i < |t| && t[i].state != Unused
    ensures t[i].ppid < t[i].pid
  {
    assert SlotNumbered(t[i], next);
  }

  /** What ending the process in slot `i` makes of slot `j`. */
  ghost function Ended(t: seq<PCB>, i: nat, j: nat): PCB
    requires i < |t| && j < |t|
  {
    if j == i then t[i].(state := Zombie, vforkParent := if t[i].vforkParent > 0 then -1 else t[i].vforkParent)
    else if j in Descendants(t[i := t[i].(state := Zombie)], t[i].pid) then Wiped(t[j])
    else if WaitsFor(t, i, j) then Woken(t[j])
    else t[j]
  }

  /** The two wake-ups together, once the process is a zombie and its descendants are gone. */
  lemma WakeBoth(t: seq<PCB>, next: nat, i: nat, j: nat)
    requires Numbered(t, next) && i < |t| && j < |t| && t[i].state == Zombie
    ensures var u := WakeParent(WakeVfork(t, i), i, t[i].pid);
      |u| == |t| && u[j] ==
        if j == i then t[i].(vforkParent := if t[i].vforkParent > 0 then -1 else t[i].vforkParent)
        else if WaitsFor(t, i, j) then Woken(t[j]) else t[j]
  {
    hide Numbered, FindPid, WakeVfork, WakeParent, First;
    var v := WakeVfork(t, i);
    WakeVforkNumbers(t, next, i);
    SameNumbered(t, v, next);
    WakeVforkSlots(t, i, i);
    WakeVforkSlots(t, i, j);
    WakeParentSlots(v, i, t[i].pid, i);
    WakeParentSlots(v, i, t[i].pid, j);
    ParentBelow(t, next, i);
    if t[i].vforkParent > 0 {
      FirstOnly(t, next, t[i].vforkParent, i);
      FirstOnly(t, next, t[i].vforkParent, j);
    }
    if t[i].ppid > 0 {
      FirstOnly(v, next, t[i].ppid, j);
      FirstOnly(v, next, t[i].ppid, i);
    } else {
      FirstZero(v, next, i);
      FirstZero(v, next, j);
    }
  }

  /** Slots of number 0 wait for nobody. */
  lemma FirstZero(t: seq<PCB>, next: nat, j: nat)
    requires Numbered(t, next) && j < |t|
    ensures First(t, 0, j) ==> t[j].pid == 0
    ensures t[j].pid == 0 ==> t[j].waitingFor == 0 && t[j].state == Unused
  {
    assert SlotNumbered(t[j], next);
  }

  /** Killing by number ends the process of that number. */
  lemma KillSlots(s: Sched, pid: nat, i: nat, j: nat)
    requires Numbered(s.table, s.next) && pid > 0 && i < |s.table| && j < |s.table| && s.table[i].pid == pid
    ensures var t := Kill(s, pid);
      t == s.(table := t.table) && |t.table| == |s.table| && t.table[j] == Ended(s.table, i, j)
  {
    hide Numbered, Terminate, Ended, FindPid, First;
    FirstOnly(s.table, s.next, pid, i);
    FirstIs(s.table, pid, i);
    NumberOf(s.table, s.next, i);
    TerminateSlots(s.table, s.next, i, j);
  }

  /**
   When the current process exits, the first process after it that is ready then runs; with none, there is no current
   process. Else nothing changes beyond its end.
   */
  lemma ExitSlots(s: Sched)
    requires Fits(s) && Numbered(s.table, s.next) && HasCurrent(s) && s.table[s.current].state != Unused
    ensures var t := Exit(s);
      && t == s.(table := t.table, current := t.current) && |t.table| == 64
      && (forall j :: 0 <= j < 64 && j != t.current ==> t.table[j] == Ended(s.table, s.current, j))
      && (HasCurrent(t) ==> t.table[t.current] == Ended(s.table, s.current, t.current).(state := Running))
      && (if forall j :: 0 <= j < 64 ==> Ended(s.table, s.current, j).state != Ready then t.current == -1 else
        exists d: nat :: 1 <= d <= 64 && t.current == Slot(s.current, d)
          && Ended(s.table, s.current, t.current).state == Ready
          && forall i: nat :: 1 <= i < d ==> Ended(s.table, s.current, Slot(s.current, i)).state != Ready)
  {
    hide Terminate, FindNext, Numbered, Exit, Slot, Ended;
    ExitSteps(s);
    var u := s.(table := Terminate(s.table, s.current));
    forall j | 0 <= j < 64 ensures u.table[j] == Ended(s.table, s.current, j) {
      TerminateSlots(s.table, s.next, s.current, j);
    }
    var n := FindNext(u.table, s.current, 1);
    if n < 0 {
      forall j | 0 <= j < 64 ensures u.table[j].state != Ready { NoneReady(u, j); }
    } else {
      FoundNext(u, n);
      var d: nat :| 1 <= d <= 64 && n == Slot(s.current, d) && NoneReadyIn(u.table, s.current, 1, d);
      assert forall i: nat :: 1 <= i < d ==> u.table[Slot(s.current, i)].state != Ready;
    }
  }

  /**
   Scheduling starts with the lowest ready user task, or with the lowest ready process if there is no such task; with
   nobody ready, no process runs.
   */
  lemma StartSlots(s: Sched, user: seq<bool>)
    ensures var t := Start(s, user);
      && t.enabled && t.next == s.next && |t.table| == |s.table|
      && if forall i :: 0 <= i < |s.table| ==> s.table[i].state != Ready then
           t == s.(enabled := true)
         else
           && HasCurrent(t) && s.table[t.current].state == Ready
           && t.table == s.table[t.current := s.table[t.current].(state := Running)]
           && (forall i :: 0 <= i < |s.table| && ReadyTask(s, user, i) ==>
             ReadyTask(s, user, t.current) && t.current <= i)
           && (ReadyTask(s, user, t.current) || forall i :: 0 <= i < t.current ==> s.table[i].state != Ready)
  {
  }

  predicate ReadyTask(s: Sched, user: seq<bool>, i: int) {
    0 <= i < |s.table| && s.table[i].state == Ready && i < |user| && user[i]
  }

  lemma NotBelow(t: seq<PCB>, p: nat, i: nat)
    requires i < |t| && t[i].state == Zombie
    ensures i !in Descendants(t, p)
  {
  }

  // ---------------------------------------------------------------- bounded waiting

  /** How many slots are looked at before slot `p`. */
  function Distance(c: int, p: int): int { if c < p then p - c - 1 else p - c + 63 }

  /** The step chooses who runs next. */
  predicate Decides(s: Sched, op: Op) { (op == DoTick && s.enabled) || (op == DoExit && s.current >= 0) }

  ghost predicate StaysReady(s: Sched, ops: seq<Op>, p: nat)
    requires Fits(s) && p < 64
    decreases |ops|
  {
    && s.table[p].state == Ready
    && (ops != [] ==> (StepFits(s, ops[0]); StaysReady(Apply(s, ops[0]), ops[1..], p)))
  }

  ghost function Decisions(s: Sched, ops: seq<Op>): nat
    requires Fits(s)
    decreases |ops|
  {
    if ops == [] then 0 else
      StepFits(s, ops[0]);
      (if Decides(s, ops[0]) then 1 else 0) + Decisions(Apply(s, ops[0]), ops[1..])
  }

  lemma SlotDistance(c: int, p: nat, j: nat)
    requires -1 <= c < 64 && p < 64 && 1 <= j <= 64
    ensures Slot(c, Distance(c, p) + 1) == p && 0 <= Distance(c, p) <= 63
    ensures j <= Distance(c, p) ==> Distance(Slot(c, j), p) == Distance(c, p) - j
  {
  }

  /** A choice that is not `p`, made while `p` is ready, comes closer to it. */
  lemma DispatchCloser(s: Sched, p: nat)
    requires Fits(s) && p < 64 && s.table[p].state == Ready && Dispatch(s).table[p].state == Ready
    ensures Distance(Dispatch(s).current, p) < Distance(s.current, p)
  {
    hide Slot;
    SlotDistance(s.current, p, 1);
    var d := Distance(s.current, p);
    var n := FindNext(s.table, s.current, 1);
    assert s.table[Slot(s.current, d + 1)].state == Ready;
    assert n >= 0;
    var j: nat :| 1 <= j <= 64 && n == Slot(s.current, j) && NoneReadyIn(s.table, s.current, 1, j);
    assert j <= d + 1;
    assert n != p;
    SlotDistance(s.current, p, j);
  }

  /**
   A process that stays ready is passed over at most as often as there are slots before it: within 64
   decisions it runs.
   */
  lemma {:induction false} BoundedWaiting(s: Sched, ops: seq<Op>, p: nat)
    requires Fits(s) && p < 64 && StaysReady(s, ops, p)
    ensures Decisions(s, ops) <= Distance(s.current, p) < 64
    decreases |ops|
  {
    hide Terminate, Kill, Dispatch, Slot, FindNext;
    SlotDistance(s.current, p, 1);
    if ops != [] {
      var t := Apply(s, ops[0]);
      StepFits(s, ops[0]);
      BoundedWaiting(t, ops[1..], p);
      StepCloser(s, ops[0], p);
    }
  }

  lemma StepCloser(s: Sched, op: Op, p: nat)
    requires Fits(s) && p < 64 && s.table[p].state == Ready && Fits(Apply(s, op))
      && Apply(s, op).table[p].state == Ready
    ensures Distance(Apply(s, op).current, p) <= Distance(s.current, p) - if Decides(s, op) then 1 else 0
  {
    hide Terminate, Slot, FindNext;
    match op
    case DoTick => if s.enabled { DispatchCloser(Preempt(s), p); }
    case DoExit =>
      if s.current >= 0 {
        var t := s.(table := Terminate(s.table, s.current));
        TerminateSize(s.table, s.current);
        NoneReady(t, p);
        if t.table[p].state == Ready { DispatchCloser(t, p); }
      }
    case _ =>
  }

  lemma TerminateSize(t: seq<PCB>, i: nat)
    requires i < |t|
    ensures |Terminate(t, i)| == |t|
  {
    hide Descendants;
  }

  /** With a ready process, there is a next one. */
  lemma NoneReady(s: Sched, p: nat)
    requires Fits(s) && p < 64
    ensures s.table[p].state == Ready ==> FindNext(s.table, s.current, 1) >= 0
  {
    SlotDistance(s.current, p, 1);
    hide Slot;
    if s.table[p].state == Ready {
      assert s.table[Slot(s.current, Distance(s.current, p) + 1)].state == Ready;
    }
  }
}
