/** The process table as it is kept in memory, changed in place slot by slot. */
module Processes {
  import opened ProcTable
  import S = Scheduler

  class Table {
    const slots: array<PCB>
    var current: int
    var nextPid: nat
    var enabled: bool

    ghost predicate Valid()
      reads this, slots
    {
      slots.Length == 64 && -1 <= current < 64
    }

    ghost function View(): S.Sched
      reads this, slots
    {
      S.Sched(slots[..], current, nextPid, enabled)
    }

    /** `proc_init`, before its first process is created. */
    constructor ()
      ensures Valid() && fresh(slots) && S.OnlyCurrentRuns(View()) && Ordered(View().table, View().next)
      ensures View() == S.Sched(seq(64, i => Empty), -1, 1, false)
    {
      slots := new PCB[64](_ => Empty);
      current, nextPid, enabled := -1, 1, false;
      new;
      assert slots[..] == seq(64, i => Empty);
    }

    /** `proc_kill_children`: clears exactly the descendants through live processes. */
    method KillChildren(parent: nat)
      requires slots.Length == 64 && Ordered(slots[..], nextPid)
      modifies slots
      ensures slots[..] == Cleared(old(slots[..]), parent) && Ordered(slots[..], nextPid)
      decreases if parent < nextPid then nextPid - parent else 0
    {
      hide Via, Minus, Cleared, Wiped, Ordered;
      ghost var t := slots[..];
      ViaNone(t, parent);
      var i := 0;
      while i < 64
        invariant 0 <= i <= 64
        invariant slots[..] == Minus(t, Via(t, parent, i)) && Ordered(slots[..], nextPid)
      {
        ViaNext(t, nextPid, parent, i);
        ghost var u := slots[..];
        if slots[i].state != Unused && slots[i].state != Zombie && slots[i].ppid == parent {
          OrderedAt(u, nextPid, i, slots[i].pid);
          KillChildren(slots[i].pid);
          slots[i] := Wiped(slots[i]);
          assert slots[..] == Cleared(u, t[i].pid)[i := Wiped(t[i])];
        }
        i := i + 1;
      }
      ViaAll(t, nextPid, parent);
      ClearedIs(t, parent);
    }

    method FindPid(pid: int) returns (r: int)
      requires Valid()
      ensures r == S.FindPid(slots[..], pid, 0)
    {
      var i := 0;
      while i < 64
        invariant 0 <= i <= 64 && S.FindPid(slots[..], pid, 0) == S.FindPid(slots[..], pid, i)
      {
        if slots[i].pid == pid {
          return i;
        }
        i := i + 1;
      }
      return -1;
    }

    method FindUnused() returns (r: int)
      requires Valid()
      ensures r == S.FindUnused(slots[..], 0)
    {
      var i := 0;
      while i < 64
        invariant 0 <= i <= 64 && S.FindUnused(slots[..], 0) == S.FindUnused(slots[..], i)
      {
        if slots[i].state == Unused {
          return i;
        }
        i := i + 1;
      }
      return -1;
    }

    /** The next ready slot after the current one, going round and ending with it. */
    method FindNext() returns (r: int)
      requires Valid()
      ensures r == S.FindNext(slots[..], current, 1)
    {
      hide S.FindNext, S.NoneReadyIn;
      var start := current;
      var i := 1;
      while i <= 64
        invariant 1 <= i <= 65 && S.FindNext(slots[..], current, 1) == S.FindNext(slots[..], current, i)
      {
        S.FindStep(slots[..], current, i);
        var idx := (start + i) % 64;
        if slots[idx].state == Ready {
          return idx;
        }
        i := i + 1;
      }
      S.FindLast(slots[..], current);
      return -1;
    }

    method Set(i: int, p: PCB)
      requires Valid() && 0 <= i < 64
      modifies slots
      ensures Valid() && slots[..] == old(slots[..])[i := p]
    {
      slots[i] := p;
    }

    method Block(pid: int)
      requires Valid()
      modifies slots
      ensures Valid() && slots[..] == S.Block(old(slots[..]), pid)
    {
      var i := FindPid(pid);
      if i >= 0 {
        Set(i, slots[i].(state := Blocked));
      }
    }

    method Unblock(pid: int)
      requires Valid()
      modifies slots
      ensures Valid() && slots[..] == S.Unblock(old(slots[..]), pid)
    {
      var i := FindPid(pid);
      if i >= 0 {
        Set(i, slots[i].(state := Ready));
      }
    }

    method Create(parent: nat) returns (pid: int)
      requires Valid()
      modifies this`nextPid, slots
      ensures Valid() && View() == S.Create(old(View()), parent)
      ensures if S.FindUnused(old(slots[..]), 0) < 0 then pid == -1 else pid == old(nextPid)
      ensures forall j :: 0 <= j < 64 ==>
        slots[j] == if S.FirstFree(old(slots[..]), j) then PCB(old(nextPid), parent, Ready, -1, -1) else old(slots[j])
      ensures parent < old(nextPid) && old(Ordered(slots[..], nextPid)) ==> Ordered(slots[..], nextPid)
    {
      forall j | 0 <= j < 64
        ensures S.Create(View(), parent).table[j] ==
          if S.FirstFree(slots[..], j) then PCB(nextPid, parent, Ready, -1, -1) else slots[j]
      {
        S.CreateSlots(View(), parent, j);
      }
      var i := FindUnused();
      if i < 0 {
        return -1;
      }
      pid := nextPid;
      Set(i, PCB(nextPid, parent, Ready, -1, -1));
      nextPid := nextPid + 1;
    }

    /** The process in a slot becomes a zombie, its descendants vanish, and those that wait for it go on. */
    method Terminate(i: int)
      requires Valid() && 0 <= i < 64 && Ordered(slots[..], nextPid)
      modifies slots
      ensures Valid() && slots[..] == S.Terminate(old(slots[..]), i)
      ensures old(Numbered(slots[..], nextPid) && slots[i].state != Unused) ==> forall j :: 0 <= j < 64 ==>
        slots[j] == S.Ended(old(slots[..]), i, j)
      ensures old(Numbered(slots[..], nextPid)) ==> (Numbered(slots[..], nextPid) <==> old(slots[i]).state != Unused)
    {
      hide Cleared, S.FindPid, S.WakeVfork, S.WakeParent, Numbered, S.Ended;
      ghost var t := slots[..];
      if Numbered(t, nextPid) {
        S.TerminateNumbered(t, nextPid, i);
        if t[i].state != Unused {
          forall j | 0 <= j < 64 ensures |S.Terminate(t, i)| == |t| && S.Terminate(t, i)[j] == S.Ended(t, i, j) {
            S.TerminateSlots(t, nextPid, i, j);
          }
        }
      }
      var pid := slots[i].pid;
      Set(i, slots[i].(state := Zombie));
      KillChildren(pid);
      WakeVfork(i);
      WakeParent(i, pid);
    }

    method WakeVfork(i: int)
      requires Valid() && 0 <= i < 64
      modifies slots
      ensures Valid() && slots[..] == S.WakeVfork(old(slots[..]), i)
      ensures forall j :: 0 <= j < 64 ==> slots[j] == S.VforkWoken(old(slots[..]), i, j)
    {
      ghost var t := slots[..];
      forall j | 0 <= j < 64 ensures |S.WakeVfork(t, i)| == 64 && S.WakeVfork(t, i)[j] == S.VforkWoken(t, i, j) {
        S.WakeVforkSlots(t, i, j);
      }
      if slots[i].vforkParent > 0 {
        var v := FindPid(slots[i].vforkParent);
        if v >= 0 && slots[v].state == Blocked {
          Set(v, slots[v].(waitingFor := -1, state := Ready));
        }
        Set(i, slots[i].(vforkParent := -1));
      }
    }

    method WakeParent(i: int, pid: nat)
      requires Valid() && 0 <= i < 64
      modifies slots
      ensures Valid() && slots[..] == S.WakeParent(old(slots[..]), i, pid)
      ensures forall j :: 0 <= j < 64 ==> slots[j] == S.ParentWoken(old(slots[..]), i, pid, j)
    {
      ghost var t := slots[..];
      forall j | 0 <= j < 64
        ensures |S.WakeParent(t, i, pid)| == 64 && S.WakeParent(t, i, pid)[j] == S.ParentWoken(t, i, pid, j)
      {
        S.WakeParentSlots(t, i, pid, j);
      }
      var p := FindPid(slots[i].ppid);
      if p >= 0 && slots[p].waitingFor == pid {
        Set(p, slots[p].(waitingFor := -1));
        Unblock(slots[p].pid);
      }
    }

    method Dispatch(next: int)
      requires Valid() && next == S.FindNext(slots[..], current, 1) >= 0
      modifies this`current, slots
      ensures Valid() && View() == S.Dispatch(old(View()))
    {
      current := next;
      Set(next, slots[next].(state := Running));
    }

    method ScheduleInterrupt()
      requires Valid()
      modifies this`current, slots
      ensures Valid() && View() == S.Tick(old(View())) && S.Turn(old(View()), View())
    {
      S.TickTurns(View());
      if !enabled {
        return;
      }
      if current >= 0 && slots[current].state != Unused {
        if slots[current].state == Running {
          Set(current, slots[current].(state := Ready));
        }
      }
      assert View() == S.Preempt(old(View()));
      var next := FindNext();
      if next >= 0 {
        Dispatch(next);
      }
    }

    method Exit()
      requires Valid() && Ordered(slots[..], nextPid)
      modifies this`current, slots
      ensures Valid() && View() == S.Exit(old(View()))
      ensures old(Numbered(slots[..], nextPid)) ==>
                (Numbered(slots[..], nextPid) <==> old(current < 0 || slots[current].state != Unused))
    {
      hide S.Terminate, S.FindNext, Numbered, S.Exit;
      S.ExitSteps(View());
      if Numbered(slots[..], nextPid) { S.ExitNumbered(View()); }
      if current < 0 {
        return;
      }
      Terminate(current);
      var next := FindNext();
      if next < 0 {
        current := -1;
      } else {
        Dispatch(next);
      }
    }
  }
}
