/**
 The one-shot notification (concurrency/src/notification.rs) that the lock protocol waits on: a flag, a
 mutex and a condition variable, over any number of waiting and notifying threads.  Waits may end
 without a notification.
 */
module Notifications {
  import opened Options
  import opened Totals

  type Tid = nat

  datatype Pc =
    | Idle
    | WaitCheck        // the unlocked test of the flag
    | WaitLock         // about to take the mutex
    | WaitTest         // holding the mutex, testing the flag
    | Parked           // on the condition variable, mutex released
    | WaitDone         // holding the mutex, about to return
    | Returned         // `wait` has returned
    | NotifyLock
    | NotifyStore      // holding the mutex, about to set the flag
    | NotifyWake       // holding the mutex, about to wake everyone
    | NotifyUnlock

  datatype State = State(flag: bool, mutex: Option<Tid>, pcs: map<Tid, Pc>)

  datatype Act = Go | BeginWait | BeginNotify | Spurious

  predicate Holds(pc: Pc) { pc.WaitTest? || pc.WaitDone? || pc.NotifyStore? || pc.NotifyWake? || pc.NotifyUnlock? }

  function Wake(pcs: map<Tid, Pc>): map<Tid, Pc>
  {
    map t | t in pcs :: if pcs[t].Parked? then WaitLock else pcs[t]
  }

  function Next(s: State, t: Tid, act: Act): Option<State>
    requires t in s.pcs
  {
    match (s.pcs[t], act)
    case (Idle, BeginWait) => Some(s.(pcs := s.pcs[t := WaitCheck]))
    case (WaitCheck, Go) => Some(s.(pcs := s.pcs[t := if s.flag then Returned else WaitLock]))
    case (WaitLock, Go) => if s.mutex == None then Some(s.(mutex := Some(t), pcs := s.pcs[t := WaitTest])) else None
    case (WaitTest, Go) =>
      if s.flag then Some(s.(pcs := s.pcs[t := WaitDone]))
      else Some(s.(mutex := None, pcs := s.pcs[t := Parked]))
    case (Parked, Spurious) => Some(s.(pcs := s.pcs[t := WaitLock]))
    case (WaitDone, Go) => Some(s.(mutex := None, pcs := s.pcs[t := Returned]))
    case (Idle, BeginNotify) => Some(s.(pcs := s.pcs[t := NotifyLock]))
    case (NotifyLock, Go) =>
      if s.mutex == None then Some(s.(mutex := Some(t), pcs := s.pcs[t := NotifyStore])) else None
    case (NotifyStore, Go) => Some(s.(flag := true, pcs := s.pcs[t := NotifyWake]))
    case (NotifyWake, Go) => Some(s.(pcs := Wake(s.pcs)[t := NotifyUnlock]))
    case (NotifyUnlock, Go) => Some(s.(mutex := None, pcs := s.pcs[t := Idle]))
    case _ => None
  }

  /**
   The mutex has one holder; a parked thread sees the flag unset or a notifier about to wake it; what has returned or
   passed the test saw the flag set.
   */
  ghost predicate Inv(s: State)
  {
    && (forall t :: t in s.pcs ==> (Holds(s.pcs[t]) <==> s.mutex == Some(t)))
    && (s.mutex.Some? ==> s.mutex.value in s.pcs)
    && (forall t :: t in s.pcs && s.pcs[t].Parked? ==> !s.flag || (s.mutex.Some? && s.pcs[s.mutex.value].NotifyWake?))
    && (forall t ::
          t in s.pcs && (s.pcs[t].WaitDone? || s.pcs[t].Returned? || s.pcs[t].NotifyWake? || s.pcs[t].NotifyUnlock?) ==>
          s.flag)
  }

  function Init(threads: set<Tid>): State { State(false, None, map t | t in threads :: Idle) }

  lemma {:induction false} StepInv(s: State, t: Tid, act: Act)
    requires Inv(s) && t in s.pcs && Next(s, t, act).Some?
    ensures Inv(Next(s, t, act).value)
    ensures s.flag ==> Next(s, t, act).value.flag
  {
  }

  ghost function Execute(s: State, events: seq<(Tid, Act)>): Option<State>
    decreases |events|
  {
    if events == [] then Some(s)
    else if events[0].0 !in s.pcs then None
    else
      match Next(s, events[0].0, events[0].1)
      case None => None
      case Some(s') => Execute(s', events[1..])
  }

  lemma {:induction false} RunInv(s: State, events: seq<(Tid, Act)>)
    requires Inv(s) && Execute(s, events).Some?
    ensures Inv(Execute(s, events).value) && (s.flag ==> Execute(s, events).value.flag)
    decreases |events|
  {
    if events != [] {
      StepInv(s, events[0].0, events[0].1);
      RunInv(Next(s, events[0].0, events[0].1).value, events[1..]);
    }
  }

  /**
   In every run, `wait` returns only after `notify` set the flag, and once it is set a waiting thread stays parked only
   until a notifier that already holds the mutex wakes it.
   */
  lemma {:induction false} NoMissedNotification(threads: set<Tid>, events: seq<(Tid, Act)>, t: Tid)
    requires Execute(Init(threads), events).Some? && t in Execute(Init(threads), events).value.pcs
    ensures
      var s := Execute(Init(threads), events).value;
      && (s.pcs[t].Returned? ==> s.flag)
      && (s.pcs[t].Parked? && s.flag ==>
            exists x :: x in s.pcs && s.pcs[x].NotifyWake? && Next(s, x, Go).Some? &&
              !Next(s, x, Go).value.pcs[t].Parked?)
  {
    RunInv(Init(threads), events);
    var s := Execute(Init(threads), events).value;
    if s.pcs[t].Parked? && s.flag {
      var x := s.mutex.value;
      assert x in s.pcs && s.pcs[x].NotifyWake?;
      assert Next(s, x, Go).Some?;
    }
  }

  // ---------------------------------------------------------------- what a call has done when it ends

  lemma {:induction false} StoresBeforeEnding(s: State, events: seq<(Tid, Act)>, t: Tid)
    requires Inv(s) && t in s.pcs && Execute(s, events).Some?
    requires s.flag || s.pcs[t].NotifyLock? || s.pcs[t].NotifyStore?
    ensures var s' := Execute(s, events).value;
      t in s'.pcs && (s'.flag || s'.pcs[t].NotifyLock? || s'.pcs[t].NotifyStore?)
    decreases |events|
  {
    if events != [] {
      StepInv(s, events[0].0, events[0].1);
      StoresBeforeEnding(Next(s, events[0].0, events[0].1).value, events[1..], t);
    }
  }

  /** Once a thread that has called `notify` is idle again, the flag is set. */
  lemma {:induction false} NotifySets(s: State, events: seq<(Tid, Act)>, t: Tid, k: nat)
    requires Inv(s) && Execute(s, events).Some? && k < |events| && events[k] == (t, BeginNotify)
    ensures var s' := Execute(s, events).value; t in s'.pcs && (s'.pcs[t].Idle? ==> s'.flag)
    decreases |events|
  {
    var (u, act) := events[0];
    var next := Next(s, u, act).value;
    StepInv(s, u, act);
    if k == 0 {
      StoresBeforeEnding(next, events[1..], t);
    } else {
      NotifySets(next, events[1..], t, k - 1);
    }
  }

  predicate Waits(pc: Pc) { pc.WaitCheck? || pc.WaitLock? || pc.WaitTest? || pc.Parked? || pc.WaitDone? }

  lemma {:induction false} WaitStep(s: State, u: Tid, act: Act, t: Tid)
    requires t in s.pcs && u in s.pcs && Next(s, u, act).Some? && (Waits(s.pcs[t]) || s.pcs[t].Returned?)
    ensures var s' := Next(s, u, act).value; t in s'.pcs && (Waits(s'.pcs[t]) || s'.pcs[t].Returned?)
  {
  }

  lemma {:induction false} WaitsOn(s: State, events: seq<(Tid, Act)>, t: Tid)
    requires Inv(s) && t in s.pcs && Execute(s, events).Some? && (Waits(s.pcs[t]) || s.pcs[t].Returned?)
    ensures var s' := Execute(s, events).value;
      t in s'.pcs && (Waits(s'.pcs[t]) || (s'.pcs[t].Returned? && s'.flag))
    decreases |events|
  {
    if events != [] {
      WaitStep(s, events[0].0, events[0].1, t);
      StepInv(s, events[0].0, events[0].1);
      hide Inv, Waits;
      WaitsOn(Next(s, events[0].0, events[0].1).value, events[1..], t);
    }
  }

  /** A thread that has called `wait` waits until it returns, and returns with the flag set. */
  lemma {:induction false} WaitHolds(s: State, events: seq<(Tid, Act)>, t: Tid, k: nat)
    requires Inv(s) && Execute(s, events).Some? && k < |events| && events[k] == (t, BeginWait)
    ensures var s' := Execute(s, events).value;
      t in s'.pcs && (Waits(s'.pcs[t]) || (s'.pcs[t].Returned? && s'.flag))
    decreases |events|
  {
    var (u, act) := events[0];
    var next := Next(s, u, act).value;
    StepInv(s, u, act);
    if k == 0 {
      WaitsOn(next, events[1..], t);
    } else {
      WaitHolds(next, events[1..], t, k - 1);
    }
  }

  // ---------------------------------------------------------------- every call ends

  /** The thread is going to wake everyone. */
  predicate WillWake(pc: Pc) { pc.NotifyLock? || pc.NotifyStore? || pc.NotifyWake? }

  /** The steps that are left to the thread before it ends, waits on the condition variable, or wakes everyone. */
  function StepsLeft(pc: Pc): nat
  {
    match pc
    case WaitCheck => 4
    case WaitLock => 3
    case WaitTest => 2
    case WaitDone => 1
    case NotifyLock => 4
    case NotifyStore => 3
    case NotifyWake => 2
    case NotifyUnlock => 1
    case _ => 0
  }

  function WakesOf(pc: Pc): nat { if WillWake(pc) then 1 else 0 }

  ghost function Wakes(pcs: map<Tid, Pc>): nat { Total(pcs, WakesOf) }

  ghost function Work(pcs: map<Tid, Pc>): nat { Total(pcs, StepsLeft) }

  lemma {:induction false} Woken(pcs: map<Tid, Pc>)
    ensures Wakes(Wake(pcs)) == Wakes(pcs) && forall t :: t in pcs && pcs[t].NotifyWake? ==> t in Wake(pcs)
    ensures forall t :: t in pcs && pcs[t].NotifyWake? ==> Wake(pcs)[t] == NotifyWake
  {
    TotalSame(pcs, WakesOf, Wake(pcs), WakesOf);
  }

  /** Every step of a call brings the end of all calls closer, whatever the order of the threads. */
  lemma {:induction false} GoDecreases(s: State, t: Tid)
    requires t in s.pcs && Next(s, t, Go).Some?
    ensures var s' := Next(s, t, Go).value;
      Wakes(s'.pcs) < Wakes(s.pcs) || (Wakes(s'.pcs) == Wakes(s.pcs) && Work(s'.pcs) < Work(s.pcs))
  {
    hide Wake;
    var pc := Next(s, t, Go).value.pcs[t];
    if s.pcs[t].NotifyWake? {
      Woken(s.pcs);
      TotalUpdate(Wake(s.pcs), WakesOf, t, NotifyUnlock);
    } else {
      assert Next(s, t, Go).value.pcs == s.pcs[t := pc];
      TotalUpdate(s.pcs, WakesOf, t, pc);
      TotalUpdate(s.pcs, StepsLeft, t, pc);
    }
  }

  /** A state in which no call can go on. */
  ghost predicate Stuck(s: State) { forall t :: t in s.pcs ==> Next(s, t, Go).None? }

  lemma {:induction false} HolderGoesOn(s: State)
    requires Inv(s) && s.mutex.Some?
    ensures Next(s, s.mutex.value, Go).Some?
  {
    assert Holds(s.pcs[s.mutex.value]);
  }

  /** Where no call can go on, all have ended, or wait for a notification that no one has made. */
  lemma {:induction false} StuckIsDone(s: State)
    requires Inv(s) && Stuck(s)
    ensures forall t :: t in s.pcs ==> s.pcs[t].Idle? || s.pcs[t].Returned? || (s.pcs[t].Parked? && !s.flag)
  {
    if s.mutex.Some? {
      HolderGoesOn(s);
    }
    forall t | t in s.pcs ensures s.pcs[t].Idle? || s.pcs[t].Returned? || (s.pcs[t].Parked? && !s.flag) {
      assert Next(s, t, Go).None?;
    }
  }

  /** Going on wherever possible comes to an end, and then, if the flag is set, every `wait` has returned. */
  lemma {:induction false} EveryCallEnds(s: State) returns (events: seq<(Tid, Act)>)
    requires Inv(s)
    ensures forall k :: 0 <= k < |events| ==> events[k].1 == Go
    ensures Execute(s, events).Some? && Stuck(Execute(s, events).value)
    ensures var s' := Execute(s, events).value;
      s.flag ==> s'.flag && forall t :: t in s'.pcs ==> s'.pcs[t].Idle? || s'.pcs[t].Returned?
    decreases Wakes(s.pcs), Work(s.pcs)
  {
    if t :| t in s.pcs && Next(s, t, Go).Some? {
      var next := Next(s, t, Go).value;
      StepInv(s, t, Go);
      GoDecreases(s, t);
      var rest := EveryCallEnds(next);
      events := [(t, Go)] + rest;
      assert events[1..] == rest;
    } else {
      events := [];
      StuckIsDone(s);
    }
  }

  /** The thread makes `n` steps. */
  function Own(t: Tid, n: nat): (events: seq<(Tid, Act)>)
    ensures |events| == n
  {
    if n == 0 then [] else [(t, Go)] + Own(t, n - 1)
  }

  lemma {:induction false} OwnStep(s: State, t: Tid, n: nat)
    requires n > 0 && t in s.pcs && Next(s, t, Go).Some?
    ensures Execute(s, Own(t, n)) == Execute(Next(s, t, Go).value, Own(t, n - 1))
  {
    assert Own(t, n)[1..] == Own(t, n - 1);
  }

  /** Once the flag is set and the mutex is free, a waiting thread returns by steps of its own. */
  lemma {:induction false} WaiterReturns(s: State, t: Tid)
    requires Inv(s) && s.flag && s.mutex == None && t in s.pcs
    requires s.pcs[t].WaitCheck? || s.pcs[t].WaitLock? || s.pcs[t].Parked?
    ensures var end := Execute(s, Own(t, if s.pcs[t].WaitCheck? then 1 else 3));
      end.Some? && t in end.value.pcs && end.value.pcs[t].Returned?
  {
    if s.pcs[t].WaitCheck? {
      OwnStep(s, t, 1);
    } else {
      var s1 := Next(s, t, Go).value;
      var s2 := Next(s1, t, Go).value;
      OwnStep(s, t, 3);
      OwnStep(s1, t, 2);
      OwnStep(s2, t, 1);
    }
  }
}
