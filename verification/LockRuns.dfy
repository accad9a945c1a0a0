/**
 Runs of the read-optimized lock (concurrency/src/lib.rs): what writes do to the data, what a call of `read` or `lock`
 has got when it ends, and that every call ends whatever the order of the threads.
 */
module LockRuns {
  import opened Options
  import opened ReadLock
  import opened Totals

  // ---------------------------------------------------------------- the data

  /** The value that the events store last, or the one from before. */
  function LastStored(data: int, events: seq<(Tid, Act)>): int
    decreases |events|
  {
    if events == [] then data
    else LastStored(if events[0].1.Store? then events[0].1.value else data, events[1..])
  }

  lemma {:induction false} StepData(s: State, t: Tid, act: Act)
    requires t in s.pcs && s.cell in s.tokens && Guards(s.pcs[t]) <= s.tokens.Keys && Next(s, t, act).Some?
    ensures Next(s, t, act).value.data == if act.Store? then act.value else s.data
    ensures act.Store? ==> s.pcs[t].Writing?
  {
  }

  /** After a run the data is what was stored last. */
  lemma {:induction false} DataIsLastStored(s: State, events: seq<(Tid, Act)>)
    requires Execute(s, events).Some?
    ensures Execute(s, events).value.data == LastStored(s.data, events)
    decreases |events|
  {
    if events != [] {
      var (t, act) := events[0];
      StepData(s, t, act);
      hide Next;
      DataIsLastStored(Next(s, t, act).value, events[1..]);
    }
  }

  // ---------------------------------------------------------------- what a step does to its thread

  /** The thread is in `lock` and has no access yet. */
  predicate Locking(pc: Pc)
  {
    var b := Base(pc);
    || b.LockStart? || b.LockLoaded? || b.LockBlocked? || b.LockWaiting? || b.LockReady? || b.LockLost?
    || b.LockLostGuard? || b.LockWon? || b.LockWonPrev? || b.LockRcu? || b.LockDrain?
  }

  /** The thread is in `read` and has no access yet. */
  predicate ReadPending(pc: Pc)
  {
    var b := Base(pc);
    b.ReadStart? || b.ReadLoaded? || b.ReadBlocked? || b.ReadWaiting?
  }

  /** The end of the current write has not been announced yet. */
  ghost predicate CurrentIsOpen(s: State)
  {
    s.cell in s.tokens && (s.tokens[s.cell].WriteOngoing? ==> s.tokens[s.cell].unblock !in s.notified)
  }

  lemma {:induction false} StaysOpen(s: State, t: Tid, act: Act)
    requires Inv(s) && CurrentIsOpen(s) && t in s.pcs && Next(s, t, act).Some?
    ensures CurrentIsOpen(Next(s, t, act).value)
  {
    Local(s, t);
    hide OnlyLastHeld, OneOwner, WritesAnnounced;
  }

  /** How often the thread is still going to change the cell. */
  function Changes(pc: Pc): nat { if Owner(pc) then 1 else if Locking(pc) then 2 else 0 }

  ghost predicate Current(cell: TokId, tokens: map<TokId, Token>, n: NoteId)
  {
    cell in tokens && tokens[cell] == WriteOngoing(n)
  }

  /**
   The steps that are left to the thread while the cell stays; what is known of an older cell has to be found out again.
   */
  ghost function StepsFrom(cell: TokId, tokens: map<TokId, Token>, pc: Pc): nat
  {
    match pc
    case Idle => 0
    case ReadStart => 6
    case ReadLoaded(k) => if k == cell then 5 else 9
    case Reading(_) => 3
    case ReadBlocked(k, _) => if k == cell then 3 else 8
    case ReadWaiting(n) => if Current(cell, tokens, n) then 2 else 7
    case LockStart => 6
    case LockLoaded(k) => if k == cell then 5 else 12
    case LockReady(k, _) => if k == cell then 2 else 11
    case LockBlocked(k, _) => if k == cell then 3 else 8
    case LockWaiting(n) => if Current(cell, tokens, n) then 2 else 7
    case LockLost(_, _) => 10
    case LockLostGuard(_) => 8
    case LockWon(_, _, _) => 10
    case LockWonPrev(_, _, _) => 9
    case LockRcu(_, _) => 7
    case LockDrain(_, _) => 6
    case Writing(_) => 5
    case Unblocking(_) => 2
    case Triggering(_, _) => 0
  }

  ghost function StepsLeft(cell: TokId, tokens: map<TokId, Token>, pc: Pc): nat
  {
    StepsFrom(cell, tokens, Base(pc)) + if pc.Triggering? then 1 else 0
  }

  ghost function AllChanges(s: State): nat { Total(s.pcs, Changes) }

  ghost function Work(s: State): nat { Total(s.pcs, pc => StepsLeft(s.cell, s.tokens, pc)) }

  /** The step changes the cell. */
  predicate ChangesCell(s: State, t: Tid)
    requires t in s.pcs
  {
    s.pcs[t].Writing? || (s.pcs[t].LockReady? && s.cell == s.pcs[t].tok)
  }

  lemma {:induction false} StoreChanges(s: State, t: Tid)
    requires Inv(s) && t in s.pcs && s.pcs[t].Writing?
    ensures Next(s, t, Go).Some? && Next(s, t, Go).value.pcs == s.pcs[t := Unblocking(s.pcs[t].unblock)]
  {
    Local(s, t);
    hide Inv, Remembers, Guards;
  }

  lemma {:induction false} SwapChanges(s: State, t: Tid)
    requires Inv(s) && t in s.pcs && s.pcs[t].LockReady? && s.cell == s.pcs[t].tok
    ensures Next(s, t, Go).Some?
    ensures Next(s, t, Go).value.pcs == s.pcs[t := LockWon(s.pcs[t].tok, s.pcs[t].done, s.nextNote)]
  {
    Local(s, t);
    hide Inv, Remembers, Guards;
  }

  lemma {:induction false} ChangeCounts(s: State, t: Tid)
    requires Inv(s) && t in s.pcs && Next(s, t, Go).Some? && ChangesCell(s, t)
    ensures AllChanges(Next(s, t, Go).value) < AllChanges(s)
  {
    var pc := s.pcs[t];
    if pc.Writing? {
      StoreChanges(s, t);
      hide Next, Inv;
      TotalUpdate(s.pcs, Changes, t, Unblocking(pc.unblock));
    } else {
      SwapChanges(s, t);
      hide Next, Inv;
      TotalUpdate(s.pcs, Changes, t, LockWon(pc.tok, pc.done, s.nextNote));
    }
  }

  /** What a step of a call that leaves the cell alone does to the thread. */
  ghost predicate Advances(s: State, pc: Pc, next: Pc)
  {
    && Changes(next) == Changes(pc) && StepsLeft(s.cell, s.tokens, next) < StepsLeft(s.cell, s.tokens, pc)
    && (Locking(pc) ==> Locking(next) || next.Writing?) && (ReadPending(pc) ==> ReadPending(next) || next.Reading?)
  }

  /** The thread gives up a guard and goes on, or announces first that the last guard on the token is gone. */
  lemma {:induction false} Releases(s: State, t: Tid, tok: TokId, next: Pc)
    requires t in s.pcs && tok in s.tokens
    ensures var s' := Release(s, t, tok, next);
      && t in s'.pcs && MovesTo(s, t, s', s'.pcs[t]) && (!s.tokens[tok].ReadOk? ==> s'.pcs[t] == next)
      && (s'.pcs[t] == next || s'.pcs[t] == Triggering(NoteOf(s.tokens[tok]), next))
  {
    hide Held;
  }

  /** The step moves the thread and leaves the others and the tokens alone. */
  predicate MovesTo(s: State, t: Tid, s': State, next: Pc)
    requires t in s.pcs
  {
    s'.pcs == s.pcs[t := next] && s'.cell == s.cell && s'.tokens == s.tokens
  }

  ghost predicate Advanced(s: State, t: Tid, s': State)
    requires t in s.pcs
  {
    t in s'.pcs && MovesTo(s, t, s', s'.pcs[t]) && Advances(s, s.pcs[t], s'.pcs[t])
  }

  lemma {:induction false} ReadStartAdvances(s: State, t: Tid)
    requires Inv(s) && CurrentIsOpen(s) && t in s.pcs && Next(s, t, Go).Some?
    requires s.pcs[t].ReadStart?
    ensures Advanced(s, t, Next(s, t, Go).value)
  {
    Local(s, t);
    hide Inv, CurrentIsOpen, Remembers;
    var next := ReadLoaded(s.cell);
    assert MovesTo(s, t, Next(s, t, Go).value, next);
    hide Next, Guards;
  }

  lemma {:induction false} ReadLoadedAdvances(s: State, t: Tid)
    requires Inv(s) && CurrentIsOpen(s) && t in s.pcs && Next(s, t, Go).Some?
    requires s.pcs[t].ReadLoaded?
    ensures Advanced(s, t, Next(s, t, Go).value)
  {
    Local(s, t);
    var tok := s.pcs[t].tok;
    assert tok in Guards(s.pcs[t]);
    hide Inv, CurrentIsOpen, Remembers, Next, Guards, Advances, StepsLeft;
    ReadLoadedMoves(s, t, tok);
    ReadLoadedFalls(s, tok);
  }

  lemma {:induction false} ReadLoadedFalls(s: State, tok: TokId)
    requires tok in s.tokens
    ensures s.tokens[tok].ReadOk? ==> Advances(s, ReadLoaded(tok), Reading(tok))
    ensures !s.tokens[tok].ReadOk? ==> Advances(s, ReadLoaded(tok), ReadBlocked(tok, s.tokens[tok].unblock))
  {
  }

  lemma {:induction false} ReadLoadedMoves(s: State, t: Tid, tok: TokId)
    requires t in s.pcs && s.pcs[t] == ReadLoaded(tok) && s.cell in s.tokens && Guards(s.pcs[t]) <= s.tokens.Keys
    requires tok in s.tokens
    ensures Next(s, t, Go).Some? && MovesTo(s, t, Next(s, t, Go).value,
      if s.tokens[tok].ReadOk? then Reading(tok) else ReadBlocked(tok, s.tokens[tok].unblock))
  {
    hide Guards;
  }

  lemma {:induction false} ReadWaitingAdvances(s: State, t: Tid)
    requires Inv(s) && CurrentIsOpen(s) && t in s.pcs && Next(s, t, Go).Some?
    requires s.pcs[t].ReadWaiting?
    ensures Advanced(s, t, Next(s, t, Go).value)
  {
    Local(s, t);
    hide Inv;
    var next := ReadStart;
    assert MovesTo(s, t, Next(s, t, Go).value, next);
    assert s.pcs[t].note in s.notified;
    hide Next, Guards;
  }

  lemma {:induction false} ReadBlockedAdvances(s: State, t: Tid)
    requires Inv(s) && CurrentIsOpen(s) && t in s.pcs && Next(s, t, Go).Some?
    requires s.pcs[t].ReadBlocked?
    ensures Advanced(s, t, Next(s, t, Go).value)
  {
    Local(s, t);
    hide Inv, CurrentIsOpen, Release, Advances, StepsLeft;
    var tok, note := s.pcs[t].tok, s.pcs[t].note;
    assert s.tokens[tok] == WriteOngoing(note);
    assert Next(s, t, Go) == Some(Release(s, t, tok, ReadWaiting(note)));
    hide Next, Guards, Remembers;
    Releases(s, t, tok, ReadWaiting(note));
    ReadBlockedFalls(s, tok, note);
  }

  lemma {:induction false} ReadBlockedFalls(s: State, tok: TokId, note: NoteId)
    requires tok in s.tokens && s.tokens[tok] == WriteOngoing(note)
    ensures Advances(s, ReadBlocked(tok, note), ReadWaiting(note))
  {
  }

  lemma {:induction false} ReadingAdvances(s: State, t: Tid)
    requires Inv(s) && CurrentIsOpen(s) && t in s.pcs && Next(s, t, Go).Some?
    requires s.pcs[t].Reading?
    ensures Advanced(s, t, Next(s, t, Go).value)
  {
    Local(s, t);
    hide Inv, CurrentIsOpen, Release, Remembers;
    var tok, next := s.pcs[t].tok, Idle;
    assert Next(s, t, Go) == Some(Release(s, t, tok, next));
    Releases(s, t, tok, next);
    hide Next, Guards;
  }

  lemma {:induction false} LockStartAdvances(s: State, t: Tid)
    requires Inv(s) && CurrentIsOpen(s) && t in s.pcs && Next(s, t, Go).Some?
    requires s.pcs[t].LockStart?
    ensures Advanced(s, t, Next(s, t, Go).value)
  {
    Local(s, t);
    hide Inv, CurrentIsOpen, Remembers;
    var next := LockLoaded(s.cell);
    assert MovesTo(s, t, Next(s, t, Go).value, next);
    hide Next, Guards;
  }

  lemma {:induction false} LockLoadedAdvances(s: State, t: Tid)
    requires Inv(s) && CurrentIsOpen(s) && t in s.pcs && Next(s, t, Go).Some?
    requires s.pcs[t].LockLoaded?
    ensures Advanced(s, t, Next(s, t, Go).value)
  {
    Local(s, t);
    var tok := s.pcs[t].tok;
    assert tok in Guards(s.pcs[t]);
    hide Inv, CurrentIsOpen, Remembers, Next, Guards, Advances, StepsLeft;
    LockLoadedMoves(s, t, tok);
    LockLoadedFalls(s, tok);
  }

  lemma {:induction false} LockLoadedFalls(s: State, tok: TokId)
    requires tok in s.tokens
    ensures s.tokens[tok].ReadOk? ==> Advances(s, LockLoaded(tok), LockReady(tok, s.tokens[tok].done))
    ensures !s.tokens[tok].ReadOk? ==> Advances(s, LockLoaded(tok), LockBlocked(tok, s.tokens[tok].unblock))
  {
  }

  lemma {:induction false} LockLoadedMoves(s: State, t: Tid, tok: TokId)
    requires t in s.pcs && s.pcs[t] == LockLoaded(tok) && s.cell in s.tokens && Guards(s.pcs[t]) <= s.tokens.Keys
    requires tok in s.tokens
    ensures Next(s, t, Go).Some? && MovesTo(s, t, Next(s, t, Go).value,
      if s.tokens[tok].ReadOk? then LockReady(tok, s.tokens[tok].done) else LockBlocked(tok, s.tokens[tok].unblock))
  {
    hide Guards;
  }

  lemma {:induction false} LockWaitingAdvances(s: State, t: Tid)
    requires Inv(s) && CurrentIsOpen(s) && t in s.pcs && Next(s, t, Go).Some?
    requires s.pcs[t].LockWaiting?
    ensures Advanced(s, t, Next(s, t, Go).value)
  {
    Local(s, t);
    hide Inv;
    var next := LockStart;
    assert MovesTo(s, t, Next(s, t, Go).value, next);
    assert s.pcs[t].note in s.notified;
    hide Next, Guards;
  }

  lemma {:induction false} LockBlockedAdvances(s: State, t: Tid)
    requires Inv(s) && CurrentIsOpen(s) && t in s.pcs && Next(s, t, Go).Some?
    requires s.pcs[t].LockBlocked?
    ensures Advanced(s, t, Next(s, t, Go).value)
  {
    Local(s, t);
    hide Inv, CurrentIsOpen, Release;
    var tok, next := s.pcs[t].tok, LockWaiting(s.pcs[t].note);
    assert Next(s, t, Go) == Some(Release(s, t, tok, next));
    Releases(s, t, tok, next);
    hide Next, Guards;
  }

  lemma {:induction false} LockReadyAdvances(s: State, t: Tid)
    requires Inv(s) && CurrentIsOpen(s) && t in s.pcs && Next(s, t, Go).Some?
    requires s.pcs[t].LockReady? && s.cell != s.pcs[t].tok
    ensures Advanced(s, t, Next(s, t, Go).value)
  {
    Local(s, t);
    hide Inv, CurrentIsOpen, Remembers;
    var next := LockLost(s.pcs[t].tok, s.cell);
    assert MovesTo(s, t, Next(s, t, Go).value, next);
    hide Next, Guards;
  }

  lemma {:induction false} LockLostAdvances(s: State, t: Tid)
    requires Inv(s) && CurrentIsOpen(s) && t in s.pcs && Next(s, t, Go).Some?
    requires s.pcs[t].LockLost?
    ensures Advanced(s, t, Next(s, t, Go).value)
  {
    Local(s, t);
    hide Inv, CurrentIsOpen, Release;
    var tok, next := s.pcs[t].prev, LockLostGuard(s.pcs[t].tok);
    assert Next(s, t, Go) == Some(Release(s, t, tok, next));
    Releases(s, t, tok, next);
    hide Next, Guards;
  }

  lemma {:induction false} LockLostGuardAdvances(s: State, t: Tid)
    requires Inv(s) && CurrentIsOpen(s) && t in s.pcs && Next(s, t, Go).Some?
    requires s.pcs[t].LockLostGuard?
    ensures Advanced(s, t, Next(s, t, Go).value)
  {
    Local(s, t);
    hide Inv, CurrentIsOpen, Release, Remembers;
    var tok, next := s.pcs[t].tok, LockStart;
    assert Next(s, t, Go) == Some(Release(s, t, tok, next));
    Releases(s, t, tok, next);
    hide Next, Guards;
  }

  lemma {:induction false} LockWonAdvances(s: State, t: Tid)
    requires Inv(s) && CurrentIsOpen(s) && t in s.pcs && Next(s, t, Go).Some?
    requires s.pcs[t].LockWon?
    ensures Advanced(s, t, Next(s, t, Go).value)
  {
    Local(s, t);
    hide Inv, CurrentIsOpen, Remembers;
    var next := LockWonPrev(s.pcs[t].tok, s.pcs[t].done, s.pcs[t].unblock);
    assert MovesTo(s, t, Next(s, t, Go).value, next);
    hide Next, Guards;
  }

  lemma {:induction false} LockWonPrevAdvances(s: State, t: Tid)
    requires Inv(s) && CurrentIsOpen(s) && t in s.pcs && Next(s, t, Go).Some?
    requires s.pcs[t].LockWonPrev?
    ensures Advanced(s, t, Next(s, t, Go).value)
  {
    Local(s, t);
    hide Inv, CurrentIsOpen, Release, Remembers;
    var tok, next := s.pcs[t].tok, LockRcu(s.pcs[t].done, s.pcs[t].unblock);
    assert Next(s, t, Go) == Some(Release(s, t, tok, next));
    Releases(s, t, tok, next);
    hide Next, Guards;
  }

  lemma {:induction false} LockRcuAdvances(s: State, t: Tid)
    requires Inv(s) && CurrentIsOpen(s) && t in s.pcs && Next(s, t, Go).Some?
    requires s.pcs[t].LockRcu?
    ensures Advanced(s, t, Next(s, t, Go).value)
  {
    Local(s, t);
    hide Inv, CurrentIsOpen, Remembers;
    var next := LockDrain(s.pcs[t].done, s.pcs[t].unblock);
    assert MovesTo(s, t, Next(s, t, Go).value, next);
    hide Next, Guards;
  }

  lemma {:induction false} LockDrainAdvances(s: State, t: Tid)
    requires Inv(s) && CurrentIsOpen(s) && t in s.pcs && Next(s, t, Go).Some?
    requires s.pcs[t].LockDrain?
    ensures Advanced(s, t, Next(s, t, Go).value)
  {
    Local(s, t);
    hide Inv, CurrentIsOpen, Remembers;
    var next := Writing(s.pcs[t].unblock);
    assert MovesTo(s, t, Next(s, t, Go).value, next);
    hide Next, Guards;
  }

  lemma {:induction false} UnblockingAdvances(s: State, t: Tid)
    requires Inv(s) && CurrentIsOpen(s) && t in s.pcs && Next(s, t, Go).Some?
    requires s.pcs[t].Unblocking?
    ensures Advanced(s, t, Next(s, t, Go).value)
  {
    Local(s, t);
    hide Inv, CurrentIsOpen, Remembers;
    var next := Idle;
    assert MovesTo(s, t, Next(s, t, Go).value, next);
    hide Next, Guards;
  }

  lemma {:induction false} TriggeringAdvances(s: State, t: Tid)
    requires Inv(s) && CurrentIsOpen(s) && t in s.pcs && Next(s, t, Go).Some?
    requires s.pcs[t].Triggering?
    ensures Advanced(s, t, Next(s, t, Go).value)
  {
    Local(s, t);
    hide Inv, CurrentIsOpen, Advances, StepsLeft;
    assert MovesTo(s, t, Next(s, t, Go).value, s.pcs[t].next) && !s.pcs[t].next.Triggering?;
    hide Next, Remembers, Guards;
    TriggeringFalls(s, s.pcs[t]);
  }

  lemma {:induction false} TriggeringFalls(s: State, pc: Pc)
    requires pc.Triggering? && !pc.next.Triggering?
    ensures Advances(s, pc, pc.next)
  {
    hide StepsFrom;
  }

  lemma {:induction false} OtherAdvances(s: State, t: Tid)
    requires Inv(s) && CurrentIsOpen(s) && t in s.pcs && Next(s, t, Go).Some? && !ChangesCell(s, t)
    ensures Advanced(s, t, Next(s, t, Go).value)
  {
    NotIdle(s, t);
    assert !s.pcs[t].Writing? && (s.pcs[t].LockReady? ==> s.cell != s.pcs[t].tok);
    hide *;
    match s.pcs[t]
    case ReadStart => ReadStartAdvances(s, t);
    case ReadLoaded(_) => ReadLoadedAdvances(s, t);
    case ReadWaiting(_) => ReadWaitingAdvances(s, t);
    case ReadBlocked(_, _) => ReadBlockedAdvances(s, t);
    case Reading(_) => ReadingAdvances(s, t);
    case LockStart => LockStartAdvances(s, t);
    case LockLoaded(_) => LockLoadedAdvances(s, t);
    case LockWaiting(_) => LockWaitingAdvances(s, t);
    case LockBlocked(_, _) => LockBlockedAdvances(s, t);
    case LockReady(_, _) => LockReadyAdvances(s, t);
    case LockLost(_, _) => LockLostAdvances(s, t);
    case LockLostGuard(_) => LockLostGuardAdvances(s, t);
    case LockWon(_, _, _) => LockWonAdvances(s, t);
    case LockWonPrev(_, _, _) => LockWonPrevAdvances(s, t);
    case LockRcu(_, _) => LockRcuAdvances(s, t);
    case LockDrain(_, _) => LockDrainAdvances(s, t);
    case Unblocking(_) => UnblockingAdvances(s, t);
    case Triggering(_, _) => TriggeringAdvances(s, t);
  }

  lemma {:induction false} NotIdle(s: State, t: Tid)
    requires Inv(s) && t in s.pcs && Next(s, t, Go).Some?
    ensures !s.pcs[t].Idle?
  {
    Local(s, t);
    hide Inv, Remembers, Guards, Release;
  }

  // ---------------------------------------------------------------- what a call has got when it ends

  /** After the first `j` events the thread has exclusive access. */
  ghost predicate HasWriteAccess(s: State, events: seq<(Tid, Act)>, j: nat, t: Tid)
    requires j <= |events|
  {
    var end := Execute(s, events[..j]);
    end.Some? && t in end.value.pcs && end.value.pcs[t].Writing?
  }

  /** After the first `j` events the thread has a reader's guard. */
  ghost predicate HasReadAccess(s: State, events: seq<(Tid, Act)>, j: nat, t: Tid)
    requires j <= |events|
  {
    var end := Execute(s, events[..j]);
    end.Some? && t in end.value.pcs && end.value.pcs[t].Reading?
  }

  /** A thread that waits for access goes on waiting for it or gets it. */
  ghost predicate KeepsPending(pc: Pc, next: Pc)
  {
    (Locking(pc) ==> Locking(next) || next.Writing?) && (ReadPending(pc) ==> ReadPending(next) || next.Reading?)
  }

  lemma {:induction false} OtherActs(s: State, u: Tid, act: Act)
    requires Inv(s) && u in s.pcs && Next(s, u, act).Some? && act != Go
    ensures var s' := Next(s, u, act).value;
      u in s'.pcs && MovesTo(s, u, s', s'.pcs[u]) && KeepsPending(s.pcs[u], s'.pcs[u])
  {
    Local(s, u);
    hide Inv, Remembers, Guards, Release;
    assert s.pcs[u].Idle? || s.pcs[u].Writing?;
  }

  lemma {:induction false} StepPending(s: State, u: Tid, act: Act, t: Tid)
    requires Inv(s) && CurrentIsOpen(s) && u in s.pcs && t in s.pcs && Next(s, u, act).Some?
    ensures var s' := Next(s, u, act).value; t in s'.pcs && KeepsPending(s.pcs[t], s'.pcs[t])
  {
    if act != Go {
      OtherActs(s, u, act);
      hide Inv, CurrentIsOpen, Next;
    } else if !ChangesCell(s, u) {
      OtherAdvances(s, u);
      hide Inv, CurrentIsOpen, Next;
    } else if s.pcs[u].Writing? {
      StoreChanges(s, u);
      hide Inv, CurrentIsOpen, Next;
    } else {
      SwapChanges(s, u);
      hide Inv, CurrentIsOpen, Next;
    }
  }

  /** The state after the first event. */
  ghost function Second(s: State, events: seq<(Tid, Act)>): State
  {
    if events != [] && events[0].0 in s.pcs && s.cell in s.tokens && Guards(s.pcs[events[0].0]) <= s.tokens.Keys
    then
      var next := Next(s, events[0].0, events[0].1);
      if next.Some? then next.value else s
    else s
  }

  lemma {:induction false} FirstStep(s: State, events: seq<(Tid, Act)>, t: Tid)
    requires Inv(s) && CurrentIsOpen(s) && Execute(s, events).Some? && events != [] && t in s.pcs
    ensures Inv(Second(s, events)) && CurrentIsOpen(Second(s, events))
    ensures Execute(Second(s, events), events[1..]) == Execute(s, events)
    ensures t in Second(s, events).pcs && KeepsPending(s.pcs[t], Second(s, events).pcs[t])
  {
    var (u, act) := events[0];
    assert u in s.pcs && s.cell in s.tokens && Guards(s.pcs[u]) <= s.tokens.Keys;
    assert Second(s, events) == Next(s, u, act).value;
    StepInv(s, u, act);
    StaysOpen(s, u, act);
    StepPending(s, u, act, t);
    hide Inv, CurrentIsOpen, Next, Guards, KeepsPending;
  }

  lemma {:induction false} PrefixStep(s: State, events: seq<(Tid, Act)>, j: nat, t: Tid)
    requires Execute(s, events).Some? && events != [] && j < |events|
    ensures HasWriteAccess(Second(s, events), events[1..], j, t) ==> HasWriteAccess(s, events, j + 1, t)
    ensures HasReadAccess(Second(s, events), events[1..], j, t) ==> HasReadAccess(s, events, j + 1, t)
  {
    assert Second(s, events) == Next(s, events[0].0, events[0].1).value;
    hide Next, Second;
    assert events[..j + 1][0] == events[0] && events[..j + 1][1..] == events[1..][..j];
  }

  lemma {:induction false} WritesNow(s: State, events: seq<(Tid, Act)>, t: Tid)
    requires t in s.pcs && s.pcs[t].Writing?
    ensures HasWriteAccess(s, events, 0, t)
  {
    assert events[..0] == [];
  }

  lemma {:induction false} LockIsNotOver(s: State, events: seq<(Tid, Act)>, t: Tid)
    requires Execute(s, events).Some? && t in s.pcs && Locking(s.pcs[t])
    requires t in Execute(s, events).value.pcs && Execute(s, events).value.pcs[t].Idle?
    ensures events != []
  {
    hide Next, Guards;
  }

  lemma {:induction false} LockGoes(pc: Pc, next: Pc)
    requires KeepsPending(pc, next) && Locking(pc)
    ensures Locking(next) || next.Writing?
  {
    hide Locking, ReadPending;
  }

  lemma {:induction false} LockingGetsAccess(s: State, events: seq<(Tid, Act)>, t: Tid) returns (j: nat)
    requires Inv(s) && CurrentIsOpen(s) && Execute(s, events).Some? && t in s.pcs
    requires t in Execute(s, events).value.pcs && Execute(s, events).value.pcs[t].Idle?
    requires Locking(s.pcs[t]) || s.pcs[t].Writing?
    ensures j <= |events| && HasWriteAccess(s, events, j, t)
    decreases |events|
  {
    hide *;
    if s.pcs[t].Writing? {
      j := 0;
      WritesNow(s, events, t);
    } else {
      LockIsNotOver(s, events, t);
      FirstStep(s, events, t);
      LockGoes(s.pcs[t], Second(s, events).pcs[t]);
      j := LockingGetsAccess(Second(s, events), events[1..], t);
      PrefixStep(s, events, j, t);
      j := j + 1;
    }
  }

  lemma {:induction false} BeginLocks(s: State, events: seq<(Tid, Act)>, t: Tid)
    requires Inv(s) && Execute(s, events).Some? && events != [] && events[0] == (t, BeginLock)
    ensures t in Second(s, events).pcs && Locking(Second(s, events).pcs[t])
  {
    assert t in s.pcs && s.cell in s.tokens && Guards(s.pcs[t]) <= s.tokens.Keys;
    hide Inv, Guards, Release;
  }

  /** A thread that has called `lock`, and is idle again, has had exclusive access in between. */
  lemma {:induction false} LockGetsAccess(s: State, events: seq<(Tid, Act)>, t: Tid, k: nat) returns (j: nat)
    requires Inv(s) && CurrentIsOpen(s) && Execute(s, events).Some? && k < |events| && events[k] == (t, BeginLock)
    requires t in s.pcs && t in Execute(s, events).value.pcs && Execute(s, events).value.pcs[t].Idle?
    ensures k < j <= |events| && HasWriteAccess(s, events, j, t)
    decreases |events|
  {
    hide *;
    FirstStep(s, events, t);
    if k == 0 {
      BeginLocks(s, events, t);
      j := LockingGetsAccess(Second(s, events), events[1..], t);
    } else {
      j := LockGetsAccess(Second(s, events), events[1..], t, k - 1);
    }
    PrefixStep(s, events, j, t);
    j := j + 1;
  }

  lemma {:induction false} ReadsNow(s: State, events: seq<(Tid, Act)>, t: Tid)
    requires t in s.pcs && s.pcs[t].Reading?
    ensures HasReadAccess(s, events, 0, t)
  {
    assert events[..0] == [];
  }

  lemma {:induction false} ReadIsNotOver(s: State, events: seq<(Tid, Act)>, t: Tid)
    requires Execute(s, events).Some? && t in s.pcs && ReadPending(s.pcs[t])
    requires t in Execute(s, events).value.pcs && Execute(s, events).value.pcs[t].Idle?
    ensures events != []
  {
    hide Next, Guards;
  }

  lemma {:induction false} ReadGoes(pc: Pc, next: Pc)
    requires KeepsPending(pc, next) && ReadPending(pc)
    ensures ReadPending(next) || next.Reading?
  {
    hide Locking, ReadPending;
  }

  lemma {:induction false} ReadingGetsAccess(s: State, events: seq<(Tid, Act)>, t: Tid) returns (j: nat)
    requires Inv(s) && CurrentIsOpen(s) && Execute(s, events).Some? && t in s.pcs
    requires t in Execute(s, events).value.pcs && Execute(s, events).value.pcs[t].Idle?
    requires ReadPending(s.pcs[t]) || s.pcs[t].Reading?
    ensures j <= |events| && HasReadAccess(s, events, j, t)
    decreases |events|
  {
    hide *;
    if s.pcs[t].Reading? {
      j := 0;
      ReadsNow(s, events, t);
    } else {
      ReadIsNotOver(s, events, t);
      FirstStep(s, events, t);
      ReadGoes(s.pcs[t], Second(s, events).pcs[t]);
      j := ReadingGetsAccess(Second(s, events), events[1..], t);
      PrefixStep(s, events, j, t);
      j := j + 1;
    }
  }

  lemma {:induction false} BeginReads(s: State, events: seq<(Tid, Act)>, t: Tid)
    requires Inv(s) && Execute(s, events).Some? && events != [] && events[0] == (t, BeginRead)
    ensures t in Second(s, events).pcs && ReadPending(Second(s, events).pcs[t])
  {
    assert t in s.pcs && s.cell in s.tokens && Guards(s.pcs[t]) <= s.tokens.Keys;
    hide Inv, Guards, Release;
  }

  /** A thread that has called `read`, and is idle again, has had a reader's guard in between. */
  lemma {:induction false} ReadGetsAccess(s: State, events: seq<(Tid, Act)>, t: Tid, k: nat) returns (j: nat)
    requires Inv(s) && CurrentIsOpen(s) && Execute(s, events).Some? && k < |events| && events[k] == (t, BeginRead)
    requires t in s.pcs && t in Execute(s, events).value.pcs && Execute(s, events).value.pcs[t].Idle?
    ensures k < j <= |events| && HasReadAccess(s, events, j, t)
    decreases |events|
  {
    hide *;
    FirstStep(s, events, t);
    if k == 0 {
      BeginReads(s, events, t);
      j := ReadingGetsAccess(Second(s, events), events[1..], t);
    } else {
      j := ReadGetsAccess(Second(s, events), events[1..], t, k - 1);
    }
    PrefixStep(s, events, j, t);
    j := j + 1;
  }

  lemma {:induction false} SameThreads(s: State, events: seq<(Tid, Act)>)
    requires Inv(s) && CurrentIsOpen(s) && Execute(s, events).Some?
    ensures Execute(s, events).value.pcs.Keys == s.pcs.Keys && CurrentIsOpen(Execute(s, events).value)
    decreases |events|
  {
    if events != [] {
      FirstKeeps(s, events);
      hide *;
      SameThreads(Second(s, events), events[1..]);
    }
  }

  lemma {:induction false} FirstKeeps(s: State, events: seq<(Tid, Act)>)
    requires Inv(s) && CurrentIsOpen(s) && Execute(s, events).Some? && events != []
    ensures Inv(Second(s, events)) && CurrentIsOpen(Second(s, events)) && Second(s, events).pcs.Keys == s.pcs.Keys
    ensures Execute(Second(s, events), events[1..]) == Execute(s, events)
  {
    var (u, act) := events[0];
    assert u in s.pcs;
    FirstStep(s, events, u);
    assert Second(s, events) == Next(s, u, act).value;
    StepKeys(s, u, act);
    hide Inv, CurrentIsOpen, Next, Guards, Second, Execute;
  }

  lemma {:induction false} StepKeys(s: State, t: Tid, act: Act)
    requires Inv(s) && CurrentIsOpen(s) && t in s.pcs && Next(s, t, act).Some?
    ensures Next(s, t, act).value.pcs.Keys == s.pcs.Keys
  {
    if act != Go {
      OtherActs(s, t, act);
    } else if !ChangesCell(s, t) {
      OtherAdvances(s, t);
    } else if s.pcs[t].Writing? {
      StoreChanges(s, t);
    } else {
      SwapChanges(s, t);
    }
    hide Inv, CurrentIsOpen, Next, Guards;
  }

  /** In every run, a call that has ended has had the access that it was for: exclusive access, or a reader's guard. */
  lemma {:induction false} CallsGetAccess(threads: set<Tid>, data: int, events: seq<(Tid, Act)>, t: Tid, k: nat)
    requires Execute(Init(threads, data), events).Some? && k < |events| && events[k].0 == t
    requires var s := Execute(Init(threads, data), events).value; t in s.pcs && s.pcs[t].Idle?
    ensures var first := Init(threads, data);
      && (events[k].1 == BeginLock ==> exists j :: k < j <= |events| && HasWriteAccess(first, events, j, t))
      && (events[k].1 == BeginRead ==> exists j :: k < j <= |events| && HasReadAccess(first, events, j, t))
  {
    var first := Init(threads, data);
    InitInv(threads, data);
    SameThreads(first, events);
    if events[k].1 == BeginLock {
      var j := LockGetsAccess(first, events, t, k);
    }
    if events[k].1 == BeginRead {
      var j := ReadGetsAccess(first, events, t, k);
    }
  }

  // ---------------------------------------------------------------- every call ends

  /** Every step of a call brings the end of all calls closer, whatever the order of the threads. */
  lemma {:induction false} GoDecreases(s: State, t: Tid)
    requires Inv(s) && CurrentIsOpen(s) && t in s.pcs && Next(s, t, Go).Some?
    ensures var s' := Next(s, t, Go).value;
      AllChanges(s') < AllChanges(s) || (AllChanges(s') == AllChanges(s) && Work(s') < Work(s))
  {
    if ChangesCell(s, t) {
      ChangeCounts(s, t);
    } else {
      var s' := Next(s, t, Go).value;
      OtherAdvances(s, t);
      hide Next, Inv, CurrentIsOpen, Changes, StepsLeft;
      TotalUpdate(s.pcs, Changes, t, s'.pcs[t]);
      TotalUpdate(s.pcs, pc => StepsLeft(s.cell, s.tokens, pc), t, s'.pcs[t]);
      TotalSame(s'.pcs, pc => StepsLeft(s'.cell, s'.tokens, pc), s'.pcs, pc => StepsLeft(s.cell, s.tokens, pc));
    }
  }

  /** Going on wherever possible comes to an end, and then all calls are done. */
  lemma {:induction false} EveryCallEnds(s: State) returns (events: seq<(Tid, Act)>)
    requires Inv(s) && CurrentIsOpen(s)
    ensures forall k :: 0 <= k < |events| ==> events[k].1 == Go
    ensures var end := Execute(s, events);
      end.Some? && forall t :: t in end.value.pcs ==> end.value.pcs[t].Idle?
    decreases AllChanges(s), Work(s)
  {
    hide Next, Inv, CurrentIsOpen, AllChanges, Work;
    if t :| t in s.pcs && !s.pcs[t].Idle? {
      NoDeadlock(s, t);
      InvTokens(s);
      var x :| x in s.pcs && CanGo(s, x);
      var next := Next(s, x, Go).value;
      StepInv(s, x, Go);
      StaysOpen(s, x, Go);
      GoDecreases(s, x);
      var rest := EveryCallEnds(next);
      events := [(x, Go)] + rest;
      assert events[1..] == rest;
    } else {
      events := [];
    }
  }

  lemma {:induction false} InvTokens(s: State)
    requires Inv(s)
    ensures s.cell in s.tokens && forall t :: t in s.pcs ==> Guards(s.pcs[t]) <= s.tokens.Keys
  {
  }

  /** From every state of every run, all calls can be brought to their end without a new one. */
  lemma {:induction false} RunsEnd(threads: set<Tid>, data: int, events: seq<(Tid, Act)>)
    returns (more: seq<(Tid, Act)>)
    requires Execute(Init(threads, data), events).Some?
    ensures var s := Execute(Init(threads, data), events).value;
      var end := Execute(s, more);
      && (forall k :: 0 <= k < |more| ==> more[k].1 == Go)
      && end.Some? && (forall t :: t in end.value.pcs ==> end.value.pcs[t].Idle?)
      && end.value.data == LastStored(data, events)
  {
    var first := Init(threads, data);
    InitInv(threads, data);
    RunInv(first, events);
    SameThreads(first, events);
    var s := Execute(first, events).value;
    more := EveryCallEnds(s);
    DataIsLastStored(first, events);
    DataIsLastStored(s, more);
    NothingStored(s.data, more);
  }

  lemma {:induction false} NothingStored(data: int, events: seq<(Tid, Act)>)
    requires forall k :: 0 <= k < |events| ==> events[k].1 == Go
    ensures LastStored(data, events) == data
    decreases |events|
  {
    if events != [] {
      NothingStored(data, events[1..]);
    }
  }
}
