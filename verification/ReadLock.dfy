/**
 The read-optimized lock (concurrency/src/lib.rs) as a state machine over any number of threads.

 A step is one access to the token cell, one release of a guard, one notification, or one end of a wait.
 A token is referenced by the cell and by the guards that threads hold.  The last release of a readable
 token runs its `TriggerWhenDone`, which notifies in a step of its own.
 */
module ReadLock {
  import opened Options

  type Tid = nat
  type TokId = nat
  type NoteId = nat

  datatype Token = ReadOk(done: NoteId) | WriteOngoing(unblock: NoteId)

  datatype Pc =
    | Idle
    | ReadStart
    | ReadLoaded(tok: TokId)
    | Reading(tok: TokId)
    | ReadBlocked(tok: TokId, note: NoteId)
    | ReadWaiting(note: NoteId)
    | LockStart
    | LockLoaded(tok: TokId)
    | LockBlocked(tok: TokId, note: NoteId)
    | LockWaiting(note: NoteId)
    | LockReady(tok: TokId, done: NoteId)
    | LockLost(tok: TokId, prev: TokId)
    | LockLostGuard(tok: TokId)
    | LockWon(tok: TokId, done: NoteId, unblock: NoteId)
    | LockWonPrev(tok: TokId, done: NoteId, unblock: NoteId)
    | LockRcu(done: NoteId, unblock: NoteId)
    | LockDrain(done: NoteId, unblock: NoteId)
    | Writing(unblock: NoteId)
    | Unblocking(unblock: NoteId)
    | Triggering(note: NoteId, next: Pc)

  /** `last` is the readable token that was in the cell most recently; it is history, no step looks at it. */
  datatype State = State(tokens: map<TokId, Token>, cell: TokId, notified: set<NoteId>, pcs: map<Tid, Pc>,
                         nextTok: TokId, nextNote: NoteId, data: int, last: TokId)

  /** The guards a thread holds. */
  function Guards(pc: Pc): set<TokId>
  {
    match pc
    case ReadLoaded(t) => {t}
    case Reading(t) => {t}
    case ReadBlocked(t, _) => {t}
    case LockLoaded(t) => {t}
    case LockBlocked(t, _) => {t}
    case LockReady(t, _) => {t}
    case LockLost(t, p) => {t, p}
    case LockLostGuard(t) => {t}
    case LockWon(t, _, _) => {t}
    case LockWonPrev(t, _, _) => {t}
    case _ => {}
  }

  predicate Held(pcs: map<Tid, Pc>, tok: TokId) { exists t :: t in pcs && tok in Guards(pcs[t]) }

  function Init(threads: set<Tid>, data: int): State
  {
    State(map[0 := ReadOk(0)], 0, {}, map t | t in threads :: Idle, 1, 1, data, 0)
  }

  /** What a thread may do besides going on: start an operation, or write the data it has exclusive access to. */
  datatype Act = Go | BeginRead | BeginLock | Store(value: int)

  /** The thread moves to `next`, having given up its guard on `tok`. */
  function Release(s: State, t: Tid, tok: TokId, next: Pc): State
    requires t in s.pcs && tok in s.tokens
  {
    var pcs := s.pcs[t := next];
    if s.tokens[tok].ReadOk? && s.cell != tok && !Held(pcs, tok)
    then s.(pcs := s.pcs[t := Triggering(s.tokens[tok].done, next)])
    else s.(pcs := pcs)
  }

  /** One step of a thread; `None` when it is blocked or the act does not apply. */
  function Next(s: State, t: Tid, act: Act): Option<State>
    requires t in s.pcs && s.cell in s.tokens && Guards(s.pcs[t]) <= s.tokens.Keys
  {
    match (s.pcs[t], act)
    // read
    case (Idle, BeginRead) => Some(s.(pcs := s.pcs[t := ReadStart]))
    case (ReadStart, Go) => Some(s.(pcs := s.pcs[t := ReadLoaded(s.cell)]))
    case (ReadLoaded(tok), Go) =>
      (match s.tokens[tok]
       case ReadOk(_) => Some(s.(pcs := s.pcs[t := Reading(tok)]))
       case WriteOngoing(n) => Some(s.(pcs := s.pcs[t := ReadBlocked(tok, n)])))
    case (ReadBlocked(tok, n), Go) => Some(Release(s, t, tok, ReadWaiting(n)))
    case (ReadWaiting(n), Go) => if n in s.notified then Some(s.(pcs := s.pcs[t := ReadStart])) else None
    case (Reading(tok), Go) => Some(Release(s, t, tok, Idle))
    // lock
    case (Idle, BeginLock) => Some(s.(pcs := s.pcs[t := LockStart]))
    case (LockStart, Go) => Some(s.(pcs := s.pcs[t := LockLoaded(s.cell)]))
    case (LockLoaded(tok), Go) =>
      (match s.tokens[tok]
       case ReadOk(n) => Some(s.(pcs := s.pcs[t := LockReady(tok, n)]))
       case WriteOngoing(n) => Some(s.(pcs := s.pcs[t := LockBlocked(tok, n)])))
    case (LockBlocked(tok, n), Go) => Some(Release(s, t, tok, LockWaiting(n)))
    case (LockWaiting(n), Go) => if n in s.notified then Some(s.(pcs := s.pcs[t := LockStart])) else None
    case (LockReady(tok, n), Go) =>
      if s.cell == tok then
        var u := s.nextNote;
        Some(s.(tokens := s.tokens[s.nextTok := WriteOngoing(u)], cell := s.nextTok,
                pcs := s.pcs[t := LockWon(tok, n, u)], nextTok := s.nextTok + 1, nextNote := u + 1))
      else Some(s.(pcs := s.pcs[t := LockLost(tok, s.cell)]))
    case (LockLost(tok, prev), Go) => Some(Release(s, t, prev, LockLostGuard(tok)))
    case (LockLostGuard(tok), Go) => Some(Release(s, t, tok, LockStart))
    case (LockWon(tok, n, u), Go) => Some(s.(pcs := s.pcs[t := LockWonPrev(tok, n, u)]))
    case (LockWonPrev(tok, n, u), Go) => Some(Release(s, t, tok, LockRcu(n, u)))
    case (LockRcu(n, u), Go) => Some(s.(pcs := s.pcs[t := LockDrain(n, u)]))
    case (LockDrain(n, u), Go) => if n in s.notified then Some(s.(pcs := s.pcs[t := Writing(u)])) else None
    // the writer's guard
    case (Writing(u), Store(v)) => Some(s.(data := v))
    case (Writing(u), Go) =>
      Some(s.(tokens := s.tokens[s.nextTok := ReadOk(s.nextNote)], cell := s.nextTok, last := s.nextTok,
              pcs := s.pcs[t := Unblocking(u)], nextTok := s.nextTok + 1, nextNote := s.nextNote + 1))
    case (Unblocking(u), Go) => Some(s.(notified := s.notified + {u}, pcs := s.pcs[t := Idle]))
    case (Triggering(n, next), Go) => Some(s.(notified := s.notified + {n}, pcs := s.pcs[t := next]))
    case _ => None
  }

  // ---------------------------------------------------------------- the invariant

  /** Where the thread is once a pending trigger has run. */
  function Base(pc: Pc): Pc { if pc.Triggering? then pc.next else pc }

  /** The thread has replaced the readable token and not yet put a new one. */
  predicate Owner(pc: Pc)
  {
    var b := Base(pc);
    b.LockWon? || b.LockWonPrev? || b.LockRcu? || b.LockDrain? || b.Writing?
  }

  function NoteOf(tok: Token): NoteId { if tok.ReadOk? then tok.done else tok.unblock }

  predicate SomeOwner(pcs: map<Tid, Pc>) { exists t :: t in pcs && Owner(pcs[t]) }

  predicate SomeTrigger(pcs: map<Tid, Pc>) { exists t :: t in pcs && pcs[t].Triggering? }

  predicate Announcing(pcs: map<Tid, Pc>, n: NoteId) { exists t :: t in pcs && pcs[t] == Unblocking(n) }

  predicate WriteNote(tokens: map<TokId, Token>, n: NoteId) { exists k :: k in tokens && tokens[k] == WriteOngoing(n) }

  /** Token and note ids are fresh when allocated and no two tokens share a note. */
  ghost predicate WellAllocated(s: State)
  {
    && s.cell in s.tokens && s.last in s.tokens && s.tokens[s.last].ReadOk?
    && (s.tokens[s.cell].ReadOk? ==> s.cell == s.last)
    && (forall k :: k in s.tokens ==> k < s.nextTok && NoteOf(s.tokens[k]) < s.nextNote)
    && (forall j, k :: j in s.tokens && k in s.tokens && NoteOf(s.tokens[j]) == NoteOf(s.tokens[k]) ==> j == k)
    && (forall n :: n in s.notified ==> n < s.nextNote)
  }

  /** A readable token that is still referenced is the last one. */
  ghost predicate OnlyLastHeld(s: State)
  {
    && (forall t :: t in s.pcs ==> Guards(s.pcs[t]) <= s.tokens.Keys)
    && (forall t, k :: t in s.pcs && k in Guards(s.pcs[t]) && k in s.tokens && s.tokens[k].ReadOk? ==> k == s.last)
  }

  /** What a thread remembers agrees with the tokens. */
  ghost predicate Remembers(s: State, pc: Pc)
    requires s.cell in s.tokens && s.last in s.tokens && s.tokens[s.last].ReadOk?
  {
    && (pc.Triggering? ==> !pc.next.Triggering? && Guards(pc.next) == {})
    && match Base(pc)
       case Reading(k) => k in s.tokens && s.tokens[k].ReadOk?
       case ReadBlocked(k, n) => k in s.tokens && s.tokens[k] == WriteOngoing(n)
       case ReadWaiting(n) => WriteNote(s.tokens, n)
       case LockBlocked(k, n) => k in s.tokens && s.tokens[k] == WriteOngoing(n)
       case LockWaiting(n) => WriteNote(s.tokens, n)
       case LockReady(k, n) => k in s.tokens && s.tokens[k] == ReadOk(n)
       case LockLost(k, p) => k in s.tokens && s.tokens[k].ReadOk? && p in s.tokens && s.tokens[p].WriteOngoing?
       case LockLostGuard(k) => k in s.tokens && s.tokens[k].ReadOk?
       case LockWon(k, n, u) => k == s.last && s.tokens[k] == ReadOk(n) && s.tokens[s.cell] == WriteOngoing(u)
       case LockWonPrev(k, n, u) => k == s.last && s.tokens[k] == ReadOk(n) && s.tokens[s.cell] == WriteOngoing(u)
       case LockRcu(n, u) => s.tokens[s.last] == ReadOk(n) && s.tokens[s.cell] == WriteOngoing(u)
       case LockDrain(n, u) => s.tokens[s.last] == ReadOk(n) && s.tokens[s.cell] == WriteOngoing(u)
       case Writing(u) => s.tokens[s.last].done in s.notified && s.tokens[s.cell] == WriteOngoing(u)
       case Unblocking(u) => WriteNote(s.tokens, u) && s.tokens[s.cell] != WriteOngoing(u)
       case _ => true
  }

  /** Exactly one owner while a write is going on, none otherwise. */
  ghost predicate OneOwner(s: State)
    requires s.cell in s.tokens
  {
    && (s.tokens[s.cell].WriteOngoing? <==> SomeOwner(s.pcs))
    && (forall t, t' :: t in s.pcs && t' in s.pcs && Owner(s.pcs[t]) && Owner(s.pcs[t']) ==> t == t')
  }

  /** The last readable token triggers once, when it is no longer referenced. */
  ghost predicate TriggersOnce(s: State)
    requires s.last in s.tokens && s.tokens[s.last].ReadOk?
  {
    var n := s.tokens[s.last].done;
    && (forall t :: t in s.pcs && s.pcs[t].Triggering? ==> s.pcs[t].note == n && n !in s.notified)
    && (forall t, t' :: t in s.pcs && t' in s.pcs && s.pcs[t].Triggering? && s.pcs[t'].Triggering? ==> t == t')
    && (n in s.notified || SomeTrigger(s.pcs) <==> s.cell != s.last && !Held(s.pcs, s.last))
  }

  /** The end of every write but the current one has been or is about to be announced. */
  ghost predicate WritesAnnounced(s: State)
  {
    forall k :: k in s.tokens && s.tokens[k].WriteOngoing? && k != s.cell ==>
      s.tokens[k].unblock in s.notified || Announcing(s.pcs, s.tokens[k].unblock)
  }

  ghost predicate Inv(s: State)
  {
    && WellAllocated(s) && OnlyLastHeld(s) && OneOwner(s) && TriggersOnce(s) && WritesAnnounced(s)
    && forall t :: t in s.pcs ==> Remembers(s, s.pcs[t])
  }

  lemma {:induction false} InitInv(threads: set<Tid>, data: int)
    ensures Inv(Init(threads, data))
  {
  }

  // ---------------------------------------------------------------- every step keeps the invariant

  /** What holds of some thread holds of this one or of another. */
  lemma {:induction false} Split(pcs: map<Tid, Pc>, t: Tid)
    requires t in pcs
    ensures forall k :: Held(pcs, k) <==> k in Guards(pcs[t]) || Held(pcs - {t}, k)
    ensures SomeOwner(pcs) <==> Owner(pcs[t]) || SomeOwner(pcs - {t})
    ensures SomeTrigger(pcs) <==> pcs[t].Triggering? || SomeTrigger(pcs - {t})
    ensures forall n :: Announcing(pcs, n) <==> pcs[t] == Unblocking(n) || Announcing(pcs - {t}, n)
  {
    var others := pcs - {t};
    forall x | x in pcs && x != t
      ensures x in others && others[x] == pcs[x]
    {
    }
    forall k | Held(pcs, k) ensures k in Guards(pcs[t]) || Held(others, k) {
      var x :| x in pcs && k in Guards(pcs[x]);
      assert x == t || (x in others && k in Guards(others[x]));
    }
    forall n | Announcing(pcs, n) ensures pcs[t] == Unblocking(n) || Announcing(others, n) {
      var x :| x in pcs && pcs[x] == Unblocking(n);
      assert x == t || (x in others && others[x] == Unblocking(n));
    }
    if x :| x in pcs && Owner(pcs[x]) {
      assert x == t || (x in others && Owner(others[x]));
    }
    if x :| x in pcs && pcs[x].Triggering? {
      assert x == t || (x in others && others[x].Triggering?);
    }
  }

  /** Moving one thread leaves the others alone. */
  lemma {:induction false} Moved(pcs: map<Tid, Pc>, t: Tid, next: Pc)
    requires t in pcs
    ensures forall k :: Held(pcs, k) <==> k in Guards(pcs[t]) || Held(pcs - {t}, k)
    ensures forall k :: Held(pcs[t := next], k) <==> k in Guards(next) || Held(pcs - {t}, k)
    ensures SomeOwner(pcs) <==> Owner(pcs[t]) || SomeOwner(pcs - {t})
    ensures SomeOwner(pcs[t := next]) <==> Owner(next) || SomeOwner(pcs - {t})
    ensures SomeTrigger(pcs) <==> pcs[t].Triggering? || SomeTrigger(pcs - {t})
    ensures SomeTrigger(pcs[t := next]) <==> next.Triggering? || SomeTrigger(pcs - {t})
    ensures forall n :: Announcing(pcs, n) <==> pcs[t] == Unblocking(n) || Announcing(pcs - {t}, n)
    ensures forall n :: Announcing(pcs[t := next], n) <==> next == Unblocking(n) || Announcing(pcs - {t}, n)
  {
    Split(pcs, t);
    Split(pcs[t := next], t);
    assert pcs[t := next] - {t} == pcs - {t};
  }

  /**
   What a thread remembers stays true while tokens are only added, notes only set, and the cell and the last readable
   token stay.
   */
  lemma {:induction false} StillRemembers(s: State, s': State, pc: Pc)
    requires s.cell in s.tokens && s.last in s.tokens && s.tokens[s.last].ReadOk? && Remembers(s, pc)
    requires s'.tokens == s.tokens && s'.cell == s.cell && s'.last == s.last && s.notified <= s'.notified
    ensures Remembers(s', pc)
  {
  }

  /** What it takes for a thread to go on, keeping its guards or taking one on the cell. */
  ghost predicate MayMove(s: State, t: Tid, next: Pc)
  {
    && t in s.pcs && s.cell in s.tokens && s.last in s.tokens && s.tokens[s.last].ReadOk?
    && Guards(s.pcs[t]) <= Guards(next) <= Guards(s.pcs[t]) + {s.cell}
    && !s.pcs[t].Triggering? && !next.Triggering? && Owner(next) == Owner(s.pcs[t]) && !s.pcs[t].Unblocking?
    && Remembers(s, next)
  }

  function Moving(s: State, t: Tid, next: Pc): State { s.(pcs := s.pcs[t := next]) }

  /** A thread goes on, keeping its guards or taking one on the cell. */
  lemma {:induction false} MoveInv(s: State, t: Tid, next: Pc)
    requires Inv(s) && MayMove(s, t, next)
    ensures Inv(Moving(s, t, next))
  {
    hide Remembers, Owner, Guards, TriggersOnce, OneOwner, WritesAnnounced, OnlyLastHeld;
    MoveHeld(s, t, next);
    MoveTriggers(s, t, next);
    MoveOwner(s, t, next);
    forall x | x in s.pcs ensures Remembers(Moving(s, t, next), s.pcs[t := next][x]) {
      StillRemembers(s, Moving(s, t, next), s.pcs[t := next][x]);
    }
  }

  lemma {:induction false} MoveHeld(s: State, t: Tid, next: Pc)
    requires WellAllocated(s) && OnlyLastHeld(s) && MayMove(s, t, next)
    ensures OnlyLastHeld(Moving(s, t, next)) && Guards(next) <= s.tokens.Keys
  {
    hide Remembers, Owner, Guards;
  }

  lemma {:induction false} MoveOwner(s: State, t: Tid, next: Pc)
    requires s.cell in s.tokens && OneOwner(s) && WritesAnnounced(s) && MayMove(s, t, next)
    ensures OneOwner(Moving(s, t, next)) && WritesAnnounced(Moving(s, t, next))
  {
    hide Remembers, Owner, Guards;
    Moved(s.pcs, t, next);
  }

  lemma {:induction false} MoveTriggers(s: State, t: Tid, next: Pc)
    requires s.last in s.tokens && s.tokens[s.last].ReadOk? && TriggersOnce(s) && t in s.pcs
    requires s.tokens.Keys >= Guards(next) >= Guards(s.pcs[t]) && Guards(next) <= Guards(s.pcs[t]) + {s.cell}
    requires !s.pcs[t].Triggering? && !next.Triggering?
    ensures TriggersOnce(Moving(s, t, next))
  {
    hide Owner, Guards;
    Moved(s.pcs, t, next);
  }

  lemma {:induction false} ReleaseTriggers(s: State, t: Tid, tok: TokId, next: Pc)
    requires s.last in s.tokens && s.tokens[s.last].ReadOk? && TriggersOnce(s) && OnlyLastHeld(s)
    requires t in s.pcs && tok in Guards(s.pcs[t]) && tok in s.tokens
    requires Guards(next) == Guards(s.pcs[t]) - {tok} && !s.pcs[t].Triggering? && !next.Triggering?
    ensures TriggersOnce(Release(s, t, tok, next))
  {
    hide Guards;
    var s' := Release(s, t, tok, next);
    Moved(s.pcs, t, next);
    Moved(s.pcs, t, s'.pcs[t]);
    if s.tokens[tok].ReadOk? {
      assert tok == s.last && Held(s.pcs, tok);
      assert !SomeTrigger(s.pcs) && s.tokens[tok].done !in s.notified;
      assert Guards(Triggering(s.tokens[tok].done, next)) == {} by {
        NoGuards(s.tokens[tok].done, next);
      }
    }
  }

  lemma {:induction false} NoGuards(n: NoteId, next: Pc)
    ensures Guards(Triggering(n, next)) == {}
  {
  }

  /** What it takes for a thread to give up a guard. */
  ghost predicate MayRelease(s: State, t: Tid, tok: TokId, next: Pc)
  {
    && t in s.pcs && s.cell in s.tokens && s.last in s.tokens && s.tokens[s.last].ReadOk?
    && tok in Guards(s.pcs[t]) && tok in s.tokens && Guards(next) == Guards(s.pcs[t]) - {tok}
    && !s.pcs[t].Triggering? && !next.Triggering? && Owner(next) == Owner(s.pcs[t]) && !s.pcs[t].Unblocking?
    && (s.tokens[tok].ReadOk? ==> Guards(next) == {})
    && Remembers(s, next)
  }

  /** A thread gives up a guard. */
  lemma {:induction false} ReleaseInv(s: State, t: Tid, tok: TokId, next: Pc)
    requires Inv(s) && MayRelease(s, t, tok, next)
    ensures Inv(Release(s, t, tok, next))
  {
    hide Remembers, TriggersOnce, OnlyLastHeld, OneOwner, WritesAnnounced, Owner, Guards, Release;
    ReleaseTriggers(s, t, tok, next);
    ReleaseShape(s, t, tok, next);
    ReleaseRest(s, t, tok, next, Release(s, t, tok, next));
  }

  /** A release changes what the thread does next and nothing else. */
  lemma {:induction false} ReleaseShape(s: State, t: Tid, tok: TokId, next: Pc)
    requires s.cell in s.tokens && s.last in s.tokens && s.tokens[s.last].ReadOk? && t in s.pcs && tok in s.tokens
    requires !next.Triggering? && (s.tokens[tok].ReadOk? ==> Guards(next) == {}) && Remembers(s, next)
    ensures var s' := Release(s, t, tok, next);
      && t in s'.pcs && s' == s.(pcs := s.pcs[t := s'.pcs[t]])
      && Guards(s'.pcs[t]) <= Guards(next) && Owner(s'.pcs[t]) == Owner(next) && Remembers(s', s'.pcs[t])
  {
    var s' := Release(s, t, tok, next);
    assert s'.pcs[t] == next || s'.pcs[t] == Triggering(s.tokens[tok].done, next);
    StillRemembers(s, s', next);
  }

  lemma {:induction false} ReleaseRest(s: State, t: Tid, tok: TokId, next: Pc, s': State)
    requires Inv(s) && MayRelease(s, t, tok, next)
    requires t in s'.pcs && s' == s.(pcs := s.pcs[t := s'.pcs[t]]) && TriggersOnce(s')
    requires Guards(s'.pcs[t]) <= Guards(next) && Owner(s'.pcs[t]) == Owner(next) && Remembers(s', s'.pcs[t])
    ensures Inv(s')
  {
    hide TriggersOnce, Remembers, Owner, Guards, OneOwner, WritesAnnounced, OnlyLastHeld;
    ReleaseHeld(s, t, tok, next, s');
    ReleaseOwner(s, t, tok, next, s');
    forall x | x in s.pcs && x != t ensures Remembers(s', s'.pcs[x]) {
      StillRemembers(s, s', s.pcs[x]);
    }
  }

  lemma {:induction false} ReleaseHeld(s: State, t: Tid, tok: TokId, next: Pc, s': State)
    requires OnlyLastHeld(s) && MayRelease(s, t, tok, next)
    requires t in s'.pcs && s' == s.(pcs := s.pcs[t := s'.pcs[t]]) && Guards(s'.pcs[t]) <= Guards(next)
    ensures OnlyLastHeld(s')
  {
    hide Remembers, Owner, Guards;
  }

  lemma {:induction false} ReleaseOwner(s: State, t: Tid, tok: TokId, next: Pc, s': State)
    requires s.cell in s.tokens && OneOwner(s) && WritesAnnounced(s) && MayRelease(s, t, tok, next)
    requires t in s'.pcs && s' == s.(pcs := s.pcs[t := s'.pcs[t]]) && Owner(s'.pcs[t]) == Owner(next)
    ensures OneOwner(s') && WritesAnnounced(s')
  {
    hide Remembers, Owner, Guards;
    Moved(s.pcs, t, s'.pcs[t]);
  }

  /** The compare-and-swap succeeds: the readable token leaves the cell and the thread becomes the owner. */
  lemma {:induction false} SwapInv(s: State, t: Tid)
    requires Inv(s) && t in s.pcs && s.pcs[t].LockReady? && s.cell == s.pcs[t].tok
    ensures Inv(Next(s, t, Go).value)
  {
    var s' := Next(s, t, Go).value;
    hide Next, Remembers, TriggersOnce, OneOwner, OnlyLastHeld, WritesAnnounced, WellAllocated;
    SwapAllocated(s, t, s');
    SwapAnnounced(s, t, s');
    SwapTriggers(s, t, s');
    SwapRemembers(s, t, s');
    SwapHeld(s, t, s');
    SwapOwner(s, t, s');
  }

  lemma {:induction false} SwapAllocated(s: State, t: Tid, s': State)
    requires Inv(s) && t in s.pcs && s.pcs[t].LockReady? && s.cell == s.pcs[t].tok && s' == Next(s, t, Go).value
    ensures WellAllocated(s') && s'.cell in s'.tokens && s'.last in s'.tokens && s'.tokens[s'.last].ReadOk?
  {
    Free(s, t);
    hide Remembers, TriggersOnce, OneOwner, OnlyLastHeld, WritesAnnounced;
  }

  lemma {:induction false} SwapAnnounced(s: State, t: Tid, s': State)
    requires Inv(s) && t in s.pcs && s.pcs[t].LockReady? && s.cell == s.pcs[t].tok && s' == Next(s, t, Go).value
    ensures WritesAnnounced(s')
  {
    Free(s, t);
    hide Remembers, TriggersOnce, OneOwner, OnlyLastHeld;
    Moved(s.pcs, t, s'.pcs[t]);
  }

  lemma {:induction false} SwapHeld(s: State, t: Tid, s': State)
    requires Inv(s) && t in s.pcs && s.pcs[t].LockReady? && s.cell == s.pcs[t].tok && s' == Next(s, t, Go).value
    ensures OnlyLastHeld(s')
  {
    Free(s, t);
    hide Remembers, TriggersOnce, OneOwner, WritesAnnounced;
  }

  /** While the token in the cell is readable nobody owns the write and nothing is left to trigger. */
  lemma {:induction false} Free(s: State, t: Tid)
    requires Inv(s) && t in s.pcs && s.pcs[t].LockReady? && s.cell == s.pcs[t].tok
    ensures s.cell == s.last < s.nextTok && s.tokens[s.cell] == ReadOk(s.pcs[t].done) && s.cell in Guards(s.pcs[t])
    ensures !SomeOwner(s.pcs) && !SomeTrigger(s.pcs) && s.tokens[s.last].done !in s.notified
  {
    assert Remembers(s, s.pcs[t]);
  }

  lemma {:induction false} SwapOwner(s: State, t: Tid, s': State)
    requires Inv(s) && t in s.pcs && s.pcs[t].LockReady? && s.cell == s.pcs[t].tok && s' == Next(s, t, Go).value
    ensures OneOwner(s')
  {
    Free(s, t);
    hide Inv;
    assert Owner(s'.pcs[t]) && t in s'.pcs;
    forall x | x in s'.pcs && x != t ensures !Owner(s'.pcs[x]) {
      assert s'.pcs[x] == s.pcs[x];
    }
  }

  lemma {:induction false} SwapTriggers(s: State, t: Tid, s': State)
    requires Inv(s) && t in s.pcs && s.pcs[t].LockReady? && s.cell == s.pcs[t].tok && s' == Next(s, t, Go).value
    ensures TriggersOnce(s')
  {
    Free(s, t);
    hide Inv, Owner;
    var won := LockWon(s.last, s.pcs[t].done, s.nextNote);
    assert s'.pcs == s.pcs[t := won] && s'.last == s.last && s.last in Guards(won);
    assert s'.tokens[s.last] == s.tokens[s.last] && s'.notified == s.notified;
    hide Next, Guards;
    Moved(s.pcs, t, won);
    NothingToTrigger(s');
  }

  lemma {:induction false} NothingToTrigger(s: State)
    requires s.last in s.tokens && s.tokens[s.last].ReadOk? && s.tokens[s.last].done !in s.notified
    requires !SomeTrigger(s.pcs) && Held(s.pcs, s.last)
    ensures TriggersOnce(s)
  {
  }

  lemma {:induction false} SwapRemembers(s: State, t: Tid, s': State)
    requires Inv(s) && t in s.pcs && s.pcs[t].LockReady? && s.cell == s.pcs[t].tok && s' == Next(s, t, Go).value
    requires s'.cell in s'.tokens && s'.last in s'.tokens && s'.tokens[s'.last].ReadOk?
    ensures forall x :: x in s'.pcs ==> Remembers(s', s'.pcs[x])
  {
    Free(s, t);
    hide TriggersOnce, WritesAnnounced, OneOwner, OnlyLastHeld, Remembers;
    WriteNotesKept(s.tokens, s'.tokens);
    forall x | x in s'.pcs ensures Remembers(s', s'.pcs[x]) {
      SwapRemembersAt(s, t, s', x);
    }
  }

  lemma {:induction false} SwapRemembersAt(s: State, t: Tid, s': State, x: Tid)
    requires Inv(s) && t in s.pcs && s.pcs[t].LockReady? && s.cell == s.pcs[t].tok && s' == Next(s, t, Go).value
    requires s'.cell in s'.tokens && s'.last in s'.tokens && s'.tokens[s'.last].ReadOk? && x in s'.pcs
    requires forall n :: WriteNote(s.tokens, n) ==> WriteNote(s'.tokens, n)
    ensures Remembers(s', s'.pcs[x])
  {
    Free(s, t);
    hide TriggersOnce, WritesAnnounced, OneOwner, OnlyLastHeld, Remembers, Owner;
    assert s.cell != s.nextTok && s.last != s.nextTok;
    if x != t {
      assert Remembers(s, s.pcs[x]) && !Owner(s.pcs[x]);
      NewNote(s);
      RemembersLater(s, s', s.pcs[x]);
    } else {
      WonRemembers(s', s.cell, s.pcs[t].done, s.nextNote);
    }
  }

  lemma {:induction false} NewNote(s: State)
    requires WellAllocated(s)
    ensures !WriteNote(s.tokens, s.nextNote)
  {
  }

  lemma {:induction false} WonRemembers(s: State, tok: TokId, n: NoteId, u: NoteId)
    requires s.cell in s.tokens && s.last in s.tokens && tok == s.last
    requires s.tokens[s.last] == ReadOk(n) && s.tokens[s.cell] == WriteOngoing(u)
    ensures Remembers(s, LockWon(tok, n, u))
  {
  }

  lemma {:induction false} WriteNotesKept(a: map<TokId, Token>, b: map<TokId, Token>)
    requires forall k :: k in a ==> k in b && b[k] == a[k]
    ensures forall n :: WriteNote(a, n) ==> WriteNote(b, n)
  {
    forall n | WriteNote(a, n) ensures WriteNote(b, n) {
      var k :| k in a && a[k] == WriteOngoing(n);
      assert k in b && b[k] == WriteOngoing(n);
    }
  }

  /** The writer puts a new readable token into the cell. */
  lemma {:induction false} StoreInv(s: State, t: Tid)
    requires Inv(s) && t in s.pcs && s.pcs[t].Writing?
    ensures Inv(Next(s, t, Go).value)
  {
    var s' := Next(s, t, Go).value;
    hide Next, Remembers, TriggersOnce, WritesAnnounced, OneOwner, OnlyLastHeld, WellAllocated;
    StoreAllocated(s, t, s');
    StoreTriggers(s, t, s');
    StoreAnnounced(s, t, s');
    StoreHeld(s, t, s');
    StoreOwner(s, t, s');
    forall x | x in s'.pcs ensures Remembers(s', s'.pcs[x]) {
      StoreRemembers(s, t, s', x);
    }
  }

  lemma {:induction false} StoreAllocated(s: State, t: Tid, s': State)
    requires Inv(s) && t in s.pcs && s.pcs[t].Writing? && s' == Next(s, t, Go).value
    ensures WellAllocated(s')
  {
    hide TriggersOnce, WritesAnnounced, OneOwner, OnlyLastHeld, Remembers;
  }

  lemma {:induction false} StoreHeld(s: State, t: Tid, s': State)
    requires Inv(s) && t in s.pcs && s.pcs[t].Writing? && s' == Next(s, t, Go).value
    ensures OnlyLastHeld(s')
  {
    Alone(s, t);
    hide TriggersOnce, WritesAnnounced, Remembers, OneOwner;
    assert s'.pcs == s.pcs[t := Unblocking(s.pcs[t].unblock)] && Guards(s'.pcs[t]) == {};
    forall x, k | x in s'.pcs && k in Guards(s'.pcs[x]) ensures k in s'.tokens && !s'.tokens[k].ReadOk? {
      assert x != t && k in Guards(s.pcs[x]) && Held(s.pcs, k);
    }
  }

  lemma {:induction false} StoreOwner(s: State, t: Tid, s': State)
    requires Inv(s) && t in s.pcs && s.pcs[t].Writing? && s' == Next(s, t, Go).value
    ensures s'.cell in s'.tokens && OneOwner(s')
  {
    Alone(s, t);
    hide TriggersOnce, WritesAnnounced, Remembers, OneOwner, OnlyLastHeld, Inv;
    assert s'.pcs == s.pcs[t := Unblocking(s.pcs[t].unblock)] && s'.tokens[s'.cell].ReadOk?;
    forall x | x in s'.pcs ensures !Owner(s'.pcs[x]) {
    }
    OwnersNone(s');
  }

  lemma {:induction false} OwnersNone(s: State)
    requires s.cell in s.tokens && s.tokens[s.cell].ReadOk? && forall x :: x in s.pcs ==> !Owner(s.pcs[x])
    ensures OneOwner(s)
  {
  }

  lemma {:induction false} StoreRemembers(s: State, t: Tid, s': State, x: Tid)
    requires Inv(s) && t in s.pcs && s.pcs[t].Writing? && s' == Next(s, t, Go).value && x in s'.pcs
    requires s'.cell in s'.tokens && s'.last in s'.tokens && s'.tokens[s'.last].ReadOk?
    ensures Remembers(s', s'.pcs[x])
  {
    Alone(s, t);
    hide TriggersOnce, WritesAnnounced, OneOwner, Remembers, WriteNote, OnlyLastHeld;
    assert Remembers(s, s.pcs[x]);
    assert s'.tokens[s'.cell].ReadOk?;
    WriteNotesKept(s.tokens, s'.tokens);
    if x != t {
      RemembersLater(s, s', s.pcs[x]);
    } else {
      AnnouncesIts(s, s', s.pcs[t].unblock);
    }
  }

  lemma {:induction false} AnnouncesIts(s: State, s': State, u: NoteId)
    requires s.cell in s.tokens && s.tokens[s.cell] == WriteOngoing(u)
    requires s'.cell in s'.tokens && s'.last in s'.tokens && s'.tokens[s'.last].ReadOk? && s'.tokens[s'.cell].ReadOk?
    requires forall n :: WriteNote(s.tokens, n) ==> WriteNote(s'.tokens, n)
    ensures Remembers(s', Unblocking(u))
  {
    assert WriteNote(s.tokens, u);
  }

  /** A new token in the cell leaves what the threads without a write of their own remember. */
  lemma {:induction false} RemembersLater(s: State, s': State, pc: Pc)
    requires s.cell in s.tokens && s.last in s.tokens && s.tokens[s.last].ReadOk? && Remembers(s, pc) && !Owner(pc)
    requires s'.cell in s'.tokens && s'.last in s'.tokens && s'.tokens[s'.last].ReadOk?
    requires forall k :: k in s.tokens ==> k in s'.tokens && s'.tokens[k] == s.tokens[k]
    requires forall n :: WriteNote(s.tokens, n) ==> WriteNote(s'.tokens, n)
    requires s'.tokens[s'.cell].WriteOngoing? ==> !WriteNote(s.tokens, s'.tokens[s'.cell].unblock)
    ensures Remembers(s', pc)
  {
    hide WriteNote;
  }

  /** While a thread writes, no readable token is referenced by a guard and nothing is left to trigger. */
  lemma {:induction false} Alone(s: State, t: Tid)
    requires Inv(s) && t in s.pcs && s.pcs[t].Writing?
    ensures s.tokens[s.cell] == WriteOngoing(s.pcs[t].unblock) && !Held(s.pcs, s.last) && !SomeTrigger(s.pcs)
    ensures forall x :: x in s.pcs && x != t ==> !Owner(s.pcs[x])
  {
    assert Remembers(s, s.pcs[t]) && Owner(s.pcs[t]);
  }

  lemma {:induction false} StoreTriggers(s: State, t: Tid, s': State)
    requires Inv(s) && t in s.pcs && s.pcs[t].Writing? && s' == Next(s, t, Go).value
    ensures TriggersOnce(s')
  {
    hide Remembers, WritesAnnounced;
    Alone(s, t);
    Moved(s.pcs, t, Unblocking(s.pcs[t].unblock));
    assert s'.last !in Guards(Unblocking(s.pcs[t].unblock));
  }

  lemma {:induction false} StoreAnnounced(s: State, t: Tid, s': State)
    requires Inv(s) && t in s.pcs && s.pcs[t].Writing? && s' == Next(s, t, Go).value
    ensures WritesAnnounced(s')
  {
    hide Remembers, TriggersOnce, OneOwner, OnlyLastHeld;
    Alone(s, t);
    Moved(s.pcs, t, Unblocking(s.pcs[t].unblock));
  }

  /** What a notification by a thread without guards keeps, whatever it announces. */
  lemma {:induction false} NotifyFrame(s: State, t: Tid, n: NoteId, next: Pc)
    requires Inv(s) && t in s.pcs && n < s.nextNote && Owner(next) == Owner(s.pcs[t]) && Guards(next) == {}
    requires Remembers(s, next)
    ensures
      var s' := s.(notified := s.notified + {n}, pcs := s.pcs[t := next]);
      WellAllocated(s') && OnlyLastHeld(s') && OneOwner(s') && forall x :: x in s'.pcs ==> Remembers(s', s'.pcs[x])
  {
    hide Remembers, Owner, Guards, TriggersOnce, WritesAnnounced;
    var s' := s.(notified := s.notified + {n}, pcs := s.pcs[t := next]);
    Moved(s.pcs, t, next);
    forall x | x in s'.pcs ensures Remembers(s', s'.pcs[x]) {
      StillRemembers(s, s', s'.pcs[x]);
    }
  }

  /** The end of a write is announced. */
  lemma {:induction false} UnblockInv(s: State, t: Tid)
    requires Inv(s) && t in s.pcs && s.pcs[t].Unblocking?
    ensures Inv(Next(s, t, Go).value)
  {
    var u := s.pcs[t].unblock;
    assert Remembers(s, s.pcs[t]);
    var k :| k in s.tokens && s.tokens[k] == WriteOngoing(u);
    assert u < s.nextNote && u != s.tokens[s.last].done;
    NotifyFrame(s, t, u, Idle);
    UnblockRest(s, t, k);
  }

  lemma {:induction false} UnblockRest(s: State, t: Tid, k: TokId)
    requires WellAllocated(s) && TriggersOnce(s) && WritesAnnounced(s) && t in s.pcs && s.pcs[t].Unblocking?
    requires k in s.tokens && s.tokens[k] == WriteOngoing(s.pcs[t].unblock)
    ensures
      var s' := s.(notified := s.notified + {s.pcs[t].unblock}, pcs := s.pcs[t := Idle]);
      TriggersOnce(s') && WritesAnnounced(s')
  {
    Moved(s.pcs, t, Idle);
    assert s.pcs[t].unblock != s.tokens[s.last].done;
  }

  /** The release of the last guard on the readable token is announced. */
  lemma {:induction false} TriggerInv(s: State, t: Tid)
    requires Inv(s) && t in s.pcs && s.pcs[t].Triggering?
    ensures Inv(Next(s, t, Go).value)
  {
    var n, next := s.pcs[t].note, s.pcs[t].next;
    TriggerFacts(s, t);
    assert Next(s, t, Go).value == s.(notified := s.notified + {n}, pcs := s.pcs[t := next]);
    hide Next, Remembers, TriggersOnce, WritesAnnounced, OneOwner, OnlyLastHeld, WellAllocated;
    NotifyFrame(s, t, n, next);
    TriggerRest(s, t);
  }

  lemma {:induction false} TriggerFacts(s: State, t: Tid)
    requires Inv(s) && t in s.pcs && s.pcs[t].Triggering?
    ensures s.cell in s.tokens && s.last in s.tokens && s.tokens[s.last].ReadOk?
    ensures var n, next := s.pcs[t].note, s.pcs[t].next;
      && n == s.tokens[s.last].done && n < s.nextNote && Owner(next) == Owner(s.pcs[t]) && Guards(next) == {}
      && !next.Triggering? && Remembers(s, next)
  {
    hide WritesAnnounced, OneOwner, OnlyLastHeld;
    assert Remembers(s, s.pcs[t]);
  }

  lemma {:induction false} TriggerRest(s: State, t: Tid)
    requires WellAllocated(s) && TriggersOnce(s) && WritesAnnounced(s) && t in s.pcs && s.pcs[t].Triggering?
    requires !s.pcs[t].next.Triggering? && Guards(s.pcs[t].next) == {}
    ensures
      var s' := s.(notified := s.notified + {s.pcs[t].note}, pcs := s.pcs[t := s.pcs[t].next]);
      TriggersOnce(s') && WritesAnnounced(s')
  {
    Moved(s.pcs, t, s.pcs[t].next);
  }

  lemma {:induction false} StoreDataInv(s: State, t: Tid, v: int)
    requires Inv(s)
    ensures Inv(s.(data := v))
  {
    forall x | x in s.pcs ensures Remembers(s.(data := v), s.pcs[x]) {
      StillRemembers(s, s.(data := v), s.pcs[x]);
    }
  }

  /** What the moves of one thread use of the invariant. */
  lemma {:induction false} Local(s: State, t: Tid)
    requires Inv(s) && t in s.pcs
    ensures s.cell in s.tokens && s.last in s.tokens && s.tokens[s.last].ReadOk?
    ensures Remembers(s, s.pcs[t]) && (s.tokens[s.cell].ReadOk? ==> s.cell == s.last)
    ensures Guards(s.pcs[t]) <= s.tokens.Keys
    ensures forall k :: k in Guards(s.pcs[t]) && s.tokens[k].ReadOk? ==> k == s.last
  {
  }

  lemma {:induction false} ReadStartInv(s: State, t: Tid)
    requires Inv(s) && t in s.pcs && s.pcs[t].ReadStart?
    ensures Inv(Next(s, t, Go).value)
  {
    Local(s, t);
    hide Inv;
    var next := ReadLoaded(s.cell);
    assert MayMove(s, t, next) && Next(s, t, Go) == Some(Moving(s, t, next));
    hide *;
    MoveInv(s, t, next);
  }

  lemma {:induction false} ReadLoadedInv(s: State, t: Tid)
    requires Inv(s) && t in s.pcs && s.pcs[t].ReadLoaded?
    ensures Inv(Next(s, t, Go).value)
  {
    Local(s, t);
    var tok := s.pcs[t].tok;
    assert tok in s.tokens;
    if s.tokens[tok].ReadOk? {
      ReadLoadedReadable(s, t, tok);
      hide *;
      MoveInv(s, t, Reading(tok));
    } else {
      ReadLoadedOngoing(s, t, tok);
      hide *;
      MoveInv(s, t, ReadBlocked(tok, s.tokens[tok].unblock));
    }
  }

  lemma {:induction false} ReadLoadedReadable(s: State, t: Tid, tok: TokId)
    requires Inv(s) && t in s.pcs && s.pcs[t] == ReadLoaded(tok) && tok in s.tokens && s.tokens[tok].ReadOk?
    ensures MayMove(s, t, Reading(tok)) && Next(s, t, Go) == Some(Moving(s, t, Reading(tok)))
  {
    Local(s, t);
    hide Inv;
  }

  lemma {:induction false} ReadLoadedOngoing(s: State, t: Tid, tok: TokId)
    requires Inv(s) && t in s.pcs && s.pcs[t] == ReadLoaded(tok) && tok in s.tokens && s.tokens[tok].WriteOngoing?
    ensures MayMove(s, t, ReadBlocked(tok, s.tokens[tok].unblock))
    ensures Next(s, t, Go) == Some(Moving(s, t, ReadBlocked(tok, s.tokens[tok].unblock)))
  {
    Local(s, t);
    hide Inv;
  }

  lemma {:induction false} ReadWaitingInv(s: State, t: Tid)
    requires Inv(s) && t in s.pcs && s.pcs[t].ReadWaiting? && Next(s, t, Go).Some?
    ensures Inv(Next(s, t, Go).value)
  {
    Local(s, t);
    hide Inv;
    var next := ReadStart;
    assert MayMove(s, t, next) && Next(s, t, Go) == Some(Moving(s, t, next));
    hide *;
    MoveInv(s, t, next);
  }

  lemma {:induction false} ReadBlockedInv(s: State, t: Tid)
    requires Inv(s) && t in s.pcs && s.pcs[t].ReadBlocked?
    ensures Inv(Next(s, t, Go).value)
  {
    Local(s, t);
    hide Inv, Release;
    assert WriteNote(s.tokens, s.pcs[t].note);
    var tok, next := s.pcs[t].tok, ReadWaiting(s.pcs[t].note);
    assert MayRelease(s, t, tok, next) && Next(s, t, Go) == Some(Release(s, t, tok, next));
    hide *;
    ReleaseInv(s, t, tok, next);
  }

  lemma {:induction false} ReadingInv(s: State, t: Tid)
    requires Inv(s) && t in s.pcs && s.pcs[t].Reading?
    ensures Inv(Next(s, t, Go).value)
  {
    Local(s, t);
    hide Inv, Release;
    var tok, next := s.pcs[t].tok, Idle;
    assert MayRelease(s, t, tok, next) && Next(s, t, Go) == Some(Release(s, t, tok, next));
    hide *;
    ReleaseInv(s, t, tok, next);
  }

  lemma {:induction false} LockStartInv(s: State, t: Tid)
    requires Inv(s) && t in s.pcs && s.pcs[t].LockStart?
    ensures Inv(Next(s, t, Go).value)
  {
    Local(s, t);
    hide Inv;
    var next := LockLoaded(s.cell);
    assert MayMove(s, t, next) && Next(s, t, Go) == Some(Moving(s, t, next));
    hide *;
    MoveInv(s, t, next);
  }

  lemma {:induction false} LockLoadedInv(s: State, t: Tid)
    requires Inv(s) && t in s.pcs && s.pcs[t].LockLoaded?
    ensures Inv(Next(s, t, Go).value)
  {
    Local(s, t);
    var tok := s.pcs[t].tok;
    assert tok in s.tokens;
    if s.tokens[tok].ReadOk? {
      LockLoadedReadable(s, t, tok);
      hide *;
      MoveInv(s, t, LockReady(tok, s.tokens[tok].done));
    } else {
      LockLoadedOngoing(s, t, tok);
      hide *;
      MoveInv(s, t, LockBlocked(tok, s.tokens[tok].unblock));
    }
  }

  lemma {:induction false} LockLoadedReadable(s: State, t: Tid, tok: TokId)
    requires Inv(s) && t in s.pcs && s.pcs[t] == LockLoaded(tok) && tok in s.tokens && s.tokens[tok].ReadOk?
    ensures MayMove(s, t, LockReady(tok, s.tokens[tok].done))
    ensures Next(s, t, Go) == Some(Moving(s, t, LockReady(tok, s.tokens[tok].done)))
  {
    Local(s, t);
    hide Inv;
  }

  lemma {:induction false} LockLoadedOngoing(s: State, t: Tid, tok: TokId)
    requires Inv(s) && t in s.pcs && s.pcs[t] == LockLoaded(tok) && tok in s.tokens && s.tokens[tok].WriteOngoing?
    ensures MayMove(s, t, LockBlocked(tok, s.tokens[tok].unblock))
    ensures Next(s, t, Go) == Some(Moving(s, t, LockBlocked(tok, s.tokens[tok].unblock)))
  {
    Local(s, t);
    hide Inv;
  }

  lemma {:induction false} LockWaitingInv(s: State, t: Tid)
    requires Inv(s) && t in s.pcs && s.pcs[t].LockWaiting? && Next(s, t, Go).Some?
    ensures Inv(Next(s, t, Go).value)
  {
    Local(s, t);
    hide Inv;
    var next := LockStart;
    assert MayMove(s, t, next) && Next(s, t, Go) == Some(Moving(s, t, next));
    hide *;
    MoveInv(s, t, next);
  }

  lemma {:induction false} LockBlockedInv(s: State, t: Tid)
    requires Inv(s) && t in s.pcs && s.pcs[t].LockBlocked?
    ensures Inv(Next(s, t, Go).value)
  {
    Local(s, t);
    hide Inv, Release;
    assert WriteNote(s.tokens, s.pcs[t].note);
    var tok, next := s.pcs[t].tok, LockWaiting(s.pcs[t].note);
    assert MayRelease(s, t, tok, next) && Next(s, t, Go) == Some(Release(s, t, tok, next));
    hide *;
    ReleaseInv(s, t, tok, next);
  }

  lemma {:induction false} CompareAndSwapInv(s: State, t: Tid)
    requires Inv(s) && t in s.pcs && s.pcs[t].LockReady?
    ensures Inv(Next(s, t, Go).value)
  {
    hide *;
    if s.cell == s.pcs[t].tok {
      SwapInv(s, t);
    } else {
      SwapFailsInv(s, t);
    }
  }

  lemma {:induction false} SwapFailsInv(s: State, t: Tid)
    requires Inv(s) && t in s.pcs && s.pcs[t].LockReady? && s.cell != s.pcs[t].tok
    ensures Inv(Next(s, t, Go).value)
  {
    SwapFailsMay(s, t);
    SwapFailsStep(s, t);
    hide *;
    MoveInv(s, t, LockLost(s.pcs[t].tok, s.cell));
  }

  lemma {:induction false} SwapFailsMay(s: State, t: Tid)
    requires Inv(s) && t in s.pcs && s.pcs[t].LockReady? && s.cell != s.pcs[t].tok
    ensures MayMove(s, t, LockLost(s.pcs[t].tok, s.cell))
  {
    Local(s, t);
    hide Inv, Next;
  }

  lemma {:induction false} SwapFailsStep(s: State, t: Tid)
    requires Inv(s) && t in s.pcs && s.pcs[t].LockReady? && s.cell != s.pcs[t].tok
    ensures Next(s, t, Go) == Some(Moving(s, t, LockLost(s.pcs[t].tok, s.cell)))
  {
    Local(s, t);
    hide Inv, Remembers;
  }

  lemma {:induction false} LostInv(s: State, t: Tid)
    requires Inv(s) && t in s.pcs && s.pcs[t].LockLost?
    ensures Inv(Next(s, t, Go).value)
  {
    Local(s, t);
    LostMay(s, t);
    LostStep(s, t);
    hide *;
    ReleaseInv(s, t, s.pcs[t].prev, LockLostGuard(s.pcs[t].tok));
  }

  lemma {:induction false} LostMay(s: State, t: Tid)
    requires Inv(s) && t in s.pcs && s.pcs[t].LockLost?
    ensures MayRelease(s, t, s.pcs[t].prev, LockLostGuard(s.pcs[t].tok))
  {
    var tok, prev := s.pcs[t].tok, s.pcs[t].prev;
    Local(s, t);
    assert s.pcs[t] == LockLost(tok, prev);
    hide Inv, Guards, Owner, Remembers;
    LostRemembers(s, tok, prev);
    LostGuards(tok, prev);
  }

  lemma {:induction false} LostRemembers(s: State, tok: TokId, prev: TokId)
    requires s.cell in s.tokens && s.last in s.tokens && s.tokens[s.last].ReadOk? && Remembers(s, LockLost(tok, prev))
    ensures Remembers(s, LockLostGuard(tok)) && tok in s.tokens && prev in s.tokens
    ensures s.tokens[prev].WriteOngoing? && tok != prev
  {
  }

  lemma {:induction false} LostGuards(tok: TokId, prev: TokId)
    requires tok != prev
    ensures Guards(LockLostGuard(tok)) == Guards(LockLost(tok, prev)) - {prev} && prev in Guards(LockLost(tok, prev))
    ensures Owner(LockLostGuard(tok)) == Owner(LockLost(tok, prev))
  {
  }

  lemma {:induction false} LostStep(s: State, t: Tid)
    requires Inv(s) && t in s.pcs && s.pcs[t].LockLost?
    ensures Next(s, t, Go) == Some(Release(s, t, s.pcs[t].prev, LockLostGuard(s.pcs[t].tok)))
  {
    Local(s, t);
    hide Inv, Release, Remembers;
  }

  lemma {:induction false} LostGuardInv(s: State, t: Tid)
    requires Inv(s) && t in s.pcs && s.pcs[t].LockLostGuard?
    ensures Inv(Next(s, t, Go).value)
  {
    Local(s, t);
    hide Inv, Release;
    var tok, next := s.pcs[t].tok, LockStart;
    assert MayRelease(s, t, tok, next) && Next(s, t, Go) == Some(Release(s, t, tok, next));
    hide *;
    ReleaseInv(s, t, tok, next);
  }

  lemma {:induction false} WonInv(s: State, t: Tid)
    requires Inv(s) && t in s.pcs && s.pcs[t].LockWon?
    ensures Inv(Next(s, t, Go).value)
  {
    Local(s, t);
    hide Inv;
    var next := LockWonPrev(s.pcs[t].tok, s.pcs[t].done, s.pcs[t].unblock);
    assert MayMove(s, t, next) && Next(s, t, Go) == Some(Moving(s, t, next));
    hide *;
    MoveInv(s, t, next);
  }

  lemma {:induction false} WonPrevInv(s: State, t: Tid)
    requires Inv(s) && t in s.pcs && s.pcs[t].LockWonPrev?
    ensures Inv(Next(s, t, Go).value)
  {
    Local(s, t);
    hide Inv, Release;
    var tok, next := s.pcs[t].tok, LockRcu(s.pcs[t].done, s.pcs[t].unblock);
    assert MayRelease(s, t, tok, next) && Next(s, t, Go) == Some(Release(s, t, tok, next));
    hide *;
    ReleaseInv(s, t, tok, next);
  }

  lemma {:induction false} RcuInv(s: State, t: Tid)
    requires Inv(s) && t in s.pcs && s.pcs[t].LockRcu?
    ensures Inv(Next(s, t, Go).value)
  {
    Local(s, t);
    hide Inv;
    var next := LockDrain(s.pcs[t].done, s.pcs[t].unblock);
    assert MayMove(s, t, next) && Next(s, t, Go) == Some(Moving(s, t, next));
    hide *;
    MoveInv(s, t, next);
  }

  lemma {:induction false} DrainInv(s: State, t: Tid)
    requires Inv(s) && t in s.pcs && s.pcs[t].LockDrain? && Next(s, t, Go).Some?
    ensures Inv(Next(s, t, Go).value)
  {
    Local(s, t);
    hide Inv;
    var next := Writing(s.pcs[t].unblock);
    assert MayMove(s, t, next) && Next(s, t, Go) == Some(Moving(s, t, next));
    hide *;
    MoveInv(s, t, next);
  }

  lemma {:induction false} BeginInv(s: State, t: Tid, next: Pc)
    requires Inv(s) && t in s.pcs && s.pcs[t].Idle? && (next.ReadStart? || next.LockStart?)
    ensures Inv(Moving(s, t, next))
  {
    Local(s, t);
    hide Inv;
    assert MayMove(s, t, next);
    hide *;
    MoveInv(s, t, next);
  }

  /** Every step of every thread keeps the invariant. */
  lemma {:induction false} StepInv(s: State, t: Tid, act: Act)
    requires Inv(s) && t in s.pcs && Next(s, t, act).Some?
    ensures Inv(Next(s, t, act).value)
  {
    hide Inv;
    match act
    case BeginRead => BeginInv(s, t, ReadStart);
    case BeginLock => BeginInv(s, t, LockStart);
    case Store(v) => StoreDataInv(s, t, v);
    case Go => GoInv(s, t);
  }

  lemma {:induction false} GoInv(s: State, t: Tid)
    requires Inv(s) && t in s.pcs && Next(s, t, Go).Some?
    ensures Inv(Next(s, t, Go).value)
  {
    var pc := s.pcs[t];
    assert !pc.Idle?;
    hide Inv, Next;
    match pc
    case ReadStart => ReadStartInv(s, t);
    case ReadLoaded(_) => ReadLoadedInv(s, t);
    case ReadWaiting(_) => ReadWaitingInv(s, t);
    case ReadBlocked(_, _) => ReadBlockedInv(s, t);
    case Reading(_) => ReadingInv(s, t);
    case LockStart => LockStartInv(s, t);
    case LockLoaded(_) => LockLoadedInv(s, t);
    case LockWaiting(_) => LockWaitingInv(s, t);
    case LockBlocked(_, _) => LockBlockedInv(s, t);
    case LockReady(_, _) => CompareAndSwapInv(s, t);
    case LockLost(_, _) => LostInv(s, t);
    case LockLostGuard(_) => LostGuardInv(s, t);
    case LockWon(_, _, _) => WonInv(s, t);
    case LockWonPrev(_, _, _) => WonPrevInv(s, t);
    case LockRcu(_, _) => RcuInv(s, t);
    case LockDrain(_, _) => DrainInv(s, t);
    case Writing(_) => StoreInv(s, t);
    case Unblocking(_) => UnblockInv(s, t);
    case Triggering(_, _) => TriggerInv(s, t);
  }

  // ---------------------------------------------------------------- whole runs

  /** The state after a list of steps, if all of them are possible. */
  ghost function Execute(s: State, events: seq<(Tid, Act)>): Option<State>
    decreases |events|
  {
    if events == [] then Some(s)
    else
      var (t, act) := events[0];
      if !(t in s.pcs && s.cell in s.tokens && Guards(s.pcs[t]) <= s.tokens.Keys) then None
      else
        match Next(s, t, act)
        case None => None
        case Some(s') => Execute(s', events[1..])
  }

  /** No reader's guard and no second writer while a writer is active. */
  ghost predicate Exclusive(s: State)
  {
    forall t, t' :: t in s.pcs && t' in s.pcs && s.pcs[t].Writing? && t != t' ==>
      !s.pcs[t'].Writing? && !s.pcs[t'].Reading?
  }

  /** A thread waiting for readers or for a writer has someone to wake it, or can go on. */
  ghost predicate NoLostWakeup(s: State)
  {
    && (forall t :: t in s.pcs && s.pcs[t].LockDrain? ==>
          s.pcs[t].done in s.notified || Held(s.pcs, s.last) || exists x ::
            x in s.pcs && s.pcs[x].Triggering? && s.pcs[x].note == s.pcs[t].done)
    && (forall t :: t in s.pcs && s.pcs[t].ReadWaiting? ==> Ends(s, s.pcs[t].note))
    && (forall t :: t in s.pcs && s.pcs[t].LockWaiting? ==> Ends(s, s.pcs[t].note))
  }

  /** The end of the write is announced, about to be announced, or up to the current writer. */
  ghost predicate Ends(s: State, n: NoteId)
  {
    n in s.notified || Announcing(s.pcs, n) || exists x ::
      x in s.pcs && Owner(s.pcs[x]) && s.cell in s.tokens && s.tokens[s.cell] == WriteOngoing(n)
  }

  lemma {:induction false} ReaderHoldsLast(s: State, t: Tid)
    requires Inv(s) && t in s.pcs && s.pcs[t].Reading?
    ensures Held(s.pcs, s.last)
  {
    assert Remembers(s, s.pcs[t]) && s.pcs[t].tok in Guards(s.pcs[t]);
  }

  lemma {:induction false} InvIsExclusive(s: State)
    requires Inv(s)
    ensures Exclusive(s)
  {
    forall t | t in s.pcs && s.pcs[t].Reading? ensures Held(s.pcs, s.last) {
      ReaderHoldsLast(s, t);
    }
    forall t, t' | t in s.pcs && t' in s.pcs && s.pcs[t].Writing? && t != t'
      ensures !s.pcs[t'].Writing? && !s.pcs[t'].Reading?
    {
      Alone(s, t);
    }
  }

  lemma {:induction false} WriteEnds(s: State, n: NoteId)
    requires Inv(s) && WriteNote(s.tokens, n)
    ensures Ends(s, n)
  {
    var k :| k in s.tokens && s.tokens[k] == WriteOngoing(n);
    if k == s.cell {
      assert SomeOwner(s.pcs);
    }
  }

  lemma {:induction false} DrainEnds(s: State, t: Tid)
    requires Inv(s) && t in s.pcs && s.pcs[t].LockDrain?
    ensures s.pcs[t].done == s.tokens[s.last].done
    ensures s.pcs[t].done in s.notified || Held(s.pcs, s.last) || SomeTrigger(s.pcs)
  {
    assert Remembers(s, s.pcs[t]);
  }

  lemma {:induction false} InvHasWakeups(s: State)
    requires Inv(s)
    ensures NoLostWakeup(s)
  {
    forall t | t in s.pcs && (s.pcs[t].ReadWaiting? || s.pcs[t].LockWaiting?)
      ensures Ends(s, s.pcs[t].note)
    {
      assert Remembers(s, s.pcs[t]);
      WriteEnds(s, s.pcs[t].note);
    }
    forall t | t in s.pcs && s.pcs[t].LockDrain?
      ensures s.pcs[t].done in s.notified || Held(s.pcs, s.last) || exists x ::
        x in s.pcs && s.pcs[x].Triggering? && s.pcs[x].note == s.pcs[t].done
    {
      DrainEnds(s, t);
    }
  }

  ghost predicate CanGo(s: State, t: Tid)
    requires t in s.pcs && s.cell in s.tokens && Guards(s.pcs[t]) <= s.tokens.Keys
  {
    !s.pcs[t].Idle? && Next(s, t, Go).Some?
  }

  /** Only three kinds of threads can be blocked. */
  lemma {:induction false} BlockedThreads(s: State, t: Tid)
    requires Inv(s) && t in s.pcs && !s.pcs[t].Idle? && !CanGo(s, t)
    ensures s.pcs[t].ReadWaiting? || s.pcs[t].LockWaiting? || (s.pcs[t].LockDrain? && s.pcs[t].done !in s.notified)
    ensures s.pcs[t].ReadWaiting? || s.pcs[t].LockWaiting? ==> s.pcs[t].note !in s.notified
  {
  }

  lemma {:induction false} HolderCanGo(s: State, t: Tid)
    requires Inv(s) && t in s.pcs && (s.last in Guards(s.pcs[t]) || s.pcs[t].Triggering? || s.pcs[t].Unblocking?)
    ensures CanGo(s, t)
  {
    Local(s, t);
    hide Inv, Remembers, Release;
  }

  lemma {:induction false} DrainHelper(s: State, t: Tid)
    requires Inv(s) && t in s.pcs && s.pcs[t].LockDrain?
    ensures exists x :: x in s.pcs && CanGo(s, x)
  {
    DrainEnds(s, t);
    if s.pcs[t].done in s.notified {
      assert CanGo(s, t);
    } else {
      hide CanGo, Remembers;
      var x :| x in s.pcs && (s.last in Guards(s.pcs[x]) || s.pcs[x].Triggering?);
      HolderCanGo(s, x);
    }
  }

  /** As long as some thread is in the middle of an operation, some such thread can make a step. */
  lemma {:induction false} NoDeadlock(s: State, t: Tid)
    requires Inv(s) && t in s.pcs && !s.pcs[t].Idle?
    ensures exists x :: x in s.pcs && CanGo(s, x)
  {
    if !CanGo(s, t) {
      BlockedThreads(s, t);
      if s.pcs[t].LockDrain? {
        DrainHelper(s, t);
      } else {
        var n := s.pcs[t].note;
        InvHasWakeups(s);
        assert Ends(s, n);
        if Announcing(s.pcs, n) {
          var x :| x in s.pcs && s.pcs[x] == Unblocking(n);
          HolderCanGo(s, x);
        } else {
          var x :| x in s.pcs && Owner(s.pcs[x]);
          if s.pcs[x].LockDrain? {
            DrainHelper(s, x);
          } else if !CanGo(s, x) {
            BlockedThreads(s, x);
          }
        }
      }
    }
  }

  lemma {:induction false} OnlyWritersStore(s: State, t: Tid, act: Act)
    requires t in s.pcs && s.cell in s.tokens && Guards(s.pcs[t]) <= s.tokens.Keys
    requires Next(s, t, act).Some? && !s.pcs[t].Writing?
    ensures Next(s, t, act).value.data == s.data
  {
  }

  /** While a reader's guard is live no step of any thread changes the data. */
  lemma {:induction false} ReadersSeeStableData(s: State, reader: Tid, t: Tid, act: Act)
    requires Inv(s) && reader in s.pcs && s.pcs[reader].Reading? && t in s.pcs && Next(s, t, act).Some?
    ensures Next(s, t, act).value.data == s.data
  {
    InvIsExclusive(s);
    hide Inv, Next, Guards;
    assert !s.pcs[t].Writing?;
    OnlyWritersStore(s, t, act);
  }

  lemma {:induction false} RunInv(s: State, events: seq<(Tid, Act)>)
    requires Inv(s) && Execute(s, events).Some?
    ensures Inv(Execute(s, events).value)
    decreases |events|
  {
    if events != [] {
      var (t, act) := events[0];
      StepInv(s, t, act);
      RunInv(Next(s, t, act).value, events[1..]);
    }
  }

  /** Every state of every run is exclusive, loses no wake-up and has no deadlock. */
  lemma {:induction false} SafeRuns(threads: set<Tid>, data: int, events: seq<(Tid, Act)>)
    requires Execute(Init(threads, data), events).Some?
    ensures
      var s := Execute(Init(threads, data), events).value;
      && Inv(s) && Exclusive(s) && NoLostWakeup(s)
      && forall t :: t in s.pcs && !s.pcs[t].Idle? ==> exists x :: x in s.pcs && CanGo(s, x)
  {
    InitInv(threads, data);
    RunInv(Init(threads, data), events);
    var s := Execute(Init(threads, data), events).value;
    InvIsExclusive(s);
    InvHasWakeups(s);
    forall t | t in s.pcs && !s.pcs[t].Idle?
      ensures exists x :: x in s.pcs && CanGo(s, x)
    {
      NoDeadlock(s, t);
    }
  }
}
