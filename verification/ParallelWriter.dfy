/**
 The parallel append buffer (concurrency/src/parallel_writer.rs) as a state machine over any number of threads.

 A step is one atomic access or the write of one element.  The lock around the vector is taken at its word:
 any number of readers or one writer, as `ReadLock` shows.  The cells are the vector's whole allocation,
 `len` the length that the vector itself records, `endLen` the atomic counter.
 */
module ParallelWriter {
  import opened Options
  import opened Totals

  type Tid = nat
  type Elem = int

  datatype Batch = Batch(start: nat, items: seq<Elem>)

  /** `id` is the batch's place in the order of reservations; it is history, no step looks at it. */
  datatype Pc =
    | Idle
    | Reserved(id: nat, b: Batch)
    | Peeking(id: nat, b: Batch)
    | Short(id: nat, b: Batch, currentLen: nat)
    | Growing(id: nat, b: Batch, currentLen: nat)
    | Granted(id: nat, b: Batch)
    | Writing(id: nat, b: Batch, written: nat)

  /**
   `initial`, `batches` and `returned` are history: the vector given, the reservations in order, and what the calls
   returned.
   */
  datatype State = State(cells: seq<Option<Elem>>, len: nat, endLen: nat, readers: set<Tid>, writer: Option<Tid>,
                         pcs: map<Tid, Pc>, initial: seq<Elem>, batches: seq<Batch>, returned: map<nat, nat>)

  function End(b: Batch): nat { b.start + |b.items| }

  function Filled(data: seq<Elem>): (r: seq<Option<Elem>>)
    ensures |r| == |data| && forall k :: 0 <= k < |data| ==> r[k] == Some(data[k])
  {
    seq(|data|, k requires 0 <= k < |data| => Some(data[k]))
  }

  function Empty(n: nat): seq<Option<Elem>> { seq(n, _ => None) }

  function Init(threads: set<Tid>, data: seq<Elem>, spare: nat): State
  {
    State(Filled(data) + Empty(spare), |data|, |data|, {}, None, map t | t in threads :: Idle, data, [], map[])
  }

  function Max(a: nat, b: nat): nat { if a < b then b else a }

  /** Start a write, or go on; the allocator may give more than it is asked for. */
  datatype Act = Write(items: seq<Elem>) | Go(surplus: nat)

  /** One step of a thread; `None` when it is blocked or the act does not apply. */
  function Next(s: State, t: Tid, act: Act): Option<State>
    requires t in s.pcs
  {
    match (s.pcs[t], act)
    // reserve_space
    case (Idle, Write(items)) =>
      var b := Batch(s.endLen, items);
      Some(s.(endLen := s.endLen + |items|, batches := s.batches + [b], pcs := s.pcs[t := Reserved(|s.batches|, b)]))
    case (Reserved(id, b), Go(_)) =>
      if s.writer.Some? then None else Some(s.(readers := s.readers + {t}, pcs := s.pcs[t := Peeking(id, b)]))
    case (Peeking(id, b), Go(_)) =>
      Some(s.(readers := s.readers - {t},
              pcs := s.pcs[t := if |s.cells| < End(b) then Short(id, b, s.len) else Granted(id, b)]))
    case (Short(id, b, currentLen), Go(_)) =>
      if s.writer.Some? || s.readers != {} then None
      else Some(s.(writer := Some(t), pcs := s.pcs[t := Growing(id, b, currentLen)]))
    case (Growing(id, b, currentLen), Go(surplus)) =>
      var newCap := Max(End(b), |s.cells| * 2);
      var cells := if |s.cells| < End(b) then Reserve(s.cells, s.len, newCap - currentLen, surplus) else s.cells;
      Some(s.(cells := cells, writer := None, pcs := s.pcs[t := Granted(id, b)]))
    // write_contents_at
    case (Granted(id, b), Go(_)) =>
      if s.writer.Some? then None else Some(s.(readers := s.readers + {t}, pcs := s.pcs[t := Writing(id, b, 0)]))
    case (Writing(id, b, k), Go(_)) =>
      if k < |b.items|
      then Some(s.(cells := Put(s.cells, b.start + k, b.items[k]), pcs := s.pcs[t := Writing(id, b, k + 1)]))
      else Some(s.(readers := s.readers - {t}, returned := s.returned[id := b.start], pcs := s.pcs[t := Idle]))
    case _ => None
  }

  /** Growing keeps every cell of the allocation; there is room for `additional` elements after `len`. */
  function Reserve(cells: seq<Option<Elem>>, len: nat, additional: int, surplus: nat): (r: seq<Option<Elem>>)
    ensures cells <= r && len + additional <= |r|
  {
    if len + additional <= |cells| then cells else cells + Empty(len + additional + surplus - |cells|)
  }

  /** A store; outside of the allocation it would be lost. */
  function Put(cells: seq<Option<Elem>>, k: nat,
               x: Elem): seq<Option<Elem>> { if k < |cells| then cells[k := Some(x)] else cells }

  // ---------------------------------------------------------------- the invariant

  /** The reservations tile the range from the initial length on, in their order. */
  ghost predicate Tiled(from: nat, batches: seq<Batch>, to: nat)
  {
    if batches == [] then from == to
    else
      var front, last := batches[..|batches| - 1], batches[|batches| - 1];
      last.start + |last.items| == to && Tiled(from, front, last.start)
  }

  ghost predicate Contains(cells: seq<Option<Elem>>, b: Batch, n: nat)
  {
    n <= |b.items| && b.start + n <= |cells| && forall j :: 0 <= j < n ==> cells[b.start + j] == Some(b.items[j])
  }

  /** What the state promises about a thread that is writing a batch. */
  ghost predicate PcOk(s: State, pc: Pc)
  {
    match pc
    case Idle => true
    case Granted(id, b) => End(b) <= |s.cells|
    case Writing(id, b, k) => End(b) <= |s.cells| && Contains(s.cells, b, k)
    case Short(_, _, currentLen) => currentLen == s.len
    case Growing(_, _, currentLen) => currentLen == s.len
    case _ => true
  }

  ghost predicate Owns(s: State, t: Tid, id: nat) { t in s.pcs && !s.pcs[t].Idle? && s.pcs[t].id == id }

  ghost predicate Locked(s: State)
  {
    && s.readers <= s.pcs.Keys && (s.writer.Some? ==> s.readers == {} && s.writer.value in s.pcs)
    && (forall t :: t in s.pcs ==>
         (t in s.readers <==> s.pcs[t].Peeking? || s.pcs[t].Writing?) && (s.writer == Some(t) <==> s.pcs[t].Growing?))
  }

  /** Threads work on different reservations, and know them. */
  ghost predicate Assigned(s: State)
  {
    && (forall t :: t in s.pcs && !s.pcs[t].Idle? ==>
          s.pcs[t].id < |s.batches| && s.batches[s.pcs[t].id] == s.pcs[t].b && s.pcs[t].id !in s.returned)
    && (forall t, u :: t in s.pcs && u in s.pcs && t != u && !s.pcs[t].Idle? && !s.pcs[u].Idle? ==>
         s.pcs[t].id != s.pcs[u].id)
  }

  /** A returned batch is completely in place; a batch that is not returned has a thread. */
  ghost predicate Returned(s: State)
  {
    && (forall id :: id in s.returned ==>
          && id < |s.batches| && s.returned[id] == s.batches[id].start
          && Contains(s.cells, s.batches[id], |s.batches[id].items|))
    && (forall id :: 0 <= id < |s.batches| && id !in s.returned ==> exists t :: Owns(s, t, id))
  }

  ghost predicate Inv(s: State)
  {
    && s.len == |s.initial| && s.len <= |s.cells| && s.cells[..s.len] == Filled(s.initial)
    && Tiled(s.len, s.batches, s.endLen)
    && Locked(s) && Assigned(s) && Returned(s)
    && forall t :: t in s.pcs ==> PcOk(s, s.pcs[t])
  }

  lemma {:induction false} InitInv(threads: set<Tid>, data: seq<Elem>, spare: nat)
    ensures Inv(Init(threads, data, spare))
  {
  }

  /** The ranges of two reservations are disjoint, and lie between the initial length and the counter. */
  lemma {:induction false} Disjoint(from: nat, batches: seq<Batch>, to: nat, i: nat, j: nat)
    requires Tiled(from, batches, to) && i <= j < |batches|
    ensures from <= batches[i].start && End(batches[j]) <= to && (i < j ==> End(batches[i]) <= batches[j].start)
    decreases |batches|
  {
    var n := |batches| - 1;
    var front := batches[..n];
    if j < n {
      Disjoint(from, front, batches[n].start, i, j);
    } else if i < n {
      Disjoint(from, front, batches[n].start, i, i);
    } else {
      TiledUp(from, front, batches[n].start);
    }
  }

  lemma {:induction false} TiledUp(from: nat, batches: seq<Batch>, to: nat)
    requires Tiled(from, batches, to)
    ensures from <= to
    decreases |batches|
  {
    if batches != [] {
      TiledUp(from, batches[..|batches| - 1], batches[|batches| - 1].start);
    }
  }

  // ---------------------------------------------------------------- steps keep the invariant

  lemma {:induction false} BeginInv(s: State, t: Tid, items: seq<Elem>)
    requires Inv(s) && t in s.pcs && s.pcs[t].Idle?
    ensures Inv(Next(s, t, Write(items)).value)
  {
    hide Contains, Locked, Tiled, Assigned, Returned, PcOk, Next, Filled;
    BeginReturned(s, t, items);
    BeginAssigned(s, t, items);
    BeginOthers(s, t, items);
  }

  lemma {:induction false} BeginAssigned(s: State, t: Tid, items: seq<Elem>)
    requires Inv(s) && t in s.pcs && s.pcs[t].Idle?
    ensures var s' := Next(s, t, Write(items)).value; Tiled(s'.len, s'.batches, s'.endLen) && Assigned(s') && Locked(s')
  {
    hide Contains, Locked, PcOk;
    var s' := Next(s, t, Write(items)).value;
    assert s'.batches[..|s.batches|] == s.batches;
    SameLocks(s, t, s'.pcs[t]);
    SameLocksAnyway(s.(pcs := s'.pcs), s');
  }

  lemma {:induction false} BeginOthers(s: State, t: Tid, items: seq<Elem>)
    requires Inv(s) && t in s.pcs && s.pcs[t].Idle?
    ensures var s' := Next(s, t, Write(items)).value;
      && s'.len == |s'.initial| && s'.len <= |s'.cells| && s'.cells[..s'.len] == Filled(s'.initial)
      && forall u :: u in s'.pcs ==> PcOk(s', s'.pcs[u])
  {
    hide Contains, Locked, Tiled, Assigned, Returned;
    var s' := Next(s, t, Write(items)).value;
    forall u | u in s'.pcs ensures PcOk(s', s'.pcs[u]) {
      assert u != t ==> PcOk(s, s.pcs[u]);
    }
  }

  lemma {:induction false} BeginReturned(s: State, t: Tid, items: seq<Elem>)
    requires Returned(s) && t in s.pcs && s.pcs[t].Idle?
    ensures Returned(Next(s, t, Write(items)).value)
  {
    hide Contains;
    var s' := Next(s, t, Write(items)).value;
    forall id | 0 <= id < |s'.batches| && id !in s'.returned ensures exists u :: Owns(s', u, id) {
      if id < |s.batches| {
        var u :| Owns(s, u, id);
        assert Owns(s', u, id);
      } else {
        assert Owns(s', t, id);
      }
    }
  }

  lemma {:induction false} SameLocks(s: State, t: Tid, pc: Pc)
    requires Locked(s) && t in s.pcs && (s.pcs[t].Idle? || s.pcs[t].Writing?)
    requires if s.pcs[t].Writing? then pc.Writing? else pc.Reserved?
    ensures Locked(s.(pcs := s.pcs[t := pc]))
  {
  }

  /** Moving on with the same batch, with cells that keep what is there. */
  lemma {:induction false} MoveInv(s: State, t: Tid, s': State, pc: Pc)
    requires Inv(s) && t in s.pcs && !s.pcs[t].Idle? && !pc.Idle? && pc.id == s.pcs[t].id && pc.b == s.pcs[t].b
    requires s' == s.(pcs := s.pcs[t := pc], cells := s'.cells, readers := s'.readers, writer := s'.writer)
    requires s.cells <= s'.cells && PcOk(s', pc) && Locked(s')
    ensures Inv(s')
  {
    hide Contains, Tiled, Locked, PcOk;
    assert s'.cells[..s.len] == s.cells[..s.len];
    SameOwners(s, t, s');
    forall id | id in s.returned ensures Contains(s'.cells, s.batches[id], |s.batches[id].items|) {
      ContainsMore(s.cells, s'.cells, s.batches[id], |s.batches[id].items|);
    }
    forall u | u in s'.pcs && u != t ensures PcOk(s', s'.pcs[u]) {
      PcMore(s, s', s.pcs[u]);
    }
  }

  lemma {:induction false} ContainsMore(cells: seq<Option<Elem>>, cells': seq<Option<Elem>>, b: Batch, n: nat)
    requires cells <= cells' && Contains(cells, b, n)
    ensures Contains(cells', b, n)
  {
  }

  lemma {:induction false} PcMore(s: State, s': State, pc: Pc)
    requires s.cells <= s'.cells && s'.len == s.len && PcOk(s, pc)
    ensures PcOk(s', pc)
  {
  }

  lemma {:induction false} GrowRoom(s: State, t: Tid, surplus: nat)
    requires Inv(s) && t in s.pcs && s.pcs[t].Growing?
    ensures var s' := Next(s, t, Go(surplus)).value; s.cells <= s'.cells && End(s.pcs[t].b) <= |s'.cells|
  {
    var b := s.pcs[t].b;
    assert PcOk(s, s.pcs[t]);
    Disjoint(s.len, s.batches, s.endLen, s.pcs[t].id, s.pcs[t].id);
  }

  /** An element goes where no other batch and no initial element is. */
  lemma {:induction false} PutKeeps(s: State, t: Tid, surplus: nat, id: nat, n: nat)
    requires Inv(s) && t in s.pcs && s.pcs[t].Writing? && s.pcs[t].written < |s.pcs[t].b.items|
    requires id < |s.batches| && id != s.pcs[t].id && Contains(s.cells, s.batches[id], n)
    ensures Contains(Next(s, t, Go(surplus)).value.cells, s.batches[id], n)
  {
    hide Locked, Returned, PcOk;
    var pc := s.pcs[t];
    assert s.batches[pc.id] == pc.b;
    if id < pc.id {
      Disjoint(s.len, s.batches, s.endLen, id, pc.id);
    } else {
      Disjoint(s.len, s.batches, s.endLen, pc.id, id);
    }
  }

  lemma {:induction false} PutOwn(s: State, t: Tid, surplus: nat)
    requires Inv(s) && t in s.pcs && s.pcs[t].Writing? && s.pcs[t].written < |s.pcs[t].b.items|
    ensures var s' := Next(s, t, Go(surplus)).value;
      PcOk(s', s'.pcs[t]) && |s'.cells| == |s.cells| && s'.cells[..s.len] == s.cells[..s.len]
  {
    hide Locked, Returned;
    var pc := s.pcs[t];
    assert PcOk(s, pc) && s.batches[pc.id] == pc.b;
    Disjoint(s.len, s.batches, s.endLen, pc.id, pc.id);
  }

  lemma {:induction false} PutInv(s: State, t: Tid, surplus: nat)
    requires Inv(s) && t in s.pcs && s.pcs[t].Writing? && s.pcs[t].written < |s.pcs[t].b.items|
    ensures Inv(Next(s, t, Go(surplus)).value)
  {
    hide Contains, Tiled, Locked, PcOk, Owns;
    var s', pc := Next(s, t, Go(surplus)).value, s.pcs[t];
    PutOwn(s, t, surplus);
    PutAssigned(s, t, surplus);
    forall id | id in s'.returned ensures Contains(s'.cells, s.batches[id], |s.batches[id].items|) {
      PutKeeps(s, t, surplus, id, |s.batches[id].items|);
    }
    SameOwners(s, t, s');
    forall u | u in s'.pcs ensures PcOk(s', s'.pcs[u]) {
      PutPcOk(s, t, surplus, u);
    }
  }

  lemma {:induction false} PutAssigned(s: State, t: Tid, surplus: nat)
    requires Inv(s) && t in s.pcs && s.pcs[t].Writing? && s.pcs[t].written < |s.pcs[t].b.items|
    ensures var s' := Next(s, t, Go(surplus)).value; Assigned(s') && Locked(s')
  {
    hide Contains, Tiled, Locked, Returned, PcOk;
    var s' := Next(s, t, Go(surplus)).value;
    SameLocks(s, t, s'.pcs[t]);
    SameLocksAnyway(s.(pcs := s'.pcs), s');
  }

  lemma {:induction false} PutPcOk(s: State, t: Tid, surplus: nat, u: Tid)
    requires Inv(s) && t in s.pcs && s.pcs[t].Writing? && s.pcs[t].written < |s.pcs[t].b.items| && u in s.pcs
    ensures var s' := Next(s, t, Go(surplus)).value; u in s'.pcs && PcOk(s', s'.pcs[u])
  {
    hide Contains, Tiled, Locked, Returned;
    PutOwn(s, t, surplus);
    var other := s.pcs[u];
    assert PcOk(s, other);
    if u != t && other.Writing? {
      PutKeeps(s, t, surplus, other.id, other.written);
    }
  }

  lemma {:induction false} SameLocksAnyway(s: State, s': State)
    requires Locked(s) && s'.pcs == s.pcs && s'.readers == s.readers && s'.writer == s.writer
    ensures Locked(s')
  {
  }

  /** A thread that keeps its batch keeps every batch owned. */
  lemma {:induction false} SameOwners(s: State, t: Tid, s': State)
    requires Returned(s) && t in s.pcs && t in s'.pcs && !s.pcs[t].Idle? && !s'.pcs[t].Idle?
    requires s'.pcs[t].id == s.pcs[t].id
    requires s'.pcs == s.pcs[t := s'.pcs[t]] && s'.batches == s.batches && s'.returned == s.returned
    ensures forall id :: 0 <= id < |s'.batches| && id !in s'.returned ==> exists u :: Owns(s', u, id)
  {
    forall id | 0 <= id < |s'.batches| && id !in s'.returned ensures exists u :: Owns(s', u, id) {
      var u :| Owns(s, u, id);
      assert Owns(s', u, id);
    }
  }

  lemma {:induction false} DoneInv(s: State, t: Tid, surplus: nat)
    requires Inv(s) && t in s.pcs && s.pcs[t].Writing? && s.pcs[t].written >= |s.pcs[t].b.items|
    ensures Inv(Next(s, t, Go(surplus)).value)
  {
    hide Contains, Tiled, Returned, Locked;
    var s' := Next(s, t, Go(surplus)).value;
    DoneReturned(s, t, surplus);
    DoneLocked(s, t, s');
    forall u | u in s'.pcs ensures PcOk(s', s'.pcs[u]) {
      assert u != t ==> PcOk(s, s.pcs[u]);
    }
  }

  lemma {:induction false} DoneLocked(s: State, t: Tid, s': State)
    requires Locked(s) && t in s.pcs && s.pcs[t].Writing?
    requires s'.readers == s.readers - {t} && s'.writer == s.writer && s'.pcs == s.pcs[t := Idle]
    ensures Locked(s')
  {
  }

  lemma {:induction false} DoneReturned(s: State, t: Tid, surplus: nat)
    requires Inv(s) && t in s.pcs && s.pcs[t].Writing? && s.pcs[t].written >= |s.pcs[t].b.items|
    ensures Returned(Next(s, t, Go(surplus)).value)
  {
    hide Tiled, Locked;
    var s', pc := Next(s, t, Go(surplus)).value, s.pcs[t];
    assert PcOk(s, pc) && s.batches[pc.id] == pc.b;
    forall id | 0 <= id < |s'.batches| && id !in s'.returned ensures exists u :: Owns(s', u, id) {
      var u :| Owns(s, u, id);
      assert Owns(s', u, id);
    }
  }

  lemma {:induction false} StepInv(s: State, t: Tid, act: Act)
    requires Inv(s) && t in s.pcs && Next(s, t, act).Some?
    ensures Inv(Next(s, t, act).value)
  {
    hide Inv, PcOk;
    var s' := Next(s, t, act).value;
    match s.pcs[t]
    case Idle => BeginInv(s, t, act.items);
    case Growing(_, _, _) =>
      GrowRoom(s, t, act.surplus);
      GrowInv(s, t, act.surplus);
    case Writing(_, b, k) =>
      if k < |b.items| { PutInv(s, t, act.surplus); } else { DoneInv(s, t, act.surplus); }
    case _ => LockStepInv(s, t, act.surplus);
  }

  lemma {:induction false} GrowInv(s: State, t: Tid, surplus: nat)
    requires Inv(s) && t in s.pcs && s.pcs[t].Growing?
    ensures Inv(Next(s, t, Go(surplus)).value)
  {
    var s' := Next(s, t, Go(surplus)).value;
    GrowRoom(s, t, surplus);
    MoveInv(s, t, s', s'.pcs[t]);
  }

  lemma {:induction false} LockStepInv(s: State, t: Tid, surplus: nat)
    requires Inv(s) && t in s.pcs && Next(s, t, Go(surplus)).Some?
    requires s.pcs[t].Reserved? || s.pcs[t].Peeking? || s.pcs[t].Short? || s.pcs[t].Granted?
    ensures Inv(Next(s, t, Go(surplus)).value)
  {
    var s' := Next(s, t, Go(surplus)).value;
    assert PcOk(s, s.pcs[t]);
    MoveInv(s, t, s', s'.pcs[t]);
  }

  // ---------------------------------------------------------------- runs

  /** Threads whose act does not apply stay where they are. */
  function Run(s: State, events: seq<(Tid, Act)>): State
  {
    if events == [] then s
    else
      var before := Run(s, events[..|events| - 1]);
      var (t, act) := events[|events| - 1];
      if t !in before.pcs then before
      else match Next(before, t, act)
           case None => before
           case Some(after) => after
  }

  lemma {:induction false} RunInv(threads: set<Tid>, data: seq<Elem>, spare: nat, events: seq<(Tid, Act)>)
    ensures var s := Run(Init(threads, data, spare), events); Inv(s) && s.initial == data
    decreases |events|
  {
    hide Inv;
    if events == [] {
      InitInv(threads, data, spare);
    } else {
      var n := |events| - 1;
      var before := Run(Init(threads, data, spare), events[..n]);
      var (t, act) := events[n];
      RunInv(threads, data, spare, events[..n]);
      if t in before.pcs && Next(before, t, act).Some? {
        StepInv(before, t, act);
      }
    }
  }

  lemma {:induction false} HistoryGrows(s: State, t: Tid, act: Act)
    requires t in s.pcs && Next(s, t, act).Some?
    ensures var s' := Next(s, t, act).value;
      && s'.len == s.len && s'.initial == s.initial && s.batches <= s'.batches
      && forall id :: id in s.returned ==> id in s'.returned
  {
  }

  lemma {:induction false} InPlace(s: State, id: nat, p: nat)
    requires Returned(s) && id in s.returned && id < |s.batches| && s.batches[id].start <= p < End(s.batches[id])
    ensures p < |s.cells| && s.cells[p] == Some(s.batches[id].items[p - s.batches[id].start])
  {
    var b := s.batches[id];
    assert s.cells[b.start + (p - b.start)] == Some(b.items[p - b.start]);
  }

  lemma {:induction false} PrefixInPlace(s: State, p: nat)
    requires Inv(s) && p < s.len
    ensures p < |s.cells| && s.cells[p] == Some(s.initial[p])
  {
    assert s.cells[p] == s.cells[..s.len][p];
  }

  /** No step changes an initial element or an element of a returned batch. */
  lemma {:induction false} ReadsAreStable(s: State, t: Tid, act: Act, p: nat)
    requires Inv(s) && t in s.pcs && Next(s, t, act).Some?
    requires p < s.len || exists id ::
      id in s.returned && id < |s.batches| && s.batches[id].start <= p < End(s.batches[id])
    ensures p < |s.cells| && p < |Next(s, t, act).value.cells| && Next(s, t, act).value.cells[p] == s.cells[p] != None
  {
    hide Next, Returned, Contains, Locked, Tiled, PcOk, Assigned;
    var s' := Next(s, t, act).value;
    StepInv(s, t, act);
    HistoryGrows(s, t, act);
    if p < s.len {
      PrefixInPlace(s, p);
      PrefixInPlace(s', p);
    } else {
      var id :| id in s.returned && id < |s.batches| && s.batches[id].start <= p < End(s.batches[id]);
      InPlace(s, id, p);
      InPlace(s', id, p);
    }
  }

  /** A thread writes inside of the allocation, and inside of its own reservation. */
  lemma {:induction false} WritesHaveRoom(s: State, t: Tid)
    requires Inv(s) && t in s.pcs && s.pcs[t].Writing? && s.pcs[t].written < |s.pcs[t].b.items|
    ensures var p := s.pcs[t].b.start + s.pcs[t].written; s.len <= p < |s.cells|
    ensures var p := s.pcs[t].b.start + s.pcs[t].written;
      forall id :: 0 <= id < |s.batches| && s.batches[id].start <= p < End(s.batches[id]) ==> id == s.pcs[t].id
  {
    var pc := s.pcs[t];
    var p := pc.b.start + pc.written;
    assert PcOk(s, pc) && s.batches[pc.id] == pc.b;
    Disjoint(s.len, s.batches, s.endLen, pc.id, pc.id);
    forall id | 0 <= id < |s.batches| && s.batches[id].start <= p < End(s.batches[id]) ensures id == pc.id {
      if id < pc.id { Disjoint(s.len, s.batches, s.endLen, id, pc.id); }
      if pc.id < id { Disjoint(s.len, s.batches, s.endLen, pc.id, id); }
    }
  }

  // ---------------------------------------------------------------- finish and take

  ghost predicate Quiet(s: State) { forall t :: t in s.pcs ==> s.pcs[t].Idle? }

  function Concat(batches: seq<Batch>): seq<Elem>
  {
    if batches == [] then [] else Concat(batches[..|batches| - 1]) + batches[|batches| - 1].items
  }

  /** The vector with its length set to the counter; `None` if a cell in it was never written. */
  function Finish(s: State): Option<seq<Elem>>
  {
    if s.endLen <= |s.cells| && forall k :: 0 <= k < s.endLen ==> s.cells[k].Some?
    then Some(seq(s.endLen, k requires 0 <= k < s.endLen && s.cells[k].Some? => s.cells[k].value))
    else None
  }

  ghost predicate Holds(cells: seq<Option<Elem>>, all: seq<Elem>)
  {
    |all| <= |cells| && forall k :: 0 <= k < |all| ==> cells[k] == Some(all[k])
  }

  lemma {:induction false} HoldsMore(cells: seq<Option<Elem>>, all: seq<Elem>, b: Batch)
    requires Holds(cells, all) && b.start == |all| && Contains(cells, b, |b.items|)
    ensures Holds(cells, all + b.items)
  {
    forall k | 0 <= k < |all + b.items| ensures cells[k] == Some((all + b.items)[k]) {
      if k >= |all| {
        assert cells[b.start + (k - b.start)] == Some(b.items[k - b.start]);
      }
    }
  }

  /** Cells with the data and every batch in place hold the data followed by the batches. */
  lemma {:induction false} TilesHold(cells: seq<Option<Elem>>, data: seq<Elem>, batches: seq<Batch>, to: nat)
    requires Tiled(|data|, batches, to) && Holds(cells, data)
    requires forall id :: 0 <= id < |batches| ==> Contains(cells, batches[id], |batches[id].items|)
    ensures |data + Concat(batches)| == to && Holds(cells, data + Concat(batches))
    decreases |batches|
  {
    hide Contains, Holds;
    if batches == [] {
      assert data + Concat(batches) == data;
    } else {
      var n := |batches| - 1;
      var front := Concat(batches[..n]);
      TilesHold(cells, data, batches[..n], batches[n].start);
      HoldsMore(cells, data + front, batches[n]);
      assert data + (front + batches[n].items) == (data + front) + batches[n].items;
    }
  }

  lemma {:induction false} FinishHolds(s: State, all: seq<Elem>)
    requires Holds(s.cells, all) && |all| == s.endLen
    ensures Finish(s) == Some(all)
  {
    assert Finish(s).Some? && Finish(s).value == all;
  }

  lemma {:induction false} ConcatAt(from: nat, batches: seq<Batch>, to: nat, data: seq<Elem>, id: nat)
    requires Tiled(from, batches, to) && |data| == from && id < |batches|
    ensures |data + Concat(batches)| == to
    ensures from <= batches[id].start && End(batches[id]) <= to
    ensures (data + Concat(batches))[batches[id].start..End(batches[id])] == batches[id].items
    decreases |batches|
  {
    var n := |batches| - 1;
    var front, last := data + Concat(batches[..n]), batches[n];
    assert data + Concat(batches) == front + last.items;
    TiledLength(from, batches[..n], last.start, data);
    TiledUp(from, batches[..n], last.start);
    hide Concat;
    if id < n {
      assert batches[..n][id] == batches[id];
      ConcatAt(from, batches[..n], last.start, data, id);
      SliceOfFront(front, last.items, batches[id].start, End(batches[id]));
    } else {
      assert (front + last.items)[|front|..] == last.items;
    }
  }

  lemma {:induction false} SliceOfFront(a: seq<Elem>, b: seq<Elem>, i: nat, j: nat)
    requires i <= j <= |a|
    ensures (a + b)[i..j] == a[i..j]
  {
  }

  lemma {:induction false} TiledLength(from: nat, batches: seq<Batch>, to: nat, data: seq<Elem>)
    requires Tiled(from, batches, to) && |data| == from
    ensures |data + Concat(batches)| == to
    decreases |batches|
  {
    if batches != [] {
      TiledLength(from, batches[..|batches| - 1], batches[|batches| - 1].start, data);
    }
  }

  /** Once all calls are done the vector is the initial data followed by the reserved batches, each at its start. */
  lemma {:induction false} BatchesRun(threads: set<Tid>, data: seq<Elem>, spare: nat, events: seq<(Tid, Act)>)
    requires Quiet(Run(Init(threads, data, spare), events))
    ensures var s := Run(Init(threads, data, spare), events);
      var all := data + Concat(s.batches);
      && Finish(s) == Some(all)
      && forall id :: 0 <= id < |s.batches| ==>
           id in s.returned && s.returned[id] + |s.batches[id].items| <= |all| &&
             all[s.returned[id]..s.returned[id] + |s.batches[id].items|] == s.batches[id].items
  {
    hide Run, Init, Inv, Contains, Holds;
    var s := Run(Init(threads, data, spare), events);
    var all := data + Concat(s.batches);
    RunInv(threads, data, spare, events);
    QuietIsFinished(s);
    TilesHold(s.cells, data, s.batches, s.endLen);
    FinishHolds(s, all);
    forall id | 0 <= id < |s.batches|
      ensures s.returned[id] + |s.batches[id].items| <= |all|
      ensures all[s.returned[id]..s.returned[id] + |s.batches[id].items|] == s.batches[id].items
    {
      ConcatAt(s.len, s.batches, s.endLen, data, id);
    }
  }

  lemma {:induction false} QuietIsFinished(s: State)
    requires Inv(s) && Quiet(s)
    ensures s.len == |s.initial| && Tiled(s.len, s.batches, s.endLen) && Holds(s.cells, s.initial)
    ensures forall id :: 0 <= id < |s.batches| ==>
      && id in s.returned && s.returned[id] == s.batches[id].start
      && Contains(s.cells, s.batches[id], |s.batches[id].items|)
  {
    forall id | 0 <= id < |s.batches| ensures id in s.returned {
      assert forall t :: !Owns(s, t, id);
    }
    forall p | 0 <= p < s.len ensures s.cells[p] == Some(s.initial[p]) {
      PrefixInPlace(s, p);
    }
  }

  /** What `take` leaves: an empty vector without an allocation, and a counter of zero. */
  function AfterTake(s: State): State
  {
    s.(cells := [], len := 0, endLen := 0, initial := [], batches := [], returned := map[])
  }

  /** `take` returns everything that was written, in order, and leaves the buffer as a new one without elements. */
  lemma {:induction false} TakeInv(s: State)
    requires Inv(s) && Quiet(s)
    ensures Finish(s) == Some(s.initial + Concat(s.batches))
    ensures AfterTake(s) == Init(s.pcs.Keys, [], 0) && Inv(AfterTake(s))
  {
    hide Inv, Contains, Holds, Tiled, Finish, Quiet;
    QuietIsFinished(s);
    TilesHold(s.cells, s.initial, s.batches, s.endLen);
    FinishHolds(s, s.initial + Concat(s.batches));
    QuietIsUnlocked(s);
    assert Filled([]) + Empty(0) == [];
    InitInv(s.pcs.Keys, [], 0);
  }

  lemma {:induction false} QuietIsUnlocked(s: State)
    requires Inv(s) && Quiet(s)
    ensures s.readers == {} && s.writer == None && s.pcs == map t | t in s.pcs.Keys :: Idle
  {
    hide Tiled, Contains, Returned, PcOk;
  }

  // ---------------------------------------------------------------- the calls, as the events tell them

  /** A call of `write_contents` by a thread. */
  datatype Call = Call(thread: Tid, items: seq<Elem>)

  /** The calls that the events start: a thread starts one only when it is in none. */
  function Calls(s: State, events: seq<(Tid, Act)>): seq<Call>
  {
    if events == [] then []
    else
      var n := |events| - 1;
      var before := Run(s, events[..n]);
      var (t, act) := events[n];
      Calls(s, events[..n]) + if t in before.pcs && before.pcs[t].Idle? && act.Write? then [Call(t, act.items)] else []
  }

  /** All items of the calls, in the order of the calls. */
  function Written(calls: seq<Call>): seq<Elem>
  {
    if calls == [] then [] else Written(calls[..|calls| - 1]) + calls[|calls| - 1].items
  }

  /** The thread is in the k-th call, its last one. */
  ghost predicate IsIn(pc: Pc, t: Tid, calls: seq<Call>)
  {
    !pc.Idle? ==>
      pc.id < |calls| && calls[pc.id].thread == t && forall j :: pc.id < j < |calls| ==> calls[j].thread != t
  }

  /** The reservations are those of the calls, and every thread works on its own. */
  ghost predicate FollowsCalls(s: State, calls: seq<Call>)
  {
    && |s.batches| == |calls| && (forall k :: 0 <= k < |calls| ==> s.batches[k].items == calls[k].items)
    && (forall t :: t in s.pcs ==> IsIn(s.pcs[t], t, calls))
  }

  lemma {:induction false} GoKeepsCalls(s: State, t: Tid, surplus: nat)
    requires t in s.pcs && Next(s, t, Go(surplus)).Some?
    ensures !s.pcs[t].Idle?
    ensures var s' := Next(s, t, Go(surplus)).value;
      && s'.batches == s.batches && t in s'.pcs && s'.pcs == s.pcs[t := s'.pcs[t]]
      && (!s'.pcs[t].Idle? ==> s'.pcs[t].id == s.pcs[t].id)
  {
  }

  lemma {:induction false} WriteAddsCall(s: State, t: Tid, items: seq<Elem>, calls: seq<Call>)
    requires t in s.pcs && FollowsCalls(s, calls) && s.pcs[t].Idle?
    ensures Next(s, t, Write(items)).Some?
    ensures FollowsCalls(Next(s, t, Write(items)).value, calls + [Call(t, items)])
  {
  }

  lemma {:induction false} StepFollows(s: State, t: Tid, act: Act, calls: seq<Call>)
    requires t in s.pcs && Next(s, t, act).Some? && FollowsCalls(s, calls)
    ensures var more := if s.pcs[t].Idle? && act.Write? then [Call(t, act.items)] else [];
      FollowsCalls(Next(s, t, act).value, calls + more)
  {
    match act
    case Write(items) => WriteAddsCall(s, t, items, calls);
    case Go(surplus) =>
      GoKeepsCalls(s, t, surplus);
      assert calls + [] == calls;
  }

  lemma {:induction false} RunFollows(threads: set<Tid>, data: seq<Elem>, spare: nat, events: seq<(Tid, Act)>)
    ensures var s := Init(threads, data, spare); FollowsCalls(Run(s, events), Calls(s, events))
    decreases |events|
  {
    if events != [] {
      var s, n := Init(threads, data, spare), |events| - 1;
      var before, calls := Run(s, events[..n]), Calls(s, events[..n]);
      var (t, act) := events[n];
      RunFollows(threads, data, spare, events[..n]);
      hide FollowsCalls, Init;
      if t in before.pcs {
        if Next(before, t, act).Some? {
          StepFollows(before, t, act, calls);
        } else {
          IdleCanWrite(before, t, act);
          assert calls + [] == calls;
        }
      } else {
        assert calls + [] == calls;
      }
    }
  }

  lemma {:induction false} IdleCanWrite(s: State, t: Tid, act: Act)
    requires t in s.pcs && Next(s, t, act).None?
    ensures !(s.pcs[t].Idle? && act.Write?)
  {
  }

  lemma {:induction false} BatchesAreCalls(batches: seq<Batch>, calls: seq<Call>)
    requires |batches| == |calls| && forall k :: 0 <= k < |calls| ==> batches[k].items == calls[k].items
    ensures Concat(batches) == Written(calls)
    decreases |calls|
  {
    if calls != [] {
      BatchesAreCalls(batches[..|calls| - 1], calls[..|calls| - 1]);
    }
  }

  /**
   However the calls were interleaved, once they are done the vector is the initial data followed by the items of all
   calls in the order in which they began, and each call's items lie where the call said.
   */
  lemma {:induction false} FinishedRun(threads: set<Tid>, data: seq<Elem>, spare: nat, events: seq<(Tid, Act)>)
    requires Quiet(Run(Init(threads, data, spare), events))
    ensures var s, calls := Run(Init(threads, data, spare), events), Calls(Init(threads, data, spare), events);
      var all := data + Written(calls);
      && Finish(s) == Some(all)
      && forall k :: 0 <= k < |calls| ==>
           k in s.returned && s.returned[k] + |calls[k].items| <= |all| &&
             all[s.returned[k]..s.returned[k] + |calls[k].items|] == calls[k].items
  {
    hide Run, Init, Finish, Quiet, Calls;
    RunFollows(threads, data, spare, events);
    BatchesRun(threads, data, spare, events);
    BatchesAreCalls(Run(Init(threads, data, spare), events).batches, Calls(Init(threads, data, spare), events));
  }

  /** A call that ends returns, for itself, the start of the range in which its items are in place. */
  lemma {:induction false} ReturnsItsOwn(threads: set<Tid>, data: seq<Elem>, spare: nat, events: seq<(Tid, Act)>,
                                         t: Tid, surplus: nat)
    requires var s := Run(Init(threads, data, spare), events);
      t in s.pcs && !s.pcs[t].Idle? && Next(s, t, Go(surplus)).Some? && Next(s, t, Go(surplus)).value.pcs[t].Idle?
    ensures var s, calls := Run(Init(threads, data, spare), events), Calls(Init(threads, data, spare), events);
      var s', k := Next(s, t, Go(surplus)).value, s.pcs[t].id;
      && k < |calls| && calls[k].thread == t && (forall j :: k < j < |calls| ==> calls[j].thread != t)
      && k !in s.returned && k in s'.returned && s'.returned == s.returned[k := s'.returned[k]]
      && forall j :: 0 <= j < |calls[k].items| ==>
           s'.returned[k] + j < |s'.cells| && s'.cells[s'.returned[k] + j] == Some(calls[k].items[j])
  {
    hide Run, Init, Calls, Tiled, Locked, Returned;
    var s := Run(Init(threads, data, spare), events);
    RunFollows(threads, data, spare, events);
    RunInv(threads, data, spare, events);
    assert IsIn(s.pcs[t], t, Calls(Init(threads, data, spare), events)) && PcOk(s, s.pcs[t]);
    assert s.batches[s.pcs[t].id] == s.pcs[t].b;
  }

  // ---------------------------------------------------------------- every call ends

  function StepsLeft(pc: Pc): nat
  {
    match pc
    case Idle => 0
    case Reserved(_, b) => 6 + |b.items|
    case Peeking(_, b) => 5 + |b.items|
    case Short(_, b, _) => 4 + |b.items|
    case Growing(_, b, _) => 3 + |b.items|
    case Granted(_, b) => 2 + |b.items|
    case Writing(_, b, k) => if k <= |b.items| then 1 + |b.items| - k else 0
  }

  ghost function Work(s: State): nat { Total(s.pcs, StepsLeft) }

  /** Every step of a call brings the end of all calls closer, whatever the order of the threads. */
  lemma {:induction false} GoDecreases(s: State, t: Tid, surplus: nat)
    requires t in s.pcs && PcOk(s, s.pcs[t]) && Next(s, t, Go(surplus)).Some?
    ensures Work(Next(s, t, Go(surplus)).value) < Work(s)
  {
    GoKeepsCalls(s, t, surplus);
    TotalUpdate(s.pcs, StepsLeft, t, Next(s, t, Go(surplus)).value.pcs[t]);
  }

  /** As long as some thread is in a call, some such thread can make a step. */
  lemma {:induction false} SomeoneCanGo(s: State, t: Tid) returns (u: Tid)
    requires Inv(s) && t in s.pcs && !s.pcs[t].Idle?
    ensures u in s.pcs && Next(s, u, Go(0)).Some?
  {
    hide Tiled, Assigned, Returned, PcOk, Contains;
    if s.writer.Some? {
      u := s.writer.value;
      assert s.pcs[u].Growing?;
    } else if s.readers != {} {
      u :| u in s.readers;
      assert s.pcs[u].Peeking? || s.pcs[u].Writing?;
    } else {
      u := t;
    }
  }

  /** Going on wherever possible comes to an end, and then all calls are done. */
  lemma {:induction false} EveryCallEnds(s: State) returns (events: seq<(Tid, Act)>)
    requires Inv(s)
    ensures (forall k :: 0 <= k < |events| ==> events[k].1.Go?) && Quiet(Run(s, events))
    decreases Work(s)
  {
    if t :| t in s.pcs && !s.pcs[t].Idle? {
      var u := SomeoneCanGo(s, t);
      var next := Next(s, u, Go(0)).value;
      StepInv(s, u, Go(0));
      GoDecreases(s, u, 0);
      var rest := EveryCallEnds(next);
      events := [(u, Go(0))] + rest;
      RunFirst(s, u, Go(0), rest);
    } else {
      events := [];
    }
  }

  lemma {:induction false} RunFirst(s: State, t: Tid, act: Act, rest: seq<(Tid, Act)>)
    requires t in s.pcs && Next(s, t, act).Some?
    ensures Run(s, [(t, act)] + rest) == Run(Next(s, t, act).value, rest)
    decreases |rest|
  {
    var events := [(t, act)] + rest;
    hide Next;
    if rest == [] {
      assert events[..0] == [] && Run(s, []) == s;
    } else {
      assert events[..|events| - 1] == [(t, act)] + rest[..|rest| - 1];
      RunFirst(s, t, act, rest[..|rest| - 1]);
    }
  }

  /** A run, a `take`, and another run: the second vector has what was written since, and nothing from before. */
  lemma {:induction false} RunAfterTake(threads: set<Tid>, data: seq<Elem>, spare: nat, before: seq<(Tid, Act)>,
                                        after: seq<(Tid, Act)>)
    requires Quiet(Run(Init(threads, data, spare), before))
    requires Quiet(Run(AfterTake(Run(Init(threads, data, spare), before)), after))
    ensures var s := Run(Init(threads, data, spare), before);
      && Finish(s) == Some(data + Written(Calls(Init(threads, data, spare), before)))
      && Finish(Run(AfterTake(s), after)) == Some(Written(Calls(AfterTake(s), after)))
  {
    hide Run, Inv, Quiet, Finish, Calls;
    var s := Run(Init(threads, data, spare), before);
    RunInv(threads, data, spare, before);
    TakeInv(s);
    FinishedRun(threads, data, spare, before);
    FinishedRun(s.pcs.Keys, [], 0, after);
    assert [] + Written(Calls(AfterTake(s), after)) == Written(Calls(AfterTake(s), after));
  }
}
