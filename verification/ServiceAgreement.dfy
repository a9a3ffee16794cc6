/** The ledger against the store under concurrency: which places stand for a stored transaction, and when the two agree. */
module ServiceAgreement {
  import opened Freshness
  import opened PendingLedger
  import opened MemoryStore
  import opened Flows
  import opened ServiceRuns
  import opened ServiceInvariants
  import opened ServiceSafety
  import opened ServiceTheorems
  import opened ServiceTakes

  // ---------------------------------------------------------------- every place comes from a stored transaction

  ghost predicate StoredUntil(trace: seq<Event>, h: Handle, e: Time) {
    exists t :: Known(trace, h, t) && t.expiresAt == e
  }

  ghost predicate PlacesOk(w: World) {
    forall h :: h in w.shared.ledger.active ==> StoredUntil(w.trace, h, w.shared.ledger.active[h])
  }

  lemma StoredUntilGrows(trace: seq<Event>, more: seq<Event>, h: Handle, e: Time)
    requires StoredUntil(trace, h, e)
    ensures StoredUntil(trace + more, h, e)
  {
    var t :| Known(trace, h, t) && t.expiresAt == e;
    var id :| Stored(id, h, t) in trace;
    assert Stored(id, h, t) in trace + more;
    assert Known(trace + more, h, t);
  }

  /** The places a step leaves are old ones, or the one of the transaction that is being committed. */
  ghost predicate AddsOnlyCommitted(s: Shared, pc: Pc, m: Move) {
    forall h :: h in m.shared.ledger.active ==>
      || (h in s.ledger.active && m.shared.ledger.active[h] == s.ledger.active[h])
      || (pc.AwaitCommit? && h == pc.h && m.shared.ledger.active[h] == pc.t.expiresAt)
  }

  lemma StartAddsOnlyCommitted(env: Env, s: Shared, id: Id, call: Call, pc: Pc, reply: Reply)
    requires !call.Completes() && StartMove(env, s, id, call, pc, reply).Some?
    ensures AddsOnlyCommitted(s, pc, StartMove(env, s, id, call, pc, reply).value)
  {
    if !pc.AwaitReserveLock? && !pc.AwaitCommit? && !pc.AwaitCancel? {
      OtherStepsHoldAlike(env, s, id, call, pc, reply);
    }
  }

  lemma MoveAddsOnlyCommitted(env: Env, s: Shared, id: Id, call: Call, pc: Pc, reply: Reply)
    requires NextMove(env, s, id, call, pc, reply).Some?
    ensures AddsOnlyCommitted(s, pc, NextMove(env, s, id, call, pc, reply).value)
  {
    if call.Completes() {
      FinishHoldsNothing(env, s, id, call, pc, reply);
    } else {
      StartAddsOnlyCommitted(env, s, id, call, pc, reply);
    }
  }

  lemma PlacesGrow(w: World, id: Id, m: Move)
    requires PlacesOk(w) && id in w.pcs && AddsOnlyCommitted(w.shared, w.pcs[id], m)
    requires w.pcs[id].AwaitCommit? ==> Stored(id, w.pcs[id].h, w.pcs[id].t) in w.trace
    ensures PlacesOk(Apply(w, id, m))
  {
    var active := m.shared.ledger.active;
    forall h | h in active
      ensures StoredUntil(w.trace + m.events, h, active[h])
    {
      if !(h in w.shared.ledger.active && active[h] == w.shared.ledger.active[h]) {
        assert Known(w.trace, h, w.pcs[id].t);
      }
      StoredUntilGrows(w.trace, m.events, h, active[h]);
    }
  }

  lemma StepKeepsPlaces(env: Env, w: World, a: Action)
    requires Inv(env, w) && PlacesOk(w)
    ensures PlacesOk(Step(env, w, a))
  {
    if a.Advance? && a.id in w.pcs && NextMove(env, w.shared, a.id, w.calls[a.id], w.pcs[a.id], a.reply).Some? {
      var call, pc := w.calls[a.id], w.pcs[a.id];
      assert PcOk(env, w.shared, w.trace, a.id, call, pc);
      MoveAddsOnlyCommitted(env, w.shared, a.id, call, pc, a.reply);
      PlacesGrow(w, a.id, NextMove(env, w.shared, a.id, call, pc, a.reply).value);
    }
  }

  lemma {:induction false} RunKeepsPlaces(env: Env, w: World, actions: seq<Action>)
    requires Inv(env, w) && PlacesOk(w)
    ensures PlacesOk(Run(env, w, actions))
    decreases actions
  {
    if actions != [] {
      StepKeepsInv(env, w, actions[0]);
      StepKeepsPlaces(env, w, actions[0]);
      RunKeepsPlaces(env, Step(env, w, actions[0]), actions[1..]);
    }
  }

  lemma ReachablePlaces(env: Env, w: World)
    requires Reachable(env, w)
    ensures PlacesOk(w)
  {
    var clock, actions :| w == Run(env, Initial(clock), actions);
    InitialInv(env, clock);
    RunKeepsPlaces(env, Initial(clock), actions);
  }

  /**
   The converse of LedgerCoversStore, in every reachable world: a place that has not expired belongs to a
   live stored transaction with that expiry, or somebody has consumed its handle.
   */
  lemma PlaceIsLiveOrConsumed(env: Env, w: World, h: Handle)
    requires Reachable(env, w)
    requires h in w.shared.ledger.active && w.shared.ledger.active[h] > w.shared.clock
    ensures (h in w.shared.data && w.shared.data[h].expiresAt == w.shared.ledger.active[h]) || h in w.shared.winner
  {
    ReachablePlaces(env, w);
    var t :| Known(w.trace, h, t) && t.expiresAt == w.shared.ledger.active[h];
    var id :| Stored(id, h, t) in w.trace;
    var i :| 0 <= i < |w.trace| && w.trace[i] == Stored(id, h, t);
    if h !in w.shared.winner {
      NeverLost(env, w, i);
    }
  }

  // ---------------------------------------------------------------- completions after the hand-off

  /** Nobody is about to commit the handle: it has been handed off, or was never stored. */
  ghost predicate NotBeingCommitted(w: World, h: Handle) {
    forall id :: id in w.pcs && w.pcs[id].AwaitCommit? ==> w.pcs[id].h != h
  }

  ghost predicate BeginsAfterHandOff(w: World, a: Action) {
    a.Begin? && a.call.Completes() ==> NotBeingCommitted(w, a.call.handle)
  }

  /** Every completion of the run begins when its handle is not still being committed. */
  ghost predicate AfterHandOff(env: Env, w: World, actions: seq<Action>)
    decreases actions
  {
    actions != [] ==> BeginsAfterHandOff(w, actions[0]) && AfterHandOff(env, Step(env, w, actions[0]), actions[1..])
  }

  /** Nobody commits a handle that somebody came to complete, and only a request about to release it leaves a consumed handle its place. */
  ghost predicate HandedOffOk(w: World) {
    && (forall id :: id in w.calls && w.calls[id].Completes() ==> NotBeingCommitted(w, w.calls[id].handle))
    && (forall h :: h in w.shared.winner && h in w.shared.ledger.active ==> Releasing(w.pcs, w.shared.winner[h]))
  }

  ghost predicate Releasing(pcs: map<Id, Pc>, id: Id) {
    id in pcs && (pcs[id].AwaitConsumeCheck? || pcs[id].AwaitConsumeRelease?)
  }

  /** What a step does to the handles that are committed, consumed and released. */
  ghost predicate HandsOff(s: Shared, id: Id, call: Call, pc: Pc, m: Move) {
    && AddsOnlyCommitted(s, pc, m)
    && (m.next.Some? && m.next.value.AwaitCommit? ==> m.next.value.h !in s.mentioned)
    && (pc.AwaitCommit? ==> m.shared.winner == s.winner)
    && (m.shared.winner == s.winner
        || (call.Completes() && m.shared.winner == s.winner[call.handle := id] && m.next.Some? && m.next.value.AwaitConsumeCheck?))
    && (pc.AwaitConsumeCheck? ==> m.next.Some? && m.next.value.AwaitConsumeRelease?)
    && (pc.AwaitConsumeRelease? ==> call.Completes() && call.handle !in m.shared.ledger.active)
  }

  lemma StartHandsOff(env: Env, s: Shared, id: Id, call: Call, pc: Pc, reply: Reply)
    requires !call.Completes() && StartMove(env, s, id, call, pc, reply).Some?
    ensures HandsOff(s, id, call, pc, StartMove(env, s, id, call, pc, reply).value)
  {
    StartAddsOnlyCommitted(env, s, id, call, pc, reply);
    if !pc.AwaitCreateLock? {
      StartTouchesLedgerOnly(env, s, id, call, pc, reply);
      OnlyCreatingCommits(env, s, id, call, pc, reply);
    }
  }

  lemma OnlyCreatingCommits(env: Env, s: Shared, id: Id, call: Call, pc: Pc, reply: Reply)
    requires !call.Completes() && !pc.AwaitCreateLock? && StartMove(env, s, id, call, pc, reply).Some?
    ensures var next := StartMove(env, s, id, call, pc, reply).value.next; next.Some? ==> !next.value.AwaitCommit?
  {
  }

  lemma FinishHandsOff(env: Env, s: Shared, id: Id, call: Call, pc: Pc, reply: Reply)
    requires call.Completes() && FinishMove(env, s, id, call, pc, reply).Some?
    ensures HandsOff(s, id, call, pc, FinishMove(env, s, id, call, pc, reply).value)
  {
    FinishHoldsNothing(env, s, id, call, pc, reply);
    if !pc.AwaitConsume? {
      FinishTouchesLedgerOnly(env, s, id, call, pc, reply);
    }
  }

  lemma MoveKeepsHandedOff(w: World, id: Id, m: Move)
    requires HandedOffOk(w) && HandlesOk(w.shared, w.calls) && WinnersOk(w)
    requires id in w.pcs && id in w.calls && HandsOff(w.shared, id, w.calls[id], w.pcs[id], m)
    ensures HandedOffOk(Apply(w, id, m))
  {
    var w' := Apply(w, id, m);
    forall k, n | k in w'.calls && w'.calls[k].Completes() && n in w'.pcs && w'.pcs[n].AwaitCommit?
      ensures w'.pcs[n].h != w'.calls[k].handle
    {
      if n != id {
        assert NotBeingCommitted(w, w.calls[k].handle);
      }
    }
    forall h | h in w'.shared.winner && h in w'.shared.ledger.active
      ensures Releasing(w'.pcs, w'.shared.winner[h])
    {
      if h in w.shared.winner {
        assert w.calls[w.shared.winner[h]].handle == h;
        assert NotBeingCommitted(w, h);
      }
    }
  }

  lemma StepKeepsHandedOff(env: Env, w: World, a: Action)
    requires Inv(env, w) && RunsOk(env, w) && HandedOffOk(w) && BeginsAfterHandOff(w, a)
    ensures HandedOffOk(Step(env, w, a))
  {
    match a
    case Tick(_) =>
    case Begin(id, call) => BeginKeepsHandedOff(env, w, id, call);
    case Advance(id, reply) =>
      if id in w.pcs && NextMove(env, w.shared, id, w.calls[id], w.pcs[id], reply).Some? {
        if w.calls[id].Completes() {
          FinishHandsOff(env, w.shared, id, w.calls[id], w.pcs[id], reply);
        } else {
          StartHandsOff(env, w.shared, id, w.calls[id], w.pcs[id], reply);
        }
        MoveKeepsHandedOff(w, id, NextMove(env, w.shared, id, w.calls[id], w.pcs[id], reply).value);
      }
  }

  lemma BeginKeepsHandedOff(env: Env, w: World, id: Id, call: Call)
    requires PcsOk(env, w) && HandedOffOk(w) && BeginsAfterHandOff(w, Begin(id, call))
    ensures HandedOffOk(Step(env, w, Begin(id, call)))
  {
    if id !in w.calls {
      var w' := Step(env, w, Begin(id, call));
      forall k | k in w'.calls && w'.calls[k].Completes()
        ensures NotBeingCommitted(w', w'.calls[k].handle)
      {
        assert NotBeingCommitted(w, w'.calls[k].handle);
      }
    }
  }

  lemma {:induction false} RunKeepsHandedOff(env: Env, w: World, actions: seq<Action>)
    requires Inv(env, w) && RunsOk(env, w) && HandedOffOk(w) && AfterHandOff(env, w, actions)
    ensures HandedOffOk(Run(env, w, actions))
    decreases actions
  {
    if actions != [] {
      StepKeepsInv(env, w, actions[0]);
      StepKeepsTakes(env, w, actions[0]);
      StepKeepsHandedOff(env, w, actions[0]);
      RunKeepsHandedOff(env, Step(env, w, actions[0]), actions[1..]);
    }
  }

  /** The expiries of the live stored transactions. */
  function Expiries(data: Entries, now: Time): map<Handle, Time> {
    map h | h in data && data[h].expiresAt > now :: data[h].expiresAt
  }

  /**
   Whenever no request is in flight, the places that have not expired are exactly the live stored
   transactions with their expiries, for every run whose completions begin after the hand-off.
   */
  lemma QuietAgreement(env: Env, clock: Time, actions: seq<Action>)
    requires AfterHandOff(env, Initial(clock), actions)
    requires Run(env, Initial(clock), actions).pcs == map[]
    ensures var s := Run(env, Initial(clock), actions).shared;
      Unexpired(s.ledger.active, s.clock) == Expiries(s.data, s.clock)
  {
    var w := Run(env, Initial(clock), actions);
    InitialInv(env, clock);
    RunKeepsHandedOff(env, Initial(clock), actions);
    assert Reachable(env, w);
    QuietPlaces(env, w);
    QuietEntries(env, w);
    SamePlaces(w.shared.ledger.active, w.shared.data, w.shared.clock);
  }

  lemma SamePlaces(active: map<Handle, Time>, data: Entries, now: Time)
    requires forall h :: h in active && active[h] > now ==> h in data && data[h].expiresAt == active[h]
    requires forall h :: h in data && data[h].expiresAt > now ==> h in active && active[h] == data[h].expiresAt
    ensures Unexpired(active, now) == Expiries(data, now)
  {
  }

  lemma QuietPlaces(env: Env, w: World)
    requires Reachable(env, w) && HandedOffOk(w) && w.pcs == map[]
    ensures forall h :: h in w.shared.ledger.active && w.shared.ledger.active[h] > w.shared.clock ==>
      h in w.shared.data && w.shared.data[h].expiresAt == w.shared.ledger.active[h]
  {
    forall h | h in w.shared.ledger.active && w.shared.ledger.active[h] > w.shared.clock
      ensures h in w.shared.data && w.shared.data[h].expiresAt == w.shared.ledger.active[h]
    {
      PlaceIsLiveOrConsumed(env, w, h);
    }
  }

  lemma QuietEntries(env: Env, w: World)
    requires Reachable(env, w) && w.pcs == map[]
    ensures forall h :: h in w.shared.data && w.shared.data[h].expiresAt > w.shared.clock ==>
      h in w.shared.ledger.active && w.shared.ledger.active[h] == w.shared.data[h].expiresAt
  {
    forall h | h in w.shared.data && w.shared.data[h].expiresAt > w.shared.clock
      ensures h in w.shared.ledger.active && w.shared.ledger.active[h] == w.shared.data[h].expiresAt
    {
      LedgerCoversStore(env, w, h);
    }
  }
}
