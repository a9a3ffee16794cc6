/**
 Why ServiceAgreement asks completions to begin after the hand-off: `commit` does not look at the store, so a
 completion that takes the transaction before its start has committed it leaves a place that stands for nothing.
 */
module EarlyCompletions {
  import opened Text
  import opened Configuration
  import opened PendingLedger
  import opened Flows
  import opened ServiceRuns
  import opened ServiceInvariants
  import opened ServiceTheorems
  import opened Service
  import opened ServiceSteps
  import opened ServiceRefinement
  import opened SmallProvider
  import opened StaleReadings

  /** The handle has a place that has not expired, and no stored transaction. */
  ghost predicate PlaceOfNothing(s: Shared, h: Handle) {
    h in s.ledger.active && s.ledger.active[h] > s.clock && h !in s.data
  }

  /** In any world: whatever completion takes a transaction before it is committed leaves its place behind. */
  lemma EarlyCompletionLeavesPlace(env: Env, w: World, id: Id, back: Id, call: Call, o: Outside) returns (w': World)
    requires Reachable(env, w) && id in w.pcs && w.pcs[id].AwaitCommit? && back !in w.calls
    requires o.Orderly() && w.shared.clock <= o.t0 && o.t3 < w.pcs[id].t.expiresAt && o.draws[0].None?
    requires w.pcs[id].h !in Served(env, SystemOf(w.shared), back, call, o).0.data
    ensures Reachable(env, w') && w'.pcs == w.pcs - {id} && PlaceOfNothing(w'.shared, w.pcs[id].h)
  {
    ReachableInv(env, w);
    var t, h := w.pcs[id].t, w.pcs[id].h;
    var w1 := ServedIsRun(env, w, back, call, o);
    w' := Committed(env, w1, id);
  }

  lemma Committed(env: Env, w: World, id: Id) returns (w': World)
    requires Reachable(env, w) && id in w.pcs && w.pcs[id].AwaitCommit?
    ensures Reachable(env, w') && w'.pcs == w.pcs - {id}
    ensures w'.shared == w.shared.(ledger := AfterCommit(w.shared.ledger, w.pcs[id].h, w.pcs[id].t.expiresAt))
  {
    ReachableInv(env, w);
    assert PcOk(env, w.shared, w.trace, id, w.calls[id], w.pcs[id]);
    w' := Step(env, w, Advance(id, NoReply));
    StepIsReachable(env, w, Advance(id, NoReply));
  }

  lemma StepIsReachable(env: Env, w: World, a: Action)
    requires Reachable(env, w)
    ensures Reachable(env, Step(env, w, a))
  {
    RunStaysReachable(env, w, [a]);
    assert Run(env, w, [a]) == Run(env, Step(env, w, a), []);
  }

  /** A draw that the store has room for. */
  lemma Drawn(env: Env, w: World, id: Id, h: Handle) returns (w': World)
    requires Reachable(env, w) && id in w.pcs && w.pcs[id].AwaitCreateLock? && id in w.calls && !w.calls[id].Completes()
    requires h !in w.shared.mentioned && w.shared.data == map[]
    ensures Reachable(env, w') && w'.calls == w.calls && w'.pcs == w.pcs[id := AwaitCommit(w.pcs[id].t, h)]
    ensures w'.shared.clock == w.shared.clock && w'.shared.data == map[h := w.pcs[id].t]
  {
    w' := Step(env, w, Advance(id, Draw(Some(h))));
    StepIsReachable(env, w, Advance(id, Draw(Some(h))));
  }

  /** A logout that has been stored under `h` and not yet committed. */
  lemma AboutToCommit(env: Env, g: Setting, h: Handle) returns (w: World)
    requires env == SmallEnv(g) && Realistic(g)
    ensures Reachable(env, w) && w.calls == map[0 := SmallCall()] && w.shared.clock == 6
    ensures w.pcs == map[0 := AwaitCommit(SmallTransaction(g, 6), h)] && w.shared.data == map[h := SmallTransaction(g, 6)]
  {
    var start := Initial(0);
    assert start == Run(env, start, []);
    var paused := Pauses(env, g, start, 0);
    w := Drawn(env, paused, 0, h);
  }

  /**
   For every handle a completion may name: a run of a valid provider after which no request is in flight, and
   the ledger counts a place that belongs to no stored transaction until it expires.
   */
  lemma EarlyCompletionLeaks(g: Setting, h: Handle) returns (env: Env, w: World)
    requires Realistic(g) && h != "" && ByteLen(h) <= MAX_HANDLE_BYTES
    ensures ValidConfig(env.lib, env.cfg) && env.lib == g.lib && Reachable(env, w) && w.pcs == map[]
    ensures PlaceOfNothing(w.shared, h)
  {
    env := SmallEnv(g);
    SmallIsValid(g);
    var before := AboutToCommit(env, g, h);
    TakesEarly(env, g, before, h);
    w := EarlyCompletionLeavesPlace(env, before, 0, 1, CompleteLogout(h, LogoutInput(g.csrf, g.browser)),
                                    SmallOutside(g, 6, h).(draws := [None, None, None]));
  }

  lemma TakesEarly(env: Env, g: Setting, w: World, h: Handle)
    requires env == SmallEnv(g) && Realistic(g) && h != "" && ByteLen(h) <= MAX_HANDLE_BYTES
    requires h in w.shared.data && w.shared.data[h] == SmallTransaction(g, 6)
    ensures h !in Served(env, SystemOf(w.shared), 1, CompleteLogout(h, LogoutInput(g.csrf, g.browser)),
                         SmallOutside(g, 6, h).(draws := [None, None, None])).0.data
  {
  }
}
