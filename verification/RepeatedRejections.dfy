/** A consent may be rejected more than once: rejections before `consume` leave the transaction in place. */
module RepeatedRejections {
  import opened Text
  import opened Domain
  import opened Freshness
  import opened Configuration
  import opened PendingLedger
  import opened LazyExpiry
  import opened Flows
  import opened ServiceRuns
  import opened ServiceTheorems
  import opened ServiceTakes
  import opened Service
  import opened ServiceSteps
  import opened ServiceRefinement
  import opened HandOffs
  import opened SmallProvider

  /** One such rejection, served at one go: the answer is in the trace, and the transaction is as open as before. */
  lemma RejectedOnce(env: Env, w: World, k: nat, id: Id, i: ConsentInput, o: Outside) returns (w': World, n: nat)
    requires Reachable(env, w) && Sound(env.cfg) && Open(w, k) && w.shared.clock <= o.t0 && id !in w.calls
    requires w.trace[k].t.flow == FlowConsent && BeforeSession(w.trace[k].t, i).RejectStep?
    requires ComesBack(env, w.trace[k].h, w.trace[k].t, CompleteConsent(w.trace[k].h, i), o) && o.draws[0].None?
    ensures Reachable(env, w') && w'.calls == w.calls[id := CompleteConsent(w.trace[k].h, i)] && w'.shared.clock == o.t3
    ensures w.trace <= w'.trace && Open(w', k) && SystemOf(w'.shared) == SystemOf(w.shared)
    ensures |w.trace| <= n < |w'.trace| && w'.trace[n].RejectConsent? && w'.trace[n].id == id
  {
    var h := w.trace[k].h;
    w' := ServedIsRun(env, w, id, CompleteConsent(h, i), o);
    EarlyRejectionKeepsPlace(env, w, k, id, i, o);
    var e := Served(env, SystemOf(w.shared), id, CompleteConsent(h, i), o).1.answer;
    assert e in w'.trace[|w.trace|..];
    n :| |w.trace| <= n < |w'.trace| && w'.trace[n] == e;
    NeverLost(env, w, k);
    ReachableInv(env, w');
    assert h in w'.shared.data;
  }

  /** Two requests that complete one handle are both answered: neither has taken it. */
  ghost predicate RejectedTwice(w: World, h: Handle, i: nat, j: nat) {
    && i < j < |w.trace| && w.trace[i].RejectConsent? && w.trace[j].RejectConsent? && w.trace[i].id != w.trace[j].id
    && w.trace[i].id in w.calls && w.calls[w.trace[i].id].CompleteConsent? && w.calls[w.trace[i].id].handle == h
    && w.trace[j].id in w.calls && w.calls[w.trace[j].id].CompleteConsent? && w.calls[w.trace[j].id].handle == h
    && h in w.shared.data
  }

  /** Every pending consent can be rejected again and again. */
  lemma EveryConsentCanBeRejectedTwice(env: Env, w: World, k: nat, a: Id, b: Id, i: ConsentInput, o: Outside, o': Outside)
    returns (w2: World, m: nat, n: nat)
    requires Reachable(env, w) && Sound(env.cfg) && Open(w, k) && w.shared.clock <= o.t0 && o.t3 <= o'.t0
    requires a != b && a !in w.calls && b !in w.calls
    requires w.trace[k].t.flow == FlowConsent && BeforeSession(w.trace[k].t, i).RejectStep?
    requires ComesBack(env, w.trace[k].h, w.trace[k].t, CompleteConsent(w.trace[k].h, i), o) && o.draws[0].None?
    requires ComesBack(env, w.trace[k].h, w.trace[k].t, CompleteConsent(w.trace[k].h, i), o') && o'.draws[0].None?
    ensures Reachable(env, w2) && RejectedTwice(w2, w.trace[k].h, m, n)
  {
    var w1;
    w1, m := RejectedOnce(env, w, k, a, i, o);
    assert w1.trace[k] == w.trace[k];
    w2, n := RejectedOnce(env, w1, k, b, i, o');
    assert w2.trace[m] == w1.trace[m];
    NeverLost(env, w, k);
  }

  // ---------------------------------------------------------------- and there is one

  ghost function ConsentHello(g: Setting): ConsentRequest {
    ConsentRequest("x", HydraClient("c", "", [g.redirect]), "u", [], [], false, "")
  }

  ghost function PendingConsent(g: Setting): Transaction {
    Transaction(FlowConsent, "x", g.csrf, g.browser, "c", "u", "", "", "", None, ZERO_TIME, [], [], "", 11)
  }

  /** The user accepts with a scope that nobody asked for. */
  ghost function TooMuch(g: Setting): ConsentInput {
    ConsentInput(g.csrf, g.browser, "accept", ["z"], [], false, 0)
  }

  /** Everything happens at time 1; a handle is drawn only by the start. */
  ghost function AtOne(g: Setting, draw: Option<Handle>): Outside {
    Outside(Err(ErrUpstream), Ok(ConsentHello(g)), Err(ErrUpstream), Some(g.browser), Some(g.csrf), [draw, None, None],
            Err(ErrUpstream), Err(ErrUpstream), Err(ErrUpstream), 1, 1, 1, 1)
  }

  lemma ConsentPlanned(env: Env, g: Setting)
    requires env == SmallEnv(g)
    ensures ValidChallenge(env.cfg, "x") && PlanConsent(env.cfg, "x", ConsentHello(g)) == AskConsent(env.cfg.clients["c"])
  {
    assert ByteLen("x") == 1;
    assert Fields("") == [];
  }

  lemma ConsentPends(env: Env, g: Setting, h: Handle)
    requires env == SmallEnv(g) && Realistic(g)
    ensures Served(env, System(Ledger(0, map[]), map[]), 0, StartConsent("x", ""), AtOne(g, Some(h))).1 == HandedOff(h, PendingConsent(g))
  {
    ConsentPlanned(env, g);
  }

  lemma ComesBackTooMuch(env: Env, g: Setting, h: Handle)
    requires env == SmallEnv(g) && Realistic(g) && h != "" && ByteLen(h) <= MAX_HANDLE_BYTES
    ensures ComesBack(env, h, PendingConsent(g), CompleteConsent(h, TooMuch(g)), AtOne(g, None))
    ensures BeforeSession(PendingConsent(g), TooMuch(g)).RejectStep?
  {
    assert "z" in TooMuch(g).grantScopes;
  }

  lemma ConsentStored(env: Env, g: Setting, h: Handle) returns (w: World, k: nat)
    requires env == SmallEnv(g) && Realistic(g)
    ensures Reachable(env, w) && Sound(env.cfg) && Open(w, k) && w.shared.clock == 1 && w.calls == map[0 := StartConsent("x", "")]
    ensures w.trace[k] == Stored(0, h, PendingConsent(g))
  {
    SmallIsValid(g);
    ValidIsSound(env.lib, env.cfg);
    var start := Initial(0);
    assert start == Run(env, start, []);
    ConsentPends(env, g, h);
    var later;
    w, k, later := HandedOffIsStored(env, start, 0, StartConsent("x", ""), AtOne(g, Some(h)), []);
  }

  /**
   For every handle a completion may name, whatever the library accepts as tokens and URLs: a run of a valid
   provider in which two completions of that handle are both answered.
   */
  lemma EarlyRejectionsRepeat(g: Setting, h: Handle) returns (env: Env, w: World, m: nat, n: nat)
    requires Realistic(g) && h != "" && ByteLen(h) <= MAX_HANDLE_BYTES
    ensures ValidConfig(env.lib, env.cfg) && env.lib == g.lib && Reachable(env, w) && RejectedTwice(w, h, m, n)
  {
    env := SmallEnv(g);
    SmallIsValid(g);
    var before, k := ConsentStored(env, g, h);
    ComesBackTooMuch(env, g, h);
    w, m, n := ServedTwice(env, g, before, k, h);
  }

  lemma ServedTwice(env: Env, g: Setting, w: World, k: nat, h: Handle) returns (w2: World, m: nat, n: nat)
    requires Reachable(env, w) && Sound(env.cfg) && Open(w, k) && w.shared.clock == 1 && w.calls == map[0 := StartConsent("x", "")]
    requires w.trace[k] == Stored(0, h, PendingConsent(g))
    requires ComesBack(env, h, PendingConsent(g), CompleteConsent(h, TooMuch(g)), AtOne(g, None))
    requires BeforeSession(PendingConsent(g), TooMuch(g)).RejectStep?
    ensures Reachable(env, w2) && RejectedTwice(w2, h, m, n)
  {
    w2, m, n := EveryConsentCanBeRejectedTwice(env, w, k, 1, 2, TooMuch(g), AtOne(g, None), AtOne(g, None));
  }
}
