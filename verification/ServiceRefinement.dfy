/**
 The service code refines the step machine: what a request does when it is served at one go, as Service
 proves of the code, is what some run of its steps in ServiceRuns does. So the results about all runs
 hold of the code.
 */
module ServiceRefinement {
  import opened Text
  import opened Domain
  import opened Freshness
  import opened PendingLedger
  import opened LazyExpiry
  import opened Flows
  import opened SequentialCalls
  import opened ServiceRuns
  import opened ServiceTrace
  import opened ServiceTheorems
  import opened ServiceTakes
  import opened Service
  import opened ServiceSteps

  // ---------------------------------------------------------------- whole flows

  /** The events tell Hydra and the UI exactly what the fate of the request says. */
  ghost predicate Told(events: seq<Event>, id: Id, fate: Fate) {
    && (forall e :: e in events && Verdict(e) <==> fate == Answered(e))
    && (forall h :: Handoff(id, h) in events <==> fate.HandedOff? && fate.h == h)
    && (forall h, t :: Stored(id, h, t) in events <==> fate == HandedOff(h, t))
  }

  ghost predicate Quiet(events: seq<Event>) {
    forall e :: e in events ==> !Verdict(e) && !e.Handoff? && !e.Stored?
  }

  /** The request can end with the ledger and the store as `y` says, and with its fate. */
  ghost predicate Ends(r: Local -> bool, id: Id, y: (System, Fate), now: Time) {
    exists l :: r(l) && l.pc.None? && Holds(l.shared, y.0, now) && Told(l.events, id, y.1)
  }

  lemma EndsHere(env: Env, id: Id, call: Call, r: Local -> bool, l: Local, y: (System, Fate), now: Time)
    requires Closed(env, id, call, r) && r(l) && l.pc.None? && l.shared.clock <= now
    requires SystemOf(l.shared) == y.0 && Told(l.events, id, y.1)
    ensures Ends(r, id, y, now)
  {
    var z := Waited(l, now);
    assert r(z);
  }

  /** What every start needs: time is in order, the draw is new, and the handles of the store are not. */
  ghost predicate Startable(l: Local, o: Outside) {
    && o.Orderly() && l.shared.clock <= o.t0
    && (o.draws[0].Some? ==> o.draws[0].value !in l.shared.mentioned)
    && l.shared.data.Keys <= l.shared.mentioned
  }

  lemma PendingSteps(env: Env, id: Id, call: Call, r: Local -> bool, l: Local, t: Transaction, o: Outside)
    requires Closed(env, id, call, r) && r(l) && Startable(l, o)
    requires !call.Completes() && l.pc == Some(AwaitTokens(t)) && Quiet(l.events)
    ensures Ends(r, id, Pending(env, SystemOf(l.shared), t, call.browser, o), o.t3)
  {
    var y := Pending(env, SystemOf(l.shared), t, call.browser, o);
    var complete := WithTokens(env.lib, t, call.browser, o.browser, o.csrf);
    var a := Stepped(env, id, call, l, Tokens(o.browser, o.csrf));
    assert l.events + [] == l.events;
    if complete.Err? {
      assert a == l.(pc := None);
      EndsHere(env, id, call, r, a, y, o.t3);
    } else {
      assert a == l.(pc := Some(AwaitReserve(complete.value)));
      CreationSteps(env, id, call, r, a, complete.value, o);
      CreationTold(id, r, l.events, complete.value, Creation(LimitsOf(env), SystemOf(l.shared), complete.value, o.draws, o.t1, o.t2), o.t3);
    }
  }

  lemma CreationTold(id: Id, r: Local -> bool, events: seq<Event>, t: Transaction, done: (System, Result<Handle, Error>), now: Time)
    requires Quiet(events)
    requires exists l ::
      && r(l) && l.pc.None? && Holds(l.shared, done.0, now)
      && l.events == events + if done.1.Ok? then [Stored(id, done.1.value, t), Handoff(id, done.1.value)] else []
    ensures Ends(r, id, (done.0, if done.1.Err? then Failed(done.1.error) else HandedOff(done.1.value, t)), now)
  {
  }

  /** The move at the end of a step that finishes the request. */
  lemma MoveEnds(env: Env, id: Id, call: Call, r: Local -> bool, l: Local, reply: Reply, m: Move, y: (System, Fate), now: Time)
    requires Closed(env, id, call, r) && r(l)
    requires Stepped(env, id, call, l, reply) == Local(m.shared, m.next, l.events + m.events)
    requires m.next.None? && m.shared.clock <= now && SystemOf(m.shared) == y.0 && Told(l.events + m.events, id, y.1)
    ensures Ends(r, id, y, now)
  {
    EndsHere(env, id, call, r, Stepped(env, id, call, l, reply), y, now);
  }

  lemma LoginStartSteps(env: Env, id: Id, call: Call, r: Local -> bool, l: Local, o: Outside)
    requires Closed(env, id, call, r) && r(l) && Startable(l, o)
    requires call.StartLogin? && l.pc == FirstPc(env, call) && l.events == []
    ensures Ends(r, id, LoginStarted(env, SystemOf(l.shared), id, call.challenge, call.browser, o), o.t3)
  {
    var y := LoginStarted(env, SystemOf(l.shared), id, call.challenge, call.browser, o);
    if l.pc.None? {
      EndsHere(env, id, call, r, l, y, o.t3);
    } else {
      var a := Waited(l, o.t0);
      var m := if o.login.Err? then Done(a.shared, []) else OnLoginRequest(env, a.shared, id, call.challenge, o.login.value);
      LoginRequestStep(env, id, call, a, o.login, m);
      var b := Stepped(env, id, call, a, LoginReply(o.login));
      if o.login.Ok? && PlanLogin(env.cfg, call.challenge, o.login.value).AcceptSilently? {
        SilentSteps(env, id, call, r, b, o);
      } else if o.login.Ok? && PlanLogin(env.cfg, call.challenge, o.login.value).Interact? {
        var plan := PlanLogin(env.cfg, call.challenge, o.login.value);
        PendingSteps(env, id, call, r, b, LoginTransaction(env.cfg, o.login.value, plan, o.t0), o);
      } else {
        LoginRequestTold(env, a.shared, id, call, o, m);
        EndsHere(env, id, call, r, b, y, o.t3);
      }
    }
  }

  lemma LoginRequestTold(env: Env, s: Shared, id: Id, call: Call, o: Outside, m: Move)
    requires call.StartLogin? && ValidChallenge(env.cfg, call.challenge)
    requires m == if o.login.Err? then Done(s, []) else OnLoginRequest(env, s, id, call.challenge, o.login.value)
    requires o.login.Ok? ==>
      !PlanLogin(env.cfg, call.challenge, o.login.value).AcceptSilently? && !PlanLogin(env.cfg, call.challenge, o.login.value).Interact?
    ensures var y := LoginStarted(env, SystemOf(s), id, call.challenge, call.browser, o);
      m.shared == s && m.next.None? && y.0 == SystemOf(s) && Told(m.events, id, y.1)
  {
  }

  lemma LoginRequestStep(env: Env, id: Id, call: Call, a: Local, reply: Result<LoginRequest, Error>, m: Move)
    requires call.StartLogin? && a.pc == Some(AwaitRequest) && a.events == []
    requires m == if reply.Err? then Done(a.shared, []) else OnLoginRequest(env, a.shared, id, call.challenge, reply.value)
    ensures Stepped(env, id, call, a, LoginReply(reply)) == Local(m.shared, m.next, m.events)
  {
    assert a.events + m.events == m.events;
  }

  lemma SilentSteps(env: Env, id: Id, call: Call, r: Local -> bool, l: Local, o: Outside)
    requires Closed(env, id, call, r) && r(l) && o.Orderly() && l.shared.clock <= o.t0
    requires call.StartLogin? && o.login.Ok? && PlanLogin(env.cfg, call.challenge, o.login.value).AcceptSilently?
    requires l.pc == Some(AwaitSilentPolicy(o.login.value)) && l.events == [GotLogin(id, o.login.value)]
    ensures var acr := PlanLogin(env.cfg, call.challenge, o.login.value).acr;
      Ends(r, id, (SystemOf(l.shared), Answered(SilentAnswer(id, o.login.value, acr, o.allowed))), o.t3)
  {
    var acr := PlanLogin(env.cfg, call.challenge, o.login.value).acr;
    var m := OnSilentPolicy(env, l.shared, id, call.challenge, o.login.value, o.allowed);
    SilentTold(env, l.shared, id, call.challenge, o.login.value, o.allowed);
    MoveEnds(env, id, call, r, l, LoginPolicyReply(o.allowed), m, (SystemOf(l.shared), Answered(SilentAnswer(id, o.login.value, acr, o.allowed))), o.t3);
  }

  lemma SilentTold(env: Env, s: Shared, id: Id, challenge: string, request: LoginRequest, reply: Result<bool, Error>)
    requires PlanLogin(env.cfg, challenge, request).AcceptSilently?
    ensures var m := OnSilentPolicy(env, s, id, challenge, request, reply);
      && m.shared == s && m.next.None?
      && Told([GotLogin(id, request)] + m.events, id, Answered(SilentAnswer(id, request, PlanLogin(env.cfg, challenge, request).acr, reply)))
  {
    var got := GotLogin(id, request);
    var m := OnSilentPolicy(env, s, id, challenge, request, reply);
    var e := m.events[|m.events| - 1];
    var before := if reply.Err? then [got] else [got, m.events[0]];
    assert [got] + m.events == before + [e];
    ToldLast(before, id, e);
  }

  lemma ToldLast(events: seq<Event>, id: Id, e: Event)
    requires Quiet(events) && Verdict(e)
    ensures Told(events + [e], id, Answered(e))
  {
  }

  lemma ConsentStartSteps(env: Env, id: Id, call: Call, r: Local -> bool, l: Local, o: Outside)
    requires Closed(env, id, call, r) && r(l) && Startable(l, o)
    requires call.StartConsent? && l.pc == FirstPc(env, call) && l.events == []
    ensures Ends(r, id, ConsentStarted(env, SystemOf(l.shared), id, call.challenge, call.browser, o), o.t3)
  {
    var y := ConsentStarted(env, SystemOf(l.shared), id, call.challenge, call.browser, o);
    if l.pc.None? {
      EndsHere(env, id, call, r, l, y, o.t3);
    } else {
      var a := Waited(l, o.t0);
      var m := if o.consent.Err? then Done(a.shared, []) else OnConsentRequest(env, a.shared, id, call.challenge, o.consent.value);
      ConsentRequestStep(env, id, call, a, o.consent, m);
      var b := Stepped(env, id, call, a, ConsentReply(o.consent));
      if o.consent.Ok? && PlanConsent(env.cfg, call.challenge, o.consent.value).AskConsent? {
        var client := PlanConsent(env.cfg, call.challenge, o.consent.value).client;
        PendingSteps(env, id, call, r, b, ConsentTransaction(env.cfg, o.consent.value, client, o.t0), o);
      } else {
        ConsentRequestTold(env, a.shared, id, call, o, m);
        EndsHere(env, id, call, r, b, y, o.t3);
      }
    }
  }

  lemma ConsentRequestTold(env: Env, s: Shared, id: Id, call: Call, o: Outside, m: Move)
    requires call.StartConsent? && ValidChallenge(env.cfg, call.challenge)
    requires m == if o.consent.Err? then Done(s, []) else OnConsentRequest(env, s, id, call.challenge, o.consent.value)
    requires o.consent.Ok? ==> !PlanConsent(env.cfg, call.challenge, o.consent.value).AskConsent?
    ensures var y := ConsentStarted(env, SystemOf(s), id, call.challenge, call.browser, o);
      m.shared == s && m.next.None? && y.0 == SystemOf(s) && Told(m.events, id, y.1)
  {
  }

  lemma ConsentRequestStep(env: Env, id: Id, call: Call, a: Local, reply: Result<ConsentRequest, Error>, m: Move)
    requires call.StartConsent? && a.pc == Some(AwaitRequest) && a.events == []
    requires m == if reply.Err? then Done(a.shared, []) else OnConsentRequest(env, a.shared, id, call.challenge, reply.value)
    ensures Stepped(env, id, call, a, ConsentReply(reply)) == Local(m.shared, m.next, m.events)
  {
    assert a.events + m.events == m.events;
  }

  lemma LogoutStartSteps(env: Env, id: Id, call: Call, r: Local -> bool, l: Local, o: Outside)
    requires Closed(env, id, call, r) && r(l) && Startable(l, o)
    requires call.StartLogout? && l.pc == FirstPc(env, call) && l.events == []
    ensures Ends(r, id, LogoutStarted(env, SystemOf(l.shared), call.challenge, call.browser, o), o.t3)
  {
    var y := LogoutStarted(env, SystemOf(l.shared), call.challenge, call.browser, o);
    if l.pc.None? {
      EndsHere(env, id, call, r, l, y, o.t3);
    } else {
      var a := Waited(l, o.t0);
      var m := if o.logout.Err? then Done(a.shared, []) else OnLogoutRequest(env, a.shared, id, call.challenge, o.logout.value);
      LogoutRequestStep(env, id, call, a, o.logout, m);
      var b := Stepped(env, id, call, a, LogoutReply(o.logout));
      if o.logout.Ok? && PlanLogout(env.cfg, call.challenge, o.logout.value).Ok? {
        var client := PlanLogout(env.cfg, call.challenge, o.logout.value).value;
        PendingSteps(env, id, call, r, b, LogoutTransaction(env.cfg, o.logout.value, client, o.t0), o);
      } else {
        EndsHere(env, id, call, r, b, y, o.t3);
      }
    }
  }

  lemma LogoutRequestStep(env: Env, id: Id, call: Call, a: Local, reply: Result<LogoutRequest, Error>, m: Move)
    requires call.StartLogout? && a.pc == Some(AwaitRequest) && a.events == []
    requires m == if reply.Err? then Done(a.shared, []) else OnLogoutRequest(env, a.shared, id, call.challenge, reply.value)
    ensures Stepped(env, id, call, a, LogoutReply(reply)) == Local(m.shared, m.next, m.events)
  {
    assert a.events + m.events == m.events;
  }

  // ---------------------------------------------------------------- completions

  /** What every completion needs: time is in order. */
  ghost predicate Completable(env: Env, call: Call, l: Local, o: Outside) {
    call.Completes() && l.pc == FirstPc(env, call) && l.events == [] && o.Orderly() && l.shared.clock <= o.t0
  }

  /** What follows `load` is OnLoaded's move. */
  lemma LoadedStep(env: Env, id: Id, call: Call, a: Local, t: Transaction)
    requires call.Completes() && a.pc == Some(AwaitGetCheck(t)) && a.shared.clock < t.expiresAt && ProofOk(env.lib, call, t)
    ensures var m := OnLoaded(a.shared, id, call, t);
      Stepped(env, id, call, a, NoReply) == Local(m.shared, m.next, a.events + m.events)
  {
  }

  lemma LoginCompletionSteps(env: Env, id: Id, call: Call, r: Local -> bool, l: Local, o: Outside)
    requires Closed(env, id, call, r) && r(l) && Completable(env, call, l, o) && call.CompleteLogin?
    ensures Ends(r, id, LoginCompleted(env, SystemOf(l.shared), id, call.handle, call.login, o), o.t3)
  {
    var y := LoginCompleted(env, SystemOf(l.shared), id, call.handle, call.login, o);
    var a := LoadSteps(env, id, call, r, l, o);
    if a.pc.None? {
      EndsHere(env, id, call, r, a, y, o.t3);
    } else {
      var t := a.pc.value.t;
      LoadedStep(env, id, call, a, t);
      var b := Stepped(env, id, call, a, NoReply);
      assert b.shared == a.shared && b.events == [];
      if b.pc.None? {
        EndsHere(env, id, call, r, b, y, o.t3);
      } else {
        var c := ConsumeSteps(env, id, call, r, b, t, None, o);
        if c.pc.None? {
          EndsHere(env, id, call, r, c, y, o.t3);
        } else {
          LoginAnswerSteps(env, id, call, r, c, t, o);
        }
      }
    }
  }

  lemma LoginAnswerSteps(env: Env, id: Id, call: Call, r: Local -> bool, l: Local, t: Transaction, o: Outside)
    requires Closed(env, id, call, r) && r(l) && call.CompleteLogin?
    requires l.pc == Some(AwaitLoginSession(t)) && l.shared.clock <= o.t3 && Quiet(l.events)
    ensures Ends(r, id, (SystemOf(l.shared), Answered(LoginAnswer(env.cfg, id, call.login, t, o))), o.t3)
  {
    var y := (SystemOf(l.shared), Answered(LoginAnswer(env.cfg, id, call.login, t, o)));
    var a := Waited(l, o.t3);
    var m := OnLoginSession(env, a.shared, id, t, o.session);
    var b := Stepped(env, id, call, a, SessionReply(o.session));
    assert b == Local(m.shared, m.next, a.events + m.events);
    if b.pc.None? {
      LoginRefusalTold(env, a.shared, id, call.login, t, o, a.events);
      EndsHere(env, id, call, r, b, y, o.t3);
    } else {
      LoginPolicySteps(env, id, call, r, b, t, o);
    }
  }

  lemma LoginRefusalTold(env: Env, s: Shared, id: Id, i: LoginInput, t: Transaction, o: Outside, events: seq<Event>)
    requires s.clock == o.t3 && OnLoginSession(env, s, id, t, o.session).next.None? && Quiet(events)
    ensures Told(events + OnLoginSession(env, s, id, t, o.session).events, id, Answered(LoginAnswer(env.cfg, id, i, t, o)))
  {
    var m := OnLoginSession(env, s, id, t, o.session);
    var before := if o.session.Err? then events else events + [m.events[0]];
    assert events + m.events == before + [m.events[|m.events| - 1]];
    ToldLast(before, id, m.events[|m.events| - 1]);
  }

  lemma LoginPolicySteps(env: Env, id: Id, call: Call, r: Local -> bool, l: Local, t: Transaction, o: Outside)
    requires Closed(env, id, call, r) && r(l) && call.CompleteLogin? && o.session.Ok?
    requires JudgeSession(env.cfg, t, o.session.value, o.t3).AskPolicy?
    requires l.pc == Some(AwaitLoginPolicy(t, o.session.value, JudgeSession(env.cfg, t, o.session.value, o.t3).input))
    requires l.shared.clock == o.t3 && Quiet(l.events)
    ensures Ends(r, id, (SystemOf(l.shared), Answered(LoginAnswer(env.cfg, id, call.login, t, o))), o.t3)
  {
    var input := JudgeSession(env.cfg, t, o.session.value, o.t3).input;
    var m := OnLoginPolicy(l.shared, id, call.login, t, o.session.value, input, o.allowed);
    LoginPolicyTold(env, l.shared, id, call.login, t, o, l.events);
    MoveEnds(env, id, call, r, l, LoginPolicyReply(o.allowed), m,
             (SystemOf(l.shared), Answered(LoginAnswer(env.cfg, id, call.login, t, o))), o.t3);
  }

  lemma LoginPolicyTold(env: Env, s: Shared, id: Id, i: LoginInput, t: Transaction, o: Outside, events: seq<Event>)
    requires o.session.Ok? && JudgeSession(env.cfg, t, o.session.value, o.t3).AskPolicy? && Quiet(events)
    ensures var m := OnLoginPolicy(s, id, i, t, o.session.value, JudgeSession(env.cfg, t, o.session.value, o.t3).input, o.allowed);
      m.shared == s && m.next.None? && Told(events + m.events, id, Answered(LoginAnswer(env.cfg, id, i, t, o)))
  {
    var m := OnLoginPolicy(s, id, i, t, o.session.value, JudgeSession(env.cfg, t, o.session.value, o.t3).input, o.allowed);
    var before := if o.allowed.Err? then events else events + [m.events[0]];
    assert events + m.events == before + [m.events[|m.events| - 1]];
    ToldLast(before, id, m.events[|m.events| - 1]);
  }

  lemma ConsentCompletionSteps(env: Env, id: Id, call: Call, r: Local -> bool, l: Local, o: Outside)
    requires Closed(env, id, call, r) && r(l) && Completable(env, call, l, o) && call.CompleteConsent?
    ensures Ends(r, id, ConsentCompleted(env, SystemOf(l.shared), id, call.handle, call.consent, o), o.t3)
  {
    var y := ConsentCompleted(env, SystemOf(l.shared), id, call.handle, call.consent, o);
    var a := LoadSteps(env, id, call, r, l, o);
    if a.pc.None? {
      EndsHere(env, id, call, r, a, y, o.t3);
    } else {
      var t := a.pc.value.t;
      LoadedStep(env, id, call, a, t);
      var b := Stepped(env, id, call, a, NoReply);
      assert b.shared == a.shared;
      match BeforeSession(t, call.consent)
      case FailStep(_) =>
        assert b.events == [];
        EndsHere(env, id, call, r, b, y, o.t3);
      case RejectStep(code) =>
        assert b.events == [RejectConsent(id, t.challenge, code)];
        EndsHere(env, id, call, r, b, y, o.t3);
      case DenyStep =>
        assert b.events == [];
        var c := ConsumeSteps(env, id, call, r, b, t, None, o);
        VerdictSteps(env, id, call, r, c, t, Consuming(SystemOf(a.shared), call.handle, o.t2), o.t3);
      case SessionStep =>
        assert b.events == [];
        ConsentSessionSteps(env, id, call, r, b, t, o);
    }
  }

  /** After `consume`, a denial or a logout is told. */
  lemma VerdictSteps(env: Env, id: Id, call: Call, r: Local -> bool, l: Local, t: Transaction,
                     consumed: (System, Result<Transaction, Error>), now: Time)
    requires Closed(env, id, call, r) && r(l) && call.Completes() && !call.CompleteLogin?
    requires SystemOf(l.shared) == consumed.0 && l.shared.clock <= now && Quiet(l.events)
    requires l.pc == if consumed.1.Err? then None else Some(AwaitVerdict(t))
    ensures var e := if call.CompleteConsent? then RejectConsent(id, t.challenge, AccessDenied) else AcceptLogout(id, t.challenge);
      Ends(r, id, (consumed.0, if consumed.1.Err? then Failed(consumed.1.error) else Answered(e)), now)
  {
    var e := if call.CompleteConsent? then RejectConsent(id, t.challenge, AccessDenied) else AcceptLogout(id, t.challenge);
    if l.pc.None? {
      EndsHere(env, id, call, r, l, (consumed.0, Failed(consumed.1.error)), now);
    } else {
      ToldLast(l.events, id, e);
      MoveEnds(env, id, call, r, l, NoReply, Done(l.shared, [e]), (consumed.0, Answered(e)), now);
    }
  }

  lemma ConsentSessionSteps(env: Env, id: Id, call: Call, r: Local -> bool, l: Local, t: Transaction, o: Outside)
    requires Closed(env, id, call, r) && r(l) && call.CompleteConsent? && call.handle != ""
    requires l.pc == Some(AwaitConsentSession(t)) && l.shared.clock <= o.t2 <= o.t3 && l.events == []
    ensures Ends(r, id, ConsentAccepted(env, SystemOf(l.shared), id, call.handle, call.consent, t, o), o.t3)
  {
    var y := ConsentAccepted(env, SystemOf(l.shared), id, call.handle, call.consent, t, o);
    ConsentSessionStep(env, id, call, l, t, o.session);
    var a := Stepped(env, id, call, l, SessionReply(o.session));
    if a.pc.None? {
      ConsentRefusalTold(env, l.shared, id, call.handle, call.consent, t, o);
      EndsHere(env, id, call, r, a, y, o.t3);
    } else {
      var c := ConsumeSteps(env, id, call, r, a, t, Some(o.session.value), o);
      if c.pc.None? {
        EndsHere(env, id, call, r, c, y, o.t3);
      } else {
        ConsentPolicySteps(env, id, call, r, c, t, o);
      }
    }
  }

  lemma ConsentSessionStep(env: Env, id: Id, call: Call, l: Local, t: Transaction, reply: Result<Session, Error>)
    requires call.Completes() && l.pc == Some(AwaitConsentSession(t)) && l.events == []
    ensures var m := OnConsentSession(env, l.shared, id, t, reply);
      Stepped(env, id, call, l, SessionReply(reply)) == Local(m.shared, m.next, m.events)
  {
    var m := OnConsentSession(env, l.shared, id, t, reply);
    assert l.events + m.events == m.events;
  }

  lemma ConsentRefusalTold(env: Env, s: Shared, id: Id, h: Handle, i: ConsentInput, t: Transaction, o: Outside)
    requires OnConsentSession(env, s, id, t, o.session).next.None?
    ensures var y := ConsentAccepted(env, SystemOf(s), id, h, i, t, o);
      y.0 == SystemOf(s) && Told(OnConsentSession(env, s, id, t, o.session).events, id, y.1)
  {
    var m := OnConsentSession(env, s, id, t, o.session);
    var before := if o.session.Err? then [] else [m.events[0]];
    assert m.events == before + [m.events[|m.events| - 1]];
    ToldLast(before, id, m.events[|m.events| - 1]);
  }

  lemma ConsentPolicySteps(env: Env, id: Id, call: Call, r: Local -> bool, l: Local, t: Transaction, o: Outside)
    requires Closed(env, id, call, r) && r(l) && call.CompleteConsent? && o.session.Ok? && t.clientID in env.cfg.clients
    requires l.pc == Some(AwaitConsentPolicy(t, o.session.value)) && l.shared.clock <= o.t3 && Quiet(l.events)
    ensures var a := AcceptanceFor(env.cfg.clients[t.clientID], t, call.consent, o.session.value);
      Ends(r, id, (SystemOf(l.shared), ConsentFate(env, id, t.challenge, a, o.decision)), o.t3)
  {
    var a := AcceptanceFor(env.cfg.clients[t.clientID], t, call.consent, o.session.value);
    var m := OnConsentPolicy(env, l.shared, id, t, a, o.decision);
    ConsentPolicyTold(env, l.shared, id, t, a, o.decision, l.events);
    MoveEnds(env, id, call, r, l, ConsentPolicyReply(o.decision), m,
             (SystemOf(l.shared), ConsentFate(env, id, t.challenge, a, o.decision)), o.t3);
  }

  lemma ConsentPolicyTold(env: Env, s: Shared, id: Id, t: Transaction, a: Acceptance, reply: Result<ConsentDecision, Error>, events: seq<Event>)
    requires Quiet(events)
    ensures var m := OnConsentPolicy(env, s, id, t, a, reply);
      m.shared == s && m.next.None? && Told(events + m.events, id, ConsentFate(env, id, t.challenge, a, reply))
  {
    var m := OnConsentPolicy(env, s, id, t, a, reply);
    if m.events == [] {
      assert events + [] == events;
    } else {
      var before := if |m.events| == 1 then events else events + [m.events[0]];
      assert events + m.events == before + [m.events[|m.events| - 1]];
      ToldLast(before, id, m.events[|m.events| - 1]);
    }
  }

  lemma LogoutCompletionSteps(env: Env, id: Id, call: Call, r: Local -> bool, l: Local, o: Outside)
    requires Closed(env, id, call, r) && r(l) && Completable(env, call, l, o) && call.CompleteLogout?
    ensures Ends(r, id, LogoutCompleted(env, SystemOf(l.shared), id, call.handle, call.logout, o), o.t3)
  {
    var a := LoadSteps(env, id, call, r, l, o);
    if a.pc.None? {
      EndsHere(env, id, call, r, a, LogoutCompleted(env, SystemOf(l.shared), id, call.handle, call.logout, o), o.t3);
    } else {
      var t := a.pc.value.t;
      LoadedStep(env, id, call, a, t);
      var b := Stepped(env, id, call, a, NoReply);
      assert b.shared == a.shared && b.events == [];
      var c := ConsumeSteps(env, id, call, r, b, t, None, o);
      VerdictSteps(env, id, call, r, c, t, Consuming(SystemOf(a.shared), call.handle, o.t2), o.t3);
    }
  }

  // ---------------------------------------------------------------- the refinement

  /** The world in which request `id` has come this far and every other request is where it was. */
  ghost function Put(w: World, id: Id, call: Call, l: Local): World {
    World(l.shared, w.calls[id := call], Placed(w.pcs, id, l.pc), w.trace + l.events)
  }

  ghost predicate Visits(env: Env, w: World, id: Id, call: Call, l: Local) {
    exists actions :: Run(env, w, actions) == Put(w, id, call, l)
  }

  lemma RunOneMore(env: Env, w: World, actions: seq<Action>, a: Action)
    ensures Run(env, w, actions + [a]) == Step(env, Run(env, w, actions), a)
  {
    RunAppends(env, w, actions, [a]);
    assert [a][1..] == [];
  }

  lemma VisitsSteps(env: Env, w: World, id: Id, call: Call, l: Local, reply: Reply)
    requires Visits(env, w, id, call, l)
    ensures Visits(env, w, id, call, Stepped(env, id, call, l, reply))
  {
    var actions :| Run(env, w, actions) == Put(w, id, call, l);
    RunOneMore(env, w, actions, Advance(id, reply));
    StepIsStepped(env, w, id, call, l, reply);
  }

  lemma StepIsStepped(env: Env, w: World, id: Id, call: Call, l: Local, reply: Reply)
    ensures Step(env, Put(w, id, call, l), Advance(id, reply)) == Put(w, id, call, Stepped(env, id, call, l, reply))
  {
    if l.pc.Some? {
      var m := NextMove(env, l.shared, id, call, l.pc.value, reply);
      if m.Some? {
        PutApplies(w, id, call, l, m.value);
      }
    }
  }

  lemma PutApplies(w: World, id: Id, call: Call, l: Local, m: Move)
    requires l.pc.Some?
    ensures Apply(Put(w, id, call, l), id, m) == Put(w, id, call, Local(m.shared, m.next, l.events + m.events))
  {
    assert w.trace + l.events + m.events == w.trace + (l.events + m.events);
    assert Placed(Put(w, id, call, l).pcs, id, m.next) == Placed(w.pcs, id, m.next);
  }

  lemma VisitsWaits(env: Env, w: World, id: Id, call: Call, l: Local, now: Time)
    requires Visits(env, w, id, call, l)
    ensures Visits(env, w, id, call, Waited(l, now))
  {
    var actions :| Run(env, w, actions) == Put(w, id, call, l);
    if l.shared.clock <= now {
      RunOneMore(env, w, actions, Tick(now - l.shared.clock));
    }
  }

  lemma VisitsBegins(env: Env, w: World, id: Id, call: Call)
    requires id !in w.calls
    ensures Visits(env, w, id, call, Begun(env, w.shared, call))
  {
    RunOneMore(env, w, [], Begin(id, call));
    assert [] + [Begin(id, call)] == [Begin(id, call)];
    assert w.trace + [] == w.trace;
  }

  lemma VisitIsReachable(env: Env, w: World, id: Id, call: Call, l: Local)
    requires Reachable(env, w) && Visits(env, w, id, call, l)
    ensures Reachable(env, Put(w, id, call, l))
  {
    var clock, before :| w == Run(env, Initial(clock), before);
    var actions :| Run(env, w, actions) == Put(w, id, call, l);
    RunAppends(env, Initial(clock), before, actions);
    assert Put(w, id, call, l) == Run(env, Initial(clock), before + actions);
  }

  lemma CallSteps(env: Env, id: Id, call: Call, r: Local -> bool, s: Shared, o: Outside)
    requires Closed(env, id, call, r) && r(Begun(env, s, call))
    requires o.Orderly() && s.clock <= o.t0 && s.data.Keys <= s.mentioned
    requires o.draws[0].Some? ==> o.draws[0].value !in s.mentioned
    ensures Ends(r, id, Served(env, SystemOf(s), id, call, o), o.t3)
  {
    var l := Begun(env, s, call);
    match call
    case StartLogin(_, _) => LoginStartSteps(env, id, call, r, l, o);
    case StartConsent(_, _) => ConsentStartSteps(env, id, call, r, l, o);
    case StartLogout(_, _) => LogoutStartSteps(env, id, call, r, l, o);
    case CompleteLogin(_, _) => LoginCompletionSteps(env, id, call, r, l, o);
    case CompleteConsent(_, _) => ConsentCompletionSteps(env, id, call, r, l, o);
    case CompleteLogout(_, _) => LogoutCompletionSteps(env, id, call, r, l, o);
  }

  /**
   From any reachable world, with other requests anywhere in their flows, serving a request at one go
   leads to a reachable world: its ledger and store are the ones the code leaves, the trace has gained
   what the fate of the request says, and the other requests have not moved.
   */
  lemma ServedIsRun(env: Env, w: World, id: Id, call: Call, o: Outside) returns (w': World)
    requires Reachable(env, w) && id !in w.calls
    requires o.Orderly() && w.shared.clock <= o.t0
    requires o.draws[0].Some? ==> o.draws[0].value !in w.shared.mentioned
    ensures Reachable(env, w') && w'.calls == w.calls[id := call] && w'.pcs == w.pcs
    ensures Holds(w'.shared, Served(env, SystemOf(w.shared), id, call, o).0, o.t3)
    ensures w.trace <= w'.trace && Told(w'.trace[|w.trace|..], id, Served(env, SystemOf(w.shared), id, call, o).1)
  {
    ReachableInv(env, w);
    var l := ServedVisits(env, w, id, call, o);
    VisitIsReachable(env, w, id, call, l);
    w' := Put(w, id, call, l);
    assert w.pcs - {id} == w.pcs;
    assert w'.trace[|w.trace|..] == l.events;
  }

  lemma ServedVisits(env: Env, w: World, id: Id, call: Call, o: Outside) returns (l: Local)
    requires id !in w.calls && w.shared.data.Keys <= w.shared.mentioned
    requires o.Orderly() && w.shared.clock <= o.t0
    requires o.draws[0].Some? ==> o.draws[0].value !in w.shared.mentioned
    ensures Visits(env, w, id, call, l) && l.pc.None?
    ensures var y := Served(env, SystemOf(w.shared), id, call, o); Holds(l.shared, y.0, o.t3) && Told(l.events, id, y.1)
  {
    var y := Served(env, SystemOf(w.shared), id, call, o);
    var r := (l: Local) => Visits(env, w, id, call, l);
    VisitsIsClosed(env, w, id, call, r);
    VisitsBegins(env, w, id, call);
    CallSteps(env, id, call, r, w.shared, o);
    l :| r(l) && l.pc.None? && Holds(l.shared, y.0, o.t3) && Told(l.events, id, y.1);
  }

  lemma VisitsIsClosed(env: Env, w: World, id: Id, call: Call, r: Local -> bool)
    requires forall l :: r(l) <==> Visits(env, w, id, call, l)
    ensures Closed(env, id, call, r)
  {
    forall l, reply | r(l)
      ensures r(Stepped(env, id, call, l, reply))
    {
      VisitsSteps(env, w, id, call, l, reply);
    }
    forall l, now | r(l)
      ensures r(Waited(l, now))
    {
      VisitsWaits(env, w, id, call, l, now);
    }
  }

  /**
   Once a handle has been taken, whatever came of it, the code fails every further completion that names
   it: there is nothing to load.
   */
  lemma SpentHandleIsNotAnswered(env: Env, w: World, i: nat, id: Id, call: Call, o: Outside)
    requires Reachable(env, w) && i < |w.trace| && w.trace[i].Took?
    requires call.Completes() && call.handle == w.trace[i].h
    ensures var h, y := call.handle, Served(env, SystemOf(w.shared), id, call, o);
      && y.1 == Failed(if h == "" || ByteLen(h) > MAX_HANDLE_BYTES then ErrInvalidTransaction else ErrReplay)
      && y.0.data == w.shared.data
  {
    ReachableTakes(env, w);
    ReachableInv(env, w);
    assert Takes(w, w.trace[i]);
    MissingHandleFails(env, SystemOf(w.shared), id, call, o);
  }

  lemma MissingHandleFails(env: Env, s: System, id: Id, call: Call, o: Outside)
    requires call.Completes() && call.handle !in s.data
    ensures var h, y := call.handle, Served(env, s, id, call, o);
      && y.1 == Failed(if h == "" || ByteLen(h) > MAX_HANDLE_BYTES then ErrInvalidTransaction else ErrReplay)
      && y.0.data == s.data
  {
  }
}
