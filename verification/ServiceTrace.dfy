/** Why each event of a run may happen: the justification its own past provides. */
module ServiceTrace {
  import opened Text
  import opened Domain
  import opened Freshness
  import opened PendingLedger
  import opened Flows
  import opened ServiceRuns
  import opened ServiceInvariants

  /** The silent acceptance of a login Hydra asked to skip. */
  ghost predicate SilentlyJustified(env: Env, past: seq<Event>, id: Id, challenge: string, acceptance: LoginAcceptance, r: LoginRequest) {
    var plan := PlanLogin(env.cfg, challenge, r);
    && GotLogin(id, r) in past && plan.AcceptSilently?
    && AskedLoginPolicy(id, SilentPolicyInput(env.cfg, r, plan.client), true) in past
    && acceptance == LoginAcceptance(r.subject, plan.acr, [], false, 0)
  }

  /** The acceptance of a login completed through the external UI. */
  ghost predicate InteractivelyJustified(env: Env, past: seq<Event>, id: Id, call: Call, challenge: string, acceptance: LoginAcceptance,
                                         t: Transaction, s: Session, input: PolicyInput) {
    && call.CompleteLogin? && t.challenge == challenge
    && ReadyToConsume(env, past, id, call, t, None) && TookIt(past, id, call, t)
    && SawJudged(env, past, id, t, s, input)
    && AskedLoginPolicy(id, input, true) in past
    && acceptance == AcceptanceOf(t, s, call.login)
  }

  ghost predicate ConsentJustified(env: Env, past: seq<Event>, id: Id, call: Call, challenge: string, acceptance: ConsentAcceptance,
                                   t: Transaction, s: Session, input: PolicyInput, d: ConsentDecision) {
    && call.CompleteConsent? && t.challenge == challenge
    && Loaded(env, past, call, t) && TookIt(past, id, call, t)
    && BeforeSession(t, call.consent).SessionStep? && SawFit(env, past, id, t, s)
    && t.clientID in env.cfg.clients
    && var a := AcceptanceFor(env.cfg.clients[t.clientID], t, call.consent, s);
      && RecheckAcceptance(env.cfg, a) == AskConsentPolicy(input)
      && AskedConsentPolicy(id, input, d) in past
      && JudgeDecision(env.lib, env.cfg, a, input, d) == GrantConsent(acceptance)
  }

  ghost predicate LogoutJustified(env: Env, past: seq<Event>, id: Id, call: Call, challenge: string, t: Transaction) {
    call.CompleteLogout? && t.challenge == challenge && Loaded(env, past, call, t) && TookIt(past, id, call, t)
  }

  ghost predicate Justified(env: Env, call: Call, past: seq<Event>, e: Event) {
    match e
    case Stored(id, h, t) => Built(env, past, id, call, t)
    case Handoff(id, h) => exists t :: Stored(id, h, t) in past
    case Took(id, h, t, at) => call.Completes() && h == call.handle && Loaded(env, past, call, t) && at < t.expiresAt
    case AcceptLogin(id, challenge, acceptance) =>
      || (call.StartLogin? && challenge == call.challenge
          && exists r :: SilentlyJustified(env, past, id, challenge, acceptance, r))
      || exists t, s, input :: InteractivelyJustified(env, past, id, call, challenge, acceptance, t, s, input)
    case AcceptConsent(id, challenge, acceptance) =>
      exists t, s, input, d :: ConsentJustified(env, past, id, call, challenge, acceptance, t, s, input, d)
    case AcceptLogout(id, challenge) => exists t :: LogoutJustified(env, past, id, call, challenge, t)
    case _ => true
  }

  /** The events by which a request answers Hydra. */
  predicate Verdict(e: Event) {
    e.AcceptLogin? || e.RejectLogin? || e.AcceptConsent? || e.RejectConsent? || e.AcceptLogout?
  }

  /** A request's events are its own, its answer to Hydra is its last one, and each event is justified. */
  ghost predicate EventsOk(env: Env, trace: seq<Event>, id: Id, call: Call, m: Move) {
    && (forall k :: 0 <= k < |m.events| ==>
        && m.events[k].id == id
        && (Verdict(m.events[k]) ==> m.next.None? && k == |m.events| - 1)
        && (m.events[k].Stored? ==> k == 0 && m.events[k].h in m.shared.mentioned))
    && (|m.events| >= 1 ==> Justified(env, call, trace, m.events[0]))
    && (|m.events| >= 2 ==> Justified(env, call, trace + [m.events[0]], m.events[1]))
    && |m.events| <= 2
  }

  lemma RequestEventsOk(env: Env, s: Shared, trace: seq<Event>, id: Id, call: Call, reply: Reply)
    requires !call.Completes()
    requires StartMove(env, s, id, call, AwaitRequest, reply).Some?
    ensures EventsOk(env, trace, id, call, StartMove(env, s, id, call, AwaitRequest, reply).value)
  {
  }

  lemma SilentEventsOk(env: Env, s: Shared, trace: seq<Event>, id: Id, call: Call, r: LoginRequest, reply: Reply)
    requires !call.Completes() && PcOk(env, s, trace, id, call, AwaitSilentPolicy(r))
    requires StartMove(env, s, id, call, AwaitSilentPolicy(r), reply).Some?
    ensures EventsOk(env, trace, id, call, StartMove(env, s, id, call, AwaitSilentPolicy(r), reply).value)
  {
    var m := StartMove(env, s, id, call, AwaitSilentPolicy(r), reply).value;
    if |m.events| == 2 && m.events[1].AcceptLogin? {
      EvidenceOneMore(trace, m.events[0]);
      assert SilentlyJustified(env, trace + [m.events[0]], id, call.challenge, m.events[1].loginAcceptance, r);
    }
  }

  lemma CreationEventsOk(env: Env, s: Shared, trace: seq<Event>, id: Id, call: Call, pc: Pc, reply: Reply)
    requires !call.Completes() && PcOk(env, s, trace, id, call, pc) && !pc.AwaitRequest? && !pc.AwaitSilentPolicy?
    requires StartMove(env, s, id, call, pc, reply).Some?
    ensures EventsOk(env, trace, id, call, StartMove(env, s, id, call, pc, reply).value)
  {
    if pc.AwaitCommit? {
      assert Stored(id, pc.h, pc.t) in trace;
    } else if pc.AwaitCreateLock? {
      StoringEventsOk(env, s, trace, id, call, pc, reply);
    }
  }

  lemma StoringEventsOk(env: Env, s: Shared, trace: seq<Event>, id: Id, call: Call, pc: Pc, reply: Reply)
    requires !call.Completes() && PcOk(env, s, trace, id, call, pc) && pc.AwaitCreateLock?
    requires StartMove(env, s, id, call, pc, reply).Some?
    ensures EventsOk(env, trace, id, call, StartMove(env, s, id, call, pc, reply).value)
  {
  }

  lemma StartEventsOk(env: Env, s: Shared, trace: seq<Event>, id: Id, call: Call, pc: Pc, reply: Reply)
    requires !call.Completes() && PcOk(env, s, trace, id, call, pc)
    requires StartMove(env, s, id, call, pc, reply).Some?
    ensures EventsOk(env, trace, id, call, StartMove(env, s, id, call, pc, reply).value)
  {
    if pc.AwaitRequest? {
      RequestEventsOk(env, s, trace, id, call, reply);
    } else if pc.AwaitSilentPolicy? {
      SilentEventsOk(env, s, trace, id, call, pc.request, reply);
    } else {
      CreationEventsOk(env, s, trace, id, call, pc, reply);
    }
  }

  lemma EvidenceOneMore(trace: seq<Event>, e: Event)
    ensures e in trace + [e]
    ensures forall x :: x in trace ==> x in trace + [e]
  {
    assert (trace + [e])[|trace|] == e;
  }

  lemma LoadEventsOk(env: Env, s: Shared, trace: seq<Event>, id: Id, call: Call, pc: Pc, reply: Reply)
    requires call.Completes() && PcOk(env, s, trace, id, call, pc)
    requires !pc.AwaitLoginPolicy? && !pc.AwaitConsentPolicy? && !pc.AwaitConsumeRelease? && !pc.AwaitVerdict? && !pc.AwaitLoginSession?
    requires FinishMove(env, s, id, call, pc, reply).Some?
    ensures EventsOk(env, trace, id, call, FinishMove(env, s, id, call, pc, reply).value)
  {
    if pc.AwaitConsumeCheck? {
      TakeEventsOk(env, s, trace, id, call, pc, reply);
    }
  }

  lemma TakeEventsOk(env: Env, s: Shared, trace: seq<Event>, id: Id, call: Call, pc: Pc, reply: Reply)
    requires call.Completes() && PcOk(env, s, trace, id, call, pc) && pc.AwaitConsumeCheck?
    ensures EventsOk(env, trace, id, call, FinishMove(env, s, id, call, pc, reply).value)
  {
  }

  lemma ReleaseEventsOk(env: Env, s: Shared, trace: seq<Event>, id: Id, call: Call, pc: Pc, reply: Reply)
    requires call.Completes() && PcOk(env, s, trace, id, call, pc)
    requires pc.AwaitConsumeRelease? || pc.AwaitVerdict?
    requires FinishMove(env, s, id, call, pc, reply).Some?
    ensures EventsOk(env, trace, id, call, FinishMove(env, s, id, call, pc, reply).value)
  {
    if call.CompleteLogout? && pc.AwaitVerdict? {
      assert LogoutJustified(env, trace, id, call, pc.t.challenge, pc.t);
    }
  }

  lemma LoginEventsOk(env: Env, s: Shared, trace: seq<Event>, id: Id, call: Call, pc: Pc, reply: Reply)
    requires call.Completes() && PcOk(env, s, trace, id, call, pc)
    requires pc.AwaitLoginSession? || pc.AwaitLoginPolicy?
    requires FinishMove(env, s, id, call, pc, reply).Some?
    ensures EventsOk(env, trace, id, call, FinishMove(env, s, id, call, pc, reply).value)
  {
    if pc.AwaitLoginPolicy? {
      LoginPolicyEventsOk(env, s, trace, id, call, pc.t, pc.s, pc.input, reply.allowed);
    }
  }

  lemma LoginPolicyEventsOk(env: Env, s: Shared, trace: seq<Event>, id: Id, call: Call, t: Transaction, session: Session,
                            input: PolicyInput, reply: Result<bool, Error>)
    requires call.CompleteLogin? && PcOk(env, s, trace, id, call, AwaitLoginPolicy(t, session, input))
    ensures EventsOk(env, trace, id, call, OnLoginPolicy(s, id, call.login, t, session, input, reply))
  {
    LoginIsJustified(env, s, trace, id, call, t, session, input);
    LoginAnswerOk(env, s, trace, id, call, t, session, input, reply);
  }

  lemma LoginAnswerOk(env: Env, s: Shared, trace: seq<Event>, id: Id, call: Call, t: Transaction, session: Session,
                      input: PolicyInput, reply: Result<bool, Error>)
    requires call.CompleteLogin?
    requires Justified(env, call, trace + [AskedLoginPolicy(id, input, true)], AcceptLogin(id, t.challenge, AcceptanceOf(t, session, call.login)))
    ensures EventsOk(env, trace, id, call, OnLoginPolicy(s, id, call.login, t, session, input, reply))
  {
    var m := OnLoginPolicy(s, id, call.login, t, session, input, reply);
    if reply.Err? {
      RejectionOk(env, trace, id, call, m, m.events[0]);
    } else {
      PairOk(env, trace, id, call, m, m.events[0], m.events[1]);
    }
  }

  lemma RejectionOk(env: Env, trace: seq<Event>, id: Id, call: Call, m: Move, answer: Event)
    requires m.events == [answer] && m.next.None? && answer.id == id && answer.RejectLogin?
    ensures EventsOk(env, trace, id, call, m)
  {
  }

  lemma LoginIsJustified(env: Env, s: Shared, trace: seq<Event>, id: Id, call: Call, t: Transaction, session: Session, input: PolicyInput)
    requires call.CompleteLogin? && PcOk(env, s, trace, id, call, AwaitLoginPolicy(t, session, input))
    ensures Justified(env, call, trace + [AskedLoginPolicy(id, input, true)], AcceptLogin(id, t.challenge, AcceptanceOf(t, session, call.login)))
  {
    var asked := AskedLoginPolicy(id, input, true);
    EvidenceOneMore(trace, asked);
    EvidenceGrows(env, trace, [asked], id, call, t);
    ReadinessGrows(env, trace, [asked], id, call, t, None);
    assert InteractivelyJustified(env, trace + [asked], id, call, t.challenge, AcceptanceOf(t, session, call.login), t, session, input);
  }

  lemma ConsentEventsOk(env: Env, s: Shared, trace: seq<Event>, id: Id, call: Call, pc: Pc, reply: Reply)
    requires call.Completes() && PcOk(env, s, trace, id, call, pc) && pc.AwaitConsentPolicy?
    requires FinishMove(env, s, id, call, pc, reply).Some?
    ensures EventsOk(env, trace, id, call, FinishMove(env, s, id, call, pc, reply).value)
  {
    PolicyEventsOk(env, s, trace, id, call, pc.t, pc.s, reply.decision);
  }

  lemma PolicyEventsOk(env: Env, s: Shared, trace: seq<Event>, id: Id, call: Call, t: Transaction, session: Session,
                       reply: Result<ConsentDecision, Error>)
    requires call.CompleteConsent? && PcOk(env, s, trace, id, call, AwaitConsentPolicy(t, session)) && t.clientID in env.cfg.clients
    ensures var a := AcceptanceFor(env.cfg.clients[t.clientID], t, call.consent, session);
      EventsOk(env, trace, id, call, OnConsentPolicy(env, s, id, t, a, reply))
  {
    var m := OnConsentPolicy(env, s, id, t, AcceptanceFor(env.cfg.clients[t.clientID], t, call.consent, session), reply);
    if |m.events| == 2 {
      var asked, answer := m.events[0], m.events[1];
      if answer.AcceptConsent? {
        GrantIsJustified(env, s, trace, id, call, t, session, asked.input, asked.decision, answer.consentAcceptance);
      }
      PairOk(env, trace, id, call, m, asked, answer);
    }
  }

  /** A question to the policy and the answer to Hydra after it. */
  lemma PairOk(env: Env, trace: seq<Event>, id: Id, call: Call, m: Move, asked: Event, answer: Event)
    requires m.events == [asked, answer] && m.next.None?
    requires asked.id == answer.id == id && (asked.AskedConsentPolicy? || asked.AskedLoginPolicy?) && !answer.Stored?
    requires Justified(env, call, trace + [asked], answer)
    ensures EventsOk(env, trace, id, call, m)
  {
  }

  lemma GrantIsJustified(env: Env, s: Shared, trace: seq<Event>, id: Id, call: Call, t: Transaction, session: Session,
                         input: PolicyInput, d: ConsentDecision, acceptance: ConsentAcceptance)
    requires call.CompleteConsent? && PcOk(env, s, trace, id, call, AwaitConsentPolicy(t, session)) && t.clientID in env.cfg.clients
    requires var a := AcceptanceFor(env.cfg.clients[t.clientID], t, call.consent, session);
      RecheckAcceptance(env.cfg, a) == AskConsentPolicy(input) && JudgeDecision(env.lib, env.cfg, a, input, d) == GrantConsent(acceptance)
    ensures Justified(env, call, trace + [AskedConsentPolicy(id, input, d)], AcceptConsent(id, t.challenge, acceptance))
  {
    var asked := AskedConsentPolicy(id, input, d);
    EvidenceOneMore(trace, asked);
    EvidenceGrows(env, trace, [asked], id, call, t);
    assert ConsentJustified(env, trace + [asked], id, call, t.challenge, acceptance, t, session, input, d);
  }

  lemma MoveEventsOk(env: Env, s: Shared, trace: seq<Event>, id: Id, call: Call, pc: Pc, reply: Reply)
    requires PcOk(env, s, trace, id, call, pc)
    requires NextMove(env, s, id, call, pc, reply).Some?
    ensures EventsOk(env, trace, id, call, NextMove(env, s, id, call, pc, reply).value)
  {
    if !call.Completes() {
      StartEventsOk(env, s, trace, id, call, pc, reply);
    } else if pc.AwaitLoginSession? || pc.AwaitLoginPolicy? {
      LoginEventsOk(env, s, trace, id, call, pc, reply);
    } else if pc.AwaitConsentPolicy? {
      ConsentEventsOk(env, s, trace, id, call, pc, reply);
    } else if pc.AwaitConsumeRelease? || pc.AwaitVerdict? {
      ReleaseEventsOk(env, s, trace, id, call, pc, reply);
    } else {
      LoadEventsOk(env, s, trace, id, call, pc, reply);
    }
  }

  /** Only the step that stores a transaction puts it in the trace, and every other step leaves the store's entries known. */
  lemma MoveKeepsStored(env: Env, s: Shared, trace: seq<Event>, id: Id, call: Call, pc: Pc, reply: Reply)
    requires HandlesOk(s, map[id := call]) && StoredOk(s, trace)
    requires NextMove(env, s, id, call, pc, reply).Some?
    ensures var m := NextMove(env, s, id, call, pc, reply).value; StoredOk(m.shared, trace + m.events)
  {
    var m := NextMove(env, s, id, call, pc, reply).value;
    if !call.Completes() && pc.AwaitCreateLock? {
      CreateKeepsStored(env, s, trace, id, pc.t, pc.now, reply.h);
    } else {
      assert forall h :: h in m.shared.data ==> h in s.data && m.shared.data[h] == s.data[h] by {
        LedgerOrConsume(env, s, id, call, pc, reply);
      }
      assert m.shared.mentioned == s.mentioned by {
        LedgerOrConsume(env, s, id, call, pc, reply);
      }
      NothingStored(env, s, id, call, pc, reply);
      StoredGrows(s, m.shared, trace, m.events);
    }
  }

  lemma LedgerOrConsume(env: Env, s: Shared, id: Id, call: Call, pc: Pc, reply: Reply)
    requires NextMove(env, s, id, call, pc, reply).Some?
    requires call.Completes() || !pc.AwaitCreateLock?
    ensures var s' := NextMove(env, s, id, call, pc, reply).value.shared;
      && s'.mentioned == s.mentioned && s'.clock == s.clock
      && forall h :: h in s'.data ==> h in s.data && s'.data[h] == s.data[h]
  {
    if !call.Completes() {
      StartTouchesLedgerOnly(env, s, id, call, pc, reply);
    } else if !pc.AwaitConsume? {
      FinishTouchesLedgerOnly(env, s, id, call, pc, reply);
    }
  }

  lemma NothingStored(env: Env, s: Shared, id: Id, call: Call, pc: Pc, reply: Reply)
    requires NextMove(env, s, id, call, pc, reply).Some?
    requires call.Completes() || !pc.AwaitCreateLock?
    ensures forall e :: e in NextMove(env, s, id, call, pc, reply).value.events ==> !e.Stored?
  {
    if call.Completes() {
      FinishStoresNothing(env, s, id, call, pc, reply);
    } else {
      StartStoresNothing(env, s, id, call, pc, reply);
    }
  }

  lemma StartStoresNothing(env: Env, s: Shared, id: Id, call: Call, pc: Pc, reply: Reply)
    requires !call.Completes() && !pc.AwaitCreateLock? && StartMove(env, s, id, call, pc, reply).Some?
    ensures forall e :: e in StartMove(env, s, id, call, pc, reply).value.events ==> !e.Stored?
  {
    if pc.AwaitRequest? {
      RequestStoresNothing(env, s, id, call, reply);
    } else if pc.AwaitSilentPolicy? {
      SilentlyStoresNothing(env, s, id, call, pc.request, reply);
    }
  }

  lemma SilentlyStoresNothing(env: Env, s: Shared, id: Id, call: Call, r: LoginRequest, reply: Reply)
    requires !call.Completes() && StartMove(env, s, id, call, AwaitSilentPolicy(r), reply).Some?
    ensures forall e :: e in StartMove(env, s, id, call, AwaitSilentPolicy(r), reply).value.events ==> !e.Stored?
  {
  }

  lemma RequestStoresNothing(env: Env, s: Shared, id: Id, call: Call, reply: Reply)
    requires !call.Completes() && StartMove(env, s, id, call, AwaitRequest, reply).Some?
    ensures forall e :: e in StartMove(env, s, id, call, AwaitRequest, reply).value.events ==> !e.Stored?
  {
  }

  lemma FinishStoresNothing(env: Env, s: Shared, id: Id, call: Call, pc: Pc, reply: Reply)
    requires call.Completes() && FinishMove(env, s, id, call, pc, reply).Some?
    ensures forall e :: e in FinishMove(env, s, id, call, pc, reply).value.events ==> !e.Stored?
  {
  }

  lemma StoredGrows(s: Shared, s': Shared, trace: seq<Event>, more: seq<Event>)
    requires StoredOk(s, trace)
    requires s.mentioned <= s'.mentioned
    requires forall h :: h in s'.data ==> h in s.data && s'.data[h] == s.data[h]
    requires forall e :: e in more ==> !e.Stored?
    ensures StoredOk(s', trace + more)
  {
    forall h | h in s'.data
      ensures Known(trace + more, h, s'.data[h])
    {
      var id :| Stored(id, h, s.data[h]) in trace;
      assert Stored(id, h, s.data[h]) in trace + more;
    }
    forall i | 0 <= i < |trace + more| && (trace + more)[i].Stored?
      ensures i < |trace| && (trace + more)[i] == trace[i]
    {
    }
  }

  lemma CreateKeepsStored(env: Env, s: Shared, trace: seq<Event>, id: Id, t: Transaction, now: Time, draw: Option<Handle>)
    requires s.data.Keys <= s.mentioned && StoredOk(s, trace)
    requires OnCreateLock(env, s, id, t, now, draw).Some?
    ensures var m := OnCreateLock(env, s, id, t, now, draw).value; StoredOk(m.shared, trace + m.events)
  {
    var m := OnCreateLock(env, s, id, t, now, draw).value;
    if m.events == [] {
      StoredGrows(s, m.shared, trace, []);
    } else {
      var e := m.events[0];
      var longer := trace + [e];
      forall h | h in m.shared.data
        ensures Known(longer, h, m.shared.data[h])
      {
        if h == e.h {
          assert longer[|trace|] == e;
        } else {
          var k :| Stored(k, h, s.data[h]) in trace;
          assert Stored(k, h, s.data[h]) in longer;
        }
      }
      assert m.events == [e];
    }
  }
}
