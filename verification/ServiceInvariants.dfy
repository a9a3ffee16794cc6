/** What every step of ServiceRuns keeps, whichever request takes it. */
module ServiceInvariants {
  import opened Text
  import opened Domain
  import opened Freshness
  import opened Configuration
  import opened PendingLedger
  import opened Flows
  import opened ServiceRuns

  // ---------------------------------------------------------------- evidence in the trace

  /** The transaction is the one an interactive login start builds from this request, tokens aside. */
  ghost predicate LoginBuilt(cfg: Config, challenge: string, request: LoginRequest, t: Transaction) {
    var plan := PlanLogin(cfg, challenge, request);
    plan.Interact? && t.(csrfToken := "", browserState := "") == LoginTransaction(cfg, request, plan, t.startedAt)
  }

  ghost predicate ConsentBuilt(cfg: Config, challenge: string, request: ConsentRequest, t: Transaction) {
    var plan := PlanConsent(cfg, challenge, request);
    plan.AskConsent? &&
    t.(csrfToken := "", browserState := "") == ConsentTransaction(cfg, request, plan.client, t.expiresAt - cfg.transactionTTL)
  }

  ghost predicate LogoutBuilt(cfg: Config, challenge: string, request: LogoutRequest, t: Transaction) {
    var plan := PlanLogout(cfg, challenge, request);
    plan.Ok? &&
    t.(csrfToken := "", browserState := "") == LogoutTransaction(cfg, request, plan.value, t.expiresAt - cfg.transactionTTL)
  }

  /** The start request `id` builds this transaction from a reply of Hydra that the trace shows. */
  ghost predicate Built(env: Env, trace: seq<Event>, id: Id, call: Call, t: Transaction) {
    match call
    case StartLogin(challenge, _) => exists r :: GotLogin(id, r) in trace && LoginBuilt(env.cfg, challenge, r, t)
    case StartConsent(challenge, _) => exists r :: GotConsent(id, r) in trace && ConsentBuilt(env.cfg, challenge, r, t)
    case StartLogout(challenge, _) => exists r :: GotLogout(id, r) in trace && LogoutBuilt(env.cfg, challenge, r, t)
    case _ => false
  }

  /** The transaction was stored under this handle. */
  ghost predicate Known(trace: seq<Event>, h: Handle, t: Transaction) {
    exists id :: Stored(id, h, t) in trace
  }

  ghost predicate Loaded(env: Env, trace: seq<Event>, call: Call, t: Transaction) {
    call.Completes() && Known(trace, call.handle, t) && ProofOk(env.lib, call, t)
  }

  /** The request consumed this very transaction before it expired. */
  ghost predicate TookIt(trace: seq<Event>, id: Id, call: Call, t: Transaction) {
    call.Completes() && exists at :: Took(id, call.handle, t, at) in trace && at < t.expiresAt
  }

  ghost predicate SawFit(env: Env, trace: seq<Event>, id: Id, t: Transaction, s: Session) {
    (exists at :: SawSession(id, s, at) in trace) && AfterSession(env.cfg, t, s).None?
  }

  ghost predicate SawJudged(env: Env, trace: seq<Event>, id: Id, t: Transaction, s: Session, input: PolicyInput) {
    exists at :: SawSession(id, s, at) in trace && JudgeSession(env.cfg, t, s, at) == AskPolicy(input)
  }

  /** What a completion has established when it goes on to consume. */
  ghost predicate ReadyToConsume(env: Env, trace: seq<Event>, id: Id, call: Call, t: Transaction, session: Option<Session>) {
    && Loaded(env, trace, call, t)
    && match call
       case CompleteLogin(_, i) => ValidRemember(i.remember, i.rememberFor) && session.None?
       case CompleteConsent(_, i) =>
         if session.None? then BeforeSession(t, i).DenyStep?
         else BeforeSession(t, i).SessionStep? && SawFit(env, trace, id, t, session.value)
       case _ => session.None?
  }

  // ---------------------------------------------------------------- where a request stands

  /** The handle stands for nothing live, now or later: it is not new, and at most an expired entry remains. */
  ghost predicate Dead(s: Shared, h: Handle) {
    h in s.mentioned && (h in s.data ==> s.data[h].expiresAt <= s.clock)
  }

  ghost predicate Won(s: Shared, id: Id, h: Handle) {
    h in s.winner && s.winner[h] == id && Dead(s, h)
  }

  ghost predicate PcOk(env: Env, s: Shared, trace: seq<Event>, id: Id, call: Call, pc: Pc) {
    match pc
    case AwaitRequest => !call.Completes()
    case AwaitSilentPolicy(r) =>
      call.StartLogin? && GotLogin(id, r) in trace && PlanLogin(env.cfg, call.challenge, r).AcceptSilently?
    case AwaitTokens(t) => Built(env, trace, id, call, t)
    case AwaitReserve(t) => Built(env, trace, id, call, t)
    case AwaitReserveLock(t, now) => Built(env, trace, id, call, t) && now <= s.clock
    case AwaitCreate(t) => Built(env, trace, id, call, t)
    case AwaitCreateLock(t, now) => Built(env, trace, id, call, t) && now <= s.clock
    case AwaitCommit(t, h) => !call.Completes() && Stored(id, h, t) in trace && h in s.mentioned
    case AwaitCancel => !call.Completes()
    case AwaitGet => call.Completes()
    case AwaitGetCheck(t) => call.Completes() && Known(trace, call.handle, t)
    case AwaitLoadRelease => call.Completes() && Dead(s, call.handle)
    case AwaitConsentSession(t) =>
      Loaded(env, trace, call, t) && call.CompleteConsent? && BeforeSession(t, call.consent).SessionStep?
    case AwaitConsume(t, session) => ReadyToConsume(env, trace, id, call, t, session)
    case AwaitConsumeCheck(t, session, taken) =>
      ReadyToConsume(env, trace, id, call, t, session) && taken == t && Won(s, id, call.handle)
    case AwaitConsumeRelease(t, session, ok) =>
      && ReadyToConsume(env, trace, id, call, t, session) && Dead(s, call.handle)
      && (ok ==> Won(s, id, call.handle) && TookIt(trace, id, call, t))
    case AwaitVerdict(t) =>
      !call.CompleteLogin? && ReadyToConsume(env, trace, id, call, t, None) && TookIt(trace, id, call, t) && Won(s, id, call.handle)
    case AwaitLoginSession(t) =>
      call.CompleteLogin? && ReadyToConsume(env, trace, id, call, t, None) && TookIt(trace, id, call, t) && Won(s, id, call.handle)
    case AwaitLoginPolicy(t, session, input) =>
      && call.CompleteLogin? && ReadyToConsume(env, trace, id, call, t, None) && TookIt(trace, id, call, t) && Won(s, id, call.handle)
      && SawJudged(env, trace, id, t, session, input)
    case AwaitConsentPolicy(t, session) =>
      && call.CompleteConsent? && ReadyToConsume(env, trace, id, call, t, Some(session)) && TookIt(trace, id, call, t)
      && Won(s, id, call.handle)
  }

  // ---------------------------------------------------------------- rely and guarantee

  /** What any step of any request does to the shared state: time passes, names accumulate, entries only disappear. */
  ghost predicate Rely(s: Shared, s': Shared) {
    && s.clock <= s'.clock
    && s.mentioned <= s'.mentioned
    && (forall h :: h in s.winner ==> h in s'.winner && s'.winner[h] == s.winner[h])
    && (forall h :: h in s.mentioned && h in s'.data ==> h in s.data && s'.data[h] == s.data[h])
  }

  /** The handles a world speaks about have been mentioned, and a consumed handle has left the store. */
  ghost predicate HandlesOk(s: Shared, calls: map<Id, Call>) {
    && s.data.Keys <= s.mentioned
    && s.winner.Keys <= s.mentioned
    && (forall h :: h in s.winner ==> h !in s.data)
    && (forall id :: id in calls && calls[id].Completes() ==> calls[id].handle in s.mentioned)
  }

  /** Only creating and consuming touch more than the ledger. */
  lemma StartTouchesLedgerOnly(env: Env, s: Shared, id: Id, call: Call, pc: Pc, reply: Reply)
    requires !call.Completes() && !pc.AwaitCreateLock?
    requires StartMove(env, s, id, call, pc, reply).Some?
    ensures var s' := StartMove(env, s, id, call, pc, reply).value.shared; s' == s.(ledger := s'.ledger)
  {
  }

  lemma FinishTouchesLedgerOnly(env: Env, s: Shared, id: Id, call: Call, pc: Pc, reply: Reply)
    requires call.Completes() && !pc.AwaitConsume?
    requires FinishMove(env, s, id, call, pc, reply).Some?
    ensures var s' := FinishMove(env, s, id, call, pc, reply).value.shared; s' == s.(ledger := s'.ledger)
  {
  }

  lemma CreateKeepsRely(env: Env, s: Shared, calls: map<Id, Call>, id: Id, t: Transaction, now: Time, draw: Option<Handle>)
    requires HandlesOk(s, calls)
    requires OnCreateLock(env, s, id, t, now, draw).Some?
    ensures var m := OnCreateLock(env, s, id, t, now, draw).value;
      && Rely(s, m.shared) && HandlesOk(m.shared, calls)
      && m.shared.clock == s.clock && m.shared.ledger == s.ledger && m.shared.winner == s.winner
  {
  }

  lemma MoveKeepsRely(env: Env, s: Shared, calls: map<Id, Call>, id: Id, pc: Pc, reply: Reply)
    requires HandlesOk(s, calls) && id in calls
    requires NextMove(env, s, id, calls[id], pc, reply).Some?
    ensures Rely(s, NextMove(env, s, id, calls[id], pc, reply).value.shared)
    ensures HandlesOk(NextMove(env, s, id, calls[id], pc, reply).value.shared, calls)
  {
    var call := calls[id];
    if !call.Completes() {
      if pc.AwaitCreateLock? {
        CreateKeepsRely(env, s, calls, id, pc.t, pc.now, reply.h);
      } else {
        StartTouchesLedgerOnly(env, s, id, call, pc, reply);
      }
    } else if !pc.AwaitConsume? {
      FinishTouchesLedgerOnly(env, s, id, call, pc, reply);
    }
  }

  lemma EvidenceGrows(env: Env, trace: seq<Event>, more: seq<Event>, id: Id, call: Call, t: Transaction)
    ensures Built(env, trace, id, call, t) ==> Built(env, trace + more, id, call, t)
    ensures call.Completes() && Known(trace, call.handle, t) ==> Known(trace + more, call.handle, t)
    ensures TookIt(trace, id, call, t) ==> TookIt(trace + more, id, call, t)
    ensures forall s :: SawFit(env, trace, id, t, s) ==> SawFit(env, trace + more, id, t, s)
    ensures forall s, input :: SawJudged(env, trace, id, t, s, input) ==> SawJudged(env, trace + more, id, t, s, input)
  {
    forall e | e in trace
      ensures e in trace + more
    {
    }
  }

  /** A request's own facts survive the steps of the others. */
  lemma PcOkIsStable(env: Env, s: Shared, s': Shared, trace: seq<Event>, more: seq<Event>, id: Id, call: Call, pc: Pc)
    requires Rely(s, s') && PcOk(env, s, trace, id, call, pc)
    ensures PcOk(env, s', trace + more, id, call, pc)
  {
    if !pc.AwaitRequest? && !pc.AwaitSilentPolicy? && !pc.AwaitCancel? && !pc.AwaitGet? && !pc.AwaitLoadRelease? {
      EvidenceGrows(env, trace, more, id, call, pc.t);
    }
  }

  // ---------------------------------------------------------------- handles are stored once

  /** Every stored transaction is in the trace, and no handle is stored twice. */
  ghost predicate StoredOk(s: Shared, trace: seq<Event>) {
    && (forall h :: h in s.data ==> Known(trace, h, s.data[h]))
    && (forall i :: 0 <= i < |trace| && trace[i].Stored? ==> trace[i].h in s.mentioned)
    && (forall i, j :: 0 <= i < j < |trace| && trace[i].Stored? && trace[j].Stored? ==> trace[i].h != trace[j].h)
  }

  lemma KnownIsUnique(s: Shared, trace: seq<Event>, h: Handle, t: Transaction, u: Transaction)
    requires StoredOk(s, trace) && Known(trace, h, t) && Known(trace, h, u)
    ensures t == u
  {
    var a :| Stored(a, h, t) in trace;
    var b :| Stored(b, h, u) in trace;
    var i :| 0 <= i < |trace| && trace[i] == Stored(a, h, t);
    var j :| 0 <= j < |trace| && trace[j] == Stored(b, h, u);
    assert i == j;
  }

  // ---------------------------------------------------------------- the moving request

  /** The moving request arrives where its facts hold again. */
  ghost predicate NextOk(env: Env, trace: seq<Event>, id: Id, call: Call, m: Move) {
    m.next.Some? ==> PcOk(env, m.shared, trace + m.events, id, call, m.next.value)
  }

  lemma BuiltFromRequest(env: Env, s: Shared, trace: seq<Event>, id: Id, call: Call, reply: Reply)
    requires !call.Completes()
    requires StartMove(env, s, id, call, AwaitRequest, reply).Some?
    ensures NextOk(env, trace, id, call, StartMove(env, s, id, call, AwaitRequest, reply).value)
  {
    var m := StartMove(env, s, id, call, AwaitRequest, reply).value;
    if m.next.Some? {
      assert m.events[0] in trace + m.events;
      if m.next.value.AwaitTokens? {
        var t := m.next.value.t;
        match call
        case StartLogin(challenge, _) => assert LoginBuilt(env.cfg, challenge, reply.login.value, t);
        case StartConsent(challenge, _) => assert ConsentBuilt(env.cfg, challenge, reply.consent.value, t);
        case StartLogout(challenge, _) => assert LogoutBuilt(env.cfg, challenge, reply.logout.value, t);
      }
    }
  }

  lemma TokensKeepBuilt(env: Env, trace: seq<Event>, id: Id, call: Call, t: Transaction, u: Transaction)
    requires Built(env, trace, id, call, t)
    requires u == t.(browserState := u.browserState, csrfToken := u.csrfToken)
    ensures Built(env, trace, id, call, u)
  {
    match call
    case StartLogin(challenge, _) =>
      var r :| GotLogin(id, r) in trace && LoginBuilt(env.cfg, challenge, r, t);
      assert LoginBuilt(env.cfg, challenge, r, u);
    case StartConsent(challenge, _) =>
      var r :| GotConsent(id, r) in trace && ConsentBuilt(env.cfg, challenge, r, t);
      assert ConsentBuilt(env.cfg, challenge, r, u);
    case StartLogout(challenge, _) =>
      var r :| GotLogout(id, r) in trace && LogoutBuilt(env.cfg, challenge, r, t);
      assert LogoutBuilt(env.cfg, challenge, r, u);
  }

  lemma CreateKeepsPcOk(env: Env, s: Shared, trace: seq<Event>, id: Id, call: Call, t: Transaction, now: Time, draw: Option<Handle>)
    requires !call.Completes() && PcOk(env, s, trace, id, call, AwaitCreateLock(t, now))
    requires OnCreateLock(env, s, id, t, now, draw).Some?
    ensures NextOk(env, trace, id, call, OnCreateLock(env, s, id, t, now, draw).value)
  {
    var m := OnCreateLock(env, s, id, t, now, draw).value;
    if m.next.value.AwaitCommit? {
      assert m.events[0] in trace + m.events;
    } else {
      assert trace + m.events == trace;
    }
  }

  lemma TokensKeepPcOk(env: Env, s: Shared, trace: seq<Event>, id: Id, call: Call, t: Transaction, reply: Reply)
    requires !call.Completes() && PcOk(env, s, trace, id, call, AwaitTokens(t))
    requires StartMove(env, s, id, call, AwaitTokens(t), reply).Some?
    ensures NextOk(env, trace, id, call, StartMove(env, s, id, call, AwaitTokens(t), reply).value)
  {
    var m := StartMove(env, s, id, call, AwaitTokens(t), reply).value;
    assert trace + m.events == trace;
    if m.next.Some? {
      TokensKeepBuilt(env, trace, id, call, t, m.next.value.t);
    }
  }

  lemma StartKeepsPcOk(env: Env, s: Shared, trace: seq<Event>, id: Id, call: Call, pc: Pc, reply: Reply)
    requires !call.Completes() && PcOk(env, s, trace, id, call, pc)
    requires StartMove(env, s, id, call, pc, reply).Some?
    ensures NextOk(env, trace, id, call, StartMove(env, s, id, call, pc, reply).value)
  {
    if pc.AwaitRequest? {
      BuiltFromRequest(env, s, trace, id, call, reply);
    } else if pc.AwaitTokens? {
      TokensKeepPcOk(env, s, trace, id, call, pc.t, reply);
    } else if pc.AwaitCreateLock? {
      CreateKeepsPcOk(env, s, trace, id, call, pc.t, pc.now, reply.h);
    } else if pc.AwaitReserve? || pc.AwaitReserveLock? || pc.AwaitCreate? {
      var m := StartMove(env, s, id, call, pc, reply).value;
      assert trace + m.events == trace;
    }
  }

  lemma ReadinessGrows(env: Env, trace: seq<Event>, more: seq<Event>, id: Id, call: Call, t: Transaction, session: Option<Session>)
    requires ReadyToConsume(env, trace, id, call, t, session)
    ensures ReadyToConsume(env, trace + more, id, call, t, session)
  {
    EvidenceGrows(env, trace, more, id, call, t);
  }

  lemma GetKeepsPcOk(env: Env, s: Shared, trace: seq<Event>, id: Id, call: Call, pc: Pc, reply: Reply)
    requires call.Completes() && pc.AwaitGet? && HandlesOk(s, map[id := call]) && StoredOk(s, trace)
    ensures NextOk(env, trace, id, call, FinishMove(env, s, id, call, pc, reply).value)
  {
    assert map[id := call][id] == call;
    assert trace + [] == trace;
  }

  /** What a checked transaction goes on with. */
  lemma LoadedKeepsPcOk(env: Env, s: Shared, trace: seq<Event>, id: Id, call: Call, t: Transaction)
    requires Loaded(env, trace, call, t)
    ensures NextOk(env, trace, id, call, OnLoaded(s, id, call, t))
  {
    assert trace + [] == trace;
  }

  lemma CheckKeepsPcOk(env: Env, s: Shared, trace: seq<Event>, id: Id, call: Call, pc: Pc, reply: Reply)
    requires call.Completes() && PcOk(env, s, trace, id, call, pc) && pc.AwaitGetCheck? && StoredOk(s, trace)
    ensures NextOk(env, trace, id, call, FinishMove(env, s, id, call, pc, reply).value)
  {
    KnownEntry(s, trace, call.handle, pc.t);
    assert trace + [] == trace;
    if pc.t.expiresAt > s.clock && ProofOk(env.lib, call, pc.t) {
      LoadedKeepsPcOk(env, s, trace, id, call, pc.t);
    }
  }

  lemma SessionKeepsPcOk(env: Env, s: Shared, trace: seq<Event>, id: Id, call: Call, pc: Pc, reply: Reply)
    requires call.Completes() && PcOk(env, s, trace, id, call, pc) && pc.AwaitConsentSession?
    requires FinishMove(env, s, id, call, pc, reply).Some?
    ensures NextOk(env, trace, id, call, FinishMove(env, s, id, call, pc, reply).value)
  {
    var m := FinishMove(env, s, id, call, pc, reply).value;
    if m.next.Some? {
      EvidenceGrows(env, trace, m.events, id, call, pc.t);
      assert m.events[0] in trace + m.events;
    }
  }

  /** An entry found in the store under a handle is the one read there before. */
  lemma KnownEntry(s: Shared, trace: seq<Event>, h: Handle, t: Transaction)
    requires StoredOk(s, trace) && Known(trace, h, t)
    ensures h in s.data ==> s.data[h] == t
    ensures h in s.mentioned
  {
    if h in s.data {
      KnownIsUnique(s, trace, h, t, s.data[h]);
    }
    var id :| Stored(id, h, t) in trace;
    var i :| 0 <= i < |trace| && trace[i] == Stored(id, h, t);
    assert trace[i].h in s.mentioned;
  }

  lemma ConsumeKeepsPcOk(env: Env, s: Shared, trace: seq<Event>, id: Id, call: Call, pc: Pc, reply: Reply)
    requires call.Completes() && PcOk(env, s, trace, id, call, pc) && pc.AwaitConsume?
    requires HandlesOk(s, map[id := call]) && StoredOk(s, trace)
    requires FinishMove(env, s, id, call, pc, reply).Some?
    ensures NextOk(env, trace, id, call, FinishMove(env, s, id, call, pc, reply).value)
  {
    var m := FinishMove(env, s, id, call, pc, reply).value;
    KnownEntry(s, trace, call.handle, pc.t);
    assert trace + m.events == trace;
  }

  lemma ConsumeCheckKeepsPcOk(env: Env, s: Shared, trace: seq<Event>, id: Id, call: Call, pc: Pc, reply: Reply)
    requires call.Completes() && PcOk(env, s, trace, id, call, pc) && pc.AwaitConsumeCheck?
    requires FinishMove(env, s, id, call, pc, reply).Some?
    ensures NextOk(env, trace, id, call, FinishMove(env, s, id, call, pc, reply).value)
  {
    var m := FinishMove(env, s, id, call, pc, reply).value;
    ReadinessGrows(env, trace, m.events, id, call, pc.t, pc.session);
    if m.events != [] {
      assert m.events[0] in trace + m.events;
      assert TookIt(trace + m.events, id, call, pc.t);
    }
  }

  lemma ConsumeReleaseKeepsPcOk(env: Env, s: Shared, trace: seq<Event>, id: Id, call: Call, pc: Pc, reply: Reply)
    requires call.Completes() && PcOk(env, s, trace, id, call, pc) && pc.AwaitConsumeRelease?
    requires FinishMove(env, s, id, call, pc, reply).Some?
    ensures NextOk(env, trace, id, call, FinishMove(env, s, id, call, pc, reply).value)
  {
    var m := FinishMove(env, s, id, call, pc, reply).value;
    if m.next.Some? {
      assert trace + m.events == trace;
    }
  }

  lemma JudgedKeepsPcOk(env: Env, s: Shared, trace: seq<Event>, id: Id, call: Call, pc: Pc, reply: Reply)
    requires call.Completes() && PcOk(env, s, trace, id, call, pc)
    requires pc.AwaitLoginSession?
    requires FinishMove(env, s, id, call, pc, reply).Some?
    ensures NextOk(env, trace, id, call, FinishMove(env, s, id, call, pc, reply).value)
  {
    var m := FinishMove(env, s, id, call, pc, reply).value;
    if m.next.Some? {
      ReadinessGrows(env, trace, m.events, id, call, pc.t, None);
      EvidenceGrows(env, trace, m.events, id, call, pc.t);
      assert m.events[0] in trace + m.events;
    }
  }

  lemma MoveKeepsPcOk(env: Env, s: Shared, trace: seq<Event>, id: Id, call: Call, pc: Pc, reply: Reply)
    requires PcOk(env, s, trace, id, call, pc)
    requires HandlesOk(s, map[id := call]) && StoredOk(s, trace)
    requires NextMove(env, s, id, call, pc, reply).Some?
    ensures NextOk(env, trace, id, call, NextMove(env, s, id, call, pc, reply).value)
  {
    if call.Completes() {
      FinishKeepsPcOk(env, s, trace, id, call, pc, reply);
    } else {
      StartKeepsPcOk(env, s, trace, id, call, pc, reply);
    }
  }

  lemma FinishKeepsPcOk(env: Env, s: Shared, trace: seq<Event>, id: Id, call: Call, pc: Pc, reply: Reply)
    requires call.Completes() && PcOk(env, s, trace, id, call, pc)
    requires HandlesOk(s, map[id := call]) && StoredOk(s, trace)
    requires FinishMove(env, s, id, call, pc, reply).Some?
    ensures NextOk(env, trace, id, call, FinishMove(env, s, id, call, pc, reply).value)
  {
    match pc
    case AwaitGet => GetKeepsPcOk(env, s, trace, id, call, pc, reply);
    case AwaitGetCheck(_) => CheckKeepsPcOk(env, s, trace, id, call, pc, reply);
    case AwaitConsentSession(_) => SessionKeepsPcOk(env, s, trace, id, call, pc, reply);
    case AwaitConsume(_, _) => ConsumeKeepsPcOk(env, s, trace, id, call, pc, reply);
    case AwaitConsumeCheck(_, _, _) => ConsumeCheckKeepsPcOk(env, s, trace, id, call, pc, reply);
    case AwaitConsumeRelease(_, _, _) => ConsumeReleaseKeepsPcOk(env, s, trace, id, call, pc, reply);
    case AwaitLoginSession(_) => JudgedKeepsPcOk(env, s, trace, id, call, pc, reply);
    case _ => LastStepEnds(env, s, id, call, pc, reply);
  }

  /** The last step of a completion finishes it. */
  lemma LastStepEnds(env: Env, s: Shared, id: Id, call: Call, pc: Pc, reply: Reply)
    requires call.Completes() && FinishMove(env, s, id, call, pc, reply).Some?
    requires pc.AwaitLoadRelease? || pc.AwaitVerdict? || pc.AwaitLoginPolicy? || pc.AwaitConsentPolicy?
    ensures FinishMove(env, s, id, call, pc, reply).value.next.None?
  {
  }
}
