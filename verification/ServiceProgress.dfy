/** Two more facts of every run: silent logins stay silent, and a consumed transaction is answered. */
module ServiceProgress {
  import opened Text
  import opened Domain
  import opened Configuration
  import opened Prompts
  import opened Flows
  import opened ServiceRuns
  import opened ServiceInvariants
  import opened ServiceTrace
  import opened ServiceSafety
  import opened ServiceTheorems

  /** Hydra is asked for the login request once per start. */
  ghost predicate RepliesOk(w: World) {
    && (forall i :: 0 <= i < |w.trace| && w.trace[i].GotLogin? ==>
        && w.trace[i].id in w.calls && w.calls[w.trace[i].id].StartLogin?
        && !(w.trace[i].id in w.pcs && w.pcs[w.trace[i].id].AwaitRequest?))
    && (forall i, j :: 0 <= i < j < |w.trace| && w.trace[i].GotLogin? && w.trace[j].GotLogin? ==> w.trace[i].id != w.trace[j].id)
  }

  /** The request has consumed its transaction in time and has not answered Hydra yet. */
  predicate Answering(pc: Pc) {
    (pc.AwaitConsumeRelease? && pc.ok) || pc.AwaitVerdict? || pc.AwaitLoginSession? || pc.AwaitLoginPolicy? || pc.AwaitConsentPolicy?
  }

  ghost predicate Answered(trace: seq<Event>, id: Id) {
    exists j :: 0 <= j < |trace| && Verdict(trace[j]) && trace[j].id == id
  }

  ghost predicate AnswersOk(w: World) {
    forall i :: 0 <= i < |w.trace| && w.trace[i].Took? ==>
      var id := w.trace[i].id; (id in w.pcs && Answering(w.pcs[id])) || Answered(w.trace, id)
  }

  lemma StartReplies(env: Env, s: Shared, id: Id, call: Call, pc: Pc, reply: Reply)
    requires !call.Completes() && StartMove(env, s, id, call, pc, reply).Some?
    ensures var m := StartMove(env, s, id, call, pc, reply).value;
      && m.next != Some(AwaitRequest)
      && (forall k :: 0 <= k < |m.events| && m.events[k].GotLogin? ==> k == 0 && pc.AwaitRequest? && call.StartLogin?)
      && (forall k :: 0 <= k < |m.events| ==> !m.events[k].Took?)
  {
    if pc.AwaitRequest? {
      RequestReplies(env, s, id, call, reply);
    } else {
      LaterReplies(env, s, id, call, pc, reply);
    }
  }

  lemma RequestReplies(env: Env, s: Shared, id: Id, call: Call, reply: Reply)
    requires !call.Completes() && StartMove(env, s, id, call, AwaitRequest, reply).Some?
    ensures var m := StartMove(env, s, id, call, AwaitRequest, reply).value;
      && m.next != Some(AwaitRequest)
      && (forall k :: 0 <= k < |m.events| && m.events[k].GotLogin? ==> k == 0 && call.StartLogin?)
      && (forall k :: 0 <= k < |m.events| ==> !m.events[k].Took?)
  {
  }

  lemma LaterReplies(env: Env, s: Shared, id: Id, call: Call, pc: Pc, reply: Reply)
    requires !call.Completes() && !pc.AwaitRequest? && StartMove(env, s, id, call, pc, reply).Some?
    ensures var m := StartMove(env, s, id, call, pc, reply).value;
      && m.next != Some(AwaitRequest)
      && (forall k :: 0 <= k < |m.events| ==> !m.events[k].GotLogin? && !m.events[k].Took?)
  {
    LaterEvents(env, s, id, call, pc, reply);
    NoStartGoesBack(env, s, id, call, pc, reply);
  }

  lemma LaterEvents(env: Env, s: Shared, id: Id, call: Call, pc: Pc, reply: Reply)
    requires !call.Completes() && !pc.AwaitRequest? && StartMove(env, s, id, call, pc, reply).Some?
    ensures forall e :: e in StartMove(env, s, id, call, pc, reply).value.events ==> !e.GotLogin? && !e.Took?
  {
  }

  lemma NoStartGoesBack(env: Env, s: Shared, id: Id, call: Call, pc: Pc, reply: Reply)
    requires !call.Completes() && !pc.AwaitRequest? && StartMove(env, s, id, call, pc, reply).Some?
    ensures StartMove(env, s, id, call, pc, reply).value.next != Some(AwaitRequest)
  {
  }

  lemma FinishReplies(env: Env, s: Shared, id: Id, call: Call, pc: Pc, reply: Reply)
    requires call.Completes() && FinishMove(env, s, id, call, pc, reply).Some?
    ensures var m := FinishMove(env, s, id, call, pc, reply).value;
      && m.next != Some(AwaitRequest)
      && (forall k :: 0 <= k < |m.events| ==> !m.events[k].GotLogin?)
      && (forall k :: 0 <= k < |m.events| && m.events[k].Took? ==> m.next.Some? && Answering(m.next.value))
  {
  }

  /** A request that has to answer goes on to do so, and finishes only by answering. */
  lemma AnsweringGoesOn(env: Env, s: Shared, trace: seq<Event>, id: Id, call: Call, pc: Pc, reply: Reply)
    requires PcOk(env, s, trace, id, call, pc) && Answering(pc) && call.Completes()
    requires FinishMove(env, s, id, call, pc, reply).Some?
    ensures var m := FinishMove(env, s, id, call, pc, reply).value;
      (m.next.Some? && Answering(m.next.value)) || (m.events != [] && Verdict(m.events[|m.events| - 1]))
  {
    if pc.AwaitConsentPolicy? {
      PolicyAnswers(env, s, id, pc.t, call.consent, pc.s, reply.decision);
    } else {
      OthersAnswer(env, s, id, call, pc, reply);
    }
  }

  lemma OthersAnswer(env: Env, s: Shared, id: Id, call: Call, pc: Pc, reply: Reply)
    requires call.Completes() && Answering(pc) && !pc.AwaitConsentPolicy? && FinishMove(env, s, id, call, pc, reply).Some?
    ensures var m := FinishMove(env, s, id, call, pc, reply).value;
      (m.next.Some? && Answering(m.next.value)) || (m.events != [] && Verdict(m.events[|m.events| - 1]))
  {
  }

  lemma PolicyAnswers(env: Env, s: Shared, id: Id, t: Transaction, i: ConsentInput, session: Session, reply: Result<ConsentDecision, Error>)
    requires BeforeSession(t, i).SessionStep? && AfterSession(env.cfg, t, session).None?
    ensures var m := OnConsentPolicy(env, s, id, t, AcceptanceFor(env.cfg.clients[t.clientID], t, i, session), reply);
      m.events != [] && Verdict(m.events[|m.events| - 1])
  {
    RecheckNeverFails(env.cfg, t, i, session);
  }

  lemma MoveKeepsReplies(env: Env, w: World, id: Id, reply: Reply)
    requires Inv(env, w) && RepliesOk(w)
    requires id in w.pcs && NextMove(env, w.shared, id, w.calls[id], w.pcs[id], reply).Some?
    ensures RepliesOk(Apply(w, id, NextMove(env, w.shared, id, w.calls[id], w.pcs[id], reply).value))
  {
    var call, pc := w.calls[id], w.pcs[id];
    var m := NextMove(env, w.shared, id, call, pc, reply).value;
    if call.Completes() {
      FinishReplies(env, w.shared, id, call, pc, reply);
    } else {
      StartReplies(env, w.shared, id, call, pc, reply);
    }
    assert PcOk(env, w.shared, w.trace, id, call, pc);
    MoveEventsOk(env, w.shared, w.trace, id, call, pc, reply);
    RepliesGrow(w, id, m);
  }

  lemma RepliesGrow(w: World, id: Id, m: Move)
    requires RepliesOk(w) && id in w.pcs && id in w.calls
    requires m.next != Some(AwaitRequest)
    requires forall k :: 0 <= k < |m.events| ==> m.events[k].id == id
    requires forall k :: 0 <= k < |m.events| && m.events[k].GotLogin? ==> k == 0 && w.pcs[id].AwaitRequest? && w.calls[id].StartLogin?
    ensures RepliesOk(Apply(w, id, m))
  {
    var w' := Apply(w, id, m);
    var n := |w.trace|;
    forall i | 0 <= i < |w'.trace|
      ensures i < n ==> w'.trace[i] == w.trace[i]
      ensures i >= n ==> w'.trace[i] == m.events[i - n]
    {
    }
  }

  lemma MoveKeepsAnswers(env: Env, w: World, id: Id, reply: Reply)
    requires Inv(env, w) && AnswersOk(w)
    requires id in w.pcs && NextMove(env, w.shared, id, w.calls[id], w.pcs[id], reply).Some?
    ensures AnswersOk(Apply(w, id, NextMove(env, w.shared, id, w.calls[id], w.pcs[id], reply).value))
  {
    var call, pc := w.calls[id], w.pcs[id];
    MoveEventsOk(env, w.shared, w.trace, id, call, pc, reply);
    MoveAnswers(env, w.shared, w.trace, id, call, pc, reply);
    AnswersGrow(w, id, NextMove(env, w.shared, id, call, pc, reply).value);
  }

  lemma MoveAnswers(env: Env, s: Shared, trace: seq<Event>, id: Id, call: Call, pc: Pc, reply: Reply)
    requires PcOk(env, s, trace, id, call, pc) && NextMove(env, s, id, call, pc, reply).Some?
    ensures var m := NextMove(env, s, id, call, pc, reply).value;
      && (forall k :: 0 <= k < |m.events| && m.events[k].Took? ==> m.next.Some? && Answering(m.next.value))
      && (Answering(pc) ==> (m.next.Some? && Answering(m.next.value)) || (m.events != [] && Verdict(m.events[|m.events| - 1])))
  {
    if call.Completes() {
      FinishAnswers(env, s, trace, id, call, pc, reply);
    } else {
      StartReplies(env, s, id, call, pc, reply);
      StartsDoNotAnswer(env, s, trace, id, call, pc);
    }
  }

  lemma StartsDoNotAnswer(env: Env, s: Shared, trace: seq<Event>, id: Id, call: Call, pc: Pc)
    requires PcOk(env, s, trace, id, call, pc) && !call.Completes()
    ensures !Answering(pc)
  {
  }

  lemma FinishAnswers(env: Env, s: Shared, trace: seq<Event>, id: Id, call: Call, pc: Pc, reply: Reply)
    requires call.Completes() && PcOk(env, s, trace, id, call, pc) && FinishMove(env, s, id, call, pc, reply).Some?
    ensures var m := FinishMove(env, s, id, call, pc, reply).value;
      && (forall k :: 0 <= k < |m.events| && m.events[k].Took? ==> m.next.Some? && Answering(m.next.value))
      && (Answering(pc) ==> (m.next.Some? && Answering(m.next.value)) || (m.events != [] && Verdict(m.events[|m.events| - 1])))
  {
    FinishReplies(env, s, id, call, pc, reply);
    if Answering(pc) {
      AnsweringGoesOn(env, s, trace, id, call, pc, reply);
    }
  }

  lemma AnswersGrow(w: World, id: Id, m: Move)
    requires AnswersOk(w) && id in w.pcs
    requires forall k :: 0 <= k < |m.events| ==> m.events[k].id == id
    requires forall k :: 0 <= k < |m.events| && m.events[k].Took? ==> m.next.Some? && Answering(m.next.value)
    requires Answering(w.pcs[id]) ==>
      (m.next.Some? && Answering(m.next.value)) || (m.events != [] && Verdict(m.events[|m.events| - 1]))
    ensures AnswersOk(Apply(w, id, m))
  {
    var w' := Apply(w, id, m);
    var n := |w.trace|;
    forall i | 0 <= i < |w'.trace| && w'.trace[i].Took?
      ensures var k := w'.trace[i].id; (k in w'.pcs && Answering(w'.pcs[k])) || Answered(w'.trace, k)
    {
      var k := w'.trace[i].id;
      if i < n {
        assert w'.trace[i] == w.trace[i];
        if Answered(w.trace, k) {
          var j :| 0 <= j < n && Verdict(w.trace[j]) && w.trace[j].id == k;
          assert w'.trace[j] == w.trace[j];
        } else if k == id && !(m.next.Some? && Answering(m.next.value)) {
          var last := |w'.trace| - 1;
          assert w'.trace[last] == m.events[|m.events| - 1];
        }
      } else {
        assert w'.trace[i] == m.events[i - n];
      }
    }
  }

  lemma BeginKeepsProgress(env: Env, w: World, id: Id, call: Call)
    requires TraceOk(env, w) && PcsOk(env, w) && RepliesOk(w) && AnswersOk(w) && id !in w.calls
    ensures var w' := World(Naming(w.shared, call), w.calls[id := call], Placed(w.pcs, id, FirstPc(env, call)), w.trace);
      RepliesOk(w') && AnswersOk(w')
  {
    assert id !in w.pcs;
    forall i | 0 <= i < |w.trace|
      ensures w.trace[i].id in w.calls && w.trace[i].id != id
    {
    }
  }

  lemma StepKeepsProgress(env: Env, w: World, a: Action)
    requires Inv(env, w) && RepliesOk(w) && AnswersOk(w)
    ensures RepliesOk(Step(env, w, a)) && AnswersOk(Step(env, w, a))
  {
    match a
    case Tick(_) =>
    case Begin(id, call) =>
      if id !in w.calls {
        BeginKeepsProgress(env, w, id, call);
      }
    case Advance(id, reply) =>
      if id in w.pcs && NextMove(env, w.shared, id, w.calls[id], w.pcs[id], reply).Some? {
        MoveKeepsReplies(env, w, id, reply);
        MoveKeepsAnswers(env, w, id, reply);
      }
  }

  lemma {:induction false} RunKeepsProgress(env: Env, w: World, actions: seq<Action>)
    requires Inv(env, w) && RepliesOk(w) && AnswersOk(w)
    ensures RepliesOk(Run(env, w, actions)) && AnswersOk(Run(env, w, actions))
    decreases actions
  {
    if actions != [] {
      StepKeepsInv(env, w, actions[0]);
      StepKeepsProgress(env, w, actions[0]);
      RunKeepsProgress(env, Step(env, w, actions[0]), actions[1..]);
    }
  }

  lemma ReachableProgress(env: Env, w: World)
    requires Reachable(env, w)
    ensures RepliesOk(w) && AnswersOk(w)
  {
    var clock, actions :| w == Run(env, Initial(clock), actions);
    InitialInv(env, clock);
    RunKeepsProgress(env, Initial(clock), actions);
  }

  /**
   Whoever consumes a transaction in time answers Hydra: once the request has finished, exactly one
   accept or reject of it is in the trace, whatever Kratos and the policy replied.
   */
  lemma ConsumedIsAnswered(env: Env, w: World, i: nat) returns (j: nat)
    requires Reachable(env, w)
    requires i < |w.trace| && w.trace[i].Took? && w.trace[i].id !in w.pcs
    ensures j < |w.trace| && Verdict(w.trace[j]) && w.trace[j].id == w.trace[i].id
    ensures forall k :: 0 <= k < |w.trace| && Verdict(w.trace[k]) && w.trace[k].id == w.trace[i].id ==> k == j
  {
    ReachableProgress(env, w);
    assert Answered(w.trace, w.trace[i].id);
    j :| 0 <= j < |w.trace| && Verdict(w.trace[j]) && w.trace[j].id == w.trace[i].id;
    forall k | 0 <= k < |w.trace| && Verdict(w.trace[k]) && w.trace[k].id == w.trace[i].id
      ensures k == j
    {
      if k < j {
        OneAnswerPerRequest(env, w, k, j);
      } else if j < k {
        OneAnswerPerRequest(env, w, j, k);
      }
    }
  }

  /** `prompt=none`: no plan of a login start asks for interaction. */
  lemma NoneNeverInteracts(cfg: Config, challenge: string, r: LoginRequest)
    requires Parsed(r.prompt).Ok? && Parsed(r.prompt).value.none
    ensures !PlanLogin(cfg, challenge, r).Interact?
  {
    IncludesAgreesWithFlag(r.prompt);
  }

  /** A login that Hydra marked `prompt=none` never stores a transaction and never hands the browser to the UI. */
  lemma SilentLoginStaysSilent(env: Env, w: World, i: nat, j: nat)
    requires Reachable(env, w)
    requires i < |w.trace| && w.trace[i].GotLogin?
    requires Parsed(w.trace[i].login.prompt).Ok? && Parsed(w.trace[i].login.prompt).value.none
    requires j < |w.trace| && w.trace[j].id == w.trace[i].id
    ensures !w.trace[j].Stored? && !w.trace[j].Handoff?
  {
    ReachableProgress(env, w);
    if w.trace[j].Handoff? {
      JustifiedAt(env, w, j);
      var t :| Stored(w.trace[j].id, w.trace[j].h, t) in w.trace[..j];
      var k :| 0 <= k < j && w.trace[k] == Stored(w.trace[j].id, w.trace[j].h, t);
      SilentStoresNothing(env, w, i, k);
    } else if w.trace[j].Stored? {
      SilentStoresNothing(env, w, i, j);
    }
  }

  lemma SilentStoresNothing(env: Env, w: World, i: nat, k: nat)
    requires Reachable(env, w) && RepliesOk(w)
    requires i < |w.trace| && w.trace[i].GotLogin?
    requires Parsed(w.trace[i].login.prompt).Ok? && Parsed(w.trace[i].login.prompt).value.none
    requires k < |w.trace| && w.trace[k].id == w.trace[i].id
    ensures !w.trace[k].Stored?
  {
    if w.trace[k].Stored? {
      JustifiedAt(env, w, k);
      var id := w.trace[k].id;
      var r :| GotLogin(id, r) in w.trace[..k] && LoginBuilt(env.cfg, w.calls[id].challenge, r, w.trace[k].t);
      var n :| 0 <= n < k && w.trace[n] == GotLogin(id, r);
      assert n == i;
      NoneNeverInteracts(env.cfg, w.calls[id].challenge, r);
    }
  }
}
