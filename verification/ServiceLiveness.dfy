/** Requests finish: whoever is in flight can take a step, and no request takes more than eight. */
module ServiceLiveness {
  import opened Text
  import opened Domain
  import opened Flows
  import opened ServiceRuns
  import opened ServiceInvariants
  import opened ServiceTrace
  import opened ServiceSafety
  import opened ServiceTheorems
  import opened ServiceProgress
  import opened ServiceTakes

  /** How many steps of its own a request at this point takes at most until it is finished. */
  function Rank(pc: Pc): (rank: nat)
    ensures 1 <= rank <= 8
  {
    match pc
    case AwaitRequest => 7
    case AwaitTokens(_) => 6
    case AwaitReserve(_) => 5
    case AwaitReserveLock(_, _) => 4
    case AwaitCreate(_) => 3
    case AwaitCreateLock(_, _) => 2
    case AwaitGet => 8
    case AwaitGetCheck(_) => 7
    case AwaitConsentSession(_) => 6
    case AwaitConsume(_, _) => 5
    case AwaitConsumeCheck(_, _, _) => 4
    case AwaitConsumeRelease(_, _, _) => 3
    case AwaitLoginSession(_) => 2
    case _ => 1
  }

  function Left(pcs: map<Id, Pc>, id: Id): nat {
    if id in pcs then Rank(pcs[id]) else 0
  }

  /** The reply is of the kind the request waits for; a drawn handle is a new one. */
  predicate Awaited(s: Shared, call: Call, pc: Pc, reply: Reply) {
    match pc
    case AwaitRequest =>
      || (call.StartLogin? && reply.LoginReply?)
      || (call.StartConsent? && reply.ConsentReply?)
      || (call.StartLogout? && reply.LogoutReply?)
    case AwaitSilentPolicy(_) => reply.LoginPolicyReply?
    case AwaitTokens(_) => reply.Tokens?
    case AwaitCreateLock(_, _) => reply.Draw? && (reply.h.Some? ==> reply.h.value !in s.mentioned)
    case AwaitConsentSession(_) => reply.SessionReply?
    case AwaitLoginSession(_) => reply.SessionReply?
    case AwaitLoginPolicy(_, _, _) => reply.LoginPolicyReply?
    case AwaitConsentPolicy(_, _) => reply.ConsentPolicyReply?
    case _ => true
  }

  /** Some reply is always of that kind. */
  function SomeReply(call: Call, pc: Pc): Reply {
    match pc
    case AwaitRequest =>
      if call.StartLogin? then LoginReply(Err(ErrUpstream))
      else if call.StartConsent? then ConsentReply(Err(ErrUpstream))
      else LogoutReply(Err(ErrUpstream))
    case AwaitTokens(_) => Tokens(None, None)
    case AwaitCreateLock(_, _) => Draw(None)
    case AwaitConsentSession(_) => SessionReply(Err(ErrUpstream))
    case AwaitLoginSession(_) => SessionReply(Err(ErrUpstream))
    case AwaitConsentPolicy(_, _) => ConsentPolicyReply(Err(ErrUpstream))
    case _ => LoginPolicyReply(Err(ErrUpstream))
  }

  lemma SomeReplyIsAwaited(s: Shared, call: Call, pc: Pc)
    requires call.Completes() ==> !pc.AwaitRequest?
    ensures Awaited(s, call, pc, SomeReply(call, pc))
  {
  }

  lemma StartMovesExactly(env: Env, s: Shared, trace: seq<Event>, id: Id, call: Call, pc: Pc, reply: Reply)
    requires PcOk(env, s, trace, id, call, pc) && !call.Completes()
    ensures StartMove(env, s, id, call, pc, reply).Some? <==> Awaited(s, call, pc, reply)
  {
  }

  lemma FinishMovesExactly(env: Env, s: Shared, trace: seq<Event>, id: Id, call: Call, pc: Pc, reply: Reply)
    requires PcOk(env, s, trace, id, call, pc) && call.Completes()
    ensures FinishMove(env, s, id, call, pc, reply).Some? <==> Awaited(s, call, pc, reply)
  {
    if pc.AwaitConsentPolicy? {
      RecheckNeverFails(env.cfg, pc.t, call.consent, pc.s);
    }
  }

  lemma StartDescends(env: Env, s: Shared, id: Id, call: Call, pc: Pc, reply: Reply)
    requires !call.Completes() && s.data.Keys <= s.mentioned && StartMove(env, s, id, call, pc, reply).Some?
    ensures var next := StartMove(env, s, id, call, pc, reply).value.next; next.Some? ==> Rank(next.value) < Rank(pc)
  {
  }

  lemma FinishDescends(env: Env, s: Shared, id: Id, call: Call, pc: Pc, reply: Reply)
    requires call.Completes() && FinishMove(env, s, id, call, pc, reply).Some?
    ensures var next := FinishMove(env, s, id, call, pc, reply).value.next; next.Some? ==> Rank(next.value) < Rank(pc)
  {
    match pc
    case AwaitGet => ConsumptionDescends(env, s, id, call, pc, reply);
    case AwaitGetCheck(_) => CheckDescends(env, s, id, call, pc, reply);
    case AwaitConsentSession(_) => SessionsDescend(env, s, id, call, pc, reply);
    case AwaitLoginSession(_) => SessionsDescend(env, s, id, call, pc, reply);
    case AwaitConsume(_, _) => ConsumptionDescends(env, s, id, call, pc, reply);
    case AwaitConsumeCheck(_, _, _) => ConsumptionDescends(env, s, id, call, pc, reply);
    case AwaitConsumeRelease(_, _, _) => ConsumptionDescends(env, s, id, call, pc, reply);
    case _ => LastStepEnds(env, s, id, call, pc, reply);
  }

  lemma ConsumptionDescends(env: Env, s: Shared, id: Id, call: Call, pc: Pc, reply: Reply)
    requires call.Completes() && (pc.AwaitGet? || pc.AwaitConsume? || pc.AwaitConsumeCheck? || pc.AwaitConsumeRelease?)
    ensures var next := FinishMove(env, s, id, call, pc, reply).value.next; next.Some? ==> Rank(next.value) < Rank(pc)
  {
  }

  lemma CheckDescends(env: Env, s: Shared, id: Id, call: Call, pc: Pc, reply: Reply)
    requires call.Completes() && pc.AwaitGetCheck?
    ensures var next := FinishMove(env, s, id, call, pc, reply).value.next; next.Some? ==> Rank(next.value) < Rank(pc)
  {
  }

  lemma SessionsDescend(env: Env, s: Shared, id: Id, call: Call, pc: Pc, reply: Reply)
    requires call.Completes() && (pc.AwaitConsentSession? || pc.AwaitLoginSession?)
    requires FinishMove(env, s, id, call, pc, reply).Some?
    ensures var next := FinishMove(env, s, id, call, pc, reply).value.next; next.Some? ==> Rank(next.value) < Rank(pc)
  {
  }

  lemma Descends(env: Env, s: Shared, id: Id, call: Call, pc: Pc, reply: Reply)
    requires s.data.Keys <= s.mentioned && NextMove(env, s, id, call, pc, reply).Some?
    ensures var next := NextMove(env, s, id, call, pc, reply).value.next; next.Some? ==> Rank(next.value) < Rank(pc)
  {
    if call.Completes() {
      FinishDescends(env, s, id, call, pc, reply);
    } else {
      StartDescends(env, s, id, call, pc, reply);
    }
  }

  /** No request in flight is stuck: a reply lets it go on exactly if it is of the kind it waits for, and there is one. */
  lemma NeverStuck(env: Env, w: World, id: Id)
    requires Reachable(env, w) && id in w.pcs
    ensures id in w.calls
    ensures forall reply ::
      NextMove(env, w.shared, id, w.calls[id], w.pcs[id], reply).Some? <==> Awaited(w.shared, w.calls[id], w.pcs[id], reply)
    ensures exists reply :: Awaited(w.shared, w.calls[id], w.pcs[id], reply)
  {
    ReachableInv(env, w);
    MovesExactly(env, w, id);
  }

  lemma MovesExactly(env: Env, w: World, id: Id)
    requires Inv(env, w) && id in w.pcs
    ensures forall reply ::
      NextMove(env, w.shared, id, w.calls[id], w.pcs[id], reply).Some? <==> Awaited(w.shared, w.calls[id], w.pcs[id], reply)
    ensures Awaited(w.shared, w.calls[id], w.pcs[id], SomeReply(w.calls[id], w.pcs[id]))
  {
    var call, pc := w.calls[id], w.pcs[id];
    assert PcOk(env, w.shared, w.trace, id, call, pc);
    forall reply
      ensures NextMove(env, w.shared, id, call, pc, reply).Some? <==> Awaited(w.shared, call, pc, reply)
    {
      if call.Completes() {
        FinishMovesExactly(env, w.shared, w.trace, id, call, pc, reply);
      } else {
        StartMovesExactly(env, w.shared, w.trace, id, call, pc, reply);
      }
    }
    SomeReplyIsAwaited(w.shared, call, pc);
  }

  // ---------------------------------------------------------------- whole runs

  /** With this reply the request takes a step. */
  ghost predicate Moves(env: Env, w: World, id: Id, reply: Reply) {
    id in w.pcs && id in w.calls && NextMove(env, w.shared, id, w.calls[id], w.pcs[id], reply).Some?
  }

  /** How many steps of a run are the request's own. */
  ghost function OwnSteps(env: Env, w: World, id: Id, actions: seq<Action>): nat
    decreases actions
  {
    if actions == [] then 0
    else Counted(env, w, id, actions[0]) + OwnSteps(env, Step(env, w, actions[0]), id, actions[1..])
  }

  ghost function Counted(env: Env, w: World, id: Id, a: Action): nat {
    if a.Advance? && a.id == id && Moves(env, w, id, a.reply) then 1 else 0
  }

  lemma StepCounts(env: Env, w: World, id: Id, a: Action)
    requires Inv(env, w) && id in w.calls
    ensures id in Step(env, w, a).calls
    ensures Left(Step(env, w, a).pcs, id) + Counted(env, w, id, a) <= Left(w.pcs, id)
  {
    if Counted(env, w, id, a) == 1 {
      Descends(env, w.shared, id, w.calls[id], w.pcs[id], a.reply);
    }
  }

  /**
   However its steps interleave with those of the others and whatever is replied, a request takes at most
   as many as its rank, and a run that contains that many has finished it.
   */
  lemma {:induction false} StepsAreBounded(env: Env, w: World, id: Id, actions: seq<Action>)
    requires Inv(env, w) && id in w.calls
    ensures OwnSteps(env, w, id, actions) + Left(Run(env, w, actions).pcs, id) <= Left(w.pcs, id)
    decreases actions
  {
    if actions != [] {
      StepCounts(env, w, id, actions[0]);
      StepKeepsInv(env, w, actions[0]);
      StepsAreBounded(env, Step(env, w, actions[0]), id, actions[1..]);
    }
  }

  /** The whole of a request: at most eight steps, from its beginning in any reachable world. */
  lemma AtMostEightSteps(env: Env, w: World, id: Id, call: Call, actions: seq<Action>)
    requires Reachable(env, w) && id !in w.calls
    ensures var begun := Step(env, w, Begin(id, call));
      && OwnSteps(env, begun, id, actions) <= 8
      && (OwnSteps(env, begun, id, actions) == 8 ==> id !in Run(env, begun, actions).pcs)
  {
    ReachableInv(env, w);
    StepKeepsInv(env, w, Begin(id, call));
    StepsAreBounded(env, Step(env, w, Begin(id, call)), id, actions);
  }

  /** The steps of one request alone, with these replies. */
  ghost function Steps(id: Id, replies: seq<Reply>): (actions: seq<Action>)
    ensures |actions| == |replies|
    ensures forall k :: 0 <= k < |actions| ==> actions[k] == Advance(id, replies[k])
  {
    seq(|replies|, k requires 0 <= k < |replies| => Advance(id, replies[k]))
  }

  lemma SomeMove(env: Env, w: World, id: Id) returns (reply: Reply)
    requires Inv(env, w) && id in w.pcs
    ensures Moves(env, w, id, reply)
  {
    reply := SomeReply(w.calls[id], w.pcs[id]);
    MovesExactly(env, w, id);
  }

  lemma OthersStay(env: Env, w: World, id: Id, reply: Reply)
    ensures Step(env, w, Advance(id, reply)).pcs - {id} == w.pcs - {id}
  {
  }

  /** There is a step of the request that brings it nearer to its end and leaves the others where they are. */
  lemma OneStep(env: Env, w: World, id: Id) returns (reply: Reply)
    requires Inv(env, w) && id in w.pcs
    ensures var w' := Step(env, w, Advance(id, reply));
      Left(w'.pcs, id) < Left(w.pcs, id) && w'.pcs - {id} == w.pcs - {id}
  {
    reply := SomeMove(env, w, id);
    StepCounts(env, w, id, Advance(id, reply));
    OthersStay(env, w, id, reply);
  }

  lemma RunsFirst(env: Env, w: World, id: Id, reply: Reply, rest: seq<Reply>)
    ensures Run(env, w, Steps(id, [reply] + rest)) == Run(env, Step(env, w, Advance(id, reply)), Steps(id, rest))
  {
    assert Steps(id, [reply] + rest)[1..] == Steps(id, rest);
  }

  /** Alone, a request in flight finishes within as many steps as its rank, and nobody else has moved. */
  lemma {:induction false} CanFinish(env: Env, w: World, id: Id) returns (replies: seq<Reply>)
    requires Inv(env, w)
    ensures |replies| <= Left(w.pcs, id)
    ensures Run(env, w, Steps(id, replies)).pcs == w.pcs - {id}
    decreases Left(w.pcs, id)
  {
    if id !in w.pcs {
      replies := [];
    } else {
      var reply := OneStep(env, w, id);
      var w' := Step(env, w, Advance(id, reply));
      StepKeepsInv(env, w, Advance(id, reply));
      var rest := CanFinish(env, w', id);
      replies := [reply] + rest;
      RunsFirst(env, w, id, reply, rest);
    }
  }

  /**
   Whoever has taken a transaction can still answer Hydra: within three steps of its own, after which exactly
   one answer of that request is in the trace.
   */
  lemma TakerCanAnswer(env: Env, w: World, i: nat) returns (replies: seq<Reply>, j: nat)
    requires Reachable(env, w) && i < |w.trace| && w.trace[i].Took?
    ensures |replies| <= 3
    ensures var id, trace := w.trace[i].id, Run(env, w, Steps(w.trace[i].id, replies)).trace;
      && w.trace <= trace && j < |trace| && Verdict(trace[j]) && trace[j].id == id
      && forall k :: 0 <= k < |trace| && Verdict(trace[k]) && trace[k].id == id ==> k == j
  {
    var id := w.trace[i].id;
    ReachableInv(env, w);
    TakerIsNearTheEnd(env, w, i);
    replies := CanFinish(env, w, id);
    var actions := Steps(id, replies);
    RunStaysReachable(env, w, actions);
    RunGrowsTrace(env, w, actions);
    j := ConsumedIsAnswered(env, Run(env, w, actions), i);
  }

  lemma TakerIsNearTheEnd(env: Env, w: World, i: nat)
    requires Reachable(env, w) && i < |w.trace| && w.trace[i].Took?
    ensures Left(w.pcs, w.trace[i].id) <= 3
  {
    ReachableTakes(env, w);
  }
}
