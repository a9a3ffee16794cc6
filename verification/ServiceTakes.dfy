/** What consuming means over whole runs: a handle is taken once, answers follow from it, and nothing else loses a transaction. */
module ServiceTakes {
  import opened Text
  import opened Domain
  import opened Freshness
  import opened PendingLedger
  import opened Flows
  import opened ServiceRuns
  import opened ServiceInvariants
  import opened ServiceTrace
  import opened ServiceSafety
  import opened ServiceTheorems
  import opened ServiceProgress

  // ---------------------------------------------------------------- taking

  ghost predicate TookBy(trace: seq<Event>, id: Id) {
    exists i :: 0 <= i < |trace| && trace[i].Took? && trace[i].id == id
  }

  /** A consent rejection of an accepting user, as those given before the transaction is consumed. */
  predicate EarlyRejection(call: Call, e: Event) {
    e.RejectConsent? && call.CompleteConsent? && call.consent.decision == "accept"
  }

  /** The request that took the handle completes it, and is the one that removed the handle's entry. */
  ghost predicate Takes(w: World, e: Event)
    requires e.Took?
  {
    && e.id in w.calls && w.calls[e.id].Completes() && w.calls[e.id].handle == e.h
    && e.h in w.shared.winner && w.shared.winner[e.h] == e.id
  }

  ghost predicate TakesOk(w: World) {
    && (forall i :: 0 <= i < |w.trace| && w.trace[i].Took? ==> Takes(w, w.trace[i]))
    && (forall i, j :: 0 <= i < j < |w.trace| && w.trace[i].Took? && w.trace[j].Took? ==> w.trace[i].id != w.trace[j].id)
    && (forall i :: 0 <= i < |w.trace| && w.trace[i].Took? && w.trace[i].id in w.pcs ==> Answering(w.pcs[w.trace[i].id]))
    && (forall i :: 0 <= i < |w.trace| && Verdict(w.trace[i]) ==> AnswerOk(w, w.trace[i]))
  }

  /** A completion's answer comes from having taken the handle, or is an early rejection. */
  ghost predicate AnswerOk(w: World, e: Event) {
    e.id in w.calls && w.calls[e.id].Completes() ==> TookBy(w.trace, e.id) || EarlyRejection(w.calls[e.id], e)
  }

  /** What one move does to the request's taking and answering. */
  ghost predicate MoveTakesOk(trace: seq<Event>, id: Id, call: Call, pc: Pc, m: Move) {
    && (forall k :: 0 <= k < |m.events| ==> m.events[k].id == id)
    && (forall k :: 0 <= k < |m.events| && m.events[k].Took? ==>
          && |m.events| == 1 && !Answering(pc) && m.next.Some? && Answering(m.next.value)
          && call.Completes() && m.events[k].h == call.handle && Won(m.shared, id, call.handle))
    && (Answering(pc) && m.next.Some? ==> Answering(m.next.value))
    && (forall k :: 0 <= k < |m.events| && Verdict(m.events[k]) && call.Completes() ==>
          TookBy(trace, id) || EarlyRejection(call, m.events[k]))
  }

  lemma TookOnlyAtCheck(env: Env, s: Shared, id: Id, call: Call, pc: Pc, reply: Reply)
    requires call.Completes() && !pc.AwaitConsumeCheck? && FinishMove(env, s, id, call, pc, reply).Some?
    ensures forall e :: e in FinishMove(env, s, id, call, pc, reply).value.events ==> !e.Took?
  {
  }

  lemma FinishTook(env: Env, s: Shared, trace: seq<Event>, id: Id, call: Call, pc: Pc, reply: Reply)
    requires PcOk(env, s, trace, id, call, pc) && call.Completes() && FinishMove(env, s, id, call, pc, reply).Some?
    ensures var m := FinishMove(env, s, id, call, pc, reply).value;
      forall k :: 0 <= k < |m.events| && m.events[k].Took? ==>
        && |m.events| == 1 && pc.AwaitConsumeCheck? && m.next.Some? && Answering(m.next.value)
        && m.events[k].h == call.handle && Won(m.shared, id, call.handle)
  {
    if !pc.AwaitConsumeCheck? {
      TookOnlyAtCheck(env, s, id, call, pc, reply);
    }
  }

  lemma AnsweringStays(env: Env, s: Shared, id: Id, call: Call, pc: Pc, reply: Reply)
    requires call.Completes() && Answering(pc) && FinishMove(env, s, id, call, pc, reply).Some?
    ensures var m := FinishMove(env, s, id, call, pc, reply).value; m.next.Some? ==> Answering(m.next.value)
  {
  }

  lemma AnsweringTook(env: Env, s: Shared, trace: seq<Event>, id: Id, call: Call, pc: Pc)
    requires PcOk(env, s, trace, id, call, pc) && Answering(pc)
    ensures TookBy(trace, id)
  {
    var at :| Took(id, call.handle, pc.t, at) in trace && at < pc.t.expiresAt;
    var i :| 0 <= i < |trace| && trace[i] == Took(id, call.handle, pc.t, at);
    assert trace[i].id == id;
  }

  lemma EarlyVerdicts(env: Env, s: Shared, trace: seq<Event>, id: Id, call: Call, pc: Pc, reply: Reply)
    requires PcOk(env, s, trace, id, call, pc) && call.Completes() && !Answering(pc) && FinishMove(env, s, id, call, pc, reply).Some?
    ensures var m := FinishMove(env, s, id, call, pc, reply).value;
      forall k :: 0 <= k < |m.events| && Verdict(m.events[k]) ==> EarlyRejection(call, m.events[k])
  {
  }

  lemma FinishTakes(env: Env, s: Shared, trace: seq<Event>, id: Id, call: Call, pc: Pc, reply: Reply)
    requires PcOk(env, s, trace, id, call, pc) && call.Completes() && FinishMove(env, s, id, call, pc, reply).Some?
    ensures var m := FinishMove(env, s, id, call, pc, reply).value;
      && (Answering(pc) && m.next.Some? ==> Answering(m.next.value))
      && (forall k :: 0 <= k < |m.events| && Verdict(m.events[k]) ==> TookBy(trace, id) || EarlyRejection(call, m.events[k]))
  {
    if Answering(pc) {
      AnsweringTook(env, s, trace, id, call, pc);
      AnsweringStays(env, s, id, call, pc, reply);
    } else {
      EarlyVerdicts(env, s, trace, id, call, pc, reply);
    }
  }

  lemma MoveTakes(env: Env, s: Shared, trace: seq<Event>, id: Id, call: Call, pc: Pc, reply: Reply)
    requires PcOk(env, s, trace, id, call, pc) && NextMove(env, s, id, call, pc, reply).Some?
    requires EventsOk(env, trace, id, call, NextMove(env, s, id, call, pc, reply).value)
    ensures MoveTakesOk(trace, id, call, pc, NextMove(env, s, id, call, pc, reply).value)
  {
    if call.Completes() {
      FinishTook(env, s, trace, id, call, pc, reply);
      FinishTakes(env, s, trace, id, call, pc, reply);
    } else {
      StartReplies(env, s, id, call, pc, reply);
      StartsDoNotAnswer(env, s, trace, id, call, pc);
    }
  }

  lemma TakesGrow(w: World, id: Id, m: Move)
    requires TakesOk(w) && id in w.pcs && id in w.calls
    requires MoveTakesOk(w.trace, id, w.calls[id], w.pcs[id], m) && Rely(w.shared, m.shared)
    ensures TakesOk(Apply(w, id, m))
  {
    var w' := Apply(w, id, m);
    var n := |w.trace|;
    TookByGrows(w.trace, m.events);
    forall i | 0 <= i < |w'.trace|
      ensures i < n ==> w'.trace[i] == w.trace[i]
      ensures i >= n ==> w'.trace[i] == m.events[i - n]
    {
    }
    forall i, j | 0 <= i < j < |w'.trace| && w'.trace[i].Took? && w'.trace[j].Took?
      ensures w'.trace[i].id != w'.trace[j].id
    {
      if j >= n {
        assert w'.trace[j] == m.events[j - n];
      }
    }
    forall i | 0 <= i < |w'.trace| && Verdict(w'.trace[i])
      ensures AnswerOk(w', w'.trace[i])
    {
      if i < n {
        assert AnswerOk(w, w.trace[i]);
      } else {
        assert w'.trace[i] == m.events[i - n];
      }
    }
  }

  lemma TookByGrows(trace: seq<Event>, more: seq<Event>)
    ensures forall id :: TookBy(trace, id) ==> TookBy(trace + more, id)
  {
    forall id | TookBy(trace, id)
      ensures TookBy(trace + more, id)
    {
      var i :| 0 <= i < |trace| && trace[i].Took? && trace[i].id == id;
      assert (trace + more)[i] == trace[i];
    }
  }

  lemma BeginKeepsTakes(env: Env, w: World, id: Id, call: Call)
    requires Inv(env, w) && TakesOk(w) && id !in w.calls
    ensures TakesOk(World(Naming(w.shared, call), w.calls[id := call], Placed(w.pcs, id, FirstPc(env, call)), w.trace))
  {
    var w' := World(Naming(w.shared, call), w.calls[id := call], Placed(w.pcs, id, FirstPc(env, call)), w.trace);
    forall i | 0 <= i < |w.trace|
      ensures w.trace[i].id in w.calls && w.trace[i].id != id
    {
    }
    forall i | 0 <= i < |w'.trace| && Verdict(w'.trace[i])
      ensures AnswerOk(w', w'.trace[i])
    {
      assert AnswerOk(w, w.trace[i]);
    }
  }

  // ---------------------------------------------------------------- keeping

  /** A stored transaction stays in the store until it expires or somebody consumes its handle. */
  ghost predicate KeptOk(w: World) {
    forall i :: 0 <= i < |w.trace| && w.trace[i].Stored? ==> Kept(w.shared, w.trace[i].h, w.trace[i].t)
  }

  ghost predicate Kept(s: Shared, h: Handle, t: Transaction) {
    t.expiresAt > s.clock && h !in s.winner ==> h in s.data && s.data[h] == t
  }

  /** Only a request that completes a handle consumes it. */
  ghost predicate WinnersOk(w: World) {
    forall h :: h in w.shared.winner ==>
      w.shared.winner[h] in w.calls && w.calls[w.shared.winner[h]].Completes() && w.calls[w.shared.winner[h]].handle == h
  }

  /** The store loses an entry only to a sweep after its expiry or to the request that consumes it. */
  ghost predicate LosesOnlyDead(s: Shared, m: Move) {
    && m.shared.clock == s.clock && s.winner.Keys <= m.shared.winner.Keys
    && (forall h :: h in s.data && s.data[h].expiresAt > s.clock && h !in m.shared.winner ==>
          h in m.shared.data && m.shared.data[h] == s.data[h])
    && (forall k :: 0 <= k < |m.events| && m.events[k].Stored? ==>
          m.events[k].h in m.shared.data && m.shared.data[m.events[k].h] == m.events[k].t)
  }

  lemma MoveWins(env: Env, s: Shared, id: Id, call: Call, pc: Pc, reply: Reply)
    requires NextMove(env, s, id, call, pc, reply).Some?
    ensures var s' := NextMove(env, s, id, call, pc, reply).value.shared;
      s'.winner == s.winner || (call.Completes() && s'.winner == s.winner[call.handle := id])
  {
    if !call.Completes() {
      if !pc.AwaitCreateLock? {
        StartTouchesLedgerOnly(env, s, id, call, pc, reply);
      }
    } else if !pc.AwaitConsume? {
      FinishTouchesLedgerOnly(env, s, id, call, pc, reply);
    }
  }

  lemma CreateLosesOnlyDead(env: Env, s: Shared, id: Id, t: Transaction, now: Time, draw: Option<Handle>)
    requires now <= s.clock && s.data.Keys <= s.mentioned && OnCreateLock(env, s, id, t, now, draw).Some?
    ensures LosesOnlyDead(s, OnCreateLock(env, s, id, t, now, draw).value)
  {
  }

  lemma MoveLosesOnlyDead(env: Env, s: Shared, trace: seq<Event>, id: Id, call: Call, pc: Pc, reply: Reply)
    requires PcOk(env, s, trace, id, call, pc) && s.data.Keys <= s.mentioned
    requires NextMove(env, s, id, call, pc, reply).Some?
    ensures LosesOnlyDead(s, NextMove(env, s, id, call, pc, reply).value)
  {
    if !call.Completes() && pc.AwaitCreateLock? {
      CreateLosesOnlyDead(env, s, id, pc.t, pc.now, reply.h);
    } else {
      NothingStored(env, s, id, call, pc, reply);
      if !call.Completes() {
        StartTouchesLedgerOnly(env, s, id, call, pc, reply);
      } else if !pc.AwaitConsume? {
        FinishTouchesLedgerOnly(env, s, id, call, pc, reply);
      }
    }
  }

  lemma KeptGrows(w: World, id: Id, m: Move)
    requires KeptOk(w) && LosesOnlyDead(w.shared, m)
    ensures KeptOk(Apply(w, id, m))
  {
    var w' := Apply(w, id, m);
    forall i | 0 <= i < |w'.trace| && w'.trace[i].Stored?
      ensures Kept(w'.shared, w'.trace[i].h, w'.trace[i].t)
    {
      if i < |w.trace| {
        assert w'.trace[i] == w.trace[i];
        assert Kept(w.shared, w.trace[i].h, w.trace[i].t);
      } else {
        assert w'.trace[i] == m.events[i - |w.trace|];
      }
    }
  }

  // ---------------------------------------------------------------- whole runs

  /** A start that got past its first check has a well-formed challenge. */
  ghost predicate StartsOk(env: Env, w: World) {
    && (forall id :: id in w.pcs && id in w.calls && !w.calls[id].Completes() ==> ValidChallenge(env.cfg, w.calls[id].challenge))
    && (forall i :: 0 <= i < |w.trace| && w.trace[i].id in w.calls && !w.calls[w.trace[i].id].Completes() ==>
          ValidChallenge(env.cfg, w.calls[w.trace[i].id].challenge))
  }

  ghost predicate RunsOk(env: Env, w: World) {
    TakesOk(w) && KeptOk(w) && WinnersOk(w) && StartsOk(env, w)
  }

  lemma StartsGrow(env: Env, w: World, id: Id, m: Move)
    requires StartsOk(env, w) && id in w.pcs && id in w.calls
    requires forall k :: 0 <= k < |m.events| ==> m.events[k].id == id
    ensures StartsOk(env, Apply(w, id, m))
  {
    var w' := Apply(w, id, m);
    forall i | 0 <= i < |w'.trace|
      ensures w'.trace[i].id == id || (i < |w.trace| && w'.trace[i] == w.trace[i])
    {
    }
  }

  lemma AdvanceKeepsTakes(env: Env, w: World, id: Id, reply: Reply)
    requires Inv(env, w) && RunsOk(env, w)
    requires id in w.pcs && NextMove(env, w.shared, id, w.calls[id], w.pcs[id], reply).Some?
    ensures var w' := Apply(w, id, NextMove(env, w.shared, id, w.calls[id], w.pcs[id], reply).value);
      RunsOk(env, w')
  {
    var call, pc := w.calls[id], w.pcs[id];
    var m := NextMove(env, w.shared, id, call, pc, reply).value;
    assert PcOk(env, w.shared, w.trace, id, call, pc);
    MoveEventsOk(env, w.shared, w.trace, id, call, pc, reply);
    MoveTakes(env, w.shared, w.trace, id, call, pc, reply);
    MoveKeepsRely(env, w.shared, w.calls, id, pc, reply);
    TakesGrow(w, id, m);
    MoveLosesOnlyDead(env, w.shared, w.trace, id, call, pc, reply);
    KeptGrows(w, id, m);
    MoveWins(env, w.shared, id, call, pc, reply);
    StartsGrow(env, w, id, m);
  }

  lemma TickKeepsTakes(env: Env, w: World, elapsed: nat)
    requires RunsOk(env, w)
    ensures RunsOk(env, Step(env, w, Tick(elapsed)))
  {
    var w' := Step(env, w, Tick(elapsed));
    forall i | 0 <= i < |w'.trace| && w'.trace[i].Stored?
      ensures Kept(w'.shared, w'.trace[i].h, w'.trace[i].t)
    {
      assert Kept(w.shared, w.trace[i].h, w.trace[i].t);
    }
    forall i | 0 <= i < |w'.trace| && Verdict(w'.trace[i])
      ensures AnswerOk(w', w'.trace[i])
    {
      assert AnswerOk(w, w.trace[i]);
    }
  }

  lemma BeginKeepsRunsOk(env: Env, w: World, id: Id, call: Call)
    requires Inv(env, w) && RunsOk(env, w) && id !in w.calls
    ensures RunsOk(env, World(Naming(w.shared, call), w.calls[id := call], Placed(w.pcs, id, FirstPc(env, call)), w.trace))
  {
    BeginKeepsTakes(env, w, id, call);
    forall i | 0 <= i < |w.trace| && w.trace[i].Stored?
      ensures Kept(Naming(w.shared, call), w.trace[i].h, w.trace[i].t)
    {
      assert Kept(w.shared, w.trace[i].h, w.trace[i].t);
    }
  }

  lemma AdvanceStepKeepsTakes(env: Env, w: World, id: Id, reply: Reply)
    requires Inv(env, w) && RunsOk(env, w)
    ensures RunsOk(env, Step(env, w, Advance(id, reply)))
  {
    if id in w.pcs && NextMove(env, w.shared, id, w.calls[id], w.pcs[id], reply).Some? {
      AdvanceKeepsTakes(env, w, id, reply);
    }
  }

  lemma BeginStepKeepsTakes(env: Env, w: World, id: Id, call: Call)
    requires Inv(env, w) && RunsOk(env, w)
    ensures RunsOk(env, Step(env, w, Begin(id, call)))
  {
    if id !in w.calls {
      BeginKeepsRunsOk(env, w, id, call);
    }
  }

  lemma StepKeepsTakes(env: Env, w: World, a: Action)
    requires Inv(env, w) && RunsOk(env, w)
    ensures RunsOk(env, Step(env, w, a))
  {
    match a
    case Tick(elapsed) => TickKeepsTakes(env, w, elapsed);
    case Begin(id, call) => BeginStepKeepsTakes(env, w, id, call);
    case Advance(id, reply) => AdvanceStepKeepsTakes(env, w, id, reply);
  }

  lemma {:induction false} RunKeepsTakes(env: Env, w: World, actions: seq<Action>)
    requires Inv(env, w) && RunsOk(env, w)
    ensures RunsOk(env, Run(env, w, actions))
    decreases actions
  {
    if actions != [] {
      StepKeepsInv(env, w, actions[0]);
      StepKeepsTakes(env, w, actions[0]);
      RunKeepsTakes(env, Step(env, w, actions[0]), actions[1..]);
    }
  }

  lemma ReachableTakes(env: Env, w: World)
    requires Reachable(env, w)
    ensures RunsOk(env, w)
  {
    var clock, actions :| w == Run(env, Initial(clock), actions);
    InitialInv(env, clock);
    RunKeepsTakes(env, Initial(clock), actions);
  }

  // ---------------------------------------------------------------- main results

  /** A transaction is taken once: two takes of one handle are the same event. */
  lemma TakenOnce(env: Env, w: World, i: nat, j: nat)
    requires Reachable(env, w)
    requires i < |w.trace| && j < |w.trace| && w.trace[i].Took? && w.trace[j].Took? && w.trace[i].h == w.trace[j].h
    ensures i == j
  {
    ReachableTakes(env, w);
    assert Takes(w, w.trace[i]) && Takes(w, w.trace[j]);
  }

  /**
   Single use: of two answers to Hydra by requests that complete one handle, at least one comes from a
   request that never took it. So over a whole run at most one answer rests on a handle, whatever it is: an
   accept, a reject after the session, a denial, or any refusal by or after the policy.
   */
  lemma SingleUse(env: Env, w: World, i: nat, j: nat)
    requires Reachable(env, w)
    requires i < |w.trace| && j < |w.trace| && i != j && Verdict(w.trace[i]) && Verdict(w.trace[j])
    requires w.trace[i].id in w.calls && w.trace[j].id in w.calls
    requires w.calls[w.trace[i].id].Completes() && w.calls[w.trace[j].id].Completes()
    requires w.calls[w.trace[i].id].handle == w.calls[w.trace[j].id].handle
    ensures !TookBy(w.trace, w.trace[i].id) || !TookBy(w.trace, w.trace[j].id)
  {
    ReachableTakes(env, w);
    if TookBy(w.trace, w.trace[i].id) && TookBy(w.trace, w.trace[j].id) {
      var m :| 0 <= m < |w.trace| && w.trace[m].Took? && w.trace[m].id == w.trace[i].id;
      var n :| 0 <= n < |w.trace| && w.trace[n].Took? && w.trace[n].id == w.trace[j].id;
      assert Takes(w, w.trace[m]) && Takes(w, w.trace[n]);
      if i < j {
        OneAnswerPerRequest(env, w, i, j);
      } else {
        OneAnswerPerRequest(env, w, j, i);
      }
    }
  }

  /**
   And an answer from a request that never took the handle is one thing only: the rejection of a consent
   the user accepted, given before the transaction is consumed.
   */
  lemma OthersRejectEarly(env: Env, w: World, i: nat)
    requires Reachable(env, w) && i < |w.trace| && Verdict(w.trace[i])
    requires w.trace[i].id in w.calls && w.calls[w.trace[i].id].Completes() && !TookBy(w.trace, w.trace[i].id)
    ensures EarlyRejection(w.calls[w.trace[i].id], w.trace[i])
  {
    ReachableTakes(env, w);
    assert AnswerOk(w, w.trace[i]);
  }

  /** The answer that rests on a taken handle is the taker's; nobody else accepts, or rejects other than early. */
  lemma AnswerIsTheTakers(env: Env, w: World, i: nat, j: nat)
    requires Reachable(env, w)
    requires i < |w.trace| && w.trace[i].Took? && j < |w.trace| && Verdict(w.trace[j])
    requires w.trace[j].id in w.calls && w.calls[w.trace[j].id].Completes() && w.calls[w.trace[j].id].handle == w.trace[i].h
    requires !EarlyRejection(w.calls[w.trace[j].id], w.trace[j])
    ensures w.trace[j].id == w.trace[i].id
  {
    ReachableTakes(env, w);
    assert AnswerOk(w, w.trace[j]);
    var k :| 0 <= k < |w.trace| && w.trace[k].Took? && w.trace[k].id == w.trace[j].id;
    assert Takes(w, w.trace[k]);
    TakenOnce(env, w, i, k);
  }

  /**
   Nothing is lost: whatever happened in between, a stored transaction that has not expired and whose
   handle nobody has consumed is still in the store.
   */
  lemma NeverLost(env: Env, w: World, i: nat)
    requires Reachable(env, w) && i < |w.trace| && w.trace[i].Stored?
    requires w.trace[i].t.expiresAt > w.shared.clock && w.trace[i].h !in w.shared.winner
    ensures w.trace[i].h in w.shared.data && w.shared.data[w.trace[i].h] == w.trace[i].t
  {
    ReachableTakes(env, w);
    assert Kept(w.shared, w.trace[i].h, w.trace[i].t);
  }

  /** As long as no request has come to complete a handle, nobody has consumed it. */
  lemma OnlyCompletionsConsume(env: Env, w: World, h: Handle)
    requires Reachable(env, w)
    requires forall id :: id in w.calls && w.calls[id].Completes() ==> w.calls[id].handle != h
    ensures h !in w.shared.winner
  {
    ReachableTakes(env, w);
  }
}
