/** The invariant of whole runs: quota, cover of the store by the ledger, evidence, and verdicts. */
module ServiceSafety {
  import opened Text
  import opened Domain
  import opened Freshness
  import opened PendingLedger
  import opened Flows
  import opened ServiceRuns
  import opened ServiceInvariants
  import opened ServiceTrace

  // ---------------------------------------------------------------- the quota

  /** The request is between `reserve` and `commit` or `cancel`. */
  predicate Holding(pc: Pc) {
    pc.AwaitCreate? || pc.AwaitCreateLock? || pc.AwaitCommit? || pc.AwaitCancel?
  }

  function Holders(pcs: map<Id, Pc>): set<Id> {
    set id | id in pcs && Holding(pcs[id])
  }

  ghost predicate LedgerOk(env: Env, w: World) {
    && w.shared.ledger.reserved == |Holders(w.pcs)|
    && |w.shared.ledger.active| + w.shared.ledger.reserved <= Quota(env)
  }

  function Weight(pc: Option<Pc>): nat {
    if pc.Some? && Holding(pc.value) then 1 else 0
  }

  lemma PlacedHolders(pcs: map<Id, Pc>, id: Id, next: Option<Pc>)
    requires id in pcs
    ensures |Holders(Placed(pcs, id, next))| == |Holders(pcs)| - Weight(Some(pcs[id])) + Weight(next)
    ensures Weight(Some(pcs[id])) <= |Holders(pcs)|
  {
    var others := Holders(pcs) - {id};
    if Holding(pcs[id]) {
      assert Holders(pcs) == others + {id};
    } else {
      assert Holders(pcs) == others;
    }
    if Weight(next) == 1 {
      assert Holders(Placed(pcs, id, next)) == others + {id};
    } else {
      assert Holders(Placed(pcs, id, next)) == others;
    }
  }

  lemma SweepShrinks(active: map<Handle, Time>, now: Time)
    ensures |Unexpired(active, now)| <= |active|
  {
    var a, b := Unexpired(active, now).Keys, active.Keys;
    assert b == a + (b - a);
  }

  lemma ReleaseShrinks(active: map<Handle, Time>, h: Handle)
    ensures |active - {h}| <= |active|
  {
    var a, b := (active - {h}).Keys, active.Keys;
    assert b == a + (b - a);
  }

  lemma InsertGrowsByOne(active: map<Handle, Time>, h: Handle, e: Time)
    ensures |active[h := e]| <= |active| + 1
  {
    assert active[h := e].Keys == active.Keys + {h};
  }

  /** The ledger of a step that is not about the ledger is as before, and so is what its request holds. */
  lemma OtherStepsHoldAlike(env: Env, s: Shared, id: Id, call: Call, pc: Pc, reply: Reply)
    requires !call.Completes() && !pc.AwaitReserveLock? && !pc.AwaitCommit? && !pc.AwaitCancel?
    requires StartMove(env, s, id, call, pc, reply).Some?
    ensures var m := StartMove(env, s, id, call, pc, reply).value;
      m.shared.ledger == s.ledger && Weight(Some(pc)) == Weight(m.next)
  {
  }

  /** A step's effect on the ledger is exactly the change in what its request holds. */
  lemma StartKeepsQuota(env: Env, s: Shared, id: Id, call: Call, pc: Pc, reply: Reply)
    requires !call.Completes() && Weight(Some(pc)) <= s.ledger.reserved
    requires |s.ledger.active| + s.ledger.reserved <= Quota(env)
    requires StartMove(env, s, id, call, pc, reply).Some?
    ensures var m := StartMove(env, s, id, call, pc, reply).value;
      && m.shared.ledger.reserved == s.ledger.reserved - Weight(Some(pc)) + Weight(m.next)
      && |m.shared.ledger.active| + m.shared.ledger.reserved <= Quota(env)
  {
    if pc.AwaitReserveLock? {
      SweepShrinks(s.ledger.active, pc.now);
    } else if pc.AwaitCommit? {
      InsertGrowsByOne(s.ledger.active, pc.h, pc.t.expiresAt);
    } else if !pc.AwaitCancel? {
      OtherStepsHoldAlike(env, s, id, call, pc, reply);
    }
  }

  lemma FinishHoldsNothing(env: Env, s: Shared, id: Id, call: Call, pc: Pc, reply: Reply)
    requires call.Completes()
    requires FinishMove(env, s, id, call, pc, reply).Some?
    ensures var m := FinishMove(env, s, id, call, pc, reply).value;
      && Weight(Some(pc)) == 0 && Weight(m.next) == 0
      && (m.shared.ledger == s.ledger || m.shared.ledger == AfterRelease(s.ledger, call.handle))
  {
  }

  lemma FinishKeepsQuota(env: Env, s: Shared, id: Id, call: Call, pc: Pc, reply: Reply)
    requires call.Completes()
    requires |s.ledger.active| + s.ledger.reserved <= Quota(env)
    requires FinishMove(env, s, id, call, pc, reply).Some?
    ensures var m := FinishMove(env, s, id, call, pc, reply).value;
      && m.shared.ledger.reserved == s.ledger.reserved - Weight(Some(pc)) + Weight(m.next)
      && |m.shared.ledger.active| + m.shared.ledger.reserved <= Quota(env)
  {
    FinishHoldsNothing(env, s, id, call, pc, reply);
    ReleaseShrinks(s.ledger.active, call.handle);
  }

  // ---------------------------------------------------------------- the ledger covers the store

  /** The ledger counts this entry, or the request that stored it is about to make it count. */
  ghost predicate Covered(s: Shared, pcs: map<Id, Pc>, h: Handle)
    requires h in s.data
  {
    || (h in s.ledger.active && s.ledger.active[h] == s.data[h].expiresAt)
    || exists id :: id in pcs && pcs[id] == AwaitCommit(s.data[h], h)
  }

  /** Every live stored transaction counts against the quota. */
  ghost predicate CoverOk(w: World) {
    forall h :: h in w.shared.data && w.shared.data[h].expiresAt > w.shared.clock ==> Covered(w.shared, w.pcs, h)
  }

  ghost predicate PcsOk(env: Env, w: World) {
    && (forall id :: id in w.pcs ==> id in w.calls)
    && (forall id :: id in w.pcs ==> PcOk(env, w.shared, w.trace, id, w.calls[id], w.pcs[id]))
  }

  lemma OthersStillCover(s: Shared, pcs: map<Id, Pc>, id: Id, next: Option<Pc>, s': Shared, h: Handle)
    requires id in pcs && !pcs[id].AwaitCommit?
    requires h in s.data && Covered(s, pcs, h)
    requires h in s'.data && s'.data[h] == s.data[h]
    requires h in s.ledger.active && s.ledger.active[h] == s.data[h].expiresAt ==>
      h in s'.ledger.active && s'.ledger.active[h] == s.data[h].expiresAt
    ensures Covered(s', Placed(pcs, id, next), h)
  {
    if !(h in s.ledger.active && s.ledger.active[h] == s.data[h].expiresAt) {
      var k :| k in pcs && pcs[k] == AwaitCommit(s.data[h], h);
      assert Placed(pcs, id, next)[k] == AwaitCommit(s'.data[h], h);
    }
  }

  lemma StartKeepsCover(env: Env, w: World, id: Id, reply: Reply)
    requires PcsOk(env, w) && HandlesOk(w.shared, w.calls) && StoredOk(w.shared, w.trace) && CoverOk(w)
    requires id in w.pcs && !w.calls[id].Completes() && !w.pcs[id].AwaitCommit? && !w.pcs[id].AwaitCreateLock?
    requires StartMove(env, w.shared, id, w.calls[id], w.pcs[id], reply).Some?
    ensures CoverOk(Apply(w, id, StartMove(env, w.shared, id, w.calls[id], w.pcs[id], reply).value))
  {
    var pc := w.pcs[id];
    var m := StartMove(env, w.shared, id, w.calls[id], pc, reply).value;
    assert PcOk(env, w.shared, w.trace, id, w.calls[id], pc);
    StartTouchesLedgerOnly(env, w.shared, id, w.calls[id], pc, reply);
    StartLedger(env, w.shared, id, w.calls[id], pc, reply);
    forall h | h in m.shared.data && m.shared.data[h].expiresAt > m.shared.clock
      ensures Covered(m.shared, Placed(w.pcs, id, m.next), h)
    {
      OthersStillCover(w.shared, w.pcs, id, m.next, m.shared, h);
    }
  }

  /** Starting a flow drops only what had expired at a reading the clock has passed. */
  lemma StartLedger(env: Env, s: Shared, id: Id, call: Call, pc: Pc, reply: Reply)
    requires !call.Completes() && !pc.AwaitCommit?
    requires StartMove(env, s, id, call, pc, reply).Some?
    requires pc.AwaitReserveLock? ==> pc.now <= s.clock
    ensures var active := StartMove(env, s, id, call, pc, reply).value.shared.ledger.active;
      forall h :: h in s.ledger.active && s.ledger.active[h] > s.clock ==> h in active && active[h] == s.ledger.active[h]
  {
  }

  /** After a round of `Create` the store holds old entries, and the one its request is about to commit. */
  lemma CreateAddsOne(env: Env, s: Shared, id: Id, t: Transaction, now: Time, draw: Option<Handle>)
    requires OnCreateLock(env, s, id, t, now, draw).Some?
    ensures var m := OnCreateLock(env, s, id, t, now, draw).value;
      && m.shared.ledger == s.ledger && m.shared.clock == s.clock
      && forall h :: h in m.shared.data ==>
        (h in s.data && m.shared.data[h] == s.data[h]) || m.next == Some(AwaitCommit(m.shared.data[h], h))
  {
  }

  lemma CreateKeepsCover(env: Env, w: World, id: Id, reply: Reply)
    requires CoverOk(w)
    requires id in w.pcs && id in w.calls && !w.calls[id].Completes() && w.pcs[id].AwaitCreateLock?
    requires StartMove(env, w.shared, id, w.calls[id], w.pcs[id], reply).Some?
    ensures CoverOk(Apply(w, id, StartMove(env, w.shared, id, w.calls[id], w.pcs[id], reply).value))
  {
    var pc := w.pcs[id];
    var m := OnCreateLock(env, w.shared, id, pc.t, pc.now, reply.h).value;
    CreateAddsOne(env, w.shared, id, pc.t, pc.now, reply.h);
    var pcs' := Placed(w.pcs, id, m.next);
    forall h | h in m.shared.data && m.shared.data[h].expiresAt > m.shared.clock
      ensures Covered(m.shared, pcs', h)
    {
      if m.next == Some(AwaitCommit(m.shared.data[h], h)) {
        assert pcs'[id] == AwaitCommit(m.shared.data[h], h);
      } else {
        OthersStillCover(w.shared, w.pcs, id, m.next, m.shared, h);
      }
    }
  }

  lemma CommitCovers(s: Shared, pcs: map<Id, Pc>, id: Id, h: Handle, e: Time, k: Handle)
    requires id in pcs && pcs[id].AwaitCommit? && pcs[id].h == h
    requires k in s.data && Covered(s, pcs, k) && (h in s.data ==> s.data[h].expiresAt == e)
    ensures Covered(s.(ledger := AfterCommit(s.ledger, h, e)), Placed(pcs, id, None), k)
  {
    if k != h && !(k in s.ledger.active && s.ledger.active[k] == s.data[k].expiresAt) {
      var n :| n in pcs && pcs[n] == AwaitCommit(s.data[k], k);
      assert Placed(pcs, id, None)[n] == AwaitCommit(s.data[k], k);
    }
  }

  lemma CommitKeepsCover(env: Env, w: World, id: Id, reply: Reply)
    requires PcsOk(env, w) && HandlesOk(w.shared, w.calls) && StoredOk(w.shared, w.trace) && CoverOk(w)
    requires id in w.pcs && !w.calls[id].Completes() && w.pcs[id].AwaitCommit?
    ensures CoverOk(Apply(w, id, StartMove(env, w.shared, id, w.calls[id], w.pcs[id], reply).value))
  {
    var pc, s := w.pcs[id], w.shared;
    assert PcOk(env, s, w.trace, id, w.calls[id], pc);
    assert Known(w.trace, pc.h, pc.t);
    KnownEntry(s, w.trace, pc.h, pc.t);
    forall k | k in s.data && s.data[k].expiresAt > s.clock
      ensures Covered(s.(ledger := AfterCommit(s.ledger, pc.h, pc.t.expiresAt)), Placed(w.pcs, id, None), k)
    {
      CommitCovers(s, w.pcs, id, pc.h, pc.t.expiresAt, k);
    }
  }

  lemma FinishKeepsCover(env: Env, w: World, id: Id, reply: Reply)
    requires PcsOk(env, w) && HandlesOk(w.shared, w.calls) && CoverOk(w)
    requires id in w.pcs && w.calls[id].Completes()
    requires FinishMove(env, w.shared, id, w.calls[id], w.pcs[id], reply).Some?
    ensures CoverOk(Apply(w, id, FinishMove(env, w.shared, id, w.calls[id], w.pcs[id], reply).value))
  {
    var pc := w.pcs[id];
    var call := w.calls[id];
    var m := FinishMove(env, w.shared, id, call, pc, reply).value;
    assert PcOk(env, w.shared, w.trace, id, call, pc);
    LedgerOrConsume(env, w.shared, id, call, pc, reply);
    FinishLedger(env, w.shared, id, call, pc, reply);
    forall h | h in m.shared.data && m.shared.data[h].expiresAt > m.shared.clock
      ensures Covered(m.shared, Placed(w.pcs, id, m.next), h)
    {
      OthersStillCover(w.shared, w.pcs, id, m.next, m.shared, h);
    }
  }

  /** Completing a flow releases a handle only when nothing live can be stored under it. */
  lemma FinishLedger(env: Env, s: Shared, id: Id, call: Call, pc: Pc, reply: Reply)
    requires call.Completes()
    requires pc.AwaitLoadRelease? || pc.AwaitConsumeRelease? ==> Dead(s, call.handle)
    requires FinishMove(env, s, id, call, pc, reply).Some?
    ensures var active := FinishMove(env, s, id, call, pc, reply).value.shared.ledger.active;
      forall h :: h in s.ledger.active && h in s.data && s.data[h].expiresAt > s.clock ==>
        h in active && active[h] == s.ledger.active[h]
  {
    if !pc.AwaitLoadRelease? && !pc.AwaitConsumeRelease? {
      OnlyReleasesTouchLedger(env, s, id, call, pc, reply);
    }
  }

  lemma OnlyReleasesTouchLedger(env: Env, s: Shared, id: Id, call: Call, pc: Pc, reply: Reply)
    requires call.Completes() && !pc.AwaitLoadRelease? && !pc.AwaitConsumeRelease? && FinishMove(env, s, id, call, pc, reply).Some?
    ensures FinishMove(env, s, id, call, pc, reply).value.shared.ledger == s.ledger
  {
  }

  // ---------------------------------------------------------------- the trace

  ghost predicate TraceOk(env: Env, w: World) {
    && (forall i :: 0 <= i < |w.trace| ==> w.trace[i].id in w.calls)
    && (forall i :: 0 <= i < |w.trace| ==> Justified(env, w.calls[w.trace[i].id], w.trace[..i], w.trace[i]))
  }

  /** A request answers Hydra once, as its last event. */
  ghost predicate VerdictsOk(w: World) {
    && (forall i :: 0 <= i < |w.trace| && Verdict(w.trace[i]) ==> w.trace[i].id !in w.pcs)
    && (forall i, j :: 0 <= i < j < |w.trace| && Verdict(w.trace[i]) && Verdict(w.trace[j]) ==> w.trace[i].id != w.trace[j].id)
  }

  lemma MoveKeepsTrace(env: Env, w: World, id: Id, m: Move)
    requires TraceOk(env, w) && id in w.calls
    requires EventsOk(env, w.trace, id, w.calls[id], m)
    ensures TraceOk(env, Apply(w, id, m))
  {
    var trace := w.trace + m.events;
    forall i | 0 <= i < |trace|
      ensures trace[i].id in w.calls && Justified(env, w.calls[trace[i].id], trace[..i], trace[i])
    {
      if i < |w.trace| {
        assert trace[i] == w.trace[i] && trace[..i] == w.trace[..i];
      } else if i == |w.trace| {
        assert trace[..i] == w.trace && trace[i] == m.events[0];
      } else {
        assert trace[..i] == w.trace + [m.events[0]] && trace[i] == m.events[1];
      }
    }
  }

  /** The answers of a move, if any, are its last event, and then the request is finished. */
  ghost predicate AnswersLast(id: Id, m: Move) {
    forall k :: 0 <= k < |m.events| ==>
      m.events[k].id == id && (Verdict(m.events[k]) ==> m.next.None? && k == |m.events| - 1)
  }

  lemma MoveKeepsVerdicts(w: World, id: Id, m: Move)
    requires VerdictsOk(w) && id in w.pcs && AnswersLast(id, m)
    ensures VerdictsOk(Apply(w, id, m))
  {
    var w' := Apply(w, id, m);
    var n := |w.trace|;
    forall i | 0 <= i < |w'.trace|
      ensures i < n ==> w'.trace[i] == w.trace[i]
      ensures i >= n ==> w'.trace[i] == m.events[i - n]
    {
    }
    forall i, j | 0 <= i < j < |w'.trace| && Verdict(w'.trace[i]) && Verdict(w'.trace[j])
      ensures w'.trace[i].id != w'.trace[j].id
    {
      if j >= n {
        assert w'.trace[j] == m.events[j - n];
        assert i < n;
        assert w.trace[i].id !in w.pcs;
      }
    }
  }

  // ---------------------------------------------------------------- the invariant

  ghost predicate Inv(env: Env, w: World) {
    && HandlesOk(w.shared, w.calls)
    && StoredOk(w.shared, w.trace)
    && PcsOk(env, w)
    && LedgerOk(env, w)
    && CoverOk(w)
    && TraceOk(env, w)
    && VerdictsOk(w)
  }

  lemma InitialInv(env: Env, clock: Time)
    ensures Inv(env, Initial(clock))
  {
    assert Holders(map[]) == {};
  }

  lemma TickKeepsInv(env: Env, w: World, elapsed: nat)
    requires Inv(env, w)
    ensures Inv(env, Step(env, w, Tick(elapsed)))
  {
    var w' := Step(env, w, Tick(elapsed));
    assert w.trace + [] == w.trace;
    forall id | id in w'.pcs
      ensures PcOk(env, w'.shared, w'.trace, id, w'.calls[id], w'.pcs[id])
    {
      PcOkIsStable(env, w.shared, w'.shared, w.trace, [], id, w.calls[id], w.pcs[id]);
    }
    forall h | h in w'.shared.data && w'.shared.data[h].expiresAt > w'.shared.clock
      ensures Covered(w'.shared, w'.pcs, h)
    {
      assert Covered(w.shared, w.pcs, h);
    }
  }

  lemma BeginKeepsPcsOk(env: Env, w: World, id: Id, call: Call)
    requires PcsOk(env, w) && id !in w.calls
    ensures PcsOk(env, Step(env, w, Begin(id, call)))
  {
    var w' := Step(env, w, Begin(id, call));
    assert w.trace + [] == w.trace;
    forall k | k in w'.pcs
      ensures k in w'.calls && PcOk(env, w'.shared, w'.trace, k, w'.calls[k], w'.pcs[k])
    {
      if k != id {
        PcOkIsStable(env, w.shared, w'.shared, w.trace, [], k, w.calls[k], w.pcs[k]);
      }
    }
  }

  lemma BeginKeepsCover(env: Env, w: World, id: Id, call: Call)
    requires CoverOk(w) && id !in w.calls && id !in w.pcs
    ensures CoverOk(Step(env, w, Begin(id, call)))
    ensures Holders(Step(env, w, Begin(id, call)).pcs) == Holders(w.pcs)
  {
    var w' := Step(env, w, Begin(id, call));
    forall h | h in w'.shared.data && w'.shared.data[h].expiresAt > w'.shared.clock
      ensures Covered(w'.shared, w'.pcs, h)
    {
      assert Covered(w.shared, w.pcs, h);
      StillCovered(w.shared, w'.shared, w.pcs, w'.pcs, h);
    }
  }

  lemma StillCovered(s: Shared, s': Shared, pcs: map<Id, Pc>, pcs': map<Id, Pc>, h: Handle)
    requires h in s.data && Covered(s, pcs, h) && s'.ledger == s.ledger && s'.data == s.data
    requires forall id :: id in pcs ==> id in pcs' && pcs'[id] == pcs[id]
    ensures Covered(s', pcs', h)
  {
    if !(h in s.ledger.active && s.ledger.active[h] == s.data[h].expiresAt) {
      var k :| k in pcs && pcs[k] == AwaitCommit(s.data[h], h);
      assert pcs'[k] == AwaitCommit(s'.data[h], h);
    }
  }

  lemma BeginKeepsTrace(env: Env, w: World, id: Id, call: Call)
    requires TraceOk(env, w) && VerdictsOk(w) && id !in w.calls
    ensures TraceOk(env, Step(env, w, Begin(id, call)))
    ensures VerdictsOk(Step(env, w, Begin(id, call)))
  {
    var w' := Step(env, w, Begin(id, call));
    forall i | 0 <= i < |w.trace|
      ensures w.trace[i].id in w'.calls && w'.calls[w.trace[i].id] == w.calls[w.trace[i].id]
    {
    }
  }

  lemma BeginKeepsInv(env: Env, w: World, id: Id, call: Call)
    requires Inv(env, w) && id !in w.calls
    ensures Inv(env, Step(env, w, Begin(id, call)))
  {
    assert id !in w.pcs;
    BeginKeepsPcsOk(env, w, id, call);
    BeginKeepsCover(env, w, id, call);
    BeginKeepsTrace(env, w, id, call);
  }

  lemma MoveKeepsPcsOk(env: Env, w: World, id: Id, reply: Reply)
    requires HandlesOk(w.shared, w.calls) && StoredOk(w.shared, w.trace) && PcsOk(env, w)
    requires id in w.pcs && NextMove(env, w.shared, id, w.calls[id], w.pcs[id], reply).Some?
    ensures PcsOk(env, Apply(w, id, NextMove(env, w.shared, id, w.calls[id], w.pcs[id], reply).value))
  {
    var m := NextMove(env, w.shared, id, w.calls[id], w.pcs[id], reply).value;
    var w' := Apply(w, id, m);
    MoveKeepsRely(env, w.shared, w.calls, id, w.pcs[id], reply);
    forall k | k in w'.pcs
      ensures PcOk(env, w'.shared, w'.trace, k, w'.calls[k], w'.pcs[k])
    {
      if k == id {
        MoveKeepsPcOk(env, w.shared, w.trace, id, w.calls[id], w.pcs[id], reply);
      } else {
        PcOkIsStable(env, w.shared, m.shared, w.trace, m.events, k, w.calls[k], w.pcs[k]);
      }
    }
  }

  lemma MoveKeepsLedgerOk(env: Env, w: World, id: Id, reply: Reply)
    requires LedgerOk(env, w)
    requires id in w.pcs && id in w.calls && NextMove(env, w.shared, id, w.calls[id], w.pcs[id], reply).Some?
    ensures LedgerOk(env, Apply(w, id, NextMove(env, w.shared, id, w.calls[id], w.pcs[id], reply).value))
  {
    var m := NextMove(env, w.shared, id, w.calls[id], w.pcs[id], reply).value;
    PlacedHolders(w.pcs, id, m.next);
    if w.calls[id].Completes() {
      FinishKeepsQuota(env, w.shared, id, w.calls[id], w.pcs[id], reply);
    } else {
      StartKeepsQuota(env, w.shared, id, w.calls[id], w.pcs[id], reply);
    }
  }

  lemma MoveKeepsCoverOk(env: Env, w: World, id: Id, reply: Reply)
    requires PcsOk(env, w) && HandlesOk(w.shared, w.calls) && StoredOk(w.shared, w.trace) && CoverOk(w)
    requires id in w.pcs && NextMove(env, w.shared, id, w.calls[id], w.pcs[id], reply).Some?
    ensures CoverOk(Apply(w, id, NextMove(env, w.shared, id, w.calls[id], w.pcs[id], reply).value))
  {
    if w.calls[id].Completes() {
      FinishKeepsCover(env, w, id, reply);
    } else if w.pcs[id].AwaitCommit? {
      CommitKeepsCover(env, w, id, reply);
    } else if w.pcs[id].AwaitCreateLock? {
      CreateKeepsCover(env, w, id, reply);
    } else {
      StartKeepsCover(env, w, id, reply);
    }
  }

  lemma AdvanceKeepsInv(env: Env, w: World, id: Id, reply: Reply)
    requires Inv(env, w)
    requires id in w.pcs && NextMove(env, w.shared, id, w.calls[id], w.pcs[id], reply).Some?
    ensures Inv(env, Apply(w, id, NextMove(env, w.shared, id, w.calls[id], w.pcs[id], reply).value))
  {
    var call, pc := w.calls[id], w.pcs[id];
    var m := NextMove(env, w.shared, id, call, pc, reply).value;
    assert PcOk(env, w.shared, w.trace, id, call, pc);
    OwnHandlesOk(w, id);
    MoveKeepsRely(env, w.shared, w.calls, id, pc, reply);
    MoveKeepsStored(env, w.shared, w.trace, id, call, pc, reply);
    MoveKeepsPcsOk(env, w, id, reply);
    MoveKeepsLedgerOk(env, w, id, reply);
    MoveKeepsCoverOk(env, w, id, reply);
    MoveEventsOk(env, w.shared, w.trace, id, call, pc, reply);
    MoveKeepsTrace(env, w, id, m);
    MoveKeepsVerdicts(w, id, m);
  }

  lemma OwnHandlesOk(w: World, id: Id)
    requires HandlesOk(w.shared, w.calls) && id in w.calls
    ensures HandlesOk(w.shared, map[id := w.calls[id]])
  {
  }

  lemma StepKeepsInv(env: Env, w: World, a: Action)
    requires Inv(env, w)
    ensures Inv(env, Step(env, w, a))
  {
    match a
    case Tick(elapsed) => TickKeepsInv(env, w, elapsed);
    case Begin(id, call) =>
      if id !in w.calls {
        BeginKeepsInv(env, w, id, call);
      }
    case Advance(id, reply) =>
      if id in w.pcs && NextMove(env, w.shared, id, w.calls[id], w.pcs[id], reply).Some? {
        AdvanceKeepsInv(env, w, id, reply);
      }
  }

  /** Every world a run reaches satisfies the invariant. */
  lemma {:induction false} RunKeepsInv(env: Env, w: World, actions: seq<Action>)
    requires Inv(env, w)
    ensures Inv(env, Run(env, w, actions))
    decreases actions
  {
    if actions != [] {
      StepKeepsInv(env, w, actions[0]);
      RunKeepsInv(env, Step(env, w, actions[0]), actions[1..]);
    }
  }
}
