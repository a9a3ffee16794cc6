/** When a reserved request finds room in the store, under any interleaving. */
module StoreRoom {
  import opened Text
  import opened Domain
  import opened Freshness
  import opened PendingLedger
  import opened MemoryStore
  import opened Flows
  import opened ServiceRuns
  import opened ServiceTrace
  import opened ServiceTheorems

  // ---------------------------------------------------------------- the store stays bounded

  lemma LockKeepsBound(data: Entries, max: int, t: Transaction, now: Time, h: Handle)
    requires |data| <= max
    ensures |AfterCreateLocked(data, max, t, now, h).0| <= max
  {
    SubsetSize(Live(data, now).Keys, data.Keys);
  }

  lemma MoveKeepsBound(env: Env, s: Shared, id: Id, call: Call, pc: Pc, reply: Reply)
    requires NextMove(env, s, id, call, pc, reply).Some? && |s.data| <= Capacity(env)
    ensures |NextMove(env, s, id, call, pc, reply).value.shared.data| <= Capacity(env)
  {
    var s' := NextMove(env, s, id, call, pc, reply).value.shared;
    if !call.Completes() && pc.AwaitCreateLock? {
      if reply.h.Some? {
        LockKeepsBound(s.data, Capacity(env), pc.t, pc.now, reply.h.value);
      }
    } else {
      LedgerOrConsume(env, s, id, call, pc, reply);
      SubsetSize(s'.data.Keys, s.data.Keys);
    }
  }

  lemma {:induction false} RunKeepsBound(env: Env, w: World, actions: seq<Action>)
    requires |w.shared.data| <= Capacity(env)
    ensures |Run(env, w, actions).shared.data| <= Capacity(env)
    decreases actions
  {
    if actions != [] {
      StepKeepsBound(env, w, actions[0]);
      RunKeepsBound(env, Step(env, w, actions[0]), actions[1..]);
    }
  }

  lemma StepKeepsBound(env: Env, w: World, a: Action)
    requires |w.shared.data| <= Capacity(env)
    ensures |Step(env, w, a).shared.data| <= Capacity(env)
  {
    if a.Advance? && a.id in w.pcs && a.id in w.calls && NextMove(env, w.shared, a.id, w.calls[a.id], w.pcs[a.id], a.reply).Some? {
      MoveKeepsBound(env, w.shared, a.id, w.calls[a.id], w.pcs[a.id], a.reply);
    }
  }

  /** The store never holds more than its limit, expired entries included. */
  lemma StoreIsBounded(env: Env, w: World)
    requires Reachable(env, w)
    ensures |w.shared.data| <= Capacity(env)
  {
    var clock, actions :| w == Run(env, Initial(clock), actions);
    RunKeepsBound(env, Initial(clock), actions);
  }

  // ---------------------------------------------------------------- exactly when there is room

  lemma SweepMakesRoom(data: Entries, max: int, now: Time)
    requires |data| <= max
    ensures |Swept(data, max, now)| < max <==> |data| < max || exists k :: k in data && data[k].expiresAt <= now
  {
    var live := Live(data, now);
    if k :| k in data && data[k].expiresAt <= now {
      SubsetSize(live.Keys, data.Keys - {k});
    } else {
      assert live == data;
    }
  }

  /**
   With a new handle, a request under the store's lock with a clock reading `now` stores its transaction
   exactly when the store is not full or holds an entry that had expired by `now`.
   */
  lemma FindsRoomIff(env: Env, w: World, id: Id, t: Transaction, now: Time, h: Handle)
    requires Reachable(env, w)
    requires id in w.pcs && w.pcs[id] == AwaitCreateLock(t, now) && h !in w.shared.mentioned
    ensures var m := OnCreateLock(env, w.shared, id, t, now, Some(h));
      && m.Some?
      && (m.value.next == Some(AwaitCommit(t, h)) <==>
          |w.shared.data| < Capacity(env) || exists k :: k in w.shared.data && w.shared.data[k].expiresAt <= now)
  {
    ReachableInv(env, w);
    StoreIsBounded(env, w);
    LockStoresIff(env, w.shared, id, t, now, h);
  }

  lemma LockStoresIff(env: Env, s: Shared, id: Id, t: Transaction, now: Time, h: Handle)
    requires s.data.Keys <= s.mentioned && |s.data| <= Capacity(env) && h !in s.mentioned
    ensures var m := OnCreateLock(env, s, id, t, now, Some(h));
      && m.Some?
      && (m.value.next == Some(AwaitCommit(t, h)) <==>
          |s.data| < Capacity(env) || exists k :: k in s.data && s.data[k].expiresAt <= now)
  {
    SweepMakesRoom(s.data, Capacity(env), now);
    assert Swept(s.data, Capacity(env), now).Keys <= s.data.Keys;
  }

  // ---------------------------------------------------------------- new handles

  /** There is always a handle that no request has named. */
  lemma {:induction false} FreshHandle(taken: set<Handle>) returns (h: Handle)
    ensures h !in taken
    ensures forall k :: k in taken ==> |k| < |h|
    decreases taken
  {
    if taken == {} {
      h := "h";
    } else {
      var k :| k in taken;
      var longer := FreshHandle(taken - {k});
      h := k + longer + "h";
    }
  }
}
