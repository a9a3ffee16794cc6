/**
 `Create` reads the clock before it takes the lock, and that matters. With a quota of one a reserved request
 always finds room in the store; with any larger quota that the store can hold, a reserved request whose
 reading has grown old can find the store full.
 */
module StaleReadings {
  import opened Text
  import opened Domain
  import opened Freshness
  import opened Configuration
  import opened PendingLedger
  import opened MemoryStore
  import opened LazyExpiry
  import opened Flows
  import opened SequentialCalls
  import opened ServiceRuns
  import opened ServiceTrace
  import opened ServiceSafety
  import opened ServiceTheorems
  import opened Service
  import opened ServiceSteps
  import opened ServiceRefinement
  import opened StoreRoom
  import opened SmallProvider

  // ---------------------------------------------------------------- creations that succeed

  /** What a creation at one reading leaves, when the ledger and the store have room. */
  lemma RoomyCreation(lim: Limits, g: Setting, s: System, now: Time, h: Handle)
    requires !Full(s.ledger, lim.quota) || !Full(s.ledger.(active := Unexpired(s.ledger.active, now)), lim.quota)
    requires |s.data| < lim.maxEntries && h !in s.data && now + 10 != ZERO_TIME
    ensures var active := if Full(s.ledger, lim.quota) then Unexpired(s.ledger.active, now) else s.ledger.active;
      Creation(lim, s, SmallTransaction(g, now), [Some(h), None, None], now, now).0 ==
        System(Ledger(s.ledger.reserved, active[h := now + 10]), s.data[h := SmallTransaction(g, now)])
  {
  }

  lemma OneMoreEntry<V>(m: map<Handle, V>, h: Handle, v: V)
    requires h !in m
    ensures |m[h := v]| == |m| + 1
  {
    assert m[h := v].Keys == m.Keys + {h};
  }

  /** One logout started at one go. */
  lemma ServedSmall(env: Env, g: Setting, before: World, id: Id, now: Time, h: Handle) returns (w: World)
    requires env == SmallEnv(g) && Reachable(env, before) && id !in before.calls
    requires before.shared.clock <= now && h !in before.shared.mentioned
    ensures Reachable(env, w) && w.calls == before.calls[id := SmallCall()] && w.pcs == before.pcs && w.shared.clock == now
    ensures SystemOf(w.shared) ==
      Creation(LimitsOf(env), SystemOf(before.shared), SmallTransaction(g, now), [Some(h), None, None], now, now).0
  {
    w := ServedIsRun(env, before, id, SmallCall(), SmallOutside(g, now, h));
    SmallServed(env, g, SystemOf(before.shared), id, now, h);
  }

  lemma NewHandle(env: Env, w: World) returns (h: Handle)
    requires Reachable(env, w)
    ensures h !in w.shared.mentioned && h !in w.shared.data
  {
    ReachableInv(env, w);
    h := FreshHandle(w.shared.mentioned);
  }

  // ---------------------------------------------------------------- a batch at time 1

  /** n logouts have been started at time 1, and nothing else. */
  ghost predicate Batch(env: Env, w: World, n: nat) {
    && Reachable(env, w) && w.pcs == map[] && w.shared.clock <= 1
    && (forall id :: id in w.calls ==> id < n)
    && BatchState(SystemOf(w.shared), n)
  }

  ghost predicate BatchState(s: System, n: nat) {
    && s.ledger.reserved == 0 && |s.ledger.active| == n && |s.data| == n
    && (forall h :: h in s.ledger.active ==> s.ledger.active[h] == 11 && h in s.data)
    && (forall h :: h in s.data ==> s.data[h].expiresAt == 11)
  }

  lemma BatchGrows(lim: Limits, g: Setting, s: System, n: nat, h: Handle)
    requires BatchState(s, n) && n < lim.quota <= lim.maxEntries && h !in s.data
    ensures BatchState(Creation(lim, s, SmallTransaction(g, 1), [Some(h), None, None], 1, 1).0, n + 1)
  {
    RoomyCreation(lim, g, s, 1, h);
    OneMoreEntry(s.ledger.active, h, 11);
    OneMoreEntry(s.data, h, SmallTransaction(g, 1));
  }

  lemma {:induction false} BatchServed(env: Env, g: Setting, n: nat) returns (w: World)
    requires env == SmallEnv(g) && n < g.quota <= EffectiveMax(g.maxEntries)
    ensures Batch(env, w, n)
    decreases n
  {
    if n == 0 {
      w := Initial(0);
      assert w == Run(env, Initial(0), []);
    } else {
      var before := BatchServed(env, g, n - 1);
      w := BatchOneMore(env, g, before, n - 1);
    }
  }

  lemma BatchOneMore(env: Env, g: Setting, before: World, n: nat) returns (w: World)
    requires env == SmallEnv(g) && n < g.quota <= EffectiveMax(g.maxEntries)
    requires Batch(env, before, n)
    ensures Batch(env, w, n + 1)
  {
    var h := NewHandle(env, before);
    w := ServedSmall(env, g, before, n, 1, h);
    BatchGrows(LimitsOf(env), g, SystemOf(before.shared), n, h);
  }

  // ---------------------------------------------------------------- a request that pauses at time 6

  /** A start with its tokens, a reservation to be had and time left goes on to read the clock in `Create`. */
  lemma ReservesAndReads(env: Env, id: Id, call: Call, r: Local -> bool, l: Local, t: Transaction) returns (l': Local)
    requires Closed(env, id, call, r) && r(l) && !call.Completes() && l.pc == Some(AwaitReserve(t))
    requires AfterReserve(l.shared.ledger, Quota(env), t.expiresAt, l.shared.clock).1 && Creatable(t, l.shared.clock)
    ensures r(l') && l'.pc == Some(AwaitCreateLock(t, l.shared.clock))
    ensures l'.shared == l.shared.(ledger := AfterReserve(l.shared.ledger, Quota(env), t.expiresAt, l.shared.clock).0)
  {
    l' := Stepped(env, id, call, l, NoReply);
    assert l'.pc == Some(AwaitReserveLock(t, l.shared.clock)) && l'.shared == l.shared;
    l' := Stepped(env, id, call, l', NoReply);
    assert l'.pc == Some(AwaitCreate(t));
    l' := Stepped(env, id, call, l', NoReply);
  }

  lemma TakesTokens(env: Env, id: Id, call: Call, r: Local -> bool, l: Local, t: Transaction, browser: string, csrf: string) returns (l': Local)
    requires Closed(env, id, call, r) && r(l) && !call.Completes() && l.pc == Some(AwaitTokens(t)) && call.browser == ""
    ensures r(l') && l'.pc == Some(AwaitReserve(t.(browserState := browser, csrfToken := csrf))) && l'.shared == l.shared
  {
    l' := Stepped(env, id, call, l, Tokens(Some(browser), Some(csrf)));
  }

  lemma RequestAnswered(env: Env, g: Setting, id: Id, l: Local)
    requires env == SmallEnv(g) && l.pc == Some(AwaitRequest) && l.events == []
    ensures var l' := Stepped(env, id, SmallCall(), l, LogoutReply(Ok(SmallRequest(g))));
      && l'.shared == l.shared
      && l'.pc == Some(AwaitTokens(SmallTransaction(g, l.shared.clock).(browserState := "", csrfToken := "")))
  {
    SmallPlan(env, g);
    LogoutRequestStep(env, id, SmallCall(), l, Ok(SmallRequest(g)), OnLogoutRequest(env, l.shared, id, "x", SmallRequest(g)));
  }

  lemma StartsToReserve(env: Env, g: Setting, id: Id, r: Local -> bool, l: Local) returns (l': Local)
    requires env == SmallEnv(g) && Closed(env, id, SmallCall(), r) && r(l)
    requires l.pc == FirstPc(env, SmallCall()) && l.events == [] && l.shared.clock <= 6
    ensures r(l') && l'.pc == Some(AwaitReserve(SmallTransaction(g, 6))) && l'.shared == l.shared.(clock := 6)
  {
    SmallPlan(env, g);
    l' := Waited(l, 6);
    RequestAnswered(env, g, id, l');
    l' := Stepped(env, id, SmallCall(), l', LogoutReply(Ok(SmallRequest(g))));
    l' := TakesTokens(env, id, SmallCall(), r, l', SmallTransaction(g, 6).(browserState := "", csrfToken := ""), g.browser, g.csrf);
  }

  lemma Pauses(env: Env, g: Setting, w: World, x: Id) returns (w': World)
    requires env == SmallEnv(g) && x < g.quota && Batch(env, w, x)
    ensures Reachable(env, w') && w'.calls == w.calls[x := SmallCall()] && w'.shared.clock == 6
    ensures w'.shared == w.shared.(clock := 6, ledger := w.shared.ledger.(reserved := 1))
    ensures w'.pcs == map[x := AwaitCreateLock(SmallTransaction(g, 6), 6)]
  {
    var call := SmallCall();
    var r := (l: Local) => Visits(env, w, x, call, l);
    VisitsIsClosed(env, w, x, call, r);
    VisitsBegins(env, w, x, call);
    var l := StartsToReserve(env, g, x, r, Begun(env, w.shared, call));
    l := ReservesAndReads(env, x, call, r, l, SmallTransaction(g, 6));
    VisitIsReachable(env, w, x, call, l);
    w' := Put(w, x, call, l);
  }

  // ---------------------------------------------------------------- others fill the store

  /** The request x still holds its old reading; n entries are stored, all after it, and gone by `bound`. */
  ghost predicate Filling(env: Env, g: Setting, w: World, x: Id, next: Id, n: nat, bound: Time) {
    && Reachable(env, w) && w.pcs == map[x := AwaitCreateLock(SmallTransaction(g, 6), 6)]
    && 6 <= w.shared.clock <= bound && 11 <= bound
    && (forall id :: id in w.calls ==> id < next)
    && FillState(SystemOf(w.shared), n, bound)
  }

  ghost predicate FillState(s: System, n: nat, bound: Time) {
    && s.ledger.reserved == 1 && |s.data| == n
    && (forall h :: h in s.ledger.active ==> s.ledger.active[h] <= bound)
    && (forall h :: h in s.data ==> 11 <= s.data[h].expiresAt <= bound)
  }

  lemma FillGrows(lim: Limits, g: Setting, s: System, n: nat, bound: Time, h: Handle)
    requires FillState(s, n, bound) && 2 <= lim.quota && n < lim.maxEntries && 11 <= bound && h !in s.data
    ensures var s' := Creation(lim, s, SmallTransaction(g, bound + 1), [Some(h), None, None], bound + 1, bound + 1).0;
      FillState(s', n + 1, bound + 11) && |Live(s'.data, bound + 1)| == 1
  {
    var now := bound + 1;
    assert Unexpired(s.ledger.active, now) == map[];
    RoomyCreation(lim, g, s, now, h);
    OneMoreEntry(s.data, h, SmallTransaction(g, now));
    OnlyNewLives(s.data, now, h, SmallTransaction(g, now));
  }

  lemma OnlyNewLives(data: Entries, now: Time, h: Handle, t: Transaction)
    requires t.expiresAt > now && forall k :: k in data ==> data[k].expiresAt <= now
    ensures |Live(data[h := t], now)| == 1
  {
    assert Live(data[h := t], now) == map[h := t];
  }

  lemma FillOneMore(env: Env, g: Setting, before: World, x: Id, next: Id, n: nat, bound: Time) returns (w: World)
    requires env == SmallEnv(g) && 2 <= g.quota && n < EffectiveMax(g.maxEntries)
    requires Filling(env, g, before, x, next, n, bound)
    ensures Filling(env, g, w, x, next + 1, n + 1, bound + 11)
    ensures w.shared.clock == bound + 1 && |Live(w.shared.data, w.shared.clock)| == 1
  {
    var h := NewHandle(env, before);
    w := ServedSmall(env, g, before, next, bound + 1, h);
    FillGrows(LimitsOf(env), g, SystemOf(before.shared), n, bound, h);
  }

  lemma {:induction false} Fills(env: Env, g: Setting, before: World, x: Id, next: Id, n: nat, bound: Time)
    returns (w: World, last: Time)
    requires env == SmallEnv(g) && 2 <= g.quota && n < EffectiveMax(g.maxEntries)
    requires Filling(env, g, before, x, next, n, bound)
    ensures exists k :: Filling(env, g, w, x, k, EffectiveMax(g.maxEntries), last)
    ensures |Live(w.shared.data, w.shared.clock)| == 1 && bound < w.shared.clock
    ensures n + 1 == EffectiveMax(g.maxEntries) ==> w.shared.clock == bound + 1
    decreases EffectiveMax(g.maxEntries) - n
  {
    w := FillOneMore(env, g, before, x, next, n, bound);
    last := bound + 11;
    if n + 1 < EffectiveMax(g.maxEntries) {
      w, last := Fills(env, g, w, x, next + 1, n + 1, last);
    }
  }

  // ---------------------------------------------------------------- main results

  lemma FullStoreRefuses(env: Env, s: Shared, id: Id, t: Transaction, now: Time, h: Handle)
    requires h !in s.mentioned && |s.data| == Capacity(env) && forall k :: k in s.data ==> s.data[k].expiresAt > now
    ensures var m := OnCreateLock(env, s, id, t, now, Some(h)); m.Some? && m.value.next == Some(AwaitCancel)
  {
    assert Live(s.data, now) == s.data;
  }

  /** A run that fills the store while the last request the quota admits holds its old reading. */
  lemma FillsBehindPaused(env: Env, g: Setting) returns (w: World, id: Id)
    requires env == SmallEnv(g) && 2 <= g.quota <= EffectiveMax(g.maxEntries)
    ensures Reachable(env, w) && w.pcs == map[id := AwaitCreateLock(SmallTransaction(g, 6), 6)] && 6 < w.shared.clock
    ensures |w.shared.data| == EffectiveMax(g.maxEntries) && forall k :: k in w.shared.data ==> w.shared.data[k].expiresAt > 6
    ensures |Live(w.shared.data, w.shared.clock)| == 1
    ensures g.quota == EffectiveMax(g.maxEntries) ==> w.shared.clock < 16
  {
    id := g.quota - 1;
    var batch := BatchServed(env, g, id);
    var paused := Pauses(env, g, batch, id);
    assert Filling(env, g, paused, id, id + 1, id, 11);
    var last;
    w, last := Fills(env, g, paused, id, id + 1, id, 11);
  }

  /**
   For every quota of two or more and every store that can hold it, the default sizes included, there is a
   valid configuration and a run in which a reserved request with an old reading finds the store full,
   although only one transaction in it is still alive. If the quota is the size of the store, that happens
   while the request's own transaction is still alive.
   */
  lemma StaleReadingFindsStoreFull(g: Setting)
    returns (env: Env, w: World, id: Id, t: Transaction, now: Time, h: Handle)
    requires Realistic(g) && 2 <= g.quota <= EffectiveMax(g.maxEntries)
    ensures ValidConfig(env.lib, env.cfg) && env.lib == g.lib && env.maxEntries == g.maxEntries && Quota(env) == g.quota <= Capacity(env)
    ensures Reachable(env, w) && id in w.pcs && w.pcs[id] == AwaitCreateLock(t, now) && now < w.shared.clock && h !in w.shared.mentioned
    ensures |Live(w.shared.data, w.shared.clock)| == 1
    ensures var m := OnCreateLock(env, w.shared, id, t, now, Some(h)); m.Some? && m.value.next == Some(AwaitCancel)
    ensures g.quota == Capacity(env) ==> w.shared.clock < t.expiresAt
  {
    env, t, now := SmallEnv(g), SmallTransaction(g, 6), 6;
    SmallIsValid(g);
    w, id := FillsBehindPaused(env, g);
    h := FreshHandle(w.shared.mentioned);
    FullStoreRefuses(env, w.shared, id, t, now, h);
  }

  // ---------------------------------------------------------------- a quota of one

  /** With a quota of one, whoever is about to store finds only what had expired by its reading. */
  ghost predicate AloneOk(w: World) {
    forall id :: id in w.pcs && w.pcs[id].AwaitCreateLock? ==> AllGone(w.shared.data, w.pcs[id].now)
  }

  ghost predicate AllGone(data: Entries, now: Time) {
    forall h :: h in data ==> data[h].expiresAt <= now
  }

  lemma OneHolder(env: Env, w: World, i: Id, j: Id)
    requires LedgerOk(env, w) && Quota(env) == 1
    requires i in w.pcs && Holding(w.pcs[i]) && j in w.pcs && Holding(w.pcs[j])
    ensures i == j && w.shared.ledger.active == map[]
  {
    if i != j {
      SubsetSize({i, j}, Holders(w.pcs));
    } else {
      SubsetSize({i}, Holders(w.pcs));
    }
  }

  lemma NothingLive(env: Env, w: World, id: Id)
    requires Inv(env, w) && Quota(env) == 1 && id in w.pcs && w.pcs[id].AwaitCreate?
    ensures AllGone(w.shared.data, w.shared.clock)
  {
    OneHolder(env, w, id, id);
    forall h | h in w.shared.data
      ensures w.shared.data[h].expiresAt <= w.shared.clock
    {
      if w.shared.data[h].expiresAt > w.shared.clock {
        assert Covered(w.shared, w.pcs, h);
        var k :| k in w.pcs && w.pcs[k] == AwaitCommit(w.shared.data[h], h);
        OneHolder(env, w, id, k);
        assert false;
      }
    }
  }

  /** Only the request under the store's lock adds to the store, and a sweep or a consumption only takes away. */
  lemma OnlyCreateAdds(env: Env, s: Shared, id: Id, call: Call, pc: Pc, reply: Reply)
    requires NextMove(env, s, id, call, pc, reply).Some?
    requires call.Completes() || !pc.AwaitCreateLock? || NextMove(env, s, id, call, pc, reply).value.next == Some(pc)
    ensures var data := NextMove(env, s, id, call, pc, reply).value.shared.data;
      forall h :: h in data ==> h in s.data && data[h] == s.data[h]
  {
    if call.Completes() || !pc.AwaitCreateLock? {
      LedgerOrConsume(env, s, id, call, pc, reply);
    }
  }

  /** A request comes under the store's lock from its clock reading, or stays there for another draw. */
  lemma ComesToLock(env: Env, s: Shared, id: Id, call: Call, pc: Pc, reply: Reply)
    requires NextMove(env, s, id, call, pc, reply).Some?
    requires NextMove(env, s, id, call, pc, reply).value.next.Some? && NextMove(env, s, id, call, pc, reply).value.next.value.AwaitCreateLock?
    ensures var m := NextMove(env, s, id, call, pc, reply).value;
      || m.next == Some(pc)
      || (pc.AwaitCreate? && m.next.value.now == s.clock && m.shared.data == s.data)
  {
    if !call.Completes() && pc.AwaitRequest? {
      RequestsDoNotCreate(env, s, id, call, reply);
    }
  }

  lemma RequestsDoNotCreate(env: Env, s: Shared, id: Id, call: Call, reply: Reply)
    requires !call.Completes() && StartMove(env, s, id, call, AwaitRequest, reply).Some?
    ensures var next := StartMove(env, s, id, call, AwaitRequest, reply).value.next; next.Some? ==> !next.value.AwaitCreateLock?
  {
  }

  lemma AdvanceKeepsAlone(env: Env, w: World, id: Id, reply: Reply)
    requires Inv(env, w) && AloneOk(w) && Quota(env) == 1
    requires id in w.pcs && NextMove(env, w.shared, id, w.calls[id], w.pcs[id], reply).Some?
    ensures AloneOk(Apply(w, id, NextMove(env, w.shared, id, w.calls[id], w.pcs[id], reply).value))
  {
    var call, pc := w.calls[id], w.pcs[id];
    var m := NextMove(env, w.shared, id, call, pc, reply).value;
    var w' := Apply(w, id, m);
    forall k | k in w'.pcs && w'.pcs[k].AwaitCreateLock?
      ensures AllGone(w'.shared.data, w'.pcs[k].now)
    {
      if k != id {
        if Holding(pc) {
          OneHolder(env, w, id, k);
        }
        OnlyCreateAdds(env, w.shared, id, call, pc, reply);
      } else {
        ComesToLock(env, w.shared, id, call, pc, reply);
        if m.next == Some(pc) {
          OnlyCreateAdds(env, w.shared, id, call, pc, reply);
        } else {
          NothingLive(env, w, id);
        }
      }
    }
  }

  lemma BeginKeepsAlone(env: Env, w: World, id: Id, call: Call)
    requires AloneOk(w) && id !in w.calls
    ensures AloneOk(World(Naming(w.shared, call), w.calls[id := call], Placed(w.pcs, id, FirstPc(env, call)), w.trace))
  {
  }

  lemma StepKeepsAlone(env: Env, w: World, a: Action)
    requires Inv(env, w) && AloneOk(w) && Quota(env) == 1
    ensures AloneOk(Step(env, w, a))
  {
    if a.Begin? {
      if a.id !in w.calls {
        BeginKeepsAlone(env, w, a.id, a.call);
      }
    } else if a.Advance? && a.id in w.pcs && NextMove(env, w.shared, a.id, w.calls[a.id], w.pcs[a.id], a.reply).Some? {
      AdvanceKeepsAlone(env, w, a.id, a.reply);
    }
  }

  lemma {:induction false} RunKeepsAlone(env: Env, w: World, actions: seq<Action>)
    requires Inv(env, w) && AloneOk(w) && Quota(env) == 1
    ensures AloneOk(Run(env, w, actions))
    decreases actions
  {
    if actions != [] {
      StepKeepsInv(env, w, actions[0]);
      StepKeepsAlone(env, w, actions[0]);
      RunKeepsAlone(env, Step(env, w, actions[0]), actions[1..]);
    }
  }

  /** With a quota of one no reading is too old: a reserved request always stores under the handle it draws. */
  lemma QuotaOneFindsRoom(env: Env, w: World, id: Id, t: Transaction, now: Time, h: Handle)
    requires Reachable(env, w) && Quota(env) == 1
    requires id in w.pcs && w.pcs[id] == AwaitCreateLock(t, now) && h !in w.shared.mentioned
    ensures var m := OnCreateLock(env, w.shared, id, t, now, Some(h)); m.Some? && m.value.next == Some(AwaitCommit(t, h))
  {
    var clock, actions :| w == Run(env, Initial(clock), actions);
    InitialInv(env, clock);
    RunKeepsInv(env, Initial(clock), actions);
    RunKeepsAlone(env, Initial(clock), actions);
    EmptyLockStores(env, w.shared, id, t, now, h);
  }

  lemma EmptyLockStores(env: Env, s: Shared, id: Id, t: Transaction, now: Time, h: Handle)
    requires s.data.Keys <= s.mentioned && h !in s.mentioned && AllGone(s.data, now)
    ensures var m := OnCreateLock(env, s, id, t, now, Some(h)); m.Some? && m.value.next == Some(AwaitCommit(t, h))
  {
    assert Live(s.data, now) == map[];
  }

  /** Whatever its clock reading, a request under the store's lock stores under the new handle it draws. */
  ghost predicate AlwaysRoom(env: Env) {
    forall w, id, t, now, h ::
      Reachable(env, w) && id in w.pcs && w.pcs[id] == AwaitCreateLock(t, now) && h !in w.shared.mentioned ==>
        Stores(env, w, id, t, now, h)
  }

  ghost predicate Stores(env: Env, w: World, id: Id, t: Transaction, now: Time, h: Handle) {
    var m := OnCreateLock(env, w.shared, id, t, now, Some(h));
    m.Some? && m.value.next == Some(AwaitCommit(t, h))
  }

  /**
   Which sizes make the capacity error of the store unreachable for a reserved request in every run of every
   valid configuration, with a quota the store can hold: exactly a quota of one, whatever else the setting is.
   */
  lemma RoomForEveryReadingExactly(g: Setting)
    requires Realistic(g) && g.quota <= EffectiveMax(g.maxEntries)
    ensures g.quota == 1 <==>
      (forall env: Env ::
         ValidConfig(env.lib, env.cfg) && env.lib == g.lib && Quota(env) == g.quota && env.maxEntries == g.maxEntries ==> AlwaysRoom(env))
  {
    if g.quota == 1 {
      forall env, w, id, t, now, h |
        && Quota(env) == 1 && Reachable(env, w) && id in w.pcs && w.pcs[id] == AwaitCreateLock(t, now)
        && h !in w.shared.mentioned
        ensures Stores(env, w, id, t, now, h)
      {
        QuotaOneFindsRoom(env, w, id, t, now, h);
      }
    } else {
      var env, w, id, t, now, h := StaleReadingFindsStoreFull(g);
      assert !Stores(env, w, id, t, now, h);
      assert !AlwaysRoom(env);
    }
  }
}
