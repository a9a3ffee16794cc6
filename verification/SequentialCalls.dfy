/**
 `createTransaction`, `load` and `consume` as whole calls, one after the other: at call boundaries the
 ledger and the store agree on what is pending, so a reserved transaction always finds room.
 ServiceRuns shows what interleaving changes.
 */
module SequentialCalls {
  import opened Text
  import opened Domain
  import opened Freshness
  import opened PendingLedger
  import opened MemoryStore
  import opened LazyExpiry
  import opened Flows

  /** A call with the clock readings it makes, in order, and the handles it would draw. */
  datatype Whole =
    | CreateTransaction(t: Transaction, draws: seq<Option<Handle>>, first: Time, second: Time)
    | Load(lib: Library, call: Call, first: Time, second: Time)
    | Consume(h: Handle, first: Time)
  {
    function Last(): Time {
      if Consume? then first else second
    }
  }

  /** `createTransaction`: reserve, create, then commit or cancel. */
  function Creation(lim: Limits, s: System, t: Transaction, draws: seq<Option<Handle>>, first: Time, second: Time): (System, Result<Handle, Error>) {
    var reserved := AfterReserve(s.ledger, lim.quota, t.expiresAt, first);
    if !reserved.1 then (s.(ledger := reserved.0), Err(ErrUpstream))
    else
      var created := AfterCreate(s.data, lim.maxEntries, t, second, draws);
      if created.1.Err? then (System(AfterCancel(reserved.0), created.0), created.1)
      else (System(AfterCommit(reserved.0, created.1.value, t.expiresAt), created.0), created.1)
  }

  /** Releases the handle when the store says that it is spent or expired. */
  function Released(l: Ledger, h: Handle, r: Result<Transaction, Error>): Ledger {
    if r == Err(ErrReplay) || r == Err(ErrExpiredTransaction) then AfterRelease(l, h) else l
  }

  /** `load`: every error but a refused proof of possession is about the transaction, and a dead one is released. */
  ghost function Loading(lib: Library, s: System, call: Call, first: Time, second: Time): (System, Result<Transaction, Error>)
    requires call.Completes()
  {
    var h := call.handle;
    var found := Found(s.data, h, first);
    if h == "" || ByteLen(h) > MAX_HANDLE_BYTES then (s, Err(ErrInvalidTransaction))
    else if found.Err? then (s.(ledger := Released(s.ledger, h, found)), found)
    else if !Complete(call, found.value) then (s, Err(ErrInvalidTransaction))
    else if found.value.expiresAt <= second then (s.(ledger := AfterRelease(s.ledger, h)), Err(ErrExpiredTransaction))
    else if !ValidCSRF(call.CSRF(), found.value.csrfToken) then (s, Err(ErrInvalidCSRF))
    else if !ValidBrowserState(lib, call.BrowserProof(), found.value.browserState) then (s, Err(ErrInvalidBrowserState))
    else (s, found)
  }

  /** `consume`: whatever it finds, the handle is released. */
  ghost function Consuming(s: System, h: Handle, now: Time): (System, Result<Transaction, Error>) {
    var r := AfterConsume(s.data, h, now);
    (System(if r.1.Ok? then AfterRelease(s.ledger, h) else Released(s.ledger, h, r.1), r.0), r.1)
  }

  ghost function After(lim: Limits, s: System, c: Whole): System {
    match c
    case CreateTransaction(t, draws, first, second) => Creation(lim, s, t, draws, first, second).0
    case Load(lib, call, first, second) => if call.Completes() then Loading(lib, s, call, first, second).0 else s
    case Consume(h, now) => Consuming(s, h, now).0
  }

  ghost function AfterAll(lim: Limits, s: System, calls: seq<Whole>): System
    decreases calls
  {
    if calls == [] then s else AfterAll(lim, After(lim, s, calls[0]), calls[1..])
  }

  /** Time passes within a call and from one call to the next. */
  ghost predicate InOrder(start: Time, calls: seq<Whole>)
    decreases calls
  {
    calls != [] ==>
      && start <= calls[0].first
      && (!calls[0].Consume? ==> calls[0].first <= calls[0].second)
      && InOrder(calls[0].Last(), calls[1..])
  }

  /** At time `now` the ledger and the store hold the same live handles, and never disagree about an expiry. */
  ghost predicate Agree(s: System, now: Time) {
    && s.ledger.reserved == 0
    && (forall h :: (h in s.ledger.active && s.ledger.active[h] > now) <==> (h in s.data && s.data[h].expiresAt > now))
    && (forall h :: h in s.ledger.active && h in s.data ==> s.ledger.active[h] == s.data[h].expiresAt)
  }

  lemma {:induction false} DrawsShape(data: Entries, max: int, t: Transaction, now: Time, draws: seq<Option<Handle>>)
    ensures var r := TryDraws(data, max, t, now, draws);
      && (forall h :: h in r.0 && !(r.1.Ok? && h == r.1.value) ==> h in data && r.0[h] == data[h])
      && (forall h :: h in data && data[h].expiresAt > now ==> h in r.0 && r.0[h] == data[h])
      && (r.1.Ok? ==> r.1.value in r.0 && r.0[r.1.value] == t && (r.1.value in data ==> data[r.1.value].expiresAt <= now))
    decreases draws
  {
    if draws != [] && draws[0].Some? {
      var round := AfterCreateLocked(data, max, t, now, draws[0].value);
      if round.2 {
        DrawsShape(round.0, max, t, now, draws[1..]);
      }
    }
  }

  /** `a` is `b` with some entries dropped that had expired by `now`, apart from the key `h`. */
  ghost predicate Thinned<V>(b: map<Handle, V>, a: map<Handle, V>, expiry: V -> Time, now: Time, h: Option<Handle>) {
    && (forall k :: k in a && h != Some(k) ==> k in b && a[k] == b[k])
    && (forall k :: k in b && expiry(b[k]) > now && h != Some(k) ==> k in a)
  }

  lemma ThinningKeepsAgreement(s: System, s': System, start: Time, now: Time, h: Option<Handle>)
    requires Agree(s, start) && start <= now && s'.ledger.reserved == 0
    requires Thinned(s.ledger.active, s'.ledger.active, (e: Time) => e, now, h)
    requires Thinned(s.data, s'.data, (t: Transaction) => t.expiresAt, now, h)
    requires h.Some? ==> h.value in s'.ledger.active && h.value in s'.data && s'.ledger.active[h.value] == s'.data[h.value].expiresAt
    ensures Agree(s', now)
  {
    forall k
      ensures (k in s'.ledger.active && s'.ledger.active[k] > now) <==> (k in s'.data && s'.data[k].expiresAt > now)
    {
      if h != Some(k) {
        assert (k in s.ledger.active && s.ledger.active[k] > start) <==> (k in s.data && s.data[k].expiresAt > start);
      }
    }
  }

  lemma CreationKeepsAgreement(lim: Limits, s: System, t: Transaction, draws: seq<Option<Handle>>, start: Time, first: Time, second: Time)
    requires Agree(s, start) && start <= first <= second
    ensures Agree(After(lim, s, CreateTransaction(t, draws, first, second)), second)
  {
    var s' := Creation(lim, s, t, draws, first, second).0;
    var created := AfterCreate(s.data, lim.maxEntries, t, second, draws);
    DrawsShape(s.data, lim.maxEntries, t, second, draws);
    var reserved := AfterReserve(s.ledger, lim.quota, t.expiresAt, first);
    var h: Option<Handle> := if reserved.1 && created.1.Ok? then Some(created.1.value) else None;
    ThinningKeepsAgreement(s, s', start, second, h);
  }

  lemma CallKeepsAgreement(lim: Limits, s: System, start: Time, c: Whole)
    requires Agree(s, start) && start <= c.first && (!c.Consume? ==> c.first <= c.second)
    ensures Agree(After(lim, s, c), c.Last())
  {
    match c
    case CreateTransaction(t, draws, first, second) => CreationKeepsAgreement(lim, s, t, draws, start, first, second);
    case Load(_, _, _, _) =>
    case Consume(h, now) =>
  }

  /** After any sequence of calls the unexpired keys of the ledger are exactly the live keys of the store. */
  lemma {:induction false} LedgerAndStoreAgree(lim: Limits, s: System, start: Time, calls: seq<Whole>)
    requires Agree(s, start) && InOrder(start, calls)
    ensures var end := if calls == [] then start else calls[|calls| - 1].Last();
      var s' := AfterAll(lim, s, calls);
      Agree(s', end) && Unexpired(s'.ledger.active, end).Keys == Live(s'.data, end).Keys
    decreases calls
  {
    if calls != [] {
      CallKeepsAgreement(lim, s, start, calls[0]);
      LedgerAndStoreAgree(lim, After(lim, s, calls[0]), calls[0].Last(), calls[1..]);
    } else {
      assert forall h :: h in Unexpired(s.ledger.active, start) <==> h in Live(s.data, start);
    }
  }

  /**
   With a quota the store can hold, once `reserve` has succeeded the store is not full after the sweep it
   may do, so a transaction that has not expired is stored under the first drawn handle that is free.
   */
  lemma ReservedFindsRoom(lim: Limits, s: System, start: Time, t: Transaction, draws: seq<Option<Handle>>, first: Time, second: Time)
    requires Agree(s, start) && start <= first <= second && lim.quota <= lim.maxEntries
    requires AfterReserve(s.ledger, lim.quota, t.expiresAt, first).1
    ensures |Swept(s.data, lim.maxEntries, second)| < lim.maxEntries
    ensures Creatable(t, second) && draws != [] && draws[0].Some? && draws[0].value !in s.data ==>
      Creation(lim, s, t, draws, first, second).1 == Ok(draws[0].value)
  {
    var live := Live(s.data, second);
    forall h | h in live
      ensures h in s.ledger.active && s.ledger.active[h] > first
    {
    }
    DropShrinks(s, first);
    assert live.Keys <= Unexpired(s.ledger.active, first).Keys;
    SubsetSize(live.Keys, Unexpired(s.ledger.active, first).Keys);
    assert |Unexpired(s.ledger.active, first)| < lim.quota;
    assert Swept(s.data, lim.maxEntries, second).Keys <= s.data.Keys;
  }
}
