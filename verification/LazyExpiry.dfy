/**
 Lazy expiry refines eager expiry. The ledger and the store drop expired entries only when they run
 full; here they run side by side with a ledger and a store that drop every entry the moment it expires.
 */
module LazyExpiry {
  import opened Text
  import opened Domain
  import opened Freshness
  import opened PendingLedger
  import opened MemoryStore

  datatype Limits = Limits(quota: int, maxEntries: int)

  datatype System = System(ledger: Ledger, data: Entries)

  datatype Op =
    | Reserve(expiresAt: Time)
    | Commit(h: Handle, expiresAt: Time)
    | Cancel
    | Release(h: Handle)
    | Create(t: Transaction, draws: seq<Option<Handle>>)
    | Get(h: Handle)
    | Consume(h: Handle)

  datatype Outcome = Nothing | Admitted(ok: bool) | Created(handle: Result<Handle, Error>) | Read(t: Result<Transaction, Error>)

  function Lazy(lim: Limits, s: System, op: Op, now: Time): (System, Outcome) {
    match op
    case Reserve(e) => var r := AfterReserve(s.ledger, lim.quota, e, now); (s.(ledger := r.0), Admitted(r.1))
    case Commit(h, e) => (s.(ledger := AfterCommit(s.ledger, h, e)), Nothing)
    case Cancel => (s.(ledger := AfterCancel(s.ledger)), Nothing)
    case Release(h) => (s.(ledger := AfterRelease(s.ledger, h)), Nothing)
    case Create(t, draws) => var r := AfterCreate(s.data, lim.maxEntries, t, now, draws); (s.(data := r.0), Created(r.1))
    case Get(h) => (s, Read(Found(s.data, h, now)))
    case Consume(h) => var r := AfterConsume(s.data, h, now); (s.(data := r.0), Read(r.1))
  }

  // ---------------------------------------------------------------- the eager reference

  function Drop(s: System, now: Time): System {
    System(s.ledger.(active := Unexpired(s.ledger.active, now)), Live(s.data, now))
  }

  function EagerDraws(data: Entries, max: int, t: Transaction, draws: seq<Option<Handle>>): (Entries, Result<Handle, Error>)
    decreases draws
  {
    if draws == [] then (data, Err(ErrUpstream))
    else if draws[0].None? then (data, Err(ErrRandom))
    else if |data| >= max then (data, Err(ErrUpstream))
    else if draws[0].value in data then EagerDraws(data, max, t, draws[1..])
    else (data[draws[0].value := t], Ok(draws[0].value))
  }

  /** Every operation first forgets what has expired, and never sweeps. */
  function Eager(lim: Limits, before: System, op: Op, now: Time): (System, Outcome) {
    var s := Drop(before, now);
    match op
    case Reserve(e) =>
      if e > now && !Full(s.ledger, lim.quota)
      then (s.(ledger := s.ledger.(reserved := s.ledger.reserved + 1)), Admitted(true))
      else (s, Admitted(false))
    case Commit(h, e) => (s.(ledger := AfterCommit(s.ledger, h, e)), Nothing)
    case Cancel => (s.(ledger := AfterCancel(s.ledger)), Nothing)
    case Release(h) => (s.(ledger := AfterRelease(s.ledger, h)), Nothing)
    case Create(t, draws) =>
      if !Creatable(t, now) then (s, Created(Err(ErrExpiredTransaction)))
      else var r := EagerDraws(s.data, lim.maxEntries, t, draws); (s.(data := r.0), Created(r.1))
    case Get(h) => (s, Read(Found(s.data, h, now)))
    case Consume(h) => var r := AfterConsume(s.data, h, now); (s.(data := r.0), Read(r.1))
  }

  /** The outcomes a caller may see differ: an expired transaction looks replayed to the eager store. */
  predicate SameOutcome(lazy: Outcome, eager: Outcome) {
    || lazy == eager
    || (lazy == Read(Err(ErrExpiredTransaction)) && eager == Read(Err(ErrReplay)))
  }

  /** The first draw that no live entry holds hits the leftover of an expired one. */
  predicate StaleHit(data: Entries, draws: seq<Option<Handle>>, now: Time) {
    && draws != [] && draws[0].Some? && draws[0].value in data
    && (data[draws[0].value].expiresAt <= now || StaleHit(data, draws[1..], now))
  }

  /** `Create` retries because of an entry that no longer counts. With new handles it never does. */
  predicate Disturbed(lim: Limits, s: System, op: Op, now: Time) {
    op.Create? && Creatable(op.t, now) && |s.data| < lim.maxEntries && StaleHit(s.data, op.draws, now)
  }

  // ---------------------------------------------------------------- one operation

  lemma DropTwice(s: System, now: Time, later: Time)
    requires now <= later
    ensures Drop(Drop(s, now), later) == Drop(s, later)
  {
  }

  lemma DropShrinks(s: System, now: Time)
    ensures |Unexpired(s.ledger.active, now)| <= |s.ledger.active|
    ensures |Live(s.data, now)| <= |s.data|
  {
    assert Unexpired(s.ledger.active, now).Keys <= s.ledger.active.Keys;
    SubsetSize(Unexpired(s.ledger.active, now).Keys, s.ledger.active.Keys);
    assert Live(s.data, now).Keys <= s.data.Keys;
    SubsetSize(Live(s.data, now).Keys, s.data.Keys);
  }

  /** Once the store has been swept, or when nothing in it has expired, the two ways of drawing agree. */
  lemma {:induction false} LiveDrawsAgree(data: Entries, max: int, t: Transaction, now: Time, draws: seq<Option<Handle>>)
    requires Live(data, now) == data
    ensures TryDraws(data, max, t, now, draws) == EagerDraws(data, max, t, draws)
    decreases draws
  {
    if draws != [] {
      LiveDrawsAgree(data, max, t, now, draws[1..]);
    }
  }

  /** A store that is not full is not swept, and then a stale leftover is exactly what tells the two apart. */
  lemma {:induction false} RoomyDrawsAgree(data: Entries, max: int, t: Transaction, now: Time, draws: seq<Option<Handle>>)
    requires |data| < max && t.expiresAt > now
    ensures var lazy, eager := TryDraws(data, max, t, now, draws), EagerDraws(Live(data, now), max, t, draws);
      && (lazy.1 == eager.1 <==> !StaleHit(data, draws, now))
      && (!StaleHit(data, draws, now) ==> Live(lazy.0, now) == eager.0)
      && (lazy.1.Ok? ==> lazy.1.value !in data)
    decreases draws
  {
    DropShrinks(System(Ledger(0, map[]), data), now);
    if draws != [] && draws[0].Some? {
      var h := draws[0].value;
      if h in data {
        RoomyDrawsAgree(data, max, t, now, draws[1..]);
      } else {
        assert Live(data[h := t], now) == Live(data, now)[h := t];
      }
    }
  }

  /** `Create` returns what the eager store would return, if and only if it is not disturbed. */
  lemma CreateAgreesExactly(lim: Limits, s: System, t: Transaction, draws: seq<Option<Handle>>, now: Time)
    ensures Lazy(lim, s, Create(t, draws), now).1 == Eager(lim, s, Create(t, draws), now).1
       <==> !Disturbed(lim, s, Create(t, draws), now)
    ensures !Disturbed(lim, s, Create(t, draws), now) ==>
      Drop(Lazy(lim, s, Create(t, draws), now).0, now) == Drop(Eager(lim, s, Create(t, draws), now).0, now)
  {
    var live := Live(s.data, now);
    DropShrinks(s, now);
    assert Live(live, now) == live;
    if Creatable(t, now) {
      if |s.data| < lim.maxEntries {
        RoomyDrawsAgree(s.data, lim.maxEntries, t, now, draws);
        var eager := EagerDraws(live, lim.maxEntries, t, draws);
        EagerKeepsLive(live, lim.maxEntries, t, now, draws);
        DropTwice(s, now, now);
      } else {
        LiveDrawsAgree(live, lim.maxEntries, t, now, draws);
        EagerKeepsLive(live, lim.maxEntries, t, now, draws);
        FullDrawsSweep(s.data, lim.maxEntries, t, now, draws);
        DropTwice(s, now, now);
      }
    } else {
      DropTwice(s, now, now);
    }
  }

  lemma {:induction false} EagerKeepsLive(data: Entries, max: int, t: Transaction, now: Time, draws: seq<Option<Handle>>)
    requires Live(data, now) == data && t.expiresAt > now
    ensures Live(EagerDraws(data, max, t, draws).0, now) == EagerDraws(data, max, t, draws).0
    decreases draws
  {
    if draws != [] && draws[0].Some? {
      EagerKeepsLive(data, max, t, now, draws[1..]);
      assert forall h :: h in data ==> data[h].expiresAt > now by {
        assert forall h :: h in data ==> h in Live(data, now);
      }
    }
  }

  /** A full store is swept in the first round, so the rounds run on its live part. */
  lemma FullDrawsSweep(data: Entries, max: int, t: Transaction, now: Time, draws: seq<Option<Handle>>)
    requires |data| >= max
    ensures var full, live := TryDraws(data, max, t, now, draws), TryDraws(Live(data, now), max, t, now, draws);
      full.1 == live.1 && Live(full.0, now) == Live(live.0, now)
  {
    assert Live(Live(data, now), now) == Live(data, now);
    if draws != [] && draws[0].Some? {
      assert AfterCreateLocked(data, max, t, now, draws[0].value)
          == AfterCreateLocked(Live(data, now), max, t, now, draws[0].value);
    }
  }

  ghost predicate Agree(lim: Limits, s: System, op: Op, now: Time) {
    && SameOutcome(Lazy(lim, s, op, now).1, Eager(lim, s, op, now).1)
    && Drop(Lazy(lim, s, op, now).0, now) == Drop(Eager(lim, s, op, now).0, now)
  }

  lemma ReserveAgrees(lim: Limits, s: System, expiresAt: Time, now: Time)
    ensures Agree(lim, s, Reserve(expiresAt), now)
  {
    var live := Unexpired(s.ledger.active, now);
    DropShrinks(s, now);
    assert Unexpired(live, now) == live;
    assert Live(Live(s.data, now), now) == Live(s.data, now);
    assert Lazy(lim, s, Reserve(expiresAt), now).1 == Eager(lim, s, Reserve(expiresAt), now).1;
  }

  lemma LedgerUpdateAgrees(lim: Limits, s: System, op: Op, now: Time)
    requires op.Commit? || op.Cancel? || op.Release?
    ensures Agree(lim, s, op, now)
  {
    var active, live := s.ledger.active, Unexpired(s.ledger.active, now);
    assert Live(Live(s.data, now), now) == Live(s.data, now);
    if op.Commit? {
      assert Unexpired(active[op.h := op.expiresAt], now) == Unexpired(live[op.h := op.expiresAt], now);
    } else if op.Cancel? {
      assert Unexpired(live, now) == live;
    } else {
      assert Unexpired(active - {op.h}, now) == Unexpired(live - {op.h}, now);
    }
  }

  lemma ReadAgrees(lim: Limits, s: System, op: Op, now: Time)
    requires op.Get? || op.Consume?
    ensures Agree(lim, s, op, now)
  {
    var live := Live(s.data, now);
    DropTwice(s, now, now);
    assert Live(live, now) == live;
    if op.Consume? {
      assert Live(s.data - {op.h}, now) == Live(live - {op.h}, now);
    }
  }

  lemma OpAgrees(lim: Limits, lazy: System, eager: System, op: Op, now: Time)
    requires Drop(lazy, now) == Drop(eager, now)
    requires !Disturbed(lim, lazy, op, now)
    ensures SameOutcome(Lazy(lim, lazy, op, now).1, Eager(lim, eager, op, now).1)
    ensures Drop(Lazy(lim, lazy, op, now).0, now) == Drop(Eager(lim, eager, op, now).0, now)
  {
    assert Agree(lim, lazy, op, now) by {
      if op.Create? {
        CreateAgreesExactly(lim, lazy, op.t, op.draws, now);
      } else if op.Get? || op.Consume? {
        ReadAgrees(lim, lazy, op, now);
      } else if op.Reserve? {
        ReserveAgrees(lim, lazy, op.expiresAt, now);
      } else {
        LedgerUpdateAgrees(lim, lazy, op, now);
      }
    }
    assert Eager(lim, eager, op, now) == Eager(lim, lazy, op, now);
  }

  // ---------------------------------------------------------------- whole runs

  datatype Timed = Timed(op: Op, now: Time)

  ghost predicate Monotone(start: Time, run: seq<Timed>) {
    && (forall i :: 0 <= i < |run| ==> start <= run[i].now)
    && (forall i, j :: 0 <= i < j < |run| ==> run[i].now <= run[j].now)
  }

  ghost predicate Undisturbed(lim: Limits, s: System, run: seq<Timed>)
    decreases run
  {
    run != [] ==>
      && !Disturbed(lim, s, run[0].op, run[0].now)
      && Undisturbed(lim, Lazy(lim, s, run[0].op, run[0].now).0, run[1..])
  }

  function LazyOutcomes(lim: Limits, s: System, run: seq<Timed>): (outcomes: seq<Outcome>)
    ensures |outcomes| == |run|
    decreases run
  {
    if run == [] then []
    else
      var step := Lazy(lim, s, run[0].op, run[0].now);
      [step.1] + LazyOutcomes(lim, step.0, run[1..])
  }

  function EagerOutcomes(lim: Limits, s: System, run: seq<Timed>): (outcomes: seq<Outcome>)
    ensures |outcomes| == |run|
    decreases run
  {
    if run == [] then []
    else
      var step := Eager(lim, s, run[0].op, run[0].now);
      [step.1] + EagerOutcomes(lim, step.0, run[1..])
  }

  ghost predicate AllSame(lazy: seq<Outcome>, eager: seq<Outcome>) {
    |lazy| == |eager| && forall i :: 0 <= i < |lazy| ==> SameOutcome(lazy[i], eager[i])
  }

  lemma AllSameOneMore(l: Outcome, lazy: seq<Outcome>, e: Outcome, eager: seq<Outcome>)
    requires |lazy| == |eager|
    ensures AllSame([l] + lazy, [e] + eager) <==> SameOutcome(l, e) && AllSame(lazy, eager)
  {
    var ls, es := [l] + lazy, [e] + eager;
    if AllSame(ls, es) {
      assert SameOutcome(ls[0], es[0]);
      forall i | 0 <= i < |lazy|
        ensures SameOutcome(lazy[i], eager[i])
      {
        assert SameOutcome(ls[i + 1], es[i + 1]);
      }
    }
    if SameOutcome(l, e) && AllSame(lazy, eager) {
      forall i | 0 <= i < |ls|
        ensures SameOutcome(ls[i], es[i])
      {
        if i > 0 {
          assert SameOutcome(lazy[i - 1], eager[i - 1]);
        }
      }
    }
  }

  /**
   Under a monotone clock, a sequence of ledger and store operations succeeds on exactly the same calls and
   returns the same handles and transactions as with eager expiry, if and only if no creation is disturbed.
   */
  lemma {:induction false} LazyRefinesEagerExactly(lim: Limits, lazy: System, eager: System, start: Time, run: seq<Timed>)
    requires Drop(lazy, start) == Drop(eager, start)
    requires Monotone(start, run)
    ensures Undisturbed(lim, lazy, run) <==> AllSame(LazyOutcomes(lim, lazy, run), EagerOutcomes(lim, eager, run))
    decreases run
  {
    if run != [] {
      var op, now := run[0].op, run[0].now;
      DropTwice(lazy, start, now);
      DropTwice(eager, start, now);
      FirstAgreesExactly(lim, lazy, eager, op, now);
      var l, e := Lazy(lim, lazy, op, now), Eager(lim, eager, op, now);
      AllSameOneMore(l.1, LazyOutcomes(lim, l.0, run[1..]), e.1, EagerOutcomes(lim, e.0, run[1..]));
      if !Disturbed(lim, lazy, op, now) {
        LazyRefinesEagerExactly(lim, l.0, e.0, now, run[1..]);
      }
    }
  }

  lemma FirstAgreesExactly(lim: Limits, lazy: System, eager: System, op: Op, now: Time)
    requires Drop(lazy, now) == Drop(eager, now)
    ensures SameOutcome(Lazy(lim, lazy, op, now).1, Eager(lim, eager, op, now).1) <==> !Disturbed(lim, lazy, op, now)
    ensures !Disturbed(lim, lazy, op, now) ==> Drop(Lazy(lim, lazy, op, now).0, now) == Drop(Eager(lim, eager, op, now).0, now)
  {
    if Disturbed(lim, lazy, op, now) {
      CreateAgreesExactly(lim, lazy, op.t, op.draws, now);
      assert Eager(lim, eager, op, now) == Eager(lim, lazy, op, now);
    } else {
      OpAgrees(lim, lazy, eager, op, now);
    }
  }

  // ---------------------------------------------------------------- new handles

  /** The first draw of every creation is new: it is not among `seen`, nor the first draw of an earlier creation. */
  ghost predicate NewDraws(seen: set<Handle>, run: seq<Timed>)
    decreases run
  {
    run != [] ==>
      if run[0].op.Create? && run[0].op.draws != [] && run[0].op.draws[0].Some? then
        var h := run[0].op.draws[0].value;
        h !in seen && NewDraws(seen + {h}, run[1..])
      else NewDraws(seen, run[1..])
  }

  lemma CreateAddsFirstDraw(data: Entries, max: int, t: Transaction, now: Time, draws: seq<Option<Handle>>)
    requires draws != [] && draws[0].Some? ==> draws[0].value !in data
    ensures var after := AfterCreate(data, max, t, now, draws).0.Keys;
      after <= if draws != [] && draws[0].Some? then data.Keys + {draws[0].value} else data.Keys
  {
  }

  /** New handles never hit a leftover. */
  lemma {:induction false} NewDrawsDoNotDisturb(lim: Limits, s: System, seen: set<Handle>, run: seq<Timed>)
    requires s.data.Keys <= seen && NewDraws(seen, run)
    ensures Undisturbed(lim, s, run)
    decreases run
  {
    if run != [] {
      var op, now := run[0].op, run[0].now;
      var after := Lazy(lim, s, op, now).0;
      if op.Create? {
        CreateAddsFirstDraw(s.data, lim.maxEntries, op.t, now, op.draws);
      }
      if op.Create? && op.draws != [] && op.draws[0].Some? {
        NewDrawsDoNotDisturb(lim, after, seen + {op.draws[0].value}, run[1..]);
      } else {
        NewDrawsDoNotDisturb(lim, after, seen, run[1..]);
      }
    }
  }

  /**
   Lazy expiry refines eager expiry: with a monotone clock and new handles, all outcomes of every run agree.
   */
  lemma LazyRefinesEager(lim: Limits, lazy: System, eager: System, start: Time, run: seq<Timed>, seen: set<Handle>)
    requires Drop(lazy, start) == Drop(eager, start) && Monotone(start, run)
    requires lazy.data.Keys <= seen && NewDraws(seen, run)
    ensures AllSame(LazyOutcomes(lim, lazy, run), EagerOutcomes(lim, eager, run))
  {
    NewDrawsDoNotDisturb(lim, lazy, seen, run);
    LazyRefinesEagerExactly(lim, lazy, eager, start, run);
  }

  /** Drawing a handle whose expired entry is still around makes the lazy store fail where the eager one succeeds. */
  lemma StaleLeftoverMatters(t: Transaction)
    requires t.expiresAt == 5
    ensures var s := System(Ledger(0, map[]), map["h" := t]);
      var op := Create(t.(expiresAt := 20), [Some("h"), Some("h"), Some("h")]);
      && Lazy(Limits(10, 10), s, op, 7).1 == Created(Err(ErrUpstream))
      && Eager(Limits(10, 10), s, op, 7).1 == Created(Ok("h"))
  {
    var data: Entries := map["h" := t];
    var later := t.(expiresAt := 20);
    var draws: seq<Option<Handle>> := [Some("h"), Some("h"), Some("h")];
    var two, one := draws[1..], draws[1..][1..];
    assert one[1..] == [];
    assert TryDraws(data, 10, later, 7, one) == (data, Err(ErrUpstream));
    assert TryDraws(data, 10, later, 7, two) == (data, Err(ErrUpstream));
    assert Live(data, 7) == map[];
  }
}
