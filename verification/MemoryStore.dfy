/** The in-memory transaction store (internal/adapters/outbound/state/memory.go). */
module MemoryStore {
  import opened Text
  import opened Domain
  import opened Freshness
  import opened PendingLedger

  const DEFAULT_MAX_ENTRIES: int := 10_000

  type Entries = map<Handle, Transaction>

  function Live(data: Entries, now: Time): Entries {
    map h | h in data && data[h].expiresAt > now :: data[h]
  }

  function EffectiveMax(maxEntries: int): int {
    if maxEntries <= 0 then DEFAULT_MAX_ENTRIES else maxEntries
  }

  /** Expired entries are dropped only when the store is full. */
  function Swept(data: Entries, max: int, now: Time): Entries {
    if |data| >= max then Live(data, now) else data
  }

  /**
   One round of `Create` under the lock, with a drawn handle; `now` was read before it. The flag says
   that the handle is taken and another one has to be drawn.
   */
  function AfterCreateLocked(data: Entries, max: int, t: Transaction, now: Time, h: Handle): (Entries, Result<Handle, Error>, bool) {
    var swept := Swept(data, max, now);
    if |swept| >= max then (swept, Err(ErrUpstream), false)
    else if h in swept then (swept, Err(ErrUpstream), true)
    else (swept[h := t], Ok(h), false)
  }

  /** The rounds of `Create`, one per draw; a draw that failed is None. */
  function TryDraws(data: Entries, max: int, t: Transaction, now: Time, draws: seq<Option<Handle>>): (Entries, Result<Handle, Error>)
    decreases draws
  {
    if draws == [] then (data, Err(ErrUpstream))
    else if draws[0].None? then (data, Err(ErrRandom))
    else
      var round := AfterCreateLocked(data, max, t, now, draws[0].value);
      if round.2 then TryDraws(round.0, max, t, now, draws[1..]) else (round.0, round.1)
  }

  predicate Creatable(t: Transaction, now: Time) {
    t.expiresAt != ZERO_TIME && t.expiresAt > now
  }

  function AfterCreate(data: Entries, max: int, t: Transaction, now: Time, draws: seq<Option<Handle>>): (Entries, Result<Handle, Error>) {
    if Creatable(t, now) then TryDraws(data, max, t, now, draws) else (data, Err(ErrExpiredTransaction))
  }

  function Found(data: Entries, h: Handle, now: Time): Result<Transaction, Error> {
    if h == "" then Err(ErrInvalidTransaction)
    else if h !in data then Err(ErrReplay)
    else if data[h].expiresAt <= now then Err(ErrExpiredTransaction)
    else Ok(data[h])
  }

  /** Removes the entry whatever its age; the result is what `Get` would have returned. */
  function AfterConsume(data: Entries, h: Handle, now: Time): (Entries, Result<Transaction, Error>) {
    (if h == "" then data else data - {h}, Found(data, h, now))
  }

  class Store {
    var maxEntries: int
    var data: Entries

    constructor ()
      ensures maxEntries == DEFAULT_MAX_ENTRIES && data == map[]
    {
      maxEntries, data := DEFAULT_MAX_ENTRIES, map[];
    }

    method Create(t: Transaction, now: Time, draws: seq<Option<Handle>>) returns (r: Result<Handle, Error>)
      requires |draws| == 3
      modifies this
      ensures (data, r) == AfterCreate(old(data), EffectiveMax(old(maxEntries)), t, now, draws)
      ensures EffectiveMax(maxEntries) == EffectiveMax(old(maxEntries))
    {
      if t.expiresAt == ZERO_TIME || t.expiresAt <= now {
        return Err(ErrExpiredTransaction);
      }
      ghost var max := EffectiveMax(maxEntries);
      assert draws[0..] == draws;
      for i := 0 to 3
        invariant EffectiveMax(maxEntries) == max
        invariant TryDraws(old(data), max, t, now, draws) == TryDraws(data, max, t, now, draws[i..])
      {
        assert draws[i..][0] == draws[i] && draws[i..][1..] == draws[i + 1..];
        if draws[i].None? {
          return Err(ErrRandom);
        }
        var h := draws[i].value;
        if maxEntries <= 0 {
          maxEntries := DEFAULT_MAX_ENTRIES;
        }
        if |data| >= maxEntries {
          RemoveExpiredLocked(now);
          if |data| >= maxEntries {
            return Err(ErrUpstream);
          }
        }
        if h !in data {
          data := data[h := t];
          return Ok(h);
        }
      }
      assert draws[3..] == [];
      r := Err(ErrUpstream);
    }

    method Get(h: Handle, now: Time) returns (r: Result<Transaction, Error>)
      ensures r == Found(data, h, now)
    {
      if h == "" {
        return Err(ErrInvalidTransaction);
      }
      if h !in data {
        return Err(ErrReplay);
      }
      r := if data[h].expiresAt <= now then Err(ErrExpiredTransaction) else Ok(data[h]);
    }

    method Consume(h: Handle, now: Time) returns (r: Result<Transaction, Error>)
      modifies this`data
      ensures (data, r) == AfterConsume(old(data), h, now)
    {
      if h == "" {
        return Err(ErrInvalidTransaction);
      }
      var present := h in data;
      if !present {
        assert data - {h} == data;
        return Err(ErrReplay);
      }
      var t := data[h];
      data := data - {h};
      r := if t.expiresAt <= now then Err(ErrExpiredTransaction) else Ok(t);
    }

    method RemoveExpiredLocked(now: Time)
      modifies this`data
      ensures data == Live(old(data), now)
    {
      var todo := data.Keys;
      while todo != {}
        invariant todo <= data.Keys <= old(data).Keys
        invariant forall h :: h in data ==> data[h] == old(data)[h]
        invariant forall h :: h in old(data) && h !in todo ==> (h in data <==> old(data)[h].expiresAt > now)
      {
        var h :| h in todo;
        if data[h].expiresAt <= now {
          data := data - {h};
        }
        todo := todo - {h};
      }
    }
  }
}
