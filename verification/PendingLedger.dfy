/** The per-process quota of pending transactions (`transactionAdmission` in internal/core/application/service.go). */
module PendingLedger {
  import opened Freshness

  type Handle = string

  datatype Ledger = Ledger(reserved: nat, active: map<Handle, Time>)

  function Unexpired(active: map<Handle, Time>, now: Time): map<Handle, Time> {
    map h | h in active && active[h] > now :: active[h]
  }

  predicate Full(l: Ledger, max: int) {
    |l.active| + l.reserved >= max
  }

  /** The part of `reserve` under the lock; `now` was read before it. Expired entries are dropped only when full. */
  function AfterReserveLocked(l: Ledger, max: int, now: Time): (r: (Ledger, bool)) {
    var swept := if Full(l, max) then l.(active := Unexpired(l.active, now)) else l;
    if Full(swept, max) then (swept, false) else (swept.(reserved := swept.reserved + 1), true)
  }

  function AfterReserve(l: Ledger, max: int, expiresAt: Time, now: Time): (Ledger, bool) {
    if expiresAt > now then AfterReserveLocked(l, max, now) else (l, false)
  }

  function AfterCancel(l: Ledger): Ledger {
    if l.reserved > 0 then l.(reserved := l.reserved - 1) else l
  }

  function AfterCommit(l: Ledger, h: Handle, expiresAt: Time): Ledger {
    var u := AfterCancel(l);
    u.(active := u.active[h := expiresAt])
  }

  function AfterRelease(l: Ledger, h: Handle): Ledger {
    l.(active := l.active - {h})
  }

  class TransactionAdmission {
    const max: int
    var reserved: nat
    var active: map<Handle, Time>

    constructor (maxPending: int)
      ensures max == (if maxPending <= 0 then 10_000 else maxPending)
      ensures State() == Ledger(0, map[])
    {
      max := if maxPending <= 0 then 10_000 else maxPending;
      reserved, active := 0, map[];
    }

    function State(): Ledger
      reads this
    {
      Ledger(reserved, active)
    }

    method Reserve(expiresAt: Time, now: Time) returns (ok: bool)
      modifies this
      ensures (State(), ok) == AfterReserve(old(State()), max, expiresAt, now)
    {
      if expiresAt <= now {
        return false;
      }
      if |active| + reserved >= max {
        RemoveExpiredLocked(now);
        if |active| + reserved >= max {
          return false;
        }
      }
      reserved := reserved + 1;
      ok := true;
    }

    method Commit(h: Handle, expiresAt: Time)
      modifies this
      ensures State() == AfterCommit(old(State()), h, expiresAt)
    {
      if reserved > 0 {
        reserved := reserved - 1;
      }
      active := active[h := expiresAt];
    }

    method Cancel()
      modifies this
      ensures State() == AfterCancel(old(State()))
    {
      if reserved > 0 {
        reserved := reserved - 1;
      }
    }

    method Release(h: Handle)
      modifies this
      ensures State() == AfterRelease(old(State()), h)
    {
      active := active - {h};
    }

    method RemoveExpiredLocked(now: Time)
      modifies this`active
      ensures active == Unexpired(old(active), now)
    {
      var todo := active.Keys;
      while todo != {}
        invariant todo <= active.Keys <= old(active).Keys
        invariant forall h :: h in active ==> active[h] == old(active)[h]
        invariant forall h :: h in old(active) && h !in todo ==> (h in active <==> old(active)[h] > now)
      {
        var h :| h in todo;
        if active[h] <= now {
          active := active - {h};
        }
        todo := todo - {h};
      }
    }
  }
}
