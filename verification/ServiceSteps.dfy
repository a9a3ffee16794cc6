/**
 One request's view of a run of ServiceRuns, when no other request steps in between: where it is, and how
 its steps make up `createTransaction`, `load` and `consume`.
 */
module ServiceSteps {
  import opened Text
  import opened Domain
  import opened Freshness
  import opened PendingLedger
  import opened MemoryStore
  import opened LazyExpiry
  import opened Flows
  import opened SequentialCalls
  import opened ServiceRuns
  import opened Service

  // ---------------------------------------------------------------- one request's view of a run

  /** Where one request is, with the shared state and what the trace has gained since it began. */
  datatype Local = Local(shared: Shared, pc: Option<Pc>, events: seq<Event>)

  /** The request's own step, if there is one. */
  ghost function Stepped(env: Env, id: Id, call: Call, l: Local, reply: Reply): Local {
    if l.pc.None? then l
    else
      var m := NextMove(env, l.shared, id, call, l.pc.value, reply);
      if m.None? then l else Local(m.value.shared, m.value.next, l.events + m.value.events)
  }

  ghost function Waited(l: Local, now: Time): Local {
    if l.shared.clock <= now then l.(shared := l.shared.(clock := now)) else l
  }

  ghost function Begun(env: Env, s: Shared, call: Call): Local {
    Local(Naming(s, call), FirstPc(env, call), [])
  }

  /** The request's own steps and the passing of time stay within `r`. */
  ghost predicate Closed(env: Env, id: Id, call: Call, r: Local -> bool) {
    && (forall l, reply {:trigger Stepped(env, id, call, l, reply)} :: r(l) ==> r(Stepped(env, id, call, l, reply)))
    && (forall l, now {:trigger Waited(l, now)} :: r(l) ==> r(Waited(l, now)))
  }

  // ---------------------------------------------------------------- the parts of a flow

  ghost function SystemOf(s: Shared): System {
    System(s.ledger, s.data)
  }

  /** The shared state with the ledger and the store of `s`. */
  ghost predicate Holds(s: Shared, y: System, now: Time) {
    s.ledger == y.ledger && s.data == y.data && s.clock == now
  }

  lemma FreshDraw(data: Entries, max: int, t: Transaction, now: Time, draws: seq<Option<Handle>>)
    requires draws != [] && (draws[0].Some? ==> draws[0].value !in data)
    ensures TryDraws(data, max, t, now, draws) ==
      if draws[0].None? then (data, Err(ErrRandom))
      else var round := AfterCreateLocked(data, max, t, now, draws[0].value); (round.0, round.1)
  {
  }

  /** `createTransaction`, from its clock reading in `reserve` on. */
  lemma CreationSteps(env: Env, id: Id, call: Call, r: Local -> bool, l: Local, t: Transaction, o: Outside)
    requires Closed(env, id, call, r) && r(l)
    requires !call.Completes() && l.pc == Some(AwaitReserve(t)) && l.shared.clock <= o.t1 && o.Orderly()
    requires o.draws[0].Some? ==> o.draws[0].value !in l.shared.mentioned
    requires l.shared.data.Keys <= l.shared.mentioned
    ensures var done := Creation(LimitsOf(env), SystemOf(l.shared), t, o.draws, o.t1, o.t2);
      exists l' ::
        && r(l') && l'.pc.None? && Holds(l'.shared, done.0, o.t3)
        && l'.events == l.events + if done.1.Ok? then [Stored(id, done.1.value, t), Handoff(id, done.1.value)] else []
  {
    var a := ReserveSteps(env, id, call, r, l, t, o.t1);
    if a.pc.None? {
      var z := Waited(a, o.t3);
      assert r(z) && l.events + [] == l.events;
    } else {
      CreateSteps(env, id, call, r, a, t, o);
    }
  }

  /** `reserve`: the clock reading and the region under the lock. */
  lemma ReserveSteps(env: Env, id: Id, call: Call, r: Local -> bool, l: Local, t: Transaction, now: Time) returns (a: Local)
    requires Closed(env, id, call, r) && r(l)
    requires !call.Completes() && l.pc == Some(AwaitReserve(t)) && l.shared.clock <= now
    ensures var reserved := AfterReserve(l.shared.ledger, Quota(env), t.expiresAt, now);
      && r(a) && a.events == l.events && a.shared == l.shared.(clock := now, ledger := reserved.0)
      && a.pc == if reserved.1 then Some(AwaitCreate(t)) else None
  {
    a := Waited(l, now);
    assert a.events + [] == a.events;
    a := Stepped(env, id, call, a, NoReply);
    if t.expiresAt > now {
      assert a.pc == Some(AwaitReserveLock(t, now));
      a := Stepped(env, id, call, a, NoReply);
    }
  }

  lemma CreateSteps(env: Env, id: Id, call: Call, r: Local -> bool, l: Local, t: Transaction, o: Outside)
    requires Closed(env, id, call, r) && r(l)
    requires !call.Completes() && l.pc == Some(AwaitCreate(t)) && l.shared.clock <= o.t2 && o.Orderly()
    requires o.draws[0].Some? ==> o.draws[0].value !in l.shared.mentioned
    requires l.shared.data.Keys <= l.shared.mentioned
    ensures CreateEnds(env, id, r, l, t, AfterCreate(l.shared.data, Capacity(env), t, o.t2, o.draws), o.t3)
  {
    var a := Waited(l, o.t2);
    var b := Stepped(env, id, call, a, NoReply);
    assert a.events + [] == a.events;
    if Creatable(t, o.t2) {
      assert b == Local(a.shared, Some(AwaitCreateLock(t, o.t2)), a.events);
      DrawSteps(env, id, call, r, b, t, o);
    } else {
      Cancels(env, id, call, r, b, o.t3);
    }
  }

  /** `Create` is over, and the reservation has been committed or given back. */
  ghost predicate CreateEnds(env: Env, id: Id, r: Local -> bool, l: Local, t: Transaction, created: (Entries, Result<Handle, Error>), now: Time) {
    exists l' ::
      && r(l') && l'.pc.None? && l'.shared.data == created.0 && l'.shared.clock == now
      && l'.shared.ledger == (if created.1.Ok? then AfterCommit(l.shared.ledger, created.1.value, t.expiresAt) else AfterCancel(l.shared.ledger))
      && l'.events == l.events + if created.1.Ok? then [Stored(id, created.1.value, t), Handoff(id, created.1.value)] else []
  }

  lemma DrawSteps(env: Env, id: Id, call: Call, r: Local -> bool, l: Local, t: Transaction, o: Outside)
    requires Closed(env, id, call, r) && r(l)
    requires !call.Completes() && l.pc == Some(AwaitCreateLock(t, o.t2)) && l.shared.clock == o.t2 && o.Orderly()
    requires o.draws[0].Some? ==> o.draws[0].value !in l.shared.mentioned
    requires l.shared.data.Keys <= l.shared.mentioned
    ensures CreateEnds(env, id, r, l, t, TryDraws(l.shared.data, Capacity(env), t, o.t2, o.draws), o.t3)
  {
    FreshDraw(l.shared.data, Capacity(env), t, o.t2, o.draws);
    var draw := o.draws[0];
    var c := Stepped(env, id, call, l, Draw(draw));
    assert l.events + [] == l.events;
    if draw.Some? {
      var h := draw.value;
      var round := AfterCreateLocked(l.shared.data, Capacity(env), t, o.t2, h);
      var s := l.shared.(data := round.0, mentioned := l.shared.mentioned + {h});
      if round.1.Ok? {
        assert c == Local(s, Some(AwaitCommit(t, h)), l.events + [Stored(id, h, t)]);
        Commits(env, id, call, r, c, t, h, o.t3);
        assert l.events + [Stored(id, h, t)] + [Handoff(id, h)] == l.events + [Stored(id, h, t), Handoff(id, h)];
      } else {
        assert c == Local(s, Some(AwaitCancel), l.events);
        Cancels(env, id, call, r, c, o.t3);
      }
    } else {
      Cancels(env, id, call, r, c, o.t3);
    }
  }

  lemma Commits(env: Env, id: Id, call: Call, r: Local -> bool, l: Local, t: Transaction, h: Handle, now: Time)
    requires Closed(env, id, call, r) && r(l)
    requires !call.Completes() && l.pc == Some(AwaitCommit(t, h)) && l.shared.clock <= now
    ensures exists l' ::
      && r(l') && l'.pc.None? && l'.shared == l.shared.(ledger := AfterCommit(l.shared.ledger, h, t.expiresAt), clock := now)
      && l'.events == l.events + [Handoff(id, h)]
  {
    var a := Stepped(env, id, call, l, NoReply);
    var z := Waited(a, now);
    assert r(z);
  }

  lemma Cancels(env: Env, id: Id, call: Call, r: Local -> bool, l: Local, now: Time)
    requires Closed(env, id, call, r) && r(l)
    requires !call.Completes() && l.pc == Some(AwaitCancel) && l.shared.clock <= now
    ensures exists l' ::
      && r(l') && l'.pc.None? && l'.shared == l.shared.(ledger := AfterCancel(l.shared.ledger), clock := now)
      && l'.events == l.events
  {
    var a := Stepped(env, id, call, l, NoReply);
    assert l.events + [] == l.events;
    var z := Waited(a, now);
    assert r(z);
  }

  /** `load`: a transaction it finds is about to be checked, and will pass. */
  lemma LoadSteps(env: Env, id: Id, call: Call, r: Local -> bool, l: Local, o: Outside) returns (a: Local)
    requires Closed(env, id, call, r) && r(l)
    requires call.Completes() && l.pc == FirstPc(env, call) && l.shared.clock <= o.t0 && o.Orderly()
    ensures var loaded := Loading(env.lib, SystemOf(l.shared), call, o.t0, o.t1);
      && r(a) && a.events == l.events && SystemOf(a.shared) == loaded.0
      && match loaded.1
         case Err(_) => a.pc.None? && a.shared.clock <= o.t1
         case Ok(t) => a.pc == Some(AwaitGetCheck(t)) && a.shared.clock == o.t1 < t.expiresAt && ProofOk(env.lib, call, t)
  {
    assert l.events + [] == l.events;
    if l.pc.None? {
      a := l;
    } else if call.handle !in l.shared.data {
      a := Stepped(env, id, call, l, NoReply);
      assert a == l.(pc := Some(AwaitLoadRelease));
      a := Stepped(env, id, call, a, NoReply);
    } else {
      a := Stepped(env, id, call, l, NoReply);
      assert a == l.(pc := Some(AwaitGetCheck(l.shared.data[call.handle])));
      a := CheckSteps(env, id, call, r, a, o);
    }
  }

  /** The checks of `load` on an entry that was found. */
  lemma CheckSteps(env: Env, id: Id, call: Call, r: Local -> bool, l: Local, o: Outside) returns (a: Local)
    requires Closed(env, id, call, r) && r(l) && call.Completes() && FirstPc(env, call).Some?
    requires call.handle in l.shared.data && l.pc == Some(AwaitGetCheck(l.shared.data[call.handle]))
    requires l.shared.clock <= o.t0 && o.Orderly()
    ensures var loaded := Loading(env.lib, SystemOf(l.shared), call, o.t0, o.t1);
      && r(a) && a.events == l.events && SystemOf(a.shared) == loaded.0
      && match loaded.1
         case Err(_) => a.pc.None? && a.shared.clock <= o.t1
         case Ok(t) => a.pc == Some(AwaitGetCheck(t)) && a.shared.clock == o.t1 < t.expiresAt && ProofOk(env.lib, call, t)
  {
    var t := l.shared.data[call.handle];
    var now := if t.expiresAt <= o.t0 || !Complete(call, t) then o.t0 else o.t1;
    a := Waited(l, now);
    if t.expiresAt <= now || !ProofOk(env.lib, call, t) {
      CheckFails(env, id, call, a, t);
      a := Stepped(env, id, call, a, NoReply);
      if t.expiresAt <= now {
        ReleaseSteps(env, id, call, a);
        a := Stepped(env, id, call, a, NoReply);
      }
    }
  }

  lemma ReleaseSteps(env: Env, id: Id, call: Call, a: Local)
    requires call.Completes() && a.pc == Some(AwaitLoadRelease)
    ensures Stepped(env, id, call, a, NoReply) == a.(shared := a.shared.(ledger := AfterRelease(a.shared.ledger, call.handle)), pc := None)
  {
    assert a.events + [] == a.events;
  }

  lemma CheckFails(env: Env, id: Id, call: Call, a: Local, t: Transaction)
    requires call.Completes() && a.pc == Some(AwaitGetCheck(t)) && (t.expiresAt <= a.shared.clock || !ProofOk(env.lib, call, t))
    ensures Stepped(env, id, call, a, NoReply) ==
      a.(pc := if t.expiresAt <= a.shared.clock then Some(AwaitLoadRelease) else None)
  {
    assert a.events + [] == a.events;
  }

  /** `consume`; a transaction it returns leaves the request where the answer is prepared. */
  lemma ConsumeSteps(env: Env, id: Id, call: Call, r: Local -> bool, l: Local, t: Transaction, session: Option<Session>, o: Outside)
    returns (a: Local)
    requires Closed(env, id, call, r) && r(l)
    requires call.Completes() && call.handle != "" && l.pc == Some(AwaitConsume(t, session)) && l.shared.clock <= o.t2
    ensures var consumed := Consuming(SystemOf(l.shared), call.handle, o.t2);
      && r(a) && Holds(a.shared, consumed.0, o.t2)
      && match consumed.1
         case Err(_) => a.pc.None? && a.events == l.events
         case Ok(taken) =>
           && a.events == l.events + [Took(id, call.handle, taken, o.t2)]
           && a.pc == OnConsumed(a.shared, call, t, session).next
  {
    var h := call.handle;
    assert l.events + [] == l.events;
    a := Waited(l, o.t2);
    if h in l.shared.data {
      var taken := l.shared.data[h];
      a := Stepped(env, id, call, a, NoReply);
      var s := l.shared.(clock := o.t2, data := l.shared.data - {h}, winner := l.shared.winner[h := id]);
      assert a == Local(s, Some(AwaitConsumeCheck(t, session, taken)), l.events);
      CheckTaken(env, id, call, a, t, session, taken);
      a := Stepped(env, id, call, a, NoReply);
      Releases(env, id, call, a, t, session, taken.expiresAt > o.t2);
    } else {
      a := Stepped(env, id, call, a, NoReply);
      assert a == l.(shared := l.shared.(clock := o.t2), pc := Some(AwaitConsumeRelease(t, session, false)));
      assert l.shared.data - {h} == l.shared.data;
      Releases(env, id, call, a, t, session, false);
    }
    a := Stepped(env, id, call, a, NoReply);
  }

  lemma CheckTaken(env: Env, id: Id, call: Call, a: Local, t: Transaction, session: Option<Session>, taken: Transaction)
    requires call.Completes() && a.pc == Some(AwaitConsumeCheck(t, session, taken))
    ensures var live := taken.expiresAt > a.shared.clock;
      Stepped(env, id, call, a, NoReply) == Local(a.shared, Some(AwaitConsumeRelease(t, session, live)),
                                                  a.events + if live then [Took(id, call.handle, taken, a.shared.clock)] else [])
  {
  }

  lemma Releases(env: Env, id: Id, call: Call, a: Local, t: Transaction, session: Option<Session>, ok: bool)
    requires call.Completes() && a.pc == Some(AwaitConsumeRelease(t, session, ok))
    ensures var s := a.shared.(ledger := AfterRelease(a.shared.ledger, call.handle));
      Stepped(env, id, call, a, NoReply) == Local(s, if ok then OnConsumed(s, call, t, session).next else None, a.events)
  {
    assert a.events + [] == a.events;
  }
}
