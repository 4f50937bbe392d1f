/**
 The transactional outbox: events, the leases workers hold on them, and the delivery log.
 Every operation is given as a function on the two tables; `OutboxStore` performs it step by step.
 */
module Outbox {
  import opened Wrappers
  import opened Text
  import opened Powers

  type EventId = nat
  /** Microseconds, as the database counts them. */
  type Time = int

  const SECOND := 1_000_000

  datatype Status = Pending | Published | Failed | DeadLetter

  datatype Lease = Lease(owner: string, expiresAt: Time)

  datatype EventRow = EventRow(
    status: Status,
    lease: Option<Lease>,
    attempts: nat,
    occurredAt: Time,
    availableAt: Time,
    publishedAt: Option<Time>,
    deadLetteredAt: Option<Time>,
    lastError: Option<(string, Time)>)

  datatype DeliveryOutcome = Delivered | Retried | Abandoned

  datatype Delivery = Delivery(worker: string, outcome: DeliveryOutcome, errorCode: Option<string>)

  /** `log` is keyed by the columns of its unique constraint, event and attempt. */
  datatype Tables = Tables(events: map<EventId, EventRow>, log: map<(EventId, nat), Delivery>)

  /** What a claim hands to a worker: the event as of that claim. */
  datatype Handle = Handle(event: EventId, attempt: nat, worker: string)

  datatype Error = InvalidClaim | InvalidFailure | LeaseLost | DuplicateRow

  datatype Disposition = Retry | Dead

  function Clamp(x: int, low: int, high: int): int {
    if x < low then low else if x > high then high else x
  }

  predicate Terminal(row: EventRow) {
    row.status == Published || row.status == DeadLetter
  }

  // ---------------------------------------------------------------- claiming

  predicate Eligible(row: EventRow, now: Time) {
    && (row.status == Pending || row.status == Failed)
    && row.availableAt <= now
    && (row.lease.None? || row.lease.value.expiresAt < now)
  }

  predicate Before(events: map<EventId, EventRow>, a: EventId, b: EventId)
    requires a in events && b in events
  {
    var x, y := events[a], events[b];
    || x.availableAt < y.availableAt
    || (x.availableAt == y.availableAt
        && (x.occurredAt < y.occurredAt || (x.occurredAt == y.occurredAt && a < b)))
  }

  /** The rows a claim may take: eligible now and not locked by a concurrent transaction. */
  function Candidates(t: Tables, now: Time, locked: set<EventId>): set<EventId> {
    set e | e in t.events && Eligible(t.events[e], now) && e !in locked
  }

  /** `picked` is what ordering the candidates and keeping the first `limit` of them yields. */
  ghost predicate FirstInOrder(events: map<EventId, EventRow>, candidates: set<EventId>, limit: nat,
                               picked: set<EventId>)
    requires candidates <= events.Keys
  {
    && picked <= candidates
    && |picked| == (if |candidates| < limit then |candidates| else limit)
    && forall a, b :: a in picked && b in candidates - picked ==> Before(events, a, b)
  }

  predicate IsEarliest(events: map<EventId, EventRow>, candidates: set<EventId>, e: EventId)
    requires candidates <= events.Keys
  {
    e in candidates && forall x :: x in candidates - {e} ==> Before(events, e, x)
  }

  lemma {:induction false} EarliestExists(events: map<EventId, EventRow>, candidates: set<EventId>)
    requires candidates <= events.Keys && candidates != {}
    ensures exists e :: IsEarliest(events, candidates, e)
    decreases |candidates|
  {
    var c :| c in candidates;
    var rest := candidates - {c};
    if rest == {} {
      assert IsEarliest(events, candidates, c);
    } else {
      EarliestExists(events, rest);
      var e :| IsEarliest(events, rest, e);
      var first := if Before(events, c, e) then c else e;
      forall x | x in candidates - {first} ensures Before(events, first, x) {
        assert x == c || x == e || x in rest - {e};
      }
      assert IsEarliest(events, candidates, first);
    }
  }

  function Earliest(events: map<EventId, EventRow>, candidates: set<EventId>): (e: EventId)
    requires candidates <= events.Keys && candidates != {}
    ensures IsEarliest(events, candidates, e)
  {
    EarliestExists(events, candidates);
    assert forall a, b :: IsEarliest(events, candidates, a) && IsEarliest(events, candidates, b) ==>
      a == b || (a in candidates - {b} && b in candidates - {a});
    var e :| e in candidates && IsEarliest(events, candidates, e);
    e
  }

  function PickFirst(events: map<EventId, EventRow>, candidates: set<EventId>, limit: nat): (picked: set<EventId>)
    requires candidates <= events.Keys
    ensures picked <= candidates
    decreases limit
  {
    if limit == 0 || candidates == {} then {}
    else
      var e := Earliest(events, candidates);
      {e} + PickFirst(events, candidates - {e}, limit - 1)
  }

  lemma {:induction false} PickFirstInOrder(events: map<EventId, EventRow>, candidates: set<EventId>, limit: nat)
    requires candidates <= events.Keys
    ensures FirstInOrder(events, candidates, limit, PickFirst(events, candidates, limit))
    decreases limit
  {
    if limit != 0 && candidates != {} {
      var e := Earliest(events, candidates);
      var more := PickFirst(events, candidates - {e}, limit - 1);
      PickFirstInOrder(events, candidates - {e}, limit - 1);
      assert |candidates - {e}| == |candidates| - 1;
      assert candidates - {e} - more == candidates - ({e} + more);
    }
  }

  function Leased(row: EventRow, now: Time, worker: string, leaseSeconds: nat): EventRow {
    row.(lease := Some(Lease(worker, now + SECOND * Clamp(leaseSeconds, 1, 300))),
         attempts := row.attempts + 1,
         status := Pending)
  }

  predicate ValidClaim(worker: string, batch: int) {
    !Blank(worker) && batch > 0
  }

  function ClaimedIds(t: Tables, now: Time, batch: int, locked: set<EventId>): set<EventId> {
    PickFirst(t.events, Candidates(t, now, locked), Clamp(batch, 1, 250))
  }

  function ClaimedTables(t: Tables, now: Time, worker: string, batch: int, leaseSeconds: nat, locked: set<EventId>)
    : Tables
  {
    t.(events := LeaseEach(t.events, ClaimedIds(t, now, batch, locked), now, worker, leaseSeconds))
  }

  function LeaseEach(events: map<EventId, EventRow>, picked: set<EventId>, now: Time, worker: string, leaseSeconds: nat)
    : map<EventId, EventRow>
  {
    map e | e in events :: if e in picked then Leased(events[e], now, worker, leaseSeconds) else events[e]
  }

  /** The handle the next claim of an event returns. */
  function HandleOf(t: Tables, worker: string, e: EventId): Handle
    requires e in t.events
  {
    Handle(e, t.events[e].attempts + 1, worker)
  }

  function HandlesOf(t: Tables, worker: string, ids: set<EventId>): set<Handle>
    requires ids <= t.events.Keys
  {
    set e | e in ids :: HandleOf(t, worker, e)
  }

  function ClaimedHandles(t: Tables, now: Time, worker: string, batch: int, locked: set<EventId>): set<Handle> {
    HandlesOf(t, worker, ClaimedIds(t, now, batch, locked))
  }

  lemma HandleOfSome(t: Tables, worker: string, ids: set<EventId>, h: Handle)
    requires ids <= t.events.Keys && h in HandlesOf(t, worker, ids)
    ensures h.event in ids && h == HandleOf(t, worker, h.event)
  {}

  lemma HandlesWithout(t: Tables, worker: string, ids: set<EventId>, done: set<EventId>, e: EventId)
    requires e in ids - done && ids <= t.events.Keys
    ensures HandlesOf(t, worker, ids - (done + {e})) == HandlesOf(t, worker, ids - done) - {HandleOf(t, worker, e)}
  {}

  lemma {:induction false} HandlesCount(t: Tables, worker: string, ids: set<EventId>)
    requires ids <= t.events.Keys
    ensures |HandlesOf(t, worker, ids)| == |ids|
  {
    if ids != {} {
      var e :| e in ids;
      HandlesCount(t, worker, ids - {e});
      HandlesWithout(t, worker, ids, {}, e);
      assert ids - {} == ids && {} + {e} == {e};
    }
  }

  // -------------------------------------------------------------- resolving

  predicate Owns(t: Tables, h: Handle) {
    h.event in t.events && t.events[h.event].lease.Some? && t.events[h.event].lease.value.owner == h.worker
  }

  function PublishedRow(row: EventRow, now: Time): EventRow {
    row.(status := Published, publishedAt := Some(now), lease := None, lastError := None)
  }

  function FailedRow(row: EventRow, now: Time, attempt: int, code: string, maxAttempts: int, retrySeconds: nat)
    : EventRow
  {
    var r := row.(lease := None, lastError := Some((code, now)));
    if attempt >= maxAttempts
    then r.(status := DeadLetter, deadLetteredAt := Some(now))
    else r.(status := Failed, availableAt := now + SECOND * Clamp(retrySeconds, 1, 3600))
  }

  /** Updates the event and inserts its log row; a row already under that key undoes both. */
  function Record(t: Tables, h: Handle, row: EventRow, delivery: Delivery): Result<Tables, Error>
    requires h.event in t.events
  {
    if (h.event, h.attempt) in t.log then Err(DuplicateRow)
    else Ok(Tables(t.events[h.event := row], t.log[(h.event, h.attempt) := delivery]))
  }

  function Publish(t: Tables, now: Time, h: Handle): Result<Tables, Error> {
    if !Owns(t, h) || t.events[h.event].status != Pending then Err(LeaseLost)
    else Record(t, h, PublishedRow(t.events[h.event], now), Delivery(h.worker, Delivered, None))
  }

  predicate ValidFailure(code: string, maxAttempts: int) {
    !Blank(code) && maxAttempts > 0
  }

  function Fail(t: Tables, now: Time, h: Handle, code: string, maxAttempts: int, retrySeconds: nat)
    : Result<Tables, Error>
  {
    if !ValidFailure(code, maxAttempts) then Err(InvalidFailure)
    else if !Owns(t, h) then Err(LeaseLost)
    else
      var outcome := if h.attempt >= maxAttempts then Abandoned else Retried;
      Record(t, h, FailedRow(t.events[h.event], now, h.attempt, code, maxAttempts, retrySeconds),
             Delivery(h.worker, outcome, Some(code)))
  }

  function RetryDelay(attempt: int): nat {
    Clamp(Pow2(Clamp(attempt - 1, 0, 6)), 1, 60)
  }

  /** Records how a publication ended: `None` for success, otherwise the error code. */
  function Delivering(t: Tables, now: Time, h: Handle, maxAttempts: int, published: Option<string>)
    : Result<Tables, Error>
  {
    if published.None? then Publish(t, now, h)
    else Fail(t, now, h, published.value, maxAttempts, RetryDelay(h.attempt))
  }

  function NewEvent(now: Time): EventRow {
    EventRow(Pending, None, 0, now, now, None, None, None)
  }

  // ------------------------------------------------------------ the store

  /** The two tables; each method is one transaction, taking the database clock as a parameter. */
  class OutboxStore {
    var events: map<EventId, EventRow>
    var log: map<(EventId, nat), Delivery>

    ghost function View(): Tables
      reads this
    {
      Tables(events, log)
    }

    method Claim(now: Time, worker: string, batch: int, leaseSeconds: nat, locked: set<EventId>)
      returns (r: Result<set<Handle>, Error>)
      modifies this
      ensures r == if ValidClaim(worker, batch) then Ok(ClaimedHandles(old(View()), now, worker, batch, locked))
        else Err(InvalidClaim)
      ensures View() == if r.Ok? then ClaimedTables(old(View()), now, worker, batch, leaseSeconds, locked)
        else old(View())
    {
      if Blank(worker) || batch <= 0 {
        return Err(InvalidClaim);
      }
      var eligible := set e | e in events && Eligible(events[e], now) && e !in locked;
      assert eligible == Candidates(View(), now, locked);
      var picked := PickFirst(events, eligible, Clamp(batch, 1, 250));
      var handles := HandlesOf(Tables(events, log), worker, picked);
      events := LeaseEach(events, picked, now, worker, leaseSeconds);
      r := Ok(handles);
    }

    method MarkPublished(now: Time, h: Handle) returns (r: Result<(), Error>)
      modifies this
      ensures var spec := Publish(old(View()), now, h);
              if spec.Ok? then r == Ok(()) && View() == spec.value
              else r == Err(spec.error) && View() == old(View())
    {
      if h.event !in events || events[h.event].status != Pending {
        return Err(LeaseLost);
      }
      var row := events[h.event];
      if row.lease.None? || row.lease.value.owner != h.worker {
        return Err(LeaseLost);
      }
      var updated := events[h.event := PublishedRow(row, now)];
      if (h.event, h.attempt) in log {
        return Err(DuplicateRow);
      }
      events := updated;
      log := log[(h.event, h.attempt) := Delivery(h.worker, Delivered, None)];
      r := Ok(());
    }

    method MarkFailed(now: Time, h: Handle, code: string, maxAttempts: int, retrySeconds: nat)
      returns (r: Result<Disposition, Error>)
      modifies this
      ensures var spec := Fail(old(View()), now, h, code, maxAttempts, retrySeconds);
              if spec.Ok? then r == Ok(if h.attempt >= maxAttempts then Dead else Retry) && View() == spec.value
              else r == Err(spec.error) && View() == old(View())
    {
      if Blank(code) || maxAttempts <= 0 {
        return Err(InvalidFailure);
      }
      var deadLetter := h.attempt >= maxAttempts;
      if h.event !in events || events[h.event].lease.None? || events[h.event].lease.value.owner != h.worker {
        return Err(LeaseLost);
      }
      var row := events[h.event].(lease := None, lastError := Some((code, now)));
      if deadLetter {
        row := row.(status := DeadLetter, deadLetteredAt := Some(now));
      } else {
        row := row.(status := Failed, availableAt := now + SECOND * Clamp(retrySeconds, 1, 3600));
      }
      if (h.event, h.attempt) in log {
        return Err(DuplicateRow);
      }
      events := events[h.event := row];
      log := log[(h.event, h.attempt) := Delivery(h.worker, if deadLetter then Abandoned else Retried, Some(code))];
      r := Ok(if deadLetter then Dead else Retry);
    }

    /** What a dispatcher spawns for one claimed event. */
    method Deliver(now: Time, h: Handle, maxAttempts: int, published: Option<string>) returns (r: Result<(), Error>)
      modifies this
      ensures var spec := Delivering(old(View()), now, h, maxAttempts, published);
              if spec.Ok? then r == Ok(()) && View() == spec.value
              else r == Err(spec.error) && View() == old(View())
    {
      match published {
        case None =>
          r := MarkPublished(now, h);
        case Some(code) =>
          var marked := MarkFailed(now, h, code, maxAttempts, RetryDelay(h.attempt));
          r := if marked.Ok? then Ok(()) else Err(marked.error);
      }
    }

    /** One dispatcher round with no other worker in between. */
    method DispatchOnce(round: Round, batch: int) returns (r: Result<nat, Error>)
      requires !Blank(round.worker) && round.maxAttempts > 0
      requires LogBehind(Tables(events, log))
      modifies this
      ensures batch <= 0 ==> r == Err(InvalidClaim) && View() == old(View())
      ensures batch > 0 ==>
        var picked := ClaimedIds(old(View()), round.claimedAt, batch, {});
        && View() == SettledTables(old(View()), round, picked, picked)
        && r == if AllSettle(old(View()), round, picked) then Ok(|picked|) else Err(InvalidFailure)
    {
      ghost var t := View();
      ghost var picked := ClaimedIds(t, round.claimedAt, batch, {});
      var claimed := Claim(round.claimedAt, round.worker, batch, 30, {});
      if claimed.Err? {
        return Err(claimed.error);
      }
      HandlesCount(t, round.worker, picked);
      NothingSettled(t, round, batch);
      var settled := DeliverAll(round, claimed.value, t, picked);
      r := if settled.Ok? then Ok(|claimed.value|) else Err(settled.error);
    }

    /** Delivers the events of one round, which began with tables `t` and claimed `picked`. */
    method DeliverAll(round: Round, handles: set<Handle>, ghost t: Tables, ghost picked: set<EventId>)
      returns (r: Result<(), Error>)
      requires picked <= t.events.Keys && handles == HandlesOf(t, round.worker, picked)
      requires LogBehind(t) && View() == SettledTables(t, round, picked, {})
      modifies this
      ensures View() == SettledTables(t, round, picked, picked)
      ensures r == if AllSettle(t, round, picked) then Ok(()) else Err(InvalidFailure)
    {
      var todo := handles;
      ghost var done := {};
      assert picked - done == picked;
      r := Ok(());
      while todo != {}
        invariant done <= picked && todo == HandlesOf(t, round.worker, picked - done)
        invariant View() == SettledTables(t, round, picked, done)
        invariant r == if AllSettle(t, round, done) then Ok(()) else Err(InvalidFailure)
      {
        var h :| h in todo;
        HandleOfSome(t, round.worker, picked - done, h);
        SettleOne(t, round, picked, done, h.event);
        var delivered := Deliver(round.resolvedAt(h), h, round.maxAttempts, round.publish(h));
        if delivered.Err? { r := delivered; }
        HandlesWithout(t, round.worker, picked, done, h.event);
        done := done + {h.event};
        todo := todo - {h};
      }
      HandlesCount(t, round.worker, picked - done);
      assert done == picked;
    }
  }

  // --------------------------------------------------------- a dispatcher round

  /**
   A round: when its claim runs, how each publication ends and when its result is recorded. Every
   delivery has its own time.
   */
  datatype Round = Round(
    worker: string,
    maxAttempts: int,
    claimedAt: Time,
    publish: Handle -> Option<string>,
    resolvedAt: Handle -> Time)

  /** No logged attempt of an event is ahead of its counter. */
  predicate LogBehind(t: Tables) {
    forall key :: key in t.log && key.0 in t.events ==> key.1 <= t.events[key.0].attempts
  }

  /** Whether a publication outcome can be recorded: a failure needs an error code. */
  predicate Settles(round: Round, h: Handle) {
    round.publish(h).None? || ValidFailure(round.publish(h).value, round.maxAttempts)
  }

  predicate AllSettle(t: Tables, round: Round, ids: set<EventId>)
    requires ids <= t.events.Keys
  {
    forall e :: e in ids ==> Settles(round, HandleOf(t, round.worker, e))
  }

  function LeasedIn(row: EventRow, round: Round): EventRow {
    Leased(row, round.claimedAt, round.worker, 30)
  }

  /** What one round makes of an event; a failure without a code leaves it leased. */
  function Settled(row: EventRow, round: Round, h: Handle): EventRow {
    var leased, now, published := LeasedIn(row, round), round.resolvedAt(h), round.publish(h);
    if published.None? then PublishedRow(leased, now)
    else if !Settles(round, h) then leased
    else FailedRow(leased, now, h.attempt, published.value, round.maxAttempts, RetryDelay(h.attempt))
  }

  function SettledLog(round: Round, h: Handle): Delivery {
    if round.publish(h).None? then Delivery(h.worker, Delivered, None)
    else Delivery(h.worker, if h.attempt >= round.maxAttempts then Abandoned else Retried, round.publish(h))
  }

  /** The events once those in `picked` are claimed and those in `done` are settled too. */
  ghost function SettledEvents(t: Tables, round: Round, picked: set<EventId>, done: set<EventId>)
    : map<EventId, EventRow>
  {
    map e | e in t.events ::
      if e in done then Settled(t.events[e], round, HandleOf(t, round.worker, e))
      else if e in picked then LeasedIn(t.events[e], round)
      else t.events[e]
  }

  ghost function SettledKeys(t: Tables, round: Round, done: set<EventId>): set<(EventId, nat)>
    requires done <= t.events.Keys
  {
    set e | e in done && Settles(round, HandleOf(t, round.worker, e)) :: (e, t.events[e].attempts + 1)
  }

  ghost function LogWith(log: map<(EventId, nat), Delivery>, round: Round, keys: set<(EventId, nat)>)
    : map<(EventId, nat), Delivery>
  {
    log + map key | key in keys :: SettledLog(round, Handle(key.0, key.1, round.worker))
  }

  ghost function SettledLogs(t: Tables, round: Round, done: set<EventId>): map<(EventId, nat), Delivery>
    requires done <= t.events.Keys
  {
    LogWith(t.log, round, SettledKeys(t, round, done))
  }

  ghost function SettledTables(t: Tables, round: Round, picked: set<EventId>, done: set<EventId>): Tables
    requires done <= picked <= t.events.Keys
  {
    Tables(SettledEvents(t, round, picked, done), SettledLogs(t, round, done))
  }

  lemma NothingSettled(t: Tables, round: Round, batch: int)
    ensures SettledTables(t, round, ClaimedIds(t, round.claimedAt, batch, {}), {})
         == ClaimedTables(t, round.claimedAt, round.worker, batch, 30, {})
  {
    assert SettledKeys(t, round, {}) == {};
  }

  /** Delivering a leased event settles it, unless its failure has no code. */
  lemma DeliverLeased(t: Tables, round: Round, row: EventRow, h: Handle)
    requires h.event in t.events && t.events[h.event] == LeasedIn(row, round)
    requires h.worker == round.worker && (h.event, h.attempt) !in t.log
    ensures Delivering(t, round.resolvedAt(h), h, round.maxAttempts, round.publish(h)) ==
      if Settles(round, h)
      then Ok(Tables(t.events[h.event := Settled(row, round, h)], t.log[(h.event, h.attempt) := SettledLog(round, h)]))
      else Err(InvalidFailure)
  {}

  /** Delivering one event settles exactly that event and leaves the rest of the round as it was. */
  lemma SettleOne(t: Tables, round: Round, picked: set<EventId>, done: set<EventId>, e: EventId)
    requires done <= picked <= t.events.Keys && e in picked - done && LogBehind(t)
    ensures var before, after := SettledTables(t, round, picked, done), SettledTables(t, round, picked, done + {e});
            var h := HandleOf(t, round.worker, e);
            var r := Delivering(before, round.resolvedAt(h), h, round.maxAttempts, round.publish(h));
            && (AllSettle(t, round, done + {e}) <==> AllSettle(t, round, done) && Settles(round, h))
            && (Settles(round, h) ==> r == Ok(after))
            && (!Settles(round, h) ==> r == Err(InvalidFailure) && before == after)
  {
    var h := HandleOf(t, round.worker, e);
    SettleOneEvent(t, round, picked, done, e);
    SettleOneLog(t, round, done, e);
    DeliverLeased(SettledTables(t, round, picked, done), round, t.events[e], h);
  }

  lemma SettleOneEvent(t: Tables, round: Round, picked: set<EventId>, done: set<EventId>, e: EventId)
    requires done <= picked <= t.events.Keys && e in picked - done
    ensures var before, after := SettledEvents(t, round, picked, done), SettledEvents(t, round, picked, done + {e});
            && e in before && before[e] == LeasedIn(t.events[e], round)
            && after == before[e := Settled(t.events[e], round, HandleOf(t, round.worker, e))]
            && (!Settles(round, HandleOf(t, round.worker, e)) ==> after == before)
  {}

  lemma SettleOneLog(t: Tables, round: Round, done: set<EventId>, e: EventId)
    requires done <= t.events.Keys && e in t.events.Keys - done && LogBehind(t)
    ensures var before, after := SettledLogs(t, round, done), SettledLogs(t, round, done + {e});
            var h := HandleOf(t, round.worker, e);
            && (e, h.attempt) !in before
            && after == if Settles(round, h) then before[(e, h.attempt) := SettledLog(round, h)] else before
  {
    var h := HandleOf(t, round.worker, e);
    SettleOneKey(t, round, done, e);
    LogGrows(t.log, round, SettledKeys(t, round, done), (e, h.attempt));
  }

  lemma SettleOneKey(t: Tables, round: Round, done: set<EventId>, e: EventId)
    requires done <= t.events.Keys && e in t.events.Keys - done
    ensures var keys, h := SettledKeys(t, round, done), HandleOf(t, round.worker, e);
            && (e, h.attempt) !in keys
            && SettledKeys(t, round, done + {e}) == if Settles(round, h) then keys + {(e, h.attempt)} else keys
  {}

  lemma LogGrows(log: map<(EventId, nat), Delivery>, round: Round, keys: set<(EventId, nat)>, key: (EventId, nat))
    ensures LogWith(log, round, keys + {key})
         == LogWith(log, round, keys)[key := SettledLog(round, Handle(key.0, key.1, round.worker))]
  {}
}
