/** What each outbox operation leaves behind, column by column, and how long a lease holds. */
module OutboxLaws {
  import opened Wrappers
  import opened Powers
  import opened Text
  import opened Outbox
  import opened OutboxRuns

  /** The length of a lease in seconds: what is asked for, between one second and five minutes. */
  function LeaseLength(leaseSeconds: nat): (s: nat)
    ensures 1 <= leaseSeconds <= 300 ==> s == leaseSeconds
    ensures leaseSeconds < 1 ==> s == 1
    ensures leaseSeconds > 300 ==> s == 300
  {
    if leaseSeconds < 1 then 1 else if leaseSeconds > 300 then 300 else leaseSeconds
  }

  /** A claim takes only due rows that nobody holds, and leases each for the length asked for. */
  lemma ClaimGrants(t: Tables, now: Time, worker: string, batch: int, leaseSeconds: nat, locked: set<EventId>,
                    h: Handle)
    requires h in ClaimedHandles(t, now, worker, batch, locked)
    ensures var t' := ClaimedTables(t, now, worker, batch, leaseSeconds, locked);
            && h.event in t.events && h.event in t'.events && h.event !in locked
            && var row, row' := t.events[h.event], t'.events[h.event];
               && (row.status == Pending || row.status == Failed) && row.availableAt <= now
               && (row.lease.Some? ==> row.lease.value.expiresAt < now)
               && h == Handle(h.event, row.attempts + 1, worker)
               && row'.lease == Some(Lease(worker, now + 1_000_000 * LeaseLength(leaseSeconds)))
               && row'.attempts == h.attempt && row'.status == Pending
               && row'.occurredAt == row.occurredAt && row'.availableAt == row.availableAt
               && row'.publishedAt == row.publishedAt && row'.deadLetteredAt == row.deadLetteredAt
               && row'.lastError == row.lastError
  {
    HandleOfSome(t, worker, ClaimedIds(t, now, batch, locked), h);
  }

  lemma HandleClaimed(t: Tables, now: Time, worker: string, batch: int, locked: set<EventId>, e: EventId)
    requires e in t.events
    ensures Handle(e, t.events[e].attempts + 1, worker) in ClaimedHandles(t, now, worker, batch, locked) <==>
      e in ClaimedIds(t, now, batch, locked)
  {
    var picked := ClaimedIds(t, now, batch, locked);
    if e in picked { HandleIn(t, worker, picked, e); }
  }

  lemma HandleIn(t: Tables, worker: string, ids: set<EventId>, e: EventId)
    requires e in ids && ids <= t.events.Keys
    ensures HandleOf(t, worker, e) in HandlesOf(t, worker, ids)
  {}

  /** Every other row, and the log, stay as they were. */
  lemma ClaimLeavesOthers(t: Tables, now: Time, worker: string, batch: int, leaseSeconds: nat, locked: set<EventId>,
                          e: EventId)
    requires forall h :: h in ClaimedHandles(t, now, worker, batch, locked) ==> h.event != e
    ensures var t' := ClaimedTables(t, now, worker, batch, leaseSeconds, locked);
            && t'.log == t.log && t'.events.Keys == t.events.Keys
            && (e in t.events ==> t'.events[e] == t.events[e])
  {
    if e in t.events { HandleClaimed(t, now, worker, batch, locked, e); }
  }

  predicate Earlier(x: EventRow, a: EventId, y: EventRow, b: EventId) {
    || x.availableAt < y.availableAt
    || (x.availableAt == y.availableAt && x.occurredAt < y.occurredAt)
    || (x.availableAt == y.availableAt && x.occurredAt == y.occurredAt && a < b)
  }

  /**
   A due row that nobody holds or locks is passed over only when the batch is full, and then every
   row taken comes before it.
   */
  lemma ClaimPassesOver(t: Tables, now: Time, worker: string, batch: int, locked: set<EventId>, e: EventId)
    requires batch > 0 && e in t.events && e !in locked
    requires t.events[e].status == Pending || t.events[e].status == Failed
    requires t.events[e].availableAt <= now
    requires t.events[e].lease.Some? ==> t.events[e].lease.value.expiresAt < now
    requires Handle(e, t.events[e].attempts + 1, worker) !in ClaimedHandles(t, now, worker, batch, locked)
    ensures |ClaimedHandles(t, now, worker, batch, locked)| == if batch > 250 then 250 else batch
    ensures forall h :: h in ClaimedHandles(t, now, worker, batch, locked) ==>
      h.event in t.events && Earlier(t.events[h.event], h.event, t.events[e], e)
  {
    var picked := ClaimedIds(t, now, batch, locked);
    HandleClaimed(t, now, worker, batch, locked, e);
    PassedOver(t, now, batch, locked, e);
    HandlesCount(t, worker, picked);
    forall h | h in ClaimedHandles(t, now, worker, batch, locked)
      ensures h.event in t.events && Earlier(t.events[h.event], h.event, t.events[e], e)
    {
      HandleOfSome(t, worker, picked, h);
    }
  }

  lemma PassedOver(t: Tables, now: Time, batch: int, locked: set<EventId>, e: EventId)
    requires batch > 0 && e in Candidates(t, now, locked) && e !in ClaimedIds(t, now, batch, locked)
    ensures |ClaimedIds(t, now, batch, locked)| == if batch > 250 then 250 else batch
    ensures forall a :: a in ClaimedIds(t, now, batch, locked) ==>
      a in t.events && Earlier(t.events[a], a, t.events[e], e)
  {
    var picked, candidates := ClaimedIds(t, now, batch, locked), Candidates(t, now, locked);
    PickFirstInOrder(t.events, candidates, Clamp(batch, 1, 250));
    if |candidates| < Clamp(batch, 1, 250) { SubsetOfSize(picked, candidates); }
    forall a | a in picked ensures a in t.events && Earlier(t.events[a], a, t.events[e], e) {
      assert e in candidates - picked && Before(t.events, a, e);
    }
  }

  lemma SubsetOfSize(a: set<EventId>, b: set<EventId>)
    requires a <= b && |a| == |b|
    ensures a == b
  {
    assert |b - a| == |b| - |a|;
  }

  /** A claim never returns more handles than the batch allows. */
  lemma ClaimWithinBatch(t: Tables, now: Time, worker: string, batch: int, locked: set<EventId>)
    requires batch > 0
    ensures |ClaimedHandles(t, now, worker, batch, locked)| <= if batch > 250 then 250 else batch
  {
    PickFirstInOrder(t.events, Candidates(t, now, locked), Clamp(batch, 1, 250));
    HandlesCount(t, worker, ClaimedIds(t, now, batch, locked));
  }

  /** A claim needs a worker that is named and a batch of at least one; without them nothing happens. */
  lemma ClaimNeeds(w: World, n: nat, batch: int, leaseSeconds: nat, locked: set<EventId>)
    ensures ValidClaim(Letters(n), batch) <==> n >= 1 && batch >= 1
    ensures !ValidClaim(" ", batch)
    ensures batch < 1 ==> Step(w, Claim(Letters(n), batch, leaseSeconds, locked)) == w
  {
    LettersAreText(n);
    assert Trim(" ") == [];
  }

  // ------------------------------------------------------------ how long a lease holds

  lemma {:induction false} NoNewHandles(w: World, actions: seq<Action>, e: EventId, g: Handle)
    requires e in w.t.events && w.t.events[e].lease.Some?
    requires Run(w, actions).now <= w.t.events[e].lease.value.expiresAt
    requires forall a :: a in actions ==> !EndsLease(a, e, w.t.events[e].lease.value.owner)
    requires g in Run(w, actions).issued && g.event == e
    ensures g in w.issued
    decreases |actions|
  {
    if actions != [] {
      var a := actions[0];
      assert a in actions;
      TimeAdvances(Step(w, a), actions[1..]);
      TimeAdvances(w, [a]);
      LeaseIsExclusive(w, [a], e);
      assert Run(w, [a]) == Step(w, a);
      NoNewHandles(Step(w, a), actions[1..], e, g);
      if a.Claim? { ClaimedRow(w, a.worker, a.batch, a.leaseSeconds, a.locked, e); }
    }
  }

  /**
   A claimed event belongs to its worker for the whole lease: as long as the clock has not passed
   the claim by more than the length asked for, no run in which that worker does not resolve the
   event changes its row or issues another handle on it.
   */
  lemma LeaseLasts(w: World, claim: Action, h: Handle, actions: seq<Action>)
    requires claim.Claim? && ValidClaim(claim.worker, claim.batch)
    requires h in ClaimedHandles(w.t, w.now, claim.worker, claim.batch, claim.locked)
    requires forall a :: a in actions ==> !EndsLease(a, h.event, claim.worker)
    requires Run(Step(w, claim), actions).now <= w.now + 1_000_000 * LeaseLength(claim.leaseSeconds)
    ensures var w1, w2 := Step(w, claim), Run(Step(w, claim), actions);
            && h.event in w1.t.events && h.event in w2.t.events
            && w2.t.events[h.event] == w1.t.events[h.event]
            && forall g :: g in w2.issued && g.event == h.event ==> g in w1.issued
  {
    var w1 := Step(w, claim);
    ClaimGrants(w.t, w.now, claim.worker, claim.batch, claim.leaseSeconds, claim.locked, h);
    LeaseIsExclusive(w1, actions, h.event);
    forall g | g in Run(w1, actions).issued && g.event == h.event ensures g in w1.issued {
      NoNewHandles(w1, actions, h.event, g);
    }
  }

  /** One microsecond later a row that is still as the claim left it can be claimed again. */
  lemma LeaseEnds(t: Tables, now: Time, worker: string, batch: int, leaseSeconds: nat, locked: set<EventId>, h: Handle,
                  t': Tables, later: Time, locked': set<EventId>)
    requires h in ClaimedHandles(t, now, worker, batch, locked) && h.event in t'.events && h.event !in locked'
    requires t'.events[h.event] == ClaimedTables(t, now, worker, batch, leaseSeconds, locked).events[h.event]
    ensures h.event in Candidates(t', later, locked') <==> later > now + 1_000_000 * LeaseLength(leaseSeconds)
  {
    ClaimGrants(t, now, worker, batch, leaseSeconds, locked, h);
  }

  // ------------------------------------------------------------------ resolving

  /** Publishing succeeds for the owner of a pending event whose attempt is not logged, and sets these columns. */
  lemma PublishOutcome(t: Tables, now: Time, h: Handle)
    ensures var r := Publish(t, now, h);
            && (r.Ok? <==>
                 && h.event in t.events && t.events[h.event].status == Pending
                 && t.events[h.event].lease.Some? && t.events[h.event].lease.value.owner == h.worker
                 && (h.event, h.attempt) !in t.log)
            && (r.Ok? ==>
                 var row := t.events[h.event];
                 var row' := EventRow(Published, None, row.attempts, row.occurredAt, row.availableAt, Some(now),
                                      row.deadLetteredAt, None);
                 && r.value.events == t.events[h.event := row']
                 && r.value.log == t.log[(h.event, h.attempt) := Delivery(h.worker, Delivered, None)])
            && (r.Err? ==> (r.error == DuplicateRow <==> Owns(t, h) && t.events[h.event].status == Pending))
            && (r.Err? && r.error != DuplicateRow ==> r.error == LeaseLost)
  {}

  /** A failure frees the event: a retry due after the seconds given, up to an hour, or a dead letter at the limit. */
  lemma FailOutcome(t: Tables, now: Time, h: Handle, code: string, maxAttempts: int, retrySeconds: nat)
    ensures var r := Fail(t, now, h, code, maxAttempts, retrySeconds);
            && (r.Ok? <==>
                 && !Blank(code) && maxAttempts > 0
                 && h.event in t.events && t.events[h.event].lease.Some?
                 && t.events[h.event].lease.value.owner == h.worker && (h.event, h.attempt) !in t.log)
            && (r.Err? && (Blank(code) || maxAttempts <= 0) ==> r.error == InvalidFailure)
            && (r.Ok? ==>
                 var row, row', d := t.events[h.event], r.value.events[h.event], r.value.log[(h.event, h.attempt)];
                 && r.value.events == t.events[h.event := row'] && r.value.log == t.log[(h.event, h.attempt) := d]
                 && row'.lease == None && row'.lastError == Some((code, now)) && row'.attempts == row.attempts
                 && row'.occurredAt == row.occurredAt && row'.publishedAt == row.publishedAt
                 && d.worker == h.worker && d.errorCode == Some(code)
                 && (h.attempt >= maxAttempts ==>
                       && row'.status == DeadLetter && row'.deadLetteredAt == Some(now)
                       && row'.availableAt == row.availableAt && d.outcome == Abandoned)
                 && (h.attempt < maxAttempts ==>
                       && row'.status == Failed && row'.deadLetteredAt == row.deadLetteredAt && d.outcome == Retried
                       && row'.availableAt >= now + 1_000_000
                       && (1 <= retrySeconds <= 3600 ==> row'.availableAt == now + 1_000_000 * retrySeconds)
                       && (retrySeconds > 3600 ==> row'.availableAt == now + 3_600_000_000)
                       && (retrySeconds < 1 ==> row'.availableAt == now + 1_000_000)))
  {}

  /** A failed delivery below the limit is due again after the delay of its attempt: 1, 2, 4, up to 60 seconds. */
  lemma FailedDeliveryWaits(t: Tables, now: Time, h: Handle, code: string, maxAttempts: int)
    requires 0 < h.attempt < maxAttempts && Delivering(t, now, h, maxAttempts, Some(code)).Ok?
    ensures var row := Delivering(t, now, h, maxAttempts, Some(code)).value.events[h.event];
            && row.status == Failed
            && row.availableAt == now + 1_000_000 * (TotalDelay(h.attempt) - TotalDelay(h.attempt - 1))
  {
    DelayIsDifference(h.attempt);
  }

  /** A delivery that succeeds publishes. */
  lemma DeliveryPublishes(t: Tables, now: Time, h: Handle, maxAttempts: int)
    requires Delivering(t, now, h, maxAttempts, None).Ok?
    ensures h.event in t.events
    ensures var t' := Delivering(t, now, h, maxAttempts, None).value;
            t'.events[h.event].status == Published && t'.events[h.event].publishedAt == Some(now)
  {}

  /** A new event is due at once, with no attempt made and nothing recorded. */
  lemma NewEventIsDue(w: World, e: EventId, locked: set<EventId>)
    requires e !in w.t.events && e !in locked
    ensures var w' := Step(w, Enqueue(e));
            && e in Candidates(w'.t, w.now, locked)
            && w'.t.events == w.t.events[e := EventRow(Pending, None, 0, w.now, w.now, None, None, None)]
            && w'.t.log == w.t.log
  {}

  /** A dispatcher's round holds its events for thirty seconds. */
  lemma RoundHoldsThirtySeconds(t: Tables, round: Round, picked: set<EventId>, e: EventId)
    requires picked <= t.events.Keys && e in picked
    ensures SettledTables(t, round, picked, {}).events[e].lease ==
      Some(Lease(round.worker, round.claimedAt + 30_000_000))
  {}
}
