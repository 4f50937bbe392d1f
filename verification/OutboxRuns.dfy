/**
 Runs of the outbox: any number of workers claim, publish, fail, crash and claim again, in any
 interleaving.
 */
module OutboxRuns {
  import opened Wrappers
  import opened Outbox
  import opened Powers

  /**
   The tables together with two history variables: every handle a claim ever returned, and the
   handles still in some worker's hands.
   */
  datatype World = World(now: Time, t: Tables, issued: set<Handle>, held: set<Handle>)

  const EMPTY_WORLD := World(0, Tables(map[], map[]), {}, {})

  /**
   One atomic step of the system. A worker resolves a handle at most once, whatever the answer,
   and a crash is a worker forgetting a handle.
   */
  datatype Action =
    | Tick(duration: nat)
    | Enqueue(id: EventId)
    | Claim(worker: string, batch: int, leaseSeconds: nat, locked: set<EventId>)
    | MarkPublished(h: Handle)
    | MarkFailed(h: Handle, code: string, maxAttempts: int, retrySeconds: nat)
    | Crash(h: Handle)

  function Resolved(w: World, h: Handle, r: Result<Tables, Error>): World {
    w.(t := if r.Ok? then r.value else w.t, held := w.held - {h})
  }

  function Step(w: World, a: Action): World {
    match a
    case Tick(duration) => w.(now := w.now + duration)
    case Enqueue(id) =>
      if id in w.t.events then w
      else w.(t := w.t.(events := w.t.events[id := NewEvent(w.now)]))
    case Claim(worker, batch, leaseSeconds, locked) =>
      if !ValidClaim(worker, batch) then w
      else
        var handles := ClaimedHandles(w.t, w.now, worker, batch, locked);
        World(w.now, ClaimedTables(w.t, w.now, worker, batch, leaseSeconds, locked),
              w.issued + handles, w.held + handles)
    case MarkPublished(h) =>
      if h !in w.held then w else Resolved(w, h, Publish(w.t, w.now, h))
    case MarkFailed(h, code, maxAttempts, retrySeconds) =>
      if h !in w.held then w else Resolved(w, h, Fail(w.t, w.now, h, code, maxAttempts, retrySeconds))
    case Crash(h) => w.(held := w.held - {h})
  }

  function Run(w: World, actions: seq<Action>): World
    decreases |actions|
  {
    if actions == [] then w else Run(Step(w, actions[0]), actions[1..])
  }

  // -------------------------------------------------------------- invariant

  predicate RowConsistent(row: EventRow) {
    && (row.lease.Some? ==> row.status == Pending && row.attempts > 0)
    && (row.publishedAt.Some? <==> row.status == Published)
    && (row.deadLetteredAt.Some? <==> row.status == DeadLetter)
    && (row.status == Pending && row.lease.None? ==> row.attempts == 0)
  }

  ghost predicate HasHandle(handles: set<Handle>, e: EventId, k: nat) {
    exists h :: h in handles && h.event == e && h.attempt == k
  }

  /** The handles issued for an event are numbered 1 up to its attempt counter, one each. */
  ghost predicate IssuedNumbered(w: World) {
    && (forall h :: h in w.issued ==> h.event in w.t.events && 1 <= h.attempt <= w.t.events[h.event].attempts)
    && (forall g, h :: g in w.issued && h in w.issued && g.event == h.event && g.attempt == h.attempt ==> g == h)
    && (forall e, k: nat :: e in w.t.events ==> (HasHandle(w.issued, e, k) <==> 1 <= k <= w.t.events[e].attempts))
    && (forall e :: e in w.t.events && w.t.events[e].lease.Some? ==>
          Handle(e, w.t.events[e].attempts, w.t.events[e].lease.value.owner) in w.issued)
  }

  /** A logged attempt belongs to an issued handle that nobody holds any more. */
  ghost predicate LogFromIssued(w: World) {
    && w.held <= w.issued
    && (forall key :: key in w.t.log ==> Handle(key.0, key.1, w.t.log[key].worker) in w.issued)
    && (forall h :: h in w.held ==> (h.event, h.attempt) !in w.t.log)
  }

  predicate TerminalKind(d: Delivery, status: Status) {
    (d.outcome == Delivered && status == Published) || (d.outcome == Abandoned && status == DeadLetter)
  }

  predicate TerminalRow(t: Tables, e: EventId, k: nat) {
    (e, k) in t.log && t.log[(e, k)].outcome != Retried
  }

  /** An event has a terminal log row exactly when it is terminal, of the right kind, and only one. */
  ghost predicate TerminalLogged(t: Tables) {
    && (forall e, k :: TerminalRow(t, e, k) ==> e in t.events && TerminalKind(t.log[(e, k)], t.events[e].status))
    && (forall e :: e in t.events && Terminal(t.events[e]) ==> exists k :: TerminalRow(t, e, k))
    && (forall e, j, k :: TerminalRow(t, e, j) && TerminalRow(t, e, k) ==> j == k)
  }

  ghost predicate Inv(w: World) {
    && (forall e :: e in w.t.events ==> RowConsistent(w.t.events[e]))
    && IssuedNumbered(w)
    && LogFromIssued(w)
    && TerminalLogged(w.t)
  }

  // ------------------------------------------------------- every step keeps it

  lemma ClaimedRow(w: World, worker: string, batch: int, leaseSeconds: nat, locked: set<EventId>, e: EventId)
    requires e in w.t.events
    ensures var t' := ClaimedTables(w.t, w.now, worker, batch, leaseSeconds, locked);
            var handles := ClaimedHandles(w.t, w.now, worker, batch, locked);
            && t'.log == w.t.log && t'.events.Keys == w.t.events.Keys
            && (|| t'.events[e] == w.t.events[e]
                || (&& Eligible(w.t.events[e], w.now)
                    && t'.events[e] == Leased(w.t.events[e], w.now, worker, leaseSeconds)))
            && (t'.events[e].attempts > w.t.events[e].attempts <==>
                  Handle(e, w.t.events[e].attempts + 1, worker) in handles)
            && (forall h :: h in handles && h.event == e ==> h == Handle(e, w.t.events[e].attempts + 1, worker))
  {}

  lemma ClaimKeepsNumbering(w: World, worker: string, batch: int, leaseSeconds: nat, locked: set<EventId>)
    requires Inv(w) && ValidClaim(worker, batch)
    ensures IssuedNumbered(Step(w, Claim(worker, batch, leaseSeconds, locked)))
  {
    var w' := Step(w, Claim(worker, batch, leaseSeconds, locked));
    var handles := ClaimedHandles(w.t, w.now, worker, batch, locked);
    forall e | e in w.t.events
      ensures e in w'.t.events && ClaimNumbers(w.t.events[e], w'.t.events[e], handles, worker, e)
    {
      ClaimedRow(w, worker, batch, leaseSeconds, locked, e);
    }
    NumberingGrows(w, w', handles, worker);
  }

  /** What a claim means for one event: nothing, or a lease and one new handle with the next number. */
  ghost predicate ClaimNumbers(row: EventRow, row': EventRow, handles: set<Handle>, worker: string, e: EventId) {
    || (row' == row && forall h :: h in handles ==> h.event != e)
    || (&& row'.attempts == row.attempts + 1 && row'.lease.Some? && row'.lease.value.owner == worker
        && Handle(e, row'.attempts, worker) in handles
        && forall h :: h in handles && h.event == e ==> h == Handle(e, row'.attempts, worker))
  }

  lemma NumberingGrows(w: World, w': World, handles: set<Handle>, worker: string)
    requires IssuedNumbered(w) && w'.t.events.Keys == w.t.events.Keys && w'.issued == w.issued + handles
    requires forall h :: h in handles ==> h.event in w.t.events
    requires forall e :: e in w.t.events ==> ClaimNumbers(w.t.events[e], w'.t.events[e], handles, worker, e)
    ensures IssuedNumbered(w')
  {
    forall e, k: nat | e in w.t.events
      ensures HasHandle(w'.issued, e, k) <==> 1 <= k <= w'.t.events[e].attempts
    {
      NumberingOf(w, w', handles, worker, e, k);
    }
  }

  lemma NumberingOf(w: World, w': World, handles: set<Handle>, worker: string, e: EventId, k: nat)
    requires e in w.t.events && e in w'.t.events && w'.issued == w.issued + handles
    requires HasHandle(w.issued, e, k) <==> 1 <= k <= w.t.events[e].attempts
    requires ClaimNumbers(w.t.events[e], w'.t.events[e], handles, worker, e)
    ensures HasHandle(w'.issued, e, k) <==> 1 <= k <= w'.t.events[e].attempts
  {
    assert HasHandle(w'.issued, e, k) <==> HasHandle(w.issued, e, k) || HasHandle(handles, e, k);
  }

  lemma ClaimKeepsTables(w: World, worker: string, batch: int, leaseSeconds: nat, locked: set<EventId>)
    requires Inv(w) && ValidClaim(worker, batch)
    ensures var w' := Step(w, Claim(worker, batch, leaseSeconds, locked));
            (forall e :: e in w'.t.events ==> RowConsistent(w'.t.events[e])) && TerminalLogged(w'.t)
  {
    var w' := Step(w, Claim(worker, batch, leaseSeconds, locked));
    forall e | e in w.t.events
      ensures RowConsistent(w'.t.events[e])
      ensures Terminal(w'.t.events[e]) <==> Terminal(w.t.events[e])
      ensures Terminal(w.t.events[e]) ==> w'.t.events[e] == w.t.events[e]
    {
      ClaimedRow(w, worker, batch, leaseSeconds, locked, e);
    }
    SameTerminalLog(w.t, w'.t);
  }

  /** Terminal rows are unaffected by a step that leaves the log and the terminal events alone. */
  lemma SameTerminalLog(t: Tables, t': Tables)
    requires TerminalLogged(t) && t'.log == t.log && t.events.Keys <= t'.events.Keys
    requires forall e :: e in t.events ==>
      if Terminal(t.events[e]) then t'.events[e] == t.events[e] else !Terminal(t'.events[e])
    requires forall e :: e in t'.events && e !in t.events ==> !Terminal(t'.events[e])
    ensures TerminalLogged(t')
  {
    forall e, k ensures TerminalRow(t', e, k) <==> TerminalRow(t, e, k) {}
    forall e | e in t'.events && Terminal(t'.events[e]) ensures exists k :: TerminalRow(t', e, k) {
      var k :| TerminalRow(t, e, k);
      assert TerminalRow(t', e, k);
    }
  }

  lemma ClaimKeepsLog(w: World, worker: string, batch: int, leaseSeconds: nat, locked: set<EventId>)
    requires Inv(w) && ValidClaim(worker, batch)
    ensures LogFromIssued(Step(w, Claim(worker, batch, leaseSeconds, locked)))
  {
    forall h | h in ClaimedHandles(w.t, w.now, worker, batch, locked)
      ensures (h.event, h.attempt) !in w.t.log
    {
      ClaimedRow(w, worker, batch, leaseSeconds, locked, h.event);
    }
  }

  /** A handle in some worker's hands never meets its own log row. */
  lemma HeldHandleHasNoRow(w: World, h: Handle)
    requires Inv(w) && h in w.held
    ensures h.event in w.t.events && (h.event, h.attempt) !in w.t.log
    ensures forall code, max, seconds :: Fail(w.t, w.now, h, code, max, seconds) != Err(DuplicateRow)
    ensures Publish(w.t, w.now, h) != Err(DuplicateRow)
  {}

  /** What `Publish` and `Fail` do to an event and the log when they succeed. */
  ghost predicate Resolves(w: World, h: Handle, row: EventRow, d: Delivery) {
    && h in w.held && Owns(w.t, h)
    && row.attempts == w.t.events[h.event].attempts && row.lease.None? && RowConsistent(row)
    && d.worker == h.worker && row.status != Pending
    && if d.outcome == Retried then row.status == Failed else TerminalKind(d, row.status)
  }

  lemma RecordKeepsNumbering(w: World, h: Handle, row: EventRow, d: Delivery)
    requires Inv(w) && Resolves(w, h, row, d)
    ensures IssuedNumbered(Resolved(w, h, Record(w.t, h, row, d)))
  {
    var w' := Resolved(w, h, Record(w.t, h, row, d));
    forall e, k: nat | e in w'.t.events
      ensures HasHandle(w'.issued, e, k) <==> 1 <= k <= w'.t.events[e].attempts
    {
      assert HasHandle(w.issued, e, k) <==> 1 <= k <= w.t.events[e].attempts;
    }
  }

  lemma RecordKeepsTerminal(w: World, h: Handle, row: EventRow, d: Delivery)
    requires TerminalLogged(w.t) && Resolves(w, h, row, d) && RowConsistent(w.t.events[h.event])
    ensures TerminalLogged(Resolved(w, h, Record(w.t, h, row, d)).t)
  {
    var t' := Resolved(w, h, Record(w.t, h, row, d)).t;
    assert w.t.events[h.event].status == Pending;
    forall e, k: nat | TerminalRow(t', e, k)
      ensures if (e, k) == (h.event, h.attempt) then d.outcome != Retried else TerminalRow(w.t, e, k) && e != h.event
    {
      if (e, k) != (h.event, h.attempt) { assert TerminalRow(w.t, e, k); }
    }
    forall e | e in t'.events && Terminal(t'.events[e]) ensures exists k :: TerminalRow(t', e, k) {
      if e == h.event {
        assert TerminalRow(t', e, h.attempt);
      } else {
        var k :| TerminalRow(w.t, e, k);
        assert TerminalRow(t', e, k);
      }
    }
  }

  lemma RecordKeepsLog(w: World, h: Handle, row: EventRow, d: Delivery)
    requires Inv(w) && Resolves(w, h, row, d)
    ensures LogFromIssued(Resolved(w, h, Record(w.t, h, row, d)))
  {
    assert h == Handle(h.event, h.attempt, d.worker);
  }

  lemma RecordKeeps(w: World, h: Handle, row: EventRow, d: Delivery)
    requires Inv(w) && Resolves(w, h, row, d)
    ensures Inv(Resolved(w, h, Record(w.t, h, row, d)))
  {
    RecordKeepsNumbering(w, h, row, d);
    RecordKeepsTerminal(w, h, row, d);
    RecordKeepsLog(w, h, row, d);
  }

  lemma EnqueueKeeps(w: World, id: EventId)
    requires Inv(w) && id !in w.t.events
    ensures Inv(Step(w, Enqueue(id)))
  {
    var w' := Step(w, Enqueue(id));
    forall e, k: nat | e in w'.t.events
      ensures HasHandle(w'.issued, e, k) <==> 1 <= k <= w'.t.events[e].attempts
    {
      if e != id { assert HasHandle(w.issued, e, k) <==> 1 <= k <= w.t.events[e].attempts; }
    }
    SameTerminalLog(w.t, w'.t);
  }

  lemma PublishKeeps(w: World, h: Handle)
    requires Inv(w)
    ensures Inv(Step(w, MarkPublished(h)))
  {
    if h in w.held && Owns(w.t, h) {
      RecordKeeps(w, h, PublishedRow(w.t.events[h.event], w.now), Delivery(h.worker, Delivered, None));
    } else {
      ForgettingKeeps(w, h);
    }
  }

  lemma FailKeeps(w: World, h: Handle, code: string, max: int, seconds: nat)
    requires Inv(w)
    ensures Inv(Step(w, MarkFailed(h, code, max, seconds)))
  {
    if h in w.held && Owns(w.t, h) && ValidFailure(code, max) {
      RecordKeeps(w, h, FailedRow(w.t.events[h.event], w.now, h.attempt, code, max, seconds),
                  Delivery(h.worker, if h.attempt >= max then Abandoned else Retried, Some(code)));
    } else {
      ForgettingKeeps(w, h);
    }
  }

  lemma StepKeeps(w: World, a: Action)
    requires Inv(w)
    ensures Inv(Step(w, a))
  {
    match a
    case Enqueue(id) =>
      if id !in w.t.events { EnqueueKeeps(w, id); }
    case Claim(worker, batch, leaseSeconds, locked) =>
      if ValidClaim(worker, batch) {
        ClaimKeepsNumbering(w, worker, batch, leaseSeconds, locked);
        ClaimKeepsTables(w, worker, batch, leaseSeconds, locked);
        ClaimKeepsLog(w, worker, batch, leaseSeconds, locked);
      }
    case MarkPublished(h) => PublishKeeps(w, h);
    case MarkFailed(h, code, max, seconds) => FailKeeps(w, h, code, max, seconds);
    case Crash(h) => ForgettingKeeps(w, h);
    case Tick(duration) => TimeKeeps(w, duration);
  }

  lemma ForgettingKeeps(w: World, h: Handle)
    requires Inv(w)
    ensures Inv(w.(held := w.held - {h}))
  {
    var w' := w.(held := w.held - {h});
    assert IssuedNumbered(w');
  }

  lemma TimeKeeps(w: World, duration: nat)
    requires Inv(w)
    ensures Inv(w.(now := w.now + duration))
  {
    var w' := w.(now := w.now + duration);
    assert IssuedNumbered(w');
  }

  lemma {:induction false} RunKeeps(w: World, actions: seq<Action>)
    requires Inv(w)
    ensures Inv(Run(w, actions))
    decreases |actions|
  {
    if actions != [] {
      StepKeeps(w, actions[0]);
      RunKeeps(Step(w, actions[0]), actions[1..]);
    }
  }

  // ------------------------------------------------------------- main results

  /** In every reachable state. */
  lemma Reachable(actions: seq<Action>)
    ensures Inv(Run(EMPTY_WORLD, actions))
  {
    RunKeeps(EMPTY_WORLD, actions);
  }

  /** A held lease implies `Pending`, so the failure update needs no status test of its own. */
  lemma LeaseImpliesPending(actions: seq<Action>, h: Handle)
    requires Owns(Run(EMPTY_WORLD, actions).t, h)
    ensures Run(EMPTY_WORLD, actions).t.events[h.event].status == Pending
  {
    Reachable(actions);
  }

  lemma StepKeepsTerminal(w: World, a: Action, e: EventId)
    requires e in w.t.events && RowConsistent(w.t.events[e]) && Terminal(w.t.events[e])
    ensures e in Step(w, a).t.events && Step(w, a).t.events[e] == w.t.events[e]
    ensures forall k: nat :: (e, k) in Step(w, a).t.log <==> (e, k) in w.t.log
  {
    match a
    case Claim(worker, batch, leaseSeconds, locked) => ClaimedRow(w, worker, batch, leaseSeconds, locked, e);
    case _ =>
  }

  /** A published or dead-lettered event never changes again, and its log gets no further row. */
  lemma {:induction false} TerminalAbsorbing(w: World, actions: seq<Action>, e: EventId)
    requires Inv(w) && e in w.t.events && Terminal(w.t.events[e])
    ensures e in Run(w, actions).t.events && Run(w, actions).t.events[e] == w.t.events[e]
    ensures forall k: nat :: (e, k) in Run(w, actions).t.log <==> (e, k) in w.t.log
    decreases |actions|
  {
    if actions != [] {
      StepKeeps(w, actions[0]);
      StepKeepsTerminal(w, actions[0], e);
      TerminalAbsorbing(Step(w, actions[0]), actions[1..], e);
    }
  }

  ghost function IssuedFor(w: World, e: EventId): set<Handle> {
    set h | h in w.issued && h.event == e
  }

  lemma {:induction false} NumberedCount(handles: set<Handle>, e: EventId, n: nat)
    requires forall g, h :: g in handles && h in handles && g.attempt == h.attempt ==> g == h
    requires forall h :: h in handles ==> h.event == e && 1 <= h.attempt <= n
    requires forall k: nat :: 1 <= k <= n ==> HasHandle(handles, e, k)
    ensures |handles| == n
  {
    if n == 0 {
      assert handles == {};
    } else {
      assert HasHandle(handles, e, n);
      var last :| last in handles && last.attempt == n;
      forall k: nat | 1 <= k <= n - 1 ensures HasHandle(handles - {last}, e, k) {
        assert HasHandle(handles, e, k);
      }
      NumberedCount(handles - {last}, e, n - 1);
    }
  }

  /** The attempt counter of an event is the number of claims that returned it. */
  lemma AttemptsCountClaims(w: World, e: EventId)
    requires Inv(w) && e in w.t.events
    ensures |IssuedFor(w, e)| == w.t.events[e].attempts
  {
    forall k: nat | 1 <= k <= w.t.events[e].attempts ensures HasHandle(IssuedFor(w, e), e, k) {
      assert HasHandle(w.issued, e, k);
      var h :| h in w.issued && h.event == e && h.attempt == k;
      assert h in IssuedFor(w, e);
    }
    NumberedCount(IssuedFor(w, e), e, w.t.events[e].attempts);
  }

  // A fixed attempt limit.

  ghost predicate LimitIs(actions: seq<Action>, limit: int) {
    forall a :: a in actions && a.MarkFailed? ==> a.maxAttempts == limit
  }

  ghost predicate LogWithin(t: Tables, limit: int) {
    forall key :: key in t.log ==>
      && key.1 >= 1
      && (t.log[key].outcome == Retried ==> key.1 < limit)
      && (t.log[key].outcome == Abandoned ==> key.1 >= limit)
  }

  lemma StepLimit(w: World, a: Action, limit: int)
    requires forall h :: h in w.held ==> h.attempt >= 1
    requires LogWithin(w.t, limit) && (a.MarkFailed? ==> a.maxAttempts == limit)
    ensures LogWithin(Step(w, a).t, limit)
  {}

  lemma {:induction false} LimitKept(w: World, actions: seq<Action>, limit: int)
    requires Inv(w) && LimitIs(actions, limit) && LogWithin(w.t, limit)
    ensures LogWithin(Run(w, actions).t, limit)
    decreases |actions|
  {
    if actions != [] {
      var a := actions[0];
      assert a in actions;
      StepKeeps(w, a);
      assert forall h :: h in w.held ==> h in w.issued;
      StepLimit(w, a, limit);
      LimitKept(Step(w, a), actions[1..], limit);
    }
  }

  ghost function RetryAttempts(t: Tables, e: EventId): set<nat> {
    set key | key in t.log && key.0 == e && t.log[key].outcome == Retried :: key.1
  }

  lemma {:induction false} Pigeonhole(s: set<nat>, n: nat)
    requires forall k :: k in s ==> 1 <= k <= n
    ensures |s| <= n
  {
    if n > 0 {
      Pigeonhole(s - {n}, n - 1);
    } else {
      assert s == {};
    }
  }

  /**
   With one attempt limit for all workers: every retry row is below the limit, so an event has at
   most `limit - 1` of them, and an abandoned event was claimed at least `limit` times, whatever
   the crashes in between.
   */
  lemma AttemptLimit(actions: seq<Action>, limit: int, e: EventId)
    requires LimitIs(actions, limit) && limit > 0
    ensures var t := Run(EMPTY_WORLD, actions).t;
            && |RetryAttempts(t, e)| <= limit - 1
            && (forall k: nat :: (e, k) in t.log && t.log[(e, k)].outcome == Abandoned ==> k >= limit)
            && (e in t.events && t.events[e].status == DeadLetter ==> t.events[e].attempts >= limit)
  {
    var w := Run(EMPTY_WORLD, actions);
    Reachable(actions);
    LimitKept(EMPTY_WORLD, actions, limit);
    Pigeonhole(RetryAttempts(w.t, e), limit - 1);
    if e in w.t.events && w.t.events[e].status == DeadLetter {
      var k :| TerminalRow(w.t, e, k);
      assert Handle(e, k, w.t.log[(e, k)].worker) in w.issued;
    }
  }

  // Exclusive leases.

  /** The only actions that can end a lease of `worker` on `e` before it expires. */
  predicate EndsLease(a: Action, e: EventId, worker: string) {
    (a.MarkPublished? || a.MarkFailed?) && a.h.event == e && a.h.worker == worker
  }

  lemma {:induction false} TimeAdvances(w: World, actions: seq<Action>)
    ensures w.now <= Run(w, actions).now
    decreases |actions|
  {
    if actions != [] { TimeAdvances(Step(w, actions[0]), actions[1..]); }
  }

  /**
   While a lease runs nobody else can touch the event: whatever the other workers do, the row is
   unchanged until the owner resolves it or the lease expires.
   */
  lemma {:induction false} LeaseIsExclusive(w: World, actions: seq<Action>, e: EventId)
    requires e in w.t.events && w.t.events[e].lease.Some?
    requires Run(w, actions).now <= w.t.events[e].lease.value.expiresAt
    requires forall a :: a in actions ==> !EndsLease(a, e, w.t.events[e].lease.value.owner)
    ensures e in Run(w, actions).t.events && Run(w, actions).t.events[e] == w.t.events[e]
    decreases |actions|
  {
    if actions != [] {
      var a := actions[0];
      assert a in actions;
      TimeAdvances(Step(w, a), actions[1..]);
      TimeAdvances(w, [a]);
      if a.Claim? { ClaimedRow(w, a.worker, a.batch, a.leaseSeconds, a.locked, e); }
      LeaseIsExclusive(Step(w, a), actions[1..], e);
    }
  }

  /** Two claims in a row at one instant share no event, nor does a claim take a locked row. */
  lemma ConcurrentClaimsDisjoint(w: World, first: Action, second: Action)
    requires first.Claim? && second.Claim? && ValidClaim(first.worker, first.batch)
    ensures var w' := Step(w, first);
            var picked := ClaimedIds(w.t, w.now, first.batch, first.locked);
            && picked !! ClaimedIds(w'.t, w'.now, second.batch, second.locked)
            && picked !! first.locked
            && FirstInOrder(w.t.events, Candidates(w.t, w.now, first.locked), Clamp(first.batch, 1, 250), picked)
  {
    var w' := Step(w, first);
    PickFirstInOrder(w.t.events, Candidates(w.t, w.now, first.locked), Clamp(first.batch, 1, 250));
    forall e | e in ClaimedIds(w.t, w.now, first.batch, first.locked)
      ensures e !in ClaimedIds(w'.t, w'.now, second.batch, second.locked)
    {
      assert w'.t.events[e] == Leased(w.t.events[e], w.now, first.worker, first.leaseSeconds);
    }
  }

  // Fencing.

  /** No worker holds two handles on one event. */
  ghost predicate OneHandleEach(w: World) {
    forall g, h :: g in w.held && h in w.held && g.event == h.event && g.worker == h.worker ==> g == h
  }

  /** Whoever owns the lease can only be holding the newest handle. */
  ghost predicate Fenced(w: World) {
    forall h :: h in w.held && Owns(w.t, h) ==> h.attempt == w.t.events[h.event].attempts
  }

  /** Only a claim gives anybody ownership or moves an attempt counter. */
  lemma OwnershipShrinks(w: World, a: Action, h: Handle)
    requires !a.Claim? && Owns(Step(w, a).t, h)
    ensures Owns(w.t, h) && Step(w, a).t.events[h.event].attempts == w.t.events[h.event].attempts
  {}

  lemma ClaimFenced(w: World, a: Action, h: Handle)
    requires a.Claim? && ValidClaim(a.worker, a.batch)
    requires Fenced(w) && OneHandleEach(Step(w, a)) && h.event in w.t.events
    requires h in Step(w, a).held && Owns(Step(w, a).t, h)
    ensures h.attempt == Step(w, a).t.events[h.event].attempts
  {
    ClaimedRow(w, a.worker, a.batch, a.leaseSeconds, a.locked, h.event);
    var newest := Handle(h.event, w.t.events[h.event].attempts + 1, a.worker);
    if newest in ClaimedHandles(w.t, w.now, a.worker, a.batch, a.locked) {
      assert newest in Step(w, a).held && newest.worker == h.worker;
    }
  }

  lemma StepFenced(w: World, a: Action)
    requires Inv(w) && Fenced(w) && OneHandleEach(Step(w, a))
    ensures Fenced(Step(w, a))
  {
    forall h | h in Step(w, a).held && Owns(Step(w, a).t, h)
      ensures h.attempt == Step(w, a).t.events[h.event].attempts
    {
      if a.Claim? && ValidClaim(a.worker, a.batch) {
        assert h.event in w.t.events;
        ClaimFenced(w, a, h);
      } else if !a.Claim? {
        OwnershipShrinks(w, a, h);
      }
    }
  }

  ghost predicate OneHandleThroughout(w: World, actions: seq<Action>)
    decreases |actions|
  {
    OneHandleEach(w) && (actions == [] || OneHandleThroughout(Step(w, actions[0]), actions[1..]))
  }

  lemma {:induction false} RunFenced(w: World, actions: seq<Action>)
    requires Inv(w) && Fenced(w) && OneHandleThroughout(w, actions)
    ensures Inv(Run(w, actions)) && Fenced(Run(w, actions))
    decreases |actions|
  {
    if actions != [] {
      assert OneHandleThroughout(Step(w, actions[0]), actions[1..]);
      StepFenced(w, actions[0]);
      StepKeeps(w, actions[0]);
      RunFenced(Step(w, actions[0]), actions[1..]);
    }
  }

  /**
   Although neither expiry nor attempt is looked at, a superseded handle is always refused, provided
   no worker ever holds two handles on one event.
   */
  lemma SupersededRefused(actions: seq<Action>, h: Handle, code: string, max: int, seconds: nat)
    requires OneHandleThroughout(EMPTY_WORLD, actions)
    requires var w := Run(EMPTY_WORLD, actions);
             h in w.held && h.event in w.t.events && h.attempt < w.t.events[h.event].attempts
    ensures var w := Run(EMPTY_WORLD, actions);
            && Publish(w.t, w.now, h) == Err(LeaseLost)
            && (ValidFailure(code, max) ==> Fail(w.t, w.now, h, code, max, seconds) == Err(LeaseLost))
  {
    RunFenced(EMPTY_WORLD, actions);
  }

  /**
   In general a held handle is accepted exactly when its worker id owns the lease, which for a
   superseded one means that the same worker id holds the newest claim as well.
   */
  lemma AcceptedIffOwner(actions: seq<Action>, h: Handle, code: string, max: int, seconds: nat)
    requires h in Run(EMPTY_WORLD, actions).held && ValidFailure(code, max)
    ensures var w := Run(EMPTY_WORLD, actions);
            && (Publish(w.t, w.now, h).Ok? <==> Owns(w.t, h))
            && (Fail(w.t, w.now, h, code, max, seconds).Ok? <==> Owns(w.t, h))
            && (Owns(w.t, h) ==> Handle(h.event, w.t.events[h.event].attempts, h.worker) in w.issued)
  {
    Reachable(actions);
    HeldHandleHasNoRow(Run(EMPTY_WORLD, actions), h);
  }

  /**
   Without that proviso the claim is false: a worker whose lease ran out claims the event again and
   then publishes on its first handle.
   */
  lemma SupersededAccepted()
    ensures var w := Run(EMPTY_WORLD, [Enqueue(0), Claim("a", 1, 1, {}), Tick(2_000_000), Claim("a", 1, 1, {})]);
            && Handle(0, 1, "a") in w.held && 0 in w.t.events && w.t.events[0].attempts == 2
            && Publish(w.t, w.now, Handle(0, 1, "a")).Ok?
  {}

  // Retry timing.

  function TotalDelay(retries: nat): int {
    if retries <= 6 then Pow2(retries) - 1 else 63 + 60 * (retries - 6)
  }

  lemma DelayIsDifference(attempt: nat)
    requires attempt > 0
    ensures 1 <= RetryDelay(attempt) == TotalDelay(attempt) - TotalDelay(attempt - 1) <= 60
  {
    assert Pow2(0) == 1 && Pow2(1) == 2 && Pow2(2) == 4 && Pow2(3) == 8;
    assert Pow2(4) == 16 && Pow2(5) == 32 && Pow2(6) == 64;
  }

  // An event whose every delivery fails.

  /**
   What the step may do to event `e`: claim it once its last claim is resolved, and fail it with the
   limit and with the delay of the attempt. Other events are free.
   */
  predicate OnlyFails(w: World, a: Action, e: EventId, limit: int) {
    match a
    case MarkPublished(h) => h.event != e
    case Crash(h) => h.event != e
    case MarkFailed(h, code, max, seconds) =>
      h.event == e ==> ValidFailure(code, max) && max == limit && seconds == RetryDelay(h.attempt)
    case Claim(_, batch, _, locked) =>
      e in ClaimedIds(w.t, w.now, batch, locked) ==> w.t.events[e].lease.None?
    case _ => true
  }

  ghost predicate OnlyFailsThroughout(w: World, actions: seq<Action>, e: EventId, limit: int)
    decreases |actions|
  {
    actions == [] ||
    (OnlyFails(w, actions[0], e, limit) && OnlyFailsThroughout(Step(w, actions[0]), actions[1..], e, limit))
  }

  /** The claims of an event that have been resolved. */
  function ResolvedClaims(row: EventRow): int {
    row.attempts - if row.lease.Some? then 1 else 0
  }

  /** Claims come in the order of their delays, and only the last possible one is a dead letter. */
  predicate Scheduled(row: EventRow, now: Time, limit: int) {
    && row.status != Published && row.attempts <= limit && row.occurredAt <= now
    && (row.status == DeadLetter <==> ResolvedClaims(row) == limit)
    && (row.attempts == 0 ==> row.availableAt == row.occurredAt)
    && (row.lease.Some? ==> row.attempts > 0 && now >= row.occurredAt + SECOND * TotalDelay(row.attempts - 1))
    && (row.status == Failed ==>
          && row.lastError.Some? && row.availableAt == row.lastError.value.1 + SECOND * RetryDelay(row.attempts)
          && row.availableAt >= row.occurredAt + SECOND * TotalDelay(row.attempts))
  }

  /** Every resolved claim has its log row: a retry below the limit, the dead letter at it. */
  ghost predicate FailuresLogged(t: Tables, e: EventId, limit: int)
    requires e in t.events
  {
    && (forall k: nat :: (e, k) in t.log <==> 1 <= k <= ResolvedClaims(t.events[e]))
    && (forall k: nat :: (e, k) in t.log ==> t.log[(e, k)].outcome == if k < limit then Retried else Abandoned)
  }

  ghost predicate NewestHeld(w: World, e: EventId)
    requires e in w.t.events
  {
    forall h :: h in w.held && h.event == e ==> Owns(w.t, h) && h.attempt == w.t.events[e].attempts
  }

  ghost predicate Failing(w: World, e: EventId, limit: int) {
    e in w.t.events ==> Scheduled(w.t.events[e], w.now, limit) && FailuresLogged(w.t, e, limit) && NewestHeld(w, e)
  }

  lemma ClaimedOnSchedule(row: EventRow, now: Time, worker: string, leaseSeconds: nat, limit: int)
    requires RowConsistent(row) && Scheduled(row, now, limit) && Eligible(row, now) && row.lease.None? && limit > 0
    ensures var row' := Leased(row, now, worker, leaseSeconds);
            Scheduled(row', now, limit) && ResolvedClaims(row') == ResolvedClaims(row)
  {}

  lemma FailedOnSchedule(row: EventRow, now: Time, code: string, limit: int)
    requires RowConsistent(row) && Scheduled(row, now, limit) && row.lease.Some? && limit > 0
    ensures var row' := FailedRow(row, now, row.attempts, code, limit, RetryDelay(row.attempts));
            Scheduled(row', now, limit) && ResolvedClaims(row') == row.attempts == ResolvedClaims(row) + 1
  {
    DelayIsDifference(row.attempts);
  }

  /** A step that leaves the event and its log alone, and gives out no handle on it. */
  lemma OthersKeepFailing(w: World, w': World, e: EventId, limit: int)
    requires Failing(w, e, limit) && e in w.t.events
    requires e in w'.t.events && w'.t.events[e] == w.t.events[e] && w.now <= w'.now
    requires forall k: nat :: (e, k) in w'.t.log <==> (e, k) in w.t.log
    requires forall k: nat :: (e, k) in w.t.log ==> w'.t.log[(e, k)] == w.t.log[(e, k)]
    requires forall h :: h in w'.held && h.event == e ==> h in w.held
    ensures Failing(w', e, limit)
  {}

  lemma ClaimKeepsFailing(w: World, a: Action, e: EventId, limit: int)
    requires e in w.t.events && RowConsistent(w.t.events[e]) && Failing(w, e, limit) && limit > 0
    requires a.Claim? && ValidClaim(a.worker, a.batch) && OnlyFails(w, a, e, limit)
    ensures Failing(Step(w, a), e, limit)
  {
    ClaimedRow(w, a.worker, a.batch, a.leaseSeconds, a.locked, e);
    if e in ClaimedIds(w.t, w.now, a.batch, a.locked) {
      ClaimedOnSchedule(w.t.events[e], w.now, a.worker, a.leaseSeconds, limit);
    } else {
      OthersKeepFailing(w, Step(w, a), e, limit);
    }
  }

  lemma FailKeepsFailing(w: World, a: Action, e: EventId, limit: int)
    requires e in w.t.events && RowConsistent(w.t.events[e]) && Failing(w, e, limit) && limit > 0
    requires a.MarkFailed? && OnlyFails(w, a, e, limit)
    ensures Failing(Step(w, a), e, limit)
  {
    if a.h in w.held && a.h.event == e {
      FailedOnSchedule(w.t.events[e], w.now, a.code, limit);
    } else {
      OthersKeepFailing(w, Step(w, a), e, limit);
    }
  }

  lemma StepKeepsFailing(w: World, a: Action, e: EventId, limit: int)
    requires Inv(w) && Failing(w, e, limit) && OnlyFails(w, a, e, limit) && limit > 0
    ensures Failing(Step(w, a), e, limit)
  {
    if e !in w.t.events {
      EnqueueStartsFailing(w, a, e, limit);
    } else if a.Claim? && ValidClaim(a.worker, a.batch) {
      ClaimKeepsFailing(w, a, e, limit);
    } else if a.MarkFailed? {
      FailKeepsFailing(w, a, e, limit);
    } else {
      RestKeepsFailing(w, a, e, limit);
    }
  }

  lemma RestKeepsFailing(w: World, a: Action, e: EventId, limit: int)
    requires e in w.t.events && Failing(w, e, limit) && OnlyFails(w, a, e, limit)
    requires !a.MarkFailed? && (a.Claim? ==> !ValidClaim(a.worker, a.batch))
    ensures Failing(Step(w, a), e, limit)
  {
    OthersKeepFailing(w, Step(w, a), e, limit);
  }


  lemma EnqueueStartsFailing(w: World, a: Action, e: EventId, limit: int)
    requires Inv(w) && e !in w.t.events && limit > 0
    ensures Failing(Step(w, a), e, limit)
  {}

  lemma {:induction false} RunKeepsFailing(w: World, actions: seq<Action>, e: EventId, limit: int)
    requires Inv(w) && Failing(w, e, limit) && OnlyFailsThroughout(w, actions, e, limit) && limit > 0
    ensures Failing(Run(w, actions), e, limit)
    decreases |actions|
  {
    if actions != [] {
      StepKeepsFailing(w, actions[0], e, limit);
      StepKeeps(w, actions[0]);
      RunKeepsFailing(Step(w, actions[0]), actions[1..], e, limit);
    }
  }

  /**
   In every run, whatever happens to the other events: an event whose deliveries all fail is
   dead-lettered by its `limit`-th claim and no other, every earlier one is logged as a retry, each
   retry falls due its own delay after the failure, and no claim comes before the delays so far.
   */
  lemma AlwaysFailing(actions: seq<Action>, e: EventId, limit: int)
    requires limit > 0 && OnlyFailsThroughout(EMPTY_WORLD, actions, e, limit)
    requires e in Run(EMPTY_WORLD, actions).t.events
    ensures var w := Run(EMPTY_WORLD, actions); var row := w.t.events[e];
            && row.status != Published
            && |IssuedFor(w, e)| == row.attempts <= limit
            && (row.status == DeadLetter <==> row.attempts == limit && row.lease.None?)
            && (row.lease.Some? ==> row.attempts > 0 && w.now >= row.occurredAt + SECOND * TotalDelay(row.attempts - 1))
            && (row.status == Failed ==>
                  && row.availableAt >= row.occurredAt + SECOND * TotalDelay(row.attempts)
                  && row.lastError.Some?
                  && row.availableAt == row.lastError.value.1 + SECOND * RetryDelay(row.attempts))
            && FailuresLogged(w.t, e, limit)
  {
    Reachable(actions);
    RunKeepsFailing(EMPTY_WORLD, actions, e, limit);
    AttemptsCountClaims(Run(EMPTY_WORLD, actions), e);
  }

  // The bound on claims is exact: a worker that is never late meets it.

  lemma {:induction false} RunSnoc(w: World, actions: seq<Action>, a: Action, e: EventId, limit: int)
    requires OnlyFailsThroughout(w, actions, e, limit) && OnlyFails(Run(w, actions), a, e, limit)
    ensures Run(w, actions + [a]) == Step(Run(w, actions), a)
    ensures OnlyFailsThroughout(w, actions + [a], e, limit)
    decreases |actions|
  {
    if actions == [] {
      assert actions + [a] == [a];
      assert Run(w, [a]) == Run(Step(w, a), []);
    } else {
      assert (actions + [a])[1..] == actions[1..] + [a];
      RunSnoc(Step(w, actions[0]), actions[1..], a, e, limit);
    }
  }

  /** Event 0 alone in the outbox, not leased, failed `n` times and due `delay` from now. */
  predicate DueIn(w: World, n: nat, delay: nat) {
    && w.t.events.Keys == {0}
    && (forall key :: key in w.t.log ==> key.1 <= n)
    && Due(w.t.events[0], n, w.now + delay)
  }

  predicate Due(row: EventRow, n: nat, at: Time) {
    && row.lease.None? && row.attempts == n && row.occurredAt == 0 && row.availableAt == at
    && (row.status == Failed || row.status == Pending)
  }

  lemma SoleClaim(w: World, n: nat)
    requires DueIn(w, n, 0)
    ensures ClaimedIds(w.t, w.now, 1, {}) == {0} && ValidClaim("a", 1)
  {
    assert Candidates(w.t, w.now, {}) == {0};
    PickFirstInOrder(w.t.events, {0}, 1);
    var x :| x in ClaimedIds(w.t, w.now, 1, {});
  }

  lemma RunThree(before: seq<Action>, a: Action, b: Action, c: Action, e: EventId, limit: int)
    requires OnlyFailsThroughout(EMPTY_WORLD, before, e, limit)
    requires var w := Run(EMPTY_WORLD, before);
             && OnlyFails(w, a, e, limit) && OnlyFails(Step(w, a), b, e, limit)
             && OnlyFails(Step(Step(w, a), b), c, e, limit)
    ensures OnlyFailsThroughout(EMPTY_WORLD, before + [a, b, c], e, limit)
    ensures Run(EMPTY_WORLD, before + [a, b, c]) == Step(Step(Step(Run(EMPTY_WORLD, before), a), b), c)
  {
    RunSnoc(EMPTY_WORLD, before, a, e, limit);
    RunSnoc(EMPTY_WORLD, before + [a], b, e, limit);
    RunSnoc(EMPTY_WORLD, before + [a] + [b], c, e, limit);
    assert before + [a] + [b] + [c] == before + [a, b, c];
  }

  /** What is left of the single event after `n` rounds, the last of which just ended. */
  predicate AfterRound(w: World, n: nat, limit: int) {
    if n < limit then DueIn(w, n, SECOND * RetryDelay(n))
    else 0 in w.t.events && w.t.events[0].status == DeadLetter && w.t.events[0].occurredAt == 0
  }

  /** One round without slack: wait out the delay, claim, fail at once. */
  lemma PromptRound(before: seq<Action>, n: nat, delay: nat, limit: int) returns (actions: seq<Action>)
    requires OnlyFailsThroughout(EMPTY_WORLD, before, 0, limit)
    requires DueIn(Run(EMPTY_WORLD, before), n, delay) && n < limit
    ensures OnlyFailsThroughout(EMPTY_WORLD, actions, 0, limit)
    ensures Run(EMPTY_WORLD, actions).now == Run(EMPTY_WORLD, before).now + delay
    ensures AfterRound(Run(EMPTY_WORLD, actions), n + 1, limit)
  {
    var w := Run(EMPTY_WORLD, before);
    var tick, claim := Tick(delay), Claim("a", 1, 30, {});
    var fail := MarkFailed(Handle(0, n + 1, "a"), "x", limit, RetryDelay(n + 1));
    PromptSteps(w, n, delay, limit);
    RunThree(before, tick, claim, fail, 0, limit);
    actions := before + [tick, claim, fail];
  }

  lemma PromptSteps(w: World, n: nat, delay: nat, limit: int)
    requires DueIn(w, n, delay) && n < limit
    ensures var w1 := Step(w, Tick(delay)); var w2 := Step(w1, Claim("a", 1, 30, {}));
            var fail := MarkFailed(Handle(0, n + 1, "a"), "x", limit, RetryDelay(n + 1));
            && OnlyFails(w1, Claim("a", 1, 30, {}), 0, limit) && OnlyFails(w2, fail, 0, limit)
            && Step(w2, fail).now == w.now + delay && AfterRound(Step(w2, fail), n + 1, limit)
  {
    SoleClaim(Step(w, Tick(delay)), n);
    DelayIsDifference(n + 1);
  }

  lemma {:induction false} PromptRounds(n: nat, limit: int) returns (actions: seq<Action>)
    requires 0 < n <= limit
    ensures OnlyFailsThroughout(EMPTY_WORLD, actions, 0, limit)
    ensures Run(EMPTY_WORLD, actions).now == SECOND * TotalDelay(n - 1)
    ensures AfterRound(Run(EMPTY_WORLD, actions), n, limit)
    decreases n
  {
    if n == 1 {
      RunSnoc(EMPTY_WORLD, [], Enqueue(0), 0, limit);
      actions := PromptRound([] + [Enqueue(0)], 0, 0, limit);
    } else {
      var before := PromptRounds(n - 1, limit);
      actions := PromptRound(before, n - 1, SECOND * RetryDelay(n - 1), limit);
      DelayIsDifference(n - 1);
    }
  }

  /** For every limit some run dead-letters its event exactly when the delays add up, and not later. */
  lemma PromptDeadLetter(limit: int) returns (actions: seq<Action>)
    requires limit > 0
    ensures OnlyFailsThroughout(EMPTY_WORLD, actions, 0, limit)
    ensures var w := Run(EMPTY_WORLD, actions);
            && 0 in w.t.events && w.t.events[0].status == DeadLetter
            && w.now == w.t.events[0].occurredAt + SECOND * TotalDelay(limit - 1)
  {
    actions := PromptRounds(limit, limit);
  }
}
