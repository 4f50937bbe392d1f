/**
 Concurrent appends: transactions lock an organization's chain, read its tip, insert and commit or
 roll back, in any interleaving. Locks are held to the end of the transaction; an organization's
 lock key is a hash, so two organizations may share one.
 */
module AuditProtocol {
  import opened Wrappers
  import opened AuditChain

  type TxId = nat
  type Organization = nat

  datatype Tx = Tx(locks: set<int>, position: Option<Position>, pending: seq<Row>)

  datatype State = State(committed: seq<Row>, open: map<TxId, Tx>)

  datatype Action =
    | Begin(tx: TxId)
    | Lock(tx: TxId, organization: Organization)
    | ReadTip(tx: TxId, organization: Organization)
    | Insert(tx: TxId, id: nat, draft: Draft)
    | InsertUnsealed(tx: TxId, row: Row)
    | Commit(tx: TxId)
    | Rollback(tx: TxId)

  /** A transaction sees the committed rows and its own. */
  function Visible(s: State, tx: TxId): seq<Row>
    requires tx in s.open
  {
    s.committed + s.open[tx].pending
  }

  predicate LockFree(s: State, tx: TxId, key: int) {
    forall other :: other in s.open && other != tx ==> key !in s.open[other].locks
  }

  /**
   A step that its program order or a lock does not allow leaves the state alone. An append locks,
   then reads the tip, then inserts one row at the position it read.
   */
  function Step(c: Primitives, key: Organization -> int, s: State, a: Action): State {
    match a
    case Begin(tx) =>
      if tx in s.open then s else s.(open := s.open[tx := Tx({}, None, [])])
    case Lock(tx, o) =>
      if tx !in s.open || !LockFree(s, tx, key(o)) then s
      else s.(open := s.open[tx := s.open[tx].(locks := s.open[tx].locks + {key(o)})])
    case ReadTip(tx, o) =>
      if tx !in s.open || key(o) !in s.open[tx].locks then s
      else
        var next := NextPosition(Visible(s, tx), o);
        s.(open := s.open[tx := s.open[tx].(position := if next.Ok? then Some(next.value) else None)])
    case Insert(tx, id, draft) =>
      if tx !in s.open || s.open[tx].position.None? || !ValidDraft(draft)
         || s.open[tx].position.value.organization != draft.organization
      then s
      else
        var t := s.open[tx];
        var pending := t.pending + [SealedRow(c, id, draft, t.position.value)];
        s.(open := s.open[tx := t.(position := None, pending := pending)])
    case InsertUnsealed(tx, row) =>
      if tx !in s.open || row.sequence.Some? then s
      else s.(open := s.open[tx := s.open[tx].(pending := s.open[tx].pending + [row])])
    case Commit(tx) =>
      if tx !in s.open then s else State(Visible(s, tx), s.open - {tx})
    case Rollback(tx) =>
      if tx !in s.open then s else s.(open := s.open - {tx})
  }

  function Run(c: Primitives, key: Organization -> int, s: State, actions: seq<Action>): State
    decreases |actions|
  {
    if actions == [] then s else Run(c, key, Step(c, key, s, actions[0]), actions[1..])
  }

  // --------------------------------------------------------------- invariant

  /** The organization's rows, in table order, are numbered and hash-linked. */
  predicate Chained(c: Primitives, table: seq<Row>, o: Organization) {
    InOrder(c, InChain(table, o))
  }

  ghost predicate TxInv(c: Primitives, key: Organization -> int, committed: seq<Row>, t: Tx) {
    && (forall o :: Chained(c, committed + t.pending, o))
    && (forall o :: key(o) !in t.locks ==> InChain(t.pending, o) == [])
    && (t.position.Some? ==>
          && key(t.position.value.organization) in t.locks
          && NextPosition(committed + t.pending, t.position.value.organization) == Ok(t.position.value))
  }

  ghost predicate Inv(c: Primitives, key: Organization -> int, s: State) {
    && (forall o :: Chained(c, s.committed, o))
    && (forall tx :: tx in s.open ==> TxInv(c, key, s.committed, s.open[tx]))
    && (forall i, j :: i in s.open && j in s.open && i != j ==> s.open[i].locks !! s.open[j].locks)
  }

  lemma {:induction false} InChainConcat(a: seq<Row>, b: seq<Row>, o: Organization)
    ensures InChain(a + b, o) == InChain(a, o) + InChain(b, o)
    decreases |b|
  {
    if b == [] {
      assert a + b == a;
    } else {
      assert (a + b)[..|a + b| - 1] == a + b[..|b| - 1];
      InChainConcat(a, b[..|b| - 1], o);
    }
  }

  lemma InChainAppend(table: seq<Row>, r: Row, o: Organization)
    ensures InChain(table + [r], o) == InChain(table, o) + if r.organization == o && r.sequence.Some? then [r] else []
  {
    assert (table + [r])[..|table + [r]| - 1] == table;
  }

  lemma PrefixInOrder(c: Primitives, rows: seq<Row>, n: nat)
    requires InOrder(c, rows) && n <= |rows|
    ensures InOrder(c, rows[..n])
  {
    forall i: nat | i < n ensures Positioned(c, rows[..n], i) {
      assert Positioned(c, rows, i);
    }
  }

  /** On a linked chain the tip query finds the last row. */
  lemma {:induction false} TipIsLast(c: Primitives, table: seq<Row>, o: Organization)
    requires Chained(c, table, o)
    ensures Tip(table, o) ==
      (if InChain(table, o) == [] then None else Some(InChain(table, o)[|InChain(table, o)| - 1]))
    decreases |table|
  {
    if table != [] {
      var chain, rest := InChain(table, o), InChain(table[..|table| - 1], o);
      assert rest == chain[..|rest|];
      PrefixInOrder(c, chain, |rest|);
      TipIsLast(c, table[..|table| - 1], o);
      if |chain| > |rest| && rest != [] {
        assert Positioned(c, chain, |chain| - 1) && Positioned(c, chain, |rest| - 1);
        assert rest[|rest| - 1] == chain[|rest| - 1];
      }
    }
  }

  /** Sealing at the position that follows a linked chain extends it by a link. */
  lemma SealedRowLinks(c: Primitives, table: seq<Row>, id: nat, draft: Draft)
    requires Chained(c, table, draft.organization)
    requires NextPosition(table, draft.organization).Ok?
    ensures var at := NextPosition(table, draft.organization).value;
            InOrder(c, InChain(table, draft.organization) + [SealedRow(c, id, draft, at)])
  {
    var at := NextPosition(table, draft.organization).value;
    var chain := InChain(table, draft.organization);
    var row := SealedRow(c, id, draft, at);
    TipIsLast(c, table, draft.organization);
    var longer := chain + [row];
    forall i: nat | i < |longer| ensures Positioned(c, longer, i) {
      if i < |chain| {
        assert Positioned(c, chain, i);
      } else if i > 0 {
        assert Positioned(c, chain, i - 1);
      }
    }
  }

  lemma SanitizeIdempotent(d: Draft)
    ensures Sanitize(Sanitize(d)) == Sanitize(d)
  {
    if d.before.Some? { Redaction.RedactionAlgebra(d.before.value); }
    if d.after.Some? { Redaction.RedactionAlgebra(d.after.value); }
    if d.result.Some? { Redaction.RedactionAlgebra(d.result.value); }
  }

  /** Because sanitising is idempotent, every sealed event still verifies when it is sealed again. */
  lemma SealVerifies(c: Primitives, d: Draft, previous: Option<Hash>)
    ensures Verify(c, Seal(c, d, previous))
  {
    SanitizeIdempotent(d);
  }

  lemma InsertKeeps(c: Primitives, key: Organization -> int, s: State, tx: TxId, id: nat, draft: Draft)
    requires Inv(c, key, s)
    ensures Inv(c, key, Step(c, key, s, Insert(tx, id, draft)))
  {
    var s' := Step(c, key, s, Insert(tx, id, draft));
    if s' != s {
      var t, t' := s.open[tx], s'.open[tx];
      var row := SealedRow(c, id, draft, t.position.value);
      assert TxInv(c, key, s.committed, t);
      assert Chained(c, Visible(s, tx), draft.organization);
      assert row.organization == draft.organization && row.sequence.Some?;
      SealedRowLinks(c, Visible(s, tx), id, draft);
      forall o
        ensures Chained(c, s.committed + t'.pending, o)
        ensures key(o) !in t'.locks ==> InChain(t'.pending, o) == []
      {
        assert Chained(c, Visible(s, tx), o);
        assert s.committed + t'.pending == Visible(s, tx) + [row];
        InChainAppend(Visible(s, tx), row, o);
        InChainAppend(t.pending, row, o);
        if o != draft.organization {
          assert InChain(s.committed + t'.pending, o) == InChain(Visible(s, tx), o);
        }
      }
      assert TxInv(c, key, s.committed, t');
    }
  }

  lemma InsertUnsealedKeeps(c: Primitives, key: Organization -> int, s: State, tx: TxId, row: Row)
    requires Inv(c, key, s)
    ensures Inv(c, key, Step(c, key, s, InsertUnsealed(tx, row)))
  {
    var s' := Step(c, key, s, InsertUnsealed(tx, row));
    if s' != s {
      var t, t' := s.open[tx], s'.open[tx];
      assert TxInv(c, key, s.committed, t);
      forall o
        ensures InChain(s.committed + t'.pending, o) == InChain(Visible(s, tx), o)
        ensures InChain(t'.pending, o) == InChain(t.pending, o)
        ensures Tip(s.committed + t'.pending, o) == Tip(Visible(s, tx), o)
        ensures Chained(c, s.committed + t'.pending, o)
      {
        assert Chained(c, Visible(s, tx), o);
        assert (s.committed + t'.pending)[..|s.committed + t'.pending| - 1] == Visible(s, tx);
        assert t'.pending[..|t'.pending| - 1] == t.pending;
      }
      assert TxInv(c, key, s.committed, t');
    }
  }

  /** Rows `p` that hold nothing of an organization do not move its chain under rows `u`. */
  lemma MergeRows(c: Primitives, base: seq<Row>, p: seq<Row>, u: seq<Row>, o: Organization)
    requires Chained(c, base + p, o) && Chained(c, base + u, o)
    requires InChain(p, o) == [] || InChain(u, o) == []
    ensures Chained(c, base + p + u, o)
    ensures InChain(p, o) == [] ==> NextPosition(base + p + u, o) == NextPosition(base + u, o)
  {
    MergeChains(base, p, u, o);
    if InChain(p, o) == [] { SameChainSamePosition(c, base + p + u, base + u, o); }
  }

  lemma SameChainSamePosition(c: Primitives, x: seq<Row>, y: seq<Row>, o: Organization)
    requires Chained(c, x, o) && InChain(x, o) == InChain(y, o)
    ensures NextPosition(x, o) == NextPosition(y, o)
  {
    TipIsLast(c, x, o);
    TipIsLast(c, y, o);
  }

  lemma MergeChains(base: seq<Row>, p: seq<Row>, u: seq<Row>, o: Organization)
    ensures InChain(p, o) == [] ==> InChain(base + p + u, o) == InChain(base + u, o)
    ensures InChain(u, o) == [] ==> InChain(base + p + u, o) == InChain(base + p, o)
  {
    InChainConcat(base + p, u, o);
    InChainConcat(base, p, o);
    InChainConcat(base, u, o);
  }

  /** A commit does not disturb any other transaction: the rows of its chains are behind a lock. */
  lemma CommitKeepsOther(c: Primitives, key: Organization -> int, s: State, tx: TxId, other: TxId)
    requires Inv(c, key, s) && tx in s.open && other in s.open && other != tx
    ensures TxInv(c, key, Visible(s, tx), s.open[other])
  {
    var t, u := s.open[tx], s.open[other];
    assert TxInv(c, key, s.committed, t) && TxInv(c, key, s.committed, u);
    forall o
      ensures Chained(c, Visible(s, tx) + u.pending, o)
      ensures key(o) in u.locks ==>
        NextPosition(Visible(s, tx) + u.pending, o) == NextPosition(s.committed + u.pending, o)
    {
      assert Chained(c, s.committed + t.pending, o) && Chained(c, s.committed + u.pending, o);
      assert key(o) in u.locks ==> key(o) !in t.locks;
      MergeRows(c, s.committed, t.pending, u.pending, o);
    }
  }

  lemma StepKeeps(c: Primitives, key: Organization -> int, s: State, a: Action)
    requires Inv(c, key, s)
    ensures Inv(c, key, Step(c, key, s, a))
  {
    match a
    case Begin(tx) => BeginKeeps(c, key, s, tx);
    case Lock(tx, o) => LockKeeps(c, key, s, tx, o);
    case ReadTip(tx, o) => ReadTipKeeps(c, key, s, tx, o);
    case Insert(tx, id, draft) => InsertKeeps(c, key, s, tx, id, draft);
    case InsertUnsealed(tx, row) => InsertUnsealedKeeps(c, key, s, tx, row);
    case Commit(tx) => CommitKeeps(c, key, s, tx);
    case Rollback(tx) =>
  }

  lemma BeginKeeps(c: Primitives, key: Organization -> int, s: State, tx: TxId)
    requires Inv(c, key, s)
    ensures Inv(c, key, Step(c, key, s, Begin(tx)))
  {
    assert s.committed + [] == s.committed;
  }

  lemma LockKeeps(c: Primitives, key: Organization -> int, s: State, tx: TxId, o: Organization)
    requires Inv(c, key, s)
    ensures Inv(c, key, Step(c, key, s, Lock(tx, o)))
  {}

  lemma ReadTipKeeps(c: Primitives, key: Organization -> int, s: State, tx: TxId, o: Organization)
    requires Inv(c, key, s)
    ensures Inv(c, key, Step(c, key, s, ReadTip(tx, o)))
  {}

  lemma CommitKeeps(c: Primitives, key: Organization -> int, s: State, tx: TxId)
    requires Inv(c, key, s)
    ensures Inv(c, key, Step(c, key, s, Commit(tx)))
  {
    if tx in s.open {
      assert TxInv(c, key, s.committed, s.open[tx]);
      forall other | other in s.open && other != tx ensures TxInv(c, key, Visible(s, tx), s.open[other]) {
        CommitKeepsOther(c, key, s, tx, other);
      }
    }
  }

  lemma {:induction false} RunKeeps(c: Primitives, key: Organization -> int, s: State, actions: seq<Action>)
    requires Inv(c, key, s)
    ensures Inv(c, key, Run(c, key, s, actions))
    decreases |actions|
  {
    if actions != [] {
      StepKeeps(c, key, s, actions[0]);
      RunKeeps(c, key, Step(c, key, s, actions[0]), actions[1..]);
    }
  }

  // ------------------------------------------------------------ main results

  lemma {:induction false} InsertAtEnd(r: Row, rows: seq<Row>)
    requires forall x :: x in rows ==> SequenceOf(x) < SequenceOf(r)
    ensures InsertRow(r, rows) == rows + [r]
  {
    if rows != [] { InsertAtEnd(r, rows[1..]); }
  }

  predicate Rising(rows: seq<Row>) {
    forall i, j :: 0 <= i < j < |rows| ==> SequenceOf(rows[i]) < SequenceOf(rows[j])
  }

  lemma InOrderIsRising(c: Primitives, rows: seq<Row>)
    requires InOrder(c, rows)
    ensures Rising(rows)
  {
    forall i: nat | i < |rows| ensures rows[i].sequence == Some(i + 1) {
      assert Positioned(c, rows, i);
    }
  }

  lemma RisingPrefix(rows: seq<Row>)
    requires Rising(rows) && rows != []
    ensures var rest, last := rows[..|rows| - 1], rows[|rows| - 1];
            Rising(rest) && forall x :: x in rest ==> SequenceOf(x) < SequenceOf(last)
  {}

  lemma {:induction false} RisingIsOrdered(rows: seq<Row>)
    requires Rising(rows)
    ensures OrderBySequence(rows) == rows
    decreases |rows|
  {
    if rows != [] {
      var rest, last := rows[..|rows| - 1], rows[|rows| - 1];
      RisingPrefix(rows);
      RisingIsOrdered(rest);
      InsertAtEnd(last, rest);
      assert rows == rest + [last];
    }
  }

  /** Linked rows are already in the order the verification query asks for. */
  lemma InOrderIsOrdered(c: Primitives, rows: seq<Row>)
    requires InOrder(c, rows)
    ensures OrderBySequence(rows) == rows
  {
    InOrderIsRising(c, rows);
    RisingIsOrdered(rows);
  }

  /**
   However the transactions interleave, verifying an organization finds every sealed row of its
   committed chain good, and says so with their number, exactly when each of them decodes and seals
   to its own hash again. Unsealed rows are ignored.
   */
  lemma CommittedChainVerifiesIff(c: Primitives, key: Organization -> int, actions: seq<Action>, o: Organization)
    ensures var table := Run(c, key, State([], map[]), actions).committed;
            Verdict(c, ChainRows(table, o), 0) == Ok(Valid(|InChain(table, o)|)) <==>
              forall r :: r in InChain(table, o) ==> Resealable(c, r)
  {
    RunKeeps(c, key, State([], map[]), actions);
    var table := Run(c, key, State([], map[]), actions).committed;
    assert Chained(c, table, o);
    InOrderIsOrdered(c, InChain(table, o));
    VerdictFrom(c, ChainRows(table, o), 0);
    LinkedIff(c, InChain(table, o));
  }

  lemma LinkedIff(c: Primitives, rows: seq<Row>)
    requires InOrder(c, rows)
    ensures Linked(c, rows) <==> forall r :: r in rows ==> Resealable(c, r)
  {
    if Linked(c, rows) {
      forall r | r in rows ensures Resealable(c, r) {
        var i: nat :| i < |rows| && rows[i] == r;
        assert Link(c, rows, i);
      }
    }
  }

  /** Printing, decoding, sanitising and printing again gives the same bytes. */
  predicate Reprints(c: Primitives, d: Draft) {
    var e := c.parse(c.print_(Sanitize(d)));
    e.Some? && c.print_(Sanitize(e.value)) == c.print_(Sanitize(d))
  }

  /** A row sealed for a draft verifies later exactly when the draft reprints, unless the two inputs collide. */
  lemma SealedRowVerifiesIff(c: Primitives, id: nat, d: Draft, at: Position)
    requires var r := SealedRow(c, id, d, at);
             c.sha256(HashInput(r.payload, r.previous)) == c.sha256(HashInput(Reprinted(c, r), r.previous)) ==>
               HashInput(r.payload, r.previous) == HashInput(Reprinted(c, r), r.previous)
    ensures Resealable(c, SealedRow(c, id, d, at)) <==> Reprints(c, d)
  {
    var r := SealedRow(c, id, d, at);
    if Resealable(c, r) { SameInput(r.payload, Reprinted(c, r), r.previous, r.previous); }
  }

  /** Every sealed row, committed or pending, holds one of these payloads. */
  ghost predicate PayloadsIn(s: State, payloads: set<Bytes>) {
    && (forall r :: r in s.committed && r.sequence.Some? ==> r.payload in payloads)
    && (forall tx :: tx in s.open ==>
          forall r :: r in s.open[tx].pending && r.sequence.Some? ==> r.payload in payloads)
  }

  lemma StepKeepsPayloads(c: Primitives, key: Organization -> int, s: State, a: Action, payloads: set<Bytes>)
    requires PayloadsIn(s, payloads) && (a.Insert? ==> c.print_(Sanitize(a.draft)) in payloads)
    ensures PayloadsIn(Step(c, key, s, a), payloads)
  {}

  lemma {:induction false} RunKeepsPayloads(c: Primitives, key: Organization -> int, s: State, actions: seq<Action>,
                                            payloads: set<Bytes>)
    requires PayloadsIn(s, payloads)
    requires forall a :: a in actions && a.Insert? ==> c.print_(Sanitize(a.draft)) in payloads
    ensures PayloadsIn(Run(c, key, s, actions), payloads)
    decreases |actions|
  {
    if actions != [] {
      assert actions[0] in actions;
      StepKeepsPayloads(c, key, s, actions[0], payloads);
      RunKeepsPayloads(c, key, Step(c, key, s, actions[0]), actions[1..], payloads);
    }
  }

  /** So whenever the inserted drafts reprint, every committed chain verifies with all its rows. */
  lemma CommittedChainsVerify(c: Primitives, key: Organization -> int, actions: seq<Action>, o: Organization)
    requires forall a :: a in actions && a.Insert? ==> Reprints(c, a.draft)
    ensures var table := Run(c, key, State([], map[]), actions).committed;
            Verdict(c, ChainRows(table, o), 0) == Ok(Valid(|InChain(table, o)|))
  {
    var payloads := set a | a in actions && a.Insert? :: c.print_(Sanitize(a.draft));
    var table := Run(c, key, State([], map[]), actions).committed;
    RunKeepsPayloads(c, key, State([], map[]), actions, payloads);
    RunKeeps(c, key, State([], map[]), actions);
    assert Chained(c, table, o);
    InChainRows(table, o);
    forall r | r in InChain(table, o) ensures Resealable(c, r) {
      assert r.payload in payloads;
      PositionedHash(c, InChain(table, o), r);
    }
    CommittedChainVerifiesIff(c, key, actions, o);
  }

  lemma PositionedHash(c: Primitives, rows: seq<Row>, r: Row)
    requires InOrder(c, rows) && r in rows
    ensures r.hash == c.sha256(HashInput(r.payload, r.previous))
  {
    var i: nat :| i < |rows| && rows[i] == r;
    assert Positioned(c, rows, i);
  }

  /** The unique index on organization and sequence number never rejects an insert. */
  lemma SequenceIsFresh(c: Primitives, key: Organization -> int, actions: seq<Action>, tx: TxId, other: TxId, r: Row)
    requires var s := Run(c, key, State([], map[]), actions);
             && tx in s.open && s.open[tx].position.Some?
             && (r in s.committed || (other in s.open && r in s.open[other].pending))
             && r.organization == s.open[tx].position.value.organization
    ensures r.sequence != Some(Run(c, key, State([], map[]), actions).open[tx].position.value.sequence)
  {
    RunKeeps(c, key, State([], map[]), actions);
    NextIsFresh(c, key, Run(c, key, State([], map[]), actions), tx, other, r);
  }

  lemma NextIsFresh(c: Primitives, key: Organization -> int, s: State, tx: TxId, other: TxId, r: Row)
    requires Inv(c, key, s) && tx in s.open && s.open[tx].position.Some?
    requires r in s.committed || (other in s.open && r in s.open[other].pending)
    requires r.organization == s.open[tx].position.value.organization
    ensures r.sequence != Some(s.open[tx].position.value.sequence)
  {
    var o, rows := r.organization, Visible(s, tx);
    assert TxInv(c, key, s.committed, s.open[tx]) && Chained(c, rows, o);
    if r.sequence.Some? {
      if r !in rows {
        assert TxInv(c, key, s.committed, s.open[other]);
        InChainRows(s.open[other].pending, o);
        assert false;
      }
      BelowNext(c, rows, o, r);
    }
  }

  /** The next position is past every sealed row of a linked chain. */
  lemma BelowNext(c: Primitives, rows: seq<Row>, o: Organization, r: Row)
    requires Chained(c, rows, o) && r in rows && r.organization == o && r.sequence.Some?
    ensures NextPosition(rows, o).Ok? ==> r.sequence.value < NextPosition(rows, o).value.sequence
  {
    InChainRows(rows, o);
    TipIsLast(c, rows, o);
    var chain := InChain(rows, o);
    var i: nat :| i < |chain| && chain[i] == r;
    assert Positioned(c, chain, i) && Positioned(c, chain, |chain| - 1);
  }

  // Tamper evidence.

  lemma PrefixLinked(c: Primitives, rows: seq<Row>, n: nat)
    requires Linked(c, rows) && n <= |rows|
    ensures Linked(c, rows[..n])
  {
    forall i: nat | i < n ensures Link(c, rows[..n], i) {
      assert Link(c, rows, i);
    }
  }

  /** Among the inputs the two chains hash, equal hashes come from equal bytes. */
  ghost predicate NoCollision(c: Primitives, a: seq<Row>, b: seq<Row>) {
    forall i: nat, j: nat :: i < |a| && j < |b| && a[i].hash == b[j].hash
      ==> HashInput(a[i].payload, a[i].previous) == HashInput(b[j].payload, b[j].previous)
  }

  lemma SameInput(p: Bytes, q: Bytes, x: Option<Bytes>, y: Option<Bytes>)
    requires HashInput(p, x) == HashInput(q, y)
    requires x.Some? ==> |x.value| == 32
    requires y.Some? ==> |y.value| == 32
    ensures x.Some? == y.Some? ==> p == q && x == y
    ensures x.None? && y.Some? ==> p == y.value + q
  {
    var u, v := (if x.Some? then x.value else []) + p, (if y.Some? then y.value else []) + q;
    assert HashInput(p, x) == DOMAIN + u && HashInput(q, y) == DOMAIN + v;
    assert u == HashInput(p, x)[|DOMAIN|..] == v;
    if x.Some? && y.Some? {
      assert x.value == u[..32] == y.value;
      assert p == u[32..] == q;
    } else if x.None? && y.None? {
      assert p == u == q;
    }
  }

  /**
   Two linked chains that end in the same hash agree, position by position from the end, on every
   payload. If one is shorter, its first payload is the other's previous hash and payload run
   together: nothing but the payload's form tells an absent previous hash from a present one.
   */
  lemma {:induction false} TamperEvidence(c: Primitives, a: seq<Row>, b: seq<Row>)
    requires Linked(c, a) && Linked(c, b) && 0 < |a| <= |b|
    requires a[|a| - 1].hash == b[|b| - 1].hash
    requires NoCollision(c, a, b)
    ensures forall i: nat :: 0 < i < |a| ==>
      a[i].payload == b[|b| - |a| + i].payload && a[i].hash == b[|b| - |a| + i].hash
    ensures |a| == |b| ==> a[0].payload == b[0].payload
    ensures |a| < |b| ==> a[0].payload == b[|b| - |a| - 1].hash + b[|b| - |a|].payload
    decreases |a|
  {
    LastAgree(c, a, b);
    if |a| > 1 {
      var a', b' := a[..|a| - 1], b[..|b| - 1];
      PrefixLinked(c, a, |a| - 1);
      PrefixLinked(c, b, |b| - 1);
      PrefixNoCollision(c, a, b);
      TamperEvidence(c, a', b');
      forall i: nat | 0 < i < |a|
        ensures a[i].payload == b[|b| - |a| + i].payload && a[i].hash == b[|b| - |a| + i].hash
      {
        var k := |b'| - |a'| + i;
        if i < |a| - 1 { assert a'[i].payload == b'[k].payload && a'[i].hash == b'[k].hash; }
      }
    }
  }

  /** Equal last hashes mean equal last inputs, and so equal previous hashes. */
  lemma LastAgree(c: Primitives, a: seq<Row>, b: seq<Row>)
    requires Linked(c, a) && Linked(c, b) && 0 < |a| <= |b|
    requires a[|a| - 1].hash == b[|b| - 1].hash && NoCollision(c, a, b)
    ensures |a| == 1 < |b| ==> a[0].payload == b[|b| - 2].hash + b[|b| - 1].payload
    ensures |a| > 1 || |b| == 1 ==> a[|a| - 1].payload == b[|b| - 1].payload
    ensures |a| > 1 ==> a[|a| - 2].hash == b[|b| - 2].hash
  {
    var x, y := a[|a| - 1], b[|b| - 1];
    assert Link(c, a, |a| - 1) && Link(c, b, |b| - 1);
    assert |a| > 1 ==> Link(c, a, |a| - 2);
    assert |b| > 1 ==> Link(c, b, |b| - 2);
    SameInput(x.payload, y.payload, x.previous, y.previous);
  }

  lemma PrefixNoCollision(c: Primitives, a: seq<Row>, b: seq<Row>)
    requires NoCollision(c, a, b) && a != [] && b != []
    ensures NoCollision(c, a[..|a| - 1], b[..|b| - 1])
  {
    var a', b' := a[..|a| - 1], b[..|b| - 1];
    forall i: nat, j: nat | i < |a'| && j < |b'| && a'[i].hash == b'[j].hash
      ensures HashInput(a'[i].payload, a'[i].previous) == HashInput(b'[j].payload, b'[j].previous)
    {
      assert a[i].hash == b[j].hash;
    }
  }

  /** So chains of equal length that end alike carry the same events throughout. */
  lemma EqualTipsEqualPayloads(c: Primitives, a: seq<Row>, b: seq<Row>, i: nat)
    requires Linked(c, a) && Linked(c, b) && i < |a| && |a| == |b|
    requires a[|a| - 1].hash == b[|b| - 1].hash && NoCollision(c, a, b)
    ensures a[i].payload == b[i].payload && c.parse(a[i].payload) == c.parse(b[i].payload)
  {
    TamperEvidence(c, a, b);
  }

  /**
   A printed event opens a JSON object whose first field is the organization's identifier, 36
   characters wide from the 20th byte on: the 33rd byte is inside it and is no brace.
   */
  ghost predicate OpensWithIdentifier(c: Primitives) {
    forall d :: |c.print_(d)| > 32 && c.print_(d)[0] == 0x7b && c.print_(d)[32] != 0x7b
  }

  function Reprinted(c: Primitives, r: Row): Bytes {
    var event := c.parse(r.payload);
    if event.Some? then c.print_(Sanitize(event.value)) else []
  }

  /** What the chain's hashes are taken of: stored payloads, and stored payloads read and sealed again. */
  ghost function Inputs(c: Primitives, rows: seq<Row>): set<Bytes> {
    var stored := set r | r in rows :: HashInput(r.payload, r.previous);
    var sealedAgain := set r | r in rows :: HashInput(Reprinted(c, r), r.previous);
    stored + sealedAgain
  }

  ghost predicate CollisionFree(c: Primitives, inputs: set<Bytes>) {
    forall x, y {:trigger c.sha256(x), c.sha256(y)} ::
      x in inputs && y in inputs && c.sha256(x) == c.sha256(y) ==> x == y
  }

  lemma RowInputs(c: Primitives, rows: seq<Row>, i: nat)
    requires i < |rows|
    ensures HashInput(rows[i].payload, rows[i].previous) in Inputs(c, rows)
    ensures HashInput(Reprinted(c, rows[i]), rows[i].previous) in Inputs(c, rows)
  {
    assert rows[i] in rows;
  }

  /** The payload has a printed event's first bytes. */
  predicate LooksPrinted(payload: Bytes) {
    |payload| > 32 && payload[0] == 0x7b && payload[32] != 0x7b
  }

  ghost predicate AllPrinted(rows: seq<Row>) {
    forall i: nat :: i < |rows| ==> LooksPrinted(rows[i].payload)
  }

  /** A linked row's payload is a printed event, because sealing it again gave the same hash. */
  lemma PayloadsArePrinted(c: Primitives, rows: seq<Row>)
    requires Linked(c, rows) && CollisionFree(c, Inputs(c, rows)) && OpensWithIdentifier(c)
    ensures AllPrinted(rows)
  {
    forall i: nat | i < |rows| ensures LooksPrinted(rows[i].payload) {
      RowInputs(c, rows, i);
      assert Link(c, rows, i) && (i > 0 ==> Link(c, rows, i - 1));
      SameInput(rows[i].payload, Reprinted(c, rows[i]), rows[i].previous, rows[i].previous);
    }
  }

  lemma CollisionFreeChains(c: Primitives, a: seq<Row>, b: seq<Row>)
    requires Linked(c, a) && Linked(c, b) && CollisionFree(c, Inputs(c, a) + Inputs(c, b))
    ensures NoCollision(c, a, b) && NoCollision(c, b, a)
  {
    forall i: nat, j: nat | i < |a| && j < |b| && a[i].hash == b[j].hash
      ensures HashInput(a[i].payload, a[i].previous) == HashInput(b[j].payload, b[j].previous)
    {
      assert Link(c, a, i) && Link(c, b, j);
      RowInputs(c, a, i);
      RowInputs(c, b, j);
    }
  }

  lemma NotHashThenPrinted(h: Bytes, p: Bytes)
    requires |h| == 32 && LooksPrinted(p)
    ensures !LooksPrinted(h + p)
  {
    assert (h + p)[32] == p[0];
  }

  /** A chain cannot end like a longer one: its first payload would have to begin with a hash. */
  lemma NoShorterChain(c: Primitives, a: seq<Row>, b: seq<Row>)
    requires Linked(c, a) && Linked(c, b) && 0 < |a| < |b|
    requires NoCollision(c, a, b) && AllPrinted(a) && AllPrinted(b)
    ensures a[|a| - 1].hash != b[|b| - 1].hash
  {
    var k := |b| - |a|;
    assert Link(c, b, k - 1) && LooksPrinted(a[0].payload) && LooksPrinted(b[k].payload);
    NotHashThenPrinted(b[k - 1].hash, b[k].payload);
    if a[|a| - 1].hash == b[|b| - 1].hash {
      TamperEvidence(c, a, b);
      assert false;
    }
  }

  lemma PrintedAndCollisionFree(c: Primitives, a: seq<Row>, b: seq<Row>)
    requires Linked(c, a) && Linked(c, b)
    requires CollisionFree(c, Inputs(c, a) + Inputs(c, b)) && OpensWithIdentifier(c)
    ensures NoCollision(c, a, b) && NoCollision(c, b, a) && AllPrinted(a) && AllPrinted(b)
  {
    CollisionFreeChains(c, a, b);
    PayloadsArePrinted(c, a);
    PayloadsArePrinted(c, b);
  }

  predicate SamePayloads(a: seq<Row>, b: seq<Row>) {
    |a| == |b| && forall i: nat :: i < |a| ==> a[i].payload == b[i].payload
  }

  lemma SameTipSameChain(c: Primitives, a: seq<Row>, b: seq<Row>)
    requires Linked(c, a) && Linked(c, b) && a != [] && b != [] && a[|a| - 1].hash == b[|b| - 1].hash
    requires NoCollision(c, a, b) && NoCollision(c, b, a) && AllPrinted(a) && AllPrinted(b)
    ensures SamePayloads(a, b)
  {
    if |a| < |b| {
      NoShorterChain(c, a, b);
    } else if |b| < |a| {
      NoShorterChain(c, b, a);
    } else {
      TamperEvidence(c, a, b);
    }
  }

  lemma SameTipSamePayloads(c: Primitives, a: seq<Row>, b: seq<Row>)
    requires Linked(c, a) && Linked(c, b) && a != [] && b != [] && a[|a| - 1].hash == b[|b| - 1].hash
    requires CollisionFree(c, Inputs(c, a) + Inputs(c, b)) && OpensWithIdentifier(c)
    ensures SamePayloads(a, b)
  {
    PrintedAndCollisionFree(c, a, b);
    SameTipSameChain(c, a, b);
  }

  lemma SamePayloadsSameTip(c: Primitives, a: seq<Row>, b: seq<Row>)
    requires Linked(c, a) && Linked(c, b) && a != [] && b != []
    ensures SamePayloads(a, b) ==> a[|a| - 1].hash == b[|b| - 1].hash
  {
    if SamePayloads(a, b) { EqualPayloadsEqualHashes(c, a, b, |a| - 1); }
  }

  /**
   The last hash of a chain stands for the whole of it: two non-empty linked chains end in the same
   hash exactly when they have the same length and the same payload at every position.
   */
  lemma TipDeterminesChain(c: Primitives, a: seq<Row>, b: seq<Row>)
    requires Linked(c, a) && Linked(c, b) && a != [] && b != []
    requires CollisionFree(c, Inputs(c, a) + Inputs(c, b)) && OpensWithIdentifier(c)
    ensures a[|a| - 1].hash == b[|b| - 1].hash <==> SamePayloads(a, b)
  {
    if a[|a| - 1].hash == b[|b| - 1].hash {
      SameTipSamePayloads(c, a, b);
    } else {
      SamePayloadsSameTip(c, a, b);
    }
  }

  lemma {:induction false} EqualPayloadsEqualHashes(c: Primitives, a: seq<Row>, b: seq<Row>, i: nat)
    requires Linked(c, a) && Linked(c, b) && i < |a| && SamePayloads(a, b)
    ensures a[i].hash == b[i].hash
  {
    assert Link(c, a, i) && Link(c, b, i);
    if i > 0 { EqualPayloadsEqualHashes(c, a, b, i - 1); }
  }
}
