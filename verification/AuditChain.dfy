/**
 The per-organization audit hash chain: sealing an event, appending it, verifying a stored chain.
 SHA-256 and the JSON codec are parameters, gathered in `Primitives`.
 */
module AuditChain {
  import opened Wrappers
  import opened Text
  import opened Redaction

  type Bytes = seq<bv8>

  type Hash = h: Bytes | |h| == 32 witness seq(32, _ => 0)

  /** `details` stands for the fields that are copied through unchanged. */
  datatype Draft = Draft(
    organization: nat,
    requestId: string,
    action: string,
    resourceType: string,
    occurredAt: int,
    sourceAddressParses: bool,
    details: string,
    before: Option<Json>,
    after: Option<Json>,
    result: Option<Json>)

  datatype Primitives = Primitives(
    sha256: Bytes -> Hash,
    print_: Draft -> Bytes,
    parse: Bytes -> Option<Draft>)

  datatype Sealed = Sealed(event: Draft, previous: Option<Hash>, hash: Hash)

  /** A row of the table; rows without a sequence number are legacy rows outside any chain. */
  datatype Row = Row(
    id: nat,
    organization: nat,
    sequence: Option<int>,
    payload: Bytes,
    previous: Option<Bytes>,
    hash: Bytes)

  datatype Error = InvalidDraft | InvalidStoredChain | MalformedPayload

  datatype Reason = SequenceGap | PreviousHashMismatch | EventHashMismatch | PayloadInvalid

  datatype Verification =
    | Valid(checked: nat)
    | Broken(checked: nat, event: nat, reason: Reason)

  const MAX_SEQUENCE := 0x7fff_ffff_ffff_ffff

  /** The bytes of "snm:audit:v1" and a zero byte. */
  const DOMAIN: Bytes := [0x73, 0x6e, 0x6d, 0x3a, 0x61, 0x75, 0x64, 0x69, 0x74, 0x3a, 0x76, 0x31, 0x00]

  function MapJson(value: Option<Json>): Option<Json> {
    if value.Some? then Some(SanitizeJson(value.value)) else None
  }

  function Sanitize(d: Draft): Draft {
    d.(before := MapJson(d.before), after := MapJson(d.after), result := MapJson(d.result))
  }

  function HashInput(payload: Bytes, previous: Option<Bytes>): Bytes {
    DOMAIN + (if previous.Some? then previous.value else []) + payload
  }

  function Seal(c: Primitives, d: Draft, previous: Option<Hash>): Sealed {
    var event := Sanitize(d);
    Sealed(event, previous, c.sha256(HashInput(c.print_(event), previous)))
  }

  predicate Verify(c: Primitives, s: Sealed) {
    Seal(c, s.event, s.previous).hash == s.hash
  }

  predicate ValidDraft(d: Draft) {
    && !Blank(d.requestId) && ByteLen(d.requestId) <= 200
    && !Blank(d.action) && ByteLen(d.action) <= 200
    && !Blank(d.resourceType) && ByteLen(d.resourceType) <= 120
    && d.occurredAt >= 0
    && d.sourceAddressParses
  }

  // ------------------------------------------------------------------ tables

  function InChain(table: seq<Row>, organization: nat): seq<Row> {
    if table == [] then []
    else
      var r := table[|table| - 1];
      InChain(table[..|table| - 1], organization) +
        if r.organization == organization && r.sequence.Some? then [r] else []
  }

  predicate Sequenced(rows: seq<Row>) {
    forall r :: r in rows ==> r.sequence.Some?
  }

  function SequenceOf(r: Row): int {
    if r.sequence.Some? then r.sequence.value else 0
  }

  function InsertRow(r: Row, rows: seq<Row>): seq<Row> {
    if rows == [] || SequenceOf(r) < SequenceOf(rows[0]) then [r] + rows
    else [rows[0]] + InsertRow(r, rows[1..])
  }

  function OrderBySequence(rows: seq<Row>): seq<Row> {
    if rows == [] then [] else InsertRow(rows[|rows| - 1], OrderBySequence(rows[..|rows| - 1]))
  }

  lemma {:induction false} InsertRowKeepsRows(r: Row, rows: seq<Row>)
    ensures multiset(InsertRow(r, rows)) == multiset(rows) + multiset{r}
  {
    if rows != [] && SequenceOf(r) >= SequenceOf(rows[0]) {
      InsertRowKeepsRows(r, rows[1..]);
      assert rows == [rows[0]] + rows[1..];
    }
  }

  lemma {:induction false} OrderKeepsRows(rows: seq<Row>)
    ensures multiset(OrderBySequence(rows)) == multiset(rows)
    decreases |rows|
  {
    if rows != [] {
      OrderKeepsRows(rows[..|rows| - 1]);
      OrderStepKeepsRows(rows);
    }
  }

  lemma OrderStepKeepsRows(rows: seq<Row>)
    requires rows != []
    ensures var last, rest := rows[|rows| - 1], rows[..|rows| - 1];
            && OrderBySequence(rows) == InsertRow(last, OrderBySequence(rest))
            && multiset(OrderBySequence(rows)) == multiset(OrderBySequence(rest)) + multiset{last}
            && multiset(rows) == multiset(rest) + multiset{last}
  {
    var last, rest := rows[|rows| - 1], rows[..|rows| - 1];
    InsertRowKeepsRows(last, OrderBySequence(rest));
    assert rows == rest + [last];
  }

  lemma {:induction false} InChainRows(table: seq<Row>, organization: nat)
    ensures forall r :: r in InChain(table, organization) <==>
      r in table && r.organization == organization && r.sequence.Some?
  {
    if table != [] {
      InChainRows(table[..|table| - 1], organization);
      assert table == table[..|table| - 1] + [table[|table| - 1]];
    }
  }

  /** What the verification query returns: the organization's sealed rows by sequence number. */
  function ChainRows(table: seq<Row>, organization: nat): seq<Row> {
    OrderBySequence(InChain(table, organization))
  }

  /** Whatever the table, the query returns its sealed rows, each once, by rising sequence number. */
  lemma ChainRowsOrdered(table: seq<Row>, organization: nat)
    ensures var rows := ChainRows(table, organization);
            && multiset(rows) == multiset(InChain(table, organization))
            && Sequenced(rows) && Ascending(rows)
            && forall r :: r in rows ==> r in table && r.organization == organization
  {
    InChainRows(table, organization);
    OrderKeepsRows(InChain(table, organization));
    OrderAscends(InChain(table, organization));
    var rows := ChainRows(table, organization);
    assert forall r :: r in rows ==> r in multiset(InChain(table, organization));
  }

  predicate Ascending(rows: seq<Row>) {
    forall i :: 0 < i < |rows| ==> SequenceOf(rows[i - 1]) <= SequenceOf(rows[i])
  }

  lemma {:induction false} OrderAscends(rows: seq<Row>)
    ensures Ascending(OrderBySequence(rows))
  {
    if rows != [] {
      OrderAscends(rows[..|rows| - 1]);
      InsertAscends(rows[|rows| - 1], OrderBySequence(rows[..|rows| - 1]));
    }
  }

  lemma {:induction false} InsertAscends(r: Row, rows: seq<Row>)
    requires Ascending(rows)
    ensures Ascending(InsertRow(r, rows))
    ensures InsertRow(r, rows)[0] == if rows == [] || SequenceOf(r) < SequenceOf(rows[0]) then r else rows[0]
  {
    if rows != [] && SequenceOf(r) >= SequenceOf(rows[0]) {
      InsertAscends(r, rows[1..]);
    }
  }

  /** The sealed row of the organization with the highest sequence number. */
  function Tip(table: seq<Row>, organization: nat): (tip: Option<Row>)
    ensures tip.Some? ==> tip.value.sequence.Some?
  {
    if table == [] then None
    else
      var r, rest := table[|table| - 1], Tip(table[..|table| - 1], organization);
      if && r.organization == organization && r.sequence.Some?
         && (rest.None? || r.sequence.value > rest.value.sequence.value)
      then Some(r) else rest
  }

  datatype Position = Position(organization: nat, sequence: int, previous: Option<Hash>)

  function NextPosition(table: seq<Row>, organization: nat): Result<Position, Error> {
    var tip := Tip(table, organization);
    if tip.None? then Ok(Position(organization, 1, None))
    else if |tip.value.hash| != 32 || tip.value.sequence.value >= MAX_SEQUENCE then Err(InvalidStoredChain)
    else Ok(Position(organization, tip.value.sequence.value + 1, Some(tip.value.hash)))
  }

  function SealedRow(c: Primitives, id: nat, d: Draft, at: Position): Row {
    var s := Seal(c, d, at.previous);
    Row(id, s.event.organization, Some(at.sequence), c.print_(s.event),
        s.previous, s.hash)
  }

  // ------------------------------------------------------------ verification

  datatype Check = Good | Bad(reason: Reason) | Unreadable(error: Error)

  /** The comparisons of one pass of the loop, in the order the loop makes them. */
  function CheckRow(c: Primitives, r: Row, sequence: int, previous: Option<Hash>): Check {
    if r.sequence != Some(sequence) then Bad(SequenceGap)
    else if r.previous.Some? && |r.previous.value| != 32 then Unreadable(InvalidStoredChain)
    else if |r.hash| != 32 then Unreadable(InvalidStoredChain)
    else if r.previous != previous then Bad(PreviousHashMismatch)
    else if c.sha256(HashInput(r.payload, r.previous)) != r.hash then Bad(EventHashMismatch)
    else
      var event := c.parse(r.payload);
      if event.None? then Unreadable(MalformedPayload)
      else if !Verify(c, Sealed(event.value, previous, r.hash)) then Bad(PayloadInvalid)
      else Good
  }

  /** The row at `i` has its number, the hash of the row before, and the hash of its own payload. */
  predicate Positioned(c: Primitives, rows: seq<Row>, i: nat)
    requires i < |rows|
  {
    var r := rows[i];
    && r.sequence == Some(i + 1)
    && |r.hash| == 32
    && r.previous == (if i == 0 then None else Some(rows[i - 1].hash))
    && r.hash == c.sha256(HashInput(r.payload, r.previous))
  }

  /** The payload decodes to an event that seals to the stored hash again. */
  predicate Resealable(c: Primitives, r: Row) {
    && c.parse(r.payload).Some?
    && r.hash == c.sha256(HashInput(c.print_(Sanitize(c.parse(r.payload).value)), r.previous))
  }

  /** What a link of the chain ought to be, whatever order the tests come in. */
  predicate Link(c: Primitives, rows: seq<Row>, i: nat)
    requires i < |rows|
  {
    Positioned(c, rows, i) && Resealable(c, rows[i])
  }

  predicate InOrder(c: Primitives, rows: seq<Row>) {
    forall i: nat :: i < |rows| ==> Positioned(c, rows, i)
  }

  predicate Linked(c: Primitives, rows: seq<Row>) {
    forall i: nat :: i < |rows| ==> Link(c, rows, i)
  }

  function HashOf(r: Row): Option<Hash> {
    if |r.hash| == 32 then Some(r.hash) else None
  }

  /** The outcome of the loop from row `i` on. */
  function Verdict(c: Primitives, rows: seq<Row>, i: nat): Result<Verification, Error>
    requires i <= |rows|
    decreases |rows| - i
  {
    if i == |rows| then Ok(Valid(i))
    else
      match CheckRow(c, rows[i], i + 1, if i == 0 then None else HashOf(rows[i - 1]))
      case Good => Verdict(c, rows, i + 1)
      case Bad(reason) => Ok(Broken(i, rows[i].id, reason))
      case Unreadable(error) => Err(error)
  }

  lemma GoodIsLink(c: Primitives, rows: seq<Row>, i: nat)
    requires i < |rows| && (i > 0 ==> |rows[i - 1].hash| == 32)
    ensures CheckRow(c, rows[i], i + 1, if i == 0 then None else HashOf(rows[i - 1])) == Good <==> Link(c, rows, i)
  {}

  /** The sealed columns hold bytes that decode: hashes of 32 bytes and a payload that parses. */
  predicate Decodable(c: Primitives, rows: seq<Row>) {
    forall r :: r in rows ==>
      |r.hash| == 32 && (r.previous.Some? ==> |r.previous.value| == 32) && c.parse(r.payload).Some?
  }

  lemma {:induction false} VerdictFrom(c: Primitives, rows: seq<Row>, i: nat)
    requires i <= |rows| && forall j: nat :: j < i ==> Link(c, rows, j)
    ensures Verdict(c, rows, i) == Ok(Valid(|rows|)) <==> Linked(c, rows)
    ensures Verdict(c, rows, i).Ok? && Verdict(c, rows, i).value.Valid? ==> Verdict(c, rows, i).value.checked == |rows|
    ensures Verdict(c, rows, i).Ok? && Verdict(c, rows, i).value.Broken? ==>
      FirstDefect(c, rows, Verdict(c, rows, i).value)
    ensures Verdict(c, rows, i).Err? ==>
      exists j: nat :: j < |rows| && (forall k: nat :: k < j ==> Link(c, rows, k))
                       && rows[j].sequence == Some(j + 1) && StopsWith(c, rows[j], Verdict(c, rows, i).error)
    decreases |rows| - i
  {
    if i < |rows| {
      assert i > 0 ==> Link(c, rows, i - 1);
      GoodIsLink(c, rows, i);
      if Link(c, rows, i) { VerdictFrom(c, rows, i + 1); }
    }
  }

  /** `v` names the first row that is not a link and counts the links before it. */
  ghost predicate FirstDefect(c: Primitives, rows: seq<Row>, v: Verification) {
    && v.Broken? && v.checked < |rows| && v.event == rows[v.checked].id
    && !Link(c, rows, v.checked)
    && (forall j: nat :: j < v.checked ==> Link(c, rows, j))
    && v.reason == Defect(c, rows, v.checked)
  }

  /** What is wrong with a row that is not a link, the first thing in the order of the loop. */
  function Defect(c: Primitives, rows: seq<Row>, i: nat): Reason
    requires i < |rows|
  {
    var r, previous := rows[i], if i == 0 then None else Some(rows[i - 1].hash);
    if r.sequence != Some(i + 1) then SequenceGap
    else if r.previous != previous then PreviousHashMismatch
    else if r.hash != c.sha256(HashInput(r.payload, previous)) then EventHashMismatch
    else PayloadInvalid
  }

  /** The row stops the loop with an error: its hashes have a wrong size, or its payload does not decode. */
  predicate StopsWith(c: Primitives, r: Row, error: Error) {
    var sized := |r.hash| == 32 && (r.previous.Some? ==> |r.previous.value| == 32);
    (!sized && error == InvalidStoredChain) || (sized && c.parse(r.payload).None? && error == MalformedPayload)
  }

  /**
   On any table whose sealed columns decode, verification answers `Valid` with the row count
   exactly when every row is a link, and otherwise names the first row that is not.
   */
  lemma VerdictMeaning(c: Primitives, rows: seq<Row>)
    requires Decodable(c, rows)
    ensures Verdict(c, rows, 0).Ok?
    ensures var v := Verdict(c, rows, 0).value;
            if Linked(c, rows) then v == Valid(|rows|) else FirstDefect(c, rows, v)
  {
    VerdictFrom(c, rows, 0);
  }

  /** On any table at all, an error comes from the first row that is not a link, and names what is unreadable. */
  lemma VerdictErrors(c: Primitives, rows: seq<Row>)
    requires Verdict(c, rows, 0).Err?
    ensures exists j: nat :: j < |rows| && (forall k: nat :: k < j ==> Link(c, rows, k))
                             && rows[j].sequence == Some(j + 1) && StopsWith(c, rows[j], Verdict(c, rows, 0).error)
  {
    VerdictFrom(c, rows, 0);
  }

  class AuditStore {
    var table: seq<Row>

    /** One transaction that appends one event. */
    method Append(c: Primitives, id: nat, d: Draft) returns (r: Result<nat, Error>)
      modifies this
      ensures r == if !ValidDraft(d) then Err(InvalidDraft)
                   else if NextPosition(old(table), d.organization).Err?
                     then Err(NextPosition(old(table), d.organization).error)
                   else Ok(id)
      ensures table == if r.Ok?
        then old(table) + [SealedRow(c, id, d, NextPosition(old(table), d.organization).value)] else old(table)
    {
      if !ValidDraft(d) {
        return Err(InvalidDraft);
      }
      var position := NextPosition(table, d.organization);
      if position.Err? {
        return Err(position.error);
      }
      var sealed := Seal(c, d, position.value.previous);
      var payload := c.print_(sealed.event);
      var sequence := Some(position.value.sequence);
      table := table + [Row(id, sealed.event.organization, sequence, payload, sealed.previous, sealed.hash)];
      r := Ok(id);
    }

    method VerifyOrganizationChain(c: Primitives, organization: nat) returns (r: Result<Verification, Error>)
      ensures r == Verdict(c, ChainRows(table, organization), 0)
    {
      var rows := ChainRows(table, organization);
      var expectedPrevious: Option<Hash> := None;
      var expectedSequence := 1;
      var checked := 0;
      while checked < |rows|
        invariant checked <= |rows| && expectedSequence == checked + 1
        invariant expectedPrevious == if checked == 0 then None else HashOf(rows[checked - 1])
        invariant Verdict(c, rows, 0) == Verdict(c, rows, checked)
      {
        var row := rows[checked];
        if row.sequence != Some(expectedSequence) {
          return Ok(Broken(checked, row.id, SequenceGap));
        }
        if row.previous.Some? && |row.previous.value| != 32 {
          return Err(InvalidStoredChain);
        }
        if |row.hash| != 32 {
          return Err(InvalidStoredChain);
        }
        if row.previous != expectedPrevious {
          return Ok(Broken(checked, row.id, PreviousHashMismatch));
        }
        if c.sha256(HashInput(row.payload, row.previous)) != row.hash {
          return Ok(Broken(checked, row.id, EventHashMismatch));
        }
        var event := c.parse(row.payload);
        if event.None? {
          return Err(MalformedPayload);
        }
        var sealed := Sealed(event.value, expectedPrevious, row.hash);
        if !Verify(c, sealed) {
          return Ok(Broken(checked, row.id, PayloadInvalid));
        }
        expectedPrevious := Some(row.hash);
        expectedSequence := expectedSequence + 1;
        checked := checked + 1;
      }
      r := Ok(Valid(checked));
    }
  }
}
