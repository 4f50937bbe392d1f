/** What is stored for an audit event: its fields, with every secret gone, under the hash of its chain. */
module AuditLaws {
  import opened Wrappers
  import opened Text
  import opened Redaction
  import opened RedactionLaws
  import opened AuditChain
  import opened AuditProtocol

  /**
   One state of an event as it is stored: absent stays absent; a path through no sensitive key leads
   to the sanitised value that was there, or nowhere if it did before; a path through a sensitive key
   ends at the marker under the first such key.
   */
  ghost predicate StateSanitised(state: Option<Json>, state': Option<Json>) {
    && (state.None? <==> state'.None?)
    && (state.Some? ==> forall path {:trigger At(state'.value, path)} :: PathSanitised(state.value, state'.value, path))
  }

  ghost predicate PathSanitised(v: Json, v': Json, path: seq<PathStep>) {
    var first := ToFirst(AuditSensitive, path);
    if Clear(AuditSensitive, path) then
      At(v', path) == if At(v, path).Some? then Some(SanitizeJson(At(v, path).value)) else None
    else if At(v, first).Some? then
      && At(v', first) == Some(Str("[REDACTED]"))
      && (first != path ==> At(v', path) == None)
    else At(v', path) == None
  }

  lemma SanitizeJsonSanitises(v: Json, path: seq<PathStep>)
    ensures PathSanitised(v, SanitizeJson(v), path)
  {
    SanitizeIsRedaction(v);
    RedactedPaths(AuditSensitive, v, path);
    if Clear(AuditSensitive, path) && At(v, path).Some? { SanitizeIsRedaction(At(v, path).value); }
  }

  lemma MapJsonSanitises(state: Option<Json>)
    ensures StateSanitised(state, MapJson(state))
  {
    if state.Some? {
      forall path ensures PathSanitised(state.value, MapJson(state).value, path) {
        SanitizeJsonSanitises(state.value, path);
      }
    }
  }

  /** The event agrees with the draft in everything but its three states, and those are sanitised. */
  ghost predicate DraftSanitised(d: Draft, e: Draft) {
    && e == d.(before := e.before, after := e.after, result := e.result)
    && StateSanitised(d.before, e.before) && StateSanitised(d.after, e.after) && StateSanitised(d.result, e.result)
  }

  /** The payload is the print of the draft without its secrets. */
  ghost predicate PrintsSanitised(c: Primitives, payload: Bytes, d: Draft) {
    exists e :: payload == c.print_(e) && DraftSanitised(d, e)
  }

  lemma SanitizeSanitises(c: Primitives, d: Draft)
    ensures PrintsSanitised(c, c.print_(Sanitize(d)), d)
  {
    MapJsonSanitises(d.before);
    MapJsonSanitises(d.after);
    MapJsonSanitises(d.result);
    assert DraftSanitised(d, Sanitize(d));
  }

  /** The row an append stores: at its position, linked to the row before, and without secrets. */
  lemma StoredRowIsSanitised(c: Primitives, id: nat, d: Draft, at: Position)
    ensures var r := SealedRow(c, id, d, at);
            && r.id == id && r.organization == d.organization
            && r.sequence == Some(at.sequence) && r.previous == at.previous
            && r.hash == c.sha256(HashInput(r.payload, at.previous))
            && PrintsSanitised(c, r.payload, d)
  {
    SanitizeSanitises(c, d);
  }

  /** The same of the row a transaction inserts, whatever else is going on. */
  lemma InsertedRowIsSanitised(c: Primitives, key: Organization -> int, s: State, tx: TxId, id: nat, draft: Draft)
    requires Step(c, key, s, Insert(tx, id, draft)) != s
    ensures var s' := Step(c, key, s, Insert(tx, id, draft));
            && ValidDraft(draft) && tx in s.open && s.open[tx].position.Some? && tx in s'.open
            && s'.open[tx].position.None? && s'.committed == s.committed
            && var at, pending := s.open[tx].position.value, s.open[tx].pending;
               && at.organization == draft.organization
               && |s'.open[tx].pending| == |pending| + 1 && s'.open[tx].pending[..|pending|] == pending
               && var r := s'.open[tx].pending[|pending|];
                  && r.organization == draft.organization && r.sequence == Some(at.sequence)
                  && r.previous == at.previous
                  && PrintsSanitised(c, r.payload, draft)
  {
    StoredRowIsSanitised(c, id, draft, s.open[tx].position.value);
  }

  /** After any run every committed sealed row prints, without its secrets, a draft some transaction inserted. */
  lemma NothingSecretCommitted(c: Primitives, key: Organization -> int, actions: seq<Action>, r: Row)
    requires r in Run(c, key, State([], map[]), actions).committed && r.sequence.Some?
    ensures exists a :: a in actions && a.Insert? && PrintsSanitised(c, r.payload, a.draft)
  {
    var payloads := set a | a in actions && a.Insert? :: c.print_(Sanitize(a.draft));
    RunKeepsPayloads(c, key, State([], map[]), actions, payloads);
    var a :| a in actions && a.Insert? && c.print_(Sanitize(a.draft)) == r.payload;
    SanitizeSanitises(c, a.draft);
  }

  /** An example: a token in the result of an action never reaches the table. */
  lemma ResultTokenIsRedacted(c: Primitives, id: nat, d: Draft, at: Position)
    requires d.result == Some(Obj(map["token" := Str("secret-token"), "ok" := Bool(true)]))
    ensures exists e :: SealedRow(c, id, d, at).payload == c.print_(e)
                        && e.result == Some(Obj(map["token" := Str("[REDACTED]"), "ok" := Bool(true)]))
  {
    KeysOfExample();
    var fields := map["token" := Str("secret-token"), "ok" := Bool(true)];
    assert SanitizeJson(Obj(fields)) == Obj(map["token" := Str("[REDACTED]"), "ok" := Bool(true)]);
    assert Sanitize(d).result == Some(SanitizeJson(Obj(fields)));
  }

  lemma KeysOfExample()
    ensures AuditSensitive("token") && !AuditSensitive("ok")
  {
    AuditNeedles();
    assert Lower("token") == "token" && StandsAt(Lower("token"), "token", 0);
    AuditSensitiveIff("token");
    AuditSensitiveIff("ok");
    forall n, i | n in AUDIT_NEEDLES ensures !StandsAt(Lower("ok"), n, i) {
      NeedlesAreLonger(n);
    }
  }

  lemma NeedlesAreLonger(n: string)
    requires n in AUDIT_NEEDLES
    ensures |n| > 2
  {
    var k :| 0 <= k < |AUDIT_NEEDLES| && AUDIT_NEEDLES[k] == n;
    assert forall j :: 0 <= j < 8 ==> |AUDIT_NEEDLES[j]| > 2;
  }

  // -------------------------------------------------------------- transactions

  /** Committing adds exactly the transaction's rows, in their order; rolling back adds none. Both end it. */
  lemma EndOfTransaction(c: Primitives, key: Organization -> int, s: State, tx: TxId)
    requires tx in s.open
    ensures var s' := Step(c, key, s, Commit(tx));
            s'.committed == s.committed + s.open[tx].pending && s'.open == s.open - {tx}
    ensures var s' := Step(c, key, s, Rollback(tx));
            s'.committed == s.committed && s'.open == s.open - {tx}
  {}

  /** A lock is granted exactly when no other open transaction holds its key, and nothing else changes. */
  lemma LockGranted(c: Primitives, key: Organization -> int, s: State, tx: TxId, o: Organization)
    requires tx in s.open
    ensures var s' := Step(c, key, s, Lock(tx, o));
            && s'.committed == s.committed
            && (key(o) in s'.open[tx].locks <==>
                  || key(o) in s.open[tx].locks
                  || forall other :: other in s.open && other != tx ==> key(o) !in s.open[other].locks)
            && s'.open[tx].pending == s.open[tx].pending && s'.open[tx].locks >= s.open[tx].locks
            && (forall other :: other in s.open && other != tx ==> s'.open[other] == s.open[other])
  {}

  /** Reading the tip needs the lock, and sees what is committed and the transaction's own rows. */
  lemma TipRead(c: Primitives, key: Organization -> int, s: State, tx: TxId, o: Organization)
    requires tx in s.open && key(o) in s.open[tx].locks
    requires NextPosition(s.committed + s.open[tx].pending, o).Ok?
    ensures Step(c, key, s, ReadTip(tx, o)).open[tx].position ==
      Some(NextPosition(s.committed + s.open[tx].pending, o).value)
    ensures forall other :: key(other) !in s.open[tx].locks ==> Step(c, key, s, ReadTip(tx, other)) == s
  {}

  // --------------------------------------------------------------- hash input

  /** What is hashed: the label "snm:audit:v1" and a zero byte, then the previous hash if any, then the payload. */
  lemma HashInputForm(payload: Bytes, previous: Option<Bytes>)
    ensures var tag := "snm:audit:v1\0"; var input := HashInput(payload, previous);
            && |input| == 13 + (if previous.Some? then |previous.value| else 0) + |payload|
            && (forall i :: 0 <= i < 13 ==> input[i] as int == tag[i] as int)
            && input[|input| - |payload|..] == payload
            && (previous.Some? ==> input[13..13 + |previous.value|] == previous.value)
  {}

  // -------------------------------------------------------------------- limits

  /** A draft needs a request of 1 to 200 bytes, an action of 1 to 200, a resource of 1 to 120 and a time from 0. */
  lemma DraftLimits(d: Draft, i: nat, j: nat, k: nat, at: int)
    requires d.requestId == Letters(i) && d.action == Letters(j) && d.resourceType == Letters(k) && d.occurredAt == at
    ensures ValidDraft(d) <==> 1 <= i <= 200 && 1 <= j <= 200 && 1 <= k <= 120 && at >= 0 && d.sourceAddressParses
  {
    LettersAreText(i);
    LettersAreText(j);
    LettersAreText(k);
  }

  /** The first event of an organization takes position 1; after a linked chain comes its length plus one. */
  lemma NextAfterChain(c: Primitives, table: seq<Row>, o: Organization)
    requires Chained(c, table, o) && |InChain(table, o)| < MAX_SEQUENCE
    ensures var chain, next := InChain(table, o), NextPosition(table, o);
            && next.Ok? && next.value.organization == o && next.value.sequence == |chain| + 1
            && (chain == [] ==> next.value.previous.None?)
            && (chain != [] ==> next.value.previous.Some? && next.value.previous.value == chain[|chain| - 1].hash)
  {
    TipIsLast(c, table, o);
    var chain := InChain(table, o);
    if chain != [] { assert Positioned(c, chain, |chain| - 1); }
  }
}
