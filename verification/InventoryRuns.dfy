/** What every run of the four mutators keeps, and what follows. */
module InventoryRuns {
  import opened Wrappers
  import opened Text
  import opened InventoryDomain
  import opened Inventory

  datatype Action =
    | Create(ctx: Context, device: NewDevice, approvalRequired: bool, id: Id, now: Time)
    | Update(ctx: Context, id: Id, expected: int, patch: Patch, now: Time)
    | Transition(ctx: Context, id: Id, expected: int, next: Lifecycle, reason: Option<string>, now: Time)
    | Observe(ctx: Context, observation: Observation, seen: set<Id>, id: Id, now: Time)

  const EMPTY_TABLES := Tables(map[], map[], map[])

  /**
   One call; a failing one is rolled back. The lookups of an observation may have been made at any
   earlier time, so what they saw is arbitrary.
   */
  function Step(t: Tables, a: Action): Tables {
    match a
    case Create(ctx, device, approvalRequired, id, now) =>
      var r := CreateManual(t, ctx, device, approvalRequired, id, now);
      if r.Ok? then r.value.0 else t
    case Update(ctx, id, expected, patch, now) =>
      var r := UpdateMetadata(t, ctx, id, expected, patch, now);
      if r.Ok? then r.value.0 else t
    case Transition(ctx, id, expected, next, reason, now) =>
      var r := TransitionLifecycle(t, ctx, id, expected, next, reason, now);
      if r.Ok? then r.value.0 else t
    case Observe(ctx, observation, seen, id, now) =>
      var r := ReconcileSeen(t, ctx, observation, seen, id, now);
      if r.Ok? then r.value.0 else t
  }

  function Run(t: Tables, actions: seq<Action>): Tables
    decreases |actions|
  {
    if actions == [] then t else Run(Step(t, actions[0]), actions[1..])
  }

  // ------------------------------------------------- one device: its records

  /** The value a column ought to have: the declared fact, else the observed one, else the initial one. */
  function CanonicalText(d: Device, f: TextField): Option<string> {
    if f in d.declared.texts then Clean(d.declared.texts[f])
    else if f in d.observed.texts then Clean(d.observed.texts[f])
    else if f == HostName then d.initialHostName
    else None
  }

  ghost predicate Materialised(d: Device) {
    && (forall f :: TextOf(d.row.texts, f) == CanonicalText(d, f))
    && (d.declared.deviceType.Some? || d.observed.deviceType.Some?)
    && Some(d.row.deviceType) == (if d.declared.deviceType.Some? then d.declared.deviceType else d.observed.deviceType)
    && d.row.capabilities == (if d.declared.capabilities.Some? then d.declared.capabilities.value
                              else if d.observed.capabilities.Some? then d.observed.capabilities.value else [])
    && Clean(d.initialHostName) == d.initialHostName
  }

  /** The latest of the times, if there are any. */
  ghost predicate IsLatest(latest: Option<Time>, times: seq<Time>) {
    && (latest.None? <==> times == [])
    && (latest.Some? ==> latest.value in times && forall t :: t in times ==> t <= latest.value)
  }

  /** One audit and one outbox row per version, each starting where the one before ended. */
  ghost predicate Conserved(d: Device) {
    && |d.audit| == |d.outbox| == d.row.version > 0
    && d.audit[0].before == None
    && d.audit[|d.audit| - 1].after == d.row
    && (forall i :: 0 < i < |d.audit| ==> d.audit[i].before == Some(d.audit[i - 1].after))
    && (forall i :: 0 <= i < |d.audit| ==> d.audit[i].after.version == i + 1 && d.outbox[i].payload == d.audit[i].after)
  }

  function States(d: Device): seq<Lifecycle> {
    seq(|d.log|, i requires 0 <= i < |d.log| => d.log[i].to)
  }

  /** The log starts at creation, is a path of the transition table and replays to the current state. */
  ghost predicate Replays(d: Device) {
    && d.log != []
    && d.log[0].from == None && d.log[0].to in {Discovered, PendingReview, Managed}
    && (forall i :: 0 < i < |d.log| ==> d.log[i].from == Some(d.log[i - 1].to))
    && Path(States(d))
    && d.log[|d.log| - 1].to == d.row.lifecycle
  }

  predicate EndedRetired(d: Device) {
    || d.row.lifecycle == Retired
    || (d.row.lifecycle == Archived && |d.log| > 1 && d.log[|d.log| - 2].to == Retired)
  }

  ghost predicate Dated(d: Device) {
    && (d.row.onboardedAt.Some? <==> Managed in States(d))
    && (d.row.retiredAt.Some? <==> EndedRetired(d))
    && (d.row.retirementReason.Some? <==> EndedRetired(d))
    && (d.row.retirementReason.Some? ==> !Blank(d.row.retirementReason.value))
  }

  ghost predicate DeviceInv(d: Device) {
    && Materialised(d)
    && IsLatest(d.row.lastSeenAt, d.seenAt)
    && Conserved(d)
    && Replays(d)
    && Dated(d)
  }

  lemma CleanTextOf(texts: Texts, f: TextField)
    ensures TextOf(CleanTexts(texts), f) == Clean(TextOf(texts, f))
  {}

  lemma ValidIsClean(texts: Texts, f: TextField)
    requires ValidTexts(texts) && f in texts && f != Description
    ensures Clean(TextOf(texts, f)) == Some(Trim(texts[f]))
  {}

  /** Everything a device keeps except the records written with its changes. */
  ghost predicate Unrecorded(d: Device) {
    Materialised(d) && IsLatest(d.row.lastSeenAt, d.seenAt) && Replays(d) && Dated(d)
  }

  /** Writing the records of a change completes it. */
  lemma RecordedInv(d: Device, d': Device, change: Change)
    requires Unrecorded(d') && d'.audit == d.audit && d'.outbox == d.outbox
    requires Conserved(d) && d'.row.version == d.row.version + 1
    ensures DeviceInv(Recorded(d', change, Some(d.row)))
  {
    RecordedKeeps(d', change, Some(d.row));
  }

  lemma FirstRecordInv(d: Device, change: Change)
    requires Unrecorded(d) && d.audit == [] && d.outbox == [] && d.row.version == 1
    ensures DeviceInv(Recorded(d, change, None))
  {
    RecordedKeeps(d, change, None);
  }

  lemma RecordedKeeps(d: Device, change: Change, before: Option<DeviceRow>)
    requires Unrecorded(d)
    ensures Unrecorded(Recorded(d, change, before))
  {
    var d' := Recorded(d, change, before);
    SameHistory(d, d');
    assert forall f :: CanonicalText(d', f) == CanonicalText(d, f);
  }

  lemma CreateManualDevice(ctx: Context, input: NewDevice, approvalRequired: bool, id: Id, now: Time)
    requires ValidDevice(input)
    ensures DeviceInv(Recorded(ManualDevice(ctx, input, approvalRequired, id, now), ManualCreate, None))
  {
    var d := ManualDevice(ctx, input, approvalRequired, id, now);
    ManualMaterialises(ctx, input, approvalRequired, id, now);
    assert States(d) == [d.row.lifecycle];
    FirstRecordInv(d, ManualCreate);
  }

  lemma ManualMaterialises(ctx: Context, input: NewDevice, approvalRequired: bool, id: Id, now: Time)
    requires ValidDevice(input)
    ensures Materialised(ManualDevice(ctx, input, approvalRequired, id, now))
  {
    var d := ManualDevice(ctx, input, approvalRequired, id, now);
    var fallback := FirstValue(input.identifiers, Hostname);
    forall f ensures TextOf(d.row.texts, f) == CanonicalText(d, f) {
      CleanTextOf(WithHostName(input.texts, fallback), f);
    }
    CleanIdempotent(fallback);
  }

  lemma CreateObservedDevice(ctx: Context, o: Observation, id: Id, observedAt: Time, now: Time)
    requires ValidObservation(o)
    ensures DeviceInv(Recorded(DiscoveredDevice(ctx, o, id, observedAt, now), DiscoveryCreate, None))
  {
    var d := DiscoveredDevice(ctx, o, id, observedAt, now);
    DiscoveryMaterialises(ctx, o, id, observedAt, now);
    assert States(d) == [Discovered];
    FirstRecordInv(d, DiscoveryCreate);
  }

  lemma DiscoveryMaterialises(ctx: Context, o: Observation, id: Id, observedAt: Time, now: Time)
    requires ValidObservation(o)
    ensures Materialised(DiscoveredDevice(ctx, o, id, observedAt, now))
  {
    var d := DiscoveredDevice(ctx, o, id, observedAt, now);
    var fallback := FirstValue(o.identifiers, Hostname);
    forall f ensures TextOf(d.row.texts, f) == CanonicalText(d, f) {
      CleanTextOf(WithHostName(o.texts, fallback), f);
    }
    CleanIdempotent(fallback);
  }

  lemma UpdateDevice(d: Device, patch: Patch, now: Time)
    requires DeviceInv(d) && ValidPatch(patch)
    ensures DeviceInv(Recorded(PatchedDevice(d, patch, now), MetadataUpdate, Some(d.row)))
  {
    var d' := PatchedDevice(d, patch, now);
    PatchMaterialises(d, patch, now);
    SameHistory(d, d');
    RecordedInv(d, d', MetadataUpdate);
  }

  lemma PatchMaterialises(d: Device, patch: Patch, now: Time)
    requires Materialised(d) && ValidPatch(patch)
    ensures Materialised(PatchedDevice(d, patch, now))
  {
    var d' := PatchedDevice(d, patch, now);
    forall f ensures TextOf(d'.row.texts, f) == CanonicalText(d', f) {
      CleanTextOf(PatchedTexts(d.row.texts, patch.texts), f);
      assert TextOf(d.row.texts, f) == CanonicalText(d, f);
      if f !in patch.texts { CanonicalIsClean(d, f); }
    }
  }

  lemma CanonicalIsClean(d: Device, f: TextField)
    requires Clean(d.initialHostName) == d.initialHostName
    ensures Clean(CanonicalText(d, f)) == CanonicalText(d, f)
  {
    if f in d.declared.texts { CleanIdempotent(d.declared.texts[f]); }
    if f in d.observed.texts { CleanIdempotent(d.observed.texts[f]); }
  }

  lemma MoveDevice(d: Device, next: Lifecycle, reason: Option<string>, now: Time)
    requires DeviceInv(d) && d.row.lifecycle != next && CanTransition(d.row.lifecycle, next)
    requires next == Retired || next == Archived ==> Clean(reason).Some?
    ensures DeviceInv(Recorded(MovedDevice(d, next, reason, now), LifecycleMove, Some(d.row)))
  {
    var d' := MovedDevice(d, next, reason, now);
    MoveReplays(d, next, reason, now);
    assert forall f :: CanonicalText(d', f) == CanonicalText(d, f);
    RecordedInv(d, d', LifecycleMove);
  }

  lemma MoveReplays(d: Device, next: Lifecycle, reason: Option<string>, now: Time)
    requires Replays(d) && Dated(d) && d.row.lifecycle != next && CanTransition(d.row.lifecycle, next)
    requires next == Retired || next == Archived ==> Clean(reason).Some?
    ensures Replays(MovedDevice(d, next, reason, now)) && Dated(MovedDevice(d, next, reason, now))
  {
    CleanIdempotent(reason);
    assert States(MovedDevice(d, next, reason, now)) == States(d) + [next];
  }

  lemma ObserveDevice(d: Device, o: Observation, observedAt: Time, now: Time)
    requires DeviceInv(d) && ValidObservation(o)
    ensures DeviceInv(Recorded(ObservedDevice(d, o, observedAt, now), Reconciliation, Some(d.row)))
  {
    var d' := ObservedDevice(d, o, observedAt, now);
    ObserveMaterialises(d, o, observedAt, now);
    LatestGrows(d.row.lastSeenAt, d.seenAt, observedAt);
    SameHistory(d, d');
    RecordedInv(d, d', Reconciliation);
  }

  lemma LatestGrows(latest: Option<Time>, times: seq<Time>, t: Time)
    requires IsLatest(latest, times)
    ensures IsLatest(Some(Later(latest, t)), times + [t])
  {
    assert (times + [t])[|times|] == t;
  }

  lemma SameHistory(d: Device, d': Device)
    requires Replays(d) && Dated(d) && d'.log == d.log && d'.row.lifecycle == d.row.lifecycle
    requires d'.row.onboardedAt == d.row.onboardedAt && d'.row.retiredAt == d.row.retiredAt
    requires d'.row.retirementReason == d.row.retirementReason
    ensures Replays(d') && Dated(d')
  {
    assert States(d') == States(d);
  }

  lemma ObserveMaterialises(d: Device, o: Observation, observedAt: Time, now: Time)
    requires Materialised(d) && ValidObservation(o)
    ensures Materialised(ObservedDevice(d, o, observedAt, now))
  {
    var d' := ObservedDevice(d, o, observedAt, now);
    forall f ensures TextOf(d'.row.texts, f) == CanonicalText(d', f) {
      assert TextOf(d.row.texts, f) == CanonicalText(d, f);
      ObservedText(d.row.texts, d.declared.texts, o.texts, f);
      if f in o.texts { ValidIsClean(o.texts, f); }
    }
  }

  /** A text column after an observation: the trimmed report, where nothing is declared. */
  lemma ObservedText(current: Texts, declared: map<TextField, Option<string>>, reported: Texts, f: TextField)
    requires ValidTexts(reported) && (f in reported ==> f != Description)
    ensures var clean := CleanTexts(reported);
            var texts := current + map g | g in clean && g !in declared :: clean[g];
            TextOf(texts, f) == if f in reported && f !in declared then Some(Trim(reported[f])) else TextOf(current, f)
  {
    CleanTextOf(reported, f);
    if f in reported { ValidIsClean(reported, f); }
  }

  // ------------------------------------------------------------- identifiers

  /** A stored row carries its own normal form, namespace and strength. */
  predicate RowNormalised(key: Key, row: IdentifierRow) {
    && Normalize(key.kind, row.value) == Some(key.normalized)
    && Namespace(key.kind, row.source) == Some(key.namespace)
    && row.strong == Strong(key.kind)
  }

  ghost predicate RowsNormalised(rows: map<(Id, Key), IdentifierRow>) {
    forall k {:trigger RowNormalised(k.1, rows[k])} :: k in rows ==> RowNormalised(k.1, rows[k])
  }

  function ScopesOf(devices: map<Id, Device>): map<Id, Scope> {
    map id | id in devices :: devices[id].row.scope
  }

  /** A row belongs to a device, which owns the row's key if that is a strong one. */
  ghost predicate RowOwned(scopes: map<Id, Scope>, rows: set<(Id, Key)>, owners: map<(Scope, Key), Id>, k: (Id, Key)) {
    k in rows ==>
      && k.0 in scopes
      && (Strong(k.1.kind) ==> (scopes[k.0], k.1) in owners && owners[(scopes[k.0], k.1)] == k.0)
  }

  /** The owner of a key is a device of its scope that has a row for it. */
  ghost predicate OwnerStored(scopes: map<Id, Scope>, rows: set<(Id, Key)>, owners: map<(Scope, Key), Id>,
                              k: (Scope, Key))
  {
    k in owners ==>
      Strong(k.1.kind) && owners[k] in scopes && scopes[owners[k]] == k.0 && (owners[k], k.1) in rows
  }

  /** The owner of a strong key is the one device of the scope that has a row for it. */
  ghost predicate OwnersIndexRows(scopes: map<Id, Scope>, rows: set<(Id, Key)>, owners: map<(Scope, Key), Id>) {
    && (forall k {:trigger RowOwned(scopes, rows, owners, k)} :: RowOwned(scopes, rows, owners, k))
    && (forall k {:trigger OwnerStored(scopes, rows, owners, k)} :: OwnerStored(scopes, rows, owners, k))
  }

  ghost predicate IdInv(t: Tables) {
    RowsNormalised(t.identifiers) && OwnersIndexRows(ScopesOf(t.devices), t.identifiers.Keys, t.owners)
  }

  /** No strong key of the identifiers belongs to a device other than `device`. */
  ghost predicate Unclaimed(t: Tables, scope: Scope, device: Id, identifiers: seq<NewIdentifier>)
    requires ValidIdentifiers(identifiers)
  {
    forall i :: i in identifiers && Strong(i.kind) && (scope, KeyOf(i)) in t.owners ==>
      t.owners[(scope, KeyOf(i))] == device
  }

  ghost predicate OwnedBy(t: Tables, scope: Scope, device: Id, identifiers: seq<NewIdentifier>)
    requires ValidIdentifiers(identifiers)
  {
    forall i :: i in identifiers && Strong(i.kind) ==>
      (scope, KeyOf(i)) in t.owners && t.owners[(scope, KeyOf(i))] == device
  }

  /** Owners only gain entries, all of them for `device`. */
  ghost predicate Gains(before: map<(Scope, Key), Id>, after: map<(Scope, Key), Id>, device: Id) {
    && (forall k :: k in before ==> k in after && after[k] == before[k])
    && (forall k :: k in after && k !in before ==> after[k] == device)
  }

  lemma UpsertRow(t: Tables, scope: Scope, device: Id, i: NewIdentifier, at: Option<Time>)
    requires RowsNormalised(t.identifiers) && ValidIdentifier(i)
    ensures var r := UpsertIdentifier(t, scope, device, i, at);
            r.Ok? ==> r.value.devices == t.devices && RowsNormalised(r.value.identifiers)
                      && r.value.identifiers.Keys == t.identifiers.Keys + {(device, KeyOf(i))}
  {
    var r := UpsertIdentifier(t, scope, device, i, at);
    if r.Ok? {
      var k := (device, KeyOf(i));
      if k in t.identifiers { assert RowNormalised(k.1, t.identifiers[k]); }
      StoredRow(i, r.value.identifiers[k]);
      var rows := r.value.identifiers;
      forall j | j in rows ensures RowNormalised(j.1, rows[j]) {
        if j != k { assert RowNormalised(j.1, t.identifiers[j]); }
      }
    }
  }

  lemma StoredRow(i: NewIdentifier, row: IdentifierRow)
    requires ValidIdentifier(i)
    requires row.value == Trim(i.value) && row.source == Trim(i.source) && row.strong == Strong(i.kind)
    ensures RowNormalised(KeyOf(i), row)
  {
    NormalizeStored(i.kind, i.value);
    NamespaceStored(i.kind, i.source);
  }

  lemma UpsertOwner(t: Tables, scope: Scope, device: Id, i: NewIdentifier, at: Option<Time>)
    requires OwnersIndexRows(ScopesOf(t.devices), t.identifiers.Keys, t.owners)
    requires device in t.devices && t.devices[device].row.scope == scope && ValidIdentifier(i)
    ensures var r := UpsertIdentifier(t, scope, device, i, at);
            var key := (scope, KeyOf(i));
            && (r.Err? ==> r.error == DuplicateIdentifier)
            && (r.Err? <==> Strong(i.kind) && key in t.owners && t.owners[key] != device)
            && (r.Ok? ==> r.value.owners == if Strong(i.kind) then t.owners[key := device] else t.owners)
  {
    assert RowOwned(ScopesOf(t.devices), t.identifiers.Keys, t.owners, (device, KeyOf(i)));
    assert OwnerStored(ScopesOf(t.devices), t.identifiers.Keys, t.owners, (scope, KeyOf(i)));
  }

  lemma UpsertIndex(scopes: map<Id, Scope>, rows: set<(Id, Key)>, owners: map<(Scope, Key), Id>, device: Id, key: Key)
    requires OwnersIndexRows(scopes, rows, owners) && device in scopes
    requires Strong(key.kind) && (scopes[device], key) in owners ==> owners[(scopes[device], key)] == device
    ensures var owners' := if Strong(key.kind) then owners[(scopes[device], key) := device] else owners;
            OwnersIndexRows(scopes, rows + {(device, key)}, owners')
  {
    var rows' := rows + {(device, key)};
    var owners' := if Strong(key.kind) then owners[(scopes[device], key) := device] else owners;
    forall k ensures RowOwned(scopes, rows', owners', k) {
      assert RowOwned(scopes, rows, owners, k);
    }
    forall k ensures OwnerStored(scopes, rows', owners', k) {
      assert OwnerStored(scopes, rows, owners, k);
    }
  }

  lemma UpsertOne(t: Tables, scope: Scope, device: Id, i: NewIdentifier, at: Option<Time>)
    requires IdInv(t) && device in t.devices && t.devices[device].row.scope == scope && ValidIdentifier(i)
    ensures var r := UpsertIdentifier(t, scope, device, i, at);
            var key := (scope, KeyOf(i));
            && (r.Err? ==> r.error == DuplicateIdentifier)
            && (r.Err? <==> Strong(i.kind) && key in t.owners && t.owners[key] != device)
            && (r.Ok? ==> IdInv(r.value) && r.value.devices == t.devices
                          && r.value.owners == if Strong(i.kind) then t.owners[key := device] else t.owners)
  {
    UpsertRow(t, scope, device, i, at);
    UpsertOwner(t, scope, device, i, at);
    if UpsertIdentifier(t, scope, device, i, at).Ok? {
      UpsertIndex(ScopesOf(t.devices), t.identifiers.Keys, t.owners, device, KeyOf(i));
    }
  }

  lemma {:induction false} UpsertMany(t: Tables, scope: Scope, device: Id, identifiers: seq<NewIdentifier>,
                                      at: Option<Time>)
    requires IdInv(t) && device in t.devices && t.devices[device].row.scope == scope && ValidIdentifiers(identifiers)
    ensures var r := UpsertAll(t, scope, device, identifiers, at);
            && (r.Err? ==> r.error == DuplicateIdentifier)
            && (r.Ok? <==> Unclaimed(t, scope, device, identifiers))
            && (r.Ok? ==>
                  && IdInv(r.value) && r.value.devices == t.devices && Gains(t.owners, r.value.owners, device)
                  && OwnedBy(r.value, scope, device, identifiers))
  {
    if identifiers != [] {
      var rest, last := identifiers[..|identifiers| - 1], identifiers[|identifiers| - 1];
      assert identifiers == rest + [last];
      assert last in identifiers;
      UpsertMany(t, scope, device, rest, at);
      var before := UpsertAll(t, scope, device, rest, at);
      if before.Ok? {
        UpsertLast(t, before.value, scope, device, rest, last, at);
      }
    }
  }

  lemma UpsertLast(t: Tables, t1: Tables, scope: Scope, device: Id, rest: seq<NewIdentifier>, last: NewIdentifier,
                   at: Option<Time>)
    requires IdInv(t1) && device in t1.devices && t1.devices[device].row.scope == scope
    requires ValidIdentifiers(rest + [last]) && ValidIdentifiers(rest) && ValidIdentifier(last)
    requires Unclaimed(t, scope, device, rest) && Gains(t.owners, t1.owners, device) && OwnedBy(t1, scope, device, rest)
    ensures var r := UpsertIdentifier(t1, scope, device, last, at);
            && (r.Err? ==> r.error == DuplicateIdentifier)
            && (r.Ok? <==> Unclaimed(t, scope, device, rest + [last]))
            && (r.Ok? ==>
                  && IdInv(r.value) && r.value.devices == t1.devices && Gains(t.owners, r.value.owners, device)
                  && OwnedBy(r.value, scope, device, rest + [last]))
  {
    UpsertOne(t1, scope, device, last, at);
    ClaimsAfter(t, t1, UpsertIdentifier(t1, scope, device, last, at), scope, device, rest, last);
  }

  lemma ClaimsAfter(t: Tables, t1: Tables, r: Result<Tables, Error>, scope: Scope, device: Id,
                    rest: seq<NewIdentifier>, last: NewIdentifier)
    requires ValidIdentifiers(rest + [last]) && ValidIdentifiers(rest) && ValidIdentifier(last)
    requires Unclaimed(t, scope, device, rest) && Gains(t.owners, t1.owners, device) && OwnedBy(t1, scope, device, rest)
    requires var key := (scope, KeyOf(last));
             && (r.Err? <==> Strong(last.kind) && key in t1.owners && t1.owners[key] != device)
             && (r.Ok? ==> r.value.owners == if Strong(last.kind) then t1.owners[key := device] else t1.owners)
    ensures r.Ok? <==> Unclaimed(t, scope, device, rest + [last])
    ensures r.Ok? ==> Gains(t.owners, r.value.owners, device) && OwnedBy(r.value, scope, device, rest + [last])
  {
    ClaimedSoFar(t, t1, scope, device, rest, last);
    if r.Ok? { OwnedSoFar(t1, r.value, scope, device, rest, last); }
  }

  /** Keys gained on the way belong to the device itself, so only the first state's owners can refuse. */
  lemma ClaimedSoFar(t: Tables, t1: Tables, scope: Scope, device: Id, rest: seq<NewIdentifier>, last: NewIdentifier)
    requires ValidIdentifiers(rest + [last]) && ValidIdentifiers(rest) && ValidIdentifier(last)
    requires Unclaimed(t, scope, device, rest) && Gains(t.owners, t1.owners, device)
    ensures Unclaimed(t, scope, device, rest + [last]) <==>
      !(Strong(last.kind) && (scope, KeyOf(last)) in t1.owners && t1.owners[(scope, KeyOf(last))] != device)
  {
    assert last in rest + [last];
  }

  lemma OwnedSoFar(t1: Tables, t2: Tables, scope: Scope, device: Id, rest: seq<NewIdentifier>, last: NewIdentifier)
    requires ValidIdentifiers(rest + [last]) && ValidIdentifiers(rest) && ValidIdentifier(last)
    requires OwnedBy(t1, scope, device, rest)
    requires t2.owners == if Strong(last.kind) then t1.owners[(scope, KeyOf(last)) := device] else t1.owners
    ensures OwnedBy(t2, scope, device, rest + [last])
  {}

  ghost predicate SoundAt(devices: map<Id, Device>, id: Id) {
    id in devices ==> devices[id].row.id == id && DeviceInv(devices[id])
  }

  ghost predicate DevicesSound(devices: map<Id, Device>) {
    forall id {:trigger SoundAt(devices, id)} :: SoundAt(devices, id)
  }

  ghost predicate Inv(t: Tables) {
    DevicesSound(t.devices) && IdInv(t)
  }

  lemma SetSound(devices: map<Id, Device>, id: Id, d: Device)
    requires DevicesSound(devices) && d.row.id == id && DeviceInv(d)
    ensures DevicesSound(devices[id := d])
  {
    var after := devices[id := d];
    forall i ensures SoundAt(after, i) {
      assert SoundAt(devices, i);
    }
  }

  /** Adding a device, or replacing one in its scope, leaves the identifier tables consistent. */
  lemma SetDevice(t: Tables, id: Id, d: Device)
    requires IdInv(t)
    requires id in t.devices ==> t.devices[id].row.scope == d.row.scope
    ensures IdInv(t.(devices := t.devices[id := d]))
  {
    assert ScopesOf(t.devices[id := d]) == ScopesOf(t.devices)[id := d.row.scope];
    AddScope(ScopesOf(t.devices), t.identifiers.Keys, t.owners, id, d.row.scope);
  }

  lemma AddScope(scopes: map<Id, Scope>, rows: set<(Id, Key)>, owners: map<(Scope, Key), Id>, id: Id, scope: Scope)
    requires OwnersIndexRows(scopes, rows, owners) && (id in scopes ==> scopes[id] == scope)
    ensures OwnersIndexRows(scopes[id := scope], rows, owners)
  {
    var scopes' := scopes[id := scope];
    forall k ensures RowOwned(scopes', rows, owners, k) {
      assert RowOwned(scopes, rows, owners, k);
    }
    forall k ensures OwnerStored(scopes', rows, owners, k) {
      assert OwnerStored(scopes, rows, owners, k);
    }
  }

  lemma MatchesLoad(t: Tables, scope: Scope, identifiers: seq<NewIdentifier>)
    requires OwnersIndexRows(ScopesOf(t.devices), t.identifiers.Keys, t.owners) && ValidIdentifiers(identifiers)
    ensures forall d :: d in Matches(t, scope, identifiers) ==> Load(t, scope, d).Some?
  {
    forall i | i in identifiers && Strong(i.kind) && (scope, KeyOf(i)) in t.owners
      ensures Load(t, scope, t.owners[(scope, KeyOf(i))]).Some?
    {
      assert OwnerStored(ScopesOf(t.devices), t.identifiers.Keys, t.owners, (scope, KeyOf(i)));
    }
  }

  /** No other device claims the identifiers exactly when at most this one matches. */
  lemma MatchesClaim(t: Tables, scope: Scope, identifiers: seq<NewIdentifier>, d: Id)
    requires ValidIdentifiers(identifiers)
    ensures Unclaimed(t, scope, d, identifiers) <==> Matches(t, scope, identifiers) <= {d}
  {
    if Matches(t, scope, identifiers) <= {d} {
      forall i | i in identifiers && Strong(i.kind) && (scope, KeyOf(i)) in t.owners
        ensures t.owners[(scope, KeyOf(i))] == d
      {
        assert t.owners[(scope, KeyOf(i))] in Matches(t, scope, identifiers);
      }
    }
  }

  lemma SoleMember(ids: set<Id>)
    requires |ids| == 1
    ensures ids == {Sole(ids)}
  {
    assert |ids - {Sole(ids)}| == 0;
  }

  // --------------------------------------------------------------- the steps

  /** What a successful mutator does: it sets one device, keeps the invariant and moves no owner. */
  ghost predicate Mutates(t: Tables, t': Tables, id: Id) {
    && Inv(t') && Gains(t.owners, t'.owners, id)
    && id in t'.devices && t'.devices == t.devices[id := t'.devices[id]]
  }

  lemma SetTwice(devices: map<Id, Device>, middle: map<Id, Device>, id: Id, d: Device)
    requires id in middle && middle == devices[id := middle[id]]
    ensures middle[id := d] == devices[id := d]
  {}

  lemma SetSame(devices: map<Id, Device>, id: Id)
    requires id in devices
    ensures devices == devices[id := devices[id]]
  {}

  /** Finishing a transaction that upserted identifiers by setting the device. */
  lemma Finish(t: Tables, tx: Tables, id: Id, d: Device)
    requires DevicesSound(t.devices) && IdInv(tx) && Gains(t.owners, tx.owners, id)
    requires id in tx.devices && tx.devices == t.devices[id := tx.devices[id]]
    requires tx.devices[id].row.scope == d.row.scope
    requires d.row.id == id && DeviceInv(d)
    ensures Mutates(t, tx.(devices := tx.devices[id := d]), id)
  {
    SetTwice(t.devices, tx.devices, id, d);
    SetDevice(tx, id, d);
    SetSound(t.devices, id, d);
  }

  lemma CreateKeeps(t: Tables, ctx: Context, input: NewDevice, approvalRequired: bool, id: Id, now: Time)
    requires Inv(t) && ValidContext(ctx) && ValidDevice(input) && id !in t.devices
    ensures var r := CreateManual(t, ctx, input, approvalRequired, id, now);
            && (r.Ok? <==> Matches(t, ctx.scope, input.identifiers) == {})
            && (r.Err? ==> r.error == DuplicateIdentifier)
            && (r.Ok? ==> Mutates(t, r.value.0, id) && OwnedBy(r.value.0, ctx.scope, id, input.identifiers))
  {
    var d := NewManualDevice(ctx, input, approvalRequired, id, now);
    var t1 := t.(devices := t.devices[id := d]);
    SetDevice(t, id, d);
    UpsertMany(t1, ctx.scope, id, input.identifiers, None);
    MatchesLoad(t, ctx.scope, input.identifiers);
    MatchesClaim(t, ctx.scope, input.identifiers, id);
    assert Unclaimed(t1, ctx.scope, id, input.identifiers) <==> Unclaimed(t, ctx.scope, id, input.identifiers);
    CreateManualDevice(ctx, input, approvalRequired, id, now);
    var r := CreateManual(t, ctx, input, approvalRequired, id, now);
    if r.Ok? {
      Finish(t, UpsertAll(t1, ctx.scope, id, input.identifiers, None).value, id, r.value.0.devices[id]);
    }
  }

  lemma UpdateKeeps(t: Tables, ctx: Context, id: Id, expected: int, patch: Patch, now: Time)
    requires Inv(t)
    ensures var r := UpdateMetadata(t, ctx, id, expected, patch, now);
            r.Ok? ==> Mutates(t, r.value.0, id)
  {
    var r := UpdateMetadata(t, ctx, id, expected, patch, now);
    if r.Ok? {
      assert SoundAt(t.devices, id);
      UpdateDevice(t.devices[id], patch, now);
      Finish(t, t, id, r.value.0.devices[id]);
    }
  }

  lemma TransitionKeeps(t: Tables, ctx: Context, id: Id, expected: int, next: Lifecycle, reason: Option<string>,
                        now: Time)
    requires Inv(t)
    ensures var r := TransitionLifecycle(t, ctx, id, expected, next, reason, now);
            r.Ok? ==> Mutates(t, r.value.0, id)
  {
    var r := TransitionLifecycle(t, ctx, id, expected, next, reason, now);
    if r.Ok? {
      if t.devices[id].row.lifecycle == next {
        NothingMutates(t, id);
      } else {
        MoveKeeps(t, id, next, reason, now);
      }
    }
  }

  lemma NothingMutates(t: Tables, id: Id)
    requires Inv(t) && id in t.devices
    ensures Mutates(t, t, id)
  {}

  lemma MoveKeeps(t: Tables, id: Id, next: Lifecycle, reason: Option<string>, now: Time)
    requires Inv(t) && id in t.devices && t.devices[id].row.lifecycle != next
    requires CanTransition(t.devices[id].row.lifecycle, next)
    requires next == Retired || next == Archived ==> Clean(reason).Some?
    ensures var d := t.devices[id];
            var done := Recorded(MovedDevice(d, next, reason, now), LifecycleMove, Some(d.row));
            Mutates(t, t.(devices := t.devices[id := done]), id)
  {
    var d := t.devices[id];
    assert SoundAt(t.devices, id);
    MoveDevice(d, next, reason, now);
    Finish(t, t, id, Recorded(MovedDevice(d, next, reason, now), LifecycleMove, Some(d.row)));
  }

  /** Updating a device fails only for its lifecycle or for a strong key that another device owns. */
  lemma ReconcileExistingKeeps(t: Tables, ctx: Context, o: Observation, id: Id, at: Time, now: Time)
    requires Inv(t) && ValidObservation(o) && Load(t, ctx.scope, id).Some?
    ensures var r := ReconcileExisting(t, ctx, o, id, at, now);
            && (Frozen(t.devices[id]) ==> r == Err(ReactivationRequiresReview(id)))
            && (!Frozen(t.devices[id]) && r.Err? ==> r.error == DuplicateIdentifier)
            && (r.Ok? <==> !Frozen(t.devices[id]) && Unclaimed(t, ctx.scope, id, o.identifiers))
            && (r.Ok? ==>
                  && Mutates(t, r.value.0, id) && OwnedBy(r.value.0, ctx.scope, id, o.identifiers)
                  && r.value.1.id == id)
  {
    UpsertMany(t, ctx.scope, id, o.identifiers, Some(at));
    var r := ReconcileExisting(t, ctx, o, id, at, now);
    if r.Ok? {
      assert SoundAt(t.devices, id);
      ObserveDevice(t.devices[id], o, at, now);
      SetSame(t.devices, id);
      Finish(t, UpsertAll(t, ctx.scope, id, o.identifiers, Some(at)).value, id, r.value.0.devices[id]);
    }
  }

  predicate Frozen(d: Device) {
    d.row.lifecycle == Retired || d.row.lifecycle == Archived
  }

  /** Creating a device fails only for a strong key that another device owns. */
  lemma ReconcileNewKeeps(t: Tables, ctx: Context, o: Observation, id: Id, at: Time, now: Time)
    requires Inv(t) && ValidObservation(o) && id !in t.devices
    ensures var r := ReconcileNew(t, ctx, o, id, at, now);
            && (r.Err? ==> r.error == DuplicateIdentifier)
            && (r.Ok? <==> Unclaimed(t, ctx.scope, id, o.identifiers))
            && (r.Ok? ==>
                  && Mutates(t, r.value.0, id) && OwnedBy(r.value.0, ctx.scope, id, o.identifiers)
                  && r.value.1.id == id && r.value.1.lifecycle == Discovered)
  {
    var d := NewObservedDevice(ctx, o, id, at, now);
    var t1 := t.(devices := t.devices[id := d]);
    SetDevice(t, id, d);
    UpsertMany(t1, ctx.scope, id, o.identifiers, Some(at));
    assert Unclaimed(t1, ctx.scope, id, o.identifiers) <==> Unclaimed(t, ctx.scope, id, o.identifiers);
    CreateObservedDevice(ctx, o, id, at, now);
    var r := ReconcileNew(t, ctx, o, id, at, now);
    if r.Ok? {
      Finish(t, UpsertAll(t1, ctx.scope, id, o.identifiers, Some(at)).value, id, r.value.0.devices[id]);
    }
  }

  // ------------------------------------------------------------ main results

  /** When one device owns the strong identifiers of an observation, that device is updated. */
  lemma ReconcileMatched(t: Tables, ctx: Context, o: Observation, newId: Id, now: Time, d: Id)
    requires Inv(t) && ValidContext(ctx) && ValidObservation(o) && Matches(t, ctx.scope, o.identifiers) == {d}
    ensures var r := Reconcile(t, ctx, o, newId, now);
            && Load(t, ctx.scope, d).Some?
            && if t.devices[d].row.lifecycle == Retired || t.devices[d].row.lifecycle == Archived
               then r == Err(ReactivationRequiresReview(d))
               else
                 && r.Ok? && r.value.1.Updated? && r.value.1.row.id == d
                 && Mutates(t, r.value.0, d) && OwnedBy(r.value.0, ctx.scope, d, o.identifiers)
  {
    SoleMatch(t, ctx.scope, o.identifiers, d);
    ReconcileExistingKeeps(t, ctx, o, d, ObservedTime(o, now), now);
    ReconcileIsExisting(t, ctx, o, newId, now, d);
  }

  lemma SoleMatch(t: Tables, scope: Scope, identifiers: seq<NewIdentifier>, d: Id)
    requires OwnersIndexRows(ScopesOf(t.devices), t.identifiers.Keys, t.owners) && ValidIdentifiers(identifiers)
    requires Matches(t, scope, identifiers) == {d}
    ensures Load(t, scope, d).Some? && Unclaimed(t, scope, d, identifiers)
  {
    MatchesLoad(t, scope, identifiers);
    MatchesClaim(t, scope, identifiers, d);
  }

  lemma ReconcileIsExisting(t: Tables, ctx: Context, o: Observation, newId: Id, now: Time, d: Id)
    requires ValidContext(ctx) && ValidObservation(o) && Matches(t, ctx.scope, o.identifiers) == {d}
    ensures var r := ReconcileExisting(t, ctx, o, d, ObservedTime(o, now), now);
            Reconcile(t, ctx, o, newId, now) == if r.Err? then Err(r.error) else Ok((r.value.0, Updated(r.value.1)))
  {
    SeenIsExisting(t, ctx, o, newId, now, d);
  }

  /** When no device owns any of them, a device is created, and only as discovered. */
  lemma ReconcileUnmatched(t: Tables, ctx: Context, o: Observation, newId: Id, now: Time)
    requires Inv(t) && ValidContext(ctx) && ValidObservation(o) && Matches(t, ctx.scope, o.identifiers) == {}
    requires newId !in t.devices
    ensures var r := Reconcile(t, ctx, o, newId, now);
            && r.Ok? && r.value.1.Created? && r.value.1.row.id == newId && r.value.1.row.lifecycle == Discovered
            && Mutates(t, r.value.0, newId) && OwnedBy(r.value.0, ctx.scope, newId, o.identifiers)
  {
    MatchesClaim(t, ctx.scope, o.identifiers, newId);
    ReconcileNewKeeps(t, ctx, o, newId, ObservedTime(o, now), now);
  }

  /**
   The outcomes of a valid observation: several owners are a conflict, one an update, none a
   creation. A duplicate identifier is never the reason of a failure.
   */
  lemma ReconcileOutcome(t: Tables, ctx: Context, o: Observation, newId: Id, now: Time)
    requires Inv(t) && ValidContext(ctx) && ValidObservation(o) && newId !in t.devices
    ensures var matches := Matches(t, ctx.scope, o.identifiers);
            var r := Reconcile(t, ctx, o, newId, now);
            && (|matches| > 1 <==> r == Err(ReconciliationConflict(matches)))
            && (|matches| == 1 <==>
                  r == Err(ReactivationRequiresReview(SoleOr(matches))) || (r.Ok? && r.value.1.Updated?))
            && (|matches| == 0 <==> r.Ok? && r.value.1.Created?)
            && (r.Ok? && r.value.1.Updated? ==> r.value.1.row.id == SoleOr(matches))
            && r != Err(DuplicateIdentifier)
  {
    var matches := Matches(t, ctx.scope, o.identifiers);
    if |matches| == 1 {
      SoleMember(matches);
      ReconcileMatched(t, ctx, o, newId, now, Sole(matches));
    } else if |matches| == 0 {
      ReconcileUnmatched(t, ctx, o, newId, now);
    }
  }

  /**
   A reconciliation whose lookups are out of date. If they saw at most one device, then whatever was
   committed since, it ends in a duplicate identifier exactly when the current owners are no longer
   what it saw, unless the device it saw is retired or archived by now.
   */
  lemma StaleReconciliation(t: Tables, ctx: Context, o: Observation, seen: set<Id>, newId: Id, now: Time)
    requires Inv(t) && ValidContext(ctx) && ValidObservation(o) && newId !in t.devices
    requires |seen| <= 1 && seen <= Matches(t, ctx.scope, o.identifiers)
    ensures var r := ReconcileSeen(t, ctx, o, seen, newId, now);
            if exists d :: d in seen && d in t.devices && Frozen(t.devices[d])
            then r == Err(ReactivationRequiresReview(SoleOr(seen)))
            else
              && (r == Err(DuplicateIdentifier) <==> Matches(t, ctx.scope, o.identifiers) != seen)
              && (r.Ok? <==> Matches(t, ctx.scope, o.identifiers) == seen)
  {
    if |seen| == 1 {
      SoleMember(seen);
      StaleUpdate(t, ctx, o, seen, newId, now, Sole(seen));
    } else {
      StaleCreation(t, ctx, o, newId, now);
    }
  }

  lemma StaleUpdate(t: Tables, ctx: Context, o: Observation, seen: set<Id>, newId: Id, now: Time, d: Id)
    requires Inv(t) && ValidContext(ctx) && ValidObservation(o)
    requires seen == {d} && seen <= Matches(t, ctx.scope, o.identifiers)
    ensures var r := ReconcileSeen(t, ctx, o, seen, newId, now);
            && d in t.devices
            && (Frozen(t.devices[d]) ==> r == Err(ReactivationRequiresReview(d)))
            && (!Frozen(t.devices[d]) ==>
                  && (r.Err? ==> r == Err(DuplicateIdentifier))
                  && (r.Ok? <==> Matches(t, ctx.scope, o.identifiers) == seen))
  {
    SeenIsExisting(t, ctx, o, newId, now, d);
    UpdateIff(t, ctx, o, d, ObservedTime(o, now), now);
  }

  lemma SeenIsExisting(t: Tables, ctx: Context, o: Observation, newId: Id, now: Time, d: Id)
    requires ValidContext(ctx) && ValidObservation(o)
    ensures var r := ReconcileExisting(t, ctx, o, d, ObservedTime(o, now), now);
            ReconcileSeen(t, ctx, o, {d}, newId, now) ==
              if r.Err? then Err(r.error) else Ok((r.value.0, Updated(r.value.1)))
  {
    SoleMember({d});
  }

  lemma UpdateIff(t: Tables, ctx: Context, o: Observation, d: Id, at: Time, now: Time)
    requires Inv(t) && ValidObservation(o) && d in Matches(t, ctx.scope, o.identifiers)
    ensures var r := ReconcileExisting(t, ctx, o, d, at, now);
            && d in t.devices
            && (Frozen(t.devices[d]) ==> r == Err(ReactivationRequiresReview(d)))
            && (!Frozen(t.devices[d]) ==>
                  && (r.Err? ==> r.error == DuplicateIdentifier)
                  && (r.Ok? <==> Matches(t, ctx.scope, o.identifiers) == {d}))
  {
    MatchesLoad(t, ctx.scope, o.identifiers);
    MatchesClaim(t, ctx.scope, o.identifiers, d);
    ReconcileExistingKeeps(t, ctx, o, d, at, now);
  }

  lemma StaleCreation(t: Tables, ctx: Context, o: Observation, newId: Id, now: Time)
    requires Inv(t) && ValidContext(ctx) && ValidObservation(o) && newId !in t.devices
    ensures var r := ReconcileSeen(t, ctx, o, {}, newId, now);
            && (r.Err? ==> r == Err(DuplicateIdentifier))
            && (r.Ok? <==> Matches(t, ctx.scope, o.identifiers) == {})
  {
    MatchesLoad(t, ctx.scope, o.identifiers);
    MatchesClaim(t, ctx.scope, o.identifiers, newId);
    ReconcileNewKeeps(t, ctx, o, newId, ObservedTime(o, now), now);
  }

  /** One of the observation's strong keys was free in `t` and belongs to a device not in `seen` in `t'`. */
  ghost predicate TakenBetween(t: Tables, t': Tables, scope: Scope, identifiers: seq<NewIdentifier>, seen: set<Id>)
    requires ValidIdentifiers(identifiers)
  {
    exists i :: i in identifiers && Strong(i.kind) && (scope, KeyOf(i)) !in t.owners
      && (scope, KeyOf(i)) in t'.owners && t'.owners[(scope, KeyOf(i))] !in seen
  }

  lemma TakenIff(t: Tables, t': Tables, scope: Scope, identifiers: seq<NewIdentifier>)
    requires ValidIdentifiers(identifiers)
    requires forall k :: k in t.owners ==> k in t'.owners && t'.owners[k] == t.owners[k]
    ensures var seen := Matches(t, scope, identifiers);
            && seen <= Matches(t', scope, identifiers)
            && (Matches(t', scope, identifiers) != seen <==> TakenBetween(t, t', scope, identifiers, seen))
  {
    var seen, current := Matches(t, scope, identifiers), Matches(t', scope, identifiers);
    forall d | d in current && d !in seen ensures TakenBetween(t, t', scope, identifiers, seen) {
      var i :| i in identifiers && Strong(i.kind) && (scope, KeyOf(i)) in t'.owners
        && t'.owners[(scope, KeyOf(i))] == d;
      assert (scope, KeyOf(i)) !in t.owners;
    }
    if TakenBetween(t, t', scope, identifiers, seen) {
      var i :| i in identifiers && Strong(i.kind) && (scope, KeyOf(i)) !in t.owners
        && (scope, KeyOf(i)) in t'.owners && t'.owners[(scope, KeyOf(i))] !in seen;
      assert t'.owners[(scope, KeyOf(i))] in current;
    }
  }

  /**
   So when other transactions commit between the lookups of an observation and its writes, it fails
   with a duplicate identifier exactly when one of them gave a strong key of the observation that
   was free at the lookup to a device the lookup did not see.
   */
  lemma DuplicateIffTakenBetween(t: Tables, ctx: Context, o: Observation, newId: Id, now: Time, between: seq<Action>)
    requires Inv(t) && ValidContext(ctx) && ValidObservation(o) && newId !in Run(t, between).devices
    ensures var t', seen := Run(t, between), Matches(t, ctx.scope, o.identifiers);
            var r := ReconcileSeen(t', ctx, o, seen, newId, now);
            if |seen| > 1 then r == Err(ReconciliationConflict(seen))
            else if exists d :: d in seen && d in t'.devices && Frozen(t'.devices[d])
            then r == Err(ReactivationRequiresReview(SoleOr(seen)))
            else
              && (r == Err(DuplicateIdentifier) <==> TakenBetween(t, t', ctx.scope, o.identifiers, seen))
              && (r.Ok? <==> !TakenBetween(t, t', ctx.scope, o.identifiers, seen))
  {
    var t' := Run(t, between);
    RunKeeps(t, between);
    TakenIff(t, t', ctx.scope, o.identifiers);
    if |Matches(t, ctx.scope, o.identifiers)| <= 1 {
      StaleReconciliation(t', ctx, o, Matches(t, ctx.scope, o.identifiers), newId, now);
    }
  }

  function SoleOr(ids: set<Id>): Id {
    if |ids| == 1 then Sole(ids) else 0
  }

  lemma StepMutates(t: Tables, a: Action)
    requires Inv(t)
    ensures Step(t, a) == t || exists id :: Mutates(t, Step(t, a), id)
  {
    match a
    case Create(ctx, device, approvalRequired, id, now) =>
      if ValidContext(ctx) && ValidDevice(device) && id !in t.devices {
        CreateKeeps(t, ctx, device, approvalRequired, id, now);
      }
    case Update(ctx, id, expected, patch, now) => UpdateKeeps(t, ctx, id, expected, patch, now);
    case Transition(ctx, id, expected, next, reason, now) => TransitionKeeps(t, ctx, id, expected, next, reason, now);
    case Observe(ctx, o, seen, id, now) => ObserveMutates(t, ctx, o, seen, id, now);
  }

  lemma ObserveMutates(t: Tables, ctx: Context, o: Observation, seen: set<Id>, id: Id, now: Time)
    requires Inv(t)
    ensures var t' := Step(t, Observe(ctx, o, seen, id, now)); t' == t || exists d :: Mutates(t, t', d)
  {
    if ValidContext(ctx) && ValidObservation(o) {
      if |seen| == 1 && Load(t, ctx.scope, Sole(seen)).Some? {
        ReconcileExistingKeeps(t, ctx, o, Sole(seen), ObservedTime(o, now), now);
      } else if |seen| == 0 && id !in t.devices {
        ReconcileNewKeeps(t, ctx, o, id, ObservedTime(o, now), now);
      }
    }
  }

  lemma {:induction false} RunKeeps(t: Tables, actions: seq<Action>)
    requires Inv(t)
    ensures Inv(Run(t, actions))
    ensures forall k :: k in t.owners ==> k in Run(t, actions).owners && Run(t, actions).owners[k] == t.owners[k]
    decreases |actions|
  {
    if actions != [] {
      StepMutates(t, actions[0]);
      RunKeeps(Step(t, actions[0]), actions[1..]);
    }
  }

  lemma EmptyInv()
    ensures Inv(EMPTY_TABLES)
  {}

  /** In every reachable state, for every device. */
  lemma Reachable(actions: seq<Action>, id: Id)
    requires id in Run(EMPTY_TABLES, actions).devices
    ensures var d := Run(EMPTY_TABLES, actions).devices[id];
            && Materialised(d) && IsLatest(d.row.lastSeenAt, d.seenAt)
            && Conserved(d) && Replays(d) && Dated(d)
  {
    EmptyInv();
    RunKeeps(EMPTY_TABLES, actions);
    assert SoundAt(Run(EMPTY_TABLES, actions).devices, id);
  }

  /** A strong identifier has one owner for good, which has a stored row in its normal form. */
  lemma OwnershipIsPermanent(before: seq<Action>, after: seq<Action>, k: (Scope, Key))
    requires k in Run(EMPTY_TABLES, before).owners
    ensures var t, t' := Run(EMPTY_TABLES, before), Run(Run(EMPTY_TABLES, before), after);
            && k in t'.owners && t'.owners[k] == t.owners[k] && Strong(k.1.kind)
            && (t.owners[k], k.1) in t'.identifiers && RowNormalised(k.1, t'.identifiers[(t.owners[k], k.1)])
            && t.owners[k] in t'.devices && t'.devices[t.owners[k]].row.scope == k.0
            && (forall d :: d in t'.devices && t'.devices[d].row.scope == k.0 && (d, k.1) in t'.identifiers ==>
                  d == t.owners[k])
  {
    EmptyInv();
    RunKeeps(EMPTY_TABLES, before);
    RunKeeps(Run(EMPTY_TABLES, before), after);
    SoleOwner(Run(Run(EMPTY_TABLES, before), after), k);
  }

  lemma SoleOwner(t: Tables, k: (Scope, Key))
    requires IdInv(t) && k in t.owners
    ensures Strong(k.1.kind)
    ensures (t.owners[k], k.1) in t.identifiers && RowNormalised(k.1, t.identifiers[(t.owners[k], k.1)])
    ensures t.owners[k] in t.devices && t.devices[t.owners[k]].row.scope == k.0
    ensures forall d :: d in t.devices && t.devices[d].row.scope == k.0 && (d, k.1) in t.identifiers ==>
      d == t.owners[k]
  {
    var scopes, rows := ScopesOf(t.devices), t.identifiers.Keys;
    assert OwnerStored(scopes, rows, t.owners, k);
    assert RowNormalised(k.1, t.identifiers[(t.owners[k], k.1)]);
    forall d | d in t.devices && t.devices[d].row.scope == k.0 && (d, k.1) in t.identifiers ensures d == t.owners[k] {
      assert RowOwned(scopes, rows, t.owners, (d, k.1));
    }
  }

  /**
   Reporting the same strongly identified observation again, at any later time, reaches the same
   device and moves no identifier, unless the device has been retired or archived since.
   */
  lemma RepeatedObservation(t: Tables, ctx: Context, o: Observation, newId: Id, now: Time, t1: Tables,
                            first: Reconciled, between: seq<Action>, laterId: Id, later: Time)
    requires Inv(t) && newId !in t.devices && exists i :: i in o.identifiers && Strong(i.kind)
    ensures Reconcile(t, ctx, o, newId, now) == Ok((t1, first)) ==>
              var t' := Run(t1, between);
              first.row.id in t'.devices && Returns(t', ctx, o, laterId, later, first.row.id)
  {
    if Reconcile(t, ctx, o, newId, now) == Ok((t1, first)) {
      FirstObservation(t, ctx, o, newId, now);
      RunKeeps(t1, between);
      StillOwned(t1, Run(t1, between), ctx.scope, first.row.id, o.identifiers);
      OwnedReturns(Run(t1, between), ctx, o, laterId, later, first.row.id);
    }
  }

  /** The observation updates device `d` and moves no identifier, or `d` has been retired or archived. */
  predicate Returns(t: Tables, ctx: Context, o: Observation, newId: Id, now: Time, d: Id)
    requires d in t.devices
  {
    var r := Reconcile(t, ctx, o, newId, now);
    if t.devices[d].row.lifecycle == Retired || t.devices[d].row.lifecycle == Archived
    then r == Err(ReactivationRequiresReview(d))
    else r.Ok? && r.value.1.Updated? && r.value.1.row.id == d && r.value.0.owners == t.owners
  }

  lemma OwnedReturns(t: Tables, ctx: Context, o: Observation, newId: Id, now: Time, d: Id)
    requires Inv(t) && ValidContext(ctx) && ValidObservation(o) && OwnedBy(t, ctx.scope, d, o.identifiers)
    requires exists i :: i in o.identifiers && Strong(i.kind)
    ensures d in t.devices && Returns(t, ctx, o, newId, now, d)
  {
    OwnedMatches(t, ctx.scope, d, o.identifiers);
    ReconcileMatched(t, ctx, o, newId, now, d);
    ReconcileIsExisting(t, ctx, o, newId, now, d);
    NothingToMove(t, ctx, o, d, ObservedTime(o, now), now);
  }

  /**
   Two first reports of one device that both look up before either writes: the second one fails with
   a duplicate identifier, and made again it updates the device the first one created.
   */
  lemma RacingFirstReports(t: Tables, ctx: Context, o: Observation, first: Id, second: Id, now: Time)
    requires Inv(t) && ValidContext(ctx) && ValidObservation(o) && Matches(t, ctx.scope, o.identifiers) == {}
    requires first !in t.devices && second !in t.devices && first != second
    requires exists i :: i in o.identifiers && Strong(i.kind)
    ensures var created := ReconcileSeen(t, ctx, o, {}, first, now);
            && created.Ok? && created.value.1.Created? && created.value.1.row.id == first
            && var t' := created.value.0;
               && first in t'.devices && second !in t'.devices
               && ReconcileSeen(t', ctx, o, {}, second, now) == Err(DuplicateIdentifier)
               && Returns(t', ctx, o, second, now, first)
  {
    ReconcileUnmatched(t, ctx, o, first, now);
    var t' := Reconcile(t, ctx, o, first, now).value.0;
    OwnedMatches(t', ctx.scope, first, o.identifiers);
    StaleCreation(t', ctx, o, second, now);
    OwnedReturns(t', ctx, o, second, now, first);
  }

  lemma FirstObservation(t: Tables, ctx: Context, o: Observation, id: Id, now: Time)
    requires Inv(t) && id !in t.devices
    ensures var r := Reconcile(t, ctx, o, id, now);
            r.Ok? ==>
              && ValidContext(ctx) && ValidObservation(o)
              && Inv(r.value.0) && OwnedBy(r.value.0, ctx.scope, r.value.1.row.id, o.identifiers)
  {
    if ValidContext(ctx) && ValidObservation(o) {
      var matches := Matches(t, ctx.scope, o.identifiers);
      if |matches| == 1 {
        SoleMember(matches);
        ReconcileMatched(t, ctx, o, id, now, Sole(matches));
      } else if |matches| == 0 {
        ReconcileUnmatched(t, ctx, o, id, now);
      }
    }
  }

  lemma StillOwned(t: Tables, t': Tables, scope: Scope, d: Id, identifiers: seq<NewIdentifier>)
    requires ValidIdentifiers(identifiers) && OwnedBy(t, scope, d, identifiers)
    requires forall k :: k in t.owners ==> k in t'.owners && t'.owners[k] == t.owners[k]
    ensures OwnedBy(t', scope, d, identifiers)
  {}

  lemma OwnedMatches(t: Tables, scope: Scope, d: Id, identifiers: seq<NewIdentifier>)
    requires ValidIdentifiers(identifiers) && OwnedBy(t, scope, d, identifiers)
    requires exists i :: i in identifiers && Strong(i.kind)
    ensures Matches(t, scope, identifiers) == {d}
  {
    var i :| i in identifiers && Strong(i.kind);
    assert t.owners[(scope, KeyOf(i))] in Matches(t, scope, identifiers);
  }

  lemma NothingToMove(t: Tables, ctx: Context, o: Observation, d: Id, at: Time, now: Time)
    requires ValidObservation(o) && IdInv(t) && OwnedBy(t, ctx.scope, d, o.identifiers) && Load(t, ctx.scope, d).Some?
    ensures var r := ReconcileExisting(t, ctx, o, d, at, now); r.Ok? ==> r.value.0.owners == t.owners
  {
    UpsertMovesNothing(t, ctx.scope, d, o.identifiers, Some(at));
  }

  lemma {:induction false} UpsertMovesNothing(t: Tables, scope: Scope, d: Id, identifiers: seq<NewIdentifier>,
                                              at: Option<Time>)
    requires IdInv(t) && d in t.devices && t.devices[d].row.scope == scope
    requires ValidIdentifiers(identifiers) && OwnedBy(t, scope, d, identifiers)
    ensures var r := UpsertAll(t, scope, d, identifiers, at);
            r.Ok? ==> IdInv(r.value) && r.value.devices == t.devices && r.value.owners == t.owners
  {
    if identifiers != [] {
      var rest, last := identifiers[..|identifiers| - 1], identifiers[|identifiers| - 1];
      assert identifiers == rest + [last] && last in identifiers;
      UpsertMovesNothing(t, scope, d, rest, at);
      var before := UpsertAll(t, scope, d, rest, at);
      if before.Ok? { UpsertOne(before.value, scope, d, last, at); }
    }
  }

  // What happens to one device.

  /** No recorded fact disappears. */
  predicate FactsKept(facts: Facts, facts': Facts) {
    && facts.texts.Keys <= facts'.texts.Keys
    && (facts.deviceType.Some? ==> facts'.deviceType.Some?)
    && (facts.capabilities.Some? ==> facts'.capabilities.Some?)
  }

  /** A change of a device: it extends the logs, raises the version by one and keeps what is settled. */
  ghost predicate Advances(d: Device, d': Device, now: Time) {
    && d'.row.version == d.row.version + 1 && d'.row.lastChangedAt == now
    && d'.row.scope == d.row.scope && d'.row.serial == d.row.serial
    && FactsKept(d.declared, d'.declared) && FactsKept(d.observed, d'.observed)
    && d.audit <= d'.audit && d.outbox <= d'.outbox && d.log <= d'.log && d.seenAt <= d'.seenAt
    && (d.row.onboardedAt.Some? ==> d'.row.onboardedAt == d.row.onboardedAt)
    && d'.initialHostName == d.initialHostName
    && d.row.lifecycle != Archived
  }

  lemma UpsertLeavesDevices(t: Tables, scope: Scope, device: Id, identifiers: seq<NewIdentifier>, at: Option<Time>)
    ensures var r := UpsertAll(t, scope, device, identifiers, at); r.Ok? ==> r.value.devices == t.devices
  {}

  lemma StepAdvances(t: Tables, a: Action, id: Id)
    requires id in t.devices
    ensures id in Step(t, a).devices
    ensures Step(t, a).devices[id] == t.devices[id] || Advances(t.devices[id], Step(t, a).devices[id], a.now)
  {
    match a
    case Create(ctx, device, approvalRequired, newId, now) =>
      CreateLeavesOthers(t, ctx, device, approvalRequired, newId, now, id);
    case Update(_, _, _, _, _) => UpdateAdvances(t, a, id);
    case Transition(_, _, _, _, _, _) => TransitionAdvances(t, a, id);
    case Observe(ctx, o, seen, newId, now) => ObserveAdvances(t, ctx, o, seen, newId, now, id);
  }

  lemma CreateLeavesOthers(t: Tables, ctx: Context, device: NewDevice, approvalRequired: bool, newId: Id, now: Time,
                           id: Id)
    requires id in t.devices
    ensures var t' := Step(t, Create(ctx, device, approvalRequired, newId, now));
            id in t'.devices && t'.devices[id] == t.devices[id]
  {
    var d := NewManualDevice(ctx, device, approvalRequired, newId, now);
    UpsertLeavesDevices(t.(devices := t.devices[newId := d]), ctx.scope, newId, device.identifiers, None);
  }

  lemma ObserveAdvances(t: Tables, ctx: Context, o: Observation, seen: set<Id>, newId: Id, now: Time, id: Id)
    requires id in t.devices
    ensures var t' := Step(t, Observe(ctx, o, seen, newId, now));
            id in t'.devices && (t'.devices[id] == t.devices[id] || Advances(t.devices[id], t'.devices[id], now))
  {
    if ValidContext(ctx) && ValidObservation(o) {
      if |seen| == 1 {
        ExistingAdvances(t, ctx, o, Sole(seen), ObservedTime(o, now), now, id);
      } else {
        NewLeavesOthers(t, ctx, o, newId, ObservedTime(o, now), now, id);
      }
    }
  }

  lemma NewLeavesOthers(t: Tables, ctx: Context, o: Observation, newId: Id, at: Time, now: Time, id: Id)
    requires id in t.devices && ValidObservation(o)
    ensures var r := ReconcileNew(t, ctx, o, newId, at, now);
            r.Ok? ==> id in r.value.0.devices && r.value.0.devices[id] == t.devices[id]
  {
    var d := NewObservedDevice(ctx, o, newId, at, now);
    UpsertLeavesDevices(t.(devices := t.devices[newId := d]), ctx.scope, newId, o.identifiers, Some(at));
  }

  lemma ExistingAdvances(t: Tables, ctx: Context, o: Observation, changed: Id, at: Time, now: Time, id: Id)
    requires id in t.devices
    ensures var r := ReconcileExisting(t, ctx, o, changed, at, now);
            r.Ok? ==>
              && id in r.value.0.devices
              && (r.value.0.devices[id] == t.devices[id] || Advances(t.devices[id], r.value.0.devices[id], now))
  {
    UpsertLeavesDevices(t, ctx.scope, changed, o.identifiers, Some(at));
    if id == changed && !Frozen(t.devices[id]) { ObservationAdvances(t.devices[id], o, at, now); }
  }

  lemma ObservationAdvances(d: Device, o: Observation, at: Time, now: Time)
    requires d.row.lifecycle != Archived
    ensures Advances(d, Recorded(ObservedDevice(d, o, at, now), Reconciliation, Some(d.row)), now)
  {}

  lemma UpdateAdvances(t: Tables, a: Action, id: Id)
    requires id in t.devices && a.Update?
    ensures id in Step(t, a).devices
    ensures Step(t, a).devices[id] == t.devices[id] || Advances(t.devices[id], Step(t, a).devices[id], a.now)
  {}

  lemma TransitionAdvances(t: Tables, a: Action, id: Id)
    requires id in t.devices && a.Transition?
    ensures id in Step(t, a).devices
    ensures Step(t, a).devices[id] == t.devices[id] || Advances(t.devices[id], Step(t, a).devices[id], a.now)
  {}

  /** Over a run a device only accumulates: versions rise, logs grow, the onboarding time stays. */
  lemma {:induction false} RunAdvances(t: Tables, actions: seq<Action>, id: Id)
    requires id in t.devices
    ensures id in Run(t, actions).devices
    ensures var d, d' := t.devices[id], Run(t, actions).devices[id];
            && d'.row.version >= d.row.version
            && d.audit <= d'.audit && d.outbox <= d'.outbox && d.log <= d'.log && d.seenAt <= d'.seenAt
            && (d.row.onboardedAt.Some? ==> d'.row.onboardedAt == d.row.onboardedAt)
            && (d.row.lifecycle == Archived ==> d' == d)
    decreases |actions|
  {
    if actions != [] {
      StepAdvances(t, actions[0], id);
      RunAdvances(Step(t, actions[0]), actions[1..], id);
    }
  }

  /** A patch sets exactly the columns it names, to the cleaned values, and no other column. */
  lemma PatchedColumns(t: Tables, ctx: Context, id: Id, expected: int, patch: Patch, now: Time, f: TextField)
    requires Inv(t) && UpdateMetadata(t, ctx, id, expected, patch, now).Ok?
    ensures var row, row' := t.devices[id].row, UpdateMetadata(t, ctx, id, expected, patch, now).value.1;
            && TextOf(row'.texts, f) == (if f in patch.texts then Clean(patch.texts[f]) else TextOf(row.texts, f))
            && row'.lifecycle == row.lifecycle && row'.lastSeenAt == row.lastSeenAt
  {
    var d := t.devices[id];
    assert SoundAt(t.devices, id);
    CleanTextOf(PatchedTexts(d.row.texts, patch.texts), f);
    assert TextOf(d.row.texts, f) == CanonicalText(d, f);
    CanonicalIsClean(d, f);
  }

  /** An observation changes a column only to the trimmed value it reports, and only where nothing is declared. */
  lemma ObservedColumns(row: DeviceRow, declared: Facts, o: Observation, at: Time, now: Time, f: TextField)
    requires ValidObservation(o)
    ensures var row' := ApplyObserved(row, declared, o, at, now);
            && TextOf(row'.texts, f) ==
                 (if f in o.texts && f !in declared.texts then Some(Trim(o.texts[f])) else TextOf(row.texts, f))
            && row'.lifecycle == row.lifecycle
            && (row'.capabilities != row.capabilities ==>
                  row'.capabilities == o.capabilities && declared.capabilities.None?)
            && (row'.deviceType != row.deviceType ==> row'.deviceType == o.deviceType && declared.deviceType.None?)
  {
    ObservedText(row.texts, declared.texts, o.texts, f);
  }

  /** The device and the version that an optimistic call names. */
  predicate Expects(a: Action, id: Id, version: int) {
    (a.Update? || a.Transition?) && a.id == id && a.expected == version
  }

  /** Of several calls that expect the same version of a device, at most one changes anything. */
  lemma OneWinner(t: Tables, first: Action, between: seq<Action>, second: Action, id: Id, version: int)
    requires Inv(t) && Expects(first, id, version) && Expects(second, id, version)
    requires Step(t, first) != t
    ensures var t' := Run(Step(t, first), between); Step(t', second) == t'
  {
    ChangeMeetsVersion(t, first, id, version);
    StepAdvances(t, first, id);
    var t1 := Step(t, first);
    RunAdvances(t1, between, id);
    StaleCallFails(Run(t1, between), second, id, version);
  }

  lemma ChangeMeetsVersion(t: Tables, a: Action, id: Id, version: int)
    requires Expects(a, id, version) && Step(t, a) != t
    ensures id in t.devices && t.devices[id].row.version == version && Step(t, a).devices[id].row.version == version + 1
  {}

  lemma StaleCallFails(t: Tables, a: Action, id: Id, version: int)
    requires Expects(a, id, version) && id in t.devices && t.devices[id].row.version != version
    ensures Step(t, a) == t
  {}

  /** Reactivating a retired device always goes through review. */
  lemma RetiredIsReviewed(actions: seq<Action>, id: Id, i: nat, j: nat)
    ensures var t := Run(EMPTY_TABLES, actions);
            id in t.devices && WentFromTo(t.devices[id], i, j, Retired, Managed) ==>
              exists k :: i < k < j && t.devices[id].log[k].to == PendingReview
  {
    var t := Run(EMPTY_TABLES, actions);
    if id in t.devices && WentFromTo(t.devices[id], i, j, Retired, Managed) {
      var d := t.devices[id];
      Reachable(actions, id);
      ReactivationIsReviewed(States(d), i, j);
      var k :| i < k < j && States(d)[k] == PendingReview;
      assert d.log[k].to == PendingReview;
    }
  }

  /** Discovery never manages a device by itself. */
  lemma DiscoveredIsDecided(actions: seq<Action>, id: Id, i: nat, j: nat)
    ensures var t := Run(EMPTY_TABLES, actions);
            id in t.devices && WentFromTo(t.devices[id], i, j, Discovered, Managed) ==>
              var log := t.devices[id].log;
              exists k :: i < k < j && (log[k].to == PendingReview || log[k].to == Unmanaged)
  {
    var t := Run(EMPTY_TABLES, actions);
    if id in t.devices && WentFromTo(t.devices[id], i, j, Discovered, Managed) {
      var d := t.devices[id];
      Reachable(actions, id);
      ManagementIsDecided(States(d), i, j);
      var k :| i < k < j && (States(d)[k] == PendingReview || States(d)[k] == Unmanaged);
      assert d.log[k].to == States(d)[k];
    }
  }

  /** The log has one state at position `i` and another at the later position `j`. */
  predicate WentFromTo(d: Device, i: nat, j: nat, from: Lifecycle, to: Lifecycle) {
    i < j < |d.log| && d.log[i].to == from && d.log[j].to == to
  }
}
