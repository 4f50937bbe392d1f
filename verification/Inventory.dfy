/**
 The inventory store: devices, their identifiers and facts, and the records written with every
 mutation. Each mutator is given as a function on the tables; `InventoryStore` performs it step by
 step in one transaction.
 */
module Inventory {
  import opened Wrappers
  import opened Text
  import opened InventoryDomain

  type Id = nat
  type Time = int

  datatype Scope = Scope(organization: nat, site: nat)

  datatype TextField =
    | DisplayName | HostName | Vendor | Model | OsName | OsVersion | FirmwareVersion
    | Description | Owner

  const FIELD_COUNT := 9

  /** The fields in the order the store handles them. */
  function FieldAt(i: nat): TextField
    requires i < FIELD_COUNT
  {
    if i == 0 then DisplayName else if i == 1 then HostName else if i == 2 then Vendor
    else if i == 3 then Model else if i == 4 then OsName else if i == 5 then OsVersion
    else if i == 6 then FirmwareVersion else if i == 7 then Description else Owner
  }

  function IndexOf(f: TextField): (i: nat)
    ensures i < FIELD_COUNT && FieldAt(i) == f
  {
    match f
    case DisplayName => 0
    case HostName => 1
    case Vendor => 2
    case Model => 3
    case OsName => 4
    case OsVersion => 5
    case FirmwareVersion => 6
    case Description => 7
    case Owner => 8
  }

  predicate Observable(f: TextField) {
    f != Description && f != Owner
  }

  /** Optional text columns by field; an absent field is null. */
  type Texts = map<TextField, string>

  datatype DeviceRow = DeviceRow(
    id: Id,
    scope: Scope,
    lifecycle: Lifecycle,
    deviceType: DeviceType,
    texts: Texts,
    serial: Option<string>,
    capabilities: seq<string>,
    version: nat,
    lastSeenAt: Option<Time>,
    lastChangedAt: Time,
    onboardedAt: Option<Time>,
    retiredAt: Option<Time>,
    retirementReason: Option<string>)

  /** The facts of one device and one provenance; a text fact may be null. */
  datatype Facts = Facts(texts: map<TextField, Option<string>>, deviceType: Option<DeviceType>,
                         capabilities: Option<seq<string>>)

  datatype LifecycleEvent = LifecycleEvent(from: Option<Lifecycle>, to: Lifecycle, reason: Option<string>)

  datatype AuditRecord = AuditRecord(action: string, before: Option<DeviceRow>, after: DeviceRow)

  datatype OutboxRecord = OutboxRecord(eventType: string, payload: DeviceRow)

  /**
   A device with its rows of the other tables, oldest first. The last two fields are history
   variables: the times of the observations reconciled into the device, and the host name an
   identifier supplied at creation.
   */
  datatype Device = Device(
    row: DeviceRow,
    declared: Facts,
    observed: Facts,
    log: seq<LifecycleEvent>,
    audit: seq<AuditRecord>,
    outbox: seq<OutboxRecord>,
    seenAt: seq<Time>,
    initialHostName: Option<string>)

  datatype Key = Key(kind: Kind, namespace: string, normalized: string)

  datatype IdentifierRow = IdentifierRow(value: string, source: string, confidence: Option<real>, strong: bool,
                                         lastSeenAt: Option<Time>)

  /**
   `identifiers` is keyed by its unique index per device, and `owners` is the unique index over the
   strong identifiers of a scope.
   */
  datatype Tables = Tables(
    devices: map<Id, Device>,
    identifiers: map<(Id, Key), IdentifierRow>,
    owners: map<(Scope, Key), Id>)

  datatype Error =
    | InvalidInput
    | DeviceNotFound
    | VersionConflict(expected: int, actual: int)
    | LifecycleBlocksMutation(state: Lifecycle)
    | InvalidLifecycleTransition(from: Lifecycle, to: Lifecycle)
    | LifecycleReasonRequired
    | DuplicateIdentifier
    | ReconciliationConflict(devices: set<Id>)
    | ReactivationRequiresReview(device: Id)
    | Database

  datatype Context = Context(scope: Scope, requestId: string, sourceAddressParses: bool)

  datatype NewIdentifier = NewIdentifier(kind: Kind, value: string, source: string, confidence: Option<real>)

  datatype NewDevice = NewDevice(deviceType: DeviceType, texts: Texts, capabilities: seq<string>,
                                 identifiers: seq<NewIdentifier>)

  datatype Patch = Patch(deviceType: Option<DeviceType>, texts: map<TextField, Option<string>>,
                         capabilities: Option<seq<string>>)

  datatype RawObservation = RawObservation(
    deviceType: DeviceType,
    texts: Texts,
    capabilities: seq<string>,
    identifiers: seq<NewIdentifier>,
    observedAt: Option<Time>)

  /** An observation carries no description and no owner. */
  type Observation = o: RawObservation | forall f :: f in o.texts ==> Observable(f)
    witness RawObservation(Unknown, map[], [], [], None)

  datatype Reconciled = Created(row: DeviceRow) | Updated(row: DeviceRow)

  // ----------------------------------------------------------------- checks

  predicate ValidContext(ctx: Context) {
    !Blank(ctx.requestId) && ByteLen(ctx.requestId) <= 200 && ctx.sourceAddressParses
  }

  predicate ValidText(field: TextField, value: string) {
    if field == Description then ByteLen(value) <= 4096 else !Blank(value) && ByteLen(value) <= 512
  }

  predicate ValidTexts(texts: Texts) {
    forall f :: f in texts ==> ValidText(f, texts[f])
  }

  predicate ValidCapabilities(capabilities: seq<string>) {
    |capabilities| <= 256 && forall c :: c in capabilities ==> !Blank(c) && ByteLen(c) <= 120
  }

  predicate ValidIdentifier(i: NewIdentifier) {
    && Normalize(i.kind, i.value).Some?
    && !Blank(i.source) && ByteLen(i.source) <= 120
    && (i.confidence.Some? ==> 0.0 <= i.confidence.value <= 1.0)
    && Namespace(i.kind, i.source).Some?
  }

  predicate ValidIdentifiers(identifiers: seq<NewIdentifier>) {
    forall i :: i in identifiers ==> ValidIdentifier(i)
  }

  predicate ValidDevice(input: NewDevice) {
    ValidTexts(input.texts) && ValidCapabilities(input.capabilities) && ValidIdentifiers(input.identifiers)
  }

  predicate ValidPatch(patch: Patch) {
    && (forall f :: f in patch.texts && patch.texts[f].Some? ==> ValidText(f, patch.texts[f].value))
    && (patch.capabilities.Some? ==> ValidCapabilities(patch.capabilities.value))
  }

  predicate ValidObservation(o: Observation) {
    o.identifiers != [] && ValidTexts(o.texts) && ValidIdentifiers(o.identifiers)
  }

  // ------------------------------------------------------------- identifiers

  function KeyOf(i: NewIdentifier): Key
    requires ValidIdentifier(i)
  {
    Key(i.kind, Namespace(i.kind, i.source).value, Normalize(i.kind, i.value).value)
  }

  function UpsertIdentifier(t: Tables, scope: Scope, device: Id, i: NewIdentifier, observedAt: Option<Time>)
    : Result<Tables, Error>
  {
    if !ValidIdentifier(i) then Err(InvalidInput)
    else
      var key := KeyOf(i);
      if (device, key) in t.identifiers then
        var stored := t.identifiers[(device, key)];
        var row := stored.(value := Trim(i.value), source := Trim(i.source), confidence := i.confidence,
                        lastSeenAt := if observedAt.Some? then observedAt else stored.lastSeenAt);
        Ok(t.(identifiers := t.identifiers[(device, key) := row]))
      else if Strong(i.kind) && (scope, key) in t.owners then Err(DuplicateIdentifier)
      else
        var row := IdentifierRow(Trim(i.value), Trim(i.source), i.confidence, Strong(i.kind), observedAt);
        Ok(t.(identifiers := t.identifiers[(device, key) := row],
              owners := if Strong(i.kind) then t.owners[(scope, key) := device] else t.owners))
  }

  function UpsertAll(t: Tables, scope: Scope, device: Id, identifiers: seq<NewIdentifier>, observedAt: Option<Time>)
    : Result<Tables, Error>
  {
    if identifiers == [] then Ok(t)
    else
      var before := UpsertAll(t, scope, device, identifiers[..|identifiers| - 1], observedAt);
      if before.Err? then before
      else UpsertIdentifier(before.value, scope, device, identifiers[|identifiers| - 1], observedAt)
  }

  function FirstValue(identifiers: seq<NewIdentifier>, kind: Kind): Option<string> {
    if identifiers == [] then None
    else if identifiers[0].kind == kind then Some(Trim(identifiers[0].value))
    else FirstValue(identifiers[1..], kind)
  }

  // ------------------------------------------------------- columns and facts

  function TextOf(texts: Texts, f: TextField): Option<string> {
    if f in texts then Some(texts[f]) else None
  }

  function CleanTexts(texts: Texts): Texts {
    map f | f in texts && !Blank(texts[f]) :: Trim(texts[f])
  }

  function WithHostName(texts: Texts, fallback: Option<string>): Texts {
    if HostName in texts || fallback.None? then texts else texts[HostName := fallback.value]
  }

  const NO_FACTS := Facts(map[], None, None)

  function NonEmpty(capabilities: seq<string>): Option<seq<string>> {
    if capabilities == [] then None else Some(capabilities)
  }

  /** Facts after storing newer ones: a stored field replaces, a missing one leaves what was there. */
  function Upserted(facts: Facts, newer: Facts): Facts {
    Facts(facts.texts + newer.texts,
          if newer.deviceType.Some? then newer.deviceType else facts.deviceType,
          if newer.capabilities.Some? then newer.capabilities else facts.capabilities)
  }

  function ReportedFacts(deviceType: DeviceType, texts: Texts, capabilities: seq<string>): Facts {
    Facts(map f | f in texts :: Some(texts[f]), Some(deviceType), NonEmpty(capabilities))
  }

  function PatchedTexts(current: Texts, patch: map<TextField, Option<string>>): Texts {
    map f | f in current.Keys + patch.Keys && (f in patch ==> patch[f].Some?) ::
      if f in patch then patch[f].value else current[f]
  }

  function Later(a: Option<Time>, b: Time): Time {
    if a.Some? && a.value > b then a.value else b
  }

  /** Observed values fill the columns that no declared fact governs. */
  function ApplyObserved(row: DeviceRow, declared: Facts, o: Observation, observedAt: Time, now: Time): DeviceRow {
    var reported := CleanTexts(o.texts);
    row.(texts := row.texts + map f | f in reported && f !in declared.texts :: reported[f],
         deviceType := if declared.deviceType.None? then o.deviceType else row.deviceType,
         capabilities := if o.capabilities != [] && declared.capabilities.None?
                         then o.capabilities else row.capabilities,
         lastSeenAt := Some(Later(row.lastSeenAt, observedAt)),
         lastChangedAt := now,
         version := row.version + 1)
  }

  /** The changes that are recorded, each with an audit action and an outbox event type. */
  datatype Change = ManualCreate | MetadataUpdate | LifecycleMove | DiscoveryCreate | Reconciliation

  function ActionOf(change: Change): string {
    match change
    case ManualCreate => "inventory.device.create"
    case MetadataUpdate => "inventory.device.update"
    case LifecycleMove => "inventory.device.lifecycle.transition"
    case DiscoveryCreate => "inventory.device.discovery.create"
    case Reconciliation => "inventory.device.reconcile"
  }

  function EventTypeOf(change: Change): string {
    match change
    case ManualCreate => "inventory.device.created"
    case MetadataUpdate => "inventory.device.updated"
    case LifecycleMove => "inventory.device.lifecycle_changed"
    case DiscoveryCreate => "inventory.device.discovered"
    case Reconciliation => "inventory.device.observed"
  }

  /** Adds the audit and outbox rows that every mutation writes in its own transaction. */
  function Recorded(d: Device, change: Change, before: Option<DeviceRow>): Device {
    d.(audit := d.audit + [AuditRecord(ActionOf(change), before, d.row)],
       outbox := d.outbox + [OutboxRecord(EventTypeOf(change), d.row)])
  }

  // ------------------------------------------- what a mutator makes of a device

  /** A new manual device with its declared facts and its first log entry. */
  function ManualDevice(ctx: Context, input: NewDevice, approvalRequired: bool, id: Id, now: Time): Device {
    var d := NewManualDevice(ctx, input, approvalRequired, id, now);
    d.(declared := Upserted(NO_FACTS, ReportedFacts(input.deviceType, input.texts, input.capabilities)),
       log := [LifecycleEvent(None, d.row.lifecycle, Some("manual_create"))])
  }

  /** A new discovered device with its observed facts and its first log entry. */
  function DiscoveredDevice(ctx: Context, o: Observation, id: Id, observedAt: Time, now: Time): Device {
    var d := NewObservedDevice(ctx, o, id, observedAt, now);
    d.(observed := Upserted(NO_FACTS, ReportedFacts(o.deviceType, o.texts, o.capabilities)),
       log := [LifecycleEvent(None, Discovered, Some("discovery"))])
  }

  function PatchedDevice(d: Device, patch: Patch, now: Time): Device {
    d.(row := PatchedRow(d.row, patch, now),
       declared := Upserted(d.declared, Facts(patch.texts, patch.deviceType, patch.capabilities)))
  }

  function MovedDevice(d: Device, next: Lifecycle, reason: Option<string>, now: Time): Device {
    d.(row := MovedRow(d.row, next, Clean(reason), now),
       log := d.log + [LifecycleEvent(Some(d.row.lifecycle), next, Clean(reason))])
  }

  function ObservedDevice(d: Device, o: Observation, observedAt: Time, now: Time): Device {
    d.(row := ApplyObserved(d.row, d.declared, o, observedAt, now),
       observed := Upserted(d.observed, ReportedFacts(o.deviceType, o.texts, o.capabilities)),
       seenAt := d.seenAt + [observedAt])
  }

  // ---------------------------------------------------------------- mutators

  function Load(t: Tables, scope: Scope, id: Id): Option<Device> {
    if id in t.devices && t.devices[id].row.scope == scope then Some(t.devices[id]) else None
  }

  function NewManualDevice(ctx: Context, input: NewDevice, approvalRequired: bool, id: Id, now: Time): Device {
    var lifecycle := if approvalRequired then PendingReview else Managed;
    var fallback := FirstValue(input.identifiers, Hostname);
    var row := DeviceRow(id, ctx.scope, lifecycle, input.deviceType, CleanTexts(WithHostName(input.texts, fallback)),
                         Clean(FirstValue(input.identifiers, Serial)), input.capabilities, 1,
                         None, now, if lifecycle == Managed then Some(now) else None, None, None);
    Device(row, NO_FACTS, NO_FACTS, [], [], [], [], Clean(fallback))
  }

  function CreateManual(t: Tables, ctx: Context, input: NewDevice, approvalRequired: bool, id: Id, now: Time)
    : Result<(Tables, DeviceRow), Error>
  {
    if !ValidContext(ctx) || !ValidDevice(input) then Err(InvalidInput)
    else if id in t.devices then Err(Database)
    else
      var d := NewManualDevice(ctx, input, approvalRequired, id, now);
      var tx := UpsertAll(t.(devices := t.devices[id := d]), ctx.scope, id, input.identifiers, None);
      if tx.Err? then Err(tx.error)
      else
        var done := Recorded(ManualDevice(ctx, input, approvalRequired, id, now), ManualCreate, None);
        Ok((tx.value.(devices := tx.value.devices[id := done]), done.row))
  }

  function PatchedRow(row: DeviceRow, patch: Patch, now: Time): DeviceRow {
    row.(texts := CleanTexts(PatchedTexts(row.texts, patch.texts)),
         deviceType := if patch.deviceType.Some? then patch.deviceType.value else row.deviceType,
         capabilities := if patch.capabilities.Some? then patch.capabilities.value else row.capabilities,
         version := row.version + 1,
         lastChangedAt := now)
  }

  function UpdateMetadata(t: Tables, ctx: Context, id: Id, expected: int, patch: Patch, now: Time)
    : Result<(Tables, DeviceRow), Error>
  {
    if !ValidContext(ctx) || !ValidPatch(patch) then Err(InvalidInput)
    else
      var found := Load(t, ctx.scope, id);
      if found.None? then Err(DeviceNotFound)
      else
        var d := found.value;
        if d.row.version != expected then Err(VersionConflict(expected, d.row.version))
        else if !AllowsNormalMutation(d.row.lifecycle) then Err(LifecycleBlocksMutation(d.row.lifecycle))
        else
          var done := Recorded(PatchedDevice(d, patch, now), MetadataUpdate, Some(d.row));
          Ok((t.(devices := t.devices[id := done]), done.row))
  }

  function MovedRow(row: DeviceRow, next: Lifecycle, reason: Option<string>, now: Time): DeviceRow {
    var reopened := row.lifecycle == Retired && next == PendingReview;
    row.(lifecycle := next,
         onboardedAt := if next == Managed && row.onboardedAt.None? then Some(now) else row.onboardedAt,
         retiredAt := if next == Retired then Some(now) else if reopened then None else row.retiredAt,
         retirementReason := if next == Retired then reason else if reopened then None else row.retirementReason,
         version := row.version + 1,
         lastChangedAt := now)
  }

  function TransitionLifecycle(t: Tables, ctx: Context, id: Id, expected: int, next: Lifecycle, reason: Option<string>,
                               now: Time)
    : Result<(Tables, DeviceRow), Error>
  {
    if !ValidContext(ctx) then Err(InvalidInput)
    else
      var found := Load(t, ctx.scope, id);
      if found.None? then Err(DeviceNotFound)
      else
        var d := found.value;
        if d.row.version != expected then Err(VersionConflict(expected, d.row.version))
        else if d.row.lifecycle == next then Ok((t, d.row))
        else if !CanTransition(d.row.lifecycle, next) then Err(InvalidLifecycleTransition(d.row.lifecycle, next))
        else if (next == Retired || next == Archived) && Clean(reason).None? then Err(LifecycleReasonRequired)
        else
          var done := Recorded(MovedDevice(d, next, reason, now), LifecycleMove, Some(d.row));
          Ok((t.(devices := t.devices[id := done]), done.row))
  }

  /** The devices that own a strong identifier of the observation. */
  function Matches(t: Tables, scope: Scope, identifiers: seq<NewIdentifier>): set<Id>
    requires ValidIdentifiers(identifiers)
  {
    set i | i in identifiers && Strong(i.kind) && (scope, KeyOf(i)) in t.owners :: t.owners[(scope, KeyOf(i))]
  }

  function NewObservedDevice(ctx: Context, o: Observation, id: Id, observedAt: Time, now: Time): Device {
    var fallback := FirstValue(o.identifiers, Hostname);
    var row := DeviceRow(id, ctx.scope, Discovered, o.deviceType, CleanTexts(WithHostName(o.texts, fallback)),
                         Clean(FirstValue(o.identifiers, Serial)), o.capabilities, 1,
                         Some(observedAt), now, None, None, None);
    Device(row, NO_FACTS, NO_FACTS, [], [], [], [observedAt], Clean(fallback))
  }

  function ReconcileExisting(t: Tables, ctx: Context, o: Observation, id: Id, observedAt: Time, now: Time)
    : Result<(Tables, DeviceRow), Error>
  {
    var found := Load(t, ctx.scope, id);
    if found.None? then Err(DeviceNotFound)
    else
      var d := found.value;
      if d.row.lifecycle == Retired || d.row.lifecycle == Archived then Err(ReactivationRequiresReview(id))
      else
        var tx := UpsertAll(t, ctx.scope, id, o.identifiers, Some(observedAt));
        if tx.Err? then Err(tx.error)
        else
          var done := Recorded(ObservedDevice(d, o, observedAt, now), Reconciliation, Some(d.row));
          Ok((tx.value.(devices := tx.value.devices[id := done]), done.row))
  }

  function ReconcileNew(t: Tables, ctx: Context, o: Observation, id: Id, observedAt: Time, now: Time)
    : Result<(Tables, DeviceRow), Error>
  {
    if id in t.devices then Err(Database)
    else
      var d := NewObservedDevice(ctx, o, id, observedAt, now);
      var tx := UpsertAll(t.(devices := t.devices[id := d]), ctx.scope, id, o.identifiers, Some(observedAt));
      if tx.Err? then Err(tx.error)
      else
        var done := Recorded(DiscoveredDevice(ctx, o, id, observedAt, now), DiscoveryCreate, None);
        Ok((tx.value.(devices := tx.value.devices[id := done]), done.row))
  }

  function ObservedTime(o: Observation, now: Time): Time {
    if o.observedAt.Some? then o.observedAt.value else now
  }

  /** The only element of a singleton. */
  function Sole(ids: set<Id>): Id
    requires |ids| == 1
  {
    assert forall x, y :: x in ids && y in ids ==> x == y by {
      forall x, y | x in ids && y in ids ensures x == y {
        assert |ids - {x}| == 0;
        assert y == x || y in ids - {x};
      }
    }
    var x :| x in ids;
    x
  }

  /**
   A reconciliation once its lookups have found the devices `seen`. Other transactions may have
   committed since, so `seen` need not be what the tables say now.
   */
  function ReconcileSeen(t: Tables, ctx: Context, o: Observation, seen: set<Id>, newId: Id, now: Time)
    : Result<(Tables, Reconciled), Error>
  {
    if !ValidContext(ctx) || !ValidObservation(o) then Err(InvalidInput)
    else if |seen| > 1 then Err(ReconciliationConflict(seen))
    else if |seen| == 1 then
      var r := ReconcileExisting(t, ctx, o, Sole(seen), ObservedTime(o, now), now);
      if r.Err? then Err(r.error) else Ok((r.value.0, Updated(r.value.1)))
    else
      var r := ReconcileNew(t, ctx, o, newId, ObservedTime(o, now), now);
      if r.Err? then Err(r.error) else Ok((r.value.0, Created(r.value.1)))
  }

  /** A reconciliation with nothing committed between its lookups and its writes. */
  function Reconcile(t: Tables, ctx: Context, o: Observation, newId: Id, now: Time)
    : Result<(Tables, Reconciled), Error>
  {
    if !ValidContext(ctx) || !ValidObservation(o) then Err(InvalidInput)
    else ReconcileSeen(t, ctx, o, Matches(t, ctx.scope, o.identifiers), newId, now)
  }
}
