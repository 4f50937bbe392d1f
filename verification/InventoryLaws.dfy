/** What each inventory call leaves behind: every column, fact, identifier and record, in terms of its input. */
module InventoryLaws {
  import opened Wrappers
  import opened Text
  import opened InventoryDomain
  import opened Inventory
  import opened InventoryRuns

  /** The call wrote exactly one audit and one outbox record of the device: the change, what was, and what is. */
  predicate WroteRecords(audit: seq<AuditRecord>, outbox: seq<OutboxRecord>, d': Device, change: Change,
                         before: Option<DeviceRow>)
  {
    && d'.audit == audit + [AuditRecord(ActionOf(change), before, d'.row)]
    && d'.outbox == outbox + [OutboxRecord(EventTypeOf(change), d'.row)]
  }

  lemma RecordedWrites(d: Device, change: Change, before: Option<DeviceRow>)
    ensures WroteRecords(d.audit, d.outbox, Recorded(d, change, before), change, before)
  {}

  /** The names under which the changes are recorded. */
  lemma RecordNames()
    ensures ActionOf(ManualCreate) == "inventory.device.create"
    ensures EventTypeOf(ManualCreate) == "inventory.device.created"
    ensures ActionOf(MetadataUpdate) == "inventory.device.update"
    ensures EventTypeOf(MetadataUpdate) == "inventory.device.updated"
    ensures ActionOf(LifecycleMove) == "inventory.device.lifecycle.transition"
    ensures EventTypeOf(LifecycleMove) == "inventory.device.lifecycle_changed"
    ensures ActionOf(DiscoveryCreate) == "inventory.device.discovery.create"
    ensures EventTypeOf(DiscoveryCreate) == "inventory.device.discovered"
    ensures ActionOf(Reconciliation) == "inventory.device.reconcile"
    ensures EventTypeOf(Reconciliation) == "inventory.device.observed"
  {}

  /** Only the device `id` differs. */
  ghost predicate OthersKept(t: Tables, t': Tables, id: Id) {
    && t'.devices.Keys == t.devices.Keys + {id}
    && forall other :: other in t.devices && other != id ==> t'.devices[other] == t.devices[other]
  }

  /** The columns a call on an existing device never touches. */
  predicate SameIdentity(row: DeviceRow, row': DeviceRow) {
    row'.id == row.id && row'.scope == row.scope && row'.serial == row.serial
  }

  predicate SameDates(row: DeviceRow, row': DeviceRow) {
    && row'.lifecycle == row.lifecycle && row'.onboardedAt == row.onboardedAt
    && row'.retiredAt == row.retiredAt && row'.retirementReason == row.retirementReason
  }

  // --------------------------------------------------------- observations

  /** The facts are the older ones with everything that is reported put in its place. */
  ghost predicate FactsTake(facts: Facts, facts': Facts, deviceType: DeviceType, texts: Texts,
                            capabilities: seq<string>)
  {
    && facts'.deviceType == Some(deviceType)
    && facts'.capabilities == (if capabilities == [] then facts.capabilities else Some(capabilities))
    && (forall f :: f in facts'.texts <==> f in facts.texts || f in texts)
    && (forall f :: f in facts'.texts ==> facts'.texts[f] == if f in texts then Some(texts[f]) else facts.texts[f])
  }

  /** What an observation makes of the row of a device it updates. */
  ghost predicate RowTakes(d: Device, row': DeviceRow, o: Observation, at: Time, now: Time) {
    && SameIdentity(d.row, row') && SameDates(d.row, row') && row'.version == d.row.version + 1
    && (forall f :: TextOf(row'.texts, f) ==
          if f in o.texts && f !in d.declared.texts then Some(Trim(o.texts[f])) else TextOf(d.row.texts, f))
    && row'.deviceType == (if d.declared.deviceType.Some? then d.row.deviceType else o.deviceType)
    && row'.capabilities ==
         (if o.capabilities == [] || d.declared.capabilities.Some? then d.row.capabilities else o.capabilities)
    && (row'.lastSeenAt == Some(at) || row'.lastSeenAt == d.row.lastSeenAt)
    && row'.lastSeenAt.Some? && row'.lastSeenAt.value >= at && row'.lastChangedAt == now
  }

  /** What an observation makes of a device it updates. */
  ghost predicate DeviceTakes(d: Device, d': Device, o: Observation, at: Time, now: Time) {
    && RowTakes(d, d'.row, o, at, now)
    && FactsTake(d.observed, d'.observed, o.deviceType, o.texts, o.capabilities)
    && d'.declared == d.declared && d'.log == d.log && d'.seenAt == d.seenAt + [at]
    && WroteRecords(d.audit, d.outbox, d', Reconciliation, Some(d.row))
  }

  /**
   What is reported arrives: when an observation updates a device, its observed facts hold every
   reported text, the type and any capabilities; every column that nothing declares takes the report;
   and nothing else about the device changes but its times, version and records.
   */
  lemma UpdatedTakesReport(t: Tables, ctx: Context, o: Observation, seen: set<Id>, newId: Id, now: Time)
    requires var r := ReconcileSeen(t, ctx, o, seen, newId, now); r.Ok? && r.value.1.Updated?
    ensures var t', row' := ReconcileSeen(t, ctx, o, seen, newId, now).value.0,
                            ReconcileSeen(t, ctx, o, seen, newId, now).value.1.row;
            var at := if o.observedAt.Some? then o.observedAt.value else now;
            exists id :: && seen == {id} && id in t.devices && id in t'.devices && t'.devices[id].row == row'
                         && t.devices[id].row.scope == ctx.scope
                         && t.devices[id].row.lifecycle != Retired && t.devices[id].row.lifecycle != Archived
                         && DeviceTakes(t.devices[id], t'.devices[id], o, at, now)
                         && OthersKept(t, t', id)
  {
    SoleMember(seen);
    ExistingTakesReport(t, ctx, o, Sole(seen), ObservedTime(o, now), now);
  }

  lemma ExistingTakesReport(t: Tables, ctx: Context, o: Observation, id: Id, at: Time, now: Time)
    requires ValidObservation(o) && ReconcileExisting(t, ctx, o, id, at, now).Ok?
    ensures var r := ReconcileExisting(t, ctx, o, id, at, now).value;
            && id in t.devices && id in r.0.devices && r.0.devices[id].row == r.1
            && t.devices[id].row.scope == ctx.scope
            && t.devices[id].row.lifecycle != Retired && t.devices[id].row.lifecycle != Archived
            && DeviceTakes(t.devices[id], r.0.devices[id], o, at, now) && OthersKept(t, r.0, id)
  {
    ExistingSets(t, ctx, o, id, at, now);
    var d := t.devices[id];
    ObservedTakes(d, o, at, now);
    SetKeepsOthers(t, ReconcileExisting(t, ctx, o, id, at, now).value.0, id,
                   Recorded(ObservedDevice(d, o, at, now), Reconciliation, Some(d.row)));
  }

  lemma ExistingSets(t: Tables, ctx: Context, o: Observation, id: Id, at: Time, now: Time)
    requires ValidObservation(o) && ReconcileExisting(t, ctx, o, id, at, now).Ok?
    ensures var r := ReconcileExisting(t, ctx, o, id, at, now).value;
            && id in t.devices && t.devices[id].row.scope == ctx.scope
            && t.devices[id].row.lifecycle != Retired && t.devices[id].row.lifecycle != Archived
            && var done := Recorded(ObservedDevice(t.devices[id], o, at, now), Reconciliation, Some(t.devices[id].row));
               r.0.devices == t.devices[id := done] && r.1 == done.row
  {
    UpsertLeavesDevices(t, ctx.scope, id, o.identifiers, Some(at));
  }

  lemma SetKeepsOthers(t: Tables, t': Tables, id: Id, d: Device)
    requires t'.devices == t.devices[id := d]
    ensures OthersKept(t, t', id) && id in t'.devices && t'.devices[id] == d
  {}

  lemma ObservedTakes(d: Device, o: Observation, at: Time, now: Time)
    requires ValidObservation(o)
    ensures DeviceTakes(d, Recorded(ObservedDevice(d, o, at, now), Reconciliation, Some(d.row)), o, at, now)
  {
    ReportedFactsTake(d.observed, o.deviceType, o.texts, o.capabilities);
    RowTakesReport(d, o, at, now);
    RecordedWrites(ObservedDevice(d, o, at, now), Reconciliation, Some(d.row));
  }

  lemma ReportedFactsTake(facts: Facts, deviceType: DeviceType, texts: Texts, capabilities: seq<string>)
    ensures FactsTake(facts, Upserted(facts, ReportedFacts(deviceType, texts, capabilities)), deviceType, texts,
                      capabilities)
  {}

  lemma RowTakesReport(d: Device, o: Observation, at: Time, now: Time)
    requires ValidObservation(o)
    ensures RowTakes(d, ApplyObserved(d.row, d.declared, o, at, now), o, at, now)
  {
    var row' := ApplyObserved(d.row, d.declared, o, at, now);
    forall f ensures TextOf(row'.texts, f) ==
      if f in o.texts && f !in d.declared.texts then Some(Trim(o.texts[f])) else TextOf(d.row.texts, f)
    {
      ObservedText(d.row.texts, d.declared.texts, o.texts, f);
    }
  }

  ghost predicate FirstAt(identifiers: seq<NewIdentifier>, kind: Kind, i: int) {
    && 0 <= i < |identifiers| && identifiers[i].kind == kind
    && forall j :: 0 <= j < i ==> identifiers[j].kind != kind
  }

  /** The first identifier of a kind, trimmed: what a missing column falls back on. */
  ghost predicate FirstOf(identifiers: seq<NewIdentifier>, kind: Kind, value: Option<string>) {
    if value.None? then forall i :: 0 <= i < |identifiers| ==> identifiers[i].kind != kind
    else exists i :: FirstAt(identifiers, kind, i) && Trim(identifiers[i].value) == value.value
  }

  lemma {:induction false} FirstValueIsFirst(identifiers: seq<NewIdentifier>, kind: Kind)
    ensures FirstOf(identifiers, kind, FirstValue(identifiers, kind))
  {
    if identifiers == [] {
    } else if identifiers[0].kind == kind {
      assert FirstAt(identifiers, kind, 0);
    } else {
      var rest, value := identifiers[1..], FirstValue(identifiers, kind);
      FirstValueIsFirst(rest, kind);
      if value.Some? {
        var i :| FirstAt(rest, kind, i) && Trim(rest[i].value) == value.value;
        assert identifiers[i + 1] == rest[i];
        forall j | 0 <= j < i + 1 ensures identifiers[j].kind != kind {
          if j > 0 { assert identifiers[j] == rest[j - 1]; }
        }
        assert FirstAt(identifiers, kind, i + 1);
      } else {
        forall i | 0 <= i < |identifiers| ensures identifiers[i].kind != kind {
          if i > 0 { assert identifiers[i] == rest[i - 1]; }
        }
      }
    }
  }

  /** The text columns a new device starts with: what is given, trimmed, and a host name from an identifier. */
  ghost predicate StartsWith(texts': Texts, texts: Texts, identifiers: seq<NewIdentifier>) {
    && (forall f :: f != HostName || f in texts ==>
          TextOf(texts', f) == if f in texts && !Blank(texts[f]) then Some(Trim(texts[f])) else None)
    && (HostName !in texts ==>
          exists name :: FirstOf(identifiers, Hostname, name) && TextOf(texts', HostName) == Clean(name))
  }

  lemma FallbackStarts(texts: Texts, identifiers: seq<NewIdentifier>)
    ensures StartsWith(CleanTexts(WithHostName(texts, FirstValue(identifiers, Hostname))), texts, identifiers)
  {
    FirstValueIsFirst(identifiers, Hostname);
    var name := FirstValue(identifiers, Hostname);
    var texts' := CleanTexts(WithHostName(texts, name));
    forall f | f != HostName || f in texts
      ensures TextOf(texts', f) == if f in texts && !Blank(texts[f]) then Some(Trim(texts[f])) else None
    {
      CleanTextOf(WithHostName(texts, name), f);
    }
    if HostName !in texts { CleanTextOf(WithHostName(texts, name), HostName); }
  }

  /** A device as a discovery creates it. */
  ghost predicate Discovers(d': Device, ctx: Context, o: Observation, id: Id, at: Time, now: Time) {
    var row' := d'.row;
    && row'.id == id && row'.scope == ctx.scope && row'.lifecycle == Discovered
    && row'.deviceType == o.deviceType && row'.capabilities == o.capabilities && row'.version == 1
    && StartsWith(row'.texts, o.texts, o.identifiers)
    && (exists v :: FirstOf(o.identifiers, Serial, v) && row'.serial == Clean(v))
    && row'.lastSeenAt == Some(at) && row'.lastChangedAt == now
    && row'.onboardedAt == None && row'.retiredAt == None && row'.retirementReason == None
    && FactsTake(Facts(map[], None, None), d'.observed, o.deviceType, o.texts, o.capabilities)
    && d'.declared == Facts(map[], None, None) && d'.seenAt == [at]
    && d'.log == [LifecycleEvent(None, Discovered, Some("discovery"))]
    && WroteRecords([], [], d', DiscoveryCreate, None)
  }

  lemma DiscoveryTakes(ctx: Context, o: Observation, id: Id, at: Time, now: Time)
    ensures Discovers(Recorded(DiscoveredDevice(ctx, o, id, at, now), DiscoveryCreate, None), ctx, o, id, at, now)
  {
    ReportedFactsTake(NO_FACTS, o.deviceType, o.texts, o.capabilities);
    RecordedWrites(DiscoveredDevice(ctx, o, id, at, now), DiscoveryCreate, None);
    FallbackStarts(o.texts, o.identifiers);
    FirstValueIsFirst(o.identifiers, Serial);
    assert FirstOf(o.identifiers, Serial, FirstValue(o.identifiers, Serial));
  }

  /** A created device holds what was reported, as observed facts, and is only discovered. */
  lemma CreatedTakesReport(t: Tables, ctx: Context, o: Observation, seen: set<Id>, newId: Id, now: Time)
    requires var r := ReconcileSeen(t, ctx, o, seen, newId, now); r.Ok? && r.value.1.Created?
    ensures var t', row' := ReconcileSeen(t, ctx, o, seen, newId, now).value.0,
                            ReconcileSeen(t, ctx, o, seen, newId, now).value.1.row;
            && seen == {} && newId !in t.devices && newId in t'.devices && t'.devices[newId].row == row'
            && Discovers(t'.devices[newId], ctx, o, newId, if o.observedAt.Some? then o.observedAt.value else now, now)
            && OthersKept(t, t', newId)
  {
    NewTakesReport(t, ctx, o, newId, ObservedTime(o, now), now);
  }

  lemma NewTakesReport(t: Tables, ctx: Context, o: Observation, id: Id, at: Time, now: Time)
    requires ValidObservation(o) && ReconcileNew(t, ctx, o, id, at, now).Ok?
    ensures var r := ReconcileNew(t, ctx, o, id, at, now).value;
            && id !in t.devices && id in r.0.devices && r.0.devices[id].row == r.1
            && Discovers(r.0.devices[id], ctx, o, id, at, now) && OthersKept(t, r.0, id)
  {
    NewSets(t, ctx, o, id, at, now);
    DiscoveryTakes(ctx, o, id, at, now);
    SetKeepsOthers(t, ReconcileNew(t, ctx, o, id, at, now).value.0, id,
                   Recorded(DiscoveredDevice(ctx, o, id, at, now), DiscoveryCreate, None));
  }

  lemma NewSets(t: Tables, ctx: Context, o: Observation, id: Id, at: Time, now: Time)
    requires ReconcileNew(t, ctx, o, id, at, now).Ok?
    ensures var r := ReconcileNew(t, ctx, o, id, at, now).value;
            var done := Recorded(DiscoveredDevice(ctx, o, id, at, now), DiscoveryCreate, None);
            id !in t.devices && r.0.devices == t.devices[id := done] && r.1 == done.row
  {
    var d := NewObservedDevice(ctx, o, id, at, now);
    UpsertLeavesDevices(t.(devices := t.devices[id := d]), ctx.scope, id, o.identifiers, Some(at));
  }

  // ---------------------------------------------------------- manual creation

  /** A device as an operator creates it: approval decides where it starts. */
  ghost predicate Declares(d': Device, ctx: Context, input: NewDevice, approvalRequired: bool, id: Id, now: Time) {
    var row' := d'.row;
    && row'.id == id && row'.scope == ctx.scope
    && row'.lifecycle == (if approvalRequired then PendingReview else Managed)
    && row'.onboardedAt == (if approvalRequired then None else Some(now))
    && row'.deviceType == input.deviceType && row'.capabilities == input.capabilities && row'.version == 1
    && StartsWith(row'.texts, input.texts, input.identifiers)
    && (exists v :: FirstOf(input.identifiers, Serial, v) && row'.serial == Clean(v))
    && row'.lastSeenAt == None && row'.lastChangedAt == now && row'.retiredAt == None && row'.retirementReason == None
    && FactsTake(Facts(map[], None, None), d'.declared, input.deviceType, input.texts, input.capabilities)
    && d'.observed == Facts(map[], None, None) && d'.seenAt == []
    && d'.log == [LifecycleEvent(None, row'.lifecycle, Some("manual_create"))]
    && WroteRecords([], [], d', ManualCreate, None)
  }

  lemma ManualTakes(ctx: Context, input: NewDevice, approvalRequired: bool, id: Id, now: Time)
    ensures Declares(Recorded(ManualDevice(ctx, input, approvalRequired, id, now), ManualCreate, None),
                     ctx, input, approvalRequired, id, now)
  {
    ReportedFactsTake(NO_FACTS, input.deviceType, input.texts, input.capabilities);
    RecordedWrites(ManualDevice(ctx, input, approvalRequired, id, now), ManualCreate, None);
    FallbackStarts(input.texts, input.identifiers);
    FirstValueIsFirst(input.identifiers, Serial);
    assert FirstOf(input.identifiers, Serial, FirstValue(input.identifiers, Serial));
  }

  /** A manual device holds what was given, as declared facts. */
  lemma ManualTakesInput(t: Tables, ctx: Context, input: NewDevice, approvalRequired: bool, id: Id, now: Time)
    requires CreateManual(t, ctx, input, approvalRequired, id, now).Ok?
    ensures var r := CreateManual(t, ctx, input, approvalRequired, id, now).value;
            && id !in t.devices && id in r.0.devices && r.0.devices[id].row == r.1
            && Declares(r.0.devices[id], ctx, input, approvalRequired, id, now) && OthersKept(t, r.0, id)
  {
    ManualSets(t, ctx, input, approvalRequired, id, now);
    ManualTakes(ctx, input, approvalRequired, id, now);
    SetKeepsOthers(t, CreateManual(t, ctx, input, approvalRequired, id, now).value.0, id,
                   Recorded(ManualDevice(ctx, input, approvalRequired, id, now), ManualCreate, None));
  }

  lemma ManualSets(t: Tables, ctx: Context, input: NewDevice, approvalRequired: bool, id: Id, now: Time)
    requires CreateManual(t, ctx, input, approvalRequired, id, now).Ok?
    ensures var r := CreateManual(t, ctx, input, approvalRequired, id, now).value;
            var done := Recorded(ManualDevice(ctx, input, approvalRequired, id, now), ManualCreate, None);
            id !in t.devices && r.0.devices == t.devices[id := done] && r.1 == done.row
  {
    var d := NewManualDevice(ctx, input, approvalRequired, id, now);
    UpsertLeavesDevices(t.(devices := t.devices[id := d]), ctx.scope, id, input.identifiers, None);
  }

  // ------------------------------------------------------------------- updates

  /** An update is refused for these reasons, in this order, and for no other. */
  lemma UpdateAnswer(t: Tables, ctx: Context, id: Id, expected: int, patch: Patch, now: Time)
    requires ValidContext(ctx) && ValidPatch(patch)
    ensures var r := UpdateMetadata(t, ctx, id, expected, patch, now);
            if id !in t.devices || t.devices[id].row.scope != ctx.scope then r == Err(DeviceNotFound)
            else
              var row := t.devices[id].row;
              if row.version != expected then r == Err(VersionConflict(expected, row.version))
              else if row.lifecycle != Managed && row.lifecycle != Maintenance
              then r == Err(LifecycleBlocksMutation(row.lifecycle))
              else r.Ok?
  {}

  /** What is patched arrives, in the columns and as declared facts, and nothing else changes. */
  lemma UpdateTakesPatch(t: Tables, ctx: Context, id: Id, expected: int, patch: Patch, now: Time)
    requires Inv(t) && UpdateMetadata(t, ctx, id, expected, patch, now).Ok?
    ensures var r := UpdateMetadata(t, ctx, id, expected, patch, now).value;
            && id in t.devices && id in r.0.devices
            && r.0.identifiers == t.identifiers && r.0.owners == t.owners
            && OthersKept(t, r.0, id)
            && var d, d' := t.devices[id], r.0.devices[id];
               && d'.row == r.1 && SameIdentity(d.row, r.1) && SameDates(d.row, r.1)
               && r.1.version == expected + 1 == d.row.version + 1
               && r.1.lastSeenAt == d.row.lastSeenAt && r.1.lastChangedAt == now
               && (forall f :: TextOf(r.1.texts, f) ==
                     if f in patch.texts then Clean(patch.texts[f]) else TextOf(d.row.texts, f))
               && r.1.deviceType == (if patch.deviceType.Some? then patch.deviceType.value else d.row.deviceType)
               && r.1.capabilities ==
                    (if patch.capabilities.Some? then patch.capabilities.value else d.row.capabilities)
               && FactsPatched(d.declared, d'.declared, patch)
               && d'.observed == d.observed && d'.log == d.log && d'.seenAt == d.seenAt
               && WroteRecords(d.audit, d.outbox, d', MetadataUpdate, Some(d.row))
  {
    forall f ensures TextOf(UpdateMetadata(t, ctx, id, expected, patch, now).value.1.texts, f) ==
      if f in patch.texts then Clean(patch.texts[f]) else TextOf(t.devices[id].row.texts, f)
    {
      PatchedColumns(t, ctx, id, expected, patch, now, f);
    }
  }

  ghost predicate FactsPatched(facts: Facts, facts': Facts, patch: Patch) {
    && facts'.deviceType == (if patch.deviceType.Some? then patch.deviceType else facts.deviceType)
    && facts'.capabilities == (if patch.capabilities.Some? then patch.capabilities else facts.capabilities)
    && (forall f :: f in facts'.texts <==> f in facts.texts || f in patch.texts)
    && (forall f :: f in facts'.texts ==>
          facts'.texts[f] == if f in patch.texts then patch.texts[f] else facts.texts[f])
  }

  // --------------------------------------------------------------- transitions

  /** A transition is refused for these reasons, in this order, and for no other. */
  lemma TransitionAnswer(t: Tables, ctx: Context, id: Id, expected: int, next: Lifecycle, reason: Option<string>,
                         now: Time)
    requires ValidContext(ctx)
    ensures var r := TransitionLifecycle(t, ctx, id, expected, next, reason, now);
            if id !in t.devices || t.devices[id].row.scope != ctx.scope then r == Err(DeviceNotFound)
            else
              var row := t.devices[id].row;
              if row.version != expected then r == Err(VersionConflict(expected, row.version))
              else if row.lifecycle == next then r == Ok((t, row))
              else if next !in Successors(row.lifecycle) then r == Err(InvalidLifecycleTransition(row.lifecycle, next))
              else if next in {Retired, Archived} && (reason.None? || Blank(reason.value))
                then r == Err(LifecycleReasonRequired)
              else r.Ok?
  {}

  /** The states that may follow each state. */
  function Successors(from: Lifecycle): set<Lifecycle> {
    match from
    case Discovered => {PendingReview, Unmanaged, Archived}
    case PendingReview => {Managed, Unmanaged, Archived}
    case Managed => {Maintenance, Unmanaged, Retired}
    case Unmanaged => {PendingReview, Managed, Retired, Archived}
    case Maintenance => {Managed, Retired}
    case Retired => {PendingReview, Archived}
    case Archived => {}
  }

  /** A transition that is made sets the state and its dates, logs itself, and changes nothing else. */
  lemma TransitionMoves(t: Tables, ctx: Context, id: Id, expected: int, next: Lifecycle, reason: Option<string>,
                        now: Time)
    requires TransitionLifecycle(t, ctx, id, expected, next, reason, now).Ok?
    requires t.devices[id].row.lifecycle != next
    ensures var r := TransitionLifecycle(t, ctx, id, expected, next, reason, now).value;
            var why := if reason.None? || Blank(reason.value) then None else Some(Trim(reason.value));
            && r.0.identifiers == t.identifiers && r.0.owners == t.owners && id in r.0.devices
            && OthersKept(t, r.0, id)
            && var d, d' := t.devices[id], r.0.devices[id]; var row := d.row;
               && d'.row == r.1 && SameIdentity(row, r.1) && r.1.lifecycle == next
               && r.1.version == expected + 1 == row.version + 1 && r.1.lastChangedAt == now
               && r.1.texts == row.texts && r.1.deviceType == row.deviceType && r.1.capabilities == row.capabilities
               && r.1.lastSeenAt == row.lastSeenAt
               && (next == Managed && row.onboardedAt.None? ==> r.1.onboardedAt == Some(now))
               && (next != Managed || row.onboardedAt.Some? ==> r.1.onboardedAt == row.onboardedAt)
               && (next == Retired ==> r.1.retiredAt == Some(now) && r.1.retirementReason == why && why.Some?)
               && (row.lifecycle == Retired && next == PendingReview ==>
                     r.1.retiredAt == None && r.1.retirementReason == None)
               && (next != Retired && !(row.lifecycle == Retired && next == PendingReview) ==>
                     r.1.retiredAt == row.retiredAt && r.1.retirementReason == row.retirementReason)
               && d'.log == d.log + [LifecycleEvent(Some(row.lifecycle), next, why)]
               && d'.declared == d.declared && d'.observed == d.observed && d'.seenAt == d.seenAt
               && WroteRecords(d.audit, d.outbox, d', LifecycleMove, Some(row))
  {}

  // --------------------------------------------------------------- identifiers

  /** The identifier at `i` is the last of the list with its key. */
  ghost predicate LastOfKey(identifiers: seq<NewIdentifier>, i: nat)
    requires i < |identifiers| && ValidIdentifiers(identifiers)
  {
    forall j :: i < j < |identifiers| ==> KeyOf(identifiers[j]) != KeyOf(identifiers[i])
  }

  /** What the row of a reported identifier holds. */
  predicate RowReports(row: IdentifierRow, i: NewIdentifier, at: Option<Time>) {
    && row.value == Trim(i.value) && row.source == Trim(i.source) && row.confidence == i.confidence
    && (at.Some? ==> row.lastSeenAt == at)
  }

  /** Every identifier of a list that is upserted ends up stored as its last report. */
  lemma {:induction false} IdentifiersArrive(t: Tables, scope: Scope, device: Id, identifiers: seq<NewIdentifier>,
                                             at: Option<Time>, i: nat)
    requires ValidIdentifiers(identifiers) && UpsertAll(t, scope, device, identifiers, at).Ok?
    requires i < |identifiers| && LastOfKey(identifiers, i)
    ensures var rows' := UpsertAll(t, scope, device, identifiers, at).value.identifiers;
            Arrived(rows', (device, KeyOf(identifiers[i])), identifiers[i], at)
    decreases |identifiers|
  {
    var rest, last := identifiers[..|identifiers| - 1], identifiers[|identifiers| - 1];
    UpsertAllStep(t, scope, device, identifiers, at);
    var middle := UpsertAll(t, scope, device, rest, at).value;
    if i < |rest| {
      LastOfRest(identifiers, i);
      IdentifiersArrive(t, scope, device, rest, at, i);
      LaterKeepsArrived(middle, scope, device, last, at, identifiers[i]);
    } else {
      IdentifierArrives(middle, scope, device, last, at);
    }
  }

  lemma UpsertAllStep(t: Tables, scope: Scope, device: Id, identifiers: seq<NewIdentifier>, at: Option<Time>)
    requires identifiers != [] && UpsertAll(t, scope, device, identifiers, at).Ok?
    ensures var rest, last := identifiers[..|identifiers| - 1], identifiers[|identifiers| - 1];
            && UpsertAll(t, scope, device, rest, at).Ok?
            && UpsertAll(t, scope, device, identifiers, at) ==
                 UpsertIdentifier(UpsertAll(t, scope, device, rest, at).value, scope, device, last, at)
  {}

  lemma LastOfRest(identifiers: seq<NewIdentifier>, i: nat)
    requires ValidIdentifiers(identifiers) && i < |identifiers| - 1 && LastOfKey(identifiers, i)
    ensures var rest, last := identifiers[..|identifiers| - 1], identifiers[|identifiers| - 1];
            && ValidIdentifiers(rest) && LastOfKey(rest, i) && rest[i] == identifiers[i]
            && ValidIdentifier(last) && ValidIdentifier(identifiers[i]) && KeyOf(last) != KeyOf(identifiers[i])
  {}

  predicate Arrived(rows: map<(Id, Key), IdentifierRow>, k: (Id, Key), i: NewIdentifier, at: Option<Time>) {
    k in rows && RowReports(rows[k], i, at)
  }

  lemma LaterKeepsArrived(t: Tables, scope: Scope, device: Id, last: NewIdentifier, at: Option<Time>, i: NewIdentifier)
    requires UpsertIdentifier(t, scope, device, last, at).Ok?
    requires ValidIdentifier(last) && ValidIdentifier(i) && KeyOf(last) != KeyOf(i)
    requires Arrived(t.identifiers, (device, KeyOf(i)), i, at)
    ensures Arrived(UpsertIdentifier(t, scope, device, last, at).value.identifiers, (device, KeyOf(i)), i, at)
  {
    IdentifierArrives(t, scope, device, last, at);
  }

  /** The rows of other keys and of other devices stay as they were. */
  lemma {:induction false} OtherIdentifiersKept(t: Tables, scope: Scope, device: Id, identifiers: seq<NewIdentifier>,
                                                at: Option<Time>, k: (Id, Key))
    requires ValidIdentifiers(identifiers) && UpsertAll(t, scope, device, identifiers, at).Ok?
    requires k.0 != device || forall i :: 0 <= i < |identifiers| ==> KeyOf(identifiers[i]) != k.1
    ensures var rows' := UpsertAll(t, scope, device, identifiers, at).value.identifiers;
            (k in rows' <==> k in t.identifiers) && (k in rows' ==> rows'[k] == t.identifiers[k])
    decreases |identifiers|
  {
    if identifiers != [] {
      var rest, last := identifiers[..|identifiers| - 1], identifiers[|identifiers| - 1];
      OtherIdentifiersKept(t, scope, device, rest, at, k);
      IdentifierArrives(UpsertAll(t, scope, device, rest, at).value, scope, device, last, at);
    }
  }

  lemma IdentifierArrives(t: Tables, scope: Scope, device: Id, i: NewIdentifier, at: Option<Time>)
    requires UpsertIdentifier(t, scope, device, i, at).Ok?
    ensures ValidIdentifier(i)
    ensures var t' := UpsertIdentifier(t, scope, device, i, at).value; var k := (device, KeyOf(i));
            && k in t'.identifiers && t'.identifiers == t.identifiers[k := t'.identifiers[k]]
            && RowReports(t'.identifiers[k], i, at)
            && (at.None? && k in t.identifiers ==> t'.identifiers[k].lastSeenAt == t.identifiers[k].lastSeenAt)
            && (at.None? && k !in t.identifiers ==> t'.identifiers[k].lastSeenAt == None)
            && t'.devices == t.devices
  {}

  /** Every identifier of the list is stored for the device as its last report says. */
  ghost predicate AllArrived(rows: map<(Id, Key), IdentifierRow>, device: Id, identifiers: seq<NewIdentifier>,
                             at: Option<Time>)
    requires ValidIdentifiers(identifiers)
  {
    forall i: nat :: i < |identifiers| && LastOfKey(identifiers, i) ==>
      Arrived(rows, (device, KeyOf(identifiers[i])), identifiers[i], at)
  }

  lemma AllArrive(t: Tables, scope: Scope, device: Id, identifiers: seq<NewIdentifier>, at: Option<Time>)
    requires ValidIdentifiers(identifiers) && UpsertAll(t, scope, device, identifiers, at).Ok?
    ensures AllArrived(UpsertAll(t, scope, device, identifiers, at).value.identifiers, device, identifiers, at)
  {
    forall i: nat | i < |identifiers| && LastOfKey(identifiers, i)
      ensures Arrived(UpsertAll(t, scope, device, identifiers, at).value.identifiers, (device, KeyOf(identifiers[i])),
                      identifiers[i], at)
    {
      IdentifiersArrive(t, scope, device, identifiers, at, i);
    }
  }

  /** A reconciliation stores all reported identifiers, weak ones too, as seen at its time. */
  lemma ReportedIdentifiersArrive(t: Tables, ctx: Context, o: Observation, seen: set<Id>, newId: Id, now: Time)
    requires ReconcileSeen(t, ctx, o, seen, newId, now).Ok?
    ensures ValidIdentifiers(o.identifiers)
    ensures var r := ReconcileSeen(t, ctx, o, seen, newId, now).value;
            var device := if |seen| == 1 then Sole(seen) else newId;
            var at := if o.observedAt.Some? then o.observedAt.value else now;
            AllArrived(r.0.identifiers, device, o.identifiers, Some(at))
  {
    var at := ObservedTime(o, now);
    if |seen| == 1 {
      AllArrive(t, ctx.scope, Sole(seen), o.identifiers, Some(at));
    } else {
      var d := NewObservedDevice(ctx, o, newId, at, now);
      AllArrive(t.(devices := t.devices[newId := d]), ctx.scope, newId, o.identifiers, Some(at));
    }
  }

  /** A manual creation stores all given identifiers, not yet seen by any observation. */
  lemma GivenIdentifiersArrive(t: Tables, ctx: Context, input: NewDevice, approvalRequired: bool, id: Id, now: Time)
    requires CreateManual(t, ctx, input, approvalRequired, id, now).Ok?
    ensures ValidIdentifiers(input.identifiers)
    ensures var rows' := CreateManual(t, ctx, input, approvalRequired, id, now).value.0.identifiers;
            AllArrived(rows', id, input.identifiers, None)
  {
    var d := NewManualDevice(ctx, input, approvalRequired, id, now);
    AllArrive(t.(devices := t.devices[id := d]), ctx.scope, id, input.identifiers, None);
  }

  // -------------------------------------------------------------------- limits

  /** Text fields take 1 to 512 bytes that are not blank; a description up to 4096, blank or empty too. */
  lemma TextLimits(f: TextField, n: nat)
    ensures ValidText(f, Letters(n)) <==> if f == Description then n <= 4096 else 1 <= n <= 512
    ensures ValidText(f, " ") <==> f == Description
  {
    LettersAreText(n);
    assert Trim(" ") == [];
  }

  /** Up to 256 capabilities of 1 to 120 bytes. */
  lemma CapabilityLimits(n: nat, k: nat)
    requires k > 0
    ensures ValidCapabilities(seq(k, i => Letters(n))) <==> k <= 256 && 1 <= n <= 120
  {
    LettersAreText(n);
    assert Letters(n) == seq(k, i => Letters(n))[0];
  }

  /** An identifier needs a normal form, a source of 1 to 120 bytes and a confidence, if any, from 0 to 1. */
  lemma IdentifierLimits(kind: Kind, n: nat, k: nat, confidence: Option<real>)
    requires kind in {Serial, AssetTag}
    ensures ValidIdentifier(NewIdentifier(kind, Letters(n), Letters(k), confidence)) <==>
      1 <= n && 1 <= k <= 120 && (confidence.Some? ==> 0.0 <= confidence.value <= 1.0)
  {
    LettersAreText(n);
    LettersAreText(k);
    TrimFixesTrimmed(Letters(n));
    NormalForm(kind, Letters(n));
  }

  /** A request needs an identifier of 1 to 200 bytes and, if it names a source address, one that parses. */
  lemma ContextLimits(scope: Scope, n: nat, parses: bool)
    ensures ValidContext(Context(scope, Letters(n), parses)) <==> 1 <= n <= 200 && parses
  {
    LettersAreText(n);
  }

  /** An observation needs an identifier; a new device does not. */
  lemma IdentifiersRequired(deviceType: DeviceType, at: Option<Time>)
    ensures !ValidObservation(RawObservation(deviceType, map[], [], [], at))
    ensures ValidDevice(NewDevice(deviceType, map[], [], []))
  {}

  /** A bad context, text, capability list or identifier list is refused before anything is read. */
  lemma BadInputRefused(t: Tables, ctx: Context, input: NewDevice, approvalRequired: bool, id: Id, expected: int,
                        patch: Patch, next: Lifecycle, reason: Option<string>, o: Observation, seen: set<Id>, now: Time)
    ensures !ValidContext(ctx) || (exists f :: f in input.texts && !ValidText(f, input.texts[f]))
            || !ValidCapabilities(input.capabilities) || !ValidIdentifiers(input.identifiers) ==>
      CreateManual(t, ctx, input, approvalRequired, id, now) == Err(InvalidInput)
    ensures !ValidContext(ctx)
            || (exists f :: f in patch.texts && patch.texts[f].Some? && !ValidText(f, patch.texts[f].value))
            || (patch.capabilities.Some? && !ValidCapabilities(patch.capabilities.value)) ==>
      UpdateMetadata(t, ctx, id, expected, patch, now) == Err(InvalidInput)
    ensures !ValidContext(ctx) ==> TransitionLifecycle(t, ctx, id, expected, next, reason, now) == Err(InvalidInput)
    ensures !ValidContext(ctx) || o.identifiers == [] || !ValidIdentifiers(o.identifiers)
            || (exists f :: f in o.texts && !ValidText(f, o.texts[f])) ==>
      && Reconcile(t, ctx, o, id, now) == Err(InvalidInput)
      && ReconcileSeen(t, ctx, o, seen, id, now) == Err(InvalidInput)
  {}

  /** A reconciliation looks its devices up by their strong identifiers, in its own scope, and by nothing else. */
  lemma ReconcileLooksUp(t: Tables, ctx: Context, o: Observation, newId: Id, now: Time, d: Id)
    requires ValidContext(ctx) && ValidObservation(o)
    ensures Reconcile(t, ctx, o, newId, now) ==
      ReconcileSeen(t, ctx, o, Matches(t, ctx.scope, o.identifiers), newId, now)
    ensures d in Matches(t, ctx.scope, o.identifiers) <==>
      exists i :: && 0 <= i < |o.identifiers| && Strong(o.identifiers[i].kind)
                  && (ctx.scope, KeyOf(o.identifiers[i])) in t.owners
                  && t.owners[(ctx.scope, KeyOf(o.identifiers[i]))] == d
  {
    forall i | 0 <= i < |o.identifiers| ensures o.identifiers[i] in o.identifiers {}
  }
}
