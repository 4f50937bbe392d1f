/** The four mutators as transactions: they work on a copy of the tables and assign it to commit. */
module InventoryStores {
  import opened Wrappers
  import opened Text
  import opened InventoryDomain
  import opened Inventory

  class InventoryStore {
    var devices: map<Id, Device>
    var identifiers: map<(Id, Key), IdentifierRow>
    var owners: map<(Scope, Key), Id>

    ghost function View(): Tables
      reads this
    {
      Tables(devices, identifiers, owners)
    }

    method Commit(tx: Tables)
      modifies this
      ensures View() == tx
    {
      devices := tx.devices;
      identifiers := tx.identifiers;
      owners := tx.owners;
    }

    method CreateManual(ctx: Context, input: NewDevice, approvalRequired: bool, id: Id, now: Time)
      returns (r: Result<DeviceRow, Error>)
      modifies this
      ensures var spec := Inventory.CreateManual(old(View()), ctx, input, approvalRequired, id, now);
              if spec.Ok? then r == Ok(spec.value.1) && View() == spec.value.0
              else r == Err(spec.error) && View() == old(View())
    {
      if !ValidContext(ctx) || !ValidDevice(input) {
        return Err(InvalidInput);
      }
      if id in devices {
        return Err(Database);
      }
      var d := NewManualDevice(ctx, input, approvalRequired, id, now);
      var tx := Tables(devices[id := d], identifiers, owners);
      var upserted := UpsertEach(tx, ctx.scope, id, input.identifiers, None);
      if upserted.Err? {
        return Err(upserted.error);
      }
      tx := upserted.value;
      var declared := PersistReported(d.declared, input.deviceType, input.texts, input.capabilities);
      d := d.(declared := declared, log := [LifecycleEvent(None, d.row.lifecycle, Some("manual_create"))]);
      d := Recorded(d, ManualCreate, None);
      Commit(tx.(devices := tx.devices[id := d]));
      r := Ok(d.row);
    }

    method UpdateMetadata(ctx: Context, id: Id, expected: int, patch: Patch, now: Time)
      returns (r: Result<DeviceRow, Error>)
      modifies this
      ensures var spec := Inventory.UpdateMetadata(old(View()), ctx, id, expected, patch, now);
              if spec.Ok? then r == Ok(spec.value.1) && View() == spec.value.0
              else r == Err(spec.error) && View() == old(View())
    {
      if !ValidContext(ctx) || !ValidPatch(patch) {
        return Err(InvalidInput);
      }
      if id !in devices || devices[id].row.scope != ctx.scope {
        return Err(DeviceNotFound);
      }
      var d := devices[id];
      var current := d.row;
      if current.version != expected {
        return Err(VersionConflict(expected, current.version));
      }
      if !AllowsNormalMutation(current.lifecycle) {
        return Err(LifecycleBlocksMutation(current.lifecycle));
      }
      d := d.(row := PatchedRow(current, patch, now));
      var declared := PersistPatch(d.declared, patch);
      d := Recorded(d.(declared := declared), MetadataUpdate, Some(current));
      Commit(Tables(devices[id := d], identifiers, owners));
      r := Ok(d.row);
    }

    method TransitionLifecycle(ctx: Context, id: Id, expected: int, next: Lifecycle, reason: Option<string>, now: Time)
      returns (r: Result<DeviceRow, Error>)
      modifies this
      ensures var spec := Inventory.TransitionLifecycle(old(View()), ctx, id, expected, next, reason, now);
              if spec.Ok? then r == Ok(spec.value.1) && View() == spec.value.0
              else r == Err(spec.error) && View() == old(View())
    {
      if !ValidContext(ctx) {
        return Err(InvalidInput);
      }
      if id !in devices || devices[id].row.scope != ctx.scope {
        return Err(DeviceNotFound);
      }
      var d := devices[id];
      var current := d.row;
      if current.version != expected {
        return Err(VersionConflict(expected, current.version));
      }
      if current.lifecycle == next {
        return Ok(current);
      }
      if !CanTransition(current.lifecycle, next) {
        return Err(InvalidLifecycleTransition(current.lifecycle, next));
      }
      var cleaned := Clean(reason);
      if (next == Retired || next == Archived) && cleaned.None? {
        return Err(LifecycleReasonRequired);
      }
      d := d.(row := MovedRow(current, next, cleaned, now),
              log := d.log + [LifecycleEvent(Some(current.lifecycle), next, cleaned)]);
      d := Recorded(d, LifecycleMove, Some(current));
      Commit(Tables(devices[id := d], identifiers, owners));
      r := Ok(d.row);
    }

    method ReconcileObservation(ctx: Context, o: Observation, newId: Id, now: Time)
      returns (r: Result<Reconciled, Error>)
      modifies this
      ensures var spec := Inventory.Reconcile(old(View()), ctx, o, newId, now);
              if spec.Ok? then r == Ok(spec.value.1) && View() == spec.value.0
              else r == Err(spec.error) && View() == old(View())
    {
      if !ValidContext(ctx) || !ValidObservation(o) {
        return Err(InvalidInput);
      }
      var matches := FindMatches(ctx.scope, o.identifiers);
      r := Settle(ctx, o, matches, newId, now);
    }

    /** What `ReconcileObservation` does once its lookups have found the devices `seen`. */
    method Settle(ctx: Context, o: Observation, seen: set<Id>, newId: Id, now: Time)
      returns (r: Result<Reconciled, Error>)
      requires ValidContext(ctx) && ValidObservation(o)
      modifies this
      ensures var spec := ReconcileSeen(old(View()), ctx, o, seen, newId, now);
              if spec.Ok? then r == Ok(spec.value.1) && View() == spec.value.0
              else r == Err(spec.error) && View() == old(View())
    {
      if |seen| > 1 {
        return Err(ReconciliationConflict(seen));
      }
      var observedAt := if o.observedAt.Some? then o.observedAt.value else now;
      if |seen| == 1 {
        var updated := Refresh(ctx, o, Sole(seen), observedAt, now);
        r := if updated.Ok? then Ok(Updated(updated.value)) else Err(updated.error);
      } else {
        var created := Discover(ctx, o, newId, observedAt, now);
        r := if created.Ok? then Ok(Created(created.value)) else Err(created.error);
      }
    }

    /** The lookups of `ReconcileObservation`, one for every strong identifier. */
    method FindMatches(scope: Scope, identifiers: seq<NewIdentifier>) returns (matches: set<Id>)
      requires ValidIdentifiers(identifiers)
      ensures matches == Matches(View(), scope, identifiers)
    {
      matches := {};
      for i := 0 to |identifiers|
        invariant matches == Matches(View(), scope, identifiers[..i])
      {
        var identifier := identifiers[i];
        if Strong(identifier.kind) && (scope, KeyOf(identifier)) in owners {
          matches := matches + {owners[(scope, KeyOf(identifier))]};
        }
        assert identifiers[..i + 1] == identifiers[..i] + [identifier];
      }
      assert identifiers[..|identifiers|] == identifiers;
    }

    /** The branch of `ReconcileObservation` for a known device. */
    method Refresh(ctx: Context, o: Observation, id: Id, observedAt: Time, now: Time)
      returns (r: Result<DeviceRow, Error>)
      requires ValidObservation(o)
      modifies this
      ensures var spec := ReconcileExisting(old(View()), ctx, o, id, observedAt, now);
              if spec.Ok? then r == Ok(spec.value.1) && View() == spec.value.0
              else r == Err(spec.error) && View() == old(View())
    {
      if id !in devices || devices[id].row.scope != ctx.scope {
        return Err(DeviceNotFound);
      }
      var d := devices[id];
      var current := d.row;
      if current.lifecycle == Retired || current.lifecycle == Archived {
        return Err(ReactivationRequiresReview(id));
      }
      var upserted := UpsertEach(Tables(devices, identifiers, owners), ctx.scope, id, o.identifiers, Some(observedAt));
      if upserted.Err? {
        return Err(upserted.error);
      }
      var tx := upserted.value;
      var observed := PersistReported(d.observed, o.deviceType, o.texts, o.capabilities);
      d := d.(row := ApplyObserved(current, d.declared, o, observedAt, now),
              observed := observed,
              seenAt := d.seenAt + [observedAt]);
      d := Recorded(d, Reconciliation, Some(current));
      Commit(tx.(devices := tx.devices[id := d]));
      r := Ok(d.row);
    }

    /** The branch of `ReconcileObservation` for an unknown device. */
    method Discover(ctx: Context, o: Observation, id: Id, observedAt: Time, now: Time)
      returns (r: Result<DeviceRow, Error>)
      requires ValidObservation(o)
      modifies this
      ensures var spec := ReconcileNew(old(View()), ctx, o, id, observedAt, now);
              if spec.Ok? then r == Ok(spec.value.1) && View() == spec.value.0
              else r == Err(spec.error) && View() == old(View())
    {
      if id in devices {
        return Err(Database);
      }
      var d := NewObservedDevice(ctx, o, id, observedAt, now);
      var tx := Tables(devices[id := d], identifiers, owners);
      var upserted := UpsertEach(tx, ctx.scope, id, o.identifiers, Some(observedAt));
      if upserted.Err? {
        return Err(upserted.error);
      }
      tx := upserted.value;
      var observed := PersistReported(d.observed, o.deviceType, o.texts, o.capabilities);
      d := d.(observed := observed, log := [LifecycleEvent(None, Discovered, Some("discovery"))]);
      d := Recorded(d, DiscoveryCreate, None);
      Commit(tx.(devices := tx.devices[id := d]));
      r := Ok(d.row);
    }
  }

  method UpsertEach(tables: Tables, scope: Scope, device: Id, identifiers: seq<NewIdentifier>, observedAt: Option<Time>)
    returns (r: Result<Tables, Error>)
    ensures r == UpsertAll(tables, scope, device, identifiers, observedAt)
  {
    r := Ok(tables);
    for i := 0 to |identifiers|
      invariant r == UpsertAll(tables, scope, device, identifiers[..i], observedAt)
    {
      assert identifiers[..i + 1][..i] == identifiers[..i];
      if r.Ok? {
        r := UpsertIdentifier(r.value, scope, device, identifiers[i], observedAt);
      }
    }
    assert identifiers[..|identifiers|] == identifiers;
  }

  /** Stores the text facts that are given, field by field, one upsert each. */
  method PersistTexts(facts: map<TextField, Option<string>>, given: map<TextField, Option<string>>)
    returns (stored: map<TextField, Option<string>>)
    ensures stored == facts + given
  {
    stored := facts;
    for i := 0 to FIELD_COUNT
      invariant forall f :: f in stored <==> f in facts || (f in given && IndexOf(f) < i)
      invariant forall f :: f in stored ==> stored[f] == if f in given && IndexOf(f) < i then given[f] else facts[f]
    {
      var f := FieldAt(i);
      if f in given {
        stored := stored[f := given[f]];
      }
    }
  }

  method PersistReported(facts: Facts, deviceType: DeviceType, texts: Texts, capabilities: seq<string>)
    returns (r: Facts)
    ensures r == Upserted(facts, ReportedFacts(deviceType, texts, capabilities))
  {
    var stored := PersistTexts(facts.texts, map f | f in texts :: Some(texts[f]));
    r := Facts(stored, Some(deviceType), if capabilities != [] then Some(capabilities) else facts.capabilities);
  }

  method PersistPatch(facts: Facts, patch: Patch) returns (r: Facts)
    ensures r == Upserted(facts, Facts(patch.texts, patch.deviceType, patch.capabilities))
  {
    var stored := PersistTexts(facts.texts, patch.texts);
    r := Facts(stored,
               if patch.deviceType.Some? then patch.deviceType else facts.deviceType,
               if patch.capabilities.Some? then patch.capabilities else facts.capabilities);
  }
}
