/**
 * The details panel of a tracking-setup asset
 * (FSteamVRTrackingSetupDetailsCustomization): it merges the connected
 * devices into the asset's serial-keyed DeviceSetup table, clears the
 * indices of devices that are off, hands out a bounded set of row widgets,
 * and serves the rows' rename, remove and select requests.
 *
 * DeviceSetup is keyed by the folded serial number. Each row keeps a copy of
 * the binding it shows (the engine keeps a reference into the table).
 */
module DetailsCustomization {
  import opened Opt
  import opened Names
  import opened TrackingSetup
  import opened DeviceRuntime
  import opened SerialBindingRow

  /** The number of row widgets built for future devices. */
  const ROW_COUNT: nat := 24

  // ---------------------------------------------------------------------
  // The table update, as functions of the table and the connected devices

  /** Connected controllers first, then connected generic trackers. */
  function ActiveIds(devices: seq<Device>): seq<int> {
    ValidIds(devices, Controller) + ValidIds(devices, Other)
  }

  /** The key under which a device's serial number is stored. */
  function SerialKey(devices: seq<Device>, id: int): Name {
    Fold(SerialNameOf(devices, id))
  }

  /** The binding added for a connected device whose serial is not yet in the table. */
  function NewBinding(devices: seq<Device>, id: int, controllerIds: seq<int>): Binding {
    Binding(if id in controllerIds then Controller else Other, id, SerialNameOf(devices, id), "")
  }

  /** One step of the merge: update the Id of the device's entry, or add one. */
  function MergeOne(setup: map<Name, Binding>, id: int, controllerIds: seq<int>, devices: seq<Device>): map<Name, Binding> {
    var key := SerialKey(devices, id);
    if key in setup then setup[key := setup[key].(Id := id)]
    else setup[key := NewBinding(devices, id, controllerIds)]
  }

  /** The merge of a list of connected devices, in list order. */
  function Merged(setup: map<Name, Binding>, ids: seq<int>, controllerIds: seq<int>, devices: seq<Device>): map<Name, Binding>
    decreases |ids|
  {
    if ids == [] then setup
    else MergeOne(Merged(setup, ids[..|ids| - 1], controllerIds, devices), ids[|ids| - 1], controllerIds, devices)
  }

  /** The position of the last id whose serial has key k, or -1. */
  function LastWithKey(ids: seq<int>, devices: seq<Device>, k: Name): (i: int)
    ensures -1 <= i < |ids|
    ensures i >= 0 ==> SerialKey(devices, ids[i]) == k
    ensures forall j :: i < j < |ids| ==> SerialKey(devices, ids[j]) != k
  {
    if ids == [] then -1
    else if SerialKey(devices, ids[|ids| - 1]) == k then |ids| - 1
    else LastWithKey(ids[..|ids| - 1], devices, k)
  }

  /** The position of the first id whose serial has key k, or -1. */
  function FirstWithKey(ids: seq<int>, devices: seq<Device>, k: Name): (i: int)
    ensures -1 <= i < |ids|
    ensures i >= 0 ==> SerialKey(devices, ids[i]) == k
    ensures forall j :: 0 <= j < |ids| && (i < 0 || j < i) ==> SerialKey(devices, ids[j]) != k
  {
    if ids == [] then -1
    else
      var p := ids[..|ids| - 1];
      var f := FirstWithKey(p, devices, k);
      assert forall j :: 0 <= j < |p| ==> p[j] == ids[j];
      if f >= 0 then f
      else if SerialKey(devices, ids[|ids| - 1]) == k then |ids| - 1
      else -1
  }

  /**
   * What the merge does to each key: a key is present afterwards iff it was
   * before or some listed device has that serial; an existing entry changes
   * only its Id, which becomes the last such device's index; a new entry has
   * the serial, an empty friendly name and the class of the first such
   * device, and the index of the last one.
   */
  lemma {:induction false} MergedEntry(setup: map<Name, Binding>, ids: seq<int>, controllerIds: seq<int>, devices: seq<Device>, k: Name)
    ensures var r := Merged(setup, ids, controllerIds, devices);
            var last := LastWithKey(ids, devices, k);
            && (k in r <==> k in setup || last >= 0)
            && (k in setup && last < 0 ==> r[k] == setup[k])
            && (k in setup && last >= 0 ==> r[k] == setup[k].(Id := ids[last]))
            && (k !in setup && last >= 0 ==>
                  r[k] == NewBinding(devices, ids[FirstWithKey(ids, devices, k)], controllerIds).(Id := ids[last]))
  {
    if ids != [] {
      var p := ids[..|ids| - 1];
      var id := ids[|ids| - 1];
      MergedEntry(setup, p, controllerIds, devices, k);
      var lastP := LastWithKey(p, devices, k);
      if SerialKey(devices, id) != k {
        assert LastWithKey(ids, devices, k) == lastP;
        if lastP >= 0 {
          assert ids[lastP] == p[lastP];
          assert FirstWithKey(ids, devices, k) == FirstWithKey(p, devices, k);
          assert ids[FirstWithKey(p, devices, k)] == p[FirstWithKey(p, devices, k)];
        }
      } else if lastP >= 0 {
        assert FirstWithKey(ids, devices, k) == FirstWithKey(p, devices, k);
        assert ids[FirstWithKey(p, devices, k)] == p[FirstWithKey(p, devices, k)];
      }
    }
  }

  /** The entry with its Id cleared when that device is not connected. */
  function ClearedEntry(b: Binding, activeIds: seq<int>): Binding {
    if b.Id in activeIds then b else b.(Id := INDEX_NONE)
  }

  /** The table with the Id of every device that is not connected cleared. */
  function ClearStale(setup: map<Name, Binding>, activeIds: seq<int>): (r: map<Name, Binding>)
    ensures r.Keys == setup.Keys
    ensures forall k :: k in r ==> r[k].Id == INDEX_NONE || r[k].Id in activeIds
    ensures forall k :: k in r ==> r[k] == setup[k].(Id := r[k].Id)
    ensures forall k :: k in r && setup[k].Id in activeIds ==> r[k] == setup[k]
    ensures forall k :: k in r && setup[k].Id !in activeIds ==> r[k].Id == INDEX_NONE
  {
    map k | k in setup :: ClearedEntry(setup[k], activeIds)
  }

  /** The table after "Update Devices List". */
  function UpdatedSetup(setup: map<Name, Binding>, devices: seq<Device>): map<Name, Binding> {
    var activeIds := ActiveIds(devices);
    ClearStale(Merged(setup, activeIds, ValidIds(devices, Controller), devices), activeIds)
  }

  /**
   * After the update every Id is INDEX_NONE or the index of a connected
   * device, and every connected device's serial is listed under the index
   * of a connected device with that serial.
   */
  lemma {:induction false} UpdatedSetupListsConnected(setup: map<Name, Binding>, devices: seq<Device>)
    ensures var r := UpdatedSetup(setup, devices);
            forall k :: k in r ==> r[k].Id == INDEX_NONE || r[k].Id in ActiveIds(devices)
    ensures var r := UpdatedSetup(setup, devices);
            forall id :: id in ActiveIds(devices) ==>
              SerialKey(devices, id) in r && r[SerialKey(devices, id)].Id in ActiveIds(devices)
              && SerialKey(devices, r[SerialKey(devices, id)].Id) == SerialKey(devices, id)
  {
    var activeIds := ActiveIds(devices);
    var controllerIds := ValidIds(devices, Controller);
    forall id | id in activeIds
      ensures var r := UpdatedSetup(setup, devices);
              SerialKey(devices, id) in r && r[SerialKey(devices, id)].Id in activeIds
              && SerialKey(devices, r[SerialKey(devices, id)].Id) == SerialKey(devices, id)
    {
      var k := SerialKey(devices, id);
      MergedEntry(setup, activeIds, controllerIds, devices, k);
      var last := LastWithKey(activeIds, devices, k);
      var j :| 0 <= j < |activeIds| && activeIds[j] == id;
      assert last >= j;
      var m := Merged(setup, activeIds, controllerIds, devices);
      assert m[k].Id == activeIds[last];
    }
  }

  /** The update keeps every entry under its own serial. */
  lemma UpdatedSetupKeyedBySerial(setup: map<Name, Binding>, devices: seq<Device>)
    requires KeyedBySerial(setup)
    ensures KeyedBySerial(UpdatedSetup(setup, devices))
  {
    var activeIds := ActiveIds(devices);
    var controllerIds := ValidIds(devices, Controller);
    var m := Merged(setup, activeIds, controllerIds, devices);
    forall k | k in m
      ensures Fold(m[k].SerialNumber) == k
    {
      MergedEntry(setup, activeIds, controllerIds, devices, k);
      if k !in setup {
        var f := FirstWithKey(activeIds, devices, k);
        assert f >= 0 by {
          var l := LastWithKey(activeIds, devices, k);
          assert SerialKey(devices, activeIds[l]) == k;
        }
      }
    }
  }

  /**
   * OnDeviceUpdateName on the table: the entry of the serial, if any, takes
   * the new friendly name when it differs (ignoring case) from the old one.
   */
  function Renamed(setup: map<Name, Binding>, serialNumber: Name, newName: Name): (r: map<Name, Binding>)
    ensures r.Keys == setup.Keys
    ensures forall k :: k in r && k != Fold(serialNumber) ==> r[k] == setup[k]
    ensures Fold(serialNumber) in r ==>
              var b := setup[Fold(serialNumber)];
              SameName(r[Fold(serialNumber)].FriendlyName, newName) && r[Fold(serialNumber)] == b.(FriendlyName := r[Fold(serialNumber)].FriendlyName)
    ensures r == setup <==> Fold(serialNumber) !in setup || SameName(setup[Fold(serialNumber)].FriendlyName, newName) || setup[Fold(serialNumber)].FriendlyName == newName
  {
    var key := Fold(serialNumber);
    if key in setup && !SameName(setup[key].FriendlyName, newName) then setup[key := setup[key].(FriendlyName := newName)]
    else setup
  }

  /** Removal is refused for a serial whose entry holds a device index. */
  predicate RemoveRefused(setup: map<Name, Binding>, serialNumber: Name) {
    Fold(serialNumber) in setup && setup[Fold(serialNumber)].Id != INDEX_NONE
  }

  /** What a row widget shows: its binding and whether it is visible. */
  datatype RowView = RowView(data: Option<Binding>, visible: bool)

  /**
   * The rows after listing: the rows from `first` on, one per shown key in
   * order, are visible and show that key's entry of `setup`; every other row
   * shows what it showed before.
   */
  ghost function ShownViews(views: seq<RowView>, first: nat, shownKeys: seq<Name>, setup: map<Name, Binding>): (r: seq<RowView>)
    requires first + |shownKeys| <= |views|
    requires forall t :: 0 <= t < |shownKeys| ==> shownKeys[t] in setup
    ensures |r| == |views|
    ensures forall t :: 0 <= t < |shownKeys| ==> r[first + t] == RowView(Some(setup[shownKeys[t]]), true)
    ensures forall j :: 0 <= j < |views| && !(first <= j < first + |shownKeys|) ==> r[j] == views[j]
  {
    seq(|views|, j requires 0 <= j < |views| =>
      if first <= j < first + |shownKeys| then RowView(Some(setup[shownKeys[j - first]]), true) else views[j])
  }

  /** Showing one more key in the next row extends the listing by that key. */
  lemma ShownViewsStep(views: seq<RowView>, first: nat, shownKeys: seq<Name>, setup: map<Name, Binding>, key: Name)
    requires first + |shownKeys| < |views| && key in setup
    requires forall t :: 0 <= t < |shownKeys| ==> shownKeys[t] in setup
    ensures ShownViews(views, first, shownKeys, setup)[first + |shownKeys| := RowView(Some(setup[key]), true)]
            == ShownViews(views, first, shownKeys + [key], setup)
  {
    var a := ShownViews(views, first, shownKeys, setup)[first + |shownKeys| := RowView(Some(setup[key]), true)];
    var b := ShownViews(views, first, shownKeys + [key], setup);
    forall j | 0 <= j < |views| ensures a[j] == b[j] {
      if first <= j < first + |shownKeys| {
        assert (shownKeys + [key])[j - first] == shownKeys[j - first];
      }
    }
  }

  /** The rows the panel builds for future devices: collapsed, each showing the empty binding. */
  function FreshRowViews(count: nat): (r: seq<RowView>)
    ensures |r| == count && forall j :: 0 <= j < count ==> r[j] == RowView(Some(DefaultBinding()), false)
  {
    seq(count, _ => RowView(Some(DefaultBinding()), false))
  }

  /** The table part of the second loop's state: the keys outside `remaining` have had their Id cleared if stale. */
  ghost predicate TableListed(setup0: map<Name, Binding>, activeIds: seq<int>, remaining: set<Name>, setup: map<Name, Binding>) {
    && remaining <= setup0.Keys
    && setup.Keys == setup0.Keys
    && (forall k :: k in setup0 && k !in remaining ==> setup[k] == ClearedEntry(setup0[k], activeIds))
    && (forall k :: k in remaining ==> setup[k] == setup0[k])
  }

  lemma TableStep(setup0: map<Name, Binding>, activeIds: seq<int>, remaining: set<Name>, setup: map<Name, Binding>, key: Name)
    requires TableListed(setup0, activeIds, remaining, setup) && key in remaining
    ensures TableListed(setup0, activeIds, remaining - {key}, setup[key := ClearedEntry(setup[key], activeIds)])
  {
  }

  lemma TableDone(setup0: map<Name, Binding>, activeIds: seq<int>, setup: map<Name, Binding>)
    requires TableListed(setup0, activeIds, {}, setup)
    ensures setup == ClearStale(setup0, activeIds)
  {
  }

  /**
   * The slot bookkeeping after the keys of `setup` are listed, starting from
   * the recorded keys `serials0` and `active0` rows in use: every key is
   * recorded; `shownKeys` are the keys that took a row, each once and none
   * recorded before; and while a row is still free no new key went without one.
   */
  ghost predicate SlotsAssigned(serials0: set<Name>, active0: int, setup: map<Name, Binding>, rowCount: int,
                                serials: set<Name>, active: int, shownKeys: seq<Name>) {
    && serials == serials0 + setup.Keys
    && active == active0 + |shownKeys| <= rowCount
    && (forall t :: 0 <= t < |shownKeys| ==> shownKeys[t] in setup && shownKeys[t] !in serials0)
    && (forall t, u :: 0 <= t < u < |shownKeys| ==> shownKeys[t] != shownKeys[u])
    && (active < rowCount ==> forall k :: k in setup && k !in serials0 ==> k in shownKeys)
  }

  /** The slot part of the second loop's state: the keys of `keys0` outside `remaining` have been recorded and, while rows were free, shown. */
  ghost predicate SlotsSoFar(serials0: set<Name>, active0: int, keys0: set<Name>, remaining: set<Name>, rowCount: int,
                             serials: set<Name>, active: int, shownKeys: seq<Name>) {
    && remaining <= keys0
    && serials == serials0 + (keys0 - remaining)
    && active == active0 + |shownKeys| <= rowCount
    && (forall t :: 0 <= t < |shownKeys| ==>
          shownKeys[t] in keys0 && shownKeys[t] !in serials0 && shownKeys[t] !in remaining)
    && (forall t, u :: 0 <= t < u < |shownKeys| ==> shownKeys[t] != shownKeys[u])
    && (active < rowCount ==> forall k :: k in keys0 && k !in remaining && k !in serials0 ==> k in shownKeys)
  }

  lemma SlotsStep(serials0: set<Name>, active0: int, keys0: set<Name>, remaining: set<Name>, rowCount: int,
                  serials: set<Name>, active: int, shownKeys: seq<Name>, key: Name)
    requires SlotsSoFar(serials0, active0, keys0, remaining, rowCount, serials, active, shownKeys) && key in remaining
    ensures var shown := key !in serials && active < rowCount;
            SlotsSoFar(serials0, active0, keys0, remaining - {key}, rowCount, serials + {key},
                       active + (if shown then 1 else 0), if shown then shownKeys + [key] else shownKeys)
  {
  }

  lemma SlotsDone(serials0: set<Name>, active0: int, setup: map<Name, Binding>, rowCount: int,
                  serials: set<Name>, active: int, shownKeys: seq<Name>)
    requires SlotsSoFar(serials0, active0, setup.Keys, {}, rowCount, serials, active, shownKeys)
    ensures SlotsAssigned(serials0, active0, setup, rowCount, serials, active, shownKeys)
  {
  }

  lemma {:induction false} DistinctElements(s: seq<Name>)
    requires forall t, u :: 0 <= t < u < |s| ==> s[t] != s[u]
    ensures |set x | x in s| == |s|
  {
    if s != [] {
      var p := s[..|s| - 1];
      DistinctElements(p);
      assert (set x | x in s) == (set x | x in p) + {s[|s| - 1]};
    }
  }

  /**
   * The slot count: the rows in use grow by the number of keys not recorded
   * before, but never past the number of rows.
   */
  lemma SlotCount(serials0: set<Name>, active0: int, setup: map<Name, Binding>, rowCount: int,
                  serials: set<Name>, active: int, shownKeys: seq<Name>)
    requires SlotsAssigned(serials0, active0, setup, rowCount, serials, active, shownKeys) && 0 <= active0
    ensures active == Min(rowCount, active0 + |setup.Keys - serials0|)
  {
    var shownSet := set x | x in shownKeys;
    var newKeys := setup.Keys - serials0;
    DistinctElements(shownKeys);
    assert shownSet <= newKeys;
    SubsetSize(shownSet, newKeys);
    if active < rowCount {
      assert newKeys <= shownSet;
      assert shownSet == newKeys;
    }
  }

  lemma {:induction false} SubsetSize(a: set<Name>, b: set<Name>)
    requires a <= b
    ensures |a| <= |b|
  {
    assert b == a + (b - a);
  }

  /** No row widget appears twice. */
  ghost predicate Distinct(rows: seq<DeviceSerialBindingRow>) {
    forall i, j :: 0 <= i < j < |rows| ==> rows[i] != rows[j]
  }

  /** The serial of a row, as the panel reads it. */
  ghost function RowSerials(rows: seq<DeviceSerialBindingRow>): (r: seq<Name>)
    reads rows
    ensures |r| == |rows| && forall i :: 0 <= i < |rows| ==> r[i] == rows[i].GetSerialNumber()
  {
    seq(|rows|, i reads rows requires 0 <= i < |rows| => rows[i].GetSerialNumber())
  }

  /** The first position whose serial is the same name as s, or |serials|. */
  function FirstSameName(serials: seq<Name>, s: Name): (i: nat)
    ensures i <= |serials|
    ensures forall j :: 0 <= j < i ==> !SameName(serials[j], s)
    ensures i < |serials| ==> SameName(serials[i], s)
  {
    if serials == [] then 0
    else if SameName(serials[0], s) then 0
    else 1 + FirstSameName(serials[1..], s)
  }

  // ---------------------------------------------------------------------
  // The panel

  /** Two equally long sequences that agree everywhere outside [lo, hi). */
  ghost predicate AgreeOutside<T>(s0: seq<T>, s1: seq<T>, lo: int, hi: int) {
    |s0| == |s1| && forall j :: 0 <= j < |s0| && !(lo <= j < hi) ==> s1[j] == s0[j]
  }

  /** Agreement outside two adjacent ranges is agreement outside their union. */
  lemma AgreeOutsideJoin<T>(s0: seq<T>, s1: seq<T>, s2: seq<T>, a0: int, a1: int, a2: int)
    requires a0 <= a1 <= a2 && AgreeOutside(s0, s1, a0, a1) && AgreeOutside(s1, s2, a1, a2)
    ensures AgreeOutside(s0, s2, a0, a2)
  {
  }

  class SetupDetailsCustomization {
    var customizedItem: TrackingSetupAsset?
    var rowWidgets: seq<DeviceSerialBindingRow>
    /** How many rows, from the first, show a device. */
    var activeWidgets: int
    /** The keys that have been given a row, or would have been had one been free. */
    var activeWidgetSerials: set<Name>

    ghost predicate Valid()
      reads this
    {
      0 <= activeWidgets <= |rowWidgets| && Distinct(rowWidgets)
    }

    constructor ()
      ensures customizedItem == null && rowWidgets == [] && activeWidgets == 0 && activeWidgetSerials == {}
      ensures Valid()
    {
      customizedItem := null;
      rowWidgets := [];
      activeWidgets := 0;
      activeWidgetSerials := {};
    }

    /**
     * Builds the panel for exactly one asset: drops the entry under the None
     * key, appends ROW_COUNT collapsed rows showing the empty binding, resets
     * the slot bookkeeping and runs the update. Any other selection count
     * leaves the panel as it is; a null asset is recorded and nothing else is
     * done.
     */
    method CustomizeDetails(objects: seq<TrackingSetupAsset?>, devices: seq<Device>) returns (ghost shownKeys: seq<Name>)
      requires Valid()
      modifies this, objects, rowWidgets
      ensures Valid()
      ensures |objects| != 1 ==> customizedItem == old(customizedItem) && rowWidgets == old(rowWidgets)
                                 && activeWidgets == old(activeWidgets) && activeWidgetSerials == old(activeWidgetSerials)
      ensures |objects| == 1 ==> customizedItem == objects[0]
      ensures |objects| == 1 && objects[0] == null ==>
                rowWidgets == old(rowWidgets) && activeWidgets == old(activeWidgets) && activeWidgetSerials == old(activeWidgetSerials)
      ensures |objects| == 1 && objects[0] != null ==>
                && |rowWidgets| == |old(rowWidgets)| + ROW_COUNT
                && rowWidgets[..|old(rowWidgets)|] == old(rowWidgets)
                && customizedItem.deviceSetup == UpdatedSetup(old(objects[0].deviceSetup) - {""}, devices)
                && SlotsAssigned({}, 0, customizedItem.deviceSetup, |rowWidgets|, activeWidgetSerials, activeWidgets, shownKeys)
                && (forall j :: |old(rowWidgets)| <= j < |rowWidgets| ==> fresh(rowWidgets[j]))
                && Views() == ShownViews(old(Views()) + FreshRowViews(ROW_COUNT), 0, shownKeys, customizedItem.deviceSetup)
                && Selections() == old(Selections()) + seq(ROW_COUNT, _ => false)
      ensures |objects| != 1 || objects[0] == null ==>
                Views() == old(Views()) && Selections() == old(Selections()) && Statuses() == old(Statuses())
                && forall o :: o in objects && o != null ==> o.deviceSetup == old(o.deviceSetup)
    {
      shownKeys := [];
      if |objects| != 1 {
        return;
      }
      customizedItem := objects[0];
      if customizedItem == null {
        return;
      }
      shownKeys := BuildRows(devices);
    }

    /** The one-asset path of CustomizeDetails, once the asset is recorded. */
    method BuildRows(devices: seq<Device>) returns (ghost shownKeys: seq<Name>)
      requires Valid() && customizedItem != null
      modifies this`rowWidgets, this`activeWidgets, this`activeWidgetSerials, customizedItem, rowWidgets
      ensures Valid()
      ensures |rowWidgets| == |old(rowWidgets)| + ROW_COUNT && rowWidgets[..|old(rowWidgets)|] == old(rowWidgets)
      ensures customizedItem.deviceSetup == UpdatedSetup(old(customizedItem.deviceSetup) - {""}, devices)
      ensures SlotsAssigned({}, 0, customizedItem.deviceSetup, |rowWidgets|, activeWidgetSerials, activeWidgets, shownKeys)
      ensures forall j :: |old(rowWidgets)| <= j < |rowWidgets| ==> fresh(rowWidgets[j])
      ensures Views() == ShownViews(old(Views()) + FreshRowViews(ROW_COUNT), 0, shownKeys, customizedItem.deviceSetup)
      ensures Selections() == old(Selections()) + seq(ROW_COUNT, _ => false)
    {
      customizedItem.deviceSetup := customizedItem.deviceSetup - {""};
      AppendFreshRows();
      activeWidgets := 0;
      activeWidgetSerials := {};
      ghost var views, selections := Views(), Selections();
      assert views == old(Views()) + FreshRowViews(ROW_COUNT) && selections == old(Selections()) + seq(ROW_COUNT, _ => false);
      shownKeys := UpdateWidgetsList(devices);
    }

    /** Appends ROW_COUNT new collapsed, unselected rows for the customized asset, each showing the empty binding. */
    method AppendFreshRows()
      requires Valid() && customizedItem != null
      modifies this`rowWidgets
      ensures Valid()
      ensures |rowWidgets| == |old(rowWidgets)| + ROW_COUNT && rowWidgets[..|old(rowWidgets)|] == old(rowWidgets)
      ensures forall j :: |old(rowWidgets)| <= j < |rowWidgets| ==> fresh(rowWidgets[j])
      ensures Views() == old(Views()) + FreshRowViews(ROW_COUNT)
      ensures Selections() == old(Selections()) + seq(ROW_COUNT, _ => false)
    {
      var index := 0;
      while index < ROW_COUNT
        invariant 0 <= index <= ROW_COUNT
        invariant |rowWidgets| == |old(rowWidgets)| + index
        invariant rowWidgets[..|old(rowWidgets)|] == old(rowWidgets)
        invariant forall i, j :: 0 <= i < j < |rowWidgets| ==> rowWidgets[i] != rowWidgets[j]
        invariant forall j :: |old(rowWidgets)| <= j < |rowWidgets| ==> fresh(rowWidgets[j])
        invariant Views() == old(Views()) + FreshRowViews(index)
        invariant Selections() == old(Selections()) + seq(index, _ => false)
      {
        var row := new DeviceSerialBindingRow(customizedItem, Some(DefaultBinding()), true, false);
        rowWidgets := rowWidgets + [row];
        index := index + 1;
      }
    }

    /**
     * "Update Devices List": merges the connected devices into the table,
     * clears the Id of every entry whose device is off, and gives each key
     * not yet recorded the next free row, while rows last.
     */
    method UpdateWidgetsList(devices: seq<Device>) returns (ghost shownKeys: seq<Name>)
      requires Valid() && customizedItem != null
      modifies this`activeWidgets, this`activeWidgetSerials, customizedItem, rowWidgets
      ensures Valid()
      ensures customizedItem.deviceSetup == UpdatedSetup(old(customizedItem.deviceSetup), devices)
      ensures SlotsAssigned(old(activeWidgetSerials), old(activeWidgets), customizedItem.deviceSetup, |rowWidgets|,
                            activeWidgetSerials, activeWidgets, shownKeys)
      ensures rowWidgets == old(rowWidgets)
      ensures Views() == ShownViews(old(Views()), old(activeWidgets), shownKeys, customizedItem.deviceSetup)
      ensures Selections() == old(Selections())
      ensures AgreeOutside(old(Statuses()), Statuses(), old(activeWidgets), activeWidgets)
    {
      var controllerIds := ValidIds(devices, Controller);
      var activeIds := controllerIds + ValidIds(devices, Other);
      MergeActiveDevices(controllerIds, activeIds, devices);
      assert activeWidgets == old(activeWidgets) && activeWidgetSerials == old(activeWidgetSerials);
      assert Views() == old(Views()) && Selections() == old(Selections()) && Statuses() == old(Statuses());
      shownKeys := ListDevices(activeIds);
    }

    /** The first loop of the update: the merge of the connected devices. */
    method MergeActiveDevices(controllerIds: seq<int>, activeIds: seq<int>, devices: seq<Device>)
      requires customizedItem != null
      modifies customizedItem
      ensures customizedItem.deviceSetup == Merged(old(customizedItem.deviceSetup), activeIds, controllerIds, devices)
    {
      var i := 0;
      while i < |activeIds|
        invariant 0 <= i <= |activeIds|
        invariant customizedItem.deviceSetup == Merged(old(customizedItem.deviceSetup), activeIds[..i], controllerIds, devices)
      {
        var id := activeIds[i];
        var serial := SerialNameOf(devices, id);
        var key := Fold(serial);
        if key in customizedItem.deviceSetup {
          customizedItem.deviceSetup := customizedItem.deviceSetup[key := customizedItem.deviceSetup[key].(Id := id)];
        } else {
          var newItem := Binding(if id in controllerIds then Controller else Other, id, serial, "");
          customizedItem.deviceSetup := customizedItem.deviceSetup[key := newItem];
        }
        assert activeIds[..i + 1][..i] == activeIds[..i];
        i := i + 1;
      }
      assert activeIds[..|activeIds|] == activeIds;
    }

    /** What each row shows, in row order. */
    ghost function Views(): (r: seq<RowView>)
      reads this, rowWidgets
      ensures |r| == |rowWidgets|
      ensures forall j :: 0 <= j < |rowWidgets| ==> r[j] == RowView(rowWidgets[j].deviceData, rowWidgets[j].visible)
    {
      seq(|rowWidgets|, j reads this, rowWidgets requires 0 <= j < |rowWidgets| =>
        RowView(rowWidgets[j].deviceData, rowWidgets[j].visible))
    }

    /** Which rows are selected, in row order. */
    ghost function Selections(): (r: seq<bool>)
      reads this, rowWidgets
      ensures |r| == |rowWidgets|
      ensures forall j :: 0 <= j < |rowWidgets| ==> r[j] == rowWidgets[j].isSelected
    {
      seq(|rowWidgets|, j reads this, rowWidgets requires 0 <= j < |rowWidgets| => rowWidgets[j].isSelected)
    }

    /** The rows' statuses, in row order. */
    ghost function Statuses(): (r: seq<RowStatus>)
      reads this, rowWidgets
      ensures |r| == |rowWidgets|
      ensures forall j :: 0 <= j < |rowWidgets| ==> r[j] == rowWidgets[j].Status()
    {
      seq(|rowWidgets|, j reads this, rowWidgets requires 0 <= j < |rowWidgets| => rowWidgets[j].Status())
    }

    /**
     * The second loop of the update, over the table in its own order: clear
     * the Id of a device that is off, and give an unrecorded key the next
     * free row.
     */
    method ListDevices(activeIds: seq<int>) returns (ghost shownKeys: seq<Name>)
      requires Valid() && customizedItem != null
      modifies this`activeWidgets, this`activeWidgetSerials, customizedItem, rowWidgets
      ensures Valid()
      ensures customizedItem.deviceSetup == ClearStale(old(customizedItem.deviceSetup), activeIds)
      ensures SlotsAssigned(old(activeWidgetSerials), old(activeWidgets), customizedItem.deviceSetup, |rowWidgets|,
                            activeWidgetSerials, activeWidgets, shownKeys)
      ensures rowWidgets == old(rowWidgets)
      ensures Views() == ShownViews(old(Views()), old(activeWidgets), shownKeys, customizedItem.deviceSetup)
      ensures Selections() == old(Selections())
      ensures AgreeOutside(old(Statuses()), Statuses(), old(activeWidgets), activeWidgets)
    {
      ghost var setup0 := customizedItem.deviceSetup;
      ghost var serials0 := activeWidgetSerials;
      ghost var active0 := activeWidgets;
      ghost var views0 := Views();
      ghost var final := ClearStale(setup0, activeIds);
      var remaining := customizedItem.deviceSetup.Keys;
      shownKeys := [];
      while remaining != {}
        invariant Valid() && rowWidgets == old(rowWidgets)
        invariant TableListed(setup0, activeIds, remaining, customizedItem.deviceSetup)
        invariant SlotsSoFar(serials0, active0, setup0.Keys, remaining, |rowWidgets|,
                             activeWidgetSerials, activeWidgets, shownKeys)
        invariant Views() == ShownViews(views0, active0, shownKeys, final)
        invariant Selections() == old(Selections()) && AgreeOutside(old(Statuses()), Statuses(), active0, activeWidgets)
        decreases remaining
      {
        var key :| key in remaining;
        shownKeys := ListStep(setup0, serials0, active0, views0, old(Selections()), old(Statuses()),
                              activeIds, remaining, shownKeys, key);
        remaining := remaining - {key};
      }
      SlotsDone(serials0, active0, customizedItem.deviceSetup, |rowWidgets|, activeWidgetSerials, activeWidgets, shownKeys);
      TableDone(setup0, activeIds, customizedItem.deviceSetup);
    }

    /** One turn of the second loop, with what it keeps of the loop's state. */
    method ListStep(ghost setup0: map<Name, Binding>, ghost serials0: set<Name>, ghost active0: nat, ghost views0: seq<RowView>,
                    ghost selections0: seq<bool>, ghost statuses0: seq<RowStatus>,
                    activeIds: seq<int>, ghost remaining: set<Name>, ghost shownKeys: seq<Name>, key: Name)
      returns (ghost shownKeys': seq<Name>)
      requires Valid() && customizedItem != null && key in remaining && |views0| == |rowWidgets|
      requires TableListed(setup0, activeIds, remaining, customizedItem.deviceSetup)
      requires SlotsSoFar(serials0, active0, setup0.Keys, remaining, |rowWidgets|, activeWidgetSerials, activeWidgets, shownKeys)
      requires Views() == ShownViews(views0, active0, shownKeys, ClearStale(setup0, activeIds))
      requires Selections() == selections0 && AgreeOutside(statuses0, Statuses(), active0, activeWidgets)
      modifies this`activeWidgets, this`activeWidgetSerials, customizedItem, rowWidgets
      ensures Valid()
      ensures TableListed(setup0, activeIds, remaining - {key}, customizedItem.deviceSetup)
      ensures SlotsSoFar(serials0, active0, setup0.Keys, remaining - {key}, |rowWidgets|, activeWidgetSerials, activeWidgets, shownKeys')
      ensures Views() == ShownViews(views0, active0, shownKeys', ClearStale(setup0, activeIds))
      ensures Selections() == selections0 && AgreeOutside(statuses0, Statuses(), active0, activeWidgets)
    {
      ghost var final := ClearStale(setup0, activeIds);
      TableStep(setup0, activeIds, remaining, customizedItem.deviceSetup, key);
      SlotsStep(serials0, active0, setup0.Keys, remaining, |rowWidgets|, activeWidgetSerials, activeWidgets, shownKeys, key);
      ghost var statuses1, active1 := Statuses(), activeWidgets;
      var shown := ListOne(key, activeIds);
      AgreeOutsideJoin(statuses0, statuses1, Statuses(), active0, active1, activeWidgets);
      assert customizedItem.deviceSetup[key] == final[key];
      shownKeys' := shownKeys;
      if shown {
        ShownViewsStep(views0, active0, shownKeys, final, key);
        shownKeys' := shownKeys + [key];
      }
    }

    /** One turn of the second loop: the entry under `key` is listed. */
    method ListOne(key: Name, activeIds: seq<int>) returns (shown: bool)
      requires Valid() && customizedItem != null && key in customizedItem.deviceSetup
      modifies this`activeWidgets, this`activeWidgetSerials, customizedItem, rowWidgets
      ensures Valid()
      ensures customizedItem.deviceSetup
              == old(customizedItem.deviceSetup)[key := ClearedEntry(old(customizedItem.deviceSetup)[key], activeIds)]
      ensures activeWidgetSerials == old(activeWidgetSerials) + {key}
      ensures shown == (key !in old(activeWidgetSerials) && old(activeWidgets) < |rowWidgets|)
      ensures activeWidgets == old(activeWidgets) + (if shown then 1 else 0)
      ensures Views() == if shown then old(Views())[old(activeWidgets) := RowView(Some(customizedItem.deviceSetup[key]), true)]
                         else old(Views())
      ensures Selections() == old(Selections())
      ensures AgreeOutside(old(Statuses()), Statuses(), old(activeWidgets), activeWidgets)
    {
      var entry := customizedItem.deviceSetup[key];
      if entry.Id !in activeIds {
        entry := entry.(Id := INDEX_NONE);
        customizedItem.deviceSetup := customizedItem.deviceSetup[key := entry];
      }
      assert Views() == old(Views()) && Selections() == old(Selections()) && Statuses() == old(Statuses());
      shown := RecordKey(key, entry);
    }

    /** The slot half of one turn: an unrecorded key is recorded and its entry shown in the next row, if one is free. */
    method RecordKey(key: Name, entry: Binding) returns (shown: bool)
      requires Valid()
      modifies this`activeWidgets, this`activeWidgetSerials, rowWidgets
      ensures Valid()
      ensures activeWidgetSerials == old(activeWidgetSerials) + {key}
      ensures shown == (key !in old(activeWidgetSerials) && old(activeWidgets) < |rowWidgets|)
      ensures activeWidgets == old(activeWidgets) + (if shown then 1 else 0)
      ensures Views() == if shown then old(Views())[old(activeWidgets) := RowView(Some(entry), true)] else old(Views())
      ensures Selections() == old(Selections())
      ensures AgreeOutside(old(Statuses()), Statuses(), old(activeWidgets), activeWidgets)
    {
      shown := false;
      if key !in activeWidgetSerials {
        if activeWidgets < |rowWidgets| {
          ShowInNextRow(entry);
          shown := true;
        }
        activeWidgetSerials := activeWidgetSerials + {key};
      }
    }

    /** Points the first free row at an entry and shows it. */
    method ShowInNextRow(entry: Binding)
      requires Valid() && activeWidgets < |rowWidgets|
      modifies this`activeWidgets, rowWidgets
      ensures Valid() && activeWidgets == old(activeWidgets) + 1
      ensures Views() == old(Views())[old(activeWidgets) := RowView(Some(entry), true)]
      ensures Selections() == old(Selections())
      ensures AgreeOutside(old(Statuses()), Statuses(), old(activeWidgets), activeWidgets)
    {
      var row := rowWidgets[activeWidgets];
      row.ReconstructObject(entry);
      row.SetVisibility(true);
      activeWidgets := activeWidgets + 1;
    }

    /** A row's rename request: the entry's friendly name changes, nothing else. */
    method OnDeviceUpdateName(serialNumber: Name, newName: Name)
      requires customizedItem != null
      modifies customizedItem
      ensures customizedItem.deviceSetup == Renamed(old(customizedItem.deviceSetup), serialNumber, newName)
    {
      var key := Fold(serialNumber);
      if key in customizedItem.deviceSetup {
        var deviceBinding := customizedItem.deviceSetup[key];
        if !SameName(deviceBinding.FriendlyName, newName) {
          customizedItem.deviceSetup := customizedItem.deviceSetup[key := deviceBinding.(FriendlyName := newName)];
        }
      }
    }

    /** A row's select request: every row whose serial differs is unselected; the others keep their state. */
    method OnDeviceSelected(serialNumber: Name)
      requires Valid()
      modifies rowWidgets
      ensures forall j :: 0 <= j < |rowWidgets| ==>
                rowWidgets[j].isSelected == (old(rowWidgets[j].isSelected) && SameName(rowWidgets[j].GetSerialNumber(), serialNumber))
      ensures forall j :: 0 <= j < |rowWidgets| ==>
                rowWidgets[j].deviceData == old(rowWidgets[j].deviceData) && rowWidgets[j].visible == old(rowWidgets[j].visible)
      ensures forall j :: 0 <= j < |rowWidgets| ==> rowWidgets[j].Status() == old(rowWidgets[j].Status())
    {
      var i := 0;
      while i < |rowWidgets|
        invariant 0 <= i <= |rowWidgets|
        invariant forall j :: 0 <= j < |rowWidgets| ==>
                    rowWidgets[j].deviceData == old(rowWidgets[j].deviceData) && rowWidgets[j].visible == old(rowWidgets[j].visible)
        invariant forall j :: 0 <= j < |rowWidgets| ==> rowWidgets[j].Status() == old(rowWidgets[j].Status())
        invariant forall j :: 0 <= j < i ==>
                    rowWidgets[j].isSelected == (old(rowWidgets[j].isSelected) && SameName(rowWidgets[j].GetSerialNumber(), serialNumber))
        invariant forall j :: i <= j < |rowWidgets| ==> rowWidgets[j].isSelected == old(rowWidgets[j].isSelected)
      {
        var widget := rowWidgets[i];
        if !SameName(widget.GetSerialNumber(), serialNumber) {
          widget.MarkUnselected();
        }
        i := i + 1;
      }
    }

    /**
     * A row's remove request: refused, with no change, while the serial's
     * entry holds a device index; otherwise the entry (if any) is removed and
     * the first row showing that serial is collapsed.
     */
    method OnDeviceRemove(serialNumber: Name) returns (refused: bool)
      requires Valid() && customizedItem != null
      modifies customizedItem, rowWidgets
      ensures refused == RemoveRefused(old(customizedItem.deviceSetup), serialNumber)
      ensures refused ==> customizedItem.deviceSetup == old(customizedItem.deviceSetup)
      ensures !refused ==> customizedItem.deviceSetup == old(customizedItem.deviceSetup) - {Fold(serialNumber)}
      ensures forall j :: 0 <= j < |rowWidgets| ==> rowWidgets[j].deviceData == old(rowWidgets[j].deviceData)
      ensures forall j :: 0 <= j < |rowWidgets| ==>
                rowWidgets[j].visible == (if !refused && j == FirstSameName(RowSerials(rowWidgets), serialNumber) then false
                                          else old(rowWidgets[j].visible))
      ensures forall j :: 0 <= j < |rowWidgets| ==>
                rowWidgets[j].Status() == old(rowWidgets[j].Status()) && rowWidgets[j].isSelected == old(rowWidgets[j].isSelected)
    {
      var key := Fold(serialNumber);
      if key in customizedItem.deviceSetup {
        if customizedItem.deviceSetup[key].Id != INDEX_NONE {
          return true;
        }
      }
      refused := false;
      customizedItem.deviceSetup := customizedItem.deviceSetup - {key};
      CollapseFirstRow(serialNumber);
    }

    /** The row loop of a removal: the first row showing the serial is collapsed, and nothing else changes. */
    method CollapseFirstRow(serialNumber: Name)
      requires Valid()
      modifies rowWidgets
      ensures forall j :: 0 <= j < |rowWidgets| ==> rowWidgets[j].deviceData == old(rowWidgets[j].deviceData)
      ensures forall j :: 0 <= j < |rowWidgets| ==>
                rowWidgets[j].visible == (if j == FirstSameName(RowSerials(rowWidgets), serialNumber) then false
                                          else old(rowWidgets[j].visible))
      ensures forall j :: 0 <= j < |rowWidgets| ==>
                rowWidgets[j].Status() == old(rowWidgets[j].Status()) && rowWidgets[j].isSelected == old(rowWidgets[j].isSelected)
    {
      ghost var first := FirstSameName(RowSerials(rowWidgets), serialNumber);
      var i := 0;
      while i < |rowWidgets|
        invariant 0 <= i <= first
        invariant forall j :: 0 <= j < |rowWidgets| ==>
                    rowWidgets[j].deviceData == old(rowWidgets[j].deviceData) && rowWidgets[j].visible == old(rowWidgets[j].visible)
        invariant forall j :: 0 <= j < |rowWidgets| ==>
                    rowWidgets[j].Status() == old(rowWidgets[j].Status()) && rowWidgets[j].isSelected == old(rowWidgets[j].isSelected)
      {
        var widget := rowWidgets[i];
        if SameName(widget.GetSerialNumber(), serialNumber) {
          assert i == first;
          widget.SetVisibility(false);
          assert forall j :: 0 <= j < |rowWidgets| && j != i ==> rowWidgets[j] != widget;
          break;
        }
        i := i + 1;
      }
    }

    /** The "Update Devices List" button. */
    method OnUpdateButtonClick(devices: seq<Device>) returns (ghost shownKeys: seq<Name>)
      requires Valid() && customizedItem != null
      modifies this`activeWidgets, this`activeWidgetSerials, customizedItem, rowWidgets
      ensures Valid()
      ensures customizedItem.deviceSetup == UpdatedSetup(old(customizedItem.deviceSetup), devices)
      ensures SlotsAssigned(old(activeWidgetSerials), old(activeWidgets), customizedItem.deviceSetup, |rowWidgets|,
                            activeWidgetSerials, activeWidgets, shownKeys)
      ensures rowWidgets == old(rowWidgets)
      ensures Views() == ShownViews(old(Views()), old(activeWidgets), shownKeys, customizedItem.deviceSetup)
      ensures Selections() == old(Selections())
      ensures AgreeOutside(old(Statuses()), Statuses(), old(activeWidgets), activeWidgets)
    {
      shownKeys := UpdateWidgetsList(devices);
    }
  }
}
