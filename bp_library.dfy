/**
 * The blueprint library (USteamVRTrackingLibBPLibrary): resolving a motion
 * source or friendly name to a device index, and importing and exporting a
 * tracking setup as JSON.
 */
module BPLibrary {
  import opened Opt
  import opened Names
  import opened TrackingSetup
  import opened DeviceRuntime
  import opened TrackingLib
  import opened JsonHelpers

  // ---------------------------------------------------------------------
  // Motion sources

  /** "Right", "Left" and any name starting "Special_" (all without case) are motion sources. */
  predicate IsMotionSource(name: Name) {
    SameName(name, "Right") || SameName(name, "Left") || SameName(Left(name, 8), "Special_")
  }

  /** Classification does not depend on the case the name is written in. */
  lemma {:induction false} IsMotionSourceIgnoresCase(a: Name, b: Name)
    requires SameName(a, b)
    ensures IsMotionSource(a) == IsMotionSource(b)
  {
    assert |a| == |b| by { assert |Fold(a)| == |Fold(b)|; }
    if |a| > 8 {
      SameNamePrefix(a, b, 8);
    }
  }

  /** A name is a motion source iff it is Right, Left, or at least eight characters starting "Special_". */
  lemma {:induction false} IsMotionSourceCases(name: Name)
    ensures IsMotionSource(name) <==>
              SameName(name, "Right") || SameName(name, "Left")
              || (|name| >= 8 && SameName(name[..8], "Special_"))
  {
    if |name| < 8 {
      assert |Fold(Left(name, 8))| < 8;
      assert |Fold("Special_")| == 8;
    }
  }

  /** The position of the first motion controller reporting a pose, or |poses|. */
  function FirstPose(poses: seq<Option<Vec3>>): (k: nat)
    ensures k <= |poses|
    ensures forall j :: 0 <= j < k ==> poses[j].None?
    ensures k < |poses| ==> poses[k].Some?
  {
    if poses == [] || poses[0].Some? then 0 else 1 + FirstPose(poses[1..])
  }

  /** The devices the nearest-device search considers: controllers then trackers, or one class. */
  function Candidates(anyDeviceType: bool, deviceType: DeviceType, devices: seq<Device>): seq<int> {
    if anyDeviceType then ValidIds(devices, Controller) + ValidIds(devices, Other)
    else ValidIds(devices, deviceType)
  }

  const MAX_DISTANCE_SQUARED: real := 10000.0
  const NEAR_DISTANCE_SQUARED: real := 25.0

  function DistTo(devices: seq<Device>, id: int, location: Vec3): real {
    DistSquared(LocationOf(devices, id), location)
  }

  /**
   * The position of the nearest candidate closer than the search bound, or
   * -1: earlier candidates are strictly farther and later ones no nearer, so
   * ties go to the earliest.
   */
  function NearestIndex(ids: seq<int>, devices: seq<Device>, location: Vec3): (k: int)
    ensures -1 <= k < |ids|
    ensures k == -1 ==> forall i :: 0 <= i < |ids| ==> DistTo(devices, ids[i], location) >= MAX_DISTANCE_SQUARED
    ensures k >= 0 ==>
              DistTo(devices, ids[k], location) < MAX_DISTANCE_SQUARED
              && (forall i :: 0 <= i < k ==> DistTo(devices, ids[i], location) > DistTo(devices, ids[k], location))
              && (forall i :: k < i < |ids| ==> DistTo(devices, ids[i], location) >= DistTo(devices, ids[k], location))
  {
    if ids == [] then -1
    else
      var k := NearestIndex(ids[..|ids| - 1], devices, location);
      var bound := if k == -1 then MAX_DISTANCE_SQUARED else DistTo(devices, ids[k], location);
      if DistTo(devices, ids[|ids| - 1], location) < bound then |ids| - 1 else k
  }

  /**
   * The device picked from a pose: the nearest candidate if it lies within
   * squared distance 25, else INDEX_NONE.
   */
  function PoseNearestId(ids: seq<int>, devices: seq<Device>, location: Vec3): (id: int)
    ensures id == INDEX_NONE || (id in ids && DistTo(devices, id, location) <= NEAR_DISTANCE_SQUARED)
    ensures id != INDEX_NONE ==> forall i :: 0 <= i < |ids| ==> DistTo(devices, ids[i], location) >= DistTo(devices, id, location)
    ensures (exists i :: 0 <= i < |ids| && DistTo(devices, ids[i], location) <= NEAR_DISTANCE_SQUARED)
            ==> NearestIndex(ids, devices, location) >= 0 && id == ids[NearestIndex(ids, devices, location)]
  {
    var k := NearestIndex(ids, devices, location);
    if k >= 0 && DistTo(devices, ids[k], location) <= NEAR_DISTANCE_SQUARED then ids[k] else INDEX_NONE
  }

  predicate Sorted(s: seq<int>) {
    forall i, j :: 0 <= i < j < |s| ==> s[i] <= s[j]
  }

  function Insert(x: int, s: seq<int>): (r: seq<int>)
    requires Sorted(s)
    ensures Sorted(r) && multiset(r) == multiset(s) + multiset{x}
    ensures |r| == |s| + 1
    ensures forall i :: 0 <= i < |r| ==> r[i] == x || r[i] in s
  {
    if s == [] || x <= s[0] then [x] + s
    else
      assert s == [s[0]] + s[1..];
      var rest := Insert(x, s[1..]);
      InsertBehindHead(x, s[0], s[1..], rest);
      [s[0]] + rest
  }

  /** The step of Insert past a smaller head: the head stays in front. */
  lemma InsertBehindHead(x: int, h: int, t: seq<int>, rest: seq<int>)
    requires Sorted([h] + t) && h < x
    requires Sorted(rest) && multiset(rest) == multiset(t) + multiset{x} && |rest| == |t| + 1
    requires forall i :: 0 <= i < |rest| ==> rest[i] == x || rest[i] in t
    ensures Sorted([h] + rest) && multiset([h] + rest) == multiset([h] + t) + multiset{x}
    ensures forall i :: 0 <= i < |rest| + 1 ==> ([h] + rest)[i] == x || ([h] + rest)[i] in [h] + t
  {
    assert forall i :: 0 <= i < |t| ==> h <= t[i] by {
      forall i | 0 <= i < |t| ensures h <= t[i] {
        assert ([h] + t)[0] == h && ([h] + t)[i + 1] == t[i];
      }
    }
    assert forall i :: 0 <= i < |rest| ==> h <= rest[i];
    assert multiset([h] + rest) == multiset{h} + multiset(rest);
    assert multiset([h] + t) == multiset{h} + multiset(t);
    assert forall i :: 0 < i < |rest| + 1 ==> ([h] + rest)[i] == rest[i - 1];
  }

  /** The ascending order of a list of indices (TArray::Sort). */
  function SortedAsc(s: seq<int>): (r: seq<int>)
    ensures Sorted(r) && multiset(r) == multiset(s) && |r| == |s|
  {
    if s == [] then []
    else
      assert s == [s[0]] + s[1..];
      Insert(s[0], SortedAsc(s[1..]))
  }

  /** Every element of the ascending order comes from the list sorted. */
  lemma {:induction false} SortedAscMember(s: seq<int>, i: int)
    requires 0 <= i < |s|
    ensures SortedAsc(s)[i] in s
  {
    var r := SortedAsc(s);
    assert r[i] in multiset(r);
  }

  /**
   * The fallback without a pose: a name "Special_N" picks the N-th smallest
   * tracker index when 1 <= N <= the number of trackers; everything else
   * gives INDEX_NONE.
   */
  function SpecialTrackerId(motionSource: Name, devices: seq<Device>): (id: int)
    ensures !SameName(Left(motionSource, 7), "Special") ==> id == INDEX_NONE
    ensures SameName(Left(motionSource, 7), "Special") ==>
              var n := Atoi(Right(motionSource, |motionSource| - 8));
              var trackers := ValidIds(devices, Other);
              (1 <= n <= |trackers| ==> id == SortedAsc(trackers)[n - 1])
              && (!(1 <= n <= |trackers|) ==> id == INDEX_NONE)
  {
    if SameName(Left(motionSource, 7), "Special") then
      var n := Atoi(Right(motionSource, |motionSource| - 8));
      var trackers := ValidIds(devices, Other);
      NthSmallest(trackers, n)
    else INDEX_NONE
  }

  /** The n-th smallest of the indices (counting from 1), or INDEX_NONE when there is no such one. */
  function NthSmallest(ids: seq<int>, n: int): (id: int)
    ensures 1 <= n <= |ids| ==> id == SortedAsc(ids)[n - 1]
    ensures !(1 <= n <= |ids|) ==> id == INDEX_NONE
  {
    if 1 <= n <= |ids| then SortedAsc(ids)[n - 1] else INDEX_NONE
  }

  /** The fallback gives no device or a live tracker. */
  lemma {:induction false} SpecialTrackerIdIsTracker(motionSource: Name, devices: seq<Device>)
    ensures var id := SpecialTrackerId(motionSource, devices);
            id == INDEX_NONE || id in ValidIds(devices, Other)
  {
    if SameName(Left(motionSource, 7), "Special") {
      var n := Atoi(Right(motionSource, |motionSource| - 8));
      var trackers := ValidIds(devices, Other);
      assert SpecialTrackerId(motionSource, devices) == NthSmallest(trackers, n);
      if 1 <= n <= |trackers| {
        SortedAscMember(trackers, n - 1);
      }
    }
  }

  /** "Special_" followed by the decimal text of N names the N-th smallest tracker. */
  lemma {:induction false} SpecialNumberedTracker(n: nat, devices: seq<Device>)
    requires 1 <= n <= |ValidIds(devices, Other)|
    ensures SpecialTrackerId("Special_" + NatToText(n), devices) == SortedAsc(ValidIds(devices, Other))[n - 1]
  {
    var digits := NatToText(n);
    var name := "Special_" + digits;
    assert name[..7] == "Special";
    assert Left(name, 7) == "Special";
    assert name[8..] == digits;
    assert Right(name, |name| - 8) == digits;
    AtoiOfNatText(n);
  }

  /** Without a pose, Right and Left resolve to no device. */
  lemma {:induction false} HandWithoutPose(motionSource: Name, devices: seq<Device>)
    requires SameName(motionSource, "Right") || SameName(motionSource, "Left")
    ensures SpecialTrackerId(motionSource, devices) == INDEX_NONE
  {
    assert |Fold(motionSource)| < 7;
  }

  /**
   * The index a motion source resolves to: from the first reported pose, if
   * it is not exactly at the origin, the nearest candidate; otherwise the
   * "Special_N" fallback.
   */
  function MotionSourceId(motionSource: Name, anyDeviceType: bool, deviceType: DeviceType,
                          poses: seq<Option<Vec3>>, devices: seq<Device>): int
  {
    var k := FirstPose(poses);
    if k < |poses| && !IsZero(poses[k].value) then
      PoseNearestId(Candidates(anyDeviceType, deviceType, devices), devices, poses[k].value)
    else SpecialTrackerId(motionSource, devices)
  }

  /** A pose at exactly the origin counts as no pose. */
  lemma {:induction false} ZeroPoseIsNoPose(motionSource: Name, anyDeviceType: bool, deviceType: DeviceType,
                                            poses: seq<Option<Vec3>>, devices: seq<Device>)
    requires FirstPose(poses) < |poses| && IsZero(poses[FirstPose(poses)].value)
    ensures MotionSourceId(motionSource, anyDeviceType, deviceType, poses, devices)
            == MotionSourceId(motionSource, anyDeviceType, deviceType, [], devices)
  {
  }

  /**
   * GetDeviceIdByMotionSource as a function of the name cache: the index it
   * returns and the cache afterwards.
   */
  function SourceLookup(cache: map<Name, Binding>, motionSource: Name, anyDeviceType: bool, deviceType: DeviceType,
                        poses: seq<Option<Vec3>>, devices: seq<Device>): Lookup
  {
    if IsMotionSource(motionSource) then Lookup(MotionSourceId(motionSource, anyDeviceType, deviceType, poses, devices), cache)
    else ResolveByName(cache, motionSource, false, devices)
  }

  /** Searches `deviceIds` for the device nearest `location`, as the pose path does. */
  method NearestDeviceId(deviceIds: seq<int>, devices: seq<Device>, location: Vec3) returns (minId: int)
    ensures minId == PoseNearestId(deviceIds, devices, location)
  {
    var minDistance := MAX_DISTANCE_SQUARED;
    minId := INDEX_NONE;
    ghost var best := -1;
    var i := 0;
    while i < |deviceIds|
      invariant 0 <= i <= |deviceIds|
      invariant best == NearestIndex(deviceIds[..i], devices, location)
      invariant best == -1 ==> minDistance == MAX_DISTANCE_SQUARED && minId == INDEX_NONE
      invariant best >= 0 ==> minDistance == DistTo(devices, deviceIds[best], location) && minId == deviceIds[best]
    {
      var newDistance := DistSquared(LocationOf(devices, deviceIds[i]), location);
      if newDistance < minDistance {
        minDistance := newDistance;
        minId := deviceIds[i];
        best := i;
      }
      i := i + 1;
      assert deviceIds[..i][..i - 1] == deviceIds[..i - 1];
    }
    assert deviceIds[..|deviceIds|] == deviceIds;
    if minDistance > NEAR_DISTANCE_SQUARED {
      minId := INDEX_NONE;
    }
  }

  /**
   * GetDeviceIdByMotionSource: a name that is not a motion source is looked
   * up as a friendly name without forcing a refresh; a motion source is
   * resolved by pose or by the Special_N rule and leaves the cache alone.
   * `poses` are the motion controllers' answers for this source, in order.
   */
  method GetDeviceIdByMotionSource(lib: TrackingLibModule, motionSource: Name, anyDeviceType: bool,
                                   deviceType: DeviceType, poses: seq<Option<Vec3>>, devices: seq<Device>)
    returns (id: int)
    modifies lib
    ensures !IsMotionSource(motionSource) ==>
              Lookup(id, lib.deviceSetup) == ResolveByName(old(lib.deviceSetup), motionSource, false, devices)
    ensures IsMotionSource(motionSource) ==>
              lib.deviceSetup == old(lib.deviceSetup)
              && id == MotionSourceId(motionSource, anyDeviceType, deviceType, poses, devices)
    ensures Lookup(id, lib.deviceSetup) == SourceLookup(old(lib.deviceSetup), motionSource, anyDeviceType, deviceType, poses, devices)
  {
    if !IsMotionSource(motionSource) {
      id := lib.GetTrackedDeviceIdByName(motionSource, false, devices);
      return;
    }
    var hasValidValue, location := ReadMotionSourcePose(poses);
    if hasValidValue {
      var outDevices := Candidates(anyDeviceType, deviceType, devices);
      id := NearestDeviceId(outDevices, devices, location);
    } else {
      id := SpecialTrackerIdOf(motionSource, devices);
    }
  }

  /**
   * The pose the motion controllers report for a source: the first answer,
   * and whether it is usable (a pose exactly at the origin is not).
   */
  method ReadMotionSourcePose(poses: seq<Option<Vec3>>) returns (hasValidValue: bool, location: Vec3)
    ensures hasValidValue <==> FirstPose(poses) < |poses| && !IsZero(poses[FirstPose(poses)].value)
    ensures hasValidValue ==> location == poses[FirstPose(poses)].value
  {
    hasValidValue := false;
    location := Vec3(0.0, 0.0, 0.0);
    var i := 0;
    while i < |poses|
      invariant 0 <= i <= |poses|
      invariant forall j :: 0 <= j < i ==> poses[j].None?
      invariant !hasValidValue && location == Vec3(0.0, 0.0, 0.0)
    {
      if poses[i].Some? {
        location := poses[i].value;
        hasValidValue := true;
        break;
      }
      i := i + 1;
    }
    if IsZero(location) {
      hasValidValue := false;
    }
  }

  /** The Special_N fallback as the source computes it, sorting the trackers. */
  method SpecialTrackerIdOf(motionSource: Name, devices: seq<Device>) returns (id: int)
    ensures id == SpecialTrackerId(motionSource, devices)
  {
    id := INDEX_NONE;
    if SameName(Left(motionSource, 7), "Special") {
      var trackerNumber := Atoi(Right(motionSource, |motionSource| - 8));
      var outTrackers := ValidIds(devices, Other);
      if trackerNumber > 0 && |outTrackers| >= trackerNumber {
        outTrackers := SortedAsc(outTrackers);
        id := outTrackers[trackerNumber - 1];
      }
    }
  }

  /** A pose-resolved index lies within squared distance 25 of the pose and is the nearest candidate. */
  lemma {:induction false} PoseResultWithinThreshold(motionSource: Name, anyDeviceType: bool, deviceType: DeviceType,
                                                     poses: seq<Option<Vec3>>, devices: seq<Device>)
    requires FirstPose(poses) < |poses| && !IsZero(poses[FirstPose(poses)].value)
    ensures var id := MotionSourceId(motionSource, anyDeviceType, deviceType, poses, devices);
            var location := poses[FirstPose(poses)].value;
            id == INDEX_NONE
            || (id in Candidates(anyDeviceType, deviceType, devices)
                && DistTo(devices, id, location) <= NEAR_DISTANCE_SQUARED)
  {
  }

  // ---------------------------------------------------------------------
  // Setup loading

  /** Installs an asset's bindings in the cache; a missing asset is refused. */
  method SetSteamVRTrackingSetup(lib: TrackingLibModule, trackingSetup: TrackingSetupAsset?) returns (ok: bool)
    modifies lib
    ensures ok == (trackingSetup != null)
    ensures trackingSetup == null ==> lib.deviceSetup == old(lib.deviceSetup)
    ensures trackingSetup != null ==>
              exists keys :: Enumerates(keys, trackingSetup.deviceSetup)
                && lib.deviceSetup == NamesFromArray(ValuesInOrder(trackingSetup.deviceSetup, keys))
  {
    if trackingSetup != null {
      lib.InitializeTrackingNames(trackingSetup);
      return true;
    }
    return false;
  }

  /** The serial number bound to a friendly name, or None when the name is unknown. */
  method GetTrackedDeviceSerialNumberByName(lib: TrackingLibModule, deviceFriendlyName: Name) returns (serial: Name)
    ensures Fold(deviceFriendlyName) in lib.deviceSetup ==> serial == lib.deviceSetup[Fold(deviceFriendlyName)].SerialNumber
    ensures Fold(deviceFriendlyName) !in lib.deviceSetup ==> IsNone(serial)
  {
    var data := lib.GetTrackedDeviceSetupByName(deviceFriendlyName, DefaultBinding());
    serial := data.SerialNumber;
  }

  // ---------------------------------------------------------------------
  // JSON import and export

  /** The text the export writes for a device class. */
  function TypeText(t: DeviceType): Name {
    if t == Controller then "Controller" else "ViveTracker"
  }

  /** One device record; the names are written as the engine prints them. */
  function ExportDevice(b: Binding): Json {
    JObject(map[KEY_SERIAL_NUMBER := JString(NameText(b.SerialNumber)),
                KEY_TYPE := JString(TypeText(b.Type)),
                KEY_NAME := JString(NameText(b.FriendlyName))])
  }

  /**
   * ExportTrackingSetupToJSON at object level: format version 1 and one
   * device record per binding, in order.
   */
  function ExportTrackingSetupToJSON(trackingSetup: seq<Binding>): (root: JsonObject)
    ensures GetFormatVersion(root) == 1
    ensures KEY_DEVICES in root && root[KEY_DEVICES].JArray?
    ensures |root[KEY_DEVICES].items| == |trackingSetup|
  {
    map[KEY_FORMAT_VERSION := JNumber(1.0, "1"),
        KEY_DEVICES := JArray(seq(|trackingSetup|, i requires 0 <= i < |trackingSetup| => ExportDevice(trackingSetup[i])))]
  }

  datatype ImportOutcome = ImportOutcome(ok: bool, setup: seq<Binding>)

  /** One element of the "Devices" array: an object read into a fresh binding. */
  function DecodeDevice(item: Json): DeviceRead {
    if item.JObject? then ReadJsonDevice(item.fields, DefaultBinding())
    else DeviceRead(false, DefaultBinding())
  }

  /**
   * Reading the "Devices" array: the records read before the first bad one,
   * and whether there was none.
   */
  function DecodeDevices(items: seq<Json>): (r: ImportOutcome)
    ensures |r.setup| <= |items|
    ensures forall j :: 0 <= j < |r.setup| ==> DecodeDevice(items[j]).ok && r.setup[j] == DecodeDevice(items[j]).binding
    ensures r.ok <==> |r.setup| == |items|
    ensures |r.setup| < |items| ==> !DecodeDevice(items[|r.setup|]).ok
  {
    if items == [] then ImportOutcome(true, [])
    else
      var d := DecodeDevice(items[0]);
      if !d.ok then ImportOutcome(false, [])
      else
        var rest := DecodeDevices(items[1..]);
        ImportOutcome(rest.ok, [d.binding] + rest.setup)
  }

  /**
   * ImportTrackingSetupFromJSON on a parsed file (None: the file could not be
   * read or parsed). Without a "Devices" array the output is left as it was;
   * otherwise it is replaced by the records read before the first bad one.
   */
  function ImportSpec(outTrackingSetup: seq<Binding>, root: Option<JsonObject>): ImportOutcome {
    if root.None? then ImportOutcome(false, outTrackingSetup)
    else if KEY_DEVICES !in root.value then ImportOutcome(false, outTrackingSetup)
    else if !root.value[KEY_DEVICES].JArray? then ImportOutcome(false, outTrackingSetup)
    else DecodeDevices(root.value[KEY_DEVICES].items)
  }

  method ImportTrackingSetupFromJSON(outTrackingSetup: seq<Binding>, root: Option<JsonObject>)
    returns (ok: bool, trackingSetup: seq<Binding>)
    ensures ImportOutcome(ok, trackingSetup) == ImportSpec(outTrackingSetup, root)
  {
    trackingSetup := outTrackingSetup;
    if root.None? {
      return false, trackingSetup;
    }
    var fileFormatVersion := GetFormatVersion(root.value);
    if KEY_DEVICES !in root.value {
      return false, trackingSetup;
    }
    var devicesObject := root.value[KEY_DEVICES];
    if !devicesObject.JArray? {
      return false, trackingSetup;
    }
    trackingSetup := [];
    var devicesList := devicesObject.items;
    var i := 0;
    while i < |devicesList|
      invariant 0 <= i <= |devicesList|
      invariant ReadAsFar(devicesList, i, trackingSetup)
    {
      var device := devicesList[i];
      if !device.JObject? {
        DecodeDevicesFromPrefix(devicesList, i, trackingSetup);
        return false, trackingSetup;
      }
      var newBinding := ReadJsonDevice(device.fields, DefaultBinding());
      if !newBinding.ok {
        DecodeDevicesFromPrefix(devicesList, i, trackingSetup);
        return false, trackingSetup;
      }
      trackingSetup := trackingSetup + [newBinding.binding];
      i := i + 1;
    }
    DecodeDevicesFromPrefix(devicesList, i, trackingSetup);
    ok := true;
  }

  /** `setup` holds the records decoded from the first `i` items, all good. */
  ghost predicate ReadAsFar(items: seq<Json>, i: nat, setup: seq<Binding>)
    requires i <= |items|
  {
    |setup| == i && forall j :: 0 <= j < i ==> DecodeDevice(items[j]).ok && setup[j] == DecodeDevice(items[j]).binding
  }

  /** Reading all items, or stopping at the first bad one, gives the records read so far. */
  lemma {:induction false} DecodeDevicesFromPrefix(items: seq<Json>, i: nat, setup: seq<Binding>)
    requires i <= |items| && ReadAsFar(items, i, setup)
    requires i < |items| ==> !DecodeDevice(items[i]).ok
    ensures DecodeDevices(items) == ImportOutcome(i == |items|, setup)
  {
    var r := DecodeDevices(items);
    assert |r.setup| == i;
    assert r.setup == setup;
  }

  /**
   * Loads a setup file into the cache; the cache is rebuilt only from a
   * file that was read completely.
   */
  method LoadSteamVRTrackingSetupFromFile(lib: TrackingLibModule, root: Option<JsonObject>) returns (ok: bool)
    modifies lib
    ensures ok == ImportSpec([], root).ok
    ensures ok ==> lib.deviceSetup == NamesFromArray(ImportSpec([], root).setup)
    ensures !ok ==> lib.deviceSetup == old(lib.deviceSetup)
  {
    var imported, trackingSetup := ImportTrackingSetupFromJSON([], root);
    if imported {
      lib.InitializeTrackingNamesFromArray(trackingSetup);
      return true;
    }
    return false;
  }

  /**
   * A device class survives export and import as Controller or Other; the
   * names come back as the engine builds them from their printed text.
   */
  function Normalized(b: Binding): Binding {
    Binding(if b.Type == Controller then Controller else Other, INDEX_NONE, ToName(b.SerialNumber), ToName(b.FriendlyName))
  }

  lemma {:induction false} ReadExportedDevice(b: Binding)
    ensures DecodeDevice(ExportDevice(b)) == DeviceRead(true, Normalized(b))
  {
    assert Fold("None") == "none";
    assert Fold("Controller") == "controller";
    assert Fold("ViveTracker") == "vivetracker";
  }

  /**
   * Export then import keeps every binding's serial number and friendly
   * name, in order, keeps Controller, turns every other class into Other and
   * resets the index.
   */
  lemma {:induction false} ImportOfExport(trackingSetup: seq<Binding>, outTrackingSetup: seq<Binding>)
    ensures ImportSpec(outTrackingSetup, Some(ExportTrackingSetupToJSON(trackingSetup)))
            == ImportOutcome(true, seq(|trackingSetup|, i requires 0 <= i < |trackingSetup| => Normalized(trackingSetup[i])))
  {
    var root := ExportTrackingSetupToJSON(trackingSetup);
    var items := root[KEY_DEVICES].items;
    var r := DecodeDevices(items);
    forall i | 0 <= i < |items| ensures DecodeDevice(items[i]) == DeviceRead(true, Normalized(trackingSetup[i])) {
      ReadExportedDevice(trackingSetup[i]);
    }
    assert r.ok;
  }
}
