/**
 * The friendly-name cache of the runtime module (FSteamVRTrackingLibModule):
 * a map from friendly name to binding whose device index is resolved lazily
 * by scanning the live devices for the binding's serial number.
 */
module TrackingLib {
  import opened Names
  import opened TrackingSetup
  import opened DeviceRuntime

  /**
   * The position in `ids` of the first device whose serial number equals
   * `serial`, or |ids| when none does.
   */
  function FirstMatch(devices: seq<Device>, ids: seq<int>, serial: Name): (k: nat)
    ensures k <= |ids|
    ensures forall j :: 0 <= j < k ==> !SameName(serial, SerialNameOf(devices, ids[j]))
    ensures k < |ids| ==> SameName(serial, SerialNameOf(devices, ids[k]))
  {
    if ids == [] then 0
    else if SameName(serial, SerialNameOf(devices, ids[0])) then 0
    else 1 + FirstMatch(devices, ids[1..], serial)
  }

  /**
   * A cached binding after a lookup. Only an unresolved binding, or any
   * binding when a refresh is forced, is re-resolved: it takes the first
   * device of its class, in enumeration order, that reports its serial. When
   * no device does, the old index, possibly stale, is kept.
   */
  function Refreshed(b: Binding, force: bool, devices: seq<Device>): (r: Binding)
    ensures r.Type == b.Type && r.SerialNumber == b.SerialNumber && r.FriendlyName == b.FriendlyName
    ensures b.Id != INDEX_NONE && !force ==> r == b
    ensures (forall id :: id in ValidIds(devices, b.Type) ==> !SameName(b.SerialNumber, SerialNameOf(devices, id)))
            ==> r == b
    ensures r.Id != b.Id ==>
              r.Id in ValidIds(devices, b.Type) && SameName(b.SerialNumber, SerialNameOf(devices, r.Id))
  {
    if b.Id == INDEX_NONE || force then
      var ids := ValidIds(devices, b.Type);
      var k := FirstMatch(devices, ids, b.SerialNumber);
      if k < |ids| then b.(Id := ids[k]) else b
    else b
  }

  /** A forced or first lookup resolves to the earliest matching device. */
  lemma {:induction false} RefreshPicksFirstMatch(b: Binding, force: bool, devices: seq<Device>, k: nat)
    requires b.Id == INDEX_NONE || force
    requires k < |ValidIds(devices, b.Type)|
    requires SameName(b.SerialNumber, SerialNameOf(devices, ValidIds(devices, b.Type)[k]))
    requires forall j :: 0 <= j < k ==> !SameName(b.SerialNumber, SerialNameOf(devices, ValidIds(devices, b.Type)[j]))
    ensures Refreshed(b, force, devices).Id == ValidIds(devices, b.Type)[k]
  {
  }

  /** A lazy lookup stores what it finds, so looking up again gives the same binding. */
  lemma {:induction false} RefreshedIdempotent(b: Binding, devices: seq<Device>)
    ensures Refreshed(Refreshed(b, false, devices), false, devices) == Refreshed(b, false, devices)
  {
    if b.Id == INDEX_NONE {
      var ids := ValidIds(devices, b.Type);
      var k := FirstMatch(devices, ids, b.SerialNumber);
      if k < |ids| && ids[k] == INDEX_NONE {
        assert Refreshed(b, false, devices) == b;
      }
    }
  }

  datatype Lookup = Lookup(id: int, setup: map<Name, Binding>)

  /**
   * GetTrackedDeviceIdByName on a cache: the index it returns and the cache
   * afterwards. An unknown name gives INDEX_NONE and no change; a known name
   * gives its binding's index after the refresh, and only that binding's
   * index can change.
   */
  function ResolveByName(setup: map<Name, Binding>, friendlyName: Name, force: bool, devices: seq<Device>): (r: Lookup)
    ensures Fold(friendlyName) !in setup ==> r.id == INDEX_NONE && r.setup == setup
    ensures r.setup.Keys == setup.Keys
    ensures forall k :: k in setup && k != Fold(friendlyName) ==> r.setup[k] == setup[k]
    ensures Fold(friendlyName) in setup ==>
              var b := setup[Fold(friendlyName)];
              r.setup[Fold(friendlyName)] == b.(Id := r.id)
              && (b.Id != INDEX_NONE && !force ==> r.id == b.Id)
  {
    var key := Fold(friendlyName);
    if key in setup then
      var b := Refreshed(setup[key], force, devices);
      Lookup(b.Id, setup[key := b])
    else Lookup(INDEX_NONE, setup)
  }

  /** Bindings the cache keeps: both serial number and friendly name are set. */
  predicate Named(b: Binding) {
    !IsNone(b.SerialNumber) && !IsNone(b.FriendlyName)
  }

  /** The cache built from a list of bindings, in list order. */
  function NamesFromArray(bindings: seq<Binding>): map<Name, Binding> {
    if bindings == [] then map[]
    else
      var m := NamesFromArray(bindings[..|bindings| - 1]);
      var b := bindings[|bindings| - 1];
      if Named(b) then m[Fold(b.FriendlyName) := b.(Id := INDEX_NONE)] else m
  }

  /** The last position of a kept binding whose friendly name is `key`, or -1. */
  function LastNamed(bindings: seq<Binding>, key: Name): (i: int)
    ensures -1 <= i < |bindings|
    ensures i >= 0 ==> Named(bindings[i]) && Fold(bindings[i].FriendlyName) == key
    ensures forall j :: i < j < |bindings| ==> !(Named(bindings[j]) && Fold(bindings[j].FriendlyName) == key)
  {
    if bindings == [] then -1
    else if Named(bindings[|bindings| - 1]) && Fold(bindings[|bindings| - 1].FriendlyName) == key then |bindings| - 1
    else LastNamed(bindings[..|bindings| - 1], key)
  }

  /**
   * A name is cached exactly when some kept binding carries it, and the
   * cached binding is the LAST such binding with its index reset.
   */
  lemma {:induction false} NamesFromArrayLastWins(bindings: seq<Binding>, key: Name)
    ensures key in NamesFromArray(bindings) <==> LastNamed(bindings, key) >= 0
    ensures key in NamesFromArray(bindings) ==>
              NamesFromArray(bindings)[key] == bindings[LastNamed(bindings, key)].(Id := INDEX_NONE)
  {
    if bindings != [] {
      NamesFromArrayLastWins(bindings[..|bindings| - 1], key);
    }
  }

  /** Every cached binding is kept, unresolved and keyed by its friendly name. */
  lemma NamesFromArrayEntries(bindings: seq<Binding>)
    ensures forall k :: k in NamesFromArray(bindings) ==>
              var b := NamesFromArray(bindings)[k];
              b.Id == INDEX_NONE && Named(b) && Fold(b.FriendlyName) == k
  {
    forall k | k in NamesFromArray(bindings)
      ensures var b := NamesFromArray(bindings)[k];
              b.Id == INDEX_NONE && Named(b) && Fold(b.FriendlyName) == k
    {
      NamesFromArrayLastWins(bindings, k);
    }
  }

  class TrackingLibModule {
    /** Bindings keyed by folded friendly name. */
    var deviceSetup: map<Name, Binding>

    constructor ()
      ensures deviceSetup == map[]
    {
      deviceSetup := map[];
    }

    /** The device index for a friendly name, re-resolved when needed. */
    method GetTrackedDeviceIdByName(friendlyName: Name, forceUpdateId: bool, devices: seq<Device>) returns (id: int)
      modifies this
      ensures Lookup(id, deviceSetup) == ResolveByName(old(deviceSetup), friendlyName, forceUpdateId, devices)
    {
      var key := Fold(friendlyName);
      if key in deviceSetup {
        var binding := deviceSetup[key];
        if binding.Id == INDEX_NONE || forceUpdateId {
          var deviceIds := ValidIds(devices, binding.Type);
          var i := 0;
          while i < |deviceIds|
            invariant 0 <= i <= |deviceIds|
            invariant forall j :: 0 <= j < i ==> !SameName(binding.SerialNumber, SerialNameOf(devices, deviceIds[j]))
            invariant deviceSetup == old(deviceSetup)
          {
            var sn := SerialNameOf(devices, deviceIds[i]);
            if SameName(binding.SerialNumber, sn) {
              deviceSetup := deviceSetup[key := binding.(Id := deviceIds[i])];
              RefreshPicksFirstMatch(binding, forceUpdateId, devices, i);
              break;
            }
            i := i + 1;
          }
        }
        id := deviceSetup[key].Id;
      } else {
        id := INDEX_NONE;
      }
    }

    /** Rebuilds the cache from a list of bindings, dropping everything before. */
    method InitializeTrackingNamesFromArray(devices: seq<Binding>)
      modifies this
      ensures deviceSetup == NamesFromArray(devices)
    {
      deviceSetup := map[];
      var i := 0;
      while i < |devices|
        invariant 0 <= i <= |devices|
        invariant deviceSetup == NamesFromArray(devices[..i])
      {
        var d := devices[i];
        if Named(d) {
          deviceSetup := deviceSetup[Fold(d.FriendlyName) := d.(Id := INDEX_NONE)];
        }
        i := i + 1;
        assert devices[..i][..i - 1] == devices[..i - 1];
      }
      assert devices[..|devices|] == devices;
    }

    /** Rebuilds the cache from an asset's bindings, taken in the asset map's order. */
    method InitializeTrackingNames(setup: TrackingSetupAsset)
      modifies this
      ensures exists keys :: Enumerates(keys, setup.deviceSetup)
                && deviceSetup == NamesFromArray(ValuesInOrder(setup.deviceSetup, keys))
    {
      var keys, values := ValueArray(setup.deviceSetup);
      InitializeTrackingNamesFromArray(values);
      assert values == ValuesInOrder(setup.deviceSetup, keys);
    }

    /** Copies the binding of a friendly name into `outData`; unchanged when unknown. */
    method GetTrackedDeviceSetupByName(friendlyName: Name, outData: Binding) returns (r: Binding)
      ensures Fold(friendlyName) in deviceSetup ==> r == deviceSetup[Fold(friendlyName)]
      ensures Fold(friendlyName) !in deviceSetup ==> r == outData
    {
      r := outData;
      if Fold(friendlyName) in deviceSetup {
        r := deviceSetup[Fold(friendlyName)];
      }
    }
  }
}
