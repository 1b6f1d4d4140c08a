/** Small shared wrapper for values that may be absent. */
module Opt {
  datatype Option<T> = None | Some(value: T)
}

/**
 * The device binding record, its defaults, and the tracking-setup asset that
 * stores bindings in a name-keyed map (at most one binding per key).
 */
module TrackingSetup {
  import opened Names

  /** The engine's tracked-device classes (ESteamVRTrackedDeviceType). */
  datatype DeviceType = Controller | TrackingReference | Other | Invalid

  /** The engine's "no index" marker. */
  const INDEX_NONE: int := -1

  /**
   * FSteamVRDeviceBindingSetup: a device class, the volatile OpenVR index,
   * the stable serial number and the user's friendly name.
   */
  datatype Binding = Binding(Type: DeviceType, Id: int, SerialNumber: Name, FriendlyName: Name)

  /** A default-constructed binding: unresolved, unnamed, of no class. */
  function DefaultBinding(): (b: Binding)
    ensures b.Type == Invalid && b.Id == INDEX_NONE
    ensures IsNone(b.SerialNumber) && IsNone(b.FriendlyName)
  {
    Binding(Invalid, INDEX_NONE, "", "")
  }

  /** `keys` lists every key of `m` exactly once. */
  ghost predicate Enumerates(keys: seq<Name>, m: map<Name, Binding>) {
    (forall i, j :: 0 <= i < j < |keys| ==> keys[i] != keys[j])
    && (forall k :: k in m <==> k in keys)
  }

  /** The values of `m` taken in the order of `keys`. */
  function ValuesInOrder(m: map<Name, Binding>, keys: seq<Name>): (values: seq<Binding>)
    requires forall i :: 0 <= i < |keys| ==> keys[i] in m
    ensures |values| == |keys|
    ensures forall i :: 0 <= i < |keys| ==> values[i] == m[keys[i]]
  {
    seq(|keys|, i requires 0 <= i < |keys| => m[keys[i]])
  }

  /**
   * TMap::GenerateValueArray: the map's values, in the map's own (unspecified)
   * enumeration order, returned together with the keys in that order.
   */
  method ValueArray(m: map<Name, Binding>) returns (keys: seq<Name>, values: seq<Binding>)
    ensures Enumerates(keys, m)
    ensures |values| == |keys|
    ensures forall i :: 0 <= i < |keys| ==> keys[i] in m && values[i] == m[keys[i]]
  {
    keys, values := [], [];
    var rest := m.Keys;
    while rest != {}
      invariant rest <= m.Keys
      invariant forall k :: k in m ==> (k in keys <==> k !in rest)
      invariant |keys| == |values|
      invariant forall i, j :: 0 <= i < j < |keys| ==> keys[i] != keys[j]
      invariant forall i :: 0 <= i < |keys| ==> keys[i] in m && values[i] == m[keys[i]]
      decreases |rest|
    {
      var k :| k in rest;
      keys, values := keys + [k], values + [m[k]];
      rest := rest - {k};
    }
  }

  /** Every entry is stored under the folded form of its own serial number. */
  ghost predicate KeyedBySerial(setup: map<Name, Binding>) {
    forall k :: k in setup ==> Fold(setup[k].SerialNumber) == k
  }

  /** USteamVRTrackingSetup: the asset's binding map, edited in place. */
  class TrackingSetupAsset {
    var deviceSetup: map<Name, Binding>

    constructor ()
      ensures deviceSetup == map[]
    {
      deviceSetup := map[];
    }
  }
}

/**
 * The live OpenVR device state, given as input: each connected device's
 * index, class, serial number and current location.
 */
module DeviceRuntime {
  import opened Names
  import opened TrackingSetup

  datatype Vec3 = Vec3(x: real, y: real, z: real)

  /** FVector::IsZero. */
  predicate IsZero(v: Vec3) {
    v.x == 0.0 && v.y == 0.0 && v.z == 0.0
  }

  /** FVector::DistSquared. */
  function DistSquared(a: Vec3, b: Vec3): real {
    (a.x - b.x) * (a.x - b.x) + (a.y - b.y) * (a.y - b.y) + (a.z - b.z) * (a.z - b.z)
  }

  datatype Device = Device(id: int, kind: DeviceType, serial: Name, location: Vec3)

  /** GetValidTrackedDeviceIds: the indices of the devices of one class, in order. */
  function ValidIds(devices: seq<Device>, kind: DeviceType): (ids: seq<int>)
    ensures |ids| <= |devices|
    ensures forall x :: x in ids <==> exists d :: d in devices && d.kind == kind && d.id == x
  {
    if devices == [] then []
    else ValidIds(devices[..|devices| - 1], kind)
         + (if devices[|devices| - 1].kind == kind then [devices[|devices| - 1].id] else [])
  }

  /** The text the serial-number query returns when the property cannot be read. */
  const READ_ERROR: Name := "Property Read Error"

  /** GetTrackedDeviceSerialNumber: the serial of the device with that index. */
  function SerialOf(devices: seq<Device>, id: int): Name {
    if devices == [] then READ_ERROR
    else if devices[0].id == id then devices[0].serial
    else SerialOf(devices[1..], id)
  }

  /** The serial as a name (FName(*SerialText)): a reported "None" is the None name. */
  function SerialNameOf(devices: seq<Device>, id: int): (n: Name)
    ensures !IsNone(n) ==> n == SerialOf(devices, id)
  {
    ToName(SerialOf(devices, id))
  }

  /** GetTrackedDevicePositionAndOrientation's location for a device index. */
  function LocationOf(devices: seq<Device>, id: int): Vec3 {
    if devices == [] then Vec3(0.0, 0.0, 0.0)
    else if devices[0].id == id then devices[0].location
    else LocationOf(devices[1..], id)
  }
}
