/**
 * The editor-time tracking actor (AEditorSteamVRController): a table of
 * motion sources, each naming an actor's component to move, turned into a
 * list of bindings whose device indices are resolved lazily every tick.
 *
 * Device indices come from GetDeviceIdByMotionSource(source, any type,
 * Other) against the name cache, which a lookup of a friendly name writes
 * back to; the live devices and the poses the motion controllers report for
 * each source are inputs. Component liveness (IsValid) is the set `alive`
 * of components not yet destroyed.
 * The device pose that a tick copies into a component is left to the
 * engine; a tick reports which component it placed from which device.
 */
module EditorController {
  import opened Opt
  import opened Names
  import opened TrackingSetup
  import opened DeviceRuntime
  import opened TrackingLib
  import opened BPLibrary

  /** A scene or other actor component, by handle. */
  type ComponentRef = nat

  datatype Component = Component(ref: ComponentRef, name: Name, isSceneComponent: bool)

  /** FSteamVRTrackedComponent: the actor (None when unset), given by its components, and the component's name. */
  datatype TrackedComponent = TrackedComponent(actorComponents: Option<seq<Component>>, componentName: Name)

  /** An entry of the TrackedObjects map, in the map's enumeration order. */
  datatype TrackedEntry = TrackedEntry(key: Name, value: TrackedComponent)

  /** FSteamVRTrackingBinding. */
  datatype TrackingBinding = TrackingBinding(DeviceId: int, MotionSource: Name, AttachedComponent: ComponentRef)

  /** A component the tick moves to the pose of a device. */
  datatype Placement = Placement(component: ComponentRef, deviceId: int)

  /** The position of the first component whose name matches, or -1. */
  function FirstNamed(components: seq<Component>, name: Name): (k: int)
    ensures -1 <= k < |components|
    ensures k >= 0 ==> SameName(components[k].name, name)
    ensures forall j :: 0 <= j < |components| && (k < 0 || j < k) ==> !SameName(components[j].name, name)
  {
    if components == [] then -1
    else if SameName(components[0].name, name) then 0
    else
      var k := FirstNamed(components[1..], name);
      if k < 0 then -1 else k + 1
  }

  /**
   * The target of an entry: the first component with the wanted name, if it
   * is a scene component (the cast of any other component is null).
   */
  function Target(components: seq<Component>, name: Name): Option<ComponentRef> {
    var k := FirstNamed(components, name);
    if k >= 0 && components[k].isSceneComponent then Some(components[k].ref) else None
  }

  /** The binding UpdateObjectsList makes for one entry, if any. */
  function BindingFor(entry: TrackedEntry, resolve: Name -> int): (b: Option<TrackingBinding>)
    ensures b.Some? <==> entry.value.actorComponents.Some? && !IsNone(entry.key)
                         && Target(entry.value.actorComponents.value, entry.value.componentName).Some?
    ensures b.Some? ==> b.value.MotionSource == entry.key && b.value.DeviceId == resolve(entry.key)
                        && b.value.AttachedComponent == Target(entry.value.actorComponents.value, entry.value.componentName).value
  {
    if entry.value.actorComponents.Some? && !IsNone(entry.key) then
      match Target(entry.value.actorComponents.value, entry.value.componentName)
      case Some(target) => Some(TrackingBinding(resolve(entry.key), entry.key, target))
      case None => None
    else None
  }

  /** The list UpdateObjectsList builds: the bindings of the usable entries, in order. */
  function ObjectsList(trackedObjects: seq<TrackedEntry>, resolve: Name -> int): (objects: seq<TrackingBinding>)
    ensures |objects| <= |trackedObjects|
  {
    if trackedObjects == [] then []
    else
      var prefix := ObjectsList(trackedObjects[..|trackedObjects| - 1], resolve);
      match BindingFor(trackedObjects[|trackedObjects| - 1], resolve)
      case Some(b) => prefix + [b]
      case None => prefix
  }

  /** A binding is in the list exactly when some usable entry makes it. */
  lemma {:induction false} ObjectsListMembers(trackedObjects: seq<TrackedEntry>, resolve: Name -> int, b: TrackingBinding)
    ensures b in ObjectsList(trackedObjects, resolve) <==>
              exists i :: 0 <= i < |trackedObjects| && BindingFor(trackedObjects[i], resolve) == Some(b)
  {
    if trackedObjects != [] {
      var prefix := trackedObjects[..|trackedObjects| - 1];
      ObjectsListMembers(prefix, resolve, b);
      assert forall i :: 0 <= i < |prefix| ==> trackedObjects[i] == prefix[i];
    }
  }

  /** Every entry that can be bound is bound: the list is as long as the table exactly when all entries are usable. */
  lemma {:induction false} ObjectsListComplete(trackedObjects: seq<TrackedEntry>, resolve: Name -> int)
    ensures |ObjectsList(trackedObjects, resolve)| == |trackedObjects| <==>
              forall i :: 0 <= i < |trackedObjects| ==> BindingFor(trackedObjects[i], resolve).Some?
  {
    if trackedObjects != [] {
      var prefix := trackedObjects[..|trackedObjects| - 1];
      ObjectsListComplete(prefix, resolve);
      assert forall i :: 0 <= i < |prefix| ==> prefix[i] == trackedObjects[i];
    }
  }

  // ---------------------------------------------------------------------
  // Resolution through the name cache

  /** The poses the motion controllers report for each motion source, in the order they answer. */
  type PoseSource = Name -> seq<Option<Vec3>>

  /** The index GetDeviceIdByMotionSource(source, any type, Other) gives with this cache. */
  function SourceId(cache: map<Name, Binding>, source: Name, poses: PoseSource, devices: seq<Device>): int {
    SourceLookup(cache, source, true, Other, poses(source), devices).id
  }

  /** Every motion source resolved against one cache. */
  function SourceResolver(cache: map<Name, Binding>, poses: PoseSource, devices: seq<Device>): Name -> int {
    n => SourceId(cache, n, poses, devices)
  }

  /** The cache after looking up `sources` in turn. */
  function ResolveAll(cache: map<Name, Binding>, sources: seq<Name>, poses: PoseSource, devices: seq<Device>): map<Name, Binding> {
    if sources == [] then cache
    else
      var last := sources[|sources| - 1];
      SourceLookup(ResolveAll(cache, sources[..|sources| - 1], poses, devices), last, true, Other, poses(last), devices).setup
  }

  /** Some friendly name (a source that is not a motion source) among `sources` has the key k. */
  predicate NamedAmong(sources: seq<Name>, k: Name) {
    exists i :: 0 <= i < |sources| && NamesKey(sources[i], k)
  }

  /** The source is a friendly name (not a motion source) with the key k. */
  predicate NamesKey(source: Name, k: Name) {
    !IsMotionSource(source) && Fold(source) == k
  }

  /** One lookup refreshes the entry of a friendly name and leaves every other entry alone. */
  lemma {:induction false} LookupEntry(cache: map<Name, Binding>, source: Name, poses: seq<Option<Vec3>>,
                                       devices: seq<Device>, k: Name)
    ensures SourceLookup(cache, source, true, Other, poses, devices).setup.Keys == cache.Keys
    ensures k in cache ==>
              SourceLookup(cache, source, true, Other, poses, devices).setup[k]
              == if NamesKey(source, k) then Refreshed(cache[k], false, devices) else cache[k]
  {
  }

  lemma {:induction false} NamedAmongLast(sources: seq<Name>, k: Name)
    requires sources != []
    ensures var x := sources[|sources| - 1];
            NamedAmong(sources, k) <==> NamedAmong(sources[..|sources| - 1], k) || NamesKey(x, k)
  {
    var p := sources[..|sources| - 1];
    if NamedAmong(p, k) {
      var i :| 0 <= i < |p| && NamesKey(p[i], k);
      assert sources[i] == p[i];
    }
    if NamedAmong(sources, k) {
      var i :| 0 <= i < |sources| && NamesKey(sources[i], k);
      if i < |p| {
        assert p[i] == sources[i];
      }
    }
  }

  /**
   * What a run of lookups writes to the cache: the keys stay, and exactly the
   * entries of the friendly names looked up are lazily refreshed, once
   * however often they are looked up.
   */
  lemma {:induction false} ResolveAllEntries(cache: map<Name, Binding>, sources: seq<Name>, poses: PoseSource,
                                             devices: seq<Device>, k: Name)
    ensures ResolveAll(cache, sources, poses, devices).Keys == cache.Keys
    ensures k in cache ==>
              ResolveAll(cache, sources, poses, devices)[k]
              == if NamedAmong(sources, k) then Refreshed(cache[k], false, devices) else cache[k]
  {
    if sources != [] {
      var p := sources[..|sources| - 1];
      var x := sources[|sources| - 1];
      ResolveAllEntries(cache, p, poses, devices, k);
      LookupEntry(ResolveAll(cache, p, poses, devices), x, poses(x), devices, k);
      NamedAmongLast(sources, k);
      if k in cache {
        RefreshedIdempotent(cache[k], devices);
      }
    }
  }

  /** Looking sources up never changes the index a later lookup of any source gives. */
  lemma {:induction false} ResolveAllKeepsIds(cache: map<Name, Binding>, sources: seq<Name>, poses: PoseSource,
                                              devices: seq<Device>, n: Name)
    ensures SourceId(ResolveAll(cache, sources, poses, devices), n, poses, devices) == SourceId(cache, n, poses, devices)
  {
    ResolveAllEntries(cache, sources, poses, devices, Fold(n));
    if Fold(n) in cache {
      RefreshedIdempotent(cache[Fold(n)], devices);
    }
  }

  /** The motion sources of the bindings, in order. */
  function Sources(objects: seq<TrackingBinding>): (sources: seq<Name>)
    ensures |sources| == |objects| && forall i :: 0 <= i < |objects| ==> sources[i] == objects[i].MotionSource
  {
    seq(|objects|, i requires 0 <= i < |objects| => objects[i].MotionSource)
  }

  /** The motion sources of the bindings without an index, in order: the ones a tick looks up again. */
  function Unresolved(objects: seq<TrackingBinding>): seq<Name> {
    if objects == [] then []
    else
      var o := objects[|objects| - 1];
      Unresolved(objects[..|objects| - 1]) + if o.DeviceId == INDEX_NONE then [o.MotionSource] else []
  }

  /** A tick's lazy resolution: an unresolved binding asks again, a known index is kept. */
  function Resolved(o: TrackingBinding, resolve: Name -> int): (r: TrackingBinding)
    ensures r.MotionSource == o.MotionSource && r.AttachedComponent == o.AttachedComponent
    ensures o.DeviceId != INDEX_NONE ==> r.DeviceId == o.DeviceId
    ensures o.DeviceId == INDEX_NONE ==> r.DeviceId == resolve(o.MotionSource)
  {
    if o.DeviceId == INDEX_NONE then o.(DeviceId := resolve(o.MotionSource)) else o
  }

  /** The placements a tick makes: one per binding whose index is known after resolution, in order. */
  function Placements(objects: seq<TrackingBinding>): (moves: seq<Placement>)
    ensures |moves| <= |objects|
  {
    if objects == [] then []
    else
      var o := objects[|objects| - 1];
      Placements(objects[..|objects| - 1]) + if o.DeviceId == INDEX_NONE then [] else [Placement(o.AttachedComponent, o.DeviceId)]
  }

  /**
   * The tick loop after `i` bindings: those resolved against the cache the
   * pass started with and placed, the rest as they were; the cache holds
   * what the lookups so far wrote.
   */
  ghost predicate TickedSoFar(listed: seq<TrackingBinding>, current: seq<TrackingBinding>, i: int, moves: seq<Placement>,
                              cache0: map<Name, Binding>, cache: map<Name, Binding>, poses: PoseSource, devices: seq<Device>) {
    && ListTicked(listed, current, i, moves, SourceResolver(cache0, poses, devices))
    && cache == ResolveAll(cache0, Unresolved(listed[..i]), poses, devices)
  }

  /** The list part of the tick loop's state: the first `i` bindings resolved and placed, the rest as they were. */
  ghost predicate ListTicked(listed: seq<TrackingBinding>, current: seq<TrackingBinding>, i: int, moves: seq<Placement>,
                             resolve: Name -> int) {
    0 <= i <= |current| == |listed|
    && (forall j :: 0 <= j < i ==> current[j] == Resolved(listed[j], resolve))
    && (forall j :: i <= j < |listed| ==> current[j] == listed[j])
    && moves == Placements(current[..i])
  }

  lemma ListTickStep(listed: seq<TrackingBinding>, current: seq<TrackingBinding>, i: int, moves: seq<Placement>,
                     resolve: Name -> int)
    requires ListTicked(listed, current, i, moves, resolve) && i < |listed|
    ensures var b := Resolved(listed[i], resolve);
            ListTicked(listed, current[i := b], i + 1,
                       moves + (if b.DeviceId == INDEX_NONE then [] else [Placement(b.AttachedComponent, b.DeviceId)]), resolve)
  {
    var b := Resolved(listed[i], resolve);
    var next := current[i := b];
    var done := next[..i + 1];
    assert done[..i] == current[..i] && done[i] == b;
  }

  lemma TickStep(listed: seq<TrackingBinding>, current: seq<TrackingBinding>, i: int, moves: seq<Placement>,
                 cache0: map<Name, Binding>, cache: map<Name, Binding>, poses: PoseSource, devices: seq<Device>)
    requires TickedSoFar(listed, current, i, moves, cache0, cache, poses, devices) && i < |listed|
    ensures var b := Resolved(listed[i], SourceResolver(cache0, poses, devices));
            var o := listed[i];
            TickedSoFar(listed, current[i := b], i + 1,
                        moves + (if b.DeviceId == INDEX_NONE then [] else [Placement(b.AttachedComponent, b.DeviceId)]),
                        cache0,
                        if o.DeviceId == INDEX_NONE
                        then SourceLookup(cache, o.MotionSource, true, Other, poses(o.MotionSource), devices).setup
                        else cache,
                        poses, devices)
    ensures listed[i].DeviceId == INDEX_NONE ==>
              SourceLookup(cache, listed[i].MotionSource, true, Other, poses(listed[i].MotionSource), devices).id
              == SourceId(cache0, listed[i].MotionSource, poses, devices)
  {
    ListTickStep(listed, current, i, moves, SourceResolver(cache0, poses, devices));
    TickCacheStep(listed, i, cache0, cache, poses, devices);
  }

  /** The cache part of one turn of the tick loop. */
  lemma TickCacheStep(listed: seq<TrackingBinding>, i: int, cache0: map<Name, Binding>, cache: map<Name, Binding>,
                      poses: PoseSource, devices: seq<Device>)
    requires 0 <= i < |listed| && cache == ResolveAll(cache0, Unresolved(listed[..i]), poses, devices)
    ensures var o := listed[i];
            (if o.DeviceId == INDEX_NONE then SourceLookup(cache, o.MotionSource, true, Other, poses(o.MotionSource), devices).setup
             else cache)
            == ResolveAll(cache0, Unresolved(listed[..i + 1]), poses, devices)
    ensures listed[i].DeviceId == INDEX_NONE ==>
              SourceLookup(cache, listed[i].MotionSource, true, Other, poses(listed[i].MotionSource), devices).id
              == SourceId(cache0, listed[i].MotionSource, poses, devices)
  {
    var u := Unresolved(listed[..i]);
    var x := listed[i].MotionSource;
    ResolveAllKeepsIds(cache0, u, poses, devices, x);
    UnresolvedStep(listed, i);
    if listed[i].DeviceId == INDEX_NONE {
      var v := u + [x];
      assert v[..|v| - 1] == u && v[|v| - 1] == x;
      assert ResolveAll(cache0, v, poses, devices) == SourceLookup(cache, x, true, Other, poses(x), devices).setup;
    } else {
      assert u + [] == u;
    }
  }

  /** One more binding adds its source to the unresolved ones exactly when its index is unknown. */
  lemma UnresolvedStep(listed: seq<TrackingBinding>, i: int)
    requires 0 <= i < |listed|
    ensures Unresolved(listed[..i + 1])
            == Unresolved(listed[..i]) + if listed[i].DeviceId == INDEX_NONE then [listed[i].MotionSource] else []
  {
    assert listed[..i + 1][..i] == listed[..i];
  }

  lemma TickDone(listed: seq<TrackingBinding>, current: seq<TrackingBinding>, moves: seq<Placement>,
                 cache0: map<Name, Binding>, cache: map<Name, Binding>, poses: PoseSource, devices: seq<Device>)
    requires TickedSoFar(listed, current, |listed|, moves, cache0, cache, poses, devices)
    ensures |current| == |listed|
    ensures forall j :: 0 <= j < |listed| ==> current[j] == Resolved(listed[j], SourceResolver(cache0, poses, devices))
    ensures moves == Placements(current)
    ensures cache == ResolveAll(cache0, Unresolved(listed), poses, devices)
  {
    assert current[..|current|] == current;
    assert listed[..|listed|] == listed;
  }

  /** The cache a rebuild starts from: the chosen asset's bindings when one is set, otherwise the cache as it was. */
  ghost predicate Installs(before: map<Name, Binding>, setup: TrackingSetupAsset?, after: map<Name, Binding>)
    reads setup
  {
    (setup == null ==> after == before)
    && (setup != null ==>
          exists keys :: Enumerates(keys, setup.deviceSetup) && after == NamesFromArray(ValuesInOrder(setup.deviceSetup, keys)))
  }

  class EditorSteamVRController {
    var steamVRTrackingSetup: TrackingSetupAsset?
    var trackedObjects: seq<TrackedEntry>
    var isEnabled: bool
    var objectsToUpdate: seq<TrackingBinding>

    constructor ()
      ensures steamVRTrackingSetup == null && trackedObjects == [] && !isEnabled && objectsToUpdate == []
    {
      steamVRTrackingSetup := null;
      trackedObjects := [];
      isEnabled := false;
      objectsToUpdate := [];
    }

    /** The list can be used as it is: one binding per entry, at least one, every component alive. */
    predicate UpToDate(alive: set<ComponentRef>)
      reads this
    {
      |trackedObjects| == |objectsToUpdate| && |trackedObjects| > 0
      && forall i :: 0 <= i < |objectsToUpdate| ==> objectsToUpdate[i].AttachedComponent in alive
    }

    /** The first usable component with a wanted name in an actor, as the component scan finds it. */
    static method FindTarget(components: seq<Component>, name: Name) returns (newTarget: Option<ComponentRef>)
      ensures newTarget == Target(components, name)
    {
      newTarget := None;
      var i := 0;
      while i < |components|
        invariant 0 <= i <= |components|
        invariant forall j :: 0 <= j < i ==> !SameName(components[j].name, name)
      {
        if SameName(components[i].name, name) {
          newTarget := if components[i].isSceneComponent then Some(components[i].ref) else None;
          assert FirstNamed(components, name) == i;
          return;
        }
        i := i + 1;
      }
    }

    /**
     * Installs the chosen setup asset in the name cache, if one is set, and
     * rebuilds the binding list from the table, resolving each usable
     * entry's motion source against the cache; the lookups of friendly
     * names write their indices back to the cache.
     */
    method UpdateObjectsList(lib: TrackingLibModule, poses: PoseSource, devices: seq<Device>)
      returns (ghost installed: map<Name, Binding>)
      modifies this`objectsToUpdate, lib
      ensures Installs(old(lib.deviceSetup), steamVRTrackingSetup, installed)
      ensures objectsToUpdate == ObjectsList(trackedObjects, SourceResolver(installed, poses, devices))
      ensures lib.deviceSetup == ResolveAll(installed, Sources(objectsToUpdate), poses, devices)
    {
      if steamVRTrackingSetup != null {
        var _ := SetSteamVRTrackingSetup(lib, steamVRTrackingSetup);
      }
      installed := lib.deviceSetup;
      objectsToUpdate := [];
      var i := 0;
      while i < |trackedObjects|
        invariant 0 <= i <= |trackedObjects|
        invariant objectsToUpdate == ObjectsList(trackedObjects[..i], SourceResolver(installed, poses, devices))
        invariant lib.deviceSetup == ResolveAll(installed, Sources(objectsToUpdate), poses, devices)
      {
        var objectDesc := trackedObjects[i];
        assert trackedObjects[..i + 1][..i] == trackedObjects[..i];
        if objectDesc.value.actorComponents.Some? && !IsNone(objectDesc.key) {
          var newTarget := FindTarget(objectDesc.value.actorComponents.value, objectDesc.value.componentName);
          if newTarget.Some? {
            ResolveAllKeepsIds(installed, Sources(objectsToUpdate), poses, devices, objectDesc.key);
            var trackerId := GetDeviceIdByMotionSource(lib, objectDesc.key, true, Other, poses(objectDesc.key), devices);
            var newBinding := TrackingBinding(trackerId, objectDesc.key, newTarget.value);
            assert Sources(objectsToUpdate + [newBinding])[..|objectsToUpdate|] == Sources(objectsToUpdate);
            objectsToUpdate := objectsToUpdate + [newBinding];
          }
        }
        i := i + 1;
      }
      assert trackedObjects[..i] == trackedObjects;
    }

    /** Checks that every bound component is still alive. */
    method AllAttachedAlive(alive: set<ComponentRef>) returns (validRefs: bool)
      ensures validRefs <==> forall i :: 0 <= i < |objectsToUpdate| ==> objectsToUpdate[i].AttachedComponent in alive
    {
      validRefs := true;
      var i := 0;
      while i < |objectsToUpdate|
        invariant 0 <= i <= |objectsToUpdate|
        invariant forall j :: 0 <= j < i ==> objectsToUpdate[j].AttachedComponent in alive
      {
        if objectsToUpdate[i].AttachedComponent !in alive {
          validRefs := false;
          break;
        }
        i := i + 1;
      }
    }

    /**
     * Keeps a usable list as it is and rebuilds any other; the answer says
     * whether the list now has one binding per entry and at least one.
     */
    method EnsureUpdated(lib: TrackingLibModule, poses: PoseSource, devices: seq<Device>, alive: set<ComponentRef>)
      returns (ok: bool, ghost installed: map<Name, Binding>)
      modifies this`objectsToUpdate, lib
      ensures MadeUsable(old(UpToDate(alive)), old(objectsToUpdate), old(lib.deviceSetup), this, lib, poses, devices, installed, ok)
    {
      installed := lib.deviceSetup;
      var validNum := |trackedObjects| == |objectsToUpdate| && |trackedObjects| > 0;
      var validRefs := true;
      if validNum {
        validRefs := AllAttachedAlive(alive);
      }
      if validNum && validRefs {
        return true, installed;
      }
      installed := UpdateObjectsList(lib, poses, devices);
      ok := |trackedObjects| == |objectsToUpdate| && |trackedObjects| > 0;
    }

    /**
     * One frame: when enabled, the list is made usable, every unresolved
     * binding looks its index up again, and every binding with a known
     * index has its component placed at that device. Disabled, nothing
     * happens. `passCache` is the cache the per-binding pass starts from.
     */
    method Tick(lib: TrackingLibModule, poses: PoseSource, devices: seq<Device>, alive: set<ComponentRef>)
      returns (moves: seq<Placement>, ghost listed: seq<TrackingBinding>, ghost installed: map<Name, Binding>,
               ghost passCache: map<Name, Binding>)
      modifies this`objectsToUpdate, lib
      ensures !old(isEnabled) ==> moves == [] && objectsToUpdate == old(objectsToUpdate) && lib.deviceSetup == old(lib.deviceSetup)
      ensures old(isEnabled) ==>
                (old(UpToDate(alive)) ==> listed == old(objectsToUpdate) && passCache == old(lib.deviceSetup))
                && (!old(UpToDate(alive)) ==>
                      Installs(old(lib.deviceSetup), steamVRTrackingSetup, installed)
                      && listed == ObjectsList(trackedObjects, SourceResolver(installed, poses, devices))
                      && passCache == ResolveAll(installed, Sources(listed), poses, devices))
      ensures old(isEnabled) ==>
                |objectsToUpdate| == |listed|
                && (forall i :: 0 <= i < |listed| ==> objectsToUpdate[i] == Resolved(listed[i], SourceResolver(passCache, poses, devices)))
                && lib.deviceSetup == ResolveAll(passCache, Unresolved(listed), poses, devices)
                && moves == Placements(objectsToUpdate)
    {
      moves, listed, installed, passCache := [], objectsToUpdate, lib.deviceSetup, lib.deviceSetup;
      if !isEnabled {
        return;
      }
      var _, inst := EnsureUpdated(lib, poses, devices, alive);
      installed := inst;
      listed, passCache := objectsToUpdate, lib.deviceSetup;
      moves := ResolveAndPlace(lib, poses, devices);
    }

    /**
     * The per-binding pass of a tick: each binding without an index looks
     * it up again, in place, and each binding with an index places its
     * component at that device.
     */
    method ResolveAndPlace(lib: TrackingLibModule, poses: PoseSource, devices: seq<Device>) returns (moves: seq<Placement>)
      modifies this`objectsToUpdate, lib
      ensures |objectsToUpdate| == |old(objectsToUpdate)|
      ensures forall i :: 0 <= i < |objectsToUpdate| ==>
                objectsToUpdate[i] == Resolved(old(objectsToUpdate)[i], SourceResolver(old(lib.deviceSetup), poses, devices))
      ensures lib.deviceSetup == ResolveAll(old(lib.deviceSetup), Unresolved(old(objectsToUpdate)), poses, devices)
      ensures moves == Placements(objectsToUpdate)
    {
      moves := [];
      ghost var listed := objectsToUpdate;
      ghost var cache0 := lib.deviceSetup;
      var i := 0;
      while i < |objectsToUpdate|
        invariant TickedSoFar(listed, objectsToUpdate, i, moves, cache0, lib.deviceSetup, poses, devices)
      {
        TickStep(listed, objectsToUpdate, i, moves, cache0, lib.deviceSetup, poses, devices);
        var binding := objectsToUpdate[i];
        if binding.DeviceId == INDEX_NONE {
          var id := GetDeviceIdByMotionSource(lib, binding.MotionSource, true, Other, poses(binding.MotionSource), devices);
          binding := binding.(DeviceId := id);
          objectsToUpdate := objectsToUpdate[i := binding];
          if binding.DeviceId == INDEX_NONE {
            i := i + 1;
            continue;
          }
        } else {
          assert objectsToUpdate[i := binding] == objectsToUpdate;
        }
        moves := moves + [Placement(binding.AttachedComponent, binding.DeviceId)];
        i := i + 1;
      }
      TickDone(listed, objectsToUpdate, moves, cache0, lib.deviceSetup, poses, devices);
    }

    /** The current binding list. */
    method GetUpdatedObjects() returns (objects: seq<TrackingBinding>)
      ensures objects == objectsToUpdate
    {
      objects := objectsToUpdate;
    }
  }

  /**
   * What EnsureUpdated leaves, given the state before it: a usable list and
   * the cache are kept; otherwise the cache is installed, the list rebuilt
   * against it, and the answer says whether the list has one binding per
   * entry and at least one.
   */
  ghost predicate MadeUsable(wasUsable: bool, objects0: seq<TrackingBinding>, cache0: map<Name, Binding>,
                             c: EditorSteamVRController, lib: TrackingLibModule, poses: PoseSource, devices: seq<Device>,
                             installed: map<Name, Binding>, ok: bool)
    reads c, c.steamVRTrackingSetup, lib
  {
    (wasUsable ==> ok && c.objectsToUpdate == objects0 && lib.deviceSetup == cache0 && installed == cache0)
    && (!wasUsable ==>
          Installs(cache0, c.steamVRTrackingSetup, installed)
          && c.objectsToUpdate == ObjectsList(c.trackedObjects, SourceResolver(installed, poses, devices))
          && lib.deviceSetup == ResolveAll(installed, Sources(c.objectsToUpdate), poses, devices)
          && ok == (|c.trackedObjects| == |c.objectsToUpdate| && |c.trackedObjects| > 0))
  }

  /**
   * In the tick that rebuilds the list, looking up an unresolved binding
   * again gives the same answer: no binding of a rebuilt list changes.
   */
  lemma {:induction false} RebuiltListSettled(entries: seq<TrackedEntry>, installed: map<Name, Binding>,
                                              poses: PoseSource, devices: seq<Device>)
    ensures var listed := ObjectsList(entries, SourceResolver(installed, poses, devices));
            var passCache := ResolveAll(installed, Sources(listed), poses, devices);
            forall i :: 0 <= i < |listed| ==> Resolved(listed[i], SourceResolver(passCache, poses, devices)) == listed[i]
  {
    var resolve := SourceResolver(installed, poses, devices);
    var listed := ObjectsList(entries, resolve);
    var passCache := ResolveAll(installed, Sources(listed), poses, devices);
    forall i | 0 <= i < |listed|
      ensures Resolved(listed[i], SourceResolver(passCache, poses, devices)) == listed[i]
    {
      ObjectsListMembers(entries, resolve, listed[i]);
      var e :| 0 <= e < |entries| && BindingFor(entries[e], resolve) == Some(listed[i]);
      ResolveAllKeepsIds(installed, Sources(listed), poses, devices, listed[i].MotionSource);
    }
  }

  /** A tick never asks again for an index it already knows, and keeps every binding's source and component. */
  lemma KnownIdsKept(listed: seq<TrackingBinding>, ticked: seq<TrackingBinding>, resolve: Name -> int)
    requires |ticked| == |listed| && forall i :: 0 <= i < |listed| ==> ticked[i] == Resolved(listed[i], resolve)
    ensures forall i :: 0 <= i < |listed| && listed[i].DeviceId != INDEX_NONE ==> ticked[i] == listed[i]
  {
  }
}
