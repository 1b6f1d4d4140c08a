/**
 * The tracked-device scene component (USteamVRTrackedDeviceComponent): it
 * follows one device named by a motion source or a friendly name, refreshes
 * a friendly name's device index on a timer, and tracks the load state of
 * the device model it displays.
 *
 * The clock, net ownership, the module manager, motion-controller poses,
 * the live devices and the pose query of a device index are inputs;
 * orientation and the render-thread copy of the transform are left out.
 */
module TrackedDeviceComponent {
  import opened Opt
  import opened Names
  import opened TrackingSetup
  import opened DeviceRuntime
  import opened TrackingLib
  import opened BPLibrary

  // ---------------------------------------------------------------------
  // Id refresh schedule

  /**
   * Whether a poll by friendly name forces the index to be looked up again:
   * with a positive interval once the refresh time has passed, with a zero
   * interval always, with a negative interval never.
   */
  predicate ForceUpdateId(interval: real, nextIdUpdateTime: real, currentTime: real): (force: bool)
    ensures interval > 0.0 ==> (force <==> currentTime > nextIdUpdateTime)
    ensures interval == 0.0 ==> force
    ensures interval < 0.0 ==> !force
  {
    (interval > 0.0 && currentTime > nextIdUpdateTime) || interval == 0.0
  }

  /** The next refresh time after a poll by friendly name. */
  function NextIdUpdateTime(interval: real, nextIdUpdateTime: real, currentTime: real): (next: real)
    ensures interval > 0.0 && currentTime > nextIdUpdateTime ==> next == currentTime + interval
    ensures !(interval > 0.0 && currentTime > nextIdUpdateTime) ==> next == nextIdUpdateTime
  {
    if interval > 0.0 && currentTime > nextIdUpdateTime then currentTime + interval else nextIdUpdateTime
  }

  /**
   * With a positive interval, a forced refresh is not followed by another
   * until the interval has elapsed.
   */
  lemma ForcedAtMostOncePerInterval(interval: real, nextIdUpdateTime: real, t1: real, t2: real)
    requires interval > 0.0 && ForceUpdateId(interval, nextIdUpdateTime, t1)
    requires t2 <= t1 + interval
    ensures !ForceUpdateId(interval, NextIdUpdateTime(interval, nextIdUpdateTime, t1), t2)
  {
  }

  /** With a positive interval, a poll after the interval has elapsed forces a refresh again. */
  lemma ForcedAgainAfterInterval(interval: real, nextIdUpdateTime: real, t1: real, t2: real)
    requires interval > 0.0 && ForceUpdateId(interval, nextIdUpdateTime, t1)
    requires t2 > t1 + interval
    ensures ForceUpdateId(interval, NextIdUpdateTime(interval, nextIdUpdateTime, t1), t2)
  {
  }

  /** With a negative interval the schedule never forces and never moves. */
  lemma NegativeIntervalNeverForces(interval: real, nextIdUpdateTime: real, currentTime: real)
    requires interval < 0.0
    ensures !ForceUpdateId(interval, nextIdUpdateTime, currentTime)
    ensures NextIdUpdateTime(interval, nextIdUpdateTime, currentTime) == nextIdUpdateTime
  {
  }

  // ---------------------------------------------------------------------
  // Showing the device model

  /** What SetShowDeviceModel does once the flag has changed. */
  datatype ShowAction =
    | RefreshForceDestroy         // editor instance: rebuild the display component from scratch
    | SetHiddenInGame(hidden: bool)
    | Refresh                     // no display component yet: refresh without destroying
    | NoAction

  /** SetShowDeviceModel as written: a display component is hidden when the model is to be shown. */
  function ShowActionAsWritten(show: bool, isGameInstance: bool, hasDisplayComponent: bool): (a: ShowAction)
    ensures a.SetHiddenInGame? ==> a.hidden == show
    ensures isGameInstance && !hasDisplayComponent ==> (a == Refresh <==> !show)
    ensures a == RefreshForceDestroy <==> !isGameInstance
  {
    if !isGameInstance then RefreshForceDestroy
    else if hasDisplayComponent then SetHiddenInGame(show)
    else if !show then Refresh
    else NoAction
  }

  /** Showing the model with a display component present hides it. */
  lemma ShowingHidesAsWritten()
    ensures ShowActionAsWritten(true, true, true) == SetHiddenInGame(true)
    ensures ShowActionAsWritten(true, true, false) == NoAction
  {
  }

  /** The evidently intended rule: the component is hidden exactly when the model is not shown, and created when shown. */
  function ShowActionCorrected(show: bool, isGameInstance: bool, hasDisplayComponent: bool): (a: ShowAction)
    ensures a.SetHiddenInGame? ==> a.hidden == !show
    ensures isGameInstance && !hasDisplayComponent ==> (a == Refresh <==> show)
  {
    if !isGameInstance then RefreshForceDestroy
    else if hasDisplayComponent then SetHiddenInGame(!show)
    else if show then Refresh
    else NoAction
  }

  // ---------------------------------------------------------------------
  // The component

  datatype ModelLoadStatus = Unloaded | Pending | InProgress | Complete

  type MaterialRef = nat

  /** The primitive component that displays the device model. */
  class DisplayPrimitive {
    var materials: array<MaterialRef>
    var hiddenInGame: bool

    constructor (initialMaterials: array<MaterialRef>)
      ensures materials == initialMaterials && !hiddenInGame
    {
      materials := initialMaterials;
      hiddenInGame := false;
    }
  }

  class SteamVRTrackedDeviceComponent {
    var trackedDeviceName: Name
    var trackedDeviceNameIsMotionSource: bool
    var steamVRIdUpdateInterval: real
    var nextIdUpdateTime: real
    var hasAuthority: bool
    var trackingLibModule: TrackingLibModule?
    var tracked: bool
    var displayDeviceModel: bool
    var displayMeshMaterialOverrides: seq<MaterialRef>
    var displayComponent: DisplayPrimitive?
    var displayModelLoadState: ModelLoadStatus
    var relativeLocation: Vec3

    /** The defaults: follows "Right", refreshes a friendly name's index every 5 seconds. */
    constructor ()
      ensures trackedDeviceName == "Right" && trackedDeviceNameIsMotionSource
      ensures steamVRIdUpdateInterval == 5.0 && nextIdUpdateTime == 0.0
      ensures !hasAuthority && trackingLibModule == null && !tracked && !displayDeviceModel
      ensures displayMeshMaterialOverrides == [] && displayComponent == null && displayModelLoadState == Unloaded
    {
      trackedDeviceName := "Right";
      trackedDeviceNameIsMotionSource := true;
      steamVRIdUpdateInterval := 5.0;
      nextIdUpdateTime := 0.0;
      hasAuthority := false;
      trackingLibModule := null;
      tracked := false;
      displayDeviceModel := false;
      displayMeshMaterialOverrides := [];
      displayComponent := null;
      displayModelLoadState := Unloaded;
      relativeLocation := Vec3(0.0, 0.0, 0.0);
    }

    /** The default name is classified correctly from the start. */
    lemma DefaultIsMotionSource()
      ensures IsMotionSource("Right")
    {
      assert SameName("Right", "Right");
    }

    /** BeginPlay: the motion-source flag is recomputed from the name. */
    method BeginPlay()
      modifies this`trackedDeviceNameIsMotionSource
      ensures trackedDeviceNameIsMotionSource == IsMotionSource(trackedDeviceName)
    {
      trackedDeviceNameIsMotionSource := SameName(trackedDeviceName, "Right") || SameName(trackedDeviceName, "Left")
                                         || SameName(Left(trackedDeviceName, 8), "Special_");
    }

    /** SetTrackedDeviceName: a new name and its classification. */
    method SetTrackedDeviceName(newSource: Name)
      modifies this`trackedDeviceName, this`trackedDeviceNameIsMotionSource
      ensures trackedDeviceName == newSource
      ensures trackedDeviceNameIsMotionSource == IsMotionSource(newSource)
    {
      trackedDeviceName := newSource;
      trackedDeviceNameIsMotionSource := SameName(trackedDeviceName, "Right") || SameName(trackedDeviceName, "Left")
                                         || SameName(Left(trackedDeviceName, 8), "Special_");
    }

    /**
     * PollControllerState: without net authority or without the tracking
     * module nothing is tracked; otherwise the device index comes from the
     * motion-source rules or from the friendly-name cache, refreshed on the
     * schedule, and the device is tracked when the index is known and its
     * pose can be read. `loadable` is the module the module manager hands out
     * (null when it cannot load it).
     */
    method PollControllerState(localNetOwner: bool, loadable: TrackingLibModule?, currentTime: real,
                               poses: seq<Option<Vec3>>, devices: seq<Device>, devicePose: int -> Option<Vec3>)
      returns (newTracked: bool, position: Vec3, ghost deviceId: int)
      modifies this`hasAuthority, this`trackingLibModule, this`nextIdUpdateTime
      modifies if trackingLibModule != null then {trackingLibModule} else if loadable != null then {loadable} else {}
      ensures hasAuthority == localNetOwner
      ensures !localNetOwner ==> !newTracked && trackingLibModule == old(trackingLibModule)
                                 && nextIdUpdateTime == old(nextIdUpdateTime)
                                 && (trackingLibModule != null ==> trackingLibModule.deviceSetup == old(trackingLibModule.deviceSetup))
      ensures localNetOwner ==> trackingLibModule == (if old(trackingLibModule) != null then old(trackingLibModule) else loadable)
      ensures localNetOwner && trackingLibModule == null ==> !newTracked && nextIdUpdateTime == old(nextIdUpdateTime)
      ensures localNetOwner && trackingLibModule != null && trackedDeviceNameIsMotionSource ==>
                nextIdUpdateTime == old(nextIdUpdateTime)
      ensures localNetOwner && trackingLibModule != null && trackedDeviceNameIsMotionSource && IsMotionSource(trackedDeviceName) ==>
                var lib := trackingLibModule;
                deviceId == MotionSourceId(trackedDeviceName, true, Invalid, poses, devices)
                && lib.deviceSetup == old(lib.deviceSetup)
      ensures localNetOwner && trackingLibModule != null && trackedDeviceNameIsMotionSource && !IsMotionSource(trackedDeviceName) ==>
                var lib := trackingLibModule;
                Lookup(deviceId, lib.deviceSetup) == ResolveByName(old(lib.deviceSetup), trackedDeviceName, false, devices)
      ensures localNetOwner && trackingLibModule != null && !trackedDeviceNameIsMotionSource ==>
                var lib := trackingLibModule;
                nextIdUpdateTime == NextIdUpdateTime(steamVRIdUpdateInterval, old(nextIdUpdateTime), currentTime)
                && Lookup(deviceId, lib.deviceSetup)
                   == ResolveByName(old(lib.deviceSetup), trackedDeviceName,
                                    ForceUpdateId(steamVRIdUpdateInterval, old(nextIdUpdateTime), currentTime), devices)
      ensures newTracked <==> localNetOwner && trackingLibModule != null && deviceId != INDEX_NONE && devicePose(deviceId).Some?
      ensures newTracked ==> position == devicePose(deviceId).value
    {
      deviceId := INDEX_NONE;
      position := Vec3(0.0, 0.0, 0.0);
      hasAuthority := localNetOwner;
      if !hasAuthority {
        return false, position, deviceId;
      }
      if trackingLibModule == null {
        trackingLibModule := loadable;
        if trackingLibModule == null {
          return false, position, deviceId;
        }
      }
      var id := INDEX_NONE;
      if trackedDeviceNameIsMotionSource {
        id := GetDeviceIdByMotionSource(trackingLibModule, trackedDeviceName, true, Invalid, poses, devices);
      } else {
        var forceUpdateId := false;
        if steamVRIdUpdateInterval > 0.0 {
          if currentTime > nextIdUpdateTime {
            nextIdUpdateTime := currentTime + steamVRIdUpdateInterval;
            forceUpdateId := true;
          }
        } else if steamVRIdUpdateInterval == 0.0 {
          forceUpdateId := true;
        }
        id := trackingLibModule.GetTrackedDeviceIdByName(trackedDeviceName, forceUpdateId, devices);
      }
      deviceId := id;
      if id == INDEX_NONE {
        return false, position, deviceId;
      }
      match devicePose(id)
      case Some(p) =>
        newTracked, position := true, p;
      case None =>
        newTracked := false;
    }
  
    /**
     * TickComponent: an active component polls its device, moves to the
     * device's location when tracked, and asks for its display model to be
     * rebuilt when tracking has just begun and the model is displayed.
     */
    method TickComponent(isActive: bool, localNetOwner: bool, loadable: TrackingLibModule?, currentTime: real,
                         poses: seq<Option<Vec3>>, devices: seq<Device>, devicePose: int -> Option<Vec3>)
      returns (refreshDisplay: bool, ghost deviceId: int)
      modifies this`hasAuthority, this`trackingLibModule, this`nextIdUpdateTime, this`tracked, this`relativeLocation
      modifies if trackingLibModule != null then {trackingLibModule} else if loadable != null then {loadable} else {}
      ensures !isActive ==> !refreshDisplay && tracked == old(tracked) && relativeLocation == old(relativeLocation)
                            && trackingLibModule == old(trackingLibModule) && nextIdUpdateTime == old(nextIdUpdateTime)
                            && hasAuthority == old(hasAuthority)
                            && (trackingLibModule != null ==> trackingLibModule.deviceSetup == old(trackingLibModule.deviceSetup))
      ensures isActive ==> hasAuthority == localNetOwner
      ensures isActive && !localNetOwner ==> trackingLibModule == old(trackingLibModule)
                                             && nextIdUpdateTime == old(nextIdUpdateTime)
                                             && (trackingLibModule != null ==> trackingLibModule.deviceSetup == old(trackingLibModule.deviceSetup))
      ensures isActive && localNetOwner ==>
                trackingLibModule == (if old(trackingLibModule) != null then old(trackingLibModule) else loadable)
      ensures isActive && localNetOwner && trackingLibModule == null ==> nextIdUpdateTime == old(nextIdUpdateTime)
      ensures isActive && localNetOwner && trackingLibModule != null && trackedDeviceNameIsMotionSource ==>
                nextIdUpdateTime == old(nextIdUpdateTime)
      ensures isActive && localNetOwner && trackingLibModule != null && trackedDeviceNameIsMotionSource
              && IsMotionSource(trackedDeviceName) ==>
                var lib := trackingLibModule;
                deviceId == MotionSourceId(trackedDeviceName, true, Invalid, poses, devices)
                && lib.deviceSetup == old(lib.deviceSetup)
      ensures isActive && localNetOwner && trackingLibModule != null && trackedDeviceNameIsMotionSource
              && !IsMotionSource(trackedDeviceName) ==>
                var lib := trackingLibModule;
                Lookup(deviceId, lib.deviceSetup) == ResolveByName(old(lib.deviceSetup), trackedDeviceName, false, devices)
      ensures isActive && localNetOwner && trackingLibModule != null && !trackedDeviceNameIsMotionSource ==>
                var lib := trackingLibModule;
                nextIdUpdateTime == NextIdUpdateTime(steamVRIdUpdateInterval, old(nextIdUpdateTime), currentTime)
                && Lookup(deviceId, lib.deviceSetup)
                   == ResolveByName(old(lib.deviceSetup), trackedDeviceName,
                                    ForceUpdateId(steamVRIdUpdateInterval, old(nextIdUpdateTime), currentTime), devices)
      ensures isActive ==> refreshDisplay == (!old(tracked) && tracked && displayDeviceModel)
      ensures isActive ==> (tracked <==> localNetOwner && trackingLibModule != null && deviceId != INDEX_NONE
                                         && devicePose(deviceId).Some?)
      ensures isActive && tracked ==> relativeLocation == devicePose(deviceId).value
      ensures isActive && !tracked ==> relativeLocation == old(relativeLocation)
    {
      refreshDisplay := false;
      deviceId := INDEX_NONE;
      if isActive {
        var newTrackedState, position;
        newTrackedState, position, deviceId := PollControllerState(localNetOwner, loadable, currentTime, poses, devices, devicePose);
        if newTrackedState {
          relativeLocation := position;
        }
        refreshDisplay := !tracked && newTrackedState && displayDeviceModel;
        tracked := newTrackedState;
      }
    }

    /**
     * SetShowDeviceModel: nothing happens when the flag already has the
     * value; otherwise the flag changes and the display is updated by the
     * corrected rule ShowActionCorrected (the source passes the flag to
     * SetHiddenInGame un-negated, see ShowActionAsWritten). Returns the
     * refresh requested, if any: Some(forceDestroy).
     */
    method SetShowDeviceModel(showDeviceModel: bool, isGameInstance: bool) returns (refresh: Option<bool>)
      modifies this`displayDeviceModel, displayComponent
      ensures old(displayDeviceModel) == showDeviceModel ==>
                refresh == None && displayDeviceModel == old(displayDeviceModel)
                && (displayComponent != null ==> displayComponent.hiddenInGame == old(displayComponent.hiddenInGame))
      ensures old(displayDeviceModel) != showDeviceModel ==>
                displayDeviceModel == showDeviceModel
                && var action := ShowActionCorrected(showDeviceModel, isGameInstance, displayComponent != null);
                   (action.SetHiddenInGame? ==> displayComponent.hiddenInGame == action.hidden)
                   && (!action.SetHiddenInGame? && displayComponent != null ==>
                         displayComponent.hiddenInGame == old(displayComponent.hiddenInGame))
                   && refresh == match action
                                 case RefreshForceDestroy => Some(true)
                                 case Refresh => Some(false)
                                 case _ => None
      ensures old(displayDeviceModel) != showDeviceModel && isGameInstance && displayComponent != null ==>
                displayComponent.hiddenInGame == !showDeviceModel
      ensures displayComponent != null ==> displayComponent.materials == old(displayComponent.materials)
    {
      refresh := None;
      if displayDeviceModel != showDeviceModel {
        displayDeviceModel := showDeviceModel;
        if !isGameInstance {
          refresh := Some(true);
        } else if displayComponent != null {
          displayComponent.hiddenInGame := !showDeviceModel;
        } else if showDeviceModel {
          refresh := Some(false);
        }
      }
    }

    /**
     * OnDisplayModelLoaded: for the current display component, or while a
     * load is pending, the loaded component takes the material overrides in
     * its first slots (as many as both have) and the load is complete;
     * otherwise nothing changes.
     */
    method OnDisplayModelLoaded(inDisplayComponent: DisplayPrimitive?)
      modifies this`displayModelLoadState
      modifies if inDisplayComponent != null then {inDisplayComponent.materials} else {}
      ensures var acted := inDisplayComponent == displayComponent || old(displayModelLoadState) == Pending;
              (acted ==> displayModelLoadState == Complete)
              && (!acted ==> displayModelLoadState == old(displayModelLoadState))
              && (inDisplayComponent != null ==>
                    var matCount := if acted then Min(inDisplayComponent.materials.Length, |displayMeshMaterialOverrides|) else 0;
                    forall i :: 0 <= i < inDisplayComponent.materials.Length ==>
                      inDisplayComponent.materials[i]
                      == if i < matCount then displayMeshMaterialOverrides[i] else old(inDisplayComponent.materials[i]))
    {
      if inDisplayComponent == displayComponent || displayModelLoadState == Pending {
        if inDisplayComponent != null {
          var materials := inDisplayComponent.materials;
          var matCount := Min(materials.Length, |displayMeshMaterialOverrides|);
          var matIndex := 0;
          while matIndex < matCount
            invariant 0 <= matIndex <= matCount
            invariant forall i :: 0 <= i < materials.Length ==>
                        materials[i] == if i < matIndex then displayMeshMaterialOverrides[i] else old(materials[i])
          {
            materials[matIndex] := displayMeshMaterialOverrides[matIndex];
            matIndex := matIndex + 1;
          }
        }
        displayModelLoadState := Complete;
      }
    }
  }
}
