/**
 * The editor motion-capture actor (AEditorViveMocapController): it fits the
 * capture rig to the body mesh's reference pose, collects the tracked
 * components of an editor tracking actor as capture inputs, and starts and
 * stops the capture.
 *
 * Rotations, vectors and transforms are left out: the rig-fitting rules
 * are kept over the dot products they compare (`Dots`) and over which
 * rotation builder they choose. The capture device's own state is given
 * as inputs where its answers decide a branch.
 */
module MocapController {
  import opened Opt
  import opened Names
  import opened TrackingSetup
  import opened DeviceRuntime
  import opened TrackingLib
  import opened EditorController

  // ---------------------------------------------------------------------
  // Axis selection

  /** EAxis::Type. */
  datatype Axis = NoAxis | X | Y | Z

  /** The dot products of a direction with a rotator's X, Y and Z axes. */
  datatype Dots = Dots(dp1: real, dp2: real, dp3: real)

  function Abs(x: real): real {
    if x < 0.0 then -x else x
  }

  datatype CoDirection = CoDirection(axis: Axis, multiplier: int)

  /** The dot product belonging to an axis (Z for any other). */
  function DotOf(d: Dots, a: Axis): real {
    match a
    case X => d.dp1
    case Y => d.dp2
    case _ => d.dp3
  }

  /**
   * FindCoDirection: the rotator axis most nearly parallel to a direction,
   * chosen by strict comparisons of |dot| (so any tie for the largest goes
   * to Z), and +1 when co-directed, -1 otherwise (a zero dot gives -1).
   */
  function FindCoDirection(d: Dots): (r: CoDirection)
    ensures r.axis == X <==> Abs(d.dp1) > Abs(d.dp2) && Abs(d.dp1) > Abs(d.dp3)
    ensures r.axis == Y <==> Abs(d.dp2) > Abs(d.dp1) && Abs(d.dp2) > Abs(d.dp3)
    ensures r.axis == Z <==> !(Abs(d.dp1) > Abs(d.dp2) && Abs(d.dp1) > Abs(d.dp3))
                             && !(Abs(d.dp2) > Abs(d.dp1) && Abs(d.dp2) > Abs(d.dp3))
    ensures r.multiplier == 1 || r.multiplier == -1
    ensures r.multiplier == 1 <==> DotOf(d, r.axis) > 0.0
  {
    if Abs(d.dp1) > Abs(d.dp2) && Abs(d.dp1) > Abs(d.dp3) then
      CoDirection(X, if d.dp1 > 0.0 then 1 else -1)
    else if Abs(d.dp2) > Abs(d.dp1) && Abs(d.dp2) > Abs(d.dp3) then
      CoDirection(Y, if d.dp2 > 0.0 then 1 else -1)
    else
      CoDirection(Z, if d.dp3 > 0.0 then 1 else -1)
  }

  /** A tie for the largest |dot| goes to Z, even when Z's own |dot| is smaller. */
  lemma TieGoesToZ(d: Dots)
    requires (Abs(d.dp1) == Abs(d.dp2) && Abs(d.dp1) >= Abs(d.dp3))
             || (Abs(d.dp1) == Abs(d.dp3) && Abs(d.dp1) >= Abs(d.dp2))
             || (Abs(d.dp2) == Abs(d.dp3) && Abs(d.dp2) >= Abs(d.dp1))
    ensures FindCoDirection(d).axis == Z
  {
  }

  // ---------------------------------------------------------------------
  // Rotator construction by two axes

  /** Which FRotationMatrix::MakeFrom** builder is used, or none (the rotator stays unset). */
  datatype RotBuilder = FromXY | FromXZ | FromYX | FromYZ | FromZX | FromZY | Unset

  function BuilderMain(b: RotBuilder): Axis {
    match b
    case FromXY => X case FromXZ => X
    case FromYX => Y case FromYZ => Y
    case FromZX => Z case FromZY => Z
    case Unset => NoAxis
  }

  function BuilderSecondary(b: RotBuilder): Axis {
    match b
    case FromYX => X case FromZX => X
    case FromXY => Y case FromZY => Y
    case FromXZ => Z case FromYZ => Z
    case Unset => NoAxis
  }

  /**
   * MakeRotByTwoAxes: the builder for the ordered pair (main, secondary) of
   * two different real axes; any other pair builds nothing.
   */
  function MakeRotByTwoAxes(mainAxis: Axis, secondaryAxis: Axis): (b: RotBuilder)
    ensures b == Unset <==> mainAxis == secondaryAxis || mainAxis == NoAxis || secondaryAxis == NoAxis
    ensures b != Unset ==> BuilderMain(b) == mainAxis && BuilderSecondary(b) == secondaryAxis
  {
    match (mainAxis, secondaryAxis)
    case (X, Y) => FromXY
    case (X, Z) => FromXZ
    case (Y, X) => FromYX
    case (Y, Z) => FromYZ
    case (Z, X) => FromZX
    case (Z, Y) => FromZY
    case _ => Unset
  }

  // ---------------------------------------------------------------------
  // Reference skeleton

  /** A reference skeleton: each bone's name and parent index, parents listed before children. */
  datatype Skeleton = Skeleton(names: seq<Name>, parents: seq<int>)

  predicate WellFormed(s: Skeleton) {
    |s.parents| == |s.names|
    && forall i :: 0 <= i < |s.parents| ==> s.parents[i] == INDEX_NONE || 0 <= s.parents[i] < i
  }

  /** FReferenceSkeleton::FindBoneIndex: the first bone with the name, or INDEX_NONE. */
  function FindBoneIndex(names: seq<Name>, boneName: Name): (k: int)
    ensures k == INDEX_NONE || 0 <= k < |names|
    ensures k != INDEX_NONE ==> SameName(names[k], boneName)
    ensures forall j :: 0 <= j < |names| && (k == INDEX_NONE || j < k) ==> !SameName(names[j], boneName)
  {
    if names == [] then INDEX_NONE
    else if SameName(names[0], boneName) then 0
    else
      var k := FindBoneIndex(names[1..], boneName);
      if k == INDEX_NONE then INDEX_NONE else k + 1
  }

  /** The bone a bone's own name finds: itself, or an earlier bone of the same name. */
  function BoneNamed(s: Skeleton, i: nat): (k: nat)
    requires WellFormed(s) && i < |s.names|
    ensures k <= i && SameName(s.names[k], s.names[i])
  {
    assert SameName(s.names[i], s.names[i]);
    FindBoneIndex(s.names, s.names[i])
  }

  /** The bone and its ancestors up to the root, nearest first. */
  function AncestorChain(s: Skeleton, bone: nat): (chain: seq<nat>)
    requires WellFormed(s) && bone < |s.parents|
    decreases bone
  {
    [bone] + if s.parents[bone] == INDEX_NONE then [] else AncestorChain(s, s.parents[bone])
  }

  /** The chain starts at the bone, steps from child to parent, and ends at a root. */
  lemma {:induction false} AncestorChainIsParentWalk(s: Skeleton, bone: nat)
    requires WellFormed(s) && bone < |s.parents|
    ensures var chain := AncestorChain(s, bone);
            (forall j :: 0 <= j < |chain| ==> chain[j] <= bone)
            && |chain| > 0 && chain[0] == bone && s.parents[chain[|chain| - 1]] == INDEX_NONE
            && |chain| <= bone + 1
            && (forall j :: 0 < j < |chain| ==> s.parents[chain[j - 1]] == chain[j])
    decreases bone
  {
    if s.parents[bone] != INDEX_NONE {
      AncestorChainIsParentWalk(s, s.parents[bone]);
    }
  }

  /**
   * RestoreRefBonePose_WS: the world transform of a bone in the reference
   * pose is its own reference transform composed with each ancestor's in
   * turn and then with the component's. Returned as the bones composed, in
   * order; the component transform comes last.
   */
  method RestoreRefBonePose(s: Skeleton, boneName: Name) returns (composed: seq<nat>)
    requires WellFormed(s) && FindBoneIndex(s.names, boneName) != INDEX_NONE
    ensures composed == AncestorChain(s, FindBoneIndex(s.names, boneName))
  {
    var transformIndex: nat := FindBoneIndex(s.names, boneName);
    var parentIndex := s.parents[transformIndex];
    composed := [transformIndex];
    while parentIndex != INDEX_NONE
      invariant 0 <= transformIndex < |s.parents| && parentIndex == s.parents[transformIndex]
      invariant composed + (if parentIndex == INDEX_NONE then [] else AncestorChain(s, parentIndex))
                == AncestorChain(s, FindBoneIndex(s.names, boneName))
      decreases transformIndex
    {
      transformIndex := parentIndex;
      composed := composed + [transformIndex];
      parentIndex := s.parents[transformIndex];
    }
  }

  /** Each bone so far, in order, restored along the chain its own name finds. */
  ghost predicate RefPoseRestored(s: Skeleton, restored: seq<seq<nat>>)
    requires WellFormed(s)
  {
    |restored| <= |s.names|
    && forall i :: 0 <= i < |restored| ==> restored[i] == AncestorChain(s, BoneNamed(s, i))
  }

  lemma RefPoseRestoredStep(s: Skeleton, restored: seq<seq<nat>>, chain: seq<nat>)
    requires WellFormed(s) && RefPoseRestored(s, restored) && |restored| < |s.names|
    requires chain == AncestorChain(s, FindBoneIndex(s.names, s.names[|restored|]))
    ensures RefPoseRestored(s, restored + [chain])
  {
    var extended := restored + [chain];
    forall i | 0 <= i < |extended|
      ensures extended[i] == AncestorChain(s, BoneNamed(s, i))
    {
      if i < |restored| {
        assert extended[i] == restored[i];
      }
    }
  }

  // ---------------------------------------------------------------------
  // The actor

  datatype HumanoidBone = UpperarmRight | ForearmRight | PalmRight | UpperarmLeft | ForearmLeft | PalmLeft

  /** FVMK_BoneRotatorSetup: an axis and a direction for forward, right and up. */
  datatype BoneRotatorSetup = BoneRotatorSetup(forwardAxis: Axis, forwardDirection: int,
                                               horizontalAxis: Axis, rightDirection: int,
                                               verticalAxis: Axis, upDirection: int)

  /** The comparisons BuildTPose makes: the mesh's forward, right and up against its rotation, and each arm's. */
  datatype TPoseDots = TPoseDots(forward: Dots, right: Dots, up: Dots, handUpDot: real,
                                 rightHandForward: Dots, rightHandHorizontal: Dots,
                                 leftHandForward: Dots, leftHandHorizontal: Dots)

  /** The arms are already horizontal when the hand direction is within |dot| < 0.2 of the horizontal plane. */
  const HORIZONTAL_ARMS: real := 0.2

  predicate ArmBonesMapped(bonesMap: map<HumanoidBone, Name>) {
    UpperarmRight in bonesMap && ForearmRight in bonesMap && PalmRight in bonesMap
    && UpperarmLeft in bonesMap && ForearmLeft in bonesMap && PalmLeft in bonesMap
  }

  /** The component-space setup BuildTPose derives from the mesh's directions. */
  function ComponentSetup(dots: TPoseDots): BoneRotatorSetup {
    var f := FindCoDirection(dots.forward);
    var r := FindCoDirection(dots.right);
    var u := FindCoDirection(dots.up);
    BoneRotatorSetup(f.axis, f.multiplier, r.axis, r.multiplier, u.axis, u.multiplier)
  }

  /** The rotation builders for the right and left arm. */
  function ArmBuilders(dots: TPoseDots): (RotBuilder, RotBuilder) {
    (MakeRotByTwoAxes(FindCoDirection(dots.rightHandForward).axis, FindCoDirection(dots.rightHandHorizontal).axis),
     MakeRotByTwoAxes(FindCoDirection(dots.leftHandForward).axis, FindCoDirection(dots.leftHandHorizontal).axis))
  }

  /** The inputs handed to the capture device: the components and the right and left hand slots (255 = none). */
  datatype CaptureInput = CaptureInput(components: seq<ComponentRef>, rightId: int, leftId: int)

  const NO_HAND_ID: int := 255

  /** The uint8 slot of the last binding whose source is `source`, counting modulo 256, or `default`. */
  function LastSourceSlot(objects: seq<TrackingBinding>, source: Name, default: int): (slot: int)
    ensures slot == default || 0 <= slot < 256
  {
    if objects == [] then default
    else if SameName(objects[|objects| - 1].MotionSource, source) then (|objects| - 1) % 256
    else LastSourceSlot(objects[..|objects| - 1], source, default)
  }

  /** The slot of a hand is the position of its last binding, when fewer than 256 bindings precede it. */
  lemma {:induction false} LastSourceSlotIsLast(objects: seq<TrackingBinding>, source: Name, default: int, i: nat)
    requires i < |objects| < 256 && SameName(objects[i].MotionSource, source)
    requires forall j :: i < j < |objects| ==> !SameName(objects[j].MotionSource, source)
    ensures LastSourceSlot(objects, source, default) == i
  {
    if i < |objects| - 1 {
      LastSourceSlotIsLast(objects[..|objects| - 1], source, default, i);
    }
  }

  function AttachedComponents(objects: seq<TrackingBinding>): (components: seq<ComponentRef>)
    ensures |components| == |objects|
    ensures forall i :: 0 <= i < |objects| ==> components[i] == objects[i].AttachedComponent
  {
    seq(|objects|, i requires 0 <= i < |objects| => objects[i].AttachedComponent)
  }

  /**
   * What GetInputComponents hands on from empty outputs: for a usable
   * binding list one component per binding and the hand slots, otherwise
   * nothing.
   */
  function CollectedInputs(listed: seq<TrackingBinding>, ok: bool): (r: CaptureInput)
    ensures !ok ==> r == CaptureInput([], NO_HAND_ID, NO_HAND_ID)
    ensures ok ==> |r.components| == |listed| && forall i :: 0 <= i < |listed| ==> r.components[i] == listed[i].AttachedComponent
  {
    if ok then CaptureInput(AttachedComponents(listed), LastSourceSlot(listed, "Right", NO_HAND_ID), LastSourceSlot(listed, "Left", NO_HAND_ID))
    else CaptureInput([], NO_HAND_ID, NO_HAND_ID)
  }

  /** The capture device can take the inputs: it is initialized and calibrated, or a stored calibration applied. */
  predicate CaptureReady(captureInitialized: bool, captureCalibrated: bool, calibrationTrackersNum: nat, calibratedAfterApply: bool) {
    captureInitialized && (captureCalibrated || (calibrationTrackersNum != 0 && calibratedAfterApply))
  }

  /** "Right" and "Left" are different names, so no binding counts for both hands. */
  lemma RightIsNotLeft(n: Name)
    ensures !(SameName(n, "Right") && SameName(n, "Left"))
  {
  }

  class EditorViveMocapController {
    var inputController: EditorSteamVRController?
    var enabled: bool
    var initialized: bool
    var inputCompsNum: int
    var componentSpaceSetup: BoneRotatorSetup

    constructor ()
      ensures inputController == null && !enabled && !initialized && inputCompsNum == 0
    {
      inputController := null;
      enabled := false;
      initialized := false;
      inputCompsNum := 0;
      componentSpaceSetup := BoneRotatorSetup(X, 1, Y, 1, Z, 1);
    }

    /**
     * GetInputComponents: with no input controller, or one whose binding
     * list cannot be made usable, the outputs stay as passed in; otherwise
     * one component per binding, in order, and the slots of the last
     * "Right" and "Left" bindings.
     */
    method GetInputComponents(lib: TrackingLibModule, poses: PoseSource, devices: seq<Device>, alive: set<ComponentRef>,
                              inputTrackers: seq<ComponentRef>, rightId: int, leftId: int)
      returns (outTrackers: seq<ComponentRef>, outRightId: int, outLeftId: int,
               ghost listed: seq<TrackingBinding>, ghost ok: bool, ghost installed: map<Name, Binding>)
      modifies if inputController != null then {inputController} else {}, lib
      ensures inputController == null ==> !ok && listed == [] && lib.deviceSetup == old(lib.deviceSetup)
      ensures inputController != null ==>
                MadeUsable(old(inputController.UpToDate(alive)), old(inputController.objectsToUpdate), old(lib.deviceSetup),
                           inputController, lib, poses, devices, installed, ok)
                && inputController.objectsToUpdate == listed
      ensures !ok ==> outTrackers == inputTrackers && outRightId == rightId && outLeftId == leftId
      ensures ok ==> outTrackers == AttachedComponents(listed)
                     && outRightId == LastSourceSlot(listed, "Right", rightId)
                     && outLeftId == LastSourceSlot(listed, "Left", leftId)
    {
      outTrackers, outRightId, outLeftId, listed, ok, installed := inputTrackers, rightId, leftId, [], false, lib.deviceSetup;
      if inputController == null {
        return;
      }
      var updated;
      updated, installed := inputController.EnsureUpdated(lib, poses, devices, alive);
      listed := inputController.objectsToUpdate;
      ok := updated;
      if !updated {
        return;
      }
      var trackers := inputController.GetUpdatedObjects();
      outTrackers, outRightId, outLeftId := CollectInputs(trackers, rightId, leftId);
    }

    /**
     * The binding walk of GetInputComponents: one component per binding,
     * in order, with a uint8 counter naming the slot of each "Right" and
     * "Left" binding as it is met.
     */
    static method CollectInputs(trackers: seq<TrackingBinding>, rightId: int, leftId: int)
      returns (outTrackers: seq<ComponentRef>, outRightId: int, outLeftId: int)
      ensures outTrackers == AttachedComponents(trackers)
      ensures outRightId == LastSourceSlot(trackers, "Right", rightId)
      ensures outLeftId == LastSourceSlot(trackers, "Left", leftId)
    {
      outTrackers, outRightId, outLeftId := [], rightId, leftId;
      var index := 0;
      var i := 0;
      while i < |trackers|
        invariant 0 <= i <= |trackers| && index == i % 256
        invariant outTrackers == AttachedComponents(trackers[..i])
        invariant outRightId == LastSourceSlot(trackers[..i], "Right", rightId)
        invariant outLeftId == LastSourceSlot(trackers[..i], "Left", leftId)
      {
        var trackerSetup := trackers[i];
        assert trackers[..i + 1][..i] == trackers[..i];
        outTrackers := outTrackers + [trackerSetup.AttachedComponent];
        if SameName(trackerSetup.MotionSource, "Right") {
          outRightId := index;
          RightIsNotLeft(trackerSetup.MotionSource);
        } else if SameName(trackerSetup.MotionSource, "Left") {
          outLeftId := index;
        }
        index := (index + 1) % 256;
        i := i + 1;
      }
      assert trackers[..i] == trackers;
    }

    /** The first step of BuildTPose: every bone of the mesh, in order, is put back in its reference pose. */
    static method RestoreRefPose(s: Skeleton) returns (restored: seq<seq<nat>>)
      requires WellFormed(s)
      ensures |restored| == |s.names| && RefPoseRestored(s, restored)
    {
      restored := [];
      var boneIndex := 0;
      while boneIndex < |s.names|
        invariant 0 <= boneIndex <= |s.names| && |restored| == boneIndex
        invariant RefPoseRestored(s, restored)
      {
        var chain := RestoreRefBonePose(s, s.names[boneIndex]);
        RefPoseRestoredStep(s, restored, chain);
        restored := restored + [chain];
        boneIndex := boneIndex + 1;
      }
    }

    /**
     * BuildTPose: fails without a mesh or when any of the six arm bones is
     * unmapped; otherwise restores the reference pose of every bone, sets
     * the component-space axes, and corrects the arms unless they are
     * already horizontal. Returns the arm builders used, if any.
     */
    method BuildTPose(mesh: Option<Skeleton>, skeletonBonesMap: map<HumanoidBone, Name>, dots: TPoseDots)
      returns (ok: bool, restored: seq<seq<nat>>, arms: Option<(RotBuilder, RotBuilder)>)
      requires mesh.Some? ==> WellFormed(mesh.value)
      modifies this`componentSpaceSetup
      ensures ok <==> mesh.Some? && ArmBonesMapped(skeletonBonesMap)
      ensures mesh.None? ==> restored == [] && componentSpaceSetup == old(componentSpaceSetup)
      ensures mesh.Some? ==>
                |restored| == |mesh.value.names| && RefPoseRestored(mesh.value, restored)
      ensures ok ==> componentSpaceSetup == ComponentSetup(dots)
      ensures !ok ==> componentSpaceSetup == old(componentSpaceSetup) && arms == None
      ensures ok ==> (arms.Some? <==> !(Abs(dots.handUpDot) < HORIZONTAL_ARMS))
      ensures arms.Some? ==> arms.value == ArmBuilders(dots)
    {
      restored, arms := [], None;
      if mesh.None? {
        return false, restored, arms;
      }
      restored := RestoreRefPose(mesh.value);
      if !ArmBonesMapped(skeletonBonesMap) {
        return false, restored, arms;
      }
      componentSpaceSetup := ComponentSetup(dots);
      if Abs(dots.handUpDot) < HORIZONTAL_ARMS {
        return true, restored, arms;
      }
      arms := Some(ArmBuilders(dots));
      ok := true;
    }

    /**
     * InitializeDevice: needs an input controller and a T-pose; then the
     * capture device gets the input components only when there are more
     * than 3, and the actor is initialized exactly when the capture device
     * then reports itself initialized (`deviceInitializedAfter`).
     */
    method InitializeDevice(lib: TrackingLibModule, poses: PoseSource, devices: seq<Device>, alive: set<ComponentRef>,
                            mesh: Option<Skeleton>, skeletonBonesMap: map<HumanoidBone, Name>, dots: TPoseDots,
                            deviceInitializedAfter: bool)
      returns (captureInput: Option<CaptureInput>, ghost listed: seq<TrackingBinding>, ghost ok: bool,
               ghost installed: map<Name, Binding>)
      requires mesh.Some? ==> WellFormed(mesh.value)
      modifies this`componentSpaceSetup, this`inputCompsNum, this`initialized
      modifies if inputController != null then {inputController} else {}, lib
      ensures captureInput.Some? ==> inputController != null && mesh.Some? && ArmBonesMapped(skeletonBonesMap)
                                     && |captureInput.value.components| > 3
      ensures captureInput.Some? ==> inputCompsNum == |captureInput.value.components| && initialized == deviceInitializedAfter
      ensures captureInput.None? ==> inputCompsNum == old(inputCompsNum) && initialized == old(initialized)
      ensures inputController != null && mesh.Some? && ArmBonesMapped(skeletonBonesMap) ==>
                componentSpaceSetup == ComponentSetup(dots)
      ensures inputController != null && mesh.Some? && ArmBonesMapped(skeletonBonesMap) ==>
                MadeUsable(old(inputController.UpToDate(alive)), old(inputController.objectsToUpdate), old(lib.deviceSetup),
                           inputController, lib, poses, devices, installed, ok)
                && inputController.objectsToUpdate == listed
                && (captureInput.Some? <==> ok && |listed| > 3)
                && (captureInput.Some? ==> captureInput.value == CollectedInputs(listed, ok))
      ensures !(inputController != null && mesh.Some? && ArmBonesMapped(skeletonBonesMap)) ==>
                captureInput.None? && lib.deviceSetup == old(lib.deviceSetup)
                && componentSpaceSetup == old(componentSpaceSetup)
                && (inputController != null ==> unchanged(inputController))
    {
      captureInput, listed, ok, installed := None, [], false, lib.deviceSetup;
      if inputController == null {
        return;
      }
      var built, _, _ := BuildTPose(mesh, skeletonBonesMap, dots);
      if !built {
        return;
      }
      var trackerComps, rightId, leftId;
      trackerComps, rightId, leftId, listed, ok, installed := GetInputComponents(lib, poses, devices, alive, [], NO_HAND_ID, NO_HAND_ID);
      if |trackerComps| > 3 {
        captureInput := Some(CaptureInput(trackerComps, rightId, leftId));
        inputCompsNum := |trackerComps|;
        initialized := deviceInitializedAfter;
      }
    }

    /**
     * StartMocap: capture is enabled only after every check passes: the
     * actor is initialized, the capture device is initialized (otherwise
     * the actor is no longer initialized), a calibration is present or can
     * be applied, and the number of inputs matches the capture device's
     * (re-collected once if it does not).
     */
    method StartMocap(lib: TrackingLibModule, poses: PoseSource, devices: seq<Device>, alive: set<ComponentRef>,
                      captureInitialized: bool, captureCalibrated: bool,
                      calibrationTrackersNum: nat, calibratedAfterApply: bool, captureTrackersNum: int)
      returns (captureInput: Option<CaptureInput>, ghost listed: seq<TrackingBinding>, ghost ok: bool,
               ghost installed: map<Name, Binding>)
      modifies this`enabled, this`initialized, this`inputCompsNum
      modifies if inputController != null then {inputController} else {}, lib
      ensures !old(initialized) ==> enabled == old(enabled) && !initialized && captureInput.None?
      ensures old(initialized) && !captureInitialized ==> !initialized && enabled == old(enabled) && captureInput.None?
      ensures initialized == (old(initialized) && captureInitialized)
      ensures enabled != old(enabled) ==> enabled
      ensures enabled && !old(enabled) ==>
                old(initialized) && captureInitialized
                && (captureCalibrated || (calibrationTrackersNum != 0 && calibratedAfterApply))
                && inputCompsNum == captureTrackersNum
      ensures old(initialized) && !CaptureReady(captureInitialized, captureCalibrated, calibrationTrackersNum, calibratedAfterApply) ==>
                enabled == old(enabled) && captureInput.None? && lib.deviceSetup == old(lib.deviceSetup)
      ensures old(initialized) && CaptureReady(captureInitialized, captureCalibrated, calibrationTrackersNum, calibratedAfterApply)
              && old(inputCompsNum) == captureTrackersNum ==>
                enabled && inputCompsNum == old(inputCompsNum) && captureInput.None? && lib.deviceSetup == old(lib.deviceSetup)
      ensures old(initialized) && CaptureReady(captureInitialized, captureCalibrated, calibrationTrackersNum, calibratedAfterApply)
              && old(inputCompsNum) != captureTrackersNum ==>
                (inputController == null ==> !ok && listed == [])
                && (inputController != null ==>
                      MadeUsable(old(inputController.UpToDate(alive)), old(inputController.objectsToUpdate), old(lib.deviceSetup),
                                 inputController, lib, poses, devices, installed, ok)
                      && inputController.objectsToUpdate == listed)
                && (captureInput.Some? <==> |CollectedInputs(listed, ok).components| == captureTrackersNum)
                && (captureInput.Some? ==> captureInput.value == CollectedInputs(listed, ok))
                && enabled == (old(enabled) || captureInput.Some?)
      ensures captureInput.Some? ==> |captureInput.value.components| == captureTrackersNum == inputCompsNum && enabled
      ensures captureInput.None? ==> inputCompsNum == old(inputCompsNum)
      ensures !(old(initialized) && CaptureReady(captureInitialized, captureCalibrated, calibrationTrackersNum, calibratedAfterApply)
                && old(inputCompsNum) != captureTrackersNum) ==>
                lib.deviceSetup == old(lib.deviceSetup) && (inputController != null ==> unchanged(inputController))
    {
      captureInput, listed, ok, installed := None, [], false, lib.deviceSetup;
      if !initialized {
        return;
      }
      if !captureInitialized {
        initialized := false;
        return;
      }
      if !captureCalibrated {
        if calibrationTrackersNum == 0 {
          return;
        }
        if !calibratedAfterApply {
          return;
        }
      }
      if captureTrackersNum != inputCompsNum {
        var trackerComps, rightId, leftId;
        trackerComps, rightId, leftId, listed, ok, installed := GetInputComponents(lib, poses, devices, alive, [], NO_HAND_ID, NO_HAND_ID);
        if |trackerComps| == captureTrackersNum {
          captureInput := Some(CaptureInput(trackerComps, rightId, leftId));
          inputCompsNum := |trackerComps|;
        } else {
          return;
        }
      }
      enabled := true;
    }

    /** StopMocap: capture is always disabled. */
    method StopMocap()
      modifies this`enabled
      ensures !enabled
    {
      enabled := false;
    }
  }
}
