/**
 * One row of the tracking-setup editor panel (SDeviceSerialBinding): the
 * texts it shows for a binding, the status image it picks, and its
 * selection and tracking-status state.
 *
 * The row's callbacks into the panel (select, remove, rename) are modelled
 * as the request each handler returns: the serial number and new name it
 * would pass, or None when it would not fire.
 */
module SerialBindingRow {
  import opened Opt
  import opened Names
  import opened TrackingSetup
  import opened DeviceRuntime

  // ---------------------------------------------------------------------
  // Texts

  /** The hundreds, tens and units digits of n, in that order (zero-padded). */
  function LastThreeDigits(n: nat): Name {
    [DigitChar(n / 100 % 10), DigitChar(n / 10 % 10), DigitChar(n % 10)]
  }

  /** GetDeviceIdText: the last three characters of "000" followed by the index, or "---" without one. */
  function DeviceIdText(data: Option<Binding>): (r: Name)
    ensures |r| == 3
    ensures !(data.Some? && data.value.Id > 0) ==> r == "---"
    ensures data.Some? && data.value.Id > 0 ==> forall i :: 0 <= i < 3 ==> IsDigit(r[i])
  {
    if data.Some? && data.value.Id > 0 then Right("000" + NatToText(data.value.Id), 3) else "---"
  }

  lemma {:induction false} NatToTextLast(n: nat)
    ensures NatToText(n)[|NatToText(n)| - 1] == DigitChar(n % 10)
    ensures n < 10 ==> |NatToText(n)| == 1
    ensures n >= 10 ==> NatToText(n)[..|NatToText(n)| - 1] == NatToText(n / 10)
  {
  }

  /** The j-th character from the end of "000" + the text of n is n's j-th decimal digit. */
  lemma {:induction false} PaddedDigit(n: nat, j: nat)
    requires j < 3
    ensures var s := "000" + NatToText(n);
            s[|s| - 1 - j] == DigitChar(if j == 0 then n % 10 else if j == 1 then n / 10 % 10 else n / 100 % 10)
  {
    var t := NatToText(n);
    var s := "000" + t;
    NatToTextLast(n);
    if j > 0 {
      if n < 10 {
        assert s[|s| - 1 - j] == '0';
        assert n / 10 == 0 && n / 100 == 0;
      } else {
        var t' := NatToText(n / 10);
        assert t == t' + [t[|t| - 1]];
        PaddedDigit(n / 10, j - 1);
        var s' := "000" + t';
        assert s[|s| - 1 - j] == s'[|s'| - 1 - (j - 1)];
        assert n / 10 / 10 == n / 100;
      }
    }
  }

  /** For an index above zero the text is its last three decimal digits, zero-padded. */
  lemma {:induction false} DeviceIdTextPadsId(b: Binding)
    requires b.Id > 0
    ensures DeviceIdText(Some(b)) == LastThreeDigits(b.Id)
  {
    var n: nat := b.Id;
    var s := "000" + NatToText(n);
    PaddedDigit(n, 0);
    PaddedDigit(n, 1);
    PaddedDigit(n, 2);
    assert Right(s, 3) == [s[|s| - 3], s[|s| - 2], s[|s| - 1]];
  }

  /** Index 7 shows as "007", index 1234 as "234", and index 0 or none as "---". */
  lemma {:induction false} DeviceIdTextExamples(b: Binding)
    ensures DeviceIdText(Some(b.(Id := 7))) == "007"
    ensures DeviceIdText(Some(b.(Id := 1234))) == "234"
    ensures DeviceIdText(Some(b.(Id := 0))) == "---"
    ensures DeviceIdText(None) == "---"
  {
    DeviceIdTextPadsId(b.(Id := 7));
    DeviceIdTextPadsId(b.(Id := 1234));
  }

  /** GetSerialNumberText: the serial number, or "UNKNOWN" without data or with the None serial. */
  function SerialNumberText(data: Option<Binding>): (r: Name)
    ensures IsNone(r) == false
    ensures data.Some? && !IsNone(data.value.SerialNumber) ==> r == data.value.SerialNumber
    ensures !(data.Some? && !IsNone(data.value.SerialNumber)) ==> r == "UNKNOWN"
  {
    if data.Some? && !IsNone(data.value.SerialNumber) then data.value.SerialNumber else "UNKNOWN"
  }

  /** NameToText: the None name shows as empty text. */
  function NameToText(n: Name): Name {
    if IsNone(n) then "" else n
  }

  const BRUSH_PREFIX: Name := "SteamVRTrackingLib.Device."

  /** The style brush of the status image for a device class and status. */
  function BrushName(t: DeviceType, tracking: bool): Name {
    BRUSH_PREFIX + (if t == Controller then "MotionController" else "ViveTracker") + (if tracking then "On" else "Off")
  }

  /** The four brushes are distinct: the name tells controller from tracker and on from off. */
  lemma {:induction false} BrushNameDistinguishes(t1: DeviceType, s1: bool, t2: DeviceType, s2: bool)
    ensures BrushName(t1, s1) == BrushName(t2, s2) <==> ((t1 == Controller) == (t2 == Controller) && s1 == s2)
  {
    if BrushName(t1, s1) == BrushName(t2, s2) {
      assert |BrushName(t1, s1)| == |BrushName(t2, s2)|;
    }
  }

  /** Whether the timer sees the device: listed among its class and not posed at the origin. */
  predicate TrackedNow(devices: seq<Device>, b: Binding) {
    b.Id in ValidIds(devices, b.Type) && !IsZero(LocationOf(devices, b.Id))
  }

  // ---------------------------------------------------------------------
  // The row widget

  /** A row's asset, status, timer, status brush and name text. */
  type RowStatus = (TrackingSetupAsset?, bool, bool, Option<Name>, Name)

  class DeviceSerialBindingRow {
    var trackingSetupObject: TrackingSetupAsset?
    /** The binding the row shows (the engine keeps a reference to it). */
    var deviceData: Option<Binding>
    var trackingStatus: bool
    var isSelected: bool
    var visible: bool
    /** Whether the once-a-second status timer is registered. */
    var timerActive: bool
    /** The brush of the status image, once the widget's content exists. */
    var statusBrush: Option<Name>
    var friendlyNameText: Name

    /** What the row holds besides its binding, selection and visibility. */
    ghost function Status(): RowStatus
      reads this
    {
      (trackingSetupObject, trackingStatus, timerActive, statusBrush, friendlyNameText)
    }

    /** The status image shows the current status of the shown device. */
    ghost predicate BrushAgrees()
      reads this
    {
      statusBrush.Some? && deviceData.Some? ==> statusBrush.value == BrushName(deviceData.value.Type, trackingStatus)
    }

    /**
     * Construct: the status starts as given but is forced off for an
     * unresolved binding; the content, and with it the status image, is
     * built only for a row with both an asset and a binding, and the image is
     * chosen before the status is forced off.
     */
    constructor (modifiedObject: TrackingSetupAsset?, data: Option<Binding>, initialStatus: bool, initiallyVisible: bool)
      ensures trackingSetupObject == modifiedObject && deviceData == data && !isSelected && visible == initiallyVisible
      ensures trackingStatus == (initialStatus && !(modifiedObject != null && data.Some? && data.value.Id == INDEX_NONE))
      ensures timerActive == (modifiedObject != null && data.Some?)
      ensures statusBrush == (if modifiedObject != null && data.Some? then Some(BrushName(data.value.Type, initialStatus)) else None)
      ensures friendlyNameText == (if modifiedObject != null && data.Some? then NameToText(data.value.FriendlyName) else "")
    {
      trackingSetupObject := modifiedObject;
      deviceData := data;
      trackingStatus := initialStatus;
      isSelected := false;
      visible := initiallyVisible;
      timerActive := false;
      statusBrush := None;
      friendlyNameText := "";
      if modifiedObject != null && data.Some? {
        statusBrush := Some(BrushName(data.value.Type, initialStatus));
        friendlyNameText := NameToText(data.value.FriendlyName);
        if data.value.Id == INDEX_NONE {
          trackingStatus := false;
        }
        timerActive := true;
      }
    }

    /** GetSerialNumber: the shown serial, or None without data. */
    function GetSerialNumber(): (r: Name)
      reads this
      ensures deviceData.None? ==> IsNone(r)
      ensures deviceData.Some? ==> r == deviceData.value.SerialNumber
    {
      if deviceData.Some? then deviceData.value.SerialNumber else ""
    }

    method MarkSelected()
      modifies this`isSelected
      ensures isSelected
    {
      isSelected := true;
    }

    method MarkUnselected()
      modifies this`isSelected
      ensures !isSelected
    {
      isSelected := false;
    }

    /** SWidget::SetVisibility, reduced to shown or collapsed. */
    method SetVisibility(shown: bool)
      modifies this`visible
      ensures visible == shown
    {
      visible := shown;
    }

    /** Points the row at another binding and redraws its name and status image. */
    method ReconstructObject(newDeviceData: Binding)
      modifies this`deviceData, this`friendlyNameText, this`statusBrush
      ensures deviceData == Some(newDeviceData) && friendlyNameText == NameToText(newDeviceData.FriendlyName)
      ensures statusBrush == (if old(statusBrush).Some? then Some(BrushName(newDeviceData.Type, trackingStatus)) else None)
      ensures old(statusBrush).Some? ==> BrushAgrees()
    {
      deviceData := Some(newDeviceData);
      friendlyNameText := NameToText(newDeviceData.FriendlyName);
      if statusBrush.Some? {
        statusBrush := Some(BrushName(newDeviceData.Type, trackingStatus));
      }
    }

    /**
     * The once-a-second status check. For a device with an index above zero
     * the status becomes whether the device is seen, and the image is
     * redrawn only when the status changes. The timer keeps running while
     * the row has an asset and a binding and stops otherwise.
     */
    method TimerUpdateWidget(devices: seq<Device>) returns (continueTimer: bool)
      modifies this`trackingStatus, this`statusBrush, this`timerActive
      ensures continueTimer == (trackingSetupObject != null && deviceData.Some?)
      ensures continueTimer && deviceData.value.Id > 0 ==> trackingStatus == TrackedNow(devices, deviceData.value)
      ensures !(continueTimer && deviceData.value.Id > 0) ==> trackingStatus == old(trackingStatus)
      ensures trackingStatus == old(trackingStatus) ==> statusBrush == old(statusBrush)
      ensures trackingStatus != old(trackingStatus) ==> statusBrush == Some(BrushName(deviceData.value.Type, trackingStatus))
      ensures timerActive == (continueTimer && old(timerActive))
      ensures old(BrushAgrees()) ==> BrushAgrees()
    {
      if trackingSetupObject != null && deviceData.Some? {
        var data := deviceData.value;
        if data.Id > 0 {
          var existingIds := ValidIds(devices, data.Type);
          var isTracked := data.Id in existingIds;
          if isTracked {
            var loc := LocationOf(devices, data.Id);
            if IsZero(loc) {
              isTracked := false;
            }
          }
          if isTracked != trackingStatus {
            trackingStatus := isTracked;
            statusBrush := Some(BrushName(data.Type, trackingStatus));
          }
        }
        return true;
      } else {
        timerActive := false;
        return false;
      }
    }

    /** A click on an unselected row asks the panel to select its serial and marks the row selected. */
    method OnMouseButtonUp() returns (selectRequest: Option<Name>)
      modifies this`isSelected
      ensures selectRequest == (if old(isSelected) then None else Some(GetSerialNumber()))
      ensures isSelected
    {
      selectRequest := None;
      if !isSelected {
        selectRequest := Some(GetSerialNumber());
        MarkSelected();
      }
    }

    /** The remove button asks the panel to remove the row's serial (None without data). */
    method OnRemoveButtonClick() returns (removeRequest: Name)
      ensures removeRequest == GetSerialNumber()
    {
      removeRequest := GetSerialNumber();
    }

    /**
     * A committed name is passed on, with the serial, only for a row whose
     * serial is set; the text becomes a name as the engine builds one.
     */
    method OnFriendlyNameCommitted(newText: Name) returns (renameRequest: Option<(Name, Name)>)
      ensures renameRequest.Some? <==> deviceData.Some? && !IsNone(deviceData.value.SerialNumber)
      ensures renameRequest.Some? ==> renameRequest.value == (deviceData.value.SerialNumber, ToName(newText))
    {
      renameRequest := None;
      if deviceData.Some? && !IsNone(deviceData.value.SerialNumber) {
        renameRequest := Some((deviceData.value.SerialNumber, ToName(newText)));
      }
    }
  }
}
