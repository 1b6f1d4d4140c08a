/**
 * JSON at object-tree level and the two readers of the tracking-setup file
 * format (namespace JsonHelpers): the format version and one device record.
 *
 * The engine's JSON object holds its fields in a map whose string keys
 * compare without case, so an object here is keyed by folded field names.
 * A number node carries, besides its value, the text the engine prints for
 * it (FString::SanitizeFloat): the floating-point formatting is not modelled.
 */
module JsonHelpers {
  import opened Names
  import opened TrackingSetup

  datatype Json =
    | JNull
    | JBool(flag: bool)
    | JNumber(number: real, printed: Name)
    | JString(text: Name)
    | JArray(items: seq<Json>)
    | JObject(fields: map<Name, Json>)

  type JsonObject = map<Name, Json>

  // The field names of the file format, as the object map stores them (folded).
  const KEY_FORMAT_VERSION: Name := "formatversion"
  const KEY_DEVICES: Name := "devices"
  const KEY_SERIAL_NUMBER: Name := "serialnumber"
  const KEY_TYPE: Name := "type"
  const KEY_NAME: Name := "name"

  /** The folded key of each field name the format uses. */
  lemma {:induction false} FormatKeysAreFolded()
    ensures Fold("FormatVersion") == KEY_FORMAT_VERSION && Fold("Devices") == KEY_DEVICES
    ensures Fold("SerialNumber") == KEY_SERIAL_NUMBER && Fold("Type") == KEY_TYPE && Fold("Name") == KEY_NAME
  {
  }

  /**
   * FJsonValue::AsString: the text of a string, the printed form of a
   * number, "true" or "false" for a boolean; null, arrays and objects have
   * no string value and read as the empty text.
   */
  function AsString(v: Json): (t: Name)
    ensures v.JString? ==> t == v.text
    ensures v.JNumber? ==> t == v.printed
    ensures v.JBool? ==> SameName(t, if v.flag then "TRUE" else "FALSE")
    ensures v.JNull? || v.JArray? || v.JObject? ==> IsNone(t)
  {
    match v
    case JString(t) => t
    case JNumber(_, p) => p
    case JBool(f) => if f then "true" else "false"
    case _ => ""
  }

  /** A C++ cast of a double to an integer: truncation toward zero. */
  function TruncateToInt(x: real): (n: int)
    ensures x >= 0.0 ==> n as real <= x < n as real + 1.0
    ensures x < 0.0 ==> n as real - 1.0 < x <= n as real
  {
    if x >= 0.0 then x.Floor else -((-x).Floor)
  }

  /**
   * The file's declared format version: the number under "FormatVersion"
   * truncated toward zero, or 0 when that field is missing or not a number.
   */
  function GetFormatVersion(root: JsonObject): (v: int)
    ensures !(KEY_FORMAT_VERSION in root && root[KEY_FORMAT_VERSION].JNumber?) ==> v == 0
    ensures KEY_FORMAT_VERSION in root && root[KEY_FORMAT_VERSION].JNumber? ==>
              var x := root[KEY_FORMAT_VERSION].number;
              (x >= 0.0 ==> 0 <= v && v as real <= x < v as real + 1.0)
              && (x < 0.0 ==> v <= 0 && v as real - 1.0 < x <= v as real)
  {
    if KEY_FORMAT_VERSION in root then
      match root[KEY_FORMAT_VERSION]
      case JNumber(x, _) => TruncateToInt(x)
      case _ => 0
    else 0
  }

  /** The outcome of reading one device record into a binding. */
  datatype DeviceRead = DeviceRead(ok: bool, binding: Binding)

  ghost predicate HasDeviceFields(obj: JsonObject) {
    KEY_SERIAL_NUMBER in obj && KEY_TYPE in obj && KEY_NAME in obj
  }

  /** The device classes the file format names, read without case. */
  predicate KnownTypeText(t: Name) {
    Fold(t) == "controller" || Fold(t) == "vivetracker"
  }

  /**
   * ReadJsonDevice: decodes a device record into `outBinding`. It fails when
   * any of SerialNumber, Type or Name is missing or when the type is neither
   * "controller" nor "vivetracker" (in any case). A record with all fields
   * has its index reset and its serial stored before the type is checked, so
   * a failure on the type leaves those two written. Names are built from
   * the text as the engine builds them, so "None" reads as the None name.
   */
  function ReadJsonDevice(device: JsonObject, outBinding: Binding): (r: DeviceRead)
    ensures r.ok <==> HasDeviceFields(device) && KnownTypeText(AsString(device[KEY_TYPE]))
    ensures !HasDeviceFields(device) ==> r.binding == outBinding
    ensures HasDeviceFields(device) ==>
              r.binding.Id == INDEX_NONE
              && r.binding.SerialNumber == ToName(AsString(device[KEY_SERIAL_NUMBER]))
    ensures r.ok ==>
              r.binding.FriendlyName == ToName(AsString(device[KEY_NAME]))
              && r.binding.Type == (if Fold(AsString(device[KEY_TYPE])) == "controller" then Controller else Other)
  {
    if !(KEY_SERIAL_NUMBER in device && KEY_TYPE in device && KEY_NAME in device) then
      DeviceRead(false, outBinding)
    else
      var deviceType := Fold(AsString(device[KEY_TYPE]));
      var written := outBinding.(Id := INDEX_NONE, SerialNumber := ToName(AsString(device[KEY_SERIAL_NUMBER])));
      if deviceType == "controller" then
        DeviceRead(true, written.(Type := Controller, FriendlyName := ToName(AsString(device[KEY_NAME]))))
      else if deviceType == "vivetracker" then
        DeviceRead(true, written.(Type := Other, FriendlyName := ToName(AsString(device[KEY_NAME]))))
      else
        DeviceRead(false, written)
  }
}
