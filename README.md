# SteamVR tracking library — a Dafny model

This project models the device-identity logic of the SteamVRTrackingLib
Unreal Engine plugin. OpenVR hands out device indices that change from
session to session. The plugin binds each physical device to a stable
identity: its serial number, a friendly name the user chooses, and an
optional motion-source role ("Right", "Left", "Special_N"). It also keeps
the tables that hold these bindings consistent.

The modules follow the plugin's source files:

- `Names` — engine names and strings. `FName`/`FString` comparison is
  case-insensitive, so maps are keyed by the ASCII case fold `Fold(name)`.
  The engine's None name prints as "None", and a name built from the
  text "None" (in any case) is the None name again. The model represents
  it by the empty name: `ToName` builds a name from text and `NameText`
  prints one. It also holds `FString::FromInt` and `FCString::Atoi`.
- `TrackingSetup`, `DeviceRuntime` — the binding record with its defaults,
  the tracking-setup asset (a serial-keyed map), and the live OpenVR state
  given as a list of `(id, type, serial, location)` records.
- `JsonHelpers` — `GetFormatVersion` and `ReadJsonDevice`, over an abstract
  JSON object tree.
- `TrackingLib` — the runtime friendly-name cache
  (`FSteamVRTrackingLibModule`): lazy id refresh by serial, and
  initialisation from a list of bindings.
- `BPLibrary` — the Blueprint library:
  - motion-source classification;
  - the nearest-device pick under a distance threshold;
  - the "Special_N" N-th lowest tracker rule;
  - JSON export and all-or-prefix import.
- `DetailsCustomization`, `SerialBindingRow` — the editor's details panel
  for a tracking-setup asset and its per-device row widgets. This covers:
  - merging live devices into the table, and clearing stale ids;
  - the 24-slot row assignment;
  - guarded rename and removal, and selection;
  - the row's id, serial and status texts, and its timer.
- `TrackingEditor` — the editor's import (wholesale replacement of the
  asset map) and export (the map's values) commands.
- `EditorController` — the editor actor that attaches scene components to
  tracked devices. It rebuilds its binding list and resolves ids lazily
  each tick.
- `TrackedDeviceComponent` — the motion-controller-like component:
  - motion-source flag;
  - id-refresh schedule;
  - tracked-state transition;
  - show/hide of the device model;
  - display-model load state.
- `MocapController` — the motion-capture rig fitter:
  - co-direction axis choice and rotator-builder dispatch;
  - the T-pose early exits;
  - the reference-pose parent-chain walk;
  - input collection and the start/stop flags.

State that the source updates in place is a Dafny `class` whose methods
say their new state in `ensures`:

- the cache's map;
- the asset's map;
- the details panel and its rows;
- the editor controller's binding list;
- the tracked-device component;
- the mocap controller.

Each method is proved against a specification function. The properties
the source promises are proved as lemmas about those functions.

Engine and driver queries are parameters of the operations that need them:

- the list of live devices;
- the motion-controller poses;
- the device pose oracle;
- the motion-controller poses reported for each motion source;
- the set of live components;
- the file and dialog outcomes;
- the world type;
- the capture device's answers.

## Model

| member | source | states |
|---|---|---|
| Names.NatToText | Plugins/SteamVRTrackingLib/Source/SteamVRTrackingEditor/Private/SDeviceSerialBinding.cpp:247 | the decimal text of a number is non-empty and all digits |
| Names.FoldIdempotent | Plugins/SteamVRTrackingLib/Source/SteamVRTrackingLib/Private/SteamVRTrackingLibBPLibrary.cpp:100-102 | folding a folded name changes nothing, so a key under which a name is stored finds itself |
| Names.ToName | Plugins/SteamVRTrackingLib/Source/SteamVRTrackingLib/Private/SteamVRTrackingLibBPLibrary.cpp:74-83 | building a name from text: the text "None" in any case and the empty text give the None name, any other text gives the name with exactly that text |
| Names.NameText | Plugins/SteamVRTrackingLib/Source/SteamVRTrackingLib/Private/SteamVRTrackingLibBPLibrary.cpp:266-269 | printing a name: the None name prints as "None", any other name as itself; the text is never empty |
| Names.NameTextRoundTrip | Plugins/SteamVRTrackingLib/Source/SteamVRTrackingLib/Private/SteamVRTrackingLibBPLibrary.cpp:266-269 | a name built from text is a name value, and building a name from the printed text of a name value gives that name back |
| Names.Atoi | Plugins/SteamVRTrackingLib/Source/SteamVRTrackingLib/Private/SteamVRTrackingLibBPLibrary.cpp:177 | text that, after white space, starts with neither a digit nor a sign reads as 0, and only a leading minus gives a negative number |
| Names.LeadingDigits | Plugins/SteamVRTrackingLib/Source/SteamVRTrackingLib/Private/SteamVRTrackingLibBPLibrary.cpp:177 | Atoi reads the longest digit prefix: a prefix of the input, all digits, followed by a non-digit or the end |
| Names.SkipSpaces | Plugins/SteamVRTrackingLib/Source/SteamVRTrackingLib/Private/SteamVRTrackingLibBPLibrary.cpp:177 | Atoi skips leading white space: the result is what follows a run of white-space characters at the start of the input, and it does not itself start with white space |
| Names.AtoiOfNatText | Plugins/SteamVRTrackingLib/Source/SteamVRTrackingLib/Private/SteamVRTrackingLibBPLibrary.cpp:174-177 | parsing the decimal text of n gives back n, which is the round trip the Special_N rule relies on |
| TrackingSetup.DefaultBinding | Plugins/SteamVRTrackingLib/Source/SteamVRTrackingLib/Public/SteamVRTrackingSetup.h:26-31 | a default binding has Type Invalid, Id INDEX_NONE and None serial and friendly name |
| TrackingSetup.ValuesInOrder | Plugins/SteamVRTrackingLib/Source/SteamVRTrackingEditor/Private/SteamVRTrackingEditor.cpp:111-112 | position i of the value array holds the value stored under the i-th enumerated key; one value per key |
| TrackingSetup.ValueArray | Plugins/SteamVRTrackingLib/Source/SteamVRTrackingEditor/Private/SteamVRTrackingEditor.cpp:111-112 | GenerateValueArray enumerates every key of the map exactly once and yields, position by position, that key's value |
| TrackingSetup.TrackingSetupAsset.constructor | Plugins/SteamVRTrackingLib/Source/SteamVRTrackingLib/Public/SteamVRTrackingSetup.h:34-45 | a new asset's device table is empty |
| DeviceRuntime.ValidIds | Plugins/SteamVRTrackingLib/Source/SteamVRTrackingLib/Private/SteamVRTrackingLibBPLibrary.cpp:134-145 | an id is listed iff some live device of that type has it, so there are never more ids than devices |
| DeviceRuntime.SerialNameOf | Plugins/SteamVRTrackingLib/Source/SteamVRTrackingLib/Private/SteamVRTrackingLib.cpp:29-31 | the name built from a device's serial text: that text itself unless the name is None |
| JsonHelpers.FormatKeysAreFolded | Plugins/SteamVRTrackingLib/Source/SteamVRTrackingLib/Private/SteamVRTrackingLibBPLibrary.cpp:46-65 | the keys "FormatVersion", "Devices", "SerialNumber", "Type" and "Name" are looked up case-insensitively |
| JsonHelpers.TruncateToInt | Plugins/SteamVRTrackingLib/Source/SteamVRTrackingLib/Private/SteamVRTrackingLibBPLibrary.cpp:54 | the (int32) cast truncates toward zero: below a non-negative number by less than one, above a negative one by less than one |
| JsonHelpers.AsString | Plugins/SteamVRTrackingLib/Source/SteamVRTrackingLib/Private/SteamVRTrackingLibBPLibrary.cpp:71-83 | a string gives its text, a number the text the engine prints for it, a boolean "true" or "false" (any case), and null, an array or an object the empty text |
| JsonHelpers.GetFormatVersion | Plugins/SteamVRTrackingLib/Source/SteamVRTrackingLib/Private/SteamVRTrackingLibBPLibrary.cpp:46-58 | 0 when "FormatVersion" is missing or not a JSON number; otherwise the number truncated toward zero |
| JsonHelpers.ReadJsonDevice | Plugins/SteamVRTrackingLib/Source/SteamVRTrackingLib/Private/SteamVRTrackingLibBPLibrary.cpp:60-86 | succeeds iff SerialNumber, Type and Name are all present and the lower-cased text of Type is "controller" or "vivetracker". A missing field leaves the output untouched. Otherwise Id becomes INDEX_NONE and the serial becomes the name built from the SerialNumber text, even when the type is then refused. On success the friendly name is built from the Name text the same way and the type is Controller or Other |
| TrackingLib.FirstMatch | Plugins/SteamVRTrackingLib/Source/SteamVRTrackingLib/Private/SteamVRTrackingLib.cpp:24-36 | the scan stops at the first valid id whose serial matches; no earlier id matches |
| TrackingLib.Refreshed | Plugins/SteamVRTrackingLib/Source/SteamVRTrackingLib/Private/SteamVRTrackingLib.cpp:22-36 | a refresh changes only the Id. A cached Id without force is kept, and a scan with no match keeps the old (possibly stale) Id. A changed Id is a valid id of the binding's type whose serial matches |
| TrackingLib.RefreshPicksFirstMatch | Plugins/SteamVRTrackingLib/Source/SteamVRTrackingLib/Private/SteamVRTrackingLib.cpp:24-36 | when a refresh happens and the k-th valid id is the first one whose serial matches, the new Id is that id |
| TrackingLib.RefreshedIdempotent | Plugins/SteamVRTrackingLib/Source/SteamVRTrackingLib/Private/SteamVRTrackingLib.cpp:22-36 | a lazy lookup stores what it finds, so a second lazy lookup of the result changes nothing |
| TrackingLib.ResolveByName | Plugins/SteamVRTrackingLib/Source/SteamVRTrackingLib/Private/SteamVRTrackingLib.cpp:18-45 | an unknown friendly name yields INDEX_NONE and leaves the map unchanged. A known name changes only its own entry's Id and returns it. A cached Id without force is returned as is |
| TrackingLib.LastNamed | Plugins/SteamVRTrackingLib/Source/SteamVRTrackingLib/Private/SteamVRTrackingLib.cpp:56-63 | the last binding in the list that has a serial and a friendly name with the given folded name, or -1 |
| TrackingLib.NamesFromArrayLastWins | Plugins/SteamVRTrackingLib/Source/SteamVRTrackingLib/Private/SteamVRTrackingLib.cpp:54-66 | after initialisation a name is a key iff some named binding carries it, and its entry is the last such binding with Id reset to INDEX_NONE |
| TrackingLib.NamesFromArrayEntries | Plugins/SteamVRTrackingLib/Source/SteamVRTrackingLib/Private/SteamVRTrackingLib.cpp:56-63 | every entry after initialisation has Id INDEX_NONE, non-None serial and name, and is keyed by its own friendly name |
| TrackingLib.TrackingLibModule.constructor | Plugins/SteamVRTrackingLib/Source/SteamVRTrackingLib/Private/SteamVRTrackingLib.cpp:54-66 | the cache starts empty |
| TrackingLib.TrackingLibModule.GetTrackedDeviceIdByName | Plugins/SteamVRTrackingLib/Source/SteamVRTrackingLib/Private/SteamVRTrackingLib.cpp:18-45 | the scan loop returns the id and leaves the map exactly as ResolveByName says |
| TrackingLib.TrackingLibModule.InitializeTrackingNamesFromArray | Plugins/SteamVRTrackingLib/Source/SteamVRTrackingLib/Private/SteamVRTrackingLib.cpp:54-66 | the map is emptied and rebuilt from the named bindings, the later of two equal names winning |
| TrackingLib.TrackingLibModule.InitializeTrackingNames | Plugins/SteamVRTrackingLib/Source/SteamVRTrackingLib/Private/SteamVRTrackingLib.cpp:47-52 | the cache is rebuilt from the asset's values, in some enumeration order of the asset's keys |
| TrackingLib.TrackingLibModule.GetTrackedDeviceSetupByName | Plugins/SteamVRTrackingLib/Source/SteamVRTrackingLib/Private/SteamVRTrackingLib.cpp:68-74 | copies the entry when the name is known and returns OutData untouched otherwise |
| BPLibrary.IsMotionSourceIgnoresCase | Plugins/SteamVRTrackingLib/Source/SteamVRTrackingLib/Private/SteamVRTrackingLibBPLibrary.cpp:100-102 | classification does not depend on letter case |
| BPLibrary.IsMotionSourceCases | Plugins/SteamVRTrackingLib/Source/SteamVRTrackingLib/Private/SteamVRTrackingLibBPLibrary.cpp:100-102 | a name is a motion source iff it is "Right" or "Left" or starts with "Special_" (ignoring case) |
| BPLibrary.FirstPose | Plugins/SteamVRTrackingLib/Source/SteamVRTrackingLib/Private/SteamVRTrackingLibBPLibrary.cpp:115-122 | the first motion controller that reports a pose; none before it does |
| BPLibrary.NearestIndex | Plugins/SteamVRTrackingLib/Source/SteamVRTrackingLib/Private/SteamVRTrackingLibBPLibrary.cpp:147-160 | the candidate with the strictly smallest squared distance below 10000, ties going to the earliest; -1 when no candidate is below 10000 |
| BPLibrary.PoseNearestId | Plugins/SteamVRTrackingLib/Source/SteamVRTrackingLib/Private/SteamVRTrackingLibBPLibrary.cpp:147-167 | the result is INDEX_NONE or a candidate within squared distance 25 that no candidate beats. When some candidate is within 25, the result is the nearest one |
| BPLibrary.Insert | Plugins/SteamVRTrackingLib/Source/SteamVRTrackingLib/Private/SteamVRTrackingLibBPLibrary.cpp:186 | inserting into a sorted list keeps it sorted and adds exactly the new element |
| BPLibrary.SortedAsc | Plugins/SteamVRTrackingLib/Source/SteamVRTrackingLib/Private/SteamVRTrackingLibBPLibrary.cpp:186 | sorting the tracker ids gives an ascending permutation of them |
| BPLibrary.SpecialTrackerId | Plugins/SteamVRTrackingLib/Source/SteamVRTrackingLib/Private/SteamVRTrackingLibBPLibrary.cpp:171-191 | INDEX_NONE unless the name starts with "Special" (ignoring case). Then N is Atoi of the text after the eighth character; the result is the N-th smallest live tracker id when 1 <= N <= number of trackers, and INDEX_NONE otherwise |
| BPLibrary.SpecialTrackerIdIsTracker | Plugins/SteamVRTrackingLib/Source/SteamVRTrackingLib/Private/SteamVRTrackingLibBPLibrary.cpp:178-187 | the pose-less fallback gives INDEX_NONE or the id of a live tracker |
| BPLibrary.SpecialNumberedTracker | Plugins/SteamVRTrackingLib/Source/SteamVRTrackingLib/Private/SteamVRTrackingLibBPLibrary.cpp:172-187 | "Special_N" with 1 <= N <= number of trackers names the N-th smallest tracker id |
| BPLibrary.HandWithoutPose | Plugins/SteamVRTrackingLib/Source/SteamVRTrackingLib/Private/SteamVRTrackingLibBPLibrary.cpp:169-191 | "Right" and "Left" without a pose resolve to INDEX_NONE |
| BPLibrary.ZeroPoseIsNoPose | Plugins/SteamVRTrackingLib/Source/SteamVRTrackingLib/Private/SteamVRTrackingLibBPLibrary.cpp:124-127 | a pose exactly at the origin resolves the same as no pose at all |
| BPLibrary.NearestDeviceId | Plugins/SteamVRTrackingLib/Source/SteamVRTrackingLib/Private/SteamVRTrackingLibBPLibrary.cpp:131-167 | the distance loop with MinDistance/MinId computes the nearest-within-threshold pick |
| BPLibrary.GetDeviceIdByMotionSource | Plugins/SteamVRTrackingLib/Source/SteamVRTrackingLib/Private/SteamVRTrackingLibBPLibrary.cpp:96-193 | a name that is not a motion source is resolved by the cache as a friendly name without force. A motion source leaves the cache unchanged and yields the pose or Special_N result. The index and the new cache are exactly those of SourceLookup on the old cache |
| BPLibrary.ReadMotionSourcePose | Plugins/SteamVRTrackingLib/Source/SteamVRTrackingLib/Private/SteamVRTrackingLibBPLibrary.cpp:110-127 | there is a valid pose iff the first reporting controller's location is not zero, and that location is returned |
| BPLibrary.SpecialTrackerIdOf | Plugins/SteamVRTrackingLib/Source/SteamVRTrackingLib/Private/SteamVRTrackingLibBPLibrary.cpp:171-191 | the sorting and parsing code computes the Special_N fallback |
| BPLibrary.PoseResultWithinThreshold | Plugins/SteamVRTrackingLib/Source/SteamVRTrackingLib/Private/SteamVRTrackingLibBPLibrary.cpp:147-167 | any id found through a pose is a candidate device within squared distance 25 of it; otherwise INDEX_NONE |
| BPLibrary.SetSteamVRTrackingSetup | Plugins/SteamVRTrackingLib/Source/SteamVRTrackingLib/Private/SteamVRTrackingLibBPLibrary.cpp:224-234 | fails and changes nothing without an asset; otherwise the cache is rebuilt from the asset's values |
| BPLibrary.GetTrackedDeviceSerialNumberByName | Plugins/SteamVRTrackingLib/Source/SteamVRTrackingLib/Private/SteamVRTrackingLibBPLibrary.cpp:349-357 | the cached entry's serial for a known name, None otherwise |
| BPLibrary.ExportTrackingSetupToJSON | Plugins/SteamVRTrackingLib/Source/SteamVRTrackingLib/Private/SteamVRTrackingLibBPLibrary.cpp:248-284 | the exported root has format version 1 and a "Devices" array with one record per binding |
| BPLibrary.DecodeDevices | Plugins/SteamVRTrackingLib/Source/SteamVRTrackingLib/Private/SteamVRTrackingLibBPLibrary.cpp:322-346 | import keeps the longest prefix of records that decode, in order; it succeeds iff every record decodes, and otherwise stops at the first bad one |
| BPLibrary.ImportTrackingSetupFromJSON | Plugins/SteamVRTrackingLib/Source/SteamVRTrackingLib/Private/SteamVRTrackingLibBPLibrary.cpp:286-347 | the append loop computes the import outcome. Output is untouched when the file is unreadable or "Devices" is missing or not an array |
| BPLibrary.DecodeDevicesFromPrefix | Plugins/SteamVRTrackingLib/Source/SteamVRTrackingLib/Private/SteamVRTrackingLibBPLibrary.cpp:322-346 | a decoded prefix ending at a bad record or at the end is exactly the import's outcome |
| BPLibrary.LoadSteamVRTrackingSetupFromFile | Plugins/SteamVRTrackingLib/Source/SteamVRTrackingLib/Private/SteamVRTrackingLibBPLibrary.cpp:236-246 | the cache is rebuilt from the file's devices only when the whole import succeeds; otherwise it is unchanged |
| BPLibrary.ReadExportedDevice | Plugins/SteamVRTrackingLib/Source/SteamVRTrackingLib/Private/SteamVRTrackingLibBPLibrary.cpp:262-272 | an exported record decodes back to the binding with Id INDEX_NONE, every non-Controller type read as Other, and the serial and friendly name built again from their printed text |
| BPLibrary.ImportOfExport | Plugins/SteamVRTrackingLib/Source/SteamVRTrackingLib/Private/SteamVRTrackingLibBPLibrary.cpp:248-347 | export then import succeeds and returns the same bindings, in order, normalised: serial and name rebuilt from their printed text, Controller kept, other types to Other, Id INDEX_NONE |
| SerialBindingRow.DeviceIdText | Plugins/SteamVRTrackingLib/Source/SteamVRTrackingEditor/Private/SDeviceSerialBinding.cpp:243-254 | the id text is "---" without data or with an Id of 0 or less, and otherwise three decimal digits; always three characters |
| SerialBindingRow.DeviceIdTextPadsId | Plugins/SteamVRTrackingLib/Source/SteamVRTrackingEditor/Private/SDeviceSerialBinding.cpp:247 | for Id > 0 the text is the last three decimal digits of the id, zero-padded |
| SerialBindingRow.DeviceIdTextExamples | Plugins/SteamVRTrackingLib/Source/SteamVRTrackingEditor/Private/SDeviceSerialBinding.cpp:243-254 | 7 gives "007", 1234 gives "234", 0 and missing data give "---" |
| SerialBindingRow.SerialNumberText | Plugins/SteamVRTrackingLib/Source/SteamVRTrackingEditor/Private/SDeviceSerialBinding.cpp:231-241 | the serial itself when the row has data with a non-None serial, and "UNKNOWN" otherwise; never empty |
| SerialBindingRow.BrushNameDistinguishes | Plugins/SteamVRTrackingLib/Source/SteamVRTrackingEditor/Private/SDeviceSerialBinding.cpp:62-65 | two brush names agree iff both or neither device is a controller and both status flags agree |
| SerialBindingRow.DeviceSerialBindingRow.constructor | Plugins/SteamVRTrackingLib/Source/SteamVRTrackingEditor/Private/SDeviceSerialBinding.cpp:24-53 | the tracking status is forced off for an unresolved device; the timer, the status brush and the friendly-name text (the binding's friendly name) exist only when both asset and data are present, and the row starts unselected |
| SerialBindingRow.DeviceSerialBindingRow.GetSerialNumber | Plugins/SteamVRTrackingLib/Source/SteamVRTrackingEditor/Private/SDeviceSerialBinding.cpp:341-344 | the data's serial when the row has data, the None name when it has none |
| SerialBindingRow.DeviceSerialBindingRow.MarkSelected | Plugins/SteamVRTrackingLib/Source/SteamVRTrackingEditor/Private/SDeviceSerialBinding.h:40 | the row is selected |
| SerialBindingRow.DeviceSerialBindingRow.MarkUnselected | Plugins/SteamVRTrackingLib/Source/SteamVRTrackingEditor/Private/SDeviceSerialBinding.h:41 | the row is not selected |
| SerialBindingRow.DeviceSerialBindingRow.SetVisibility | Plugins/SteamVRTrackingLib/Source/SteamVRTrackingEditor/Private/SteamVRTrackingSetupDetailsCustomization.cpp:139 | the row's visibility is the one requested |
| SerialBindingRow.DeviceSerialBindingRow.ReconstructObject | Plugins/SteamVRTrackingLib/Source/SteamVRTrackingEditor/Private/SDeviceSerialBinding.cpp:214-229 | the row shows the new data and name, and an existing status brush is recomposed so that it agrees with type and status |
| SerialBindingRow.DeviceSerialBindingRow.TimerUpdateWidget | Plugins/SteamVRTrackingLib/Source/SteamVRTrackingEditor/Private/SDeviceSerialBinding.cpp:293-334 | the timer continues iff asset and data exist. For Id > 0 the status becomes "valid id of its type with a non-origin pose". The brush changes only when the status does, and a brush that agreed with the status still agrees |
| SerialBindingRow.DeviceSerialBindingRow.OnMouseButtonUp | Plugins/SteamVRTrackingLib/Source/SteamVRTrackingEditor/Private/SDeviceSerialBinding.cpp:268-277 | a select request for the row's serial fires only if the row was not already selected; afterwards the row is selected |
| SerialBindingRow.DeviceSerialBindingRow.OnRemoveButtonClick | Plugins/SteamVRTrackingLib/Source/SteamVRTrackingEditor/Private/SDeviceSerialBinding.cpp:279-284 | the remove request carries the row's serial |
| SerialBindingRow.DeviceSerialBindingRow.OnFriendlyNameCommitted | Plugins/SteamVRTrackingLib/Source/SteamVRTrackingEditor/Private/SDeviceSerialBinding.cpp:200-207 | a rename request fires iff the row has data with a non-None serial, and carries that serial and the new text |
| DetailsCustomization.LastWithKey | Plugins/SteamVRTrackingLib/Source/SteamVRTrackingEditor/Private/SteamVRTrackingSetupDetailsCustomization.cpp:103-122 | the last active id whose serial has the given key, or -1 |
| DetailsCustomization.FirstWithKey | Plugins/SteamVRTrackingLib/Source/SteamVRTrackingEditor/Private/SteamVRTrackingSetupDetailsCustomization.cpp:103-122 | the first active id whose serial has the given key, or -1 |
| DetailsCustomization.MergedEntry | Plugins/SteamVRTrackingLib/Source/SteamVRTrackingEditor/Private/SteamVRTrackingSetupDetailsCustomization.cpp:103-122 | after the merge a serial is a key iff it was one or is live. A live one takes the last matching id; a new one is Controller iff its first device is a controller, else Other, with no friendly name; others are unchanged |
| DetailsCustomization.ClearStale | Plugins/SteamVRTrackingLib/Source/SteamVRTrackingEditor/Private/SteamVRTrackingSetupDetailsCustomization.cpp:125-131 | the keys are kept and only Ids change: an entry whose Id is an active id is untouched, and every other entry has its Id set to INDEX_NONE |
| DetailsCustomization.UpdatedSetupListsConnected | Plugins/SteamVRTrackingLib/Source/SteamVRTrackingEditor/Private/SteamVRTrackingSetupDetailsCustomization.cpp:93-146 | after an update every Id is INDEX_NONE or active, and every active device has an entry under its serial holding an active id with that serial |
| DetailsCustomization.UpdatedSetupKeyedBySerial | Plugins/SteamVRTrackingLib/Source/SteamVRTrackingEditor/Private/SteamVRTrackingSetupDetailsCustomization.cpp:103-122 | an update keeps every entry keyed by its own serial |
| DetailsCustomization.Renamed | Plugins/SteamVRTrackingLib/Source/SteamVRTrackingEditor/Private/SteamVRTrackingSetupDetailsCustomization.cpp:148-159 | a rename changes only the friendly name of the given serial's entry; the table is unchanged iff the serial is unknown or the name already matches |
| DetailsCustomization.SlotCount | Plugins/SteamVRTrackingLib/Source/SteamVRTrackingEditor/Private/SteamVRTrackingSetupDetailsCustomization.cpp:134-144 | the number of active rows is the smaller of the row count and the number of serials not yet shown |
| DetailsCustomization.ShownViews | Plugins/SteamVRTrackingLib/Source/SteamVRTrackingEditor/Private/SteamVRTrackingSetupDetailsCustomization.cpp:134-144 | from a given row on, the listed keys' entries are shown, visible, one per row in order; every other row shows what it showed before |
| DetailsCustomization.ShownViewsStep | Plugins/SteamVRTrackingLib/Source/SteamVRTrackingEditor/Private/SteamVRTrackingSetupDetailsCustomization.cpp:134-144 | showing one more key in the next free row extends the listing by exactly that key |
| DetailsCustomization.FreshRowViews | Plugins/SteamVRTrackingLib/Source/SteamVRTrackingEditor/Private/SteamVRTrackingSetupDetailsCustomization.cpp:65-84 | the 24 rows built for future devices are collapsed and each shows the empty binding |
| DetailsCustomization.FirstSameName | Plugins/SteamVRTrackingLib/Source/SteamVRTrackingEditor/Private/SteamVRTrackingSetupDetailsCustomization.cpp:186-192 | the first row whose serial matches; none before it does |
| DetailsCustomization.SetupDetailsCustomization.constructor | Plugins/SteamVRTrackingLib/Source/SteamVRTrackingEditor/Private/SteamVRTrackingSetupDetailsCustomization.h:26-31 | the panel starts with no asset, no rows and no active serials |
| DetailsCustomization.SetupDetailsCustomization.CustomizeDetails | Plugins/SteamVRTrackingLib/Source/SteamVRTrackingEditor/Private/SteamVRTrackingSetupDetailsCustomization.cpp:25-91 | only a single selected asset is customised: any other selection count, or a null asset, leaves every row (view, selection, status) and every selected asset's table as they were, and a null asset is only recorded. Otherwise the None key is purged, 24 fresh rows are appended (collapsed, showing the empty binding), the slot bookkeeping restarts and the table becomes the merged, stale-cleared table. The listed keys are shown, visible and with their entries, one per row from row 0 in order; every other row shows what it showed before. The old rows keep their selection, and the new ones start unselected |
| DetailsCustomization.SetupDetailsCustomization.UpdateWidgetsList | Plugins/SteamVRTrackingLib/Source/SteamVRTrackingEditor/Private/SteamVRTrackingSetupDetailsCustomization.cpp:93-146 | the asset's table becomes the merged and stale-cleared table and the rows are assigned to its serials. Each key given a row is shown, visible and with its new entry, in the next free rows in order; every other row shows what it showed before, and the row list itself is unchanged. No row's selection changes, and every row outside the newly filled ones keeps its status |
| DetailsCustomization.SetupDetailsCustomization.MergeActiveDevices | Plugins/SteamVRTrackingLib/Source/SteamVRTrackingEditor/Private/SteamVRTrackingSetupDetailsCustomization.cpp:102-122 | the merge loop over the active ids produces the Merged table |
| DetailsCustomization.SetupDetailsCustomization.ListDevices | Plugins/SteamVRTrackingLib/Source/SteamVRTrackingEditor/Private/SteamVRTrackingSetupDetailsCustomization.cpp:124-145 | the loop clears the stale Ids of the table and gives each unrecorded key the next free row while rows last. Each such key is shown, visible and with its entry, in those rows in order; every other row shows what it showed before. No row's selection changes, and every row outside the newly filled ones keeps its status |
| DetailsCustomization.SetupDetailsCustomization.ListOne | Plugins/SteamVRTrackingLib/Source/SteamVRTrackingEditor/Private/SteamVRTrackingSetupDetailsCustomization.cpp:127-144 | one entry's stale id is cleared and its serial recorded. It is shown in the next row iff it was new and a row was free; no selection changes, and only that row's status can change |
| DetailsCustomization.SetupDetailsCustomization.ShowInNextRow | Plugins/SteamVRTrackingLib/Source/SteamVRTrackingEditor/Private/SteamVRTrackingSetupDetailsCustomization.cpp:136-142 | the next free row shows the entry and becomes visible; other rows keep their view and status, and no row's selection changes |
| DetailsCustomization.SetupDetailsCustomization.OnDeviceUpdateName | Plugins/SteamVRTrackingLib/Source/SteamVRTrackingEditor/Private/SteamVRTrackingSetupDetailsCustomization.cpp:148-159 | the table is renamed as Renamed says |
| DetailsCustomization.SetupDetailsCustomization.OnDeviceSelected | Plugins/SteamVRTrackingLib/Source/SteamVRTrackingEditor/Private/SteamVRTrackingSetupDetailsCustomization.cpp:161-170 | a row stays selected iff it was selected and shows the requested serial; every row keeps its data, visibility, asset, status, timer, status image and name text |
| DetailsCustomization.SetupDetailsCustomization.OnDeviceRemove | Plugins/SteamVRTrackingLib/Source/SteamVRTrackingEditor/Private/SteamVRTrackingSetupDetailsCustomization.cpp:172-194 | refused, with no change, while the serial's entry holds an index; otherwise the entry is removed and only the first row showing that serial is collapsed. Every row keeps its data, selection, asset, status, timer, status image and name text |
| DetailsCustomization.SetupDetailsCustomization.CollapseFirstRow | Plugins/SteamVRTrackingLib/Source/SteamVRTrackingEditor/Private/SteamVRTrackingSetupDetailsCustomization.cpp:186-193 | only the first row whose serial matches is collapsed; every row keeps its data, selection, asset, status, timer, status image and name text |
| DetailsCustomization.SetupDetailsCustomization.OnUpdateButtonClick | Plugins/SteamVRTrackingLib/Source/SteamVRTrackingEditor/Private/SteamVRTrackingSetupDetailsCustomization.cpp:196-200 | the button runs the update: the table becomes the merged and stale-cleared table, new keys are shown, visible and with their entries, in the next free rows in order, and every other row shows what it showed before. No row's selection changes, and every row outside the newly filled ones keeps its status |
| TrackingEditor.SerialTable | Plugins/SteamVRTrackingLib/Source/SteamVRTrackingEditor/Private/SteamVRTrackingEditor.cpp:152-156 | every imported binding's serial is a key of the rebuilt table |
| TrackingEditor.SerialTableKeys | Plugins/SteamVRTrackingLib/Source/SteamVRTrackingEditor/Private/SteamVRTrackingEditor.cpp:152-156 | the keys are exactly the imported serials |
| TrackingEditor.SerialTableLastWins | Plugins/SteamVRTrackingLib/Source/SteamVRTrackingEditor/Private/SteamVRTrackingEditor.cpp:153-156 | with duplicated serials the later binding wins |
| TrackingEditor.SerialTableKeyedBySerial | Plugins/SteamVRTrackingLib/Source/SteamVRTrackingEditor/Private/SteamVRTrackingEditor.cpp:152-156 | every entry of the rebuilt table is keyed by its own serial |
| TrackingEditor.ReplaceDeviceSetup | Plugins/SteamVRTrackingLib/Source/SteamVRTrackingEditor/Private/SteamVRTrackingEditor.cpp:152-156 | the Empty-then-Add loop replaces the asset's table wholesale by the serial table of the imported list |
| TrackingEditor.ImportIntoAsset | Plugins/SteamVRTrackingLib/Source/SteamVRTrackingEditor/Private/SteamVRTrackingEditor.cpp:128-157 | a tracking-setup asset with a chosen file gets the serial table of whatever was imported; any other asset is untouched |
| TrackingEditor.ImportTrackingSetupFromJson | Plugins/SteamVRTrackingLib/Source/SteamVRTrackingEditor/Private/SteamVRTrackingEditor.cpp:120-161 | every eligible asset ends up holding the serial table of the last file imported into it, and a selected asset for which no import was eligible keeps its table |
| TrackingEditor.UnreadableFileClears | Plugins/SteamVRTrackingLib/Source/SteamVRTrackingEditor/Private/SteamVRTrackingEditor.cpp:147-156 | because the import result is ignored, an unreadable file leaves the asset with an empty table |
| TrackingEditor.PartialImportInstallsPrefix | Plugins/SteamVRTrackingLib/Source/SteamVRTrackingEditor/Private/SteamVRTrackingEditor.cpp:147-156 | a failed import still installs the prefix of records read before the bad one |
| TrackingEditor.ExportAsset | Plugins/SteamVRTrackingLib/Source/SteamVRTrackingEditor/Private/SteamVRTrackingEditor.cpp:93-114 | a file is written iff the asset is a tracking setup and a file was chosen, and it holds exactly the table's values |
| TrackingEditor.ExportTrackingSetupToJson | Plugins/SteamVRTrackingLib/Source/SteamVRTrackingEditor/Private/SteamVRTrackingEditor.cpp:85-118 | for every selected asset a file is written iff eligible, holding that asset's table |
| TrackingEditor.SerialTableOfDistinct | Plugins/SteamVRTrackingLib/Source/SteamVRTrackingEditor/Private/SteamVRTrackingEditor.cpp:152-156 | with distinct serials every imported binding is found under its own serial |
| TrackingEditor.ReimportedRecords | Plugins/SteamVRTrackingLib/Source/SteamVRTrackingEditor/Private/SteamVRTrackingEditor.cpp:111-147 | re-importing an exported table reads back every value, in order, normalised |
| TrackingEditor.TableOfNormalized | Plugins/SteamVRTrackingLib/Source/SteamVRTrackingEditor/Private/SteamVRTrackingEditor.cpp:152-156 | the serial table of the normalised values of a serial-keyed table whose serials are name values is that table, normalised |
| TrackingEditor.ReimportRestoresTable | Plugins/SteamVRTrackingLib/Source/SteamVRTrackingEditor/Private/SteamVRTrackingEditor.cpp:85-161 | exporting a serial-keyed asset whose serials are name values and importing the file back restores its keys, each entry normalised: ids reset, non-controller types as Other, serial and name rebuilt from their printed text |
| EditorController.FirstNamed | Plugins/SteamVRTrackingLib/Source/SteamVRTrackingLib/Private/EditorSteamVRController.cpp:93-100 | the first component with the wanted name; none before it has that name |
| EditorController.BindingFor | Plugins/SteamVRTrackingLib/Source/SteamVRTrackingLib/Private/EditorSteamVRController.cpp:84-112 | an entry yields a binding iff it has an actor, a non-None key and a matching component. The binding's source is the key, its id the resolved id and its component the first match |
| EditorController.ObjectsList | Plugins/SteamVRTrackingLib/Source/SteamVRTrackingLib/Private/EditorSteamVRController.cpp:82-114 | the rebuilt list is never longer than the tracked objects |
| EditorController.ObjectsListMembers | Plugins/SteamVRTrackingLib/Source/SteamVRTrackingLib/Private/EditorSteamVRController.cpp:84-113 | a binding is in the rebuilt list iff some tracked entry yields it |
| EditorController.ObjectsListComplete | Plugins/SteamVRTrackingLib/Source/SteamVRTrackingLib/Private/EditorSteamVRController.cpp:84-113 | the list is as long as the tracked objects iff every entry yields a binding |
| EditorController.Resolved | Plugins/SteamVRTrackingLib/Source/SteamVRTrackingLib/Private/EditorSteamVRController.cpp:57-64 | a tick keeps a known id and resolves only an INDEX_NONE one; source and component are kept |
| EditorController.Placements | Plugins/SteamVRTrackingLib/Source/SteamVRTrackingLib/Private/EditorSteamVRController.cpp:55-71 | at most one placement per binding |
| EditorController.ResolveAllEntries | Plugins/SteamVRTrackingLib/Source/SteamVRTrackingLib/Private/EditorSteamVRController.cpp:101-110 | a run of lookups keeps the cache's keys and lazily refreshes exactly the entries of the friendly names looked up, once however often each is looked up; other entries are untouched |
| EditorController.ResolveAllKeepsIds | Plugins/SteamVRTrackingLib/Source/SteamVRTrackingLib/Private/EditorSteamVRController.cpp:101-110 | looking sources up never changes the index that a later lookup of any source gives |
| EditorController.RebuiltListSettled | Plugins/SteamVRTrackingLib/Source/SteamVRTrackingLib/Private/EditorSteamVRController.cpp:53-64 | in the tick that rebuilt the list, looking an unresolved binding up again gives the same answer, so no binding of a freshly rebuilt list changes |
| EditorController.EditorSteamVRController.constructor | Plugins/SteamVRTrackingLib/Source/SteamVRTrackingLib/Private/EditorSteamVRController.cpp:10-16 | a new controller has no setup, no tracked objects, no bindings and is disabled |
| EditorController.EditorSteamVRController.FindTarget | Plugins/SteamVRTrackingLib/Source/SteamVRTrackingLib/Private/EditorSteamVRController.cpp:89-100 | the component search loop finds the first component with the name |
| EditorController.EditorSteamVRController.UpdateObjectsList | Plugins/SteamVRTrackingLib/Source/SteamVRTrackingLib/Private/EditorSteamVRController.cpp:75-115 | the cache is reloaded from the asset's values when one is set. The list is rebuilt from the tracked objects, each binding's index being what GetDeviceIdByMotionSource gives against the reloaded cache. The cache ends up holding what those lookups wrote to it |
| EditorController.EditorSteamVRController.AllAttachedAlive | Plugins/SteamVRTrackingLib/Source/SteamVRTrackingLib/Private/EditorSteamVRController.cpp:21-32 | true iff every binding's attached component is still valid |
| EditorController.EditorSteamVRController.EnsureUpdated | Plugins/SteamVRTrackingLib/Source/SteamVRTrackingLib/Private/EditorSteamVRController.cpp:18-43 | a usable list (equal non-zero counts, all components valid) is kept with the cache, and true returned. Otherwise the cache is reloaded and the list rebuilt as UpdateObjectsList says, and the result says whether the counts now match and are non-zero |
| EditorController.EditorSteamVRController.Tick | Plugins/SteamVRTrackingLib/Source/SteamVRTrackingLib/Private/EditorSteamVRController.cpp:45-73 | nothing happens when disabled. Otherwise the list is kept or rebuilt as EnsureUpdated says. Each binding without an index then takes the index a lookup gives against the cache at the start of the pass, a known index is kept, and the cache holds what those lookups wrote. The placements are the bindings with a known index, in order |
| EditorController.EditorSteamVRController.ResolveAndPlace | Plugins/SteamVRTrackingLib/Source/SteamVRTrackingLib/Private/EditorSteamVRController.cpp:53-71 | each binding without an index is resolved in place by a lookup against the cache, the cache records the lookups of the unresolved bindings in order, and exactly the bindings with a known index are placed, in order |
| EditorController.EditorSteamVRController.GetUpdatedObjects | Plugins/SteamVRTrackingLib/Source/SteamVRTrackingLib/Private/EditorSteamVRController.cpp:117-120 | returns exactly the current binding list |
| EditorController.KnownIdsKept | Plugins/SteamVRTrackingLib/Source/SteamVRTrackingLib/Private/EditorSteamVRController.cpp:57-64 | a binding with a known id comes out of a tick unchanged |
| TrackedDeviceComponent.NextIdUpdateTime | Plugins/SteamVRTrackingLib/Source/SteamVRTrackingLib/Private/SteamVRTrackedDeviceComponent.cpp:404-417 | with a positive interval and the deadline passed, the next deadline is now plus the interval; otherwise it is kept |
| TrackedDeviceComponent.ForcedAtMostOncePerInterval | Plugins/SteamVRTrackingLib/Source/SteamVRTrackingLib/Private/SteamVRTrackedDeviceComponent.cpp:404-413 | after a forced refresh with a positive interval, no poll within the interval forces another |
| TrackedDeviceComponent.ForcedAgainAfterInterval | Plugins/SteamVRTrackingLib/Source/SteamVRTrackingLib/Private/SteamVRTrackedDeviceComponent.cpp:404-413 | a poll after the interval has elapsed forces a refresh again |
| TrackedDeviceComponent.NegativeIntervalNeverForces | Plugins/SteamVRTrackingLib/Source/SteamVRTrackingLib/Private/SteamVRTrackedDeviceComponent.cpp:414-417 | a negative interval never forces a refresh and never moves the deadline |
| TrackedDeviceComponent.ShowingHidesAsWritten | Plugins/SteamVRTrackingLib/Source/SteamVRTrackingLib/Private/SteamVRTrackedDeviceComponent.cpp:166-174 | as written, showing the model in a game hides an existing display component and creates none when there is none |
| TrackedDeviceComponent.ForceUpdateId | Plugins/SteamVRTrackingLib/Source/SteamVRTrackingLib/Private/SteamVRTrackedDeviceComponent.cpp:404-417 | with a positive interval a poll forces a refresh iff the deadline has passed; with a zero interval always; with a negative one never |
| TrackedDeviceComponent.ShowActionAsWritten | Plugins/SteamVRTrackingLib/Source/SteamVRTrackingLib/Private/SteamVRTrackedDeviceComponent.cpp:152-177 | as written: an editor instance always rebuilds, SetHiddenInGame receives the show flag itself, and without a display component a refresh happens exactly when the model is hidden |
| TrackedDeviceComponent.ShowActionCorrected | Plugins/SteamVRTrackingLib/Source/SteamVRTrackingLib/Private/SteamVRTrackedDeviceComponent.cpp:152-177 | corrected: a display component is hidden exactly when the model is not shown, and a missing one is created exactly when it is shown |
| TrackedDeviceComponent.SteamVRTrackedDeviceComponent.constructor | Plugins/SteamVRTrackingLib/Source/SteamVRTrackingLib/Private/SteamVRTrackedDeviceComponent.cpp:40-63 | defaults: source "Right" flagged as a motion source, interval 5 s, untracked, no display model |
| TrackedDeviceComponent.SteamVRTrackedDeviceComponent.DefaultIsMotionSource | Plugins/SteamVRTrackingLib/Source/SteamVRTrackingLib/Private/SteamVRTrackedDeviceComponent.cpp:40-63 | the default source "Right" is a motion source |
| TrackedDeviceComponent.SteamVRTrackedDeviceComponent.BeginPlay | Plugins/SteamVRTrackingLib/Source/SteamVRTrackingLib/Private/SteamVRTrackedDeviceComponent.cpp:65-73 | the motion-source flag is recomputed from the name |
| TrackedDeviceComponent.SteamVRTrackedDeviceComponent.SetTrackedDeviceName | Plugins/SteamVRTrackingLib/Source/SteamVRTrackingLib/Private/SteamVRTrackedDeviceComponent.cpp:180-195 | the name is set and the motion-source flag recomputed |
| TrackedDeviceComponent.SteamVRTrackedDeviceComponent.PollControllerState | Plugins/SteamVRTrackingLib/Source/SteamVRTrackingLib/Private/SteamVRTrackedDeviceComponent.cpp:375-431 | no authority or no module means untracked and no schedule change, and without authority the module's name cache is unchanged. A motion source resolves through the pose rules. A friendly name advances the schedule and resolves with force exactly when the deadline has passed. Tracked iff the id is known and has a pose |
| TrackedDeviceComponent.SteamVRTrackedDeviceComponent.TickComponent | Plugins/SteamVRTrackingLib/Source/SteamVRTrackingLib/Private/SteamVRTrackedDeviceComponent.cpp:122-149 | an inactive component changes nothing: tracking, location, authority, module, schedule and the module's name cache are kept. An active tick polls as PollControllerState states: authority becomes the net-owner flag, the module is the cached one or the loaded one, a motion source's id is the pose or Special_N rule's id with the name cache unchanged, and a friendly name's id is the cache lookup of that name, forced by the update schedule, which advances as NextIdUpdateTime says. Tracked iff that id is known and has a pose, and the location is then that device's pose. A display refresh is requested only on the untracked-to-tracked transition with the model displayed |
| TrackedDeviceComponent.SteamVRTrackedDeviceComponent.SetShowDeviceModel | Plugins/SteamVRTrackingLib/Source/SteamVRTrackingLib/Private/SteamVRTrackedDeviceComponent.cpp:152-177 | no-op when the value is unchanged. Otherwise the flag changes, an editor instance forces a rebuild, and in a game the display follows the corrected rule. The display component's materials are never replaced |
| TrackedDeviceComponent.SteamVRTrackedDeviceComponent.OnDisplayModelLoaded | Plugins/SteamVRTrackingLib/Source/SteamVRTrackingLib/Private/SteamVRTrackedDeviceComponent.cpp:511-525 | acts only for the current component or a pending load. It then overrides the first min(materials, overrides) slots and marks the load complete; otherwise nothing changes |
| MocapController.FindCoDirection | Plugins/SteamVRTrackingLib/Source/SteamVRTrackingLib/Private/EditorViveMocapController.cpp:420-451 | X iff the first absolute dot strictly exceeds both others, Y likewise for the second, Z otherwise; the multiplier is +1 iff the chosen dot is positive, else -1 |
| MocapController.TieGoesToZ | Plugins/SteamVRTrackingLib/Source/SteamVRTrackingLib/Private/EditorViveMocapController.cpp:434-449 | any tie for the largest absolute dot yields Z |
| MocapController.MakeRotByTwoAxes | Plugins/SteamVRTrackingLib/Source/SteamVRTrackingLib/Private/EditorViveMocapController.cpp:454-481 | no builder iff the axes are equal or either is missing; otherwise the builder uses the main and secondary axes in that order |
| MocapController.FindBoneIndex | Plugins/SteamVRTrackingLib/Source/SteamVRTrackingLib/Private/EditorViveMocapController.cpp:394 | the first bone with the name, or INDEX_NONE when none has it |
| MocapController.AncestorChainIsParentWalk | Plugins/SteamVRTrackingLib/Source/SteamVRTrackingLib/Private/EditorViveMocapController.cpp:394-416 | the chain starts at the bone, each next element is the previous one's parent, it ends at a root and has at most bone+1 elements |
| MocapController.RestoreRefBonePose | Plugins/SteamVRTrackingLib/Source/SteamVRTrackingLib/Private/EditorViveMocapController.cpp:384-417 | the parent-index loop composes exactly the bone's ancestor chain |
| MocapController.LastSourceSlot | Plugins/SteamVRTrackingLib/Source/SteamVRTrackingLib/Private/EditorViveMocapController.cpp:190-211 | the recorded hand slot is the passed-in value or a uint8 index |
| MocapController.LastSourceSlotIsLast | Plugins/SteamVRTrackingLib/Source/SteamVRTrackingLib/Private/EditorViveMocapController.cpp:190-211 | with fewer than 256 bindings, the slot is the index of the last binding with that source |
| MocapController.RightIsNotLeft | Plugins/SteamVRTrackingLib/Source/SteamVRTrackingLib/Private/EditorViveMocapController.cpp:194-201 | no source is both "Right" and "Left", so the two slot branches never both apply |
| MocapController.CollectedInputs | Plugins/SteamVRTrackingLib/Source/SteamVRTrackingLib/Private/EditorViveMocapController.cpp:190-211 | without a usable list nothing is collected; otherwise one component per binding, in order, with the hand slots of the last "Right"/"Left" bindings |
| MocapController.EditorViveMocapController.constructor | Plugins/SteamVRTrackingLib/Source/SteamVRTrackingLib/Private/EditorViveMocapController.cpp:24-49 | a new controller has no input controller, is disabled and uninitialised, with no input components |
| MocapController.EditorViveMocapController.GetInputComponents | Plugins/SteamVRTrackingLib/Source/SteamVRTrackingLib/Private/EditorViveMocapController.cpp:173-212 | outputs are untouched without a controller or when its list cannot be made usable. The controller's list and the cache are kept or rebuilt exactly as EnsureUpdated says. Otherwise there is one component per binding, and the hand slots are those of the last "Right"/"Left" bindings |
| MocapController.EditorViveMocapController.CollectInputs | Plugins/SteamVRTrackingLib/Source/SteamVRTrackingLib/Private/EditorViveMocapController.cpp:190-211 | the collection loop computes the components and hand slots |
| MocapController.EditorViveMocapController.RestoreRefPose | Plugins/SteamVRTrackingLib/Source/SteamVRTrackingLib/Private/EditorViveMocapController.cpp:304-308 | every bone's reference pose is restored through its ancestor chain |
| MocapController.EditorViveMocapController.BuildTPose | Plugins/SteamVRTrackingLib/Source/SteamVRTrackingLib/Private/EditorViveMocapController.cpp:287-382 | fails without a mesh or with any of the six arm bones unmapped. On success the component axes are chosen, and arm builders are made iff the arms are not horizontal (abs dot >= 0.2) |
| MocapController.EditorViveMocapController.InitializeDevice | Plugins/SteamVRTrackingLib/Source/SteamVRTrackingLib/Private/EditorViveMocapController.cpp:117-171 | the capture device gets input only with a controller, a mapped T-pose and more than three tracker components. With a controller and a T-pose it gets input iff the ensured list is usable and has more than three bindings, and that input is the list's components in order with the last "Right"/"Left" slots. Without a controller or a T-pose the rig setup, the input controller and the name cache are unchanged |
| MocapController.EditorViveMocapController.StartMocap | Plugins/SteamVRTrackingLib/Source/SteamVRTrackingLib/Private/EditorViveMocapController.cpp:214-265 | only an initialised controller whose capture device is initialised can start, and an uninitialised device clears the flag. Without a calibration, or a stored one applied, nothing changes. With the input count already matching, the controller is enabled. Otherwise the inputs are collected again and passed on iff their count matches the device's; the controller is enabled iff they are passed on or it already was. When no input is passed on the input count is kept, and unless the inputs were collected again the input controller and the name cache are unchanged |
| MocapController.EditorViveMocapController.StopMocap | Plugins/SteamVRTrackingLib/Source/SteamVRTrackingLib/Private/EditorViveMocapController.cpp:267-271 | stopping always disables |

## Left out

- Name comparison folds ASCII letters only. The engine's Unicode case folding and `FString::ToLower` beyond ASCII are not modelled.
- JSON text parsing, pretty printing and file I/O are not modelled. A file that cannot be read or parsed is `None`. A JSON number carries the text the engine prints for it (`AsString` on a number); how that text is formatted from the double is not modelled.
- JsonHelpers.GetFormatVersion: `TryGetNumber` also accepts a string that parses as a number and a boolean (read as 1 or 0). The model reads only JSON numbers and gives 0 for every other value.
- DeviceRuntime.ValidIds: states which ids are listed, not their order. The order is the device list's, which the model keeps but does not promise.
- Names: a stored serial or friendly name is a name value (never a spelling of "None" other than the None name itself), since names read from text go through `ToName`. A model binding holding such text is not one the engine can hold, and `NamesFromArray` treats it as named.
- TrackingEditor.ReimportRestoresTable: requires the table's serials to be name values, which every table the engine builds satisfies.
- Floating-point distances, dot products and times are `real`, so float rounding is not modelled.
- `int32` overflow of ids and of the parsed Special_N number is not modelled; integers are unbounded.
- GetTrackedDeviceSerialNumber (SteamVRTrackingLibBPLibrary.cpp:195-222) is the device list's `SerialOf`. Its "Can't find SteamVR" path (no OpenVR system) is left out as a driver call.
- GetJsonTypeDesc is a logging helper and is left out.
- Export writes "ViveTracker" for every type other than Controller, including TrackingReference and Invalid. The model states this as the normalisation in ImportOfExport rather than as a separate rule.
- Slate layout, styles, transactions (`Modify`, `FScopedTransaction`), menu extenders and file dialogs are not modelled. The dialog outcome is a parameter.
- DetailsCustomization.SetupDetailsCustomization: row widgets are objects, but the data a row holds is a copy of the binding, not a reference into the asset's table. Aliasing between a row and the table is not modelled.
- `CastChecked` failures, which crash the engine, are not modelled. Objects that are not tracking-setup assets are not eligible.
- DetailsCustomization.SlotsAssigned states the slot rule without cardinality; the count itself is proved separately in SlotCount.
- EditorController: `GetDeviceIdByMotionSource` is modelled through the name cache (`SourceLookup`), with the motion-controller poses given as a function of the source name. The set of live components stands in for `IsValid`. The device pose query and `SetRelativeLocationAndRotation` become a list of placements.
- TrackedDeviceComponent.SteamVRTrackedDeviceComponent.SetShowDeviceModel: the editor-only branch (`WITH_EDITORONLY_DATA` and the world type) is the `isGameInstance` parameter. `RefreshDisplayComponent` is only requested (the returned option), not modelled; the asset system and component creation are out of scope. The method follows the corrected rule `ShowActionCorrected`, not the code as written: as written, `SetHiddenInGame` receives the show flag un-negated and a missing display component is refreshed only when the model is hidden (`ShowActionAsWritten`, see Findings).
- TrackedDeviceComponent.SteamVRTrackedDeviceComponent.PollControllerState: orientation and the world-to-meters scale are not modelled; only the position is.
- The render-thread late update (`FViewExtension`, critical section, render commands) is concurrency and is not modelled.
- TMap enumeration order is unspecified in the engine. The model picks some order, and states results for an enumeration of the keys.
- MocapController: rotation, vector and transform numerics are abstracted. Direction choices become the dot products they compare, and rotators become the builder chosen. A same-axis pair in MakeRotByTwoAxes leaves the rotator unset; the model calls that `Unset`.
- MocapController.RestoreRefBonePose requires a well-formed skeleton (each parent comes before its child), the engine's reference-skeleton invariant. It returns the chain of bones composed instead of the transform.
- MocapController.EditorViveMocapController.InitializeDevice: the capture device's calls and answers are parameters. The editor skeletal-mesh components and InitializeFingers are not modelled.
- MocapController.EditorViveMocapController.StartMocap: GetBodyCalibration (EditorViveMocapController.cpp:273-285) and the save-game load become the calibration tracker count and result inputs.
- Source/MThesis_VR file helpers and SessionCalibrationSave.h are thin file-system and save-game wrappers and are not modelled.

## Findings

| source | as written | input that shows it | evidently intended | confidence | as-written member | corrected member |
|---|---|---|---|---|---|---|
| Plugins/SteamVRTrackingLib/Source/SteamVRTrackingLib/Private/SteamVRTrackedDeviceComponent.cpp:166-174 | `SetHiddenInGame(bShowDeviceModel)` hides the display component when the model is to be shown, and a missing component is refreshed only when the model is hidden | in a game world with a display component, SetShowDeviceModel(true) after false hides the model | hide exactly when not shown (`SetHiddenInGame(!bShowDeviceModel)`), and create a missing component when shown | medium, not executed | TrackedDeviceComponent.ShowingHidesAsWritten | TrackedDeviceComponent.ShowActionCorrected |
