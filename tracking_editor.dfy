/**
 * The editor's asset actions (FSteamVRTrackingEditor): exporting a selected
 * tracking-setup asset to JSON and importing JSON into it.
 *
 * The file dialogs and the file itself are inputs: for each selected asset a
 * `FileChoice` says whether a file was chosen and, for an import, what the
 * file held once parsed (None when it could not be read or parsed).
 */
module TrackingEditor {
  import opened Opt
  import opened Names
  import opened TrackingSetup
  import opened JsonHelpers
  import opened BPLibrary

  /** An entry of the content browser's selection. */
  datatype SelectedAsset = SelectedAsset(isTrackingSetupClass: bool, asset: TrackingSetupAsset?)

  datatype FileChoice = Cancelled | Chosen(content: Option<JsonObject>)

  /** The actions touch an asset only when it is of exactly the tracking-setup class, loads, and a file was chosen. */
  predicate Eligible(selected: SelectedAsset, choice: FileChoice) {
    selected.isTrackingSetupClass && choice.Chosen? && selected.asset != null
  }

  // ---------------------------------------------------------------------
  // Import: the asset's table is replaced by the imported records

  /**
   * The table after emptying it and adding each binding under its serial
   * number in turn: a later binding with the same serial replaces an
   * earlier one.
   */
  function SerialTable(bindings: seq<Binding>): (table: map<Name, Binding>)
    ensures forall i :: 0 <= i < |bindings| ==> Fold(bindings[i].SerialNumber) in table
  {
    if bindings == [] then map[]
    else
      var last := bindings[|bindings| - 1];
      SerialTable(bindings[..|bindings| - 1])[Fold(last.SerialNumber) := last]
  }

  /** The serial keys of the table are exactly the serials of the bindings. */
  lemma {:induction false} SerialTableKeys(bindings: seq<Binding>, k: Name)
    ensures k in SerialTable(bindings) <==> exists i :: 0 <= i < |bindings| && Fold(bindings[i].SerialNumber) == k
  {
    if bindings != [] {
      var prefix := bindings[..|bindings| - 1];
      SerialTableKeys(prefix, k);
      if exists i :: 0 <= i < |prefix| && Fold(prefix[i].SerialNumber) == k {
        var i :| 0 <= i < |prefix| && Fold(prefix[i].SerialNumber) == k;
        assert bindings[i] == prefix[i];
      }
      if k in SerialTable(bindings) && k != Fold(bindings[|bindings| - 1].SerialNumber) {
        var i :| 0 <= i < |prefix| && Fold(prefix[i].SerialNumber) == k;
        assert bindings[i] == prefix[i];
      }
    }
  }

  /** The entry under a serial is the last binding carrying that serial. */
  lemma {:induction false} SerialTableLastWins(bindings: seq<Binding>, i: nat)
    requires i < |bindings|
    requires forall j :: i < j < |bindings| ==> Fold(bindings[j].SerialNumber) != Fold(bindings[i].SerialNumber)
    ensures SerialTable(bindings)[Fold(bindings[i].SerialNumber)] == bindings[i]
  {
    if i < |bindings| - 1 {
      SerialTableLastWins(bindings[..|bindings| - 1], i);
    }
  }

  /** Every entry of the table is stored under its own serial. */
  lemma {:induction false} SerialTableKeyedBySerial(bindings: seq<Binding>)
    ensures KeyedBySerial(SerialTable(bindings))
  {
    if bindings != [] {
      SerialTableKeyedBySerial(bindings[..|bindings| - 1]);
    }
  }

  /** The records an import reads from a chosen file into an empty array; the read result itself is ignored. */
  function ImportedRecords(choice: FileChoice): seq<Binding>
    requires choice.Chosen?
  {
    ImportSpec([], choice.content).setup
  }

  /** Empties the asset's table and adds the records one by one under their serials. */
  method ReplaceDeviceSetup(asset: TrackingSetupAsset, trackingSetupArray: seq<Binding>)
    modifies asset
    ensures asset.deviceSetup == SerialTable(trackingSetupArray)
  {
    asset.deviceSetup := map[];
    var i := 0;
    while i < |trackingSetupArray|
      invariant 0 <= i <= |trackingSetupArray|
      invariant asset.deviceSetup == SerialTable(trackingSetupArray[..i])
    {
      var value := trackingSetupArray[i];
      assert trackingSetupArray[..i + 1][..i] == trackingSetupArray[..i];
      asset.deviceSetup := asset.deviceSetup[Fold(value.SerialNumber) := value];
      i := i + 1;
    }
    assert trackingSetupArray[..i] == trackingSetupArray;
  }

  /** The import of one selected asset. */
  method ImportIntoAsset(selected: SelectedAsset, choice: FileChoice)
    modifies if selected.asset != null then {selected.asset} else {}
    ensures Eligible(selected, choice) ==> selected.asset.deviceSetup == SerialTable(ImportedRecords(choice))
    ensures !Eligible(selected, choice) && selected.asset != null ==>
              selected.asset.deviceSetup == old(selected.asset.deviceSetup)
  {
    if selected.isTrackingSetupClass && choice.Chosen? && selected.asset != null {
      var _, trackingSetupArray := ImportTrackingSetupFromJSON([], choice.content);
      ReplaceDeviceSetup(selected.asset, trackingSetupArray);
    }
  }

  /** No later entry of the selection imports into the same asset. */
  predicate LastImportInto(selected: seq<SelectedAsset>, choices: seq<FileChoice>, i: nat, upTo: nat)
    requires i < upTo <= |selected| == |choices|
  {
    forall j :: i < j < upTo && Eligible(selected[j], choices[j]) ==> selected[j].asset != selected[i].asset
  }

  function SelectedSetups(selected: seq<SelectedAsset>): set<TrackingSetupAsset> {
    set i | 0 <= i < |selected| && selected[i].asset != null :: selected[i].asset
  }

  /** No entry of the selection before `upTo` is an eligible import into `asset`. */
  predicate NeverImported(selected: seq<SelectedAsset>, choices: seq<FileChoice>, asset: TrackingSetupAsset, upTo: nat)
    requires upTo <= |selected| == |choices|
  {
    forall i :: 0 <= i < upTo && selected[i].asset == asset ==> !Eligible(selected[i], choices[i])
  }

  /**
   * ImportTrackingSetupFromJson over the selection: every eligible asset ends
   * up holding the records of the last file imported into it, and a selected
   * asset no import was eligible for keeps its table.
   */
  method ImportTrackingSetupFromJson(selected: seq<SelectedAsset>, choices: seq<FileChoice>)
    requires |choices| == |selected|
    modifies SelectedSetups(selected)
    ensures forall i :: 0 <= i < |selected| && Eligible(selected[i], choices[i]) && LastImportInto(selected, choices, i, |selected|) ==>
              selected[i].asset.deviceSetup == SerialTable(ImportedRecords(choices[i]))
    ensures forall a :: a in SelectedSetups(selected) && NeverImported(selected, choices, a, |selected|) ==>
              a.deviceSetup == old(a.deviceSetup)
  {
    var n := 0;
    while n < |selected|
      invariant 0 <= n <= |selected|
      invariant forall i :: 0 <= i < n && Eligible(selected[i], choices[i]) && LastImportInto(selected, choices, i, n) ==>
                  selected[i].asset.deviceSetup == SerialTable(ImportedRecords(choices[i]))
      invariant forall a :: a in SelectedSetups(selected) && NeverImported(selected, choices, a, n) ==>
                  a.deviceSetup == old(a.deviceSetup)
    {
      label before:
      ImportIntoAsset(selected[n], choices[n]);
      assert forall a :: a in SelectedSetups(selected) && (a != selected[n].asset || !Eligible(selected[n], choices[n])) ==>
               a.deviceSetup == old@before(a.deviceSetup);
      forall i | 0 <= i < n && Eligible(selected[i], choices[i]) && LastImportInto(selected, choices, i, n + 1)
        ensures selected[i].asset.deviceSetup == SerialTable(ImportedRecords(choices[i]))
      {
        assert LastImportInto(selected, choices, i, n);
      }
      forall a | a in SelectedSetups(selected) && NeverImported(selected, choices, a, n + 1)
        ensures a.deviceSetup == old(a.deviceSetup)
      {
        assert NeverImported(selected, choices, a, n);
      }
      n := n + 1;
    }
  }

  /** A file that cannot be read or parsed still empties the asset. */
  lemma UnreadableFileClears()
    ensures SerialTable(ImportedRecords(Chosen(None))) == map[]
  {
  }

  /** A file whose device list stops at a bad record installs the records before it. */
  lemma {:induction false} PartialImportInstallsPrefix(root: JsonObject, i: nat)
    requires KEY_DEVICES in root && root[KEY_DEVICES].JArray?
    requires i < |root[KEY_DEVICES].items|
    requires forall j :: 0 <= j < i ==> DecodeDevice(root[KEY_DEVICES].items[j]).ok
    requires !DecodeDevice(root[KEY_DEVICES].items[i]).ok
    ensures !ImportSpec([], Some(root)).ok
    ensures ImportedRecords(Chosen(Some(root)))
            == seq(i, j requires 0 <= j < i => DecodeDevice(root[KEY_DEVICES].items[j]).binding)
  {
    var items := root[KEY_DEVICES].items;
    var prefix := seq(i, j requires 0 <= j < i => DecodeDevice(items[j]).binding);
    assert ReadAsFar(items, i, prefix);
    DecodeDevicesFromPrefix(items, i, prefix);
  }

  // ---------------------------------------------------------------------
  // Export: exactly the table's values go to the JSON exporter

  /** The export of one selected asset: the JSON tree written, if any. */
  method ExportAsset(selected: SelectedAsset, choice: FileChoice) returns (written: Option<JsonObject>, ghost keys: seq<Name>)
    ensures written.Some? <==> Eligible(selected, choice)
    ensures written.Some? ==>
              Enumerates(keys, selected.asset.deviceSetup)
              && written.value == ExportTrackingSetupToJSON(ValuesInOrder(selected.asset.deviceSetup, keys))
  {
    keys := [];
    written := None;
    if selected.isTrackingSetupClass && choice.Chosen? && selected.asset != null {
      var trackingSetupArray;
      keys, trackingSetupArray := ValueArray(selected.asset.deviceSetup);
      assert trackingSetupArray == ValuesInOrder(selected.asset.deviceSetup, keys);
      written := Some(ExportTrackingSetupToJSON(trackingSetupArray));
    }
  }

  /** `root` is the export of the table's values in some enumeration order. */
  ghost predicate ExportOfTable(root: JsonObject, setup: map<Name, Binding>) {
    exists keys :: Enumerates(keys, setup) && root == ExportTrackingSetupToJSON(ValuesInOrder(setup, keys))
  }

  /** ExportTrackingSetupToJson over the selection: one tree per eligible asset, nothing for the others. */
  method ExportTrackingSetupToJson(selected: seq<SelectedAsset>, choices: seq<FileChoice>) returns (written: seq<Option<JsonObject>>)
    requires |choices| == |selected|
    ensures |written| == |selected|
    ensures forall i :: 0 <= i < |selected| ==>
              (written[i].Some? <==> Eligible(selected[i], choices[i]))
              && (written[i].Some? ==> ExportOfTable(written[i].value, selected[i].asset.deviceSetup))
  {
    written := [];
    var n := 0;
    while n < |selected|
      invariant 0 <= n <= |selected| && |written| == n
      invariant forall i :: 0 <= i < n ==>
                  (written[i].Some? <==> Eligible(selected[i], choices[i]))
                  && (written[i].Some? ==> ExportOfTable(written[i].value, selected[i].asset.deviceSetup))
    {
      var one, keys := ExportAsset(selected[n], choices[n]);
      written := written + [one];
      n := n + 1;
    }
  }

  // ---------------------------------------------------------------------
  // Round trip

  /** Bindings with pairwise different serials each keep their own entry. */
  lemma SerialTableOfDistinct(records: seq<Binding>)
    requires forall i, j :: 0 <= i < j < |records| ==> Fold(records[i].SerialNumber) != Fold(records[j].SerialNumber)
    ensures forall i :: 0 <= i < |records| ==> SerialTable(records)[Fold(records[i].SerialNumber)] == records[i]
  {
    forall i | 0 <= i < |records|
      ensures SerialTable(records)[Fold(records[i].SerialNumber)] == records[i]
    {
      SerialTableLastWins(records, i);
    }
  }

  /** The records read back from the export of a table, in the table's enumeration order. */
  lemma ReimportedRecords(setup: map<Name, Binding>, keys: seq<Name>)
    requires Enumerates(keys, setup)
    ensures var records := ImportedRecords(Chosen(Some(ExportTrackingSetupToJSON(ValuesInOrder(setup, keys)))));
            |records| == |keys| && forall i :: 0 <= i < |keys| ==> records[i] == Normalized(setup[keys[i]])
  {
    ImportOfExport(ValuesInOrder(setup, keys), []);
  }

  /** Every serial the table holds is a name the engine can hold (none is a spelling of "None"). */
  predicate SerialsAreNameValues(setup: map<Name, Binding>) {
    forall k :: k in setup ==> IsNameValue(setup[k].SerialNumber)
  }

  /** Normalizing keeps a serial that is a name value. */
  lemma {:induction false} NormalizedSerial(b: Binding)
    requires IsNameValue(b.SerialNumber)
    ensures Normalized(b).SerialNumber == b.SerialNumber
  {
  }

  /** The i-th normalized entry carries the i-th key as its serial. */
  lemma {:induction false} RecordSerials(setup: map<Name, Binding>, keys: seq<Name>, records: seq<Binding>)
    requires KeyedBySerial(setup) && Enumerates(keys, setup) && SerialsAreNameValues(setup)
    requires |records| == |keys| && forall i :: 0 <= i < |keys| ==> records[i] == Normalized(setup[keys[i]])
    ensures forall i :: 0 <= i < |keys| ==> Fold(records[i].SerialNumber) == keys[i]
  {
    forall i | 0 <= i < |keys| ensures Fold(records[i].SerialNumber) == keys[i] {
      NormalizedSerial(setup[keys[i]]);
    }
  }

  /** The serials of the normalized entries are exactly the table's keys. */
  lemma NormalizedRecordKeys(setup: map<Name, Binding>, keys: seq<Name>, records: seq<Binding>, k: Name)
    requires KeyedBySerial(setup) && Enumerates(keys, setup) && SerialsAreNameValues(setup)
    requires |records| == |keys| && forall i :: 0 <= i < |keys| ==> records[i] == Normalized(setup[keys[i]])
    ensures k in SerialTable(records) <==> k in setup
  {
    SerialTableKeys(records, k);
    RecordSerials(setup, keys, records);
    if k in setup {
      assert k in keys;
      var i :| 0 <= i < |keys| && keys[i] == k;
      assert Fold(records[i].SerialNumber) == k;
    }
    if exists i :: 0 <= i < |records| && Fold(records[i].SerialNumber) == k {
      var i :| 0 <= i < |records| && Fold(records[i].SerialNumber) == k;
      assert keys[i] in setup;
      assert Fold(records[i].SerialNumber) == keys[i];
    }
  }

  /** The serial table of the normalized entries has the table's keys. */
  lemma NormalizedTableKeys(setup: map<Name, Binding>, keys: seq<Name>, records: seq<Binding>)
    requires KeyedBySerial(setup) && Enumerates(keys, setup) && SerialsAreNameValues(setup)
    requires |records| == |keys| && forall i :: 0 <= i < |keys| ==> records[i] == Normalized(setup[keys[i]])
    ensures SerialTable(records).Keys == setup.Keys
  {
    forall k
      ensures k in SerialTable(records) <==> k in setup
    {
      NormalizedRecordKeys(setup, keys, records, k);
    }
  }

  /** Each key of the table finds its own normalized entry in the serial table of the normalized entries. */
  lemma NormalizedTableValues(setup: map<Name, Binding>, keys: seq<Name>, records: seq<Binding>)
    requires KeyedBySerial(setup) && Enumerates(keys, setup) && SerialsAreNameValues(setup)
    requires |records| == |keys| && forall i :: 0 <= i < |keys| ==> records[i] == Normalized(setup[keys[i]])
    ensures forall k :: k in setup ==> k in SerialTable(records) && SerialTable(records)[k] == Normalized(setup[k])
  {
    RecordSerials(setup, keys, records);
    SerialTableOfDistinct(records);
    forall k | k in setup
      ensures k in SerialTable(records) && SerialTable(records)[k] == Normalized(setup[k])
    {
      var i :| 0 <= i < |keys| && keys[i] == k;
      assert Fold(records[i].SerialNumber) == k;
    }
  }

  /** Adding the normalized entries of a serial-keyed table, one per key, rebuilds the normalized table. */
  lemma TableOfNormalized(setup: map<Name, Binding>, keys: seq<Name>, records: seq<Binding>)
    requires KeyedBySerial(setup) && Enumerates(keys, setup) && SerialsAreNameValues(setup)
    requires |records| == |keys| && forall i :: 0 <= i < |keys| ==> records[i] == Normalized(setup[keys[i]])
    ensures SerialTable(records) == NormalizedTable(setup)
  {
    NormalizedTableKeys(setup, keys, records);
    NormalizedTableValues(setup, keys, records);
    MapsAgree(SerialTable(records), NormalizedTable(setup));
  }

  /** The table with every binding reduced to what an exported file keeps. */
  function NormalizedTable(setup: map<Name, Binding>): (r: map<Name, Binding>)
    ensures r.Keys == setup.Keys
    ensures forall k :: k in setup ==> r[k] == Normalized(setup[k])
  {
    map k | k in setup :: Normalized(setup[k])
  }

  /** Two maps with the same keys and the same value under each key are equal. */
  lemma MapsAgree(a: map<Name, Binding>, b: map<Name, Binding>)
    requires a.Keys == b.Keys && forall k :: k in a ==> a[k] == b[k]
    ensures a == b
  {
  }

  /**
   * Exporting a table kept under its serials and importing the file back
   * gives the same keys, each binding reduced to what the file keeps: the
   * serial, the friendly name and whether it is a controller. The serials
   * are names the engine holds, so none of them is a spelling of "None".
   */
  lemma {:induction false} ReimportRestoresTable(setup: map<Name, Binding>, keys: seq<Name>)
    requires KeyedBySerial(setup) && Enumerates(keys, setup) && SerialsAreNameValues(setup)
    ensures SerialTable(ImportedRecords(Chosen(Some(ExportTrackingSetupToJSON(ValuesInOrder(setup, keys))))))
            == NormalizedTable(setup)
  {
    ReimportedRecords(setup, keys);
    TableOfNormalized(setup, keys, ImportedRecords(Chosen(Some(ExportTrackingSetupToJSON(ValuesInOrder(setup, keys))))));
  }
}
