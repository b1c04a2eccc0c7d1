/**
 * Backup export and import (src/utils/dataExport.ts) over an abstract key-value
 * store. Stored texts are represented by the JSON values they parse to.
 */
module Backup {

  datatype Json =
    | JNull
    | JBool(b: bool)
    | JNumber(x: real)
    | JString(s: string)
    | JArray(items: seq<Json>)
    | JObject(fields: map<string, Json>)

  /** JavaScript truthiness of a parsed value (NaN is not a JSON value). */
  predicate Truthy(j: Json) {
    match j
    case JNull => false
    case JBool(b) => b
    case JNumber(x) => x != 0.0
    case JString(s) => s != ""
    case JArray(_) => true
    case JObject(_) => true
  }

  /** Each stored key with its text, read through `JSON.parse`. */
  type Store = map<string, Json>

  const BackupKeys: seq<string> := [
    "lifts_weights",
    "lifts_workout_history",
    "lifts_exercise_failures",
    "lifts_exercise_deloads",
    "lifts_unit_system",
    "lifts_accessories",
    "lifts_accessory_colors",
    "lifts_rep_schemes",
    "lifts_available_plates"
  ]

  const DumpVersion: string := "1.0.0"

  /** `v ? JSON.parse(v) : null` for a key of `multiGet`. */
  function StoredOrNull(store: Store, k: string): Json {
    if k in store then store[k] else JNull
  }

  /** The dump after the header and the first `|keys|` entries of `multiGet`. */
  function Dump(store: Store, keys: seq<string>, exportDate: string): (d: map<string, Json>)
    ensures forall k :: k in d <==> k in keys || k == "version" || k == "exportDate"
    ensures forall k :: k in keys ==> d[k] == StoredOrNull(store, k)
    ensures "version" !in keys ==> d["version"] == JString(DumpVersion)
    ensures "exportDate" !in keys ==> d["exportDate"] == JString(exportDate)
    decreases |keys|
  {
    if keys == [] then map["version" := JString(DumpVersion), "exportDate" := JString(exportDate)]
    else
      var init := keys[..|keys| - 1];
      var k := keys[|keys| - 1];
      assert forall x :: x in keys <==> x in init || x == k;
      Dump(store, init, exportDate)[k := StoredOrNull(store, k)]
  }

  /** The dump half of `exportData`; writing the file and sharing it are not modelled. */
  method ExportData(store: Store, keys: seq<string>, exportDate: string) returns (dump: map<string, Json>)
    ensures dump == Dump(store, keys, exportDate)
  {
    dump := map["version" := JString(DumpVersion), "exportDate" := JString(exportDate)];
    for i := 0 to |keys|
      invariant dump == Dump(store, keys[..i], exportDate)
    {
      assert keys[..i + 1][..i] == keys[..i];
      dump := dump[keys[i] := StoredOrNull(store, keys[i])];
    }
    assert keys[..|keys|] == keys;
  }

  /** A key the import takes from the file: a backup key present there and not null. */
  ghost predicate Selected(fields: map<string, Json>, keys: seq<string>, k: string) {
    k in keys && k in fields && fields[k] != JNull
  }

  /** The `toWrite` list after the first `|keys|` backup keys. */
  function ToWrite(fields: map<string, Json>, keys: seq<string>): (w: seq<(string, Json)>)
    ensures forall i :: 0 <= i < |w| ==> Selected(fields, keys, w[i].0) && w[i].1 == fields[w[i].0]
    ensures forall k :: Selected(fields, keys, k) ==> exists i :: 0 <= i < |w| && w[i].0 == k
    decreases |keys|
  {
    if keys == [] then []
    else
      var init := keys[..|keys| - 1];
      var k := keys[|keys| - 1];
      assert forall x :: x in keys <==> x in init || x == k;
      var w := ToWrite(fields, init);
      assert forall x :: Selected(fields, keys, x) && x != k ==> Selected(fields, init, x);
      if k in fields && fields[k] != JNull then
        assert (w + [(k, fields[k])])[|w|].0 == k;
        assert forall i :: 0 <= i < |w| ==> (w + [(k, fields[k])])[i] == w[i];
        w + [(k, fields[k])]
      else w
  }

  /** `multiSet`: the pairs written in order. */
  function WriteAll(store: Store, pairs: seq<(string, Json)>): (r: Store)
    ensures forall k :: k in r <==> k in store || exists i :: 0 <= i < |pairs| && pairs[i].0 == k
    ensures forall k :: k in store && (forall i :: 0 <= i < |pairs| ==> pairs[i].0 != k) ==> r[k] == store[k]
    decreases |pairs|
  {
    if pairs == [] then store
    else
      var rest := pairs[1..];
      assert forall i :: 1 <= i < |pairs| ==> pairs[i] == rest[i - 1];
      WriteAll(store[pairs[0].0 := pairs[0].1], rest)
  }

  /** A key written with one value only ends up holding that value. */
  lemma {:induction false} WriteAllValue(store: Store, pairs: seq<(string, Json)>, i: nat)
    requires i < |pairs|
    requires forall j :: 0 <= j < |pairs| && pairs[j].0 == pairs[i].0 ==> pairs[j].1 == pairs[i].1
    ensures pairs[i].0 in WriteAll(store, pairs) && WriteAll(store, pairs)[pairs[i].0] == pairs[i].1
    decreases |pairs|
  {
    var rest, k := pairs[1..], pairs[i].0;
    var store' := store[pairs[0].0 := pairs[0].1];
    assert WriteAll(store, pairs) == WriteAll(store', rest);
    assert forall j :: 0 <= j < |rest| ==> rest[j] == pairs[j + 1];
    if i > 0 {
      WriteAllValue(store', rest, i - 1);
    } else if j :| 0 <= j < |rest| && rest[j].0 == k {
      WriteAllValue(store', rest, j);
    } else {
      assert k in store' && store'[k] == pairs[0].1;
    }
  }

  /** The picker's result: cancelled (or no asset), a file whose text cannot be read or parsed, or its parsed value. */
  datatype ImportFile = Cancelled | Unreadable | Parsed(value: Json)

  /** The `onSuccess` callback, which is the caller's code. */
  datatype Callback = NoCallback | Succeeds | Throws

  datatype Message = NoMessage | InvalidFile | ImportComplete | ImportFailed

  datatype ImportOutcome = ImportOutcome(ok: bool, store: Store, callbackRan: bool, message: Message)

  /** Everything `importData` decides: its result, the new store, the callback and the alert. */
  function Import(store: Store, file: ImportFile, keys: seq<string>, callback: Callback): (r: ImportOutcome)
    ensures r.ok ==> file.Parsed?
  {
    match file
    case Cancelled => ImportOutcome(false, store, false, NoMessage)
    case Unreadable => ImportOutcome(false, store, false, ImportFailed)
    case Parsed(JNull) => ImportOutcome(false, store, false, ImportFailed)
    case Parsed(j) =>
      if !HasVersion(j) then ImportOutcome(false, store, false, InvalidFile)
      else
        var toWrite := ToWrite(j.fields, keys);
        if |toWrite| == 0 then ImportOutcome(true, store, false, NoMessage)
        else
          var written := WriteAll(store, toWrite);
          match callback
          case NoCallback => ImportOutcome(true, written, false, ImportComplete)
          case Succeeds => ImportOutcome(true, written, true, ImportComplete)
          case Throws => ImportOutcome(false, written, true, ImportFailed)
  }

  /** `!parsed.version` is false: only an object can carry the field. */
  predicate HasVersion(j: Json) {
    j.JObject? && "version" in j.fields && Truthy(j.fields["version"])
  }

  method ImportData(store: Store, file: ImportFile, keys: seq<string>, callback: Callback)
    returns (ok: bool, newStore: Store, callbackRan: bool, message: Message)
    ensures ImportOutcome(ok, newStore, callbackRan, message) == Import(store, file, keys, callback)
  {
    if file.Cancelled? {
      return false, store, false, NoMessage;
    }
    if file.Unreadable? || file.value.JNull? {
      return false, store, false, ImportFailed;
    }
    var parsed := file.value;
    if !HasVersion(parsed) {
      return false, store, false, InvalidFile;
    }
    var toWrite: seq<(string, Json)> := [];
    for i := 0 to |keys|
      invariant toWrite == ToWrite(parsed.fields, keys[..i])
    {
      assert keys[..i + 1][..i] == keys[..i];
      var key := keys[i];
      if key in parsed.fields && parsed.fields[key] != JNull {
        toWrite := toWrite + [(key, parsed.fields[key])];
      }
    }
    assert keys[..|keys|] == keys;
    ok, newStore, callbackRan, message := true, store, false, NoMessage;
    if |toWrite| > 0 {
      newStore := WriteAll(store, toWrite);
      match callback
      case NoCallback =>
        message := ImportComplete;
      case Succeeds =>
        callbackRan, message := true, ImportComplete;
      case Throws =>
        ok, callbackRan, message := false, true, ImportFailed;
    }
  }

  // ---------------------------------------------------------------- properties

  /** A cancelled pick, an unreadable file or a missing or falsy version writes nothing and fails. */
  lemma RejectedImportWritesNothing(store: Store, file: ImportFile, keys: seq<string>, callback: Callback)
    requires !(file.Parsed? && HasVersion(file.value))
    ensures !Import(store, file, keys, callback).ok
    ensures Import(store, file, keys, callback).store == store
    ensures !Import(store, file, keys, callback).callbackRan
  {
  }

  /**
   * An accepted file writes exactly its present, non-null backup keys, so `version`,
   * `exportDate` and unknown keys are never written and every other stored key keeps its value.
   */
  lemma ImportWritesSelectedKeys(store: Store, fields: map<string, Json>, keys: seq<string>, callback: Callback)
    requires HasVersion(JObject(fields))
    ensures var r := Import(store, Parsed(JObject(fields)), keys, callback);
      (forall k :: k in r.store <==> k in store || Selected(fields, keys, k)) &&
      (forall k :: Selected(fields, keys, k) ==> r.store[k] == fields[k]) &&
      (forall k :: k in store && !Selected(fields, keys, k) ==> r.store[k] == store[k])
  {
    var w := ToWrite(fields, keys);
    forall k | Selected(fields, keys, k) && |w| > 0
      ensures WriteAll(store, w)[k] == fields[k]
    {
      var i :| 0 <= i < |w| && w[i].0 == k;
      WriteAllValue(store, w, i);
    }
    forall k | k in store && !Selected(fields, keys, k) && |w| > 0
      ensures WriteAll(store, w)[k] == store[k]
    {
      assert forall i :: 0 <= i < |w| ==> w[i].0 != k;
    }
  }

  /** With nothing to write the store is left alone and the callback is skipped. */
  lemma EmptyImportSkipsCallback(store: Store, fields: map<string, Json>, keys: seq<string>, callback: Callback)
    requires HasVersion(JObject(fields))
    requires forall k :: !Selected(fields, keys, k)
    ensures Import(store, Parsed(JObject(fields)), keys, callback) == ImportOutcome(true, store, false, NoMessage)
  {
  }

  /**
   * Exporting a store and importing the dump into a later store gives every backup key
   * that held a non-null value back its value, and leaves every other key as it was then.
   */
  lemma ExportImportRoundTrip(store: Store, later: Store, keys: seq<string>, exportDate: string, callback: Callback)
    requires "version" !in keys
    ensures var r := Import(later, Parsed(JObject(Dump(store, keys, exportDate))), keys, callback);
      (forall k :: k in keys && k in store && store[k] != JNull ==> k in r.store && r.store[k] == store[k]) &&
      (forall k :: !(k in keys && k in store && store[k] != JNull) ==>
        (k in r.store <==> k in later) && (k in later ==> r.store[k] == later[k])) &&
      (callback != Throws ==> r.ok)
  {
    var d := Dump(store, keys, exportDate);
    ImportWritesSelectedKeys(later, d, keys, callback);
    assert forall k :: Selected(d, keys, k) <==> k in keys && k in store && store[k] != JNull;
  }

  /** The backup keys never collide with the dump's header fields. */
  lemma BackupKeysLeaveHeaderAlone()
    ensures "version" !in BackupKeys && "exportDate" !in BackupKeys
    ensures Dump(map[], BackupKeys, "")["version"] == JString(DumpVersion)
  {
  }
}
