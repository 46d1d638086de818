/**
 * The save-file side of the planner: the JSON shape a saved empire is
 * written in, the structural checks an imported file must pass, reading a
 * file back, and the pruning of old backups in browser storage.
 */
module DataManagement {
  import opened Wrappers
  import opened Text
  import Empires

  /** A parsed JSON value; a number is kept as a real, with no IEEE rounding. */
  datatype Json =
    | JNull
    | JBool(b: bool)
    | JNum(n: real)
    | JString(s: string)
    | JArray(items: seq<Json>)
    | JObject(fields: map<string, Json>)

  const StorageKey: string := "fv-tactical-empire"
  const FileVersion: string := "1.0"
  const MaxFileSize: int := 10 * 1024 * 1024
  const BackupMarker: string := "_backup_"

  /** A property read: `None` stands for `undefined`, a missing key or a read off a non-object. */
  function Get(v: Json, key: string): (r: Option<Json>)
    ensures r.Some? <==> v.JObject? && key in v.fields
  {
    if v.JObject? && key in v.fields then Some(v.fields[key]) else None
  }

  /** JavaScript truthiness of a property read. */
  predicate Truthy(v: Option<Json>)
  {
    match v
    case None => false
    case Some(JNull) => false
    case Some(JBool(b)) => b
    case Some(JNum(n)) => n != 0.0
    case Some(JString(s)) => s != ""
    case Some(JArray(_)) => true
    case Some(JObject(_)) => true
  }

  /** The `typeof` of a property read. */
  function TypeOf(v: Option<Json>): string
  {
    match v
    case None => "undefined"
    case Some(JNull) => "object"
    case Some(JBool(_)) => "boolean"
    case Some(JNum(_)) => "number"
    case Some(JString(_)) => "string"
    case Some(JArray(_)) => "object"
    case Some(JObject(_)) => "object"
  }

  /** `Array.isArray` of a property read. */
  predicate IsArray(v: Option<Json>)
  {
    v.Some? && v.value.JArray?
  }

  // ------------------------------------------------------------- validation

  /** validateImportData, check by check. */
  function ValidateImportData(data: Json): bool
  {
    if TypeOf(Some(data)) != "object" || data == JNull then false
    else if !Truthy(Get(data, "empire")) || TypeOf(Get(data, "empire")) != "object" then false
    else
      var empire := Get(data, "empire").value;
      if TypeOf(Get(empire, "name")) != "string"
        || TypeOf(Get(empire, "techPoints")) != "number"
        || !IsArray(Get(empire, "researchedTech"))
        || !IsArray(Get(empire, "availableTech"))
        || TypeOf(Get(empire, "designs")) != "object"
      then false
      else if Truthy(Get(data, "widgets")) && !IsArray(Get(data, "widgets")) then false
      else if Truthy(Get(data, "connections")) && !IsArray(Get(data, "connections")) then false
      else true
  }

  /** The empire shape an import needs; `designs` may be null, an array or an object. */
  predicate EmpireShaped(e: Json)
  {
    && e.JObject?
    && "name" in e.fields && e.fields["name"].JString?
    && "techPoints" in e.fields && e.fields["techPoints"].JNum?
    && "researchedTech" in e.fields && e.fields["researchedTech"].JArray?
    && "availableTech" in e.fields && e.fields["availableTech"].JArray?
    && "designs" in e.fields && (e.fields["designs"].JNull? || e.fields["designs"].JArray? || e.fields["designs"].JObject?)
  }

  /** A list field that is absent, falsy or an array. */
  predicate ListOrAbsent(v: Option<Json>)
  {
    v.None? || v.value in {JNull, JBool(false), JNum(0.0), JString("")} || v.value.JArray?
  }

  /**
   * An import is accepted exactly when it is an object whose empire has a
   * string name, a numeric tech point total, two arrays of technologies and
   * a designs value of type object (null included), and whose widgets and
   * connections are arrays whenever they are truthy.
   */
  lemma ValidateImportDataSpec(data: Json)
    ensures ValidateImportData(data) <==>
      && data.JObject?
      && "empire" in data.fields && EmpireShaped(data.fields["empire"])
      && ListOrAbsent(Get(data, "widgets"))
      && ListOrAbsent(Get(data, "connections"))
  {
    var w := Get(data, "widgets");
    var c := Get(data, "connections");
    assert Truthy(w) && !IsArray(w) <==> !ListOrAbsent(w);
    assert Truthy(c) && !IsArray(c) <==> !ListOrAbsent(c);
  }

  // -------------------------------------------------------- reading it back

  /** What deserializeEmpireData hands back, and whether it warned about the version. */
  datatype Loaded = Loaded(empire: Option<Json>, widgets: Json, connections: Json, timestamp: Option<Json>, versionWarning: bool)

  /** `v || fallback`. */
  function Or(v: Option<Json>, fallback: Json): (r: Json)
    ensures Truthy(v) ==> r == v.value
    ensures !Truthy(v) ==> r == fallback
  {
    if Truthy(v) then v.value else fallback
  }

  /** deserializeEmpireData; reading a property of null throws, so null is excluded. */
  function DeserializeEmpireData(data: Json): Loaded
    requires data != JNull
  {
    var version := Get(data, "fileVersion");
    Loaded(Get(data, "empire"), Or(Get(data, "widgets"), JArray([])), Or(Get(data, "connections"), JArray([])),
           Get(data, "timestamp"), Truthy(version) && version != Some(JString(FileVersion)))
  }

  /**
   * Reading back an accepted file yields an object-typed empire, and
   * widgets and connections that are always arrays (empty when the file
   * left them out or falsy).
   */
  lemma DeserializeValidated(data: Json)
    requires ValidateImportData(data)
    ensures var r := DeserializeEmpireData(data);
      && r.empire.Some? && EmpireShaped(r.empire.value)
      && r.widgets.JArray? && r.connections.JArray?
      && (IsArray(Get(data, "widgets")) ==> r.widgets == Get(data, "widgets").value)
      && (IsArray(Get(data, "connections")) ==> r.connections == Get(data, "connections").value)
  {
    ValidateImportDataSpec(data);
  }

  // ---------------------------------------------------------------- saving

  function DesignValue(d: Empires.Design): Json
  {
    JObject(map["id" := JString(d.id), "name" := JString(d.name)])
  }

  function DesignListValue(ds: seq<Empires.Design>): (r: Json)
    ensures r.JArray? && |r.items| == |ds|
  {
    JArray(seq(|ds|, i requires 0 <= i < |ds| => DesignValue(ds[i])))
  }

  function StringListValue(ss: seq<string>): (r: Json)
    ensures r.JArray? && |r.items| == |ss|
  {
    JArray(seq(|ss|, i requires 0 <= i < |ss| => JString(ss[i])))
  }

  /** The JSON object Empire.toJSON produces; absent fields are left out. */
  function EmpireValue(j: Empires.EmpireJson): Json
  {
    JObject(
      (if j.name.Some? then map["name" := JString(j.name.value)] else map[])
      + (if j.techPoints.Some? then map["techPoints" := JNum(j.techPoints.value as real)] else map[])
      + (if j.researchedTech.Some? then map["researchedTech" := StringListValue(j.researchedTech.value)] else map[])
      + (if j.availableTech.Some? then map["availableTech" := StringListValue(j.availableTech.value)] else map[])
      + (if j.designs.Some?
         then map["designs" := JObject(map t | t in j.designs.value :: DesignListValue(j.designs.value[t]))]
         else map[]))
  }

  /**
   * serializeEmpireData: the widgets' own JSON in iteration order (none for
   * a missing widget map), and `[]` for missing connections.
   */
  function SerializeEmpireData(empire: Json, widgets: Option<seq<Json>>, connections: Option<Json>, timestamp: string): Json
  {
    JObject(map[
      "fileVersion" := JString(FileVersion),
      "timestamp" := JString(timestamp),
      "empire" := empire,
      "widgets" := JArray(widgets.GetOr([])),
      "connections" := connections.GetOr(JArray([]))])
  }

  /**
   * Reading back what was saved returns the same empire, the widgets in the
   * order they were written, the connections (or `[]`), the timestamp, and
   * no version warning.
   */
  lemma SaveLoadRoundTrip(empire: Json, widgets: Option<seq<Json>>, connections: Option<Json>, timestamp: string)
    requires connections.Some? ==> connections.value.JArray?
    ensures DeserializeEmpireData(SerializeEmpireData(empire, widgets, connections, timestamp)) ==
      Loaded(Some(empire), JArray(widgets.GetOr([])), connections.GetOr(JArray([])), Some(JString(timestamp)), false)
  {
  }

  /** A file saved from an empire passes the import checks, whatever its widgets. */
  lemma SavedEmpireValidates(st: Empires.EmpireState, researchedList: seq<string>, availableList: seq<string>,
                             widgets: Option<seq<Json>>, connections: Option<Json>, timestamp: string)
    requires connections.Some? ==> connections.value.JArray?
    ensures ValidateImportData(SerializeEmpireData(
      EmpireValue(Empires.ToJson(st, researchedList, availableList)), widgets, connections, timestamp))
  {
    var e := EmpireValue(Empires.ToJson(st, researchedList, availableList));
    assert EmpireShaped(e);
    ValidateImportDataSpec(SerializeEmpireData(e, widgets, connections, timestamp));
  }

  // --------------------------------------------------------------- importing

  /** The metadata of a chosen file. */
  datatype FileInfo = FileInfo(mimeType: string, size: int)

  /** What reading and parsing the file's text gave. */
  datatype ReadOutcome = ReadFailed | Unparsable(message: string) | Parsed(value: Json)

  /** How the promise importFromFile returns settles. */
  datatype Settled<T> = Resolved(value: T) | Rejected(error: string)

  const InvalidType: string := "Invalid file type. Please select a JSON file."
  const TooLarge: string := "File too large. Maximum size is 10MB."
  const InvalidFormat: string := "Invalid file format. This does not appear to be a valid FV-Tactical empire file."

  /** The checks importFromFile makes before it starts reading. */
  function ImportPrecheck(file: Option<FileInfo>): Option<string>
  {
    if file.None? || file.value.mimeType != "application/json" then Some(InvalidType)
    else if file.value.size > MaxFileSize then Some(TooLarge)
    else None
  }

  /** importFromFile, with the reader's result as a parameter. */
  function ImportFromFile(file: Option<FileInfo>, read: ReadOutcome): Settled<Loaded>
  {
    match ImportPrecheck(file)
    case Some(error) => Rejected(error)
    case None =>
      match read
      case ReadFailed => Rejected("Failed to read file.")
      case Unparsable(message) => Rejected("Failed to parse JSON file: " + message)
      case Parsed(data) =>
        if !ValidateImportData(data) then Rejected(InvalidFormat)
        else Resolved(DeserializeEmpireData(data))
  }

  /**
   * An import succeeds exactly when a JSON file of at most 10 MiB parses to
   * data that passes the checks, and then it yields that data read back.
   * A file of the wrong type or size is rejected whatever it contains.
   */
  lemma ImportFromFileSpec(file: Option<FileInfo>, read: ReadOutcome)
    ensures ImportFromFile(file, read).Resolved? <==>
      && file.Some? && file.value.mimeType == "application/json" && file.value.size <= MaxFileSize
      && read.Parsed? && ValidateImportData(read.value)
    ensures ImportFromFile(file, read).Resolved? ==>
      read.value != JNull && ImportFromFile(file, read).value == DeserializeEmpireData(read.value)
    ensures file.None? || file.value.mimeType != "application/json" ==> ImportFromFile(file, read) == Rejected(InvalidType)
    ensures file.Some? && file.value.mimeType == "application/json" && file.value.size > MaxFileSize ==>
      ImportFromFile(file, read) == Rejected(TooLarge)
  {
  }

  // ----------------------------------------------------------------- backups

  /** The key prefix every backup carries. */
  function BackupPrefix(): string
  {
    StorageKey + BackupMarker
  }

  predicate IsBackup(key: string)
  {
    IsPrefix(BackupPrefix(), key)
  }

  /** The timestamp part of a backup key, the text after the marker. */
  function Stamp(key: string): string
  {
    if IsBackup(key) then key[|BackupPrefix()|..] else ""
  }

  /** The backup keys of a key enumeration, in that order. */
  function BackupKeys(order: seq<string>): (r: seq<string>)
    ensures forall k :: k in r <==> k in order && IsBackup(k)
  {
    if order == [] then []
    else BackupKeys(order[..|order| - 1]) + (if IsBackup(order[|order| - 1]) then [order[|order| - 1]] else [])
  }

  /** The backup keys, newest first. */
  function NewestFirst(order: seq<string>): (r: seq<string>)
    ensures multiset(r) == multiset(BackupKeys(order))
  {
    SortBy(BackupKeys(order), Stamp, true)
  }

  /** The keys cleanupOldBackups removes: all but the five newest backups. */
  function Expired(order: seq<string>): set<string>
  {
    var sorted := NewestFirst(order);
    set i | 5 <= i < |sorted| :: sorted[i]
  }

  /** The keys removed once the loop has reached index `i`. */
  function ExpiredBelow(sorted: seq<string>, i: int): set<string>
  {
    set j | 5 <= j < i && j < |sorted| :: sorted[j]
  }

  /** The storage after cleanupOldBackups. */
  function Pruned(items: map<string, string>, order: seq<string>): map<string, string>
  {
    items - Expired(order)
  }

  lemma SetOfSeqSize(s: seq<string>)
    ensures |set x | x in s| <= |s|
  {
    if s != [] {
      var init := s[..|s| - 1];
      SetOfSeqSize(init);
      assert (set x | x in s) == (set x | x in init) + {s[|s| - 1]};
    }
  }

  /** Only backups expire, and only when there are more than five. */
  lemma ExpiredSpec(order: seq<string>)
    ensures forall k :: k in Expired(order) ==> IsBackup(k) && k in order
    ensures |BackupKeys(order)| <= 5 ==> Expired(order) == {}
  {
    var sorted := NewestFirst(order);
    assert |sorted| == |BackupKeys(order)| by {
      assert |multiset(sorted)| == |multiset(BackupKeys(order))|;
    }
    forall k | k in Expired(order) ensures IsBackup(k) && k in order {
      var i :| 5 <= i < |sorted| && sorted[i] == k;
      assert k in multiset(BackupKeys(order));
    }
  }

  /**
   * Pruning leaves every key that is not a backup, with its value, and
   * removes nothing when there are five backups or fewer.
   */
  lemma PrunedKeepsOthers(items: map<string, string>, order: seq<string>)
    ensures var p := Pruned(items, order);
      && (forall k :: !IsBackup(k) ==> (k in p <==> k in items))
      && (forall k :: k in p ==> k in items && p[k] == items[k])
      && (|BackupKeys(order)| <= 5 ==> p == items)
  {
    ExpiredSpec(order);
  }

  /** When every stored key is enumerated, at most five backups remain. */
  lemma PrunedAtMostFive(items: map<string, string>, order: seq<string>)
    requires forall k :: k in items ==> k in order
    ensures |set k | k in Pruned(items, order) && IsBackup(k)| <= 5
  {
    var sorted := NewestFirst(order);
    var p := Pruned(items, order);
    var kept := sorted[..if |sorted| < 5 then |sorted| else 5];
    forall k | k in p && IsBackup(k) ensures k in kept {
      assert k in multiset(sorted) by { assert k in BackupKeys(order); }
      var i :| 0 <= i < |sorted| && sorted[i] == k;
      assert k !in Expired(order);
      assert kept[i] == k;
    }
    Empires.SubsetSize(set k | k in p && IsBackup(k), set x | x in kept);
    SetOfSeqSize(kept);
  }

  /** Every backup kept is at least as new as every backup removed. */
  lemma PrunedKeepsNewest(items: map<string, string>, order: seq<string>, kept: string, removed: string)
    requires kept in Pruned(items, order) && IsBackup(kept) && kept in order
    requires removed in Expired(order)
    ensures LexLe(Stamp(removed), Stamp(kept))
  {
    var sorted := NewestFirst(order);
    SortBySorted(BackupKeys(order), Stamp, true);
    var j :| 5 <= j < |sorted| && sorted[j] == removed;
    assert kept in multiset(sorted) by { assert kept in BackupKeys(order); }
    var i :| 0 <= i < |sorted| && sorted[i] == kept;
    assert kept !in Expired(order);
    assert i < 5 <= j;
    assert InOrder(sorted[i], sorted[j], Stamp, true);
  }

  /** The browser's key/value storage. */
  class Storage {
    var items: map<string, string>

    constructor (initial: map<string, string>)
      ensures items == initial
    {
      items := initial;
    }

    /**
     * cleanupOldBackups: collect the backup keys in the storage's key
     * order `order`, sort them newest first, and remove all after the fifth.
     */
    method CleanupOldBackups(order: seq<string>)
      modifies this
      ensures items == Pruned(old(items), order)
    {
      var backupKeys: seq<string> := [];
      for i := 0 to |order|
        invariant backupKeys == BackupKeys(order[..i])
      {
        assert order[..i + 1][..i] == order[..i];
        var key := order[i];
        if IsPrefix(BackupPrefix(), key) {
          backupKeys := backupKeys + [key];
        }
      }
      assert order[..|order|] == order;
      backupKeys := SortBy(backupKeys, Stamp, true);
      var i := 5;
      while i < |backupKeys|
        invariant 5 <= i
        invariant items == old(items) - ExpiredBelow(backupKeys, i)
      {
        assert ExpiredBelow(backupKeys, i + 1) == ExpiredBelow(backupKeys, i) + {backupKeys[i]};
        items := items - {backupKeys[i]};
        i := i + 1;
      }
      assert ExpiredBelow(backupKeys, i) == Expired(order);
    }
  }
}
