/** config:set and config:get over a whole workspace: routing, coercion, validation, write-back. */
module ConfigCommands {
  import opened Text
  import opened ConfigTree

  const SD_PACK_ID := "software-delivery"
  const SCALAR_ROOT_KEYS := {"memory_namespace", "event_namespace"}
  const WRITABLE_ROOT_KEYS := {"control_plane", "memory_namespace", "event_namespace"}
  const MANAGED_ROOT_KEYS := map[
    "packs" := "pack:install", "lanes" := "lane:edit", "security" := "security:set",
    "id" := "workspace-init", "name" := "workspace-init", "policies" := "policy:set"]

  datatype Route =
    | WorkspaceRoot(rootKey: string, subPath: string)
    | PackConfig(rootKey: string, subPath: string, packId: string)
    | ManagedError(rootKey: string, command: string)
    | UnknownError(rootKey: string)

  function RouteConfigKey(key: string, packConfigKeys: map<string, string>): Route {
    var segments := PathOf(key);
    var subPath := Join(segments[1..], '.');
    if segments[0] in WRITABLE_ROOT_KEYS then WorkspaceRoot(segments[0], subPath)
    else if segments[0] in packConfigKeys then PackConfig(segments[0], subPath, packConfigKeys[segments[0]])
    else if segments[0] in MANAGED_ROOT_KEYS then ManagedError(segments[0], MANAGED_ROOT_KEYS[segments[0]])
    else UnknownError(segments[0])
  }

  /**
   * The validators and library functions used: the strict control-plane schema, the key normalisation
   * and Zod parse of the software-delivery schema, and `Number(text)`.
   */
  datatype Library = Library(
    controlPlaneValid: Fields -> bool,
    normalize: Fields -> Fields,
    parseConfig: Fields -> Option<Fields>,
    toNumber: string -> Number)

  datatype PackSchemas = PackSchemas(declared: map<string, bool>, loaded: map<string, JsonSchema>)

  datatype Rejection =
    | ManagedKey(command: string)
    | UnknownRoot
    | ScalarHasNoSubPath
    | WholeControlPlane
    | InvalidControlPlane
    | NeedsNestedField
    | InvalidConfig
    | UnknownKeys
    | NoConfigSchema
    | SchemaNotLoaded

  datatype SetResult = Updated(config: Fields) | Rejected(why: Rejection)

  datatype GetResult = Found(value: Option<Json>) | NotReadable(why: Rejection)

  predicate IsNumericString(text: string, lib: Library) {
    text != "" && Trim(text) == text && lib.toNumber(text).Finite?
  }

  function TrimmedStrings(parts: seq<string>): seq<Json> {
    seq(|parts|, i requires 0 <= i < |parts| => Str(Trim(parts[i])))
  }

  function CoerceValue(text: string, existing: Option<Json>, lib: Library): Json {
    if text == "true" then Bool(true)
    else if text == "false" then Bool(false)
    else if ((existing.Some? && existing.value.Num?) || IsNumericString(text, lib)) && !lib.toNumber(text).NotANumber?
      then Num(lib.toNumber(text))
    else if existing.Some? && existing.value.Arr?
      then Arr(existing.value.items + TrimmedStrings(Split(text, ',')))
    else Str(text)
  }

  /** Not empty, no space at either end, and a finite number. */
  predicate LooksNumeric(text: string, lib: Library) {
    text != "" && !IsSpace(text[0]) && !IsSpace(text[|text| - 1]) && lib.toNumber(text).Finite?
  }

  lemma NumericStringMeans(text: string, lib: Library)
    ensures IsNumericString(text, lib) <==> LooksNumeric(text, lib)
  {
    if IsNumericString(text, lib) {
      var left, right := TrimMeans(text);
    }
  }

  /**
   * A boolean comes out exactly for its own two spellings, whatever was there; else a number exactly when
   * the text reads as one and either looks numeric or replaces a number; else an array exactly when one was
   * there, with its old items and then the comma-separated parts, trimmed, in order; else the text itself.
   */
  lemma CoercionMeans(text: string, existing: Option<Json>, lib: Library)
    ensures var r := CoerceValue(text, existing, lib);
            && (r == Bool(true) <==> text == "true") && (r == Bool(false) <==> text == "false")
            && (r.Num? <==> text != "true" && text != "false" && !lib.toNumber(text).NotANumber?
                            && ((existing.Some? && existing.value.Num?) || LooksNumeric(text, lib)))
            && (r.Num? ==> r.n == lib.toNumber(text))
            && (r.Arr? <==> existing.Some? && existing.value.Arr?
                            && text != "true" && text != "false" && !LooksNumeric(text, lib))
            && (r.Arr? ==> GainsItems(existing.value.items, r.items, Split(text, ',')))
            && (r.Str? ==> r.s == text)
            && !r.Null? && !r.Obj?
  {
    NumericStringMeans(text, lib);
  }

  /** The old items, then one string per part: the part without the spaces around it. */
  predicate GainsItems(before: seq<Json>, after: seq<Json>, parts: seq<string>) {
    && |after| == |before| + |parts| && before <= after
    && forall i :: 0 <= i < |parts| ==> after[|before| + i] == Str(Trim(parts[i]))
  }

  // ---------------------------------------------------------------------------------------------
  // What config:set returns
  // ---------------------------------------------------------------------------------------------

  /** The section of the workspace a routed key is written in; {} if it is not a plain object. */
  function Section(workspace: Fields, rootKey: string): Fields {
    Child(workspace, rootKey)
  }

  function WithWrite(section: Fields, subPath: string, text: string, lib: Library): Fields {
    Write(CloneFields(section), PathOf(subPath), CoerceValue(text, ReadIn(section, PathOf(subPath)), lib))
  }

  predicate IsObject(fields: Fields, key: string) {
    key in fields && fields[key].Obj?
  }

  /** The sub-tree being written holds a key that parsing dropped. */
  ghost predicate Strips(normalized: Fields, parsed: Fields, target: string) {
    if target != "" && IsObject(normalized, target) && IsObject(parsed, target)
    then exists p :: StrippedAt(normalized[target].fields, parsed[target].fields, p)
    else target != "" && target in normalized && target !in parsed
  }

  ghost function ZodOutcome(workspace: Fields, rootKey: string, subPath: string, updated: Fields, lib: Library)
    : SetResult
  {
    var normalized := lib.normalize(updated);
    var parsed := lib.parseConfig(normalized);
    if parsed.None? then Rejected(InvalidConfig)
    else if Strips(normalized, parsed.value, PathOf(subPath)[0]) then Rejected(UnknownKeys)
    else Updated(workspace[rootKey := Obj(updated)])
  }

  ghost function PackOutcome(workspace: Fields, rootKey: string, subPath: string, packId: string, text: string,
                             schemas: Option<PackSchemas>, lib: Library): SetResult {
    var updated := WithWrite(Section(workspace, rootKey), subPath, text, lib);
    if subPath == "" then Rejected(NeedsNestedField)
    else if packId == SD_PACK_ID || schemas.None? then ZodOutcome(workspace, rootKey, subPath, updated, lib)
    else if !(packId in schemas.value.declared && schemas.value.declared[packId]) then Rejected(NoConfigSchema)
    else if packId !in schemas.value.loaded then Rejected(SchemaNotLoaded)
    else if !SchemaHas(schemas.value.loaded[packId], PathOf(subPath)) then Rejected(UnknownKeys)
    else Updated(workspace[rootKey := Obj(updated)])
  }

  ghost function RootOutcome(workspace: Fields, key: string, rootKey: string, subPath: string, text: string,
                             lib: Library): SetResult {
    var updated := WithWrite(CloneFields(Section(workspace, rootKey)), subPath, text, lib);
    if rootKey in SCALAR_ROOT_KEYS then
      if subPath != "" then Rejected(ScalarHasNoSubPath)
      else Updated(Write(CloneFields(workspace), PathOf(key), Str(text)))
    else if subPath == "" then Rejected(WholeControlPlane)
    else if !lib.controlPlaneValid(updated) then Rejected(InvalidControlPlane)
    else Updated(workspace[rootKey := Obj(updated)])
  }

  ghost function SetOutcome(workspace: Fields, key: string, text: string, packConfigKeys: map<string, string>,
                            schemas: Option<PackSchemas>, lib: Library): SetResult {
    match RouteConfigKey(key, packConfigKeys)
    case ManagedError(_, command) => Rejected(ManagedKey(command))
    case UnknownError(_) => Rejected(UnknownRoot)
    case WorkspaceRoot(rootKey, subPath) => RootOutcome(workspace, key, rootKey, subPath, text, lib)
    case PackConfig(rootKey, subPath, packId) =>
      PackOutcome(workspace, rootKey, subPath, packId, text, schemas, lib)
  }

  /**
   * The path a set walks meets no array on the way: the whole path for a scalar root key, else the path
   * inside the section. A section that is itself an array counts as an empty one.
   */
  predicate Walkable(workspace: Fields, key: string) {
    if PathOf(key)[0] in SCALAR_ROOT_KEYS then NoArrayOn(workspace, PathOf(key))
    else NoArrayOn(Section(workspace, PathOf(key)[0]), PathOf(key)[1..])
  }

  // ---------------------------------------------------------------------------------------------
  // The commands
  // ---------------------------------------------------------------------------------------------

  lemma SubPathSplits(key: string)
    ensures var segments := PathOf(key);
            Join(segments[1..], '.') != "" ==>
              |segments| > 1 && PathOf(Join(segments[1..], '.')) == segments[1..]
  {
    var segments := PathOf(key);
    PartsHoldNoSeparator(key, '.');
    if |segments| > 1 {
      SplitJoin(segments[1..], '.');
    }
  }

  method UpdateSection(section: Fields, subPath: string, text: string, lib: Library) returns (updated: Fields)
    requires NoArrayOn(section, PathOf(subPath))
    ensures updated == WithWrite(section, subPath, text, lib)
  {
    var existing := GetConfigValue(section, subPath);
    var coerced := CoerceValue(text, existing, lib);
    updated := SetNestedValue(section, subPath, coerced);
  }

  method ApplyPackConfigSetWithZod(workspace: Fields, rootKey: string, subPath: string, updated: Fields, lib: Library)
    returns (r: SetResult)
    ensures r == ZodOutcome(workspace, rootKey, subPath, updated, lib)
  {
    var normalized := lib.normalize(updated);
    var parseResult := lib.parseConfig(normalized);
    if parseResult.None? {
      return Rejected(InvalidConfig);
    }
    var parsed := parseResult.value;
    var target := PathOf(subPath)[0];
    if target != "" && IsObject(normalized, target) && IsObject(parsed, target) {
      var stripped := FindStrippedKeys(normalized[target].fields, parsed[target].fields, [target]);
      if |stripped| > 0 {
        assert stripped[0] in stripped && [target] <= stripped[0];
        var p := stripped[0][1..];
        assert [target] + p == stripped[0];
        return Rejected(UnknownKeys);
      }
      assert forall p :: [target] + p !in stripped;
    } else if target != "" && target in normalized && target !in parsed {
      return Rejected(UnknownKeys);
    }
    return Updated(workspace[rootKey := Obj(updated)]);
  }

  method ApplyPackConfigSet(workspace: Fields, rootKey: string, subPath: string, packId: string, text: string,
                            schemas: Option<PackSchemas>, lib: Library)
    returns (r: SetResult)
    requires subPath != "" ==> NoArrayOn(Section(workspace, rootKey), PathOf(subPath))
    ensures r == PackOutcome(workspace, rootKey, subPath, packId, text, schemas, lib)
  {
    var packConfig := if IsObject(workspace, rootKey) then workspace[rootKey].fields else map[];
    if subPath == "" {
      return Rejected(NeedsNestedField);
    }
    var updated := UpdateSection(packConfig, subPath, text, lib);
    if packId == SD_PACK_ID || schemas.None? {
      r := ApplyPackConfigSetWithZod(workspace, rootKey, subPath, updated, lib);
      return;
    }
    if packId !in schemas.value.declared || !schemas.value.declared[packId] {
      return Rejected(NoConfigSchema);
    }
    if packId !in schemas.value.loaded {
      return Rejected(SchemaNotLoaded);
    }
    var unrecognized := ValidateJsonSchemaPath(schemas.value.loaded[packId], subPath);
    if |unrecognized| > 0 {
      return Rejected(UnknownKeys);
    }
    return Updated(workspace[rootKey := Obj(updated)]);
  }

  method ApplyWorkspaceRootSet(workspace: Fields, key: string, text: string, lib: Library) returns (r: SetResult)
    requires Walkable(workspace, key)
    ensures r == RootOutcome(workspace, key, PathOf(key)[0], Join(PathOf(key)[1..], '.'), text, lib)
  {
    var segments := PathOf(key);
    var subPath := Join(segments[1..], '.');
    if segments[0] in SCALAR_ROOT_KEYS {
      if subPath != "" {
        return Rejected(ScalarHasNoSubPath);
      }
      var config := SetNestedValue(workspace, key, Str(text));
      return Updated(config);
    }
    if subPath == "" {
      return Rejected(WholeControlPlane);
    }
    var existing := if IsObject(workspace, segments[0]) then CloneFields(workspace[segments[0]].fields) else map[];
    SubPathSplits(key);
    assert existing == CloneFields(Section(workspace, segments[0]));
    CloneMeetsNoArray(Section(workspace, segments[0]), segments[1..]);
    var updated := UpdateSection(existing, subPath, text, lib);
    if !lib.controlPlaneValid(updated) {
      return Rejected(InvalidControlPlane);
    }
    return Updated(workspace[segments[0] := Obj(updated)]);
  }

  method ApplyConfigSet(workspace: Fields, key: string, text: string, packConfigKeys: map<string, string>,
                        schemas: Option<PackSchemas>, lib: Library)
    returns (r: SetResult)
    requires Walkable(workspace, key)
    ensures r == SetOutcome(workspace, key, text, packConfigKeys, schemas, lib)
  {
    SubPathSplits(key);
    match RouteConfigKey(key, packConfigKeys) {
      case ManagedError(_, command) =>
        return Rejected(ManagedKey(command));
      case UnknownError(_) =>
        return Rejected(UnknownRoot);
      case WorkspaceRoot(_, _) =>
        r := ApplyWorkspaceRootSet(workspace, key, text, lib);
      case PackConfig(rootKey, subPath, packId) =>
        r := ApplyPackConfigSet(workspace, rootKey, subPath, packId, text, schemas, lib);
    }
  }

  function GetOutcome(workspace: Fields, key: string, packConfigKeys: map<string, string>): GetResult {
    match RouteConfigKey(key, packConfigKeys)
    case ManagedError(_, command) => NotReadable(ManagedKey(command))
    case UnknownError(_) => NotReadable(UnknownRoot)
    case _ => Found(ReadIn(workspace, PathOf(key)))
  }

  method ApplyConfigGet(workspace: Fields, key: string, packConfigKeys: map<string, string>) returns (r: GetResult)
    requires NoArrayOn(workspace, PathOf(key))
    ensures r == GetOutcome(workspace, key, packConfigKeys)
  {
    match RouteConfigKey(key, packConfigKeys) {
      case ManagedError(_, command) =>
        return NotReadable(ManagedKey(command));
      case UnknownError(_) =>
        return NotReadable(UnknownRoot);
      case _ =>
        var value := GetConfigValue(workspace, key);
        return Found(value);
    }
  }

  /** Exactly the writable root keys and the packs' keys can be read, at their full path; nothing else can be set. */
  lemma ReadableIffWritableOrPack(workspace: Fields, key: string, text: string, packConfigKeys: map<string, string>,
                                  schemas: Option<PackSchemas>, lib: Library)
    ensures var root := PathOf(key)[0];
            GetOutcome(workspace, key, packConfigKeys).Found?
            <==> || root == "control_plane" || root == "memory_namespace" || root == "event_namespace"
                 || root in packConfigKeys
    ensures GetOutcome(workspace, key, packConfigKeys).Found? ==>
              GetOutcome(workspace, key, packConfigKeys).value == ReadIn(workspace, PathOf(key))
    ensures SetOutcome(workspace, key, text, packConfigKeys, schemas, lib).Updated?
        ==> GetOutcome(workspace, key, packConfigKeys).Found?
  {
    RootKeysAre(PathOf(key)[0]);
  }

  // ---------------------------------------------------------------------------------------------
  // Setting, then getting
  // ---------------------------------------------------------------------------------------------

  /** Whether the value at a path goes through a clone when `key` is set. */
  predicate Recloned(key: string, path: Path)
    requires path != []
  {
    PathOf(key)[0] in SCALAR_ROOT_KEYS || PathOf(key)[0] == path[0]
  }

  /** The workspace as the write finds it: cloned whole for a scalar root key, else in the key's section. */
  function Prepared(workspace: Fields, key: string): Fields {
    var rootKey := PathOf(key)[0];
    if rootKey in SCALAR_ROOT_KEYS then CloneFields(workspace)
    else workspace[rootKey := Obj(CloneFields(Section(workspace, rootKey)))]
  }

  /** What a successful set stores: the text itself at a scalar root key, else the coerced text. */
  function Stored(workspace: Fields, key: string, text: string, lib: Library): Json {
    var rootKey := PathOf(key)[0];
    if rootKey in SCALAR_ROOT_KEYS then Str(text)
    else if rootKey in WRITABLE_ROOT_KEYS then CoerceValue(text, CloneRead(ReadIn(workspace, PathOf(key))), lib)
    else CoerceValue(text, ReadIn(workspace, PathOf(key)), lib)
  }

  lemma SectionIsOneWrite(workspace: Fields, path: Path, value: Json)
    requires |path| > 1
    ensures workspace[path[0] := Obj(Write(CloneFields(Section(workspace, path[0])), path[1..], value))]
         == Write(workspace[path[0] := Obj(CloneFields(Section(workspace, path[0])))], path, value)
  {
  }

  /** What either kind of section write makes of its section. */
  lemma WithWriteIsStored(workspace: Fields, key: string, text: string, lib: Library)
    requires |PathOf(key)| > 1 && PathOf(key)[0] !in SCALAR_ROOT_KEYS
    ensures var section, subPath := Section(workspace, PathOf(key)[0]), Join(PathOf(key)[1..], '.');
            var updated := Write(CloneFields(section), PathOf(key)[1..], Stored(workspace, key, text, lib));
            subPath != "" ==>
              updated == WithWrite(if PathOf(key)[0] in WRITABLE_ROOT_KEYS then CloneFields(section) else section,
                                   subPath, text, lib)
  {
    var path := PathOf(key);
    var section := Section(workspace, path[0]);
    SubPathSplits(key);
    ReadInSection(workspace, path);
    ReadOfClone(section, path[1..]);
    CloneFieldsTwice(section);
  }

  /** A successful set is one write at the key's path, whichever way it was routed. */
  lemma SetIsOneWrite(workspace: Fields, key: string, text: string, packConfigKeys: map<string, string>,
                      schemas: Option<PackSchemas>, lib: Library)
    requires SetOutcome(workspace, key, text, packConfigKeys, schemas, lib).Updated?
    ensures SetOutcome(workspace, key, text, packConfigKeys, schemas, lib).config
         == Write(Prepared(workspace, key), PathOf(key), Stored(workspace, key, text, lib))
  {
    SubPathSplits(key);
    if PathOf(key)[0] !in SCALAR_ROOT_KEYS {
      SectionIsOneWrite(workspace, PathOf(key), Stored(workspace, key, text, lib));
      WithWriteIsStored(workspace, key, text, lib);
    }
  }

  lemma PreparedMeetsNoArray(workspace: Fields, key: string, q: Path)
    requires NoArrayOn(workspace, q)
    ensures NoArrayOn(Prepared(workspace, key), q)
  {
    var rootKey := PathOf(key)[0];
    if rootKey in SCALAR_ROOT_KEYS {
      CloneMeetsNoArray(workspace, q);
    } else if |q| > 1 && q[0] == rootKey && IsObject(workspace, rootKey) {
      CloneMeetsNoArray(workspace[rootKey].fields, q[1..]);
    }
  }

  lemma OwnPathMeetsNoArray(workspace: Fields, key: string)
    requires Walkable(workspace, key)
    ensures NoArrayOn(Prepared(workspace, key), PathOf(key))
  {
    if PathOf(key)[0] in SCALAR_ROOT_KEYS {
      CloneMeetsNoArray(workspace, PathOf(key));
    } else {
      CloneMeetsNoArray(Section(workspace, PathOf(key)[0]), PathOf(key)[1..]);
    }
  }

  /** After a successful set, get returns exactly what was stored: on every key, empty segments included. */
  lemma SetThenGet(workspace: Fields, key: string, text: string, packConfigKeys: map<string, string>,
                   schemas: Option<PackSchemas>, lib: Library)
    requires Walkable(workspace, key)
    requires SetOutcome(workspace, key, text, packConfigKeys, schemas, lib).Updated?
    ensures var after := SetOutcome(workspace, key, text, packConfigKeys, schemas, lib).config;
            && NoArrayOn(after, PathOf(key))
            && GetOutcome(after, key, packConfigKeys) == Found(Some(Stored(workspace, key, text, lib)))
            && Stored(workspace, key, text, lib) ==
               if PathOf(key)[0] == "memory_namespace" || PathOf(key)[0] == "event_namespace" then Str(text)
               else if PathOf(key)[0] == "control_plane"
                 then CoerceValue(text, CloneRead(ReadIn(workspace, PathOf(key))), lib)
               else CoerceValue(text, ReadIn(workspace, PathOf(key)), lib)
  {
    RootKeysAre(PathOf(key)[0]);
    SetIsOneWrite(workspace, key, text, packConfigKeys, schemas, lib);
    OwnPathMeetsNoArray(workspace, key);
    WriteMeetsNoArray(Prepared(workspace, key), PathOf(key), Stored(workspace, key, text, lib), PathOf(key));
    ReadAfterWrite(Prepared(workspace, key), PathOf(key), Stored(workspace, key, text, lib));
  }

  lemma PreparedReads(workspace: Fields, key: string, path: Path)
    requires path != [] && (path[0] == PathOf(key)[0] ==> |path| > 1)
    ensures ReadIn(Prepared(workspace, key), path) ==
            if Recloned(key, path) then CloneRead(ReadIn(workspace, path)) else ReadIn(workspace, path)
  {
    if PathOf(key)[0] in SCALAR_ROOT_KEYS {
      ReadOfClone(workspace, path);
    } else if path[0] == PathOf(key)[0] {
      ReadInSection(workspace, path);
      ReadInSection(Prepared(workspace, key), path);
      ReadOfClone(Section(workspace, path[0]), path[1..]);
    }
  }

  /** `other` can be read, and what is there went through the clone and holds a number that JSON has not. */
  predicate LosesNumber(workspace: Fields, key: string, other: string, packConfigKeys: map<string, string>) {
    && GetOutcome(workspace, other, packConfigKeys).Found?
    && ReadIn(workspace, PathOf(other)).Some?
    && Recloned(key, PathOf(other)) && !AllFinite(ReadIn(workspace, PathOf(other)).value)
  }

  /**
   * Get on any key whose path neither contains nor extends the written one is as before, exactly unless
   * its value was cloned along and holds an infinity or NaN.
   */
  lemma SetLeavesTheRest(workspace: Fields, key: string, text: string, packConfigKeys: map<string, string>,
                         schemas: Option<PackSchemas>, lib: Library, other: string)
    requires Walkable(workspace, key) && NoArrayOn(workspace, PathOf(other))
    requires SetOutcome(workspace, key, text, packConfigKeys, schemas, lib).Updated?
    requires Apart(PathOf(key), PathOf(other))
    ensures var after := SetOutcome(workspace, key, text, packConfigKeys, schemas, lib).config;
            && NoArrayOn(after, PathOf(other))
            && (GetOutcome(after, other, packConfigKeys) == GetOutcome(workspace, other, packConfigKeys)
                <==> !LosesNumber(workspace, key, other, packConfigKeys))
  {
    var path, q := PathOf(key), PathOf(other);
    SetIsOneWrite(workspace, key, text, packConfigKeys, schemas, lib);
    PreparedMeetsNoArray(workspace, key, q);
    WriteMeetsNoArray(Prepared(workspace, key), path, Stored(workspace, key, text, lib), q);
    ReadElsewhere(Prepared(workspace, key), path, Stored(workspace, key, text, lib), q);
    PreparedReads(workspace, key, q);
    if ReadIn(workspace, q).Some? {
      CloneKeepsIffFinite(ReadIn(workspace, q).value);
    }
  }

  /**
   * A scalar root key takes a set exactly when nothing but an empty segment follows it, and stays a string
   * exactly when nothing follows it at all: `memory_namespace.` turns the scalar into an object.
   */
  lemma ScalarStaysStringIff(workspace: Fields, key: string, text: string, packConfigKeys: map<string, string>,
                             schemas: Option<PackSchemas>, lib: Library)
    requires PathOf(key)[0] == "memory_namespace" || PathOf(key)[0] == "event_namespace"
    ensures var path, r := PathOf(key), SetOutcome(workspace, key, text, packConfigKeys, schemas, lib);
            && (r.Updated? <==> path[1..] == [] || path[1..] == [""])
            && (!r.Updated? ==> r == Rejected(ScalarHasNoSubPath))
            && (r.Updated? ==> path[0] in r.config && (r.config[path[0]].Str? <==> path == [path[0]]))
  {
    var path := PathOf(key);
    RootKeysAre(path[0]);
    assert path[1..] == [] ==> path == [path[0]];
    if path[1..] != [] && path[1..] != [""] {
      JoinIsNonempty(path[1..]);
    }
  }

  lemma ScalarKeyIsPath(key: string)
    requires key in SCALAR_ROOT_KEYS
    ensures PathOf(key) == [key] && key in WRITABLE_ROOT_KEYS
  {
    assert '.' !in key;
    SplitPart(key, '.');
  }

  lemma ScalarSet(workspace: Fields, key: string, text: string, packConfigKeys: map<string, string>,
                  schemas: Option<PackSchemas>, lib: Library)
    requires key in SCALAR_ROOT_KEYS
    ensures SetOutcome(workspace, key, text, packConfigKeys, schemas, lib)
         == Updated(CloneFields(workspace)[key := Str(text)])
  {
    ScalarKeyIsPath(key);
  }

  lemma ScalarGet(workspace: Fields, key: string, packConfigKeys: map<string, string>)
    requires key in SCALAR_ROOT_KEYS && key in workspace
    ensures GetOutcome(workspace, key, packConfigKeys) == Found(Some(workspace[key]))
  {
    ScalarKeyIsPath(key);
    assert [key][1..] == [];
  }

  lemma CloneNulls(workspace: Fields, key: string, value: Json, other: string)
    requires other in workspace && workspace[other] == Num(Infinite(true)) && key != other
    ensures other in CloneFields(workspace)[key := value] && CloneFields(workspace)[key := value][other] == Null
  {
  }

  /** Such numbers are lost in practice: setting one namespace turns an infinite other one into null. */
  lemma InfinityBecomesNull(workspace: Fields, key: string, other: string, text: string,
                            packConfigKeys: map<string, string>, schemas: Option<PackSchemas>, lib: Library)
    requires key in SCALAR_ROOT_KEYS && other in SCALAR_ROOT_KEYS && key != other
    requires other in workspace && workspace[other] == Num(Infinite(true))
    ensures GetOutcome(workspace, other, packConfigKeys) == Found(Some(Num(Infinite(true))))
    ensures var after := SetOutcome(workspace, key, text, packConfigKeys, schemas, lib);
            after.Updated? && GetOutcome(after.config, other, packConfigKeys) == Found(Some(Null))
  {
    ScalarSet(workspace, key, text, packConfigKeys, schemas, lib);
    ScalarGet(workspace, other, packConfigKeys);
    CloneNulls(workspace, key, Str(text), other);
    ScalarGet(CloneFields(workspace)[key := Str(text)], other, packConfigKeys);
  }

  lemma RootKeysAre(root: string)
    ensures root in SCALAR_ROOT_KEYS <==> root == "memory_namespace" || root == "event_namespace"
    ensures root in WRITABLE_ROOT_KEYS <==> root == "control_plane" || root in SCALAR_ROOT_KEYS
    ensures root == "control_plane" ==> root !in SCALAR_ROOT_KEYS
  {
  }

  /** Where a key goes, by its first segment. */
  lemma RoutingMeans(workspace: Fields, key: string, text: string, packConfigKeys: map<string, string>,
                     schemas: Option<PackSchemas>, lib: Library)
    ensures var root := PathOf(key)[0];
            var r := SetOutcome(workspace, key, text, packConfigKeys, schemas, lib);
            root != "control_plane" && root != "memory_namespace" && root != "event_namespace"
              && root !in packConfigKeys ==>
              && r == Rejected(ManagedBy(root))
              && GetOutcome(workspace, key, packConfigKeys) == NotReadable(ManagedBy(root))
  {
    RootKeysAre(PathOf(key)[0]);
  }

  /** The command that manages a root key, if one does. */
  function ManagedBy(root: string): Rejection {
    if root == "packs" then ManagedKey("pack:install")
    else if root == "lanes" then ManagedKey("lane:edit")
    else if root == "security" then ManagedKey("security:set")
    else if root == "id" || root == "name" then ManagedKey("workspace-init")
    else if root == "policies" then ManagedKey("policy:set")
    else UnknownRoot
  }

  /** The key names a field inside a section: something other than one empty segment follows its root. */
  predicate IsNested(path: Path) {
    path != [] && path[1..] != [] && path[1..] != [""]
  }

  lemma NestedMeans(key: string)
    ensures IsNested(PathOf(key)) <==> Join(PathOf(key)[1..], '.') != ""
    ensures IsNested(PathOf(key)) ==> PathOf(Join(PathOf(key)[1..], '.')) == PathOf(key)[1..]
  {
    SubPathSplits(key);
    var sub := PathOf(key)[1..];
    if sub != [] && sub != [""] {
      JoinIsNonempty(sub);
    }
  }

  /**
   * `section` is what a set of this key would leave as the section: the coerced text at the path inside it,
   * and everything else as a clone of what was there. (A section that is no object counts as empty.)
   */
  ghost predicate WouldLeave(workspace: Fields, path: Path, text: string, lib: Library, section: Fields)
    requires IsNested(path)
  {
    var before := Section(workspace, path[0]);
    var existing := ReadIn(before, path[1..]);
    Leaves(before, path[1..],
           CoerceValue(text, if path[0] == "control_plane" then CloneRead(existing) else existing, lib), section)
  }

  /** There is exactly one such section. */
  lemma WouldLeaveOne(workspace: Fields, path: Path, text: string, lib: Library) returns (section: Fields)
    requires IsNested(path)
    ensures WouldLeave(workspace, path, text, lib, section)
    ensures forall other :: WouldLeave(workspace, path, text, lib, other) ==> other == section
  {
    var before := Section(workspace, path[0]);
    var existing := ReadIn(before, path[1..]);
    var value := CoerceValue(text, if path[0] == "control_plane" then CloneRead(existing) else existing, lib);
    section := Write(CloneFields(before), path[1..], value);
    WriteLeaves(before, path[1..], value);
    forall other | WouldLeave(workspace, path, text, lib, other) ensures other == section {
      LeavesOne(before, path[1..], value, other);
    }
  }

  lemma WithWriteLeaves(workspace: Fields, key: string, text: string, lib: Library, section: Fields)
    requires IsNested(PathOf(key)) && PathOf(key)[0] !in SCALAR_ROOT_KEYS
    requires WouldLeave(workspace, PathOf(key), text, lib, section)
    ensures var before, subPath := Section(workspace, PathOf(key)[0]), Join(PathOf(key)[1..], '.');
            section == WithWrite(if PathOf(key)[0] == "control_plane" then CloneFields(before) else before,
                                 subPath, text, lib)
  {
    var path := PathOf(key);
    var before := Section(workspace, path[0]);
    NestedMeans(key);
    ReadOfClone(before, path[1..]);
    CloneFieldsTwice(before);
    var existing := ReadIn(before, path[1..]);
    LeavesOne(before, path[1..],
              CoerceValue(text, if path[0] == "control_plane" then CloneRead(existing) else existing, lib), section);
  }

  /**
   * A set inside `control_plane` succeeds exactly when it names a field there and the schema accepts the
   * section it would leave; that section is then what is stored, and nothing else changes.
   */
  lemma ControlPlaneDecides(workspace: Fields, key: string, text: string, packConfigKeys: map<string, string>,
                            schemas: Option<PackSchemas>, lib: Library, section: Fields)
    requires PathOf(key)[0] == "control_plane"
    requires IsNested(PathOf(key)) ==> WouldLeave(workspace, PathOf(key), text, lib, section)
    ensures SetOutcome(workspace, key, text, packConfigKeys, schemas, lib) ==
            if !IsNested(PathOf(key)) then Rejected(WholeControlPlane)
            else if lib.controlPlaneValid(section) then Updated(workspace["control_plane" := Obj(section)])
            else Rejected(InvalidControlPlane)
  {
    RootKeysAre(PathOf(key)[0]);
    NestedMeans(key);
    if IsNested(PathOf(key)) {
      WithWriteLeaves(workspace, key, text, lib, section);
    }
  }

  /** After every success on `control_plane` the stored section is one that the schema accepts. */
  lemma StoredControlPlaneIsValid(workspace: Fields, key: string, text: string, packConfigKeys: map<string, string>,
                                  schemas: Option<PackSchemas>, lib: Library)
    requires PathOf(key)[0] == "control_plane"
    requires SetOutcome(workspace, key, text, packConfigKeys, schemas, lib).Updated?
    ensures var config := SetOutcome(workspace, key, text, packConfigKeys, schemas, lib).config;
            && IsNested(PathOf(key)) && IsObject(config, "control_plane")
            && lib.controlPlaneValid(config["control_plane"].fields)
  {
    var section := map[];
    if IsNested(PathOf(key)) {
      section := WouldLeaveOne(workspace, PathOf(key), text, lib);
    }
    ControlPlaneDecides(workspace, key, text, packConfigKeys, schemas, lib, section);
  }

  /** The key belongs to a pack, and no writable root key comes before it. */
  predicate IsPackKey(key: string, packConfigKeys: map<string, string>) {
    var root := PathOf(key)[0];
    && root != "control_plane" && root != "memory_namespace" && root != "event_namespace"
    && root in packConfigKeys
  }

  lemma PackKeyRoutes(workspace: Fields, key: string, text: string, packConfigKeys: map<string, string>,
                      schemas: Option<PackSchemas>, lib: Library)
    requires IsPackKey(key, packConfigKeys)
    ensures SetOutcome(workspace, key, text, packConfigKeys, schemas, lib) ==
            PackOutcome(workspace, PathOf(key)[0], Join(PathOf(key)[1..], '.'), packConfigKeys[PathOf(key)[0]], text,
                        schemas, lib)
    ensures PathOf(key)[0] !in SCALAR_ROOT_KEYS
  {
    RootKeysAre(PathOf(key)[0]);
  }

  /** A pack with a JSON schema takes a write exactly when its loaded schema knows the nested path. */
  lemma JsonSchemaDecides(workspace: Fields, key: string, text: string, packConfigKeys: map<string, string>,
                          schemas: PackSchemas, lib: Library, section: Fields)
    requires IsPackKey(key, packConfigKeys) && packConfigKeys[PathOf(key)[0]] != "software-delivery"
    requires IsNested(PathOf(key)) ==> WouldLeave(workspace, PathOf(key), text, lib, section)
    ensures var root, packId := PathOf(key)[0], packConfigKeys[PathOf(key)[0]];
            SetOutcome(workspace, key, text, packConfigKeys, Some(schemas), lib) ==
            if !IsNested(PathOf(key)) then Rejected(NeedsNestedField)
            else if packId !in schemas.declared || !schemas.declared[packId] then Rejected(NoConfigSchema)
            else if packId !in schemas.loaded then Rejected(SchemaNotLoaded)
            else if !SchemaHas(schemas.loaded[packId], PathOf(key)[1..]) then Rejected(UnknownKeys)
            else Updated(workspace[root := Obj(section)])
  {
    PackKeyRoutes(workspace, key, text, packConfigKeys, Some(schemas), lib);
    NestedMeans(key);
    if IsNested(PathOf(key)) {
      WithWriteLeaves(workspace, key, text, lib, section);
    }
  }

  lemma JoinIsNonempty(parts: Path)
    requires parts != [] && parts != [""]
    ensures Join(parts, '.') != ""
  {
    if |parts| == 1 {
      assert parts == [parts[0]];
    }
  }

  /** The parse drops this path of the sub-tree being written. */
  ghost predicate DropsWritten(normalized: Fields, parsed: Fields, target: string) {
    target != "" && exists p :: StrippedAt(normalized, parsed, [target] + p)
  }

  lemma StripsMeans(normalized: Fields, parsed: Fields, target: string)
    ensures Strips(normalized, parsed, target) <==> DropsWritten(normalized, parsed, target)
  {
    if Strips(normalized, parsed, target) {
      if IsObject(normalized, target) && IsObject(parsed, target) {
        var p :| StrippedAt(normalized[target].fields, parsed[target].fields, p);
        assert ([target] + p)[1..] == p;
        assert StrippedAt(normalized, parsed, [target] + p);
      } else {
        assert StrippedAt(normalized, parsed, [target] + []);
      }
    }
    if DropsWritten(normalized, parsed, target) {
      var p :| StrippedAt(normalized, parsed, [target] + p);
      assert ([target] + p)[0] == target && ([target] + p)[1..] == p;
      if IsObject(normalized, target) && IsObject(parsed, target) {
        assert StrippedAt(normalized[target].fields, parsed[target].fields, p);
      }
    }
  }

  /**
   * A write to the software-delivery section (or by a caller without schemas) succeeds exactly when it names
   * a field there, the normalised section it would leave parses, and the parse drops nothing of the sub-tree
   * being written. What the normalisation before the parse drops is not looked at.
   */
  lemma SoftwareDeliveryDecides(
      workspace: Fields, key: string, text: string, packConfigKeys: map<string, string>,
      schemas: Option<PackSchemas>, lib: Library, section: Fields)
    requires IsPackKey(key, packConfigKeys)
    requires packConfigKeys[PathOf(key)[0]] == "software-delivery" || schemas.None?
    requires IsNested(PathOf(key)) ==> WouldLeave(workspace, PathOf(key), text, lib, section)
    ensures var parsed := lib.parseConfig(lib.normalize(section));
            SetOutcome(workspace, key, text, packConfigKeys, schemas, lib) ==
            if !IsNested(PathOf(key)) then Rejected(NeedsNestedField)
            else if parsed.None? then Rejected(InvalidConfig)
            else if DropsWritten(lib.normalize(section), parsed.value, PathOf(key)[1]) then Rejected(UnknownKeys)
            else Updated(workspace[PathOf(key)[0] := Obj(section)])
  {
    PackKeyRoutes(workspace, key, text, packConfigKeys, schemas, lib);
    NestedMeans(key);
    if IsNested(PathOf(key)) {
      WithWriteLeaves(workspace, key, text, lib, section);
      var parsed := lib.parseConfig(lib.normalize(section));
      if parsed.Some? {
        StripsMeans(lib.normalize(section), parsed.value, PathOf(key)[1]);
      }
    }
  }

  /**
   * A software-delivery write that succeeds leaves no key of the written sub-tree for the parse to drop. A
   * key that the normalisation before the parse drops is not covered: the write succeeds without effect.
   */
  lemma NothingStrippedSilently(workspace: Fields, key: string, text: string, packConfigKeys: map<string, string>,
                                schemas: Option<PackSchemas>, lib: Library, p: Path)
    requires PathOf(key)[0] !in WRITABLE_ROOT_KEYS
    requires PathOf(key)[0] in packConfigKeys && packConfigKeys[PathOf(key)[0]] == SD_PACK_ID
    requires SetOutcome(workspace, key, text, packConfigKeys, schemas, lib).Updated?
    ensures var config := SetOutcome(workspace, key, text, packConfigKeys, schemas, lib).config;
            var normalized := lib.normalize(Section(config, PathOf(key)[0]));
            var parsed := lib.parseConfig(normalized);
            && |PathOf(key)| > 1 && parsed.Some?
            && (PathOf(key)[1] != "" ==> !StrippedAt(normalized, parsed.value, [PathOf(key)[1]] + p))
  {
    SubPathSplits(key);
    var config := SetOutcome(workspace, key, text, packConfigKeys, schemas, lib).config;
    var normalized := lib.normalize(Section(config, PathOf(key)[0]));
    var parsed := lib.parseConfig(normalized).value;
    var target := PathOf(key)[1];
    assert !Strips(normalized, parsed, target);
    var path := [target] + p;
    assert path[0] == target && path[1..] == p;
    if target != "" && IsObject(normalized, target) && IsObject(parsed, target) {
      assert !StrippedAt(normalized[target].fields, parsed[target].fields, p);
    }
  }
}
