/** Reading and writing dotted paths in a configuration tree. */
module ConfigTree {
  import opened Text

  datatype Number = Finite(value: real) | Infinite(positive: bool) | NotANumber

  datatype Json =
    | Null
    | Bool(b: bool)
    | Num(n: Number)
    | Str(s: string)
    | Arr(items: seq<Json>)
    | Obj(fields: map<string, Json>)

  type Fields = map<string, Json>
  type Path = seq<string>

  function PathOf(dotpath: string): (path: Path)
    ensures path != []
  {
    Split(dotpath, '.')
  }

  /** One step of a path: an own property of a plain object. */
  function Member(v: Option<Json>, key: string): Option<Json> {
    if v.Some? && v.value.Obj? && key in v.value.fields then Some(v.value.fields[key]) else None
  }

  function Read(v: Option<Json>, path: Path): Option<Json>
    decreases |path|
  {
    if path == [] then v else Read(Member(v, path[0]), path[1..])
  }

  function ReadIn(fields: Fields, path: Path): Option<Json> {
    Read(Some(Obj(fields)), path)
  }

  /** The object at `key`, or an empty one if something else or nothing is there. */
  function Child(fields: Fields, key: string): Fields {
    if key in fields && fields[key].Obj? then fields[key].fields else map[]
  }

  function Write(fields: Fields, path: Path, value: Json): Fields
    requires path != []
    decreases |path|
  {
    if |path| == 1 then fields[path[0] := value]
    else fields[path[0] := Obj(Write(Child(fields, path[0]), path[1..], value))]
  }

  /**
   * Every value `path` passes through before its last segment is not an array. Array indices and
   * properties as path segments are not modelled, so members that walk a path ask for this.
   */
  predicate NoArrayOn(fields: Fields, path: Path)
    decreases |path|
  {
    |path| > 1 && path[0] in fields ==>
      !fields[path[0]].Arr? && (fields[path[0]].Obj? ==> NoArrayOn(fields[path[0]].fields, path[1..]))
  }

  /** Neither path runs through the other. */
  predicate Apart(p: Path, q: Path) {
    !(p <= q) && !(q <= p)
  }

  method GetConfigValue(obj: Fields, dotpath: string) returns (value: Option<Json>)
    requires NoArrayOn(obj, PathOf(dotpath))
    ensures value == ReadIn(obj, PathOf(dotpath))
  {
    var segments := Split(dotpath, '.');
    value := Some(Obj(obj));
    for i := 0 to |segments|
      invariant Read(value, segments[i..]) == ReadIn(obj, segments)
    {
      if value.None? || !value.value.Obj? {
        ReadOfNothing(segments[i + 1..]);
        return None;
      }
      var current := value.value.fields;
      value := if segments[i] in current then Some(current[segments[i]]) else None;
    }
  }

  lemma {:induction false} ReadOfNothing(path: Path)
    ensures Read(None, path) == None
  {
    if path != [] {
      ReadOfNothing(path[1..]);
    }
  }

  /** The object reached by the first i segments, as far as objects go. */
  function Cursor(fields: Fields, path: Path): Fields
    decreases |path|
  {
    if path == [] then fields else Cursor(Child(fields, path[0]), path[1..])
  }

  /** Every segment of `path` leads to an object. */
  predicate Objects(fields: Fields, path: Path)
    decreases |path|
  {
    path != [] ==> path[0] in fields && fields[path[0]].Obj? && Objects(fields[path[0]].fields, path[1..])
  }

  /** Writes through a cursor that moves down the clone, making objects where there are none. */
  method SetNestedValue(obj: Fields, dotpath: string, value: Json) returns (result: Fields)
    requires NoArrayOn(obj, PathOf(dotpath))
    ensures result == Write(CloneFields(obj), PathOf(dotpath), value)
  {
    result := CloneFields(obj);
    var segments := Split(dotpath, '.');
    var i := 0;
    while i < |segments| - 1
      invariant 0 <= i <= |segments| - 1
      invariant Objects(result, segments[..i])
      invariant Write(result, segments, value) == Write(CloneFields(obj), segments, value)
    {
      var current := Cursor(result, segments[..i]);
      if segments[i] !in current || !current[segments[i]].Obj? {
        MakingRoomIsHarmless(result, segments, i, value);
        result := Write(result, segments[..i + 1], Obj(map[]));
      }
      ObjectsExtend(result, segments, i);
      i := i + 1;
    }
    assert segments[..|segments|] == segments;
    result := Write(result, segments, value);
  }

  lemma {:induction false} ObjectsExtend(fields: Fields, path: Path, i: nat)
    requires i < |path| && Objects(fields, path[..i])
    requires path[i] in Cursor(fields, path[..i]) && Cursor(fields, path[..i])[path[i]].Obj?
    ensures Objects(fields, path[..i + 1])
    decreases |path|
  {
    if i == 0 {
      assert path[..1][1..] == [];
    } else {
      assert path[..i][1..] == path[1..][..i - 1] && path[..i + 1][1..] == path[1..][..i];
      ObjectsExtend(Child(fields, path[0]), path[1..], i - 1);
    }
  }

  /** Putting an empty object where the cursor has none changes nothing that the final write does not. */
  lemma {:induction false} MakingRoomIsHarmless(fields: Fields, path: Path, i: nat, value: Json)
    requires i < |path| - 1 && Objects(fields, path[..i])
    requires path[i] !in Cursor(fields, path[..i]) || !Cursor(fields, path[..i])[path[i]].Obj?
    ensures var roomy := Write(fields, path[..i + 1], Obj(map[]));
            && Write(roomy, path, value) == Write(fields, path, value)
            && Objects(roomy, path[..i])
            && path[i] in Cursor(roomy, path[..i]) && Cursor(roomy, path[..i])[path[i]].Obj?
    decreases |path|
  {
    if i == 0 {
      assert path[..1] == [path[0]];
    } else {
      assert path[..i][1..] == path[1..][..i - 1] && path[..i + 1][1..] == path[1..][..i];
      MakingRoomIsHarmless(Child(fields, path[0]), path[1..], i - 1, value);
    }
  }

  // ---------------------------------------------------------------------------------------------
  // Cloning through JSON text
  // ---------------------------------------------------------------------------------------------

  /** `JSON.parse(JSON.stringify(v))`: JSON has no infinities and no NaN, so they come back as null. */
  function Clone(v: Json): Json {
    match v
    case Num(n) => if n.Finite? then v else Null
    case Arr(items) => Arr(seq(|items|, i requires 0 <= i < |items| => Clone(items[i])))
    case Obj(fields) => Obj(map key | key in fields :: Clone(fields[key]))
    case _ => v
  }

  function CloneFields(fields: Fields): Fields {
    map key | key in fields :: Clone(fields[key])
  }

  function CloneRead(v: Option<Json>): Option<Json> {
    if v.Some? then Some(Clone(v.value)) else None
  }

  /** Every number in `v` is finite. */
  predicate AllFinite(v: Json) {
    match v
    case Num(n) => n.Finite?
    case Arr(items) => forall i :: 0 <= i < |items| ==> AllFinite(items[i])
    case Obj(fields) => forall key :: key in fields ==> AllFinite(fields[key])
    case _ => true
  }

  lemma {:induction false} CloneKeepsIffFinite(v: Json)
    ensures Clone(v) == v <==> AllFinite(v)
  {
    match v
    case Arr(items) =>
      forall i | 0 <= i < |items| ensures Clone(items[i]) == items[i] <==> AllFinite(items[i]) {
        CloneKeepsIffFinite(items[i]);
      }
      if Clone(v) == v {
        assert forall i :: 0 <= i < |items| ==> Clone(v).items[i] == Clone(items[i]);
      }
    case Obj(fields) =>
      forall key | key in fields ensures Clone(fields[key]) == fields[key] <==> AllFinite(fields[key]) {
        CloneKeepsIffFinite(fields[key]);
      }
      if Clone(v) == v {
        assert forall key :: key in fields ==> Clone(v).fields[key] == Clone(fields[key]);
      }
    case _ =>
  }

  lemma {:induction false} CloneIsFinite(v: Json)
    ensures AllFinite(Clone(v)) && Clone(Clone(v)) == Clone(v)
  {
    match v {
      case Arr(items) =>
        forall i | 0 <= i < |items| ensures AllFinite(Clone(items[i])) {
          CloneIsFinite(items[i]);
        }
      case Obj(fields) =>
        forall key | key in fields ensures AllFinite(Clone(fields[key])) {
          CloneIsFinite(fields[key]);
        }
      case _ =>
    }
    CloneKeepsIffFinite(Clone(v));
  }

  lemma CloneFieldsTwice(fields: Fields)
    ensures CloneFields(CloneFields(fields)) == CloneFields(fields)
  {
    forall key | key in fields ensures Clone(Clone(fields[key])) == Clone(fields[key]) {
      CloneIsFinite(fields[key]);
    }
  }

  lemma {:induction false} CloneCommutes(v: Option<Json>, path: Path)
    ensures Read(CloneRead(v), path) == CloneRead(Read(v, path))
    decreases |path|
  {
    if path != [] {
      assert Member(CloneRead(v), path[0]) == CloneRead(Member(v, path[0]));
      CloneCommutes(Member(v, path[0]), path[1..]);
    }
  }

  /** Reading the clone is cloning what is read. */
  lemma ReadOfClone(fields: Fields, path: Path)
    ensures path != [] ==> ReadIn(CloneFields(fields), path) == CloneRead(ReadIn(fields, path))
  {
    CloneCommutes(Some(Obj(fields)), path);
    assert Clone(Obj(fields)) == Obj(CloneFields(fields));
  }

  lemma {:induction false} CloneMeetsNoArray(fields: Fields, path: Path)
    requires NoArrayOn(fields, path)
    ensures NoArrayOn(CloneFields(fields), path)
    decreases |path|
  {
    if |path| > 1 && path[0] in fields && fields[path[0]].Obj? {
      CloneMeetsNoArray(fields[path[0]].fields, path[1..]);
      assert Clone(fields[path[0]]) == Obj(CloneFields(fields[path[0]].fields));
    }
  }

  // ---------------------------------------------------------------------------------------------
  // Laws
  // ---------------------------------------------------------------------------------------------

  lemma {:induction false} ReadAfterWrite(fields: Fields, path: Path, value: Json)
    requires path != []
    ensures ReadIn(Write(fields, path, value), path) == Some(value)
    decreases |path|
  {
    assert ReadIn(Write(fields, path, value), path)
        == Read(Member(Some(Obj(Write(fields, path, value))), path[0]), path[1..]);
    if |path| == 1 {
      assert path[1..] == [];
    } else {
      ReadAfterWrite(Child(fields, path[0]), path[1..], value);
    }
  }

  lemma ApartBelow(p: Path, q: Path)
    requires Apart(p, q) && p[0] == q[0]
    ensures Apart(p[1..], q[1..])
  {
    assert p == [p[0]] + p[1..] && q == [q[0]] + q[1..];
    assert p[1..] <= q[1..] ==> p <= q;
    assert q[1..] <= p[1..] ==> q <= p;
  }

  lemma {:induction false} ReadElsewhere(fields: Fields, path: Path, value: Json, q: Path)
    requires path != [] && Apart(path, q)
    ensures ReadIn(Write(fields, path, value), q) == ReadIn(fields, q)
    decreases |path|
  {
    if q[0] == path[0] {
      if |path| > 1 {
        ApartBelow(path, q);
        ReadElsewhere(Child(fields, path[0]), path[1..], value, q[1..]);
        if !(path[0] in fields && fields[path[0]].Obj?) {
          ReadOfEmpty(q[1..]);
          ReadOfScalar(Member(Some(Obj(fields)), path[0]), q[1..]);
        }
      }
    }
  }

  lemma {:induction false} ReadOfEmpty(path: Path)
    requires path != []
    ensures ReadIn(map[], path) == None
  {
    ReadOfNothing(path[1..]);
  }

  lemma ReadOfScalar(v: Option<Json>, path: Path)
    requires path != [] && (v.None? || !v.value.Obj?)
    ensures Read(v, path) == None
  {
    ReadOfNothing(path[1..]);
  }

  /** A write puts no array on its own path, nor on one apart from it. */
  lemma {:induction false} WriteMeetsNoArray(fields: Fields, path: Path, value: Json, q: Path)
    requires path != [] && NoArrayOn(fields, q) && (q == path || Apart(path, q))
    ensures NoArrayOn(Write(fields, path, value), q)
    decreases |path|
  {
    if |q| > 1 && |path| > 1 && q[0] == path[0] {
      assert path == [path[0]] + path[1..] && q == [q[0]] + q[1..];
      assert q[1..] == path[1..] || Apart(path[1..], q[1..]);
      WriteMeetsNoArray(Child(fields, path[0]), path[1..], value, q[1..]);
    }
  }

  lemma {:induction false} LastWriteWins(fields: Fields, path: Path, first: Json, second: Json)
    requires path != []
    ensures Write(Write(fields, path, first), path, second) == Write(fields, path, second)
    decreases |path|
  {
    if |path| > 1 {
      LastWriteWins(Child(fields, path[0]), path[1..], first, second);
    }
  }

  /** A section is read by the rest of the path. */
  lemma ReadInSection(fields: Fields, path: Path)
    requires |path| > 1
    ensures ReadIn(fields, path) == ReadIn(Child(fields, path[0]), path[1..])
  {
    if !(path[0] in fields && fields[path[0]].Obj?) {
      ReadOfEmpty(path[1..]);
      ReadOfScalar(Member(Some(Obj(fields)), path[0]), path[1..]);
    }
  }

  /** One segment reads an own property; further ones read on inside it if it is an object. */
  lemma ReadMeans(fields: Fields, key: string, rest: Path)
    ensures ReadIn(fields, [key]) == if key in fields then Some(fields[key]) else None
    ensures rest != [] ==>
              ReadIn(fields, [key] + rest) ==
              if key in fields && fields[key].Obj? then ReadIn(fields[key].fields, rest) else None
  {
    var v := Member(Some(Obj(fields)), key);
    assert [key][1..] == [] && ([key] + rest)[1..] == rest;
    assert ReadIn(fields, [key]) == Read(v, []);
    if rest != [] && (v.None? || !v.value.Obj?) {
      ReadOfScalar(v, rest);
    }
  }

  /** Cloning nulls the numbers that JSON has not, and keeps everything else in its place. */
  lemma CloneMeans(v: Json)
    ensures v.Num? && (v.n.Infinite? || v.n.NotANumber?) ==> Clone(v) == Null
    ensures v.Arr? ==> Clone(v).Arr? && |Clone(v).items| == |v.items|
                       && forall i :: 0 <= i < |v.items| ==> Clone(v).items[i] == Clone(v.items[i])
    ensures v.Obj? ==> Clone(v).Obj? && Clone(v).fields.Keys == v.fields.Keys
                       && forall key :: key in v.fields ==> Clone(v).fields[key] == Clone(v.fields[key])
    ensures AllFinite(v) ==> Clone(v) == v
  {
    CloneKeepsIffFinite(v);
  }

  ghost predicate AgreeApart(a: Fields, b: Fields, path: Path) {
    forall q :: Apart(path, q) ==> ReadIn(a, q) == ReadIn(b, q)
  }

  /** `after` is what writing `value` at `path` leaves of `before`, as one reads it: cloned everywhere else. */
  ghost predicate Leaves(before: Fields, path: Path, value: Json, after: Fields) {
    && ReadIn(after, path) == Some(value)
    && forall q :: Apart(path, q) ==> ReadIn(after, q) == CloneRead(ReadIn(before, q))
  }

  lemma WriteLeaves(before: Fields, path: Path, value: Json)
    requires path != []
    ensures Leaves(before, path, value, Write(CloneFields(before), path, value))
  {
    ReadAfterWrite(CloneFields(before), path, value);
    forall q | Apart(path, q)
      ensures ReadIn(Write(CloneFields(before), path, value), q) == CloneRead(ReadIn(before, q))
    {
      ReadElsewhere(CloneFields(before), path, value, q);
      ReadOfClone(before, q);
    }
  }

  lemma {:induction false} ReadsDetermine(a: Fields, b: Fields, path: Path, value: Json)
    requires path != [] && AgreeApart(a, b, path)
    requires ReadIn(a, path) == Some(value) && ReadIn(b, path) == Some(value)
    ensures a == b
    decreases |path|
  {
    var own := path[0];
    forall key | key != own ensures (key in a <==> key in b) && (key in a ==> a[key] == b[key]) {
      assert Apart(path, [key]);
      ReadMeans(a, key, []);
      ReadMeans(b, key, []);
    }
    assert path == [own] + path[1..];
    ReadMeans(a, own, path[1..]);
    ReadMeans(b, own, path[1..]);
    if |path| > 1 {
      AgreeBelow(a, b, own, path[1..]);
      ReadsDetermine(a[own].fields, b[own].fields, path[1..], value);
    } else {
      assert path == [own];
    }
    assert own in a && own in b && a[own] == b[own];
    assert a.Keys == b.Keys;
  }

  lemma AgreeBelow(a: Fields, b: Fields, key: string, path: Path)
    requires key in a && a[key].Obj? && key in b && b[key].Obj?
    requires AgreeApart(a, b, [key] + path)
    ensures AgreeApart(a[key].fields, b[key].fields, path)
  {
    forall q | Apart(path, q) ensures ReadIn(a[key].fields, q) == ReadIn(b[key].fields, q) {
      PrependApart(key, path, q);
      ReadMeans(a, key, q);
      ReadMeans(b, key, q);
    }
  }

  lemma PrependApart(key: string, p: Path, q: Path)
    requires Apart(p, q)
    ensures q != [] && Apart([key] + p, [key] + q)
  {
    assert ([key] + p)[1..] == p && ([key] + q)[1..] == q;
    assert [key] + p <= [key] + q ==> p <= q;
    assert [key] + q <= [key] + p ==> q <= p;
  }

  /** Reads leave no choice: there is one such section. */
  lemma LeavesOne(before: Fields, path: Path, value: Json, after: Fields)
    requires path != [] && Leaves(before, path, value, after)
    ensures after == Write(CloneFields(before), path, value)
  {
    WriteLeaves(before, path, value);
    ReadsDetermine(after, Write(CloneFields(before), path, value), path, value);
  }

  // ---------------------------------------------------------------------------------------------
  // Keys a schema has dropped or does not know
  // ---------------------------------------------------------------------------------------------

  /** `path` exists in `input`, its parent is an object on both sides, and `parsed` lacks its last key. */
  predicate StrippedAt(input: Fields, parsed: Fields, path: Path)
    decreases |path|
  {
    && path != [] && path[0] in input
    && if path[0] !in parsed then |path| == 1
       else input[path[0]].Obj? && parsed[path[0]].Obj?
            && StrippedAt(input[path[0]].fields, parsed[path[0]].fields, path[1..])
  }

  /** The value read is an object. */
  predicate IsObjectRead(v: Option<Json>) {
    v.Some? && v.value.Obj?
  }

  /** Stripped: there before the parse, gone after it, below an object both times. */
  lemma {:induction false} StrippedMeans(input: Fields, parsed: Fields, path: Path)
    requires path != []
    ensures var parent := path[..|path| - 1];
            StrippedAt(input, parsed, path) <==>
            && ReadIn(input, path).Some? && ReadIn(parsed, path).None?
            && IsObjectRead(ReadIn(input, parent)) && IsObjectRead(ReadIn(parsed, parent))
    decreases |path|
  {
    var key, rest := path[0], path[1..];
    assert path == [key] + rest;
    ReadMeans(input, key, rest);
    ReadMeans(parsed, key, rest);
    if rest == [] {
      assert path[..0] == [] && path == [key];
    } else {
      var parent := rest[..|rest| - 1];
      assert path[..|path| - 1] == [key] + parent;
      ReadMeans(input, key, parent);
      ReadMeans(parsed, key, parent);
      if key in input && key in parsed && input[key].Obj? && parsed[key].Obj? {
        StrippedMeans(input[key].fields, parsed[key].fields, rest);
        assert parent == [] ==> [key] + parent == [key];
      } else {
        assert parent == [] ==> [key] + parent == [key];
      }
    }
  }

  /** The stripped paths below `prefix`, one key of `input` at a time. */
  method FindStrippedKeys(input: Fields, parsed: Fields, prefix: Path) returns (stripped: seq<Path>)
    ensures forall p :: prefix + p in stripped <==> StrippedAt(input, parsed, p)
    ensures forall s :: s in stripped ==> prefix <= s
    decreases Obj(input)
  {
    stripped := [];
    var keys := input.Keys;
    while keys != {}
      invariant keys <= input.Keys
      invariant forall p :: prefix + p in stripped <==> StrippedAt(input, parsed, p) && p[0] !in keys
      invariant forall s :: s in stripped ==> prefix <= s
      decreases keys
    {
      var key :| key in keys;
      keys := keys - {key};
      var path := prefix + [key];
      var found := [];
      if key !in parsed {
        found := [path];
        OnlyMeans(prefix, key);
      } else if input[key].Obj? && parsed[key].Obj? {
        found := FindStrippedKeys(input[key].fields, parsed[key].fields, path);
        BelowMeans(found, prefix, key, input[key].fields, parsed[key].fields);
      }
      assert forall p :: prefix + p in found <==> p != [] && p[0] == key && StrippedAt(input, parsed, p);
      stripped := stripped + found;
    }
  }

  lemma OnlyMeans(prefix: Path, key: string)
    ensures forall p :: prefix + p in [prefix + [key]] <==> p == [key]
  {
    forall p | prefix + p == prefix + [key] ensures p == [key] {
      assert (prefix + p)[|prefix|..] == p && (prefix + [key])[|prefix|..] == [key];
    }
  }

  lemma BelowMeans(below: seq<Path>, prefix: Path, key: string, input: Fields, parsed: Fields)
    requires forall q :: prefix + [key] + q in below <==> StrippedAt(input, parsed, q)
    requires forall s :: s in below ==> prefix + [key] <= s
    ensures forall p :: prefix + p in below <==> p != [] && p[0] == key && StrippedAt(input, parsed, p[1..])
  {
    forall p ensures prefix + p in below <==> p != [] && p[0] == key && StrippedAt(input, parsed, p[1..]) {
      if prefix + p in below {
        assert prefix + [key] <= prefix + p;
        assert (prefix + p)[|prefix|] == key;
      }
      if p != [] && p[0] == key {
        assert prefix + [key] + p[1..] == prefix + p;
      }
    }
  }

  datatype JsonSchema = JsonSchema(properties: Option<map<string, JsonSchema>>)

  predicate SchemaHas(schema: JsonSchema, path: Path)
    decreases |path|
  {
    path != [] ==>
      && schema.properties.Some? && path[0] in schema.properties.value
      && SchemaHas(schema.properties.value[path[0]], path[1..])
  }

  /** Empty when the schema knows the whole path, else the shortest prefix it does not know. */
  method ValidateJsonSchemaPath(schema: JsonSchema, dotpath: string) returns (unrecognized: seq<string>)
    ensures unrecognized == [] <==> SchemaHas(schema, PathOf(dotpath))
    ensures unrecognized != [] ==>
              exists n :: 0 <= n < |PathOf(dotpath)|
                && SchemaHas(schema, PathOf(dotpath)[..n]) && !SchemaHas(schema, PathOf(dotpath)[..n + 1])
                && unrecognized == [Join(PathOf(dotpath)[..n + 1], '.')]
  {
    var segments := Split(dotpath, '.');
    var current := schema;
    unrecognized := [];
    for i := 0 to |segments|
      invariant unrecognized == []
      invariant SchemaHas(schema, segments[..i])
      invariant forall n :: i <= n <= |segments| ==>
                  (SchemaHas(schema, segments[..n]) <==> SchemaHas(current, segments[i..n]))
    {
      var segment := segments[i];
      assert segments[i..i + 1] == [segment];
      if current.properties.None? || segment !in current.properties.value {
        assert segments[i..|segments|] == segments[i..] && segments[..|segments|] == segments;
        return [Join(segments[..i + 1], '.')];
      }
      forall n | i + 1 <= n <= |segments|
        ensures SchemaHas(schema, segments[..n]) <==> SchemaHas(current.properties.value[segment], segments[i + 1..n])
      {
        assert segments[i..n][0] == segment && segments[i..n][1..] == segments[i + 1..n];
      }
      current := current.properties.value[segment];
      assert segments[i + 1..i + 1] == [];
    }
    assert segments[..|segments|] == segments;
  }
}
