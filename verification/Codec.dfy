/** The JSON codec of the SQLite adapter, on JSON trees. */
module Codec {
  import opened Domain

  /** Keys of a JSON object: the codec's own markers, attribute names, anything else. */
  datatype Key = KType | KFields | KEnum | KMember | KDt | KTuple | KField(f: Field) | KOther(text: string)

  /** Names the codec writes next to its markers. */
  datatype Name = NClass(c: Class) | NEnum(e: EnumType) | NMember(m: Member)

  datatype Json =
    | JNull
    | JBool(b: bool)
    | JInt(i: int)
    | JFloat(r: real)
    | JStr(s: string)
    | JName(n: Name)
    | JArr(items: seq<Json>)
    | JObj(m: map<Key, Json>)

  /** What the codec learns by reflection.  It is written against this interface only, so
      everything below holds for any set of declarations. */
  datatype Declarations = Declarations(
    schema: Class -> map<Field, Default>,
    accepts: (Class, map<Field, Value>) -> bool,
    normalise: (Class, map<Field, Value>) -> map<Field, Value>,
    members: EnumType -> set<Member>,
    classes: Class -> bool,
    enums: EnumType -> bool)

  /** Values a Python program can hold: every object in them came out of its constructor. */
  ghost predicate Built(d: Declarations, v: Value) {
    match v
    case Enum(e, m) => m in d.members(e)
    case Tuple(items) => forall x :: x in items ==> Built(d, x)
    case Obj(c, f) => f.Keys == d.schema(c).Keys && d.accepts(c, f) && forall k :: k in f ==> Built(d, f[k])
    case _ => true
  }

  /** Every class and enum inside is one the codec can look up by name. */
  ghost predicate Registered(d: Declarations, v: Value) {
    match v
    case Enum(e, _) => d.enums(e)
    case Tuple(items) => forall x :: x in items ==> Registered(d, x)
    case Obj(c, f) => d.classes(c) && forall k :: k in f ==> Registered(d, f[k])
    case _ => true
  }

  /** Defaults are ordinary registered values, and a constructor is done rewriting once it accepts. */
  ghost predicate Coherent(d: Declarations) {
    && (forall c, k :: k in d.schema(c) && d.schema(c)[k].Defaults? ==>
          Built(d, d.schema(c)[k].value) && Registered(d, d.schema(c)[k].value))
    && (forall c, f :: d.accepts(c, f) ==> d.normalise(c, f) == f)
    && (forall c, f :: d.normalise(c, f).Keys == f.Keys)
    && (forall c, f, k :: k in f ==>
          d.normalise(c, f)[k] == f[k] || d.normalise(c, f)[k].Float?)
  }

  /** Keyword arguments completed with the declared defaults. */
  function Complete(schema: map<Field, Default>, kwargs: map<Field, Value>): map<Field, Value>
    requires forall k :: k in schema && schema[k].Required? ==> k in kwargs
  {
    map k | k in schema :: if k in kwargs then kwargs[k] else schema[k].value
  }

  /** Calling a dataclass with keyword arguments; `None` is a raised exception. */
  function Construct(d: Declarations, c: Class, kwargs: map<Field, Value>): Option<Value> {
    var schema := d.schema(c);
    if kwargs.Keys <= schema.Keys && forall k :: k in schema && schema[k].Required? ==> k in kwargs then
      var full := d.normalise(c, Complete(schema, kwargs));
      if d.accepts(c, full) then Some(Obj(c, full)) else None
    else None
  }

  /** Encoding does not look at the registries: it succeeds on every value. */
  function Encode(v: Value): Json
    decreases v, 1
  {
    match v
    case PyNone => JNull
    case Bool(b) => JBool(b)
    case Int(i) => JInt(i)
    case Float(r) => JFloat(r)
    case Str(s) => JStr(s)
    case Enum(e, m) => JObj(map[KEnum := JName(NEnum(e)), KMember := JName(NMember(m))])
    case Time(iso) => JObj(map[KDt := JStr(iso)])
    case Tuple(items) => JObj(map[KTuple := JArr(EncodeAll(items))])
    case Obj(c, _) => Tagged(c, EncodeFields(v))
  }

  /** The attributes of an object, under their names. */
  function EncodeFields(v: Value): Json
    requires v.Obj?
    decreases v, 0
  {
    JObj(map k: Field | k in v.fields :: KField(k) := Encode(v.fields[k]))
  }

  function Tagged(c: Class, fields: Json): Json {
    JObj(map[KType := JName(NClass(c)), KFields := fields])
  }

  function EncodeAll(s: seq<Value>): (r: seq<Json>)
    ensures |r| == |s|
    ensures forall i :: 0 <= i < |s| ==> r[i] == Encode(s[i])
    decreases s
  {
    if s == [] then [] else [Encode(s[0])] + EncodeAll(s[1..])
  }

  /** Decoding; `None` is a raised exception (unknown name, bad argument list, refused object). */
  function Decode(d: Declarations, j: Json): Option<Value>
    decreases j, 1
  {
    match j
    case JNull => Some(PyNone)
    case JBool(b) => Some(Bool(b))
    case JInt(i) => Some(Int(i))
    case JFloat(r) => Some(Float(r))
    case JStr(s) => Some(Str(s))
    case JName(_) => None
    case JArr(_) => None
    case JObj(m) =>
      if KEnum in m then
        if KMember in m then DecodeEnum(d, m[KEnum], m[KMember]) else None
      else if KDt in m then
        if m[KDt].JStr? then Some(Time(m[KDt].s)) else None
      else if KTuple in m then
        if m[KTuple].JArr? then DecodeTuple(d, m[KTuple].items) else None
      else if KType in m then
        DecodeObject(d, j)
      else None
  }

  /** A tagged object: look the class up, then call it with the decoded attributes. */
  function DecodeObject(d: Declarations, j: Json): Option<Value>
    requires j.JObj? && KType in j.m
    decreases j, 0
  {
    if KFields in j.m && j.m[KFields].JObj? && j.m[KType].JName? && j.m[KType].n.NClass?
        && d.classes(j.m[KType].n.c) then
      var kwargs := DecodeFields(d, j.m[KFields]);
      if kwargs.Some? then Construct(d, j.m[KType].n.c, kwargs.value) else None
    else None
  }

  function DecodeEnum(d: Declarations, e: Json, m: Json): Option<Value> {
    if && e.JName? && e.n.NEnum? && m.JName? && m.n.NMember?
       && d.enums(e.n.e) && m.n.m in d.members(e.n.e)
    then Some(Enum(e.n.e, m.n.m)) else None
  }

  /** The keyword arguments of a "fields" object: every key has to be an attribute name. */
  function DecodeFields(d: Declarations, j: Json): (r: Option<map<Field, Value>>)
    requires j.JObj?
    ensures r.Some? ==> forall k :: k in j.m ==> k.KField? && Decode(d, j.m[k]).Some?
    decreases j
  {
    if forall k :: k in j.m ==> k.KField? && Decode(d, j.m[k]).Some?
    then Some(map k: Key | k in j.m :: k.f := Decode(d, j.m[k]).value)
    else None
  }

  function DecodeTuple(d: Declarations, s: seq<Json>): (r: Option<Value>)
    ensures r.Some? <==> forall i :: 0 <= i < |s| ==> Decode(d, s[i]).Some?
    ensures r.Some? ==> r.value.Tuple? && |r.value.items| == |s|
    ensures r.Some? ==> forall i :: 0 <= i < |s| ==> r.value.items[i] == Decode(d, s[i]).value
    decreases s
  {
    if s == [] then Some(Tuple([])) else
    var head, tail := Decode(d, s[0]), DecodeTuple(d, s[1..]);
    if head.Some? && tail.Some? then Some(Tuple([head.value] + tail.value.items)) else None
  }

  lemma ConstructBuilt(d: Declarations, c: Class, f: map<Field, Value>)
    requires Coherent(d)
    requires f.Keys == d.schema(c).Keys && d.accepts(c, f)
    ensures Construct(d, c, f) == Some(Obj(c, f))
  {
    assert Complete(d.schema(c), f) == f;
  }

  /** Round trip, with its exact condition: what was encoded comes back unchanged when every
      class and enum in it is registered, and otherwise decoding raises. */
  lemma {:induction false} RoundTrip(d: Declarations, v: Value)
    requires Coherent(d)
    requires Built(d, v)
    ensures Decode(d, Encode(v)) == if Registered(d, v) then Some(v) else None
    decreases v
  {
    match v
    case Tuple(items) =>
      forall i | 0 <= i < |items|
        ensures Decode(d, Encode(items[i])) == if Registered(d, items[i]) then Some(items[i]) else None
      {
        RoundTrip(d, items[i]);
      }
      TupleRoundTrip(d, items);
    case Obj(c, f) =>
      forall k | k in f
        ensures Decode(d, Encode(f[k])) == if Registered(d, f[k]) then Some(f[k]) else None
      {
        RoundTrip(d, f[k]);
      }
      FieldsRoundTrip(d, c, f);
      ObjectRoundTrip(d, c, f);
    case _ => LeafRoundTrip(d, v);
  }

  lemma LeafRoundTrip(d: Declarations, v: Value)
    requires Built(d, v) && !v.Tuple? && !v.Obj?
    ensures Decode(d, Encode(v)) == if Registered(d, v) then Some(v) else None
  {
  }

  lemma FieldsRoundTrip(d: Declarations, c: Class, f: map<Field, Value>)
    requires forall k :: k in f ==> Decode(d, Encode(f[k])) == if Registered(d, f[k]) then Some(f[k]) else None
    ensures DecodeFields(d, EncodeFields(Obj(c, f))) ==
            if forall k :: k in f ==> Registered(d, f[k]) then Some(f) else None
  {
    var fm := EncodeFields(Obj(c, f)).m;
    assert forall k :: k in f ==> KField(k) in fm && fm[KField(k)] == Encode(f[k]);
    var kwargs := DecodeFields(d, EncodeFields(Obj(c, f)));
    if kwargs.Some? {
      assert kwargs.value == f;
    }
  }

  lemma TupleRoundTrip(d: Declarations, items: seq<Value>)
    requires forall i :: 0 <= i < |items| ==>
               Decode(d, Encode(items[i])) == if Registered(d, items[i]) then Some(items[i]) else None
    ensures DecodeTuple(d, EncodeAll(items)) ==
            if forall x :: x in items ==> Registered(d, x) then Some(Tuple(items)) else None
  {
    var t := DecodeTuple(d, EncodeAll(items));
    if t.Some? {
      assert t.value.items == items;
    }
  }

  lemma ObjectRoundTrip(d: Declarations, c: Class, f: map<Field, Value>)
    requires Coherent(d)
    requires Built(d, Obj(c, f))
    requires DecodeFields(d, EncodeFields(Obj(c, f))) ==
             if forall k :: k in f ==> Registered(d, f[k]) then Some(f) else None
    ensures Decode(d, Encode(Obj(c, f))) == if Registered(d, Obj(c, f)) then Some(Obj(c, f)) else None
  {
    DecodeTagged(d, c, EncodeFields(Obj(c, f)));
    ConstructBuilt(d, c, f);
  }

  lemma DecodeTagged(d: Declarations, c: Class, fields: Json)
    requires fields.JObj?
    ensures Decode(d, Tagged(c, fields)) ==
            if d.classes(c) && DecodeFields(d, fields).Some?
            then Construct(d, c, DecodeFields(d, fields).value) else None
  {
    var j := Tagged(c, fields);
    assert j.m.Keys == {KType, KFields};
    assert Decode(d, j) == DecodeObject(d, j);
  }

  /** Distinct registered values never share an encoding. */
  lemma EncodeInjective(d: Declarations, v: Value, w: Value)
    requires Coherent(d)
    requires Built(d, v) && Built(d, w) && Registered(d, v)
    ensures Encode(v) == Encode(w) ==> v == w
  {
    RoundTrip(d, v);
    RoundTrip(d, w);
  }

  /** Whatever decoding returns was built by constructors from registered names only, so
      encoding it again is stable however the JSON came about. */
  lemma {:induction false} DecodeBuilds(d: Declarations, j: Json)
    requires Coherent(d)
    requires Decode(d, j).Some?
    ensures Built(d, Decode(d, j).value) && Registered(d, Decode(d, j).value)
    ensures Decode(d, Encode(Decode(d, j).value)) == Decode(d, j)
    decreases j
  {
    if j.JObj? && KEnum !in j.m && KDt !in j.m {
      if KTuple in j.m {
        var items := j.m[KTuple].items;
        forall i | 0 <= i < |items|
          ensures Decode(d, items[i]).Some?
          ensures Built(d, Decode(d, items[i]).value) && Registered(d, Decode(d, items[i]).value)
        {
          DecodeBuilds(d, items[i]);
        }
      } else {
        assert Decode(d, j) == DecodeObject(d, j);
        var fm := j.m[KFields].m;
        forall k | k in fm
          ensures Decode(d, fm[k]).Some?
          ensures Built(d, Decode(d, fm[k]).value) && Registered(d, Decode(d, fm[k]).value)
        {
          DecodeBuilds(d, fm[k]);
        }
        var kwargs := DecodeFields(d, j.m[KFields]).value;
        forall f | f in kwargs
          ensures Built(d, kwargs[f]) && Registered(d, kwargs[f])
        {
          assert KField(f) in fm;
        }
        ConstructKeeps(d, j.m[KType].n.c, kwargs);
      }
    }
    RoundTrip(d, Decode(d, j).value);
  }

  lemma CompleteKeeps(d: Declarations, c: Class, kwargs: map<Field, Value>)
    requires Coherent(d)
    requires forall k :: k in d.schema(c) && d.schema(c)[k].Required? ==> k in kwargs
    requires forall k :: k in kwargs ==> Built(d, kwargs[k]) && Registered(d, kwargs[k])
    ensures var f := Complete(d.schema(c), kwargs);
            forall k :: k in f ==> Built(d, f[k]) && Registered(d, f[k])
  {
  }

  lemma ConstructKeeps(d: Declarations, c: Class, kwargs: map<Field, Value>)
    requires Coherent(d)
    requires d.classes(c)
    requires forall k :: k in kwargs ==> Built(d, kwargs[k]) && Registered(d, kwargs[k])
    ensures Construct(d, c, kwargs).Some? ==>
              Built(d, Construct(d, c, kwargs).value) && Registered(d, Construct(d, c, kwargs).value)
  {
    if Construct(d, c, kwargs).Some? {
      CompleteKeeps(d, c, kwargs);
    }
  }

  // ----- the form on disk -----

  /** The JSON a value is kept as: primitives as themselves, everything else as an object with its own marker. */
  ghost predicate Represents(j: Json, v: Value)
    decreases v
  {
    match v
    case PyNone => j.JNull?
    case Bool(b) => j.JBool? && j.b == b
    case Int(i) => j.JInt? && j.i == i
    case Float(r) => j.JFloat? && j.r == r
    case Str(s) => j.JStr? && j.s == s
    case Enum(e, m) =>
      j.JObj? && j.m.Keys == {KEnum, KMember} && j.m[KEnum] == JName(NEnum(e)) && j.m[KMember] == JName(NMember(m))
    case Time(iso) => j.JObj? && j.m.Keys == {KDt} && j.m[KDt] == JStr(iso)
    case Tuple(items) =>
      && j.JObj? && j.m.Keys == {KTuple} && j.m[KTuple].JArr? && |j.m[KTuple].items| == |items|
      && forall i :: 0 <= i < |items| ==> Represents(j.m[KTuple].items[i], items[i])
    case Obj(c, f) =>
      && j.JObj? && j.m.Keys == {KType, KFields} && j.m[KType] == JName(NClass(c)) && j.m[KFields].JObj?
      && (forall k :: k in j.m[KFields].m <==> k.KField? && k.f in f)
      && forall k :: k in f ==> Represents(j.m[KFields].m[KField(k)], f[k])
  }

  lemma TupleForm(items: seq<Value>)
    ensures var j := Encode(Tuple(items));
            j.JObj? && j.m.Keys == {KTuple} && j.m[KTuple].JArr? && |j.m[KTuple].items| == |items|
            && forall i :: 0 <= i < |items| ==> j.m[KTuple].items[i] == Encode(items[i])
  {
  }

  lemma ObjectForm(c: Class, f: map<Field, Value>)
    ensures var j := Encode(Obj(c, f));
            && j.JObj? && j.m.Keys == {KType, KFields} && j.m[KType] == JName(NClass(c)) && j.m[KFields].JObj?
            && (forall k :: k in j.m[KFields].m <==> k.KField? && k.f in f)
            && forall k :: k in f ==> j.m[KFields].m[KField(k)] == Encode(f[k])
  {
    var j := Encode(Obj(c, f));
    assert j == Tagged(c, EncodeFields(Obj(c, f)));
  }

  /** Every value is kept in that form. */
  lemma {:induction false} EncodeRepresents(v: Value)
    ensures Represents(Encode(v), v)
    decreases v
  {
    match v
    case Tuple(items) =>
      TupleForm(items);
      forall i | 0 <= i < |items| ensures Represents(Encode(items[i]), items[i]) {
        EncodeRepresents(items[i]);
      }
    case Obj(c, f) =>
      ObjectForm(c, f);
      forall k | k in f ensures Represents(Encode(f[k]), f[k]) {
        EncodeRepresents(f[k]);
      }
    case _ =>
  }
}
