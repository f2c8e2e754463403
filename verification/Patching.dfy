/** Rewriting legacy blobs: what the migration's patch helpers do to a JSON tree, and why the
    result decodes to the legacy object with its missing ownership filled in. */
module Patching {
  import opened Domain
  import opened Codec
  import opened Declared

  const UNKNOWN_SUBJECT: string := "subject:unknown-pre-migration"

  /** `setdefault` on every key: present keys win. */
  function AddMissing(fm: map<Key, Json>, adds: map<Field, Json>): map<Key, Json> {
    (map f: Field | f in adds :: KField(f) := adds[f]) + fm
  }

  /** `_patch_fields`; `None` is the exception a blob of the wrong shape raises. */
  function PatchFields(j: Json, adds: map<Field, Json>): Option<Json> {
    if !j.JObj? then None
    else if KFields !in j.m then Some(JObj(j.m[KFields := JObj(AddMissing(map[], adds))]))
    else if !j.m[KFields].JObj? then None
    else Some(JObj(j.m[KFields := JObj(AddMissing(j.m[KFields].m, adds))]))
  }

  const SPACE_ONLY: map<Field, Json> := map[SpaceId := JStr(DEFAULT_SPACE)]

  /** `_patch_ledger_blob`: the event nested in the entry gets the space. */
  function PatchLedger(j: Json): Option<Json> {
    if !j.JObj? then None
    else if KFields !in j.m then Some(j)
    else if !j.m[KFields].JObj? then None
    else
      var fm := j.m[KFields].m;
      if KField(RevisionEventField) !in fm || !fm[KField(RevisionEventField)].JObj? then Some(j)
      else
        var event := PatchFields(fm[KField(RevisionEventField)], SPACE_ONLY);
        if event.None? then None
        else Some(JObj(j.m[KFields := JObj(fm[KField(RevisionEventField) := event.value])]))
  }

  function EncodeAdds(adds: map<Field, Value>): map<Field, Json> {
    map f | f in adds :: Encode(adds[f])
  }

  lemma FieldsCommute(c: Class, f: map<Field, Value>, adds: map<Field, Value>)
    ensures JObj(AddMissing(EncodeFields(Obj(c, f)).m, EncodeAdds(adds))) == EncodeFields(Obj(c, adds + f))
  {
    var fm, after := EncodeFields(Obj(c, f)).m, EncodeFields(Obj(c, adds + f)).m;
    var patched := AddMissing(fm, EncodeAdds(adds));
    forall k
      ensures k in patched <==> k in after
      ensures k in patched && k in after ==> patched[k] == after[k]
    {
      EncodedKey(c, f, k);
      EncodedKey(c, adds + f, k);
    }
    assert patched == after;
  }

  lemma EncodedKey(c: Class, f: map<Field, Value>, k: Key)
    ensures k in EncodeFields(Obj(c, f)).m <==> k.KField? && k.f in f
    ensures k.KField? && k.f in f ==> EncodeFields(Obj(c, f)).m[k] == Encode(f[k.f])
  {
  }

  lemma RetagFields(c: Class, before: Json, after: Json)
    ensures JObj(Tagged(c, before).m[KFields := after]) == Tagged(c, after)
  {
    assert Tagged(c, before).m[KFields := after] == Tagged(c, after).m;
  }

  lemma PatchTagged(c: Class, fm: map<Key, Json>, adds: map<Field, Json>)
    ensures PatchFields(Tagged(c, JObj(fm)), adds) == Some(Tagged(c, JObj(AddMissing(fm, adds))))
  {
    RetagFields(c, JObj(fm), JObj(AddMissing(fm, adds)));
  }

  lemma EncodedObject(c: Class, f: map<Field, Value>)
    ensures EncodeFields(Obj(c, f)).JObj?
    ensures Encode(Obj(c, f)) == Tagged(c, EncodeFields(Obj(c, f))) == Tagged(c, JObj(EncodeFields(Obj(c, f)).m))
  {
  }

  /** Patching an encoding is encoding the object with the missing attributes added. */
  lemma PatchCommutes(c: Class, f: map<Field, Value>, adds: map<Field, Value>)
    ensures PatchFields(Encode(Obj(c, f)), EncodeAdds(adds)) == Some(Encode(Obj(c, adds + f)))
  {
    EncodedObject(c, f);
    EncodedObject(c, adds + f);
    FieldsCommute(c, f, adds);
    PatchTagged(c, EncodeFields(Obj(c, f)).m, EncodeAdds(adds));
  }

  lemma ReplacedKey(c: Class, f: map<Field, Value>, k: Field, v: Value, x: Key)
    requires k in f
    ensures var replaced, after := EncodeFields(Obj(c, f)).m[KField(k) := Encode(v)], EncodeFields(Obj(c, f[k := v])).m;
            && (x in replaced <==> x in after)
            && (x in replaced && x in after ==> replaced[x] == after[x])
  {
    EncodedKey(c, f, x);
    EncodedKey(c, f[k := v], x);
  }

  lemma SameEntries<K, V>(a: map<K, V>, b: map<K, V>)
    requires forall x :: x in a <==> x in b
    requires forall x :: x in a && x in b ==> a[x] == b[x]
    ensures a == b
  {
  }

  lemma FieldReplaced(c: Class, f: map<Field, Value>, k: Field, v: Value)
    requires k in f
    ensures JObj(EncodeFields(Obj(c, f)).m[KField(k) := Encode(v)]) == EncodeFields(Obj(c, f[k := v]))
  {
    var replaced, after := EncodeFields(Obj(c, f)).m[KField(k) := Encode(v)], EncodeFields(Obj(c, f[k := v])).m;
    forall x
      ensures x in replaced <==> x in after
      ensures x in replaced && x in after ==> replaced[x] == after[x]
    {
      ReplacedKey(c, f, k, v, x);
    }
    SameEntries(replaced, after);
  }

  lemma PatchLedgerTagged(c: Class, fm: map<Key, Json>, event: Json)
    requires KField(RevisionEventField) in fm && fm[KField(RevisionEventField)].JObj?
    requires PatchFields(fm[KField(RevisionEventField)], SPACE_ONLY) == Some(event)
    ensures PatchLedger(Tagged(c, JObj(fm))) == Some(Tagged(c, JObj(fm[KField(RevisionEventField) := event])))
  {
    RetagFields(c, JObj(fm), JObj(fm[KField(RevisionEventField) := event]));
  }

  /** The same for the event nested in a ledger entry. */
  lemma LedgerPatchCommutes(f: map<Field, Value>, ec: Class, ef: map<Field, Value>)
    requires RevisionEventField in f && f[RevisionEventField] == Obj(ec, ef)
    ensures var event := Obj(ec, map[SpaceId := Str(DEFAULT_SPACE)] + ef);
            PatchLedger(Encode(Obj(RevisionLedgerEntry, f))) ==
            Some(Encode(Obj(RevisionLedgerEntry, f[RevisionEventField := event])))
  {
    var space := map[SpaceId := Str(DEFAULT_SPACE)];
    var event := Obj(ec, space + ef);
    SpaceEncodes(space);
    PatchCommutes(ec, ef, space);
    EncodedKey(RevisionLedgerEntry, f, KField(RevisionEventField));
    EncodedObject(ec, ef);
    EncodedObject(RevisionLedgerEntry, f);
    EncodedObject(RevisionLedgerEntry, f[RevisionEventField := event]);
    FieldReplaced(RevisionLedgerEntry, f, RevisionEventField, event);
    PatchLedgerTagged(RevisionLedgerEntry, EncodeFields(Obj(RevisionLedgerEntry, f)).m, Encode(event));
  }

  lemma SpaceEncodes(space: map<Field, Value>)
    requires space == map[SpaceId := Str(DEFAULT_SPACE)]
    ensures EncodeAdds(space) == SPACE_ONLY
  {
    var e := EncodeAdds(space);
    assert e.Keys == {SpaceId} && SPACE_ONLY.Keys == {SpaceId};
    assert e[SpaceId] == JStr(DEFAULT_SPACE);
  }

  /** Attributes that decode on their own and together satisfy the constructor. */
  ghost predicate Upgradable(c: Class, f: map<Field, Value>) {
    && RegisteredClass(c) && f.Keys <= Schema(c).Keys
    && (forall k :: k in Schema(c) && Schema(c)[k].Required? ==> k in f)
    && (forall k :: k in f ==> Built(DOMAIN, f[k]) && Registered(DOMAIN, f[k]))
    && Accepts(c, Complete(Schema(c), f))
  }

  /** The object those attributes make: the missing ones take their declared defaults. */
  ghost function Upgraded(c: Class, f: map<Field, Value>): Value
    requires Upgradable(c, f)
  {
    Obj(c, Complete(Schema(c), f))
  }

  lemma FieldsDecode(c: Class, f: map<Field, Value>)
    requires forall k :: k in f ==> Built(DOMAIN, f[k]) && Registered(DOMAIN, f[k])
    ensures DecodeFields(DOMAIN, EncodeFields(Obj(c, f))) == Some(f)
  {
    DomainIsCoherent();
    forall k | k in f
      ensures Decode(DOMAIN, Encode(f[k])) == Some(f[k])
    {
      RoundTrip(DOMAIN, f[k]);
    }
    FieldsRoundTrip(DOMAIN, c, f);
  }

  lemma ConstructsUpgraded(c: Class, f: map<Field, Value>)
    requires Upgradable(c, f)
    ensures Construct(DOMAIN, c, f) == Some(Upgraded(c, f))
  {
    DomainIsCoherent();
    assert DOMAIN.schema(c) == Schema(c);
    assert DOMAIN.accepts(c, Complete(Schema(c), f));
  }

  lemma DecodesTo(d: Declarations, c: Class, fields: Json, f: map<Field, Value>, v: Value)
    requires fields.JObj? && d.classes(c)
    requires DecodeFields(d, fields) == Some(f) && Construct(d, c, f) == Some(v)
    ensures Decode(d, Tagged(c, fields)) == Some(v)
  {
    DecodeTagged(d, c, fields);
  }

  /** Encoded attributes decode to the object they make, defaults filled in. */
  lemma EncodedUpgrade(c: Class, f: map<Field, Value>)
    requires Upgradable(c, f)
    ensures Decode(DOMAIN, Encode(Obj(c, f))) == Some(Upgraded(c, f))
  {
    EncodedObject(c, f);
    FieldsDecode(c, f);
    ConstructsUpgraded(c, f);
    DecodesTo(DOMAIN, c, EncodeFields(Obj(c, f)), f, Upgraded(c, f));
  }

  /** A patched legacy blob decodes to the legacy object with only the missing attributes added. */
  lemma PatchDecodes(c: Class, f: map<Field, Value>, adds: map<Field, Value>)
    requires Upgradable(c, adds + f)
    ensures PatchFields(Encode(Obj(c, f)), EncodeAdds(adds)).Some?
    ensures Decode(DOMAIN, PatchFields(Encode(Obj(c, f)), EncodeAdds(adds)).value) == Some(Upgraded(c, adds + f))
  {
    PatchCommutes(c, f, adds);
    EncodedUpgrade(c, adds + f);
  }

  lemma UpgradedKeeps(c: Class, f: map<Field, Value>, k: Field)
    requires Upgradable(c, f)
    ensures k in f ==> Get(Upgraded(c, f), k) == f[k]
    ensures k in Schema(c) && k !in f ==> Get(Upgraded(c, f), k) == DefaultOf(k)
  {
    CompleteAt(Schema(c), f, k);
    DefaultAt(c, k);
  }

  lemma CompleteAt(schema: map<Field, Default>, f: map<Field, Value>, k: Field)
    requires f.Keys <= schema.Keys && forall x :: x in schema && schema[x].Required? ==> x in f
    ensures k in schema <==> k in Complete(schema, f)
    ensures k in schema ==> Complete(schema, f)[k] == if k in f then f[k] else schema[k].value
  {
  }

  lemma DefaultAt(c: Class, k: Field)
    ensures k in Schema(c) ==> Schema(c)[k] == Required || Schema(c)[k] == Defaults(DefaultOf(k))
  {
  }

  /** A legacy ledger blob decodes to the entry whose event has the default space. */
  lemma LedgerPatchDecodes(f: map<Field, Value>, ef: map<Field, Value>)
    requires RevisionEventField in f && f[RevisionEventField] == Obj(RevisionEvent, ef)
    requires Upgradable(RevisionLedgerEntry,
                        f[RevisionEventField := Obj(RevisionEvent, map[SpaceId := Str(DEFAULT_SPACE)] + ef)])
    ensures PatchLedger(Encode(Obj(RevisionLedgerEntry, f))).Some?
    ensures Decode(DOMAIN, PatchLedger(Encode(Obj(RevisionLedgerEntry, f))).value) ==
            Some(Upgraded(RevisionLedgerEntry,
                          f[RevisionEventField := Obj(RevisionEvent, map[SpaceId := Str(DEFAULT_SPACE)] + ef)]))
  {
    LedgerPatchCommutes(f, RevisionEvent, ef);
    EncodedUpgrade(RevisionLedgerEntry,
                   f[RevisionEventField := Obj(RevisionEvent, map[SpaceId := Str(DEFAULT_SPACE)] + ef)]);
  }

  /** Patching only adds: no present attribute changes. */
  lemma PatchOnlyAdds(j: Json, adds: map<Field, Json>)
    requires PatchFields(j, adds).Some?
    ensures var p := PatchFields(j, adds).value;
            && p.JObj? && KFields in p.m && p.m[KFields].JObj?
            && p.m - {KFields} == j.m - {KFields}
            && (KFields in j.m ==> forall k :: k in j.m[KFields].m ==>
                  k in p.m[KFields].m && p.m[KFields].m[k] == j.m[KFields].m[k])
            && (forall k: Field :: k in adds ==> KField(k) in p.m[KFields].m)
  {
  }

  /** A blob that has every attribute to add is left alone. */
  lemma NothingToAdd(j: Json, adds: map<Field, Json>)
    requires j.JObj? && KFields in j.m && j.m[KFields].JObj?
    requires forall k: Field :: k in adds ==> KField(k) in j.m[KFields].m
    ensures PatchFields(j, adds) == Some(j)
  {
    assert AddMissing(j.m[KFields].m, adds) == j.m[KFields].m;
    assert j.m[KFields := j.m[KFields]] == j.m;
  }

  lemma PatchIdempotent(j: Json, adds: map<Field, Json>)
    requires PatchFields(j, adds).Some?
    ensures PatchFields(PatchFields(j, adds).value, adds) == PatchFields(j, adds)
  {
    PatchOnlyAdds(j, adds);
    NothingToAdd(PatchFields(j, adds).value, adds);
  }

  predicate HoldsEvent(j: Json) {
    && j.JObj? && KFields in j.m && j.m[KFields].JObj?
    && KField(RevisionEventField) in j.m[KFields].m && j.m[KFields].m[KField(RevisionEventField)].JObj?
  }

  function EventBlob(j: Json): Json
    requires HoldsEvent(j)
  {
    j.m[KFields].m[KField(RevisionEventField)]
  }

  function WithEvent(j: Json, event: Json): (r: Json)
    requires HoldsEvent(j)
    ensures event.JObj? ==> HoldsEvent(r) && EventBlob(r) == event
  {
    JObj(j.m[KFields := JObj(j.m[KFields].m[KField(RevisionEventField) := event])])
  }

  lemma WithOwnEvent(j: Json)
    requires HoldsEvent(j)
    ensures WithEvent(j, EventBlob(j)) == j
  {
    assert j.m[KFields].m[KField(RevisionEventField) := EventBlob(j)] == j.m[KFields].m;
    assert j.m[KFields := j.m[KFields]] == j.m;
  }

  lemma PatchLedgerForm(j: Json)
    requires PatchLedger(j).Some?
    ensures PatchLedger(j) ==
            if HoldsEvent(j)
            then (var event := PatchFields(EventBlob(j), SPACE_ONLY);
                  if event.Some? then Some(WithEvent(j, event.value)) else None)
            else Some(j)
  {
  }

  lemma LedgerPatchIdempotent(j: Json)
    requires PatchLedger(j).Some?
    ensures PatchLedger(PatchLedger(j).value) == PatchLedger(j)
  {
    PatchLedgerForm(j);
    if HoldsEvent(j) {
      PatchOnlyAdds(EventBlob(j), SPACE_ONLY);
      PatchIdempotent(EventBlob(j), SPACE_ONLY);
      WithOwnEvent(PatchLedger(j).value);
    }
  }
}
