/**
 * The part of zod the ingestion core uses: `z.object` schemas whose
 * fields are strings (plain, trimmed, trimmed-or-absent, non-empty),
 * numbers (plain or coerced from text), booleans, literals, enums, URLs,
 * dates and nested objects, each required, optional or defaulted.
 * Parsing keeps the schema's fields in schema order and strips unknown
 * members. URL validity and date parsing are left to a `Validators`
 * value, because the model does not reimplement them.
 */
module Schema {
  import opened Wrappers
  import opened Strings
  import opened Json

  /**
   * `isUrl` is `z.url()`'s test; `toDate` is `new Date(text)` followed by
   * the ISO rendering `JSON.stringify` stores (None for an invalid date);
   * `now` is the ISO rendering of the current instant; `toNumber` is
   * `z.coerce.number()`, i.e. `Number(text)` (None for NaN).
   */
  datatype Validators = Validators(isUrl: string -> bool, toDate: string -> Option<string>, now: string, toNumber: string -> Option<int>)
  {
    /** A rendered date reads back as itself and carries no surrounding blanks. */
    ghost predicate Coherent()
    {
      toDate(now) == Some(now) && Trim(now) == now
      && forall s :: toDate(s).Some? ==> toDate(toDate(s).value) == toDate(s) && Trim(toDate(s).value) == toDate(s).value
    }
  }

  datatype Kind =
    | KString                   // z.string()
    | KTrimmed                  // z.string().trim()
    | KTrimmedOrAbsent          // z.string().trim().transform(v => v === "" ? undefined : v)
    | KNonEmpty                 // z.string().min(1)
    | KNumber                   // z.number()
    | KNumeric                  // z.union([z.number(), z.string()(.trim()).pipe(z.coerce.number())])
    | KBool                     // z.boolean()
    | KLiteral(lit: string)     // z.literal(lit)
    | KEnum(values: seq<string>) // z.enum(values)
    | KUrl                      // z.url()
    | KDate(trimmed: bool)      // z.union([z.date(), z.string()(.trim()).pipe(z.coerce.date())])
    | KObject(fields: seq<Field>) // z.object({...})

  /** `Optional` is `.optional()`; `DefaultNow` is `.optional().default(() => new Date())`. */
  datatype Presence = Required | Optional | DefaultNow

  datatype Field = Field(name: string, kind: Kind, presence: Presence)

  function Names(fields: seq<Field>): (r: seq<string>)
    ensures |r| == |fields|
    ensures forall i :: 0 <= i < |fields| ==> r[i] == fields[i].name
  {
    if |fields| == 0 then [] else [fields[0].name] + Names(fields[1..])
  }

  /**
   * A schema as the source writes them: field names are unique, a
   * field that can turn into `undefined` is optional, and nested objects
   * obey the same rules.
   */
  predicate SchemaOk(fields: seq<Field>)
  {
    (forall i, j :: 0 <= i < j < |fields| ==> fields[i].name != fields[j].name)
    && forall i :: 0 <= i < |fields| ==> KindOk(fields[i])
  }

  predicate KindOk(f: Field)
  {
    (f.kind.KTrimmedOrAbsent? ==> f.presence == Optional)
    && (f.presence == DefaultNow ==> f.kind.KDate?)
    && (f.kind.KObject? ==> SchemaOk(f.kind.fields))
  }

  /** A schema extended with a field of a new name and a sound kind stays sound. */
  lemma SchemaAppend(base: seq<Field>, f: Field)
    requires SchemaOk(base) && KindOk(f)
    requires forall i :: 0 <= i < |base| ==> base[i].name != f.name
    ensures SchemaOk(base + [f])
  {
    var fs := base + [f];
    assert forall i :: 0 <= i < |base| ==> fs[i] == base[i];
    assert fs[|base|] == f;
  }

  /**
   * Validates and normalises one member value (`None` = absent or
   * undefined). `Ok(None)` means the member is absent from the output.
   */
  function ParseValue(v: Option<Json>, kind: Kind, presence: Presence, val: Validators): (r: Result<Option<Json>>)
    ensures v.None? && presence == Required ==> r.Err?
    ensures v.None? && presence == Optional ==> r == Ok(None)
    ensures r.Ok? && r.value.None? ==> presence == Optional
    decreases kind, 1
  {
    match v
    case None =>
      if presence == Optional then Ok(None)
      else if presence == DefaultNow then Ok(Some(Str(val.now)))
      else Err(SchemaViolation("required"))
    case Some(j) =>
      match kind
      case KString => if j.Str? then Ok(Some(j)) else Err(SchemaViolation("string"))
      case KTrimmed => if j.Str? then Ok(Some(Str(Trim(j.s)))) else Err(SchemaViolation("string"))
      case KTrimmedOrAbsent =>
        if !j.Str? then Err(SchemaViolation("string"))
        else if Trim(j.s) == "" then (if presence == Optional then Ok(None) else Err(SchemaViolation("required")))
        else Ok(Some(Str(Trim(j.s))))
      case KNonEmpty => if j.Str? && |j.s| >= 1 then Ok(Some(j)) else Err(SchemaViolation("min(1)"))
      case KNumber => if j.Num? then Ok(Some(j)) else Err(SchemaViolation("number"))
      case KNumeric =>
        if j.Num? then Ok(Some(j))
        else if j.Str? && val.toNumber(j.s).Some? then Ok(Some(Num(val.toNumber(j.s).value)))
        else Err(SchemaViolation("number"))
      case KBool => if j.Bool? then Ok(Some(j)) else Err(SchemaViolation("boolean"))
      case KLiteral(lit) => if j == Str(lit) then Ok(Some(j)) else Err(SchemaViolation("literal"))
      case KEnum(values) => if j.Str? && j.s in values then Ok(Some(j)) else Err(SchemaViolation("enum"))
      case KUrl => if j.Str? && val.isUrl(j.s) then Ok(Some(j)) else Err(SchemaViolation("url"))
      case KDate(trimmed) =>
        if !j.Str? then Err(SchemaViolation("date"))
        else
          var d := val.toDate(if trimmed then Trim(j.s) else j.s);
          if d.Some? then Ok(Some(Str(d.value))) else Err(SchemaViolation("date"))
      case KObject(fields) =>
        if !j.Obj? then Err(SchemaViolation("object"))
        else
          var r := ParseFields(j.members, fields, val);
          if r.Ok? then Ok(Some(Obj(r.value))) else Err(r.error)
  }

  /**
   * `schema.parse(obj)` on the members of an object: the output lists the
   * fields that have a value, in schema order; unknown members are dropped.
   */
  function ParseFields(ms: seq<Member>, fields: seq<Field>, val: Validators): (r: Result<seq<Member>>)
    decreases fields, 0
  {
    if |fields| == 0 then Ok([])
    else
      var f := fields[0];
      var v := ParseValue(Get(ms, f.name), f.kind, f.presence, val);
      if v.Err? then Err(v.error)
      else
        var rest := ParseFields(ms, fields[1..], val);
        if rest.Err? then Err(rest.error)
        else Ok((if v.value.Some? then [Member(f.name, v.value.value)] else []) + rest.value)
  }

  /**
   * A parse lists only the schema's fields, and every field that is not
   * optional is listed.
   */
  lemma {:induction false} ParseFieldsKeys(ms: seq<Member>, fields: seq<Field>, val: Validators)
    requires ParseFields(ms, fields, val).Ok?
    ensures var out := ParseFields(ms, fields, val).value;
      && (forall k :: k in Keys(out) ==> k in Names(fields))
      && (forall i :: 0 <= i < |fields| && fields[i].presence != Optional ==> fields[i].name in Keys(out))
    decreases fields
  {
    if |fields| > 0 {
      var f := fields[0];
      var v := ParseValue(Get(ms, f.name), f.kind, f.presence, val);
      var rest := ParseFields(ms, fields[1..], val).value;
      ParseFieldsKeys(ms, fields[1..], val);
      var out := (if v.value.Some? then [Member(f.name, v.value.value)] else []) + rest;
      assert Keys(out) == (if v.value.Some? then [f.name] else []) + Keys(rest);
      assert forall i :: 1 <= i < |fields| ==> fields[i] == fields[1..][i - 1];
    }
  }

  /** `schema.parse(value)` for an object schema: anything but an object is refused. */
  function Parse(j: Json, fields: seq<Field>, val: Validators): (r: Result<Json>)
    ensures r.Ok? ==> j.Obj? && r.value.Obj?
    ensures r.Ok? ==> forall i :: 0 <= i < |fields| && fields[i].presence != Optional ==> fields[i].name in Keys(r.value.members)
  {
    if !j.Obj? then Err(SchemaViolation("object"))
    else
      var r := ParseFields(j.members, fields, val);
      if r.Ok? then ParseFieldsKeys(j.members, fields, val); Ok(Obj(r.value)) else Err(r.error)
  }

  /** One step of `ParseFields`: the first field's outcome, then the rest. */
  lemma ParseFieldsCons(ms: seq<Member>, f: Field, fields: seq<Field>, val: Validators, v: Option<Json>, out: seq<Member>)
    requires ParseValue(Get(ms, f.name), f.kind, f.presence, val) == Ok(v)
    requires ParseFields(ms, fields, val) == Ok(out)
    ensures ParseFields(ms, [f] + fields, val) == Ok((if v.Some? then [Member(f.name, v.value)] else []) + out)
  {
    assert ([f] + fields)[1..] == fields;
  }

  /** A field whose check fails fails the whole parse. */
  lemma ParseFieldsHeadFails(ms: seq<Member>, f: Field, fields: seq<Field>, val: Validators)
    requires ParseValue(Get(ms, f.name), f.kind, f.presence, val).Err?
    ensures ParseFields(ms, [f] + fields, val).Err?
  {
  }

  /** A nested object is accepted exactly when its fields are, and becomes what they parse to. */
  lemma ParseObjectValue(ms: seq<Member>, fields: seq<Field>, presence: Presence, val: Validators)
    ensures ParseValue(Some(Obj(ms)), KObject(fields), presence, val).Ok? <==> ParseFields(ms, fields, val).Ok?
    ensures ParseFields(ms, fields, val).Ok? ==>
      ParseValue(Some(Obj(ms)), KObject(fields), presence, val) == Ok(Some(Obj(ParseFields(ms, fields, val).value)))
  {
  }

  /** Three fields that each give a value are listed with those values, in schema order. */
  lemma ParseThreeFields(ms: seq<Member>, f0: Field, f1: Field, f2: Field, val: Validators, v0: Json, v1: Json, v2: Json)
    requires ParseValue(Get(ms, f0.name), f0.kind, f0.presence, val) == Ok(Some(v0))
    requires ParseValue(Get(ms, f1.name), f1.kind, f1.presence, val) == Ok(Some(v1))
    requires ParseValue(Get(ms, f2.name), f2.kind, f2.presence, val) == Ok(Some(v2))
    ensures ParseFields(ms, [f0, f1, f2], val) == Ok([Member(f0.name, v0), Member(f1.name, v1), Member(f2.name, v2)])
  {
    var m0, m1, m2 := Member(f0.name, v0), Member(f1.name, v1), Member(f2.name, v2);
    assert ParseFields(ms, [], val) == Ok([]);
    ParseFieldsCons(ms, f2, [], val, Some(v2), []);
    assert [f2] + [] == [f2] && [m2] + [] == [m2];
    ParseFieldsCons(ms, f1, [f2], val, Some(v1), [m2]);
    assert [f1] + [f2] == [f1, f2] && [m1] + [m2] == [m1, m2];
    ParseFieldsCons(ms, f0, [f1, f2], val, Some(v0), [m1, m2]);
    assert [f0] + [f1, f2] == [f0, f1, f2] && [m0] + [m1, m2] == [m0, m1, m2];
  }

  /** Fields that each give a value are listed with those values, in schema order. */
  lemma {:induction false} ParseFieldsAllSome(ms: seq<Member>, fields: seq<Field>, val: Validators, out: seq<Member>)
    requires |out| == |fields|
    requires forall i :: 0 <= i < |fields| ==> out[i].key == fields[i].name
    requires forall i :: 0 <= i < |fields| ==> ParseValue(Get(ms, fields[i].name), fields[i].kind, fields[i].presence, val) == Ok(Some(out[i].value))
    ensures ParseFields(ms, fields, val) == Ok(out)
    decreases |fields|
  {
    if |fields| > 0 {
      ParseFieldsAllSome(ms, fields[1..], val, out[1..]);
      assert out == [Member(fields[0].name, out[0].value)] + out[1..];
    }
  }

  /** `ParseFieldsAllSome` for a schema of five fields. */
  lemma ParseFiveSome(ms: seq<Member>, fs: seq<Field>, val: Validators, v0: Json, v1: Json, v2: Json, v3: Json, v4: Json)
    requires |fs| == 5
    requires ParseValue(Get(ms, fs[0].name), fs[0].kind, fs[0].presence, val) == Ok(Some(v0))
    requires ParseValue(Get(ms, fs[1].name), fs[1].kind, fs[1].presence, val) == Ok(Some(v1))
    requires ParseValue(Get(ms, fs[2].name), fs[2].kind, fs[2].presence, val) == Ok(Some(v2))
    requires ParseValue(Get(ms, fs[3].name), fs[3].kind, fs[3].presence, val) == Ok(Some(v3))
    requires ParseValue(Get(ms, fs[4].name), fs[4].kind, fs[4].presence, val) == Ok(Some(v4))
    ensures ParseFields(ms, fs, val) == Ok([Member(fs[0].name, v0), Member(fs[1].name, v1),
      Member(fs[2].name, v2), Member(fs[3].name, v3), Member(fs[4].name, v4)])
  {
    var out := [Member(fs[0].name, v0), Member(fs[1].name, v1), Member(fs[2].name, v2), Member(fs[3].name, v3), Member(fs[4].name, v4)];
    forall i | 0 <= i < 5
      ensures out[i].key == fs[i].name
      ensures ParseValue(Get(ms, fs[i].name), fs[i].kind, fs[i].presence, val) == Ok(Some(out[i].value))
    {
      if i == 0 {
      } else if i == 1 {
      } else if i == 2 {
      } else if i == 3 {
      } else {
      }
    }
    ParseFieldsAllSome(ms, fs, val, out);
  }

  /** A required URL member whose text passes `isUrl` is accepted as it is. */
  lemma UrlValue(ms: seq<Member>, name: string, s: string, val: Validators)
    requires Get(ms, name) == Some(Str(s)) && val.isUrl(s)
    ensures ParseValue(Get(ms, name), KUrl, Required, val) == Ok(Some(Str(s)))
  {
  }

  /** A URL member whose text fails `isUrl` is refused. */
  lemma UrlRefused(ms: seq<Member>, name: string, s: string, val: Validators)
    requires Get(ms, name) == Some(Str(s)) && !val.isUrl(s)
    ensures ParseValue(Get(ms, name), KUrl, Required, val).Err?
  {
  }

  /** A required enum member holding one of the values is accepted as it is. */
  lemma EnumValue(ms: seq<Member>, name: string, s: string, values: seq<string>, val: Validators)
    requires Get(ms, name) == Some(Str(s)) && s in values
    ensures ParseValue(Get(ms, name), KEnum(values), Required, val) == Ok(Some(Str(s)))
  {
  }

  /** A field whose check fails fails the parse, wherever it stands. */
  lemma {:induction false} ParseFieldsFails(ms: seq<Member>, fields: seq<Field>, val: Validators, i: nat)
    requires i < |fields| && ParseValue(Get(ms, fields[i].name), fields[i].kind, fields[i].presence, val).Err?
    ensures ParseFields(ms, fields, val).Err?
  {
    if i > 0 {
      assert fields[1..][i - 1] == fields[i];
      ParseFieldsFails(ms, fields[1..], val, i - 1);
      ParseFieldsTailFails(ms, fields, val);
    }
  }

  /** A failure among the later fields fails the whole parse. */
  lemma ParseFieldsTailFails(ms: seq<Member>, fields: seq<Field>, val: Validators)
    requires |fields| > 0 && ParseFields(ms, fields[1..], val).Err?
    ensures ParseFields(ms, fields, val).Err?
  {
  }

  /** A parse result lists no name twice when the schema does not. */
  lemma {:induction false} ParseFieldsUnique(ms: seq<Member>, fields: seq<Field>, val: Validators)
    requires SchemaOk(fields) && ParseFields(ms, fields, val).Ok?
    ensures UniqueKeys(ParseFields(ms, fields, val).value)
    decreases fields
  {
    if |fields| > 0 {
      assert SchemaOk(fields[1..]) by {
        assert forall i :: 0 <= i < |fields[1..]| ==> fields[1..][i] == fields[i + 1];
      }
      ParseFieldsUnique(ms, fields[1..], val);
      var rest := ParseFields(ms, fields[1..], val).value;
      ParseFieldsKeys(ms, fields[1..], val);
      assert fields[0].name !in Names(fields[1..]);
      assert fields[0].name !in Keys(rest);
    }
  }

  /**
   * Parsing what a parse produced gives it back (zod's output is a fixed
   * point of its schema): a stored item reads back as the item that was
   * stored.
   */
  lemma {:induction false} ParseValueStable(v: Option<Json>, kind: Kind, presence: Presence, val: Validators)
    requires val.Coherent()
    requires KindOk(Field("", kind, presence))
    requires ParseValue(v, kind, presence, val).Ok?
    ensures var out := ParseValue(v, kind, presence, val).value;
      ParseValue(out, kind, presence, val) == Ok(out)
    decreases kind, 1
  {
    if v.Some? && kind.KObject? {
      ParseObjectStable(v.value, kind.fields, presence, val);
    } else {
      ParseScalarStable(v, kind, presence, val);
    }
  }

  lemma {:induction false} ParseObjectStable(j: Json, fields: seq<Field>, presence: Presence, val: Validators)
    requires val.Coherent() && SchemaOk(fields)
    requires ParseValue(Some(j), KObject(fields), presence, val).Ok?
    ensures var out := ParseValue(Some(j), KObject(fields), presence, val).value;
      ParseValue(out, KObject(fields), presence, val) == Ok(out)
    decreases KObject(fields), 0
  {
    var r := ParseFields(j.members, fields, val).value;
    ParseFieldsStable(j.members, fields, r, val);
    assert ParseFields(r, fields, val) == Ok(r);
  }

  lemma ParseScalarStable(v: Option<Json>, kind: Kind, presence: Presence, val: Validators)
    requires val.Coherent() && (!kind.KObject? || v.None?)
    requires KindOk(Field("", kind, presence))
    requires ParseValue(v, kind, presence, val).Ok?
    ensures var out := ParseValue(v, kind, presence, val).value;
      ParseValue(out, kind, presence, val) == Ok(out)
  {
    match v
    case None => AbsentStable(kind, presence, val);
    case Some(j) =>
      if kind.KDate? {
        DateStable(j, kind.trimmed, presence, val);
      } else if kind.KTrimmed? || kind.KTrimmedOrAbsent? {
        TrimmedStable(j, kind, presence, val);
      }
  }

  /** An absent member stays absent, or takes the current instant, which reads back as itself. */
  lemma AbsentStable(kind: Kind, presence: Presence, val: Validators)
    requires val.Coherent()
    requires KindOk(Field("", kind, presence))
    requires ParseValue(None, kind, presence, val).Ok?
    ensures var out := ParseValue(None, kind, presence, val).value;
      ParseValue(out, kind, presence, val) == Ok(out)
  {
    if presence == DefaultNow {
      assert kind.KDate?;
    }
  }

  /** A rendered date is a date that renders as itself. */
  lemma DateStable(j: Json, trimmed: bool, presence: Presence, val: Validators)
    requires val.Coherent()
    requires ParseValue(Some(j), KDate(trimmed), presence, val).Ok?
    ensures var out := ParseValue(Some(j), KDate(trimmed), presence, val).value;
      ParseValue(out, KDate(trimmed), presence, val) == Ok(out)
  {
    var d := val.toDate(if trimmed then Trim(j.s) else j.s);
    assert val.toDate(d.value) == d;
  }

  /** Trimmed text is its own trim. */
  lemma TrimmedStable(j: Json, kind: Kind, presence: Presence, val: Validators)
    requires kind.KTrimmed? || kind.KTrimmedOrAbsent?
    requires ParseValue(Some(j), kind, presence, val).Ok?
    ensures var out := ParseValue(Some(j), kind, presence, val).value;
      ParseValue(out, kind, presence, val) == Ok(out)
  {
    TrimIdempotent(j.s);
  }

  /**
   * Field-level form of `ParseValueStable`: any member list that agrees
   * with a parse result on the schema's names parses to that result.
   */
  lemma {:induction false} ParseFieldsStable(ms: seq<Member>, fields: seq<Field>, ms2: seq<Member>, val: Validators)
    requires val.Coherent() && SchemaOk(fields)
    requires ParseFields(ms, fields, val).Ok?
    requires forall i :: 0 <= i < |fields| ==>
      Get(ms2, fields[i].name) == Get(ParseFields(ms, fields, val).value, fields[i].name)
    ensures ParseFields(ms2, fields, val) == ParseFields(ms, fields, val)
    decreases fields, 0
  {
    if |fields| > 0 {
      var f := fields[0];
      var o := ParseValue(Get(ms, f.name), f.kind, f.presence, val).value;
      var rest := ParseFields(ms, fields[1..], val).value;
      var out := ParseFields(ms, fields, val).value;
      assert out == (if o.Some? then [Member(f.name, o.value)] else []) + rest;
      SchemaTail(fields);
      ParseFieldsKeys(ms, fields[1..], val);
      HeadLookup(f.name, o, rest, fields[1..]);
      assert Get(ms2, f.name) == o by {
        assert Get(ms2, fields[0].name) == Get(out, fields[0].name);
      }
      assert KindOk(f);
      ParseValueStable(Get(ms, f.name), f.kind, f.presence, val);
      forall i | 0 <= i < |fields[1..]|
        ensures Get(ms2, fields[1..][i].name) == Get(rest, fields[1..][i].name)
      {
        assert fields[1..][i] == fields[i + 1];
        assert fields[i + 1].name != f.name;
        assert Get(ms2, fields[i + 1].name) == Get(out, fields[i + 1].name);
        TailLookup(f.name, o, rest, fields[i + 1].name);
      }
      ParseFieldsStable(ms, fields[1..], ms2, val);
    }
  }

  lemma SchemaTail(fields: seq<Field>)
    requires |fields| > 0 && SchemaOk(fields)
    ensures SchemaOk(fields[1..])
    ensures fields[0].name !in Names(fields[1..])
  {
    assert forall i :: 0 <= i < |fields[1..]| ==> fields[1..][i] == fields[i + 1];
  }

  lemma HeadLookup(name: string, o: Option<Json>, rest: seq<Member>, tail: seq<Field>)
    requires name !in Names(tail)
    requires forall k :: k in Keys(rest) ==> k in Names(tail)
    ensures Get((if o.Some? then [Member(name, o.value)] else []) + rest, name) == o
  {
    var out := (if o.Some? then [Member(name, o.value)] else []) + rest;
    if o.None? {
      assert out == rest;
    }
  }

  lemma TailLookup(name: string, o: Option<Json>, rest: seq<Member>, k: string)
    requires k != name
    ensures Get((if o.Some? then [Member(name, o.value)] else []) + rest, k) == Get(rest, k)
  {
    var out := (if o.Some? then [Member(name, o.value)] else []) + rest;
    if o.Some? {
      assert out[1..] == rest;
    } else {
      assert out == rest;
    }
  }

  /** Object-level round trip: `parse(parse(x)) == parse(x)`. */
  lemma ParseStable(j: Json, fields: seq<Field>, val: Validators)
    requires val.Coherent() && SchemaOk(fields)
    requires Parse(j, fields, val).Ok?
    ensures Parse(Parse(j, fields, val).value, fields, val) == Parse(j, fields, val)
  {
    var out := ParseFields(j.members, fields, val).value;
    ParseFieldsStable(j.members, fields, out, val);
  }
  /** After a parse, each field of the schema holds what its own check made of the input member. */
  lemma {:induction false} ParseFieldsGet(ms: seq<Member>, fields: seq<Field>, val: Validators, i: nat)
    requires SchemaOk(fields) && ParseFields(ms, fields, val).Ok? && i < |fields|
    ensures ParseValue(Get(ms, fields[i].name), fields[i].kind, fields[i].presence, val).Ok?
    ensures Get(ParseFields(ms, fields, val).value, fields[i].name)
      == ParseValue(Get(ms, fields[i].name), fields[i].kind, fields[i].presence, val).value
    decreases fields
  {
    var f := fields[0];
    var o := ParseValue(Get(ms, f.name), f.kind, f.presence, val).value;
    var rest := ParseFields(ms, fields[1..], val).value;
    SchemaTail(fields);
    if i == 0 {
      ParseFieldsKeys(ms, fields[1..], val);
      HeadLookup(f.name, o, rest, fields[1..]);
    } else {
      assert fields[1..][i - 1] == fields[i];
      ParseFieldsGet(ms, fields[1..], val, i - 1);
      TailLookup(f.name, o, rest, fields[i].name);
    }
  }

  /** Object-level form of `ParseFieldsGet`. */
  lemma ParseGet(j: Json, fields: seq<Field>, val: Validators, i: nat)
    requires SchemaOk(fields) && Parse(j, fields, val).Ok? && i < |fields|
    ensures ParseValue(Prop(j, fields[i].name), fields[i].kind, fields[i].presence, val).Ok?
    ensures Prop(Parse(j, fields, val).value, fields[i].name)
      == ParseValue(Prop(j, fields[i].name), fields[i].kind, fields[i].presence, val).value
  {
    ParseFieldsGet(j.members, fields, val, i);
  }

  /**
   * No accepted value is `null`, and parsed objects have unique keys at
   * every depth: what a parse returns is a clean merge patch.
   */
  lemma {:induction false} ParseValueClean(v: Option<Json>, kind: Kind, presence: Presence, val: Validators)
    requires KindOk(Field("", kind, presence))
    requires ParseValue(v, kind, presence, val).Ok? && ParseValue(v, kind, presence, val).value.Some?
    ensures var x := ParseValue(v, kind, presence, val).value.value;
      x != Null && WellFormed(x) && NullFree(x)
    decreases kind, 1
  {
    if v.Some? && kind.KObject? {
      ParseFieldsClean(v.value.members, kind.fields, val);
    }
  }

  lemma {:induction false} ParseFieldsClean(ms: seq<Member>, fields: seq<Field>, val: Validators)
    requires SchemaOk(fields) && ParseFields(ms, fields, val).Ok?
    ensures var out := ParseFields(ms, fields, val).value;
      UniqueKeys(out)
      && forall i :: 0 <= i < |out| ==> out[i].value != Null && WellFormed(out[i].value) && NullFree(out[i].value)
    decreases fields, 0
  {
    ParseFieldsUnique(ms, fields, val);
    if |fields| > 0 {
      var f := fields[0];
      var o := ParseValue(Get(ms, f.name), f.kind, f.presence, val).value;
      var rest := ParseFields(ms, fields[1..], val).value;
      SchemaTail(fields);
      assert KindOk(f);
      ParseFieldsClean(ms, fields[1..], val);
      if o.Some? {
        ParseValueClean(Get(ms, f.name), f.kind, f.presence, val);
      }
    }
  }

  /** `Parse` form of `ParseFieldsClean`. */
  lemma ParseClean(j: Json, fields: seq<Field>, val: Validators)
    requires SchemaOk(fields) && Parse(j, fields, val).Ok?
    ensures WellFormed(Parse(j, fields, val).value) && NullFree(Parse(j, fields, val).value)
  {
    ParseFieldsClean(j.members, fields, val);
  }

  /** A required number field holds the number the input holds. */
  lemma ParseNumber(j: Json, fields: seq<Field>, val: Validators, i: nat)
    requires SchemaOk(fields) && Parse(j, fields, val).Ok? && i < |fields|
    requires fields[i].kind == KNumber && fields[i].presence == Required
    ensures Prop(j, fields[i].name).Some? && Prop(j, fields[i].name).value.Num?
    ensures Prop(Parse(j, fields, val).value, fields[i].name) == Prop(j, fields[i].name)
  {
    ParseGet(j, fields, val, i);
  }

  /**
   * `base.extend({f})` applied to `{...base.parse(j), [f.name]: v}`: the
   * fields of `base` come out as the first parse made them.
   */
  lemma ParseExtended(j: Json, base: seq<Field>, f: Field, j2: Json, val: Validators, i: nat)
    requires val.Coherent() && SchemaOk(base) && SchemaOk(base + [f])
    requires Parse(j, base, val).Ok? && Parse(j2, base + [f], val).Ok? && i < |base|
    requires forall k :: k != f.name ==> Prop(j2, k) == Prop(Parse(j, base, val).value, k)
    ensures Prop(Parse(j2, base + [f], val).value, base[i].name) == Prop(Parse(j, base, val).value, base[i].name)
  {
    var fields := base + [f];
    assert fields[i] == base[i] && fields[|base|] == f;
    assert base[i].name != f.name;
    ParseGet(j2, fields, val, i);
    ParseGet(j, base, val, i);
    assert KindOk(base[i]);
    ParseValueStable(Prop(j, base[i].name), base[i].kind, base[i].presence, val);
  }

  /**
   * Parsing the output of `base.extend({f})` with `base` again gives the
   * first parse back: the extension's member is dropped.
   */
  lemma ParseDropsExtension(j: Json, base: seq<Field>, f: Field, j2: Json, val: Validators)
    requires val.Coherent() && SchemaOk(base) && SchemaOk(base + [f])
    requires Parse(j, base, val).Ok? && Parse(j2, base + [f], val).Ok?
    requires forall k :: k != f.name ==> Prop(j2, k) == Prop(Parse(j, base, val).value, k)
    ensures Parse(Parse(j2, base + [f], val).value, base, val) == Parse(j, base, val)
    ensures Prop(Parse(j, base, val).value, f.name) == None
  {
    var p := Parse(j, base, val).value;
    var x := Parse(j2, base + [f], val).value;
    forall i | 0 <= i < |base|
      ensures Get(x.members, base[i].name) == Get(p.members, base[i].name)
    {
      ParseExtended(j, base, f, j2, val, i);
    }
    ParseFieldsStable(j.members, base, x.members, val);
    ParseFieldsKeys(j.members, base, val);
    assert forall i :: 0 <= i < |base| ==> (base + [f])[i] == base[i] && (base + [f])[|base|] == f;
    assert f.name !in Names(base);
  }

  /** A trimmed text field holds the trimmed input text; a trimmed-or-absent one is never empty. */
  lemma ParseTrimmed(j: Json, fields: seq<Field>, val: Validators, i: nat)
    requires SchemaOk(fields) && Parse(j, fields, val).Ok? && i < |fields|
    requires fields[i].kind == KTrimmed || fields[i].kind == KTrimmedOrAbsent
    ensures var v := Prop(Parse(j, fields, val).value, fields[i].name);
      && (fields[i].presence == Required ==> v.Some?)
      && (v.Some? ==> (Prop(j, fields[i].name).Some? && Prop(j, fields[i].name).value.Str?
            && v.value == Str(Trim(Prop(j, fields[i].name).value.s)) && Trim(v.value.s) == v.value.s))
      && (v.Some? && fields[i].kind == KTrimmedOrAbsent ==> v.value.s != "")
  {
    ParseGet(j, fields, val, i);
    var x := Prop(j, fields[i].name);
    if x.Some? && x.value.Str? {
      TrimIdempotent(x.value.s);
    }
  }

  /** A required numeric field holds the input number, or the number its text reads as. */
  lemma ParseNumeric(j: Json, fields: seq<Field>, val: Validators, i: nat)
    requires SchemaOk(fields) && Parse(j, fields, val).Ok? && i < |fields|
    requires fields[i].kind == KNumeric && fields[i].presence == Required
    ensures var v := Prop(j, fields[i].name);
      && v.Some? && (v.value.Num? || (v.value.Str? && val.toNumber(v.value.s).Some?))
      && Prop(Parse(j, fields, val).value, fields[i].name)
        == Some(if v.value.Num? then v.value else Num(val.toNumber(v.value.s).value))
  {
    ParseGet(j, fields, val, i);
  }

  /** A required plain string field holds the input string. */
  lemma ParseString(j: Json, fields: seq<Field>, val: Validators, i: nat)
    requires SchemaOk(fields) && Parse(j, fields, val).Ok? && i < |fields|
    requires fields[i].kind == KString && fields[i].presence == Required
    ensures Prop(j, fields[i].name).Some? && Prop(j, fields[i].name).value.Str?
    ensures Prop(Parse(j, fields, val).value, fields[i].name) == Prop(j, fields[i].name)
  {
    ParseGet(j, fields, val, i);
  }

  /** An optional field absent from the input is absent from the output. */
  lemma ParseAbsent(j: Json, fields: seq<Field>, val: Validators, i: nat)
    requires SchemaOk(fields) && Parse(j, fields, val).Ok? && i < |fields|
    requires fields[i].presence == Optional && Prop(j, fields[i].name).None?
    ensures Prop(Parse(j, fields, val).value, fields[i].name).None?
  {
    ParseGet(j, fields, val, i);
  }

  /** A required literal field is copied to the output as that literal. */
  lemma ParseLiteral(j: Json, fields: seq<Field>, val: Validators, i: nat, lit: string)
    requires SchemaOk(fields) && Parse(j, fields, val).Ok? && i < |fields|
    requires fields[i].kind == KLiteral(lit) && fields[i].presence == Required
    ensures Prop(j, fields[i].name) == Some(Str(lit))
    ensures Prop(Parse(j, fields, val).value, fields[i].name) == Some(Str(lit))
  {
    ParseGet(j, fields, val, i);
    LiteralValue(Prop(j, fields[i].name), lit, val);
  }

  /** A required literal accepts exactly that literal, and keeps it. */
  lemma LiteralValue(v: Option<Json>, lit: string, val: Validators)
    requires ParseValue(v, KLiteral(lit), Required, val).Ok?
    ensures v == Some(Str(lit)) && ParseValue(v, KLiteral(lit), Required, val).value == v
  {
  }

  /** A required date field holds the rendering of the date its (trimmed) input text denotes. */
  lemma ParseDate(j: Json, fields: seq<Field>, val: Validators, i: nat)
    requires SchemaOk(fields) && Parse(j, fields, val).Ok? && i < |fields|
    requires fields[i].kind == KDate(true) && fields[i].presence == Required
    ensures var v := Prop(j, fields[i].name);
      && v.Some? && v.value.Str? && val.toDate(Trim(v.value.s)).Some?
      && Prop(Parse(j, fields, val).value, fields[i].name) == Some(Str(val.toDate(Trim(v.value.s)).value))
  {
    ParseGet(j, fields, val, i);
  }

  /** A required untrimmed date field holds the rendering of the date its input text denotes. */
  lemma ParseRawDate(j: Json, fields: seq<Field>, val: Validators, i: nat)
    requires SchemaOk(fields) && Parse(j, fields, val).Ok? && i < |fields|
    requires fields[i].kind == KDate(false) && fields[i].presence == Required
    ensures var v := Prop(j, fields[i].name);
      && v.Some? && v.value.Str? && val.toDate(v.value.s).Some?
      && Prop(Parse(j, fields, val).value, fields[i].name) == Some(Str(val.toDate(v.value.s).value))
  {
    ParseGet(j, fields, val, i);
  }

  /** A required URL field holds the input text, which passed `isUrl`. */
  lemma ParseUrl(j: Json, fields: seq<Field>, val: Validators, i: nat)
    requires SchemaOk(fields) && Parse(j, fields, val).Ok? && i < |fields|
    requires fields[i].kind == KUrl && fields[i].presence == Required
    ensures var v := Prop(j, fields[i].name);
      && v.Some? && v.value.Str? && val.isUrl(v.value.s)
      && Prop(Parse(j, fields, val).value, fields[i].name) == v
  {
    ParseGet(j, fields, val, i);
  }

  /** A required non-empty text field holds the input text, which is not empty. */
  lemma ParseNonEmpty(j: Json, fields: seq<Field>, val: Validators, i: nat)
    requires SchemaOk(fields) && Parse(j, fields, val).Ok? && i < |fields|
    requires fields[i].kind == KNonEmpty && fields[i].presence == Required
    ensures var v := Prop(j, fields[i].name);
      && v.Some? && v.value.Str? && v.value.s != ""
      && Prop(Parse(j, fields, val).value, fields[i].name) == v
  {
    ParseGet(j, fields, val, i);
  }

  /** A required enum field holds the input text, which is one of the values. */
  lemma ParseEnum(j: Json, fields: seq<Field>, val: Validators, i: nat, values: seq<string>)
    requires SchemaOk(fields) && Parse(j, fields, val).Ok? && i < |fields|
    requires fields[i].kind == KEnum(values) && fields[i].presence == Required
    ensures var v := Prop(j, fields[i].name);
      && v.Some? && v.value.Str? && v.value.s in values
      && Prop(Parse(j, fields, val).value, fields[i].name) == v
  {
    ParseGet(j, fields, val, i);
  }
}
