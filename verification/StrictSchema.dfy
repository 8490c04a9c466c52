/** Normalising JSON schemas for strict structured outputs: defaults dropped, object schemas closed,
    every property required. */
module StrictSchema {

  import opened JsonValues

  function Names(fields: seq<Field>): (r: Json)
    ensures r.JList? && forall item | item in r.items :: item.JStr?
  {
    JList(seq(|fields|, i requires 0 <= i < |fields| => JStr(fields[i].key)))
  }

  // ----- The normaliser

  /** type == "object" or a properties dictionary. */
  predicate IsObject(fields: seq<Field>) {
    Get(fields, "type") == JStr("object") || Get(fields, "properties").JDict?
  }

  /** Closing one object schema. */
  function Close(fields: seq<Field>): seq<Field> {
    if !IsObject(fields) then fields
    else
      var properties := Get(fields, "properties");
      var required := if properties.JDict? then Set(fields, "required", Names(properties.fields)) else fields;
      Set(required, "additionalProperties", JBool(false))
  }

  function Strict(fields: seq<Field>): seq<Field>
    decreases fields, 2
  {
    Close(StrictFields(fields))
  }

  function StrictFields(fields: seq<Field>): seq<Field>
    decreases fields, 1
  {
    if fields == [] then []
    else if fields[0].key == "default" then StrictFields(fields[1..])
    else [Field(fields[0].key, StrictValue(fields[0].value))] + StrictFields(fields[1..])
  }

  function StrictValue(v: Json): Json
    decreases v
  {
    match v
    case JDict(fields) => JDict(Strict(fields))
    case JList(items) => JList(StrictItems(items))
    case _ => v
  }

  /** Dictionaries directly in a list are normalised, anything else in it is kept. */
  function StrictItems(items: seq<Json>): seq<Json>
    decreases items, 0
  {
    if items == [] then []
    else [if items[0].JDict? then JDict(Strict(items[0].fields)) else items[0]] + StrictItems(items[1..])
  }

  // ----- Idempotence

  lemma ClosedLooksTheSame(fields: seq<Field>)
    ensures Get(Close(fields), "type") == Get(fields, "type")
    ensures Get(Close(fields), "properties") == Get(fields, "properties")
  {
    var properties := Get(fields, "properties");
    var required := if properties.JDict? then Set(fields, "required", Names(properties.fields)) else fields;
    forall k | k == "type" || k == "properties" ensures Get(Close(fields), k) == Get(fields, k) {
      if properties.JDict? { GetSet(fields, "required", Names(properties.fields), k); }
      GetSet(required, "additionalProperties", JBool(false), k);
    }
  }

  /** A closed object schema forbids other properties and requires exactly its own. */
  ghost predicate ClosedHere(fields: seq<Field>) {
    IsObject(fields) ==>
      && Has(fields, "additionalProperties") && Get(fields, "additionalProperties") == JBool(false)
      && (Get(fields, "properties").JDict? ==>
            Has(fields, "required") && Get(fields, "required") == Names(Get(fields, "properties").fields))
  }

  lemma CloseCloses(fields: seq<Field>)
    ensures ClosedHere(Close(fields))
  {
    ClosedLooksTheSame(fields);
    if IsObject(fields) {
      var properties := Get(fields, "properties");
      var required := if properties.JDict? then Set(fields, "required", Names(properties.fields)) else fields;
      GetSet(required, "additionalProperties", JBool(false), "additionalProperties");
      HasSet(required, "additionalProperties", JBool(false), "additionalProperties");
      if properties.JDict? {
        GetSet(fields, "required", Names(properties.fields), "required");
        HasSet(fields, "required", Names(properties.fields), "required");
        GetSet(required, "additionalProperties", JBool(false), "required");
        HasSet(required, "additionalProperties", JBool(false), "required");
      }
    }
  }

  /** Closing a closed schema changes nothing. */
  lemma CloseFixesClosed(fields: seq<Field>)
    requires ClosedHere(fields)
    ensures Close(fields) == fields
  {
    if IsObject(fields) {
      var properties := Get(fields, "properties");
      if properties.JDict? { SetAgain(fields, "required", Names(properties.fields)); }
      SetAgain(fields, "additionalProperties", JBool(false));
    }
  }

  /** The field is already in normal form. */
  ghost predicate Normal(f: Field) {
    f.key != "default" && StrictValue(f.value) == f.value
  }

  ghost predicate AllNormal(fields: seq<Field>) {
    forall f | f in fields :: Normal(f)
  }

  lemma {:induction false} NormalIsFixed(fields: seq<Field>)
    requires AllNormal(fields)
    ensures StrictFields(fields) == fields
  {
    if fields != [] {
      assert Normal(fields[0]);
      NormalIsFixed(fields[1..]);
    }
  }

  lemma {:induction false} SetNormal(fields: seq<Field>, key: string, value: Json)
    requires AllNormal(fields) && Normal(Field(key, value))
    ensures AllNormal(Set(fields, key, value))
  {
    if fields != [] && fields[0].key != key {
      SetNormal(fields[1..], key, value);
    }
  }

  lemma {:induction false} PlainItemsFixed(items: seq<Json>)
    requires forall item | item in items :: !item.JDict?
    ensures StrictItems(items) == items
  {
    if items != [] { PlainItemsFixed(items[1..]); }
  }

  lemma CloseNormal(fields: seq<Field>)
    requires AllNormal(fields)
    ensures AllNormal(Close(fields))
  {
    if IsObject(fields) {
      var properties := Get(fields, "properties");
      var required := fields;
      if properties.JDict? {
        PlainItemsFixed(Names(properties.fields).items);
        SetNormal(fields, "required", Names(properties.fields));
        required := Set(fields, "required", Names(properties.fields));
      }
      SetNormal(required, "additionalProperties", JBool(false));
    }
  }

  /** Normalising a normalised schema changes nothing, at any depth. */
  lemma {:induction false} StrictIdempotent(fields: seq<Field>)
    ensures Strict(Strict(fields)) == Strict(fields)
    decreases fields, 2
  {
    var g := StrictFields(fields);
    FieldsNormal(fields);
    CloseNormal(g);
    NormalIsFixed(Close(g));
    CloseCloses(g);
    CloseFixesClosed(Close(g));
  }

  lemma {:induction false} FieldsNormal(fields: seq<Field>)
    ensures AllNormal(StrictFields(fields))
    decreases fields, 1
  {
    if fields != [] {
      FieldsNormal(fields[1..]);
      if fields[0].key != "default" { ValueIdempotent(fields[0].value); }
    }
  }

  lemma {:induction false} ValueIdempotent(v: Json)
    ensures StrictValue(StrictValue(v)) == StrictValue(v)
    decreases v
  {
    match v
    case JDict(fields) => StrictIdempotent(fields);
    case JList(items) => ItemsIdempotent(items);
    case _ =>
  }

  lemma {:induction false} ItemsIdempotent(items: seq<Json>)
    ensures StrictItems(StrictItems(items)) == StrictItems(items)
    decreases items, 0
  {
    if items != [] {
      ItemsIdempotent(items[1..]);
      assert StrictItems(items)[1..] == StrictItems(items[1..]);
      if items[0].JDict? { StrictIdempotent(items[0].fields); }
    }
  }

  // ----- Every object schema that is reached is closed

  ghost predicate AllClosed(fields: seq<Field>)
    decreases fields, 1
  {
    ClosedHere(fields) && forall f | f in fields :: f.key != "default" && ValueClosed(f.value)
  }

  ghost predicate ValueClosed(v: Json)
    decreases v
  {
    match v
    case JDict(fields) => AllClosed(fields)
    case JList(items) => forall item | item in items && item.JDict? :: AllClosed(item.fields)
    case _ => true
  }

  lemma {:induction false} StrictCloses(fields: seq<Field>)
    ensures AllClosed(Strict(fields))
    decreases fields, 2
  {
    var g := StrictFields(fields);
    FieldsClosed(fields);
    CloseCloses(g);
    CloseKeepsClosed(g);
  }

  ghost predicate FieldClosed(f: Field) {
    f.key != "default" && ValueClosed(f.value)
  }

  lemma {:induction false} SetKeepsClosed(fields: seq<Field>, key: string, value: Json)
    requires (forall f | f in fields :: FieldClosed(f)) && FieldClosed(Field(key, value))
    ensures forall f | f in Set(fields, key, value) :: FieldClosed(f)
  {
    if fields != [] && fields[0].key != key { SetKeepsClosed(fields[1..], key, value); }
  }

  lemma CloseKeepsClosed(fields: seq<Field>)
    requires forall f | f in fields :: FieldClosed(f)
    ensures forall f | f in Close(fields) :: FieldClosed(f)
  {
    if IsObject(fields) {
      var properties := Get(fields, "properties");
      var required := fields;
      if properties.JDict? {
        SetKeepsClosed(fields, "required", Names(properties.fields));
        required := Set(fields, "required", Names(properties.fields));
      }
      SetKeepsClosed(required, "additionalProperties", JBool(false));
    }
  }

  lemma {:induction false} FieldsClosed(fields: seq<Field>)
    ensures forall f | f in StrictFields(fields) :: FieldClosed(f)
    decreases fields, 1
  {
    if fields != [] {
      FieldsClosed(fields[1..]);
      if fields[0].key != "default" { ValueIsClosed(fields[0].value); }
    }
  }

  lemma {:induction false} ValueIsClosed(v: Json)
    ensures ValueClosed(StrictValue(v))
    decreases v
  {
    match v
    case JDict(fields) => StrictCloses(fields);
    case JList(items) => ItemsClosed(items);
    case _ =>
  }

  lemma {:induction false} ItemsClosed(items: seq<Json>)
    ensures forall item | item in StrictItems(items) && item.JDict? :: AllClosed(item.fields)
    decreases items, 0
  {
    if items != [] {
      ItemsClosed(items[1..]);
      if items[0].JDict? { StrictCloses(items[0].fields); }
    }
  }

  // ----- Which names end up required

  /** The keys of a dictionary, in order, without "default". */
  function OwnNames(fields: seq<Field>): seq<string> {
    if fields == [] then []
    else (if fields[0].key == "default" then [] else [fields[0].key]) + OwnNames(fields[1..])
  }

  lemma {:induction false} StrictFieldsKeys(fields: seq<Field>)
    ensures Keys(StrictFields(fields)) == OwnNames(fields)
  {
    if fields != [] {
      StrictFieldsKeys(fields[1..]);
      assert Keys(StrictFields(fields))
          == (if fields[0].key == "default" then [] else [fields[0].key]) + Keys(StrictFields(fields[1..]));
    }
  }

  lemma {:induction false} StrictFieldsGet(fields: seq<Field>, k: string)
    requires k != "default"
    ensures Get(StrictFields(fields), k) == StrictValue(Get(fields, k))
    ensures Has(StrictFields(fields), k) <==> Has(fields, k)
  {
    if fields != [] {
      StrictFieldsGet(fields[1..], k);
      HasTail(fields, k);
      if fields[0].key != "default" {
        var g := StrictFields(fields);
        HasTail(g, k);
        assert g[1..] == StrictFields(fields[1..]);
      }
    }
  }

  /** Closing the dictionary would add no key to it. */
  predicate ClosingAddsNoKey(fields: seq<Field>) {
    IsObject(fields) ==>
      Has(fields, "additionalProperties") && (Get(fields, "properties").JDict? ==> Has(fields, "required"))
  }

  lemma CloseKeys(fields: seq<Field>)
    ensures Keys(Close(fields)) == Keys(fields) <==> ClosingAddsNoKey(fields)
  {
    if IsObject(fields) {
      var properties := Get(fields, "properties");
      var required := if properties.JDict? then Set(fields, "required", Names(properties.fields)) else fields;
      if properties.JDict? {
        SetKeys(fields, "required", Names(properties.fields));
        HasSet(fields, "required", Names(properties.fields), "additionalProperties");
      }
      SetKeys(required, "additionalProperties", JBool(false));
      assert |Keys(Close(fields))| >= |Keys(required)| >= |Keys(fields)|;
    }
  }

  lemma {:induction false} OwnNamesAreKeys(fields: seq<Field>)
    requires !Has(fields, "default")
    ensures OwnNames(fields) == Keys(fields)
  {
    if fields != [] {
      HasTail(fields, "default");
      OwnNamesAreKeys(fields[1..]);
      assert Keys(fields) == [fields[0].key] + Keys(fields[1..]);
    }
  }

  lemma {:induction false} NoDefaultLeft(fields: seq<Field>)
    ensures !Has(StrictFields(fields), "default")
  {
    if fields != [] {
      NoDefaultLeft(fields[1..]);
      if fields[0].key != "default" {
        HasTail(StrictFields(fields), "default");
        assert StrictFields(fields)[1..] == StrictFields(fields[1..]);
      }
    }
  }

  /** Closing brings in no key called "default". */
  lemma CloseAddsNoDefault(fields: seq<Field>)
    ensures Has(Close(fields), "default") <==> Has(fields, "default")
  {
    if IsObject(fields) {
      var properties := Get(fields, "properties");
      var required := if properties.JDict? then Set(fields, "required", Names(properties.fields)) else fields;
      if properties.JDict? { HasSet(fields, "required", Names(properties.fields), "default"); }
      HasSet(required, "additionalProperties", JBool(false), "default");
    }
  }

  lemma SameKeysHas(a: seq<Field>, b: seq<Field>, k: string)
    requires Keys(a) == Keys(b)
    ensures Has(a, k) <==> Has(b, k)
  {
    assert forall i | 0 <= i < |a| :: a[i].key == Keys(a)[i] == Keys(b)[i] == b[i].key;
  }

  /** The other names survive, in order, exactly when closing the dictionary adds none. */
  lemma OwnNamesKeptIff(properties: seq<Field>)
    ensures Keys(Strict(properties)) == OwnNames(properties) <==> ClosingAddsNoKey(properties)
  {
    var g := StrictFields(properties);
    StrictFieldsKeys(properties);
    CloseKeys(g);
    StrictFieldsGet(properties, "type");
    StrictFieldsGet(properties, "properties");
    StrictFieldsGet(properties, "additionalProperties");
    StrictFieldsGet(properties, "required");
  }

  /** The normaliser treats the properties dictionary itself as a schema. The declared names survive,
      all of them, in order and without additions, exactly when none of them is "default" and the
      dictionary does not look like an open object schema, for instance through a property that is
      itself called "properties". */
  lemma PropertyNamesKeptIff(properties: seq<Field>)
    ensures Keys(Strict(properties)) == Keys(properties) <==>
              ClosingAddsNoKey(properties) && !Has(properties, "default")
  {
    NoDefaultLeft(properties);
    CloseAddsNoDefault(StrictFields(properties));
    if Has(properties, "default") {
      if Keys(Strict(properties)) == Keys(properties) {
        SameKeysHas(Strict(properties), properties, "default");
        assert false;
      }
    } else {
      OwnNamesAreKeys(properties);
      OwnNamesKeptIff(properties);
    }
  }

  /** A property named "default" is lost, whatever its schema; the others keep their places. */
  lemma PropertyNamedDefault(value: Json)
    ensures var properties := [Field("default", value), Field("title", JDict([]))];
            Keys(properties) == ["default", "title"] && Keys(Strict(properties)) == ["title"]
  {
    var properties := [Field("default", value), Field("title", JDict([]))];
    assert properties[1..] == [Field("title", JDict([]))] && properties[1..][1..] == [];
    assert OwnNames(properties[1..][1..]) == [];
    assert OwnNames(properties[1..]) == ["title"] && OwnNames(properties) == ["title"];
    assert Get(properties[1..][1..], "type") == JNull && Get(properties[1..][1..], "properties") == JNull;
    assert Get(properties[1..], "type") == JNull && Get(properties[1..], "properties") == JNull;
    assert !IsObject(properties);
    OwnNamesKeptIff(properties);
  }

  /** What the schema requires afterwards: the names of its normalised properties. */
  lemma RequiredAfter(schema: seq<Field>, properties: seq<Field>)
    requires Get(schema, "properties") == JDict(properties)
    ensures Get(Strict(schema), "properties") == JDict(Strict(properties))
    ensures Get(Strict(schema), "required") == Names(Strict(properties))
  {
    StrictFieldsGet(schema, "properties");
    ClosedLooksTheSame(StrictFields(schema));
    CloseCloses(StrictFields(schema));
  }

  lemma SameNamesIff(a: seq<Field>, b: seq<Field>)
    ensures Names(a) == Names(b) <==> Keys(a) == Keys(b)
  {
    if Names(a) == Names(b) {
      assert |a| == |Names(a).items| == |b|;
      forall i | 0 <= i < |a| ensures Keys(a)[i] == Keys(b)[i] {
        assert Names(a).items[i] == JStr(a[i].key) && Names(b).items[i] == JStr(b[i].key);
      }
    }
    if Keys(a) == Keys(b) {
      forall i | 0 <= i < |a| ensures Names(a).items[i] == Names(b).items[i] {
        assert Keys(a)[i] == Keys(b)[i];
      }
      assert Names(a).items == Names(b).items;
    }
  }

  /** A normalised schema requires exactly the properties that were declared, in their order, exactly
      when none of them is "default" and they do not look like an open object schema. */
  lemma RequiredIsDeclaredIff(schema: seq<Field>, properties: seq<Field>)
    requires Get(schema, "properties") == JDict(properties)
    ensures Get(Strict(schema), "required") == Names(properties) <==>
              ClosingAddsNoKey(properties) && !Has(properties, "default")
  {
    RequiredAfter(schema, properties);
    SameNamesIff(Strict(properties), properties);
    PropertyNamesKeptIff(properties);
  }

  /** A property named "properties" brings two names into the required list that the schema never
      declared. */
  lemma PropertyNamedProperties()
    ensures var properties := [Field("properties", JDict([]))];
            && Keys(properties) == ["properties"]
            && Keys(Strict(properties)) == ["properties", "required", "additionalProperties"]
  {
    var inner: seq<Field> := [];
    var properties := [Field("properties", JDict(inner))];
    assert Strict(inner) == inner;
    assert StrictFields(properties) == properties;
    SetKeys(properties, "required", Names(inner));
    var required := Set(properties, "required", Names(inner));
    HasSet(properties, "required", Names(inner), "additionalProperties");
    SetKeys(required, "additionalProperties", JBool(false));
    assert Strict(properties) == Set(required, "additionalProperties", JBool(false));
    assert Keys(properties) == ["properties"];
  }

  // ----- The function as it is written

  lemma {:induction false} StrictFieldsSnoc(fields: seq<Field>, f: Field)
    ensures StrictFields(fields + [f])
         == StrictFields(fields) + (if f.key == "default" then [] else [Field(f.key, StrictValue(f.value))])
  {
    if fields == [] {
      assert fields + [f] == [f];
    } else {
      StrictFieldsSnoc(fields[1..], f);
      assert (fields + [f])[1..] == fields[1..] + [f];
    }
  }

  lemma {:induction false} StrictItemsSnoc(items: seq<Json>, item: Json)
    ensures StrictItems(items + [item])
         == StrictItems(items) + [if item.JDict? then JDict(Strict(item.fields)) else item]
  {
    if items == [] {
      assert items + [item] == [item];
    } else {
      StrictItemsSnoc(items[1..], item);
      assert (items + [item])[1..] == items[1..] + [item];
    }
  }

  /** strict_json_schema */
  method StrictJsonSchema(schema: seq<Field>) returns (result: seq<Field>)
    ensures result == Strict(schema)
    decreases schema, 1
  {
    result := [];
    for k := 0 to |schema|
      invariant result == StrictFields(schema[..k])
    {
      assert schema[..k + 1] == schema[..k] + [schema[k]];
      StrictFieldsSnoc(schema[..k], schema[k]);
      if schema[k].key == "default" {
        continue;
      }
      var value := schema[k].value;
      match value {
        case JDict(fields) =>
          var inner := StrictJsonSchema(fields);
          result := result + [Field(schema[k].key, JDict(inner))];
        case JList(items) =>
          var inner := StrictList(items);
          result := result + [Field(schema[k].key, JList(inner))];
        case _ =>
          result := result + [Field(schema[k].key, value)];
      }
    }
    assert schema[..|schema|] == schema;
    result := Close(result);
  }

  method StrictList(items: seq<Json>) returns (result: seq<Json>)
    ensures result == StrictItems(items)
    decreases items, 0
  {
    result := [];
    for k := 0 to |items|
      invariant result == StrictItems(items[..k])
    {
      assert items[..k + 1] == items[..k] + [items[k]];
      StrictItemsSnoc(items[..k], items[k]);
      if items[k].JDict? {
        var inner := StrictJsonSchema(items[k].fields);
        result := result + [JDict(inner)];
      } else {
        result := result + [items[k]];
      }
    }
    assert items[..|items|] == items;
  }
}
