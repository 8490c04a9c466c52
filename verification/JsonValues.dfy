/** JSON values. Dictionaries keep their insertion order. */
module JsonValues {

  datatype Json =
    | JNull
    | JBool(b: bool)
    | JNum(n: int)
    | JStr(s: string)
    | JList(items: seq<Json>)
    | JDict(fields: seq<Field>)

  datatype Field = Field(key: string, value: Json)

  // ----- Dictionaries

  predicate Has(fields: seq<Field>, key: string) {
    exists i :: 0 <= i < |fields| && fields[i].key == key
  }

  /** dict.get, with JNull for a missing key. */
  function Get(fields: seq<Field>, key: string): Json {
    if fields == [] then JNull
    else if fields[0].key == key then fields[0].value
    else Get(fields[1..], key)
  }

  /** Assignment: in place if the key exists, at the end otherwise. */
  function Set(fields: seq<Field>, key: string, value: Json): seq<Field> {
    if fields == [] then [Field(key, value)]
    else if fields[0].key == key then [Field(key, value)] + fields[1..]
    else [fields[0]] + Set(fields[1..], key, value)
  }

  function Keys(fields: seq<Field>): (r: seq<string>)
    ensures |r| == |fields| && forall i | 0 <= i < |fields| :: r[i] == fields[i].key
  {
    seq(|fields|, i requires 0 <= i < |fields| => fields[i].key)
  }

  // ----- Laws of dictionaries

  lemma {:induction false} GetSet(fields: seq<Field>, key: string, value: Json, k: string)
    ensures Get(Set(fields, key, value), k) == if k == key then value else Get(fields, k)
  {
    if fields != [] && fields[0].key != key {
      GetSet(fields[1..], key, value, k);
      assert Set(fields, key, value)[1..] == Set(fields[1..], key, value);
    } else if fields != [] {
      assert Set(fields, key, value)[1..] == fields[1..];
    }
  }

  /** Assigning the value that is already there changes nothing. */
  lemma {:induction false} SetAgain(fields: seq<Field>, key: string, value: Json)
    requires Has(fields, key) && Get(fields, key) == value
    ensures Set(fields, key, value) == fields
  {
    if fields[0].key != key {
      var i :| 0 <= i < |fields| && fields[i].key == key;
      assert fields[1..][i - 1].key == key;
      SetAgain(fields[1..], key, value);
    }
  }

  lemma {:induction false} HasSet(fields: seq<Field>, key: string, value: Json, k: string)
    ensures Has(Set(fields, key, value), k) <==> k == key || Has(fields, k)
  {
    var s := Set(fields, key, value);
    if fields == [] {
      assert s[0].key == key;
    } else if fields[0].key == key {
      assert s[0].key == key;
      forall i | 0 < i < |fields| ensures s[i] == fields[i] {}
    } else {
      HasSet(fields[1..], key, value, k);
      assert forall i | 0 <= i < |fields| - 1 :: fields[1..][i] == fields[i + 1];
      HasTail(fields, k);
      HasTail(s, k);
      assert s[1..] == Set(fields[1..], key, value);
    }
  }

  lemma HasTail(fields: seq<Field>, k: string)
    requires fields != []
    ensures Has(fields, k) <==> fields[0].key == k || Has(fields[1..], k)
  {
    if Has(fields[1..], k) {
      var i :| 0 <= i < |fields[1..]| && fields[1..][i].key == k;
      assert fields[i + 1].key == k;
    }
    if Has(fields, k) && fields[0].key != k {
      var i :| 0 <= i < |fields| && fields[i].key == k;
      assert fields[1..][i - 1].key == k;
    }
  }

  lemma {:induction false} SetKeys(fields: seq<Field>, key: string, value: Json)
    ensures Keys(Set(fields, key, value)) == if Has(fields, key) then Keys(fields) else Keys(fields) + [key]
  {
    if fields != [] && fields[0].key != key {
      SetKeys(fields[1..], key, value);
      HasTail(fields, key);
      assert Keys(Set(fields, key, value)) == [fields[0].key] + Keys(Set(fields[1..], key, value));
      assert Keys(fields) == [fields[0].key] + Keys(fields[1..]);
    }
  }
}
