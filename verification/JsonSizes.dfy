/** The length of rendered JSON. The size of a document is the length of its compact rendering, which
    does not depend on key order. */
module JsonSizes {
  import opened JsonValues

  /** Characters that one character takes in an ASCII-only JSON string. */
  function EscapedLen(c: char): nat {
    if c == '\"' || c == '\\' || c == '\n' || c == '\r' || c == '\t' || c as int == 8 || c as int == 12 then 2
    else if 32 <= c as int <= 126 then 1
    else if c as int < 0x10000 then 6
    else 12
  }

  function CharsLen(s: string): nat {
    if s == "" then 0 else EscapedLen(s[0]) + CharsLen(s[1..])
  }

  function Digits(n: nat): nat {
    if n < 10 then 1 else 1 + Digits(n / 10)
  }

  /** The length of json.dumps; gap is 0 for compact separators and 1 for the default ones. */
  function Len(v: Json, gap: nat): nat
    decreases v
  {
    match v
    case JNull => 4
    case JBool(b) => if b then 4 else 5
    case JNum(n) => if n < 0 then 1 + Digits(-n) else Digits(n)
    case JStr(s) => 2 + CharsLen(s)
    case JList(items) => 2 + ItemsLen(items, gap)
    case JDict(fields) => 2 + FieldsLen(fields, gap)
  }

  function ItemsLen(items: seq<Json>, gap: nat): nat
    decreases items, 0
  {
    if items == [] then 0
    else Len(items[0], gap) + (if |items| == 1 then 0 else 1 + gap) + ItemsLen(items[1..], gap)
  }

  function FieldsLen(fields: seq<Field>, gap: nat): nat
    decreases fields, 0
  {
    if fields == [] then 0
    else 2 + CharsLen(fields[0].key) + 1 + gap + Len(fields[0].value, gap)
         + (if |fields| == 1 then 0 else 1 + gap) + FieldsLen(fields[1..], gap)
  }

  /** The length of the rendered document. */
  function DocLen(doc: seq<Field>): nat {
    2 + FieldsLen(doc, 0)
  }

  // ----- The size of a document is a sum over its fields

  /** A field with its quotes, colon and comma. */
  function FieldCost(f: Field): nat {
    CharsLen(f.key) + Len(f.value, 0) + 4
  }

  function Weight(cost: Field -> nat, fields: seq<Field>): nat {
    if fields == [] then 0 else cost(fields[0]) + Weight(cost, fields[1..])
  }

  lemma {:induction false} SizeIsWeight(fields: seq<Field>)
    ensures DocLen(fields) == if fields == [] then 2 else 1 + Weight(FieldCost, fields)
  {
    if fields != [] { SizeIsWeight(fields[1..]); }
  }

  lemma {:induction false} WeightAppend(cost: Field -> nat, a: seq<Field>, b: seq<Field>)
    ensures Weight(cost, a + b) == Weight(cost, a) + Weight(cost, b)
  {
    if a == [] {
      assert a + b == b;
    } else {
      WeightAppend(cost, a[1..], b);
      assert (a + b)[1..] == a[1..] + b;
    }
  }

  lemma WithoutField(a: seq<Field>, x: seq<Field>, f: Field, y: seq<Field>)
    requires multiset([f] + a) == multiset(x + [f] + y)
    ensures multiset(a) == multiset(x + y)
  {
    assert multiset(a) == multiset([f] + a) - multiset{f};
    assert multiset(x + y) == multiset(x + [f] + y) - multiset{f};
  }

  lemma PullOut(a: seq<Field>, b: seq<Field>) returns (x: seq<Field>, y: seq<Field>)
    requires a != [] && multiset(a) == multiset(b)
    ensures b == x + [a[0]] + y && multiset(a[1..]) == multiset(x + y)
  {
    assert a[0] in multiset(b);
    var i :| 0 <= i < |b| && b[i] == a[0];
    x, y := b[..i], b[i + 1..];
    assert b == x + [a[0]] + y && a == [a[0]] + a[1..];
    WithoutField(a[1..], x, a[0], y);
  }

  lemma WeightAround(cost: Field -> nat, x: seq<Field>, f: Field, y: seq<Field>)
    ensures Weight(cost, x + [f] + y) == cost(f) + Weight(cost, x + y)
  {
    WeightAppend(cost, x + [f], y);
    WeightAppend(cost, x, [f]);
    WeightAppend(cost, x, y);
  }

  lemma {:induction false} WeightIgnoresOrder(cost: Field -> nat, a: seq<Field>, b: seq<Field>)
    requires multiset(a) == multiset(b)
    ensures Weight(cost, a) == Weight(cost, b)
    decreases |a|
  {
    if a == [] {
      assert |b| == |multiset(b)|;
    } else {
      var x, y := PullOut(a, b);
      WeightIgnoresOrder(cost, a[1..], x + y);
      WeightAround(cost, x, a[0], y);
    }
  }

  /** Any rearrangement of the fields has the same size, so sorting keys does not matter. */
  lemma SizeIgnoresOrder(a: seq<Field>, b: seq<Field>)
    requires multiset(a) == multiset(b)
    ensures DocLen(a) == DocLen(b)
  {
    assert |a| == |multiset(a)| == |multiset(b)| == |b|;
    WeightIgnoresOrder(FieldCost, a, b);
    SizeIsWeight(a);
    SizeIsWeight(b);
  }
}
