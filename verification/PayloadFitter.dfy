/** Fitting an invocation payload under a hard size limit: instructions first, bulk data shortened
    and then sacrificed largest first, a truncation notice as the last resort. A document is its
    fields. */
module PayloadFitter {
  import opened JsonSizes
  import opened JsonValues

  const MAX_CRITICAL_VALUE_CHARS: nat := 8000
  const MIN_CRITICAL_VALUE_CHARS: nat := 1000
  const MAX_TOOL_RESULT_CHARS: nat := 8000

  predicate IsCritical(key: string) {
    key in {
      "acceptance_criteria", "agent_role", "execution_requirements", "max_risk_ceiling", "platform_limits",
      "prior_summaries", "requirements", "task_execution_contract", "task_type", "upstream_summaries",
      "verified_artifact_ids"}
  }

  predicate IsBulk(key: string) {
    key in {"current_plan", "repository", "source_files", "repository_files", "task_summaries"}
  }

  // ----- Shrinking values

  /** Long strings lose their tail; structure and keys stay. */
  function Shrink(v: Json, cap: nat): Json
    decreases v
  {
    match v
    case JStr(s) => if |s| > cap then JStr(s[..cap] + "...[truncated]") else v
    case JDict(fields) => JDict(ShrinkFields(fields, cap))
    case JList(items) => JList(ShrinkItems(items, cap))
    case _ => v
  }

  function ShrinkItems(items: seq<Json>, cap: nat): seq<Json>
    decreases items, 0
  {
    if items == [] then [] else [Shrink(items[0], cap)] + ShrinkItems(items[1..], cap)
  }

  function ShrinkFields(fields: seq<Field>, cap: nat): seq<Field>
    decreases fields, 0
  {
    if fields == [] then []
    else [Field(fields[0].key, Shrink(fields[0].value, cap))] + ShrinkFields(fields[1..], cap)
  }

  /** Every string value in v has at most n characters. */
  ghost predicate StringsWithin(v: Json, n: nat)
    decreases v
  {
    match v
    case JStr(s) => |s| <= n
    case JDict(fields) => forall f | f in fields :: StringsWithin(f.value, n)
    case JList(items) => forall item | item in items :: StringsWithin(item, n)
    case _ => true
  }

  /** The same keys and list lengths, at every depth. */
  ghost predicate SameShape(v: Json, w: Json)
    decreases v
  {
    match v
    case JDict(fields) =>
      w.JDict? && |w.fields| == |fields|
      && forall i | 0 <= i < |fields| ::
           w.fields[i].key == fields[i].key && SameShape(fields[i].value, w.fields[i].value)
    case JList(items) =>
      w.JList? && |w.items| == |items| && forall i | 0 <= i < |items| :: SameShape(items[i], w.items[i])
    case JStr(_) => w.JStr?
    case _ => w == v
  }

  /** Shrinking bounds every string and keeps the shape of the value. */
  lemma {:induction false} ShrinkBounds(v: Json, cap: nat)
    ensures StringsWithin(Shrink(v, cap), cap + 14) && SameShape(v, Shrink(v, cap))
    decreases v
  {
    match v
    case JDict(fields) => ShrinkFieldsBounds(fields, cap);
    case JList(items) => ShrinkItemsBounds(items, cap);
    case _ =>
  }

  lemma {:induction false} ShrinkItemsBounds(items: seq<Json>, cap: nat)
    ensures |ShrinkItems(items, cap)| == |items|
    ensures forall i | 0 <= i < |items| ::
              StringsWithin(ShrinkItems(items, cap)[i], cap + 14) && SameShape(items[i], ShrinkItems(items, cap)[i])
    decreases items, 0
  {
    if items != [] {
      ShrinkBounds(items[0], cap);
      ShrinkItemsBounds(items[1..], cap);
    }
  }

  lemma {:induction false} ShrinkFieldsBounds(fields: seq<Field>, cap: nat)
    ensures |ShrinkFields(fields, cap)| == |fields|
    ensures forall i | 0 <= i < |fields| ::
              && ShrinkFields(fields, cap)[i].key == fields[i].key
              && StringsWithin(ShrinkFields(fields, cap)[i].value, cap + 14)
              && SameShape(fields[i].value, ShrinkFields(fields, cap)[i].value)
    decreases fields, 0
  {
    if fields != [] {
      ShrinkBounds(fields[0].value, cap);
      ShrinkFieldsBounds(fields[1..], cap);
    }
  }

  // ----- Fitting one bulk list

  function Decimal(n: nat): string {
    if n < 10 then ["0123456789"[n]] else Decimal(n / 10) + ["0123456789"[n % 10]]
  }

  function DropNotice(dropped: nat): Json {
    JStr("...[" + Decimal(dropped) + " further entries omitted to fit the payload budget]")
  }

  /** Characters that the first k entries use, brackets and commas included, for entries of the
      given sizes. */
  function Used(size: Json -> nat, items: seq<Json>, k: nat): nat
    requires k <= |items|
  {
    if k == 0 then 2 else Used(size, items, k - 1) + size(items[k - 1]) + 1
  }

  predicate EntryFits(size: Json -> nat, items: seq<Json>, budget: nat, k: nat)
    requires k < |items|
  {
    Used(size, items, k) + size(items[k]) + 1 <= budget
  }

  /** n entries are kept: the first always, then as long as entries fit. */
  ghost predicate KeepsPrefix(size: Json -> nat, items: seq<Json>, budget: nat, n: nat) {
    && n <= |items| && (items != [] ==> n >= 1)
    && (forall k | 1 <= k < n :: EntryFits(size, items, budget, k))
    && (n < |items| ==> !EntryFits(size, items, budget, n))
  }

  /** The rendered size of an entry after shrinking. */
  function ShrunkSize(cap: nat): Json -> nat {
    item => Len(Shrink(item, cap), 0)
  }

  function FittedList(items: seq<Json>, cap: nat, n: nat): seq<Json>
    requires n <= |items|
  {
    ShrinkItems(items[..n], cap) + (if n < |items| then [DropNotice(|items| - n)] else [])
  }

  /** How many leading entries fit. */
  method FitPrefix(size: Json -> nat, items: seq<Json>, budget: nat) returns (n: nat)
    ensures KeepsPrefix(size, items, budget, n)
  {
    var used := 2;
    for k := 0 to |items|
      invariant used == Used(size, items, k)
      invariant forall j | 1 <= j < k :: EntryFits(size, items, budget, j)
    {
      if used + size(items[k]) + 1 > budget && k > 0 {
        return k;
      }
      used := used + size(items[k]) + 1;
    }
    n := |items|;
  }

  /** The longest prefix that fits, shrunk, and a notice that counts exactly the rest. */
  method FitList(items: seq<Json>, budget: nat, cap: nat) returns (kept: seq<Json>, n: nat)
    ensures KeepsPrefix(ShrunkSize(cap), items, budget, n) && kept == FittedList(items, cap, n)
  {
    n := FitPrefix(ShrunkSize(cap), items, budget);
    kept := FittedList(items, cap, n);
  }

  /** Kept and dropped entries add up to the input. */
  lemma FittedListLength(items: seq<Json>, cap: nat, n: nat)
    requires n <= |items|
    ensures |FittedList(items, cap, n)| == n + (if n < |items| then 1 else 0)
    ensures forall i | 0 <= i < n :: FittedList(items, cap, n)[i] == Shrink(items[i], cap)
  {
    ShrunkPrefix(items[..n], cap);
  }

  lemma {:induction false} ShrunkPrefix(items: seq<Json>, cap: nat)
    ensures |ShrinkItems(items, cap)| == |items|
    ensures forall i | 0 <= i < |items| :: ShrinkItems(items, cap)[i] == Shrink(items[i], cap)
  {
    if items != [] { ShrunkPrefix(items[1..], cap); }
  }

  // ----- The two sections

  /** The instructions of the payload, shrunk. */
  function Critical(payload: seq<Field>, cap: nat): seq<Field> {
    if payload == [] then []
    else (if IsCritical(payload[0].key) then [Field(payload[0].key, Shrink(payload[0].value, cap))] else [])
         + Critical(payload[1..], cap)
  }

  /** The caps that the halving loop goes through. */
  predicate IsCap(cap: nat) {
    cap == 8000 || cap == 4000 || cap == 2000 || cap == 1000
  }

  /** The largest of the four caps under which the instructions take at most 60 percent of the
      limit, or the smallest cap if none does. */
  ghost predicate IsBestCap(payload: seq<Field>, limit: nat, cap: nat) {
    && IsCap(cap)
    && (DocLen(Critical(payload, cap)) <= limit * 3 / 5 || cap == MIN_CRITICAL_VALUE_CHARS)
    && forall c: nat | IsCap(c) && c > cap :: DocLen(Critical(payload, c)) > limit * 3 / 5
  }

  method CriticalSection(payload: seq<Field>, limit: nat) returns (critical: seq<Field>, cap: nat)
    ensures critical == Critical(payload, cap) && IsBestCap(payload, limit, cap)
  {
    cap := MAX_CRITICAL_VALUE_CHARS;
    critical := Critical(payload, cap);
    while cap > MIN_CRITICAL_VALUE_CHARS && DocLen(critical) > limit * 3 / 5
      invariant IsCap(cap) && critical == Critical(payload, cap)
      invariant forall c: nat | IsCap(c) && c > cap :: DocLen(Critical(payload, c)) > limit * 3 / 5
      decreases cap
    {
      cap := if cap / 2 > MIN_CRITICAL_VALUE_CHARS then cap / 2 else MIN_CRITICAL_VALUE_CHARS;
      critical := Critical(payload, cap);
    }
  }

  /** What a non-critical field becomes: a fitted list, or a shrunk value. */
  ghost predicate IsBulkOf(f: Field, remaining: nat, g: Field) {
    && g.key == f.key
    && if f.value.JList? && IsBulk(f.key) then
         exists n :: KeepsPrefix(ShrunkSize(MAX_TOOL_RESULT_CHARS), f.value.items, remaining, n)
                     && g.value == JList(FittedList(f.value.items, MAX_TOOL_RESULT_CHARS, n))
       else g.value == Shrink(f.value, MAX_TOOL_RESULT_CHARS)
  }

  function Others(payload: seq<Field>): seq<Field> {
    if payload == [] then []
    else (if IsCritical(payload[0].key) then [] else [payload[0]]) + Others(payload[1..])
  }

  lemma {:induction false} OthersSnoc(payload: seq<Field>, f: Field)
    ensures Others(payload + [f]) == if IsCritical(f.key) then Others(payload) else Others(payload) + [f]
  {
    if payload == [] {
      assert payload + [f] == [f];
    } else {
      OthersSnoc(payload[1..], f);
      assert (payload + [f])[1..] == payload[1..] + [f];
    }
  }

  ghost predicate IsBulkSection(payload: seq<Field>, remaining: nat, bulk: seq<Field>) {
    && |bulk| == |Others(payload)|
    && forall i | 0 <= i < |bulk| :: IsBulkOf(Others(payload)[i], remaining, bulk[i])
  }

  method BulkSection(payload: seq<Field>, remaining: nat) returns (bulk: seq<Field>)
    ensures IsBulkSection(payload, remaining, bulk)
  {
    bulk := [];
    for k := 0 to |payload|
      invariant IsBulkSection(payload[..k], remaining, bulk)
    {
      var f := payload[k];
      assert payload[..k + 1] == payload[..k] + [f];
      OthersSnoc(payload[..k], f);
      if IsCritical(f.key) {
        continue;
      }
      var g := Field(f.key, Shrink(f.value, MAX_TOOL_RESULT_CHARS));
      if f.value.JList? && IsBulk(f.key) {
        var kept, n := FitList(f.value.items, remaining, MAX_TOOL_RESULT_CHARS);
        g := Field(f.key, JList(kept));
      }
      assert IsBulkOf(f, remaining, g);
      bulk := bulk + [g];
    }
    assert payload[..|payload|] == payload;
  }

  lemma {:induction false} SectionsCoverPayload(payload: seq<Field>, cap: nat, k: string)
    ensures Has(payload, k) <==> Has(Critical(payload, cap), k) || Has(Others(payload), k)
    ensures Has(Critical(payload, cap), k) ==> IsCritical(k)
    ensures Has(Others(payload), k) ==> !IsCritical(k)
  {
    if payload != [] {
      var c, o := Critical(payload, cap), Others(payload);
      SectionsCoverPayload(payload[1..], cap, k);
      HasTail(payload, k);
      if IsCritical(payload[0].key) {
        HasTail(c, k);
        assert c[1..] == Critical(payload[1..], cap) && o == Others(payload[1..]);
      } else {
        HasTail(o, k);
        assert o[1..] == Others(payload[1..]) && c == Critical(payload[1..], cap);
      }
    }
  }

  lemma {:induction false} HasAppend(a: seq<Field>, b: seq<Field>, k: string)
    ensures Has(a + b, k) <==> Has(a, k) || Has(b, k)
  {
    if a == [] {
      assert a + b == b;
    } else {
      HasAppend(a[1..], b, k);
      HasTail(a, k);
      HasTail(a + b, k);
      assert (a + b)[1..] == a[1..] + b;
    }
  }

  lemma SameKeysHas(a: seq<Field>, b: seq<Field>, k: string)
    requires |a| == |b| && forall i | 0 <= i < |a| :: a[i].key == b[i].key
    ensures Has(a, k) <==> Has(b, k)
  {
  }

  /** The merged document has exactly the payload's keys. */
  lemma MergedKeys(payload: seq<Field>, remaining: nat, bulk: seq<Field>, cap: nat, k: string)
    requires IsBulkSection(payload, remaining, bulk)
    ensures Has(bulk + Critical(payload, cap), k) <==> Has(payload, k)
    ensures Has(bulk, k) ==> !IsCritical(k)
  {
    HasAppend(bulk, Critical(payload, cap), k);
    SectionsCoverPayload(payload, cap, k);
    forall i | 0 <= i < |bulk| ensures bulk[i].key == Others(payload)[i].key {
      assert IsBulkOf(Others(payload)[i], remaining, bulk[i]);
    }
    SameKeysHas(bulk, Others(payload), k);
  }

  // ----- Sacrificing bulk sections

  function OmitNotice(key: string): Json {
    JStr("...[" + key + " omitted to fit the payload budget]")
  }

  /** The document after the listed sections are replaced by notices. */
  function Sacrificed(doc: seq<Field>, keys: seq<string>): seq<Field> {
    if keys == [] then doc
    else
      var n := |keys| - 1;
      Set(Sacrificed(doc, keys[..n]), keys[n], OmitNotice(keys[n]))
  }

  lemma {:induction false} SacrificedKeys(doc: seq<Field>, keys: seq<string>, k: string)
    requires forall key | key in keys :: Has(doc, key)
    ensures Has(Sacrificed(doc, keys), k) <==> Has(doc, k)
    ensures k !in keys ==> Get(Sacrificed(doc, keys), k) == Get(doc, k)
    ensures k in keys ==> Get(Sacrificed(doc, keys), k) == OmitNotice(k)
  {
    if keys != [] {
      var n := |keys| - 1;
      SacrificedKeys(doc, keys[..n], k);
      HasSet(Sacrificed(doc, keys[..n]), keys[n], OmitNotice(keys[n]), k);
      GetSet(Sacrificed(doc, keys[..n]), keys[n], OmitNotice(keys[n]), k);
      assert keys == keys[..n] + [keys[n]];
      assert keys[n] in keys;
    }
  }

  /** The measure by which sections are sacrificed. */
  function SectionSize(doc: seq<Field>, key: string): nat {
    Len(Get(doc, key), 1)
  }

  /** Largest section first. */
  ghost predicate LargestFirst(size: string -> nat, order: seq<string>) {
    forall i, j | 0 <= i < j < |order| :: size(order[i]) >= size(order[j])
  }

  /** Stable insertion by decreasing size. */
  method InsertBySize(size: string -> nat, order: seq<string>, key: string) returns (r: seq<string>)
    requires LargestFirst(size, order)
    ensures LargestFirst(size, r) && multiset(r) == multiset(order) + multiset{key}
  {
    var k := |order|;
    while k > 0 && size(order[k - 1]) < size(key)
      invariant 0 <= k <= |order|
      invariant forall i | k <= i < |order| :: size(order[i]) < size(key)
    {
      k := k - 1;
    }
    r := order[..k] + [key] + order[k..];
    InsertedAt(size, order, key, k);
    InsertedElements(order[..k], order[k..], key);
    assert order == order[..k] + order[k..];
  }

  lemma InsertedElements(a: seq<string>, b: seq<string>, key: string)
    ensures multiset(a + [key] + b) == multiset(a + b) + multiset{key}
  {
    assert multiset(a + [key] + b) == multiset(a) + multiset{key} + multiset(b);
  }

  lemma InsertedAt(size: string -> nat, order: seq<string>, key: string, k: nat)
    requires LargestFirst(size, order) && k <= |order|
    requires k > 0 ==> size(order[k - 1]) >= size(key)
    requires forall i | k <= i < |order| :: size(order[i]) < size(key)
    ensures LargestFirst(size, order[..k] + [key] + order[k..])
  {
    var a, b := order[..k], order[k..];
    var r := a + [key] + b;
    forall i, j | 0 <= i < j < |r| ensures size(r[i]) >= size(r[j]) {
      assert r[i] == if i < k then order[i] else if i == k then key else order[i - 1];
      assert r[j] == if j < k then order[j] else if j == k then key else order[j - 1];
      if i < k && k > 0 { assert size(order[i]) >= size(order[k - 1]); }
    }
  }

  method SortBySize(size: string -> nat, keys: seq<string>) returns (order: seq<string>)
    ensures LargestFirst(size, order) && multiset(order) == multiset(keys)
  {
    order := [];
    for k := 0 to |keys|
      invariant LargestFirst(size, order) && multiset(order) == multiset(keys[..k])
    {
      assert keys[..k + 1] == keys[..k] + [keys[k]];
      order := InsertBySize(size, order, keys[k]);
    }
    assert keys[..|keys|] == keys;
  }

  /** The n largest sections are given up. */
  function GivenUp(doc: seq<Field>, order: seq<string>, n: nat): seq<Field>
    requires n <= |order|
  {
    Sacrificed(doc, order[..n])
  }

  /** Gives up sections in order until the document fits; fails if it never does. */
  method Sacrifice(doc: seq<Field>, order: seq<string>, limit: nat) returns (fits: bool, r: seq<Field>, ghost n: nat)
    ensures n <= |order| && r == GivenUp(doc, order, n)
    ensures fits <==> DocLen(r) <= limit
    ensures forall m | 0 <= m < n :: DocLen(GivenUp(doc, order, m)) > limit
    ensures !fits ==> n == |order|
  {
    r := doc;
    for k := 0 to |order|
      invariant r == GivenUp(doc, order, k)
      invariant forall m | 0 <= m < k :: DocLen(GivenUp(doc, order, m)) > limit
    {
      if DocLen(r) <= limit {
        n := k;
        return true, r, n;
      }
      assert order[..k + 1] == order[..k] + [order[k]] && order[..k + 1][..k] == order[..k];
      r := Set(r, order[k], OmitNotice(order[k]));
    }
    n := |order|;
    fits := DocLen(r) <= limit;
  }

  // ----- The last resort

  /** Field names the notice may carry. */
  predicate NoticeKey(key: string) {
    key == "_payload_truncated" || key == "_note" || IsCritical(key)
  }

  /** What becomes of a field in the notice: an instruction stays if it is a string and becomes a
      mark otherwise; anything else is left out. */
  function InstructionOf(f: Field): seq<Field> {
    if !IsCritical(f.key) then []
    else if f.value.JStr? then [f]
    else [Field(f.key, JStr("<" + f.key + " omitted>"))]
  }

  function Each(part: Field -> seq<Field>, doc: seq<Field>): seq<Field> {
    if doc == [] then [] else part(doc[0]) + Each(part, doc[1..])
  }

  function Instructions(doc: seq<Field>): seq<Field> {
    Each(InstructionOf, doc)
  }

  /** The notice: a mark, a fixed sentence, and the instructions. */
  function Notice(doc: seq<Field>, note: string): seq<Field> {
    [Field("_payload_truncated", JBool(true)), Field("_note", JStr(note))] + Instructions(doc)
  }

  lemma NoticeFields(doc: seq<Field>, note: string, f: Field)
    requires f in Notice(doc, note)
    ensures NoticeKey(f.key) && (IsCritical(f.key) ==> Has(doc, f.key))
  {
    if f in Instructions(doc) {
      var g := FromSome(InstructionOf, doc, f);
      var i :| 0 <= i < |doc| && doc[i] == g;
      assert doc[i].key == f.key;
    }
  }

  lemma {:induction false} FromSome(part: Field -> seq<Field>, doc: seq<Field>, f: Field) returns (g: Field)
    requires f in Each(part, doc)
    ensures g in doc && f in part(g)
  {
    if f in part(doc[0]) {
      g := doc[0];
    } else {
      g := FromSome(part, doc[1..], f);
    }
  }

  /** The first of the longest fields. */
  ghost predicate IsLongest(doc: seq<Field>, k: nat) {
    && k < |doc|
    && (forall i | 0 <= i < |doc| :: Len(doc[i].value, 1) <= Len(doc[k].value, 1))
    && (forall i | 0 <= i < k :: Len(doc[i].value, 1) < Len(doc[k].value, 1))
  }

  ghost predicate DropsLongest(doc: seq<Field>, doc': seq<Field>) {
    exists k: nat :: IsLongest(doc, k) && doc' == doc[..k] + doc[k + 1..]
  }

  /** Each document is too long and the next one lacks its longest field. */
  ghost predicate DropChain(steps: seq<seq<Field>>, limit: nat) {
    |steps| > 0
    && forall i, j | 0 <= i < j < |steps| && j == i + 1 :: DocLen(steps[i]) > limit && DropsLongest(steps[i], steps[j])
  }

  /** The notice after dropping longest fields for as long as it is too long and anything is left. */
  ghost predicate IsTrimmed(notice: seq<Field>, limit: nat, doc: seq<Field>) {
    && (DocLen(doc) <= limit || doc == [])
    && exists steps :: DropChain(steps, limit) && steps[0] == notice && steps[|steps| - 1] == doc
  }

  method LongestField(doc: seq<Field>) returns (k: nat)
    requires doc != []
    ensures IsLongest(doc, k)
  {
    k := 0;
    for i := 0 to |doc|
      invariant k < |doc| && forall j | 0 <= j < i :: Len(doc[j].value, 1) <= Len(doc[k].value, 1)
      invariant forall j | 0 <= j < k :: Len(doc[j].value, 1) < Len(doc[k].value, 1)
      invariant k < i || i == k == 0
    {
      if Len(doc[i].value, 1) > Len(doc[k].value, 1) {
        k := i;
      }
    }
  }

  /** Drops the longest field until the notice fits or nothing is left. */
  method DropUntilFits(notice: seq<Field>, limit: nat) returns (doc: seq<Field>)
    ensures IsTrimmed(notice, limit, doc)
  {
    doc := notice;
    ghost var steps := [notice];
    while DocLen(doc) > limit && doc != []
      invariant DropChain(steps, limit) && steps[0] == notice && steps[|steps| - 1] == doc
      decreases |doc|
    {
      var k := LongestField(doc);
      var shorter := doc[..k] + doc[k + 1..];
      assert DropsLongest(doc, shorter);
      doc, steps := shorter, steps + [shorter];
    }
  }

  lemma DropKeepsShortest(a: seq<Field>, b: seq<Field>)
    requires DropsLongest(a, b)
    ensures forall f | f in b :: f in a
    ensures forall f, g | f in a && f !in b && g in a :: Len(f.value, 1) >= Len(g.value, 1)
  {
    var k: nat :| IsLongest(a, k) && b == a[..k] + a[k + 1..];
    forall f | f in a && f != a[k] ensures f in b {
      var i :| 0 <= i < |a| && a[i] == f;
      assert f == b[if i < k then i else i - 1];
    }
  }

  lemma ChainTail(steps: seq<seq<Field>>, limit: nat)
    requires DropChain(steps, limit) && |steps| > 1
    ensures DropChain(steps[1..], limit) && DocLen(steps[0]) > limit && DropsLongest(steps[0], steps[1])
  {
    assert DropsLongest(steps[0], steps[1]);
    var rest := steps[1..];
    forall i, j | 0 <= i < j < |rest| && j == i + 1
      ensures DocLen(rest[i]) > limit && DropsLongest(rest[i], rest[j])
    {
      assert DropsLongest(steps[i + 1], steps[j + 1]);
    }
  }

  lemma {:induction false} ChainKeepsShortest(steps: seq<seq<Field>>, limit: nat, f: Field, g: Field)
    requires DropChain(steps, limit) && g in steps[|steps| - 1]
    ensures g in steps[0]
    ensures f in steps[0] && f !in steps[|steps| - 1] ==> Len(f.value, 1) >= Len(g.value, 1)
    decreases |steps|
  {
    if |steps| > 1 {
      ChainTail(steps, limit);
      DropKeepsShortest(steps[0], steps[1]);
      ChainKeepsShortest(steps[1..], limit, f, g);
    }
  }

  /** What is kept of a notice was in it and is never longer than what was dropped; a notice that
      fits is kept whole. */
  lemma TrimKeepsShortest(notice: seq<Field>, limit: nat, doc: seq<Field>, f: Field, g: Field)
    requires IsTrimmed(notice, limit, doc) && g in doc
    ensures g in notice
    ensures f in notice && f !in doc ==> Len(f.value, 1) >= Len(g.value, 1)
    ensures DocLen(notice) <= limit ==> doc == notice
  {
    var steps :| DropChain(steps, limit) && steps[0] == notice && steps[|steps| - 1] == doc;
    ChainKeepsShortest(steps, limit, f, g);
    if |steps| > 1 {
      assert DropsLongest(steps[0], steps[1]);
    }
  }

  // ----- The whole

  /** All sections are there: instructions as merged, bulk sections as merged or given up. */
  ghost predicate IsWhole(payload: seq<Field>, merged: seq<Field>, order: seq<string>, n: nat, doc: seq<Field>) {
    && n <= |order|
    && (forall k :: Has(doc, k) <==> Has(payload, k))
    && (forall k | IsCritical(k) :: k !in order)
    && (forall k :: Get(doc, k) == if k in order[..n] then OmitNotice(k) else Get(merged, k))
  }

  /** The merged document: bulk sections under what the instructions leave, then the instructions. */
  ghost predicate IsMerge(payload: seq<Field>, limit: nat, cap: nat, bulk: seq<Field>, merged: seq<Field>) {
    var used := DocLen(Critical(payload, cap)) + 2;
    && IsBestCap(payload, limit, cap)
    && IsBulkSection(payload, if limit >= used then limit - used else 0, bulk)
    && merged == bulk + Critical(payload, cap)
  }

  /** Only sections outside the instructions are ever given up, each one once, largest first. */
  ghost predicate IsSacrificeOrder(bulk: seq<Field>, merged: seq<Field>, order: seq<string>) {
    && LargestFirst(k => SectionSize(merged, k), order)
    && multiset(order) == multiset(Keys(bulk))
  }

  /** A notice: marks and instructions of the payload, nothing else, the longest dropped while it is
      too long. */
  ghost predicate IsNotice(payload: seq<Field>, full: seq<Field>, note: string, limit: nat, doc: seq<Field>) {
    && IsTrimmed(Notice(full, note), limit, doc)
    && forall f | f in doc :: NoticeKey(f.key) && (IsCritical(f.key) ==> Has(payload, f.key))
  }

  /** What _bounded_json returns. */
  ghost predicate IsBounded(
    payload: seq<Field>, limit: nat, note: string, cap: nat, bulk: seq<Field>, merged: seq<Field>,
    order: seq<string>, n: nat, doc: seq<Field>)
  {
    && IsMerge(payload, limit, cap, bulk, merged) && IsSacrificeOrder(bulk, merged, order) && n <= |order|
    && (forall m | 0 <= m < n :: DocLen(GivenUp(merged, order, m)) > limit)
    && (DocLen(GivenUp(merged, order, n)) <= limit ==>
          doc == GivenUp(merged, order, n) && IsWhole(payload, merged, order, n, doc))
    && (DocLen(GivenUp(merged, order, n)) > limit ==>
          n == |order| && IsNotice(payload, GivenUp(merged, order, n), note, limit, doc))
  }

  /** _bounded_json. With a limit of at least two characters the result is never longer than the
      limit. It is the merged document, with exactly the payload's keys, as soon as that fits after
      some number of bulk sections is given up; otherwise it is a notice restricted to marks and
      instructions. */
  method BoundedJson(payload: seq<Field>, limit: nat, note: string)
    returns (doc: seq<Field>, ghost cap: nat, ghost bulk: seq<Field>, ghost merged: seq<Field>,
             ghost order: seq<string>, ghost n: nat)
    ensures limit >= 2 ==> DocLen(doc) <= limit
    ensures IsBounded(payload, limit, note, cap, bulk, merged, order, n, doc)
  {
    var together, sections;
    together, sections, cap := Merge(payload, limit);
    merged, bulk := together, sections;
    var chosen := SortBySize(k => SectionSize(together, k), Keys(sections));
    order := chosen;
    var fits;
    fits, doc, n := Sacrifice(together, chosen, limit);
    WholeKeys(payload, limit, cap, bulk, merged, chosen, n);
    if !fits {
      doc := LastResort(payload, doc, limit, note);
    }
  }

  method Merge(payload: seq<Field>, limit: nat) returns (merged: seq<Field>, bulk: seq<Field>, cap: nat)
    ensures IsMerge(payload, limit, cap, bulk, merged)
  {
    var critical;
    critical, cap := CriticalSection(payload, limit);
    var used := DocLen(critical) + 2;
    bulk := BulkSection(payload, if limit >= used then limit - used else 0);
    merged := bulk + critical;
  }

  method LastResort(payload: seq<Field>, full: seq<Field>, limit: nat, note: string) returns (doc: seq<Field>)
    requires forall k :: Has(full, k) ==> Has(payload, k)
    ensures limit >= 2 ==> DocLen(doc) <= limit
    ensures IsNotice(payload, full, note, limit, doc)
  {
    doc := DropUntilFits(Notice(full, note), limit);
    forall f | f in doc ensures NoticeKey(f.key) && (IsCritical(f.key) ==> Has(payload, f.key)) {
      TrimKeepsShortest(Notice(full, note), limit, doc, f, f);
      NoticeFields(full, note, f);
    }
  }

  lemma OrderIsBulk(
    payload: seq<Field>, limit: nat, cap: nat, bulk: seq<Field>, merged: seq<Field>, order: seq<string>, k: string)
    requires IsMerge(payload, limit, cap, bulk, merged) && multiset(order) == multiset(Keys(bulk)) && k in order
    ensures Has(merged, k) && !IsCritical(k)
  {
    assert k in multiset(order) && k in multiset(Keys(bulk));
    var i :| 0 <= i < |Keys(bulk)| && Keys(bulk)[i] == k;
    assert bulk[i].key == k;
    HasAppend(bulk, Critical(payload, cap), k);
    var used := DocLen(Critical(payload, cap)) + 2;
    MergedKeys(payload, if limit >= used then limit - used else 0, bulk, cap, k);
  }

  lemma WholeKeys(
    payload: seq<Field>, limit: nat, cap: nat, bulk: seq<Field>, merged: seq<Field>, order: seq<string>, n: nat)
    requires IsMerge(payload, limit, cap, bulk, merged) && IsSacrificeOrder(bulk, merged, order) && n <= |order|
    ensures IsWhole(payload, merged, order, n, GivenUp(merged, order, n))
  {
    var doc, used := GivenUp(merged, order, n), DocLen(Critical(payload, cap)) + 2;
    forall k | k in order ensures Has(merged, k) && !IsCritical(k) {
      OrderIsBulk(payload, limit, cap, bulk, merged, order, k);
    }
    forall k
      ensures Has(doc, k) <==> Has(payload, k)
      ensures Get(doc, k) == if k in order[..n] then OmitNotice(k) else Get(merged, k)
    {
      SacrificedKeys(merged, order[..n], k);
      MergedKeys(payload, if limit >= used then limit - used else 0, bulk, cap, k);
    }
  }

  lemma {:induction false} CriticalGet(payload: seq<Field>, cap: nat, k: string)
    requires IsCritical(k)
    ensures Get(Critical(payload, cap), k) == Shrink(Get(payload, k), cap)
  {
    if payload != [] {
      CriticalGet(payload[1..], cap, k);
      var c := Critical(payload, cap);
      if IsCritical(payload[0].key) {
        assert c[1..] == Critical(payload[1..], cap);
      } else {
        assert c == Critical(payload[1..], cap);
      }
    }
  }

  lemma {:induction false} GetAppend(a: seq<Field>, b: seq<Field>, k: string)
    requires !Has(a, k)
    ensures Get(a + b, k) == Get(b, k)
  {
    if a == [] {
      assert a + b == b;
    } else {
      HasTail(a, k);
      GetAppend(a[1..], b, k);
      assert (a + b)[1..] == a[1..] + b;
    }
  }

  /** In a merged document every instruction is the payload's own, with long strings cut at one cap
      and its shape untouched. */
  lemma InstructionsKept(payload: seq<Field>, limit: nat, cap: nat, bulk: seq<Field>, merged: seq<Field>, k: string)
    requires IsMerge(payload, limit, cap, bulk, merged) && IsCritical(k)
    ensures Get(merged, k) == Shrink(Get(payload, k), cap)
    ensures SameShape(Get(payload, k), Get(merged, k)) && StringsWithin(Get(merged, k), cap + 14)
  {
    var used := DocLen(Critical(payload, cap)) + 2;
    MergedKeys(payload, if limit >= used then limit - used else 0, bulk, cap, k);
    GetAppend(bulk, Critical(payload, cap), k);
    CriticalGet(payload, cap, k);
    ShrinkBounds(Get(payload, k), cap);
  }
}
