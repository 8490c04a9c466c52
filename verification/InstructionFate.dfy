/** Which payloads keep their instructions when they are fitted under the limit: an exact condition on
    payload and limit, and a payload that loses them for every limit. */
module InstructionFate {
  import opened JsonSizes
  import opened JsonValues
  import opened PayloadFitter

  ghost predicate DistinctKeys(fields: seq<Field>) {
    forall i, j | 0 <= i < j < |fields| :: fields[i].key != fields[j].key
  }

  /** Every instruction of the payload is in the document, cut only inside long strings. */
  ghost predicate Intact(payload: seq<Field>, cap: nat, doc: seq<Field>) {
    forall k | IsCritical(k) && Has(payload, k) :: Has(doc, k) && Get(doc, k) == Shrink(Get(payload, k), cap)
  }

  ghost predicate IsLight(mark: Field, instructions: seq<Field>) {
    exists f :: f in instructions && Len(mark.value, 1) < Len(f.value, 1)
  }

  function Only(keep: Field -> bool, fields: seq<Field>): seq<Field> {
    if fields == [] then [] else (if keep(fields[0]) then [fields[0]] else []) + Only(keep, fields[1..])
  }

  /** The fields that are shorter than some instruction. */
  ghost function Light(marks: seq<Field>, instructions: seq<Field>): seq<Field> {
    Only(m => IsLight(m, instructions), marks)
  }

  function Marks(note: string): seq<Field> {
    [Field("_payload_truncated", JBool(true)), Field("_note", JStr(note))]
  }

  ghost predicate AllStrings(payload: seq<Field>) {
    forall f | f in payload && IsCritical(f.key) :: f.value.JStr?
  }

  /** The notice can afford the instructions: they are all strings, and they fit together with the
      marks that are shorter than the longest of them. */
  ghost predicate NoticeSpares(payload: seq<Field>, cap: nat, note: string, limit: nat) {
    var instructions := Critical(payload, cap);
    AllStrings(payload)
    && (instructions == [] || DocLen(Light(Marks(note), instructions) + instructions) <= limit)
  }

  /** The document fits after some number of bulk sections is given up. */
  ghost predicate FitsSomehow(merged: seq<Field>, order: seq<string>, limit: nat) {
    exists m :: 0 <= m <= |order| && DocLen(GivenUp(merged, order, m)) <= limit
  }

  // ----- What trimming a notice does to its instructions

  lemma {:induction false} OnlyIsLighter(keep: Field -> bool, cost: Field -> nat, fields: seq<Field>)
    ensures Weight(cost, Only(keep, fields)) <= Weight(cost, fields)
  {
    if fields != [] {
      OnlyIsLighter(keep, cost, fields[1..]);
      WeightAppend(cost, if keep(fields[0]) then [fields[0]] else [], Only(keep, fields[1..]));
    }
  }

  lemma LightIsSmaller(marks: seq<Field>, instructions: seq<Field>)
    ensures DocLen(Light(marks, instructions) + instructions) <= DocLen(marks + instructions)
  {
    var light := Light(marks, instructions);
    OnlyIsLighter(m => IsLight(m, instructions), FieldCost, marks);
    WeightAppend(FieldCost, light, instructions);
    WeightAppend(FieldCost, marks, instructions);
    SizeIsWeight(light + instructions);
    SizeIsWeight(marks + instructions);
  }

  lemma {:induction false} OnlyWithout(keep: Field -> bool, fields: seq<Field>, k: nat)
    requires k < |fields| && !keep(fields[k])
    ensures Only(keep, fields[..k] + fields[k + 1..]) == Only(keep, fields)
  {
    var less := fields[..k] + fields[k + 1..];
    if k == 0 {
      assert less == fields[1..];
    } else {
      OnlyWithout(keep, fields[1..], k - 1);
      assert less[0] == fields[0] && less[1..] == fields[1..][..k - 1] + fields[1..][k..];
    }
  }

  lemma {:induction false} OnlyAll(keep: Field -> bool, fields: seq<Field>)
    requires forall f | f in fields :: keep(f)
    ensures Only(keep, fields) == fields
  {
    if fields != [] { OnlyAll(keep, fields[1..]); }
  }

  lemma DistinctWithout(doc: seq<Field>, k: nat)
    requires DistinctKeys(doc) && k < |doc|
    ensures DistinctKeys(doc[..k] + doc[k + 1..]) && doc[k] !in doc[..k] + doc[k + 1..]
  {
    var less := doc[..k] + doc[k + 1..];
    assert forall i | 0 <= i < |less| :: less[i] == doc[if i < k then i else i + 1];
  }

  ghost predicate ContainsAll(doc: seq<Field>, fields: seq<Field>) {
    forall f | f in fields :: f in doc
  }

  /** The instructions survive the trimming exactly if they fit together with the light marks. */
  lemma {:induction false} TrimSpares(
    steps: seq<seq<Field>>, marks: seq<Field>, instructions: seq<Field>, limit: nat)
    requires DropChain(steps, limit) && steps[0] == marks + instructions && DistinctKeys(steps[0])
    requires DocLen(steps[|steps| - 1]) <= limit || steps[|steps| - 1] == []
    ensures ContainsAll(steps[|steps| - 1], instructions) <==>
              instructions == [] || DocLen(Light(marks, instructions) + instructions) <= limit
    decreases |steps|
  {
    if |steps| == 1 {
      LightIsSmaller(marks, instructions);
    } else {
      ChainTail(steps, limit);
      var k: nat :| IsLongest(steps[0], k) && steps[1] == steps[0][..k] + steps[0][k + 1..];
      DistinctWithout(steps[0], k);
      if k < |marks| {
        MarkDropped(marks, instructions, k);
        TrimSpares(steps[1..], marks[..k] + marks[k + 1..], instructions, limit);
      } else {
        InstructionDropped(steps, marks, instructions, limit, k);
      }
    }
  }

  lemma MarkDropped(marks: seq<Field>, instructions: seq<Field>, k: nat)
    requires k < |marks| && IsLongest(marks + instructions, k)
    ensures (marks + instructions)[..k] + (marks + instructions)[k + 1..]
         == (marks[..k] + marks[k + 1..]) + instructions
    ensures Light(marks[..k] + marks[k + 1..], instructions) == Light(marks, instructions)
  {
    var doc := marks + instructions;
    forall f | f in instructions ensures Len(f.value, 1) <= Len(marks[k].value, 1) {
      var i :| 0 <= i < |instructions| && instructions[i] == f;
      assert doc[|marks| + i] == f && doc[k] == marks[k];
    }
    OnlyWithout(m => IsLight(m, instructions), marks, k);
  }

  lemma InstructionDropped(
    steps: seq<seq<Field>>, marks: seq<Field>, instructions: seq<Field>, limit: nat, k: nat)
    requires DropChain(steps, limit) && |steps| > 1 && steps[0] == marks + instructions && DistinctKeys(steps[0])
    requires |marks| <= k && IsLongest(steps[0], k) && steps[1] == steps[0][..k] + steps[0][k + 1..]
    ensures instructions != [] && DocLen(Light(marks, instructions) + instructions) > limit
    ensures !ContainsAll(steps[|steps| - 1], instructions)
  {
    var f := steps[0][k];
    assert f == instructions[k - |marks|];
    ChainTail(steps, limit);
    forall m | m in marks ensures Len(m.value, 1) < Len(f.value, 1) {
      var i :| 0 <= i < |marks| && marks[i] == m;
      assert steps[0][i] == m;
    }
    OnlyAll(m => IsLight(m, instructions), marks);
    DistinctWithout(steps[0], k);
    if f in steps[|steps| - 1] {
      ChainKeepsShortest(steps[1..], limit, f, f);
      assert false;
    }
  }

  // ----- The notice of a payload

  lemma {:induction false} EachAppend(part: Field -> seq<Field>, a: seq<Field>, b: seq<Field>)
    ensures Each(part, a + b) == Each(part, a) + Each(part, b)
  {
    if a == [] {
      assert a + b == b;
    } else {
      var first, rest, other := part(a[0]), Each(part, a[1..]), Each(part, b);
      assert (a + b)[0] == a[0] && (a + b)[1..] == a[1..] + b;
      EachAppend(part, a[1..], b);
      assert Each(part, a + b) == first + (rest + other);
      assert first + (rest + other) == (first + rest) + other;
    }
  }

  lemma {:induction false} EachNone(part: Field -> seq<Field>, fields: seq<Field>)
    requires forall f | f in fields :: part(f) == []
    ensures Each(part, fields) == []
  {
    if fields != [] { EachNone(part, fields[1..]); }
  }

  lemma {:induction false} EachSet(part: Field -> seq<Field>, doc: seq<Field>, key: string, value: Json)
    requires forall v :: part(Field(key, v)) == []
    ensures Each(part, Set(doc, key, value)) == Each(part, doc)
  {
    if doc == [] {
      assert Set(doc, key, value)[1..] == [];
    } else if doc[0].key == key {
      assert doc[0] == Field(key, doc[0].value);
      assert Set(doc, key, value)[1..] == doc[1..];
    } else {
      EachSet(part, doc[1..], key, value);
      assert Set(doc, key, value)[1..] == Set(doc[1..], key, value);
    }
  }

  lemma {:induction false} InstructionsSacrificed(doc: seq<Field>, keys: seq<string>)
    requires forall k | k in keys :: !IsCritical(k)
    ensures Instructions(Sacrificed(doc, keys)) == Instructions(doc)
  {
    if keys != [] {
      var n := |keys| - 1;
      InstructionsSacrificed(doc, keys[..n]);
      EachSet(InstructionOf, Sacrificed(doc, keys[..n]), keys[n], OmitNotice(keys[n]));
    }
  }

  lemma NoInstructions(fields: seq<Field>)
    requires forall f | f in fields :: !IsCritical(f.key)
    ensures Instructions(fields) == []
  {
    forall f | f in fields ensures InstructionOf(f) == [] { assert !IsCritical(f.key); }
    EachNone(InstructionOf, fields);
  }

  lemma BulkIsNotCritical(payload: seq<Field>, limit: nat, cap: nat, bulk: seq<Field>, merged: seq<Field>)
    requires IsMerge(payload, limit, cap, bulk, merged)
    ensures Instructions(bulk) == []
  {
    var used := DocLen(Critical(payload, cap)) + 2;
    forall f | f in bulk ensures !IsCritical(f.key) {
      var i :| 0 <= i < |bulk| && bulk[i] == f;
      assert Has(bulk, f.key);
      MergedKeys(payload, if limit >= used then limit - used else 0, bulk, cap, f.key);
    }
    NoInstructions(bulk);
  }

  lemma OrderIsNotCritical(
    payload: seq<Field>, limit: nat, cap: nat, bulk: seq<Field>, merged: seq<Field>, order: seq<string>)
    requires IsMerge(payload, limit, cap, bulk, merged) && IsSacrificeOrder(bulk, merged, order)
    ensures Instructions(GivenUp(merged, order, |order|)) == Instructions(merged)
  {
    forall k | k in order ensures !IsCritical(k) {
      OrderIsBulk(payload, limit, cap, bulk, merged, order, k);
    }
    assert order[..|order|] == order;
    InstructionsSacrificed(merged, order);
  }

  /** The notice depends on the instructions of the payload alone. */
  lemma NoticeOfPayload(
    payload: seq<Field>, limit: nat, cap: nat, bulk: seq<Field>, merged: seq<Field>, order: seq<string>, note: string)
    requires IsMerge(payload, limit, cap, bulk, merged) && IsSacrificeOrder(bulk, merged, order)
    ensures Notice(GivenUp(merged, order, |order|), note) == Marks(note) + Instructions(Critical(payload, cap))
  {
    OrderIsNotCritical(payload, limit, cap, bulk, merged, order);
    BulkIsNotCritical(payload, limit, cap, bulk, merged);
    EachAppend(InstructionOf, bulk, Critical(payload, cap));
  }

  /** Strings come through as they are; the keys are those of the instructions. */
  lemma {:induction false} InstructionsOfCritical(fields: seq<Field>)
    requires forall f | f in fields :: IsCritical(f.key)
    ensures |Instructions(fields)| == |fields|
    ensures forall i | 0 <= i < |fields| ::
              Instructions(fields)[i].key == fields[i].key && Instructions(fields)[i].value.JStr?
              && (fields[i].value.JStr? ==> Instructions(fields)[i] == fields[i])
  {
    if fields != [] { InstructionsOfCritical(fields[1..]); }
  }

  lemma {:induction false} CriticalFields(payload: seq<Field>, cap: nat, f: Field)
    requires f in Critical(payload, cap)
    ensures IsCritical(f.key) && exists g :: g in payload && g.key == f.key && f.value == Shrink(g.value, cap)
  {
    var c := Critical(payload, cap);
    if IsCritical(payload[0].key) && f == c[0] {
      assert payload[0] in payload;
    } else {
      assert f in Critical(payload[1..], cap);
      CriticalFields(payload[1..], cap, f);
      var g :| g in payload[1..] && g.key == f.key && f.value == Shrink(g.value, cap);
      assert g in payload;
    }
  }

  lemma {:induction false} CriticalDistinct(payload: seq<Field>, cap: nat)
    requires DistinctKeys(payload)
    ensures DistinctKeys(Critical(payload, cap))
  {
    if payload != [] {
      var rest := payload[1..];
      assert DistinctKeys(rest);
      CriticalDistinct(rest, cap);
      forall f | f in Critical(rest, cap) ensures f.key != payload[0].key {
        CriticalFields(rest, cap, f);
      }
    }
  }

  lemma {:induction false} GetOfField(fields: seq<Field>, f: Field)
    requires DistinctKeys(fields) && f in fields
    ensures Has(fields, f.key) && Get(fields, f.key) == f.value
  {
    var i :| 0 <= i < |fields| && fields[i] == f;
    if i > 0 {
      assert fields[1..][i - 1] == f && fields[0].key != f.key;
      assert DistinctKeys(fields[1..]);
      GetOfField(fields[1..], f);
    }
  }

  lemma {:induction false} FieldOfGet(fields: seq<Field>, k: string)
    requires Has(fields, k)
    ensures Field(k, Get(fields, k)) in fields
  {
    HasTail(fields, k);
    if fields[0].key != k { FieldOfGet(fields[1..], k); }
  }

  /** The instructions as the notice carries them. */
  lemma NoticeInstructions(payload: seq<Field>, cap: nat)
    requires DistinctKeys(payload)
    ensures var c, i := Critical(payload, cap), Instructions(Critical(payload, cap));
            && DistinctKeys(c) && |i| == |c|
            && forall j | 0 <= j < |c| ::
                 i[j].key == c[j].key && i[j].value.JStr? && (c[j].value.JStr? ==> i[j] == c[j])
  {
    CriticalDistinct(payload, cap);
    var c := Critical(payload, cap);
    forall f | f in c ensures IsCritical(f.key) { CriticalFields(payload, cap, f); }
    InstructionsOfCritical(c);
  }

  lemma NoticeDistinct(payload: seq<Field>, cap: nat, note: string)
    requires DistinctKeys(payload)
    ensures DistinctKeys(Marks(note) + Instructions(Critical(payload, cap)))
  {
    var i := Instructions(Critical(payload, cap));
    NoticeInstructions(payload, cap);
    forall f | f in i ensures IsCritical(f.key) {
      var j :| 0 <= j < |i| && i[j] == f;
      CriticalFields(payload, cap, Critical(payload, cap)[j]);
    }
    MarksApart(note, i);
  }

  lemma MarksApart(note: string, i: seq<Field>)
    requires DistinctKeys(i) && forall f | f in i :: IsCritical(f.key)
    ensures DistinctKeys(Marks(note) + i)
  {
    assert !IsCritical("_payload_truncated") && !IsCritical("_note");
    assert "_note"[1] != "_payload_truncated"[1];
    forall j | 0 <= j < |i| ensures i[j].key != "_payload_truncated" && i[j].key != "_note" { assert i[j] in i; }
  }

  lemma {:induction false} CriticalHolds(payload: seq<Field>, cap: nat, g: Field)
    requires g in payload && IsCritical(g.key)
    ensures Field(g.key, Shrink(g.value, cap)) in Critical(payload, cap)
  {
    if g != payload[0] { CriticalHolds(payload[1..], cap, g); }
  }

  /** Only a string shrinks to a string. */
  lemma CriticalStrings(payload: seq<Field>, cap: nat)
    ensures AllStrings(payload) <==> forall f | f in Critical(payload, cap) :: f.value.JStr?
  {
    var c := Critical(payload, cap);
    if AllStrings(payload) {
      forall f | f in c ensures f.value.JStr? { CriticalFields(payload, cap, f); }
    }
    if forall f | f in c :: f.value.JStr? {
      forall g | g in payload && IsCritical(g.key) ensures g.value.JStr? { CriticalHolds(payload, cap, g); }
    }
  }

  lemma KeptIsIntact(payload: seq<Field>, cap: nat, doc: seq<Field>)
    requires DistinctKeys(doc) && ContainsAll(doc, Critical(payload, cap))
    ensures Intact(payload, cap, doc)
  {
    var c := Critical(payload, cap);
    forall k | IsCritical(k) && Has(payload, k)
      ensures Has(doc, k) && Get(doc, k) == Shrink(Get(payload, k), cap)
    {
      SectionsCoverPayload(payload, cap, k);
      CriticalGet(payload, cap, k);
      FieldOfGet(c, k);
      GetOfField(doc, Field(k, Get(c, k)));
    }
  }

  lemma IntactIsKept(payload: seq<Field>, cap: nat, doc: seq<Field>, f: Field)
    requires DistinctKeys(payload) && Intact(payload, cap, doc) && f in Critical(payload, cap)
    ensures f in doc
  {
    CriticalDistinct(payload, cap);
    CriticalFields(payload, cap, f);
    GetOfField(Critical(payload, cap), f);
    SectionsCoverPayload(payload, cap, f.key);
    CriticalGet(payload, cap, f.key);
    FieldOfGet(doc, f.key);
  }

  lemma {:induction false} ChainDistinct(steps: seq<seq<Field>>, limit: nat)
    requires DropChain(steps, limit) && DistinctKeys(steps[0])
    ensures DistinctKeys(steps[|steps| - 1])
    decreases |steps|
  {
    if |steps| > 1 {
      ChainTail(steps, limit);
      var k: nat :| IsLongest(steps[0], k) && steps[1] == steps[0][..k] + steps[0][k + 1..];
      DistinctWithout(steps[0], k);
      ChainDistinct(steps[1..], limit);
    }
  }

  /** In a notice only strings can be intact. */
  lemma NoticeHoldsStrings(payload: seq<Field>, cap: nat, note: string, f: Field)
    requires DistinctKeys(payload) && f in Critical(payload, cap)
    requires f in Marks(note) + Instructions(Critical(payload, cap))
    ensures f.value.JStr?
  {
    var c, i := Critical(payload, cap), Instructions(Critical(payload, cap));
    NoticeInstructions(payload, cap);
    CriticalFields(payload, cap, f);
    assert !IsCritical("_payload_truncated");
    if f in i {
      var j :| 0 <= j < |i| && i[j] == f;
    }
  }

  lemma StringsComeThrough(payload: seq<Field>, cap: nat)
    requires DistinctKeys(payload) && AllStrings(payload)
    ensures Instructions(Critical(payload, cap)) == Critical(payload, cap)
  {
    var c, i := Critical(payload, cap), Instructions(Critical(payload, cap));
    NoticeInstructions(payload, cap);
    CriticalStrings(payload, cap);
    forall j | 0 <= j < |c| ensures i[j] == c[j] { assert c[j] in c; }
  }

  /** The fate of the instructions in a trimmed notice. */
  lemma TrimmedIntactIff(payload: seq<Field>, cap: nat, note: string, limit: nat, doc: seq<Field>)
    requires DistinctKeys(payload)
    requires IsTrimmed(Marks(note) + Instructions(Critical(payload, cap)), limit, doc)
    ensures Intact(payload, cap, doc) <==> NoticeSpares(payload, cap, note, limit)
  {
    var c, notice := Critical(payload, cap), Marks(note) + Instructions(Critical(payload, cap));
    var steps :| DropChain(steps, limit) && steps[0] == notice && steps[|steps| - 1] == doc;
    NoticeDistinct(payload, cap, note);
    ChainDistinct(steps, limit);
    if Intact(payload, cap, doc) {
      forall f | f in c ensures f in doc && f.value.JStr? {
        IntactIsKept(payload, cap, doc, f);
        ChainKeepsShortest(steps, limit, f, f);
        NoticeHoldsStrings(payload, cap, note, f);
      }
      CriticalStrings(payload, cap);
    }
    if AllStrings(payload) {
      StringsComeThrough(payload, cap);
      TrimSpares(steps, Marks(note), c, limit);
      if ContainsAll(doc, c) { KeptIsIntact(payload, cap, doc); }
    }
  }

  /** The fate of the instructions in a document that fits. */
  lemma WholeIsIntact(
    payload: seq<Field>, limit: nat, cap: nat, bulk: seq<Field>, merged: seq<Field>,
    order: seq<string>, n: nat, doc: seq<Field>)
    requires IsMerge(payload, limit, cap, bulk, merged) && IsWhole(payload, merged, order, n, doc)
    ensures Intact(payload, cap, doc)
  {
    forall k | IsCritical(k) && Has(payload, k)
      ensures Has(doc, k) && Get(doc, k) == Shrink(Get(payload, k), cap)
    {
      InstructionsKept(payload, limit, cap, bulk, merged, k);
    }
  }

  lemma NoticeIntactIff(
    payload: seq<Field>, limit: nat, note: string, cap: nat, bulk: seq<Field>, merged: seq<Field>,
    order: seq<string>, doc: seq<Field>)
    requires DistinctKeys(payload) && IsMerge(payload, limit, cap, bulk, merged)
    requires IsSacrificeOrder(bulk, merged, order)
    requires IsTrimmed(Notice(GivenUp(merged, order, |order|), note), limit, doc)
    ensures Intact(payload, cap, doc) <==> NoticeSpares(payload, cap, note, limit)
  {
    NoticeOfPayload(payload, limit, cap, bulk, merged, order, note);
    TrimmedIntactIff(payload, cap, note, limit, doc);
  }

  lemma NeverFits(merged: seq<Field>, order: seq<string>, limit: nat, n: nat)
    requires n == |order| && DocLen(GivenUp(merged, order, n)) > limit
    requires forall m | 0 <= m < n :: DocLen(GivenUp(merged, order, m)) > limit
    ensures !FitsSomehow(merged, order, limit)
  {
  }

  /** All instructions come through, cut only inside long strings, exactly if the document fits
      after some number of bulk sections is given up, or the notice can afford them. */
  lemma InstructionsSurviveIff(
    payload: seq<Field>, limit: nat, note: string, cap: nat, bulk: seq<Field>, merged: seq<Field>,
    order: seq<string>, n: nat, doc: seq<Field>)
    requires DistinctKeys(payload) && IsBounded(payload, limit, note, cap, bulk, merged, order, n, doc)
    ensures Intact(payload, cap, doc) <==>
              FitsSomehow(merged, order, limit) || NoticeSpares(payload, cap, note, limit)
  {
    if DocLen(GivenUp(merged, order, n)) <= limit {
      WholeIsIntact(payload, limit, cap, bulk, merged, order, n, doc);
    } else {
      NeverFits(merged, order, limit, n);
      NoticeIntactIff(payload, limit, note, cap, bulk, merged, order, doc);
    }
  }

  /** A single instruction: a list with that many entries. */
  function LongList(n: nat): seq<Field> {
    [Field("requirements", JList(seq(n, _ => JNull)))]
  }

  lemma {:induction false} NullsLen(n: nat)
    ensures ItemsLen(seq(n, _ => JNull), 0) >= n
  {
    if n > 0 {
      var items := seq(n, _ => JNull);
      assert items[1..] == seq(n - 1, _ => JNull);
      NullsLen(n - 1);
    }
  }

  lemma {:induction false} NullsShrink(n: nat, cap: nat)
    ensures ShrinkItems(seq(n, _ => JNull), cap) == seq(n, _ => JNull)
  {
    if n > 0 {
      var items := seq(n, _ => JNull);
      assert items[1..] == seq(n - 1, _ => JNull) && items[0] == JNull;
      NullsShrink(n - 1, cap);
      assert [JNull] + items[1..] == items;
    }
  }

  lemma {:induction false} OnlyInstructions(payload: seq<Field>, cap: nat)
    requires forall f | f in payload :: IsCritical(f.key) && Shrink(f.value, cap) == f.value
    ensures Critical(payload, cap) == payload && Others(payload) == []
  {
    if payload != [] {
      OnlyInstructions(payload[1..], cap);
      assert payload[0] in payload;
      assert payload == [payload[0]] + payload[1..];
    }
  }

  /** A payload of instructions alone has no bulk sections to give up. */
  lemma InstructionsAlone(
    payload: seq<Field>, limit: nat, cap: nat, bulk: seq<Field>, merged: seq<Field>, order: seq<string>)
    requires IsMerge(payload, limit, cap, bulk, merged) && multiset(order) == multiset(Keys(bulk))
    requires Critical(payload, cap) == payload && Others(payload) == []
    ensures bulk == [] && order == [] && merged == payload && GivenUp(merged, order, 0) == payload
  {
    assert |order| == |multiset(order)| == |multiset(Keys(bulk))| == |Keys(bulk)|;
    assert merged == [] + payload;
  }

  lemma LongListAlone(limit: nat, cap: nat)
    ensures Critical(LongList(limit), cap) == LongList(limit) && Others(LongList(limit)) == []
  {
    NullsShrink(limit, cap);
    assert IsCritical("requirements");
    OnlyInstructions(LongList(limit), cap);
  }

  lemma LongListIsLong(limit: nat)
    ensures DocLen(LongList(limit)) > limit && !AllStrings(LongList(limit)) && DistinctKeys(LongList(limit))
  {
    NullsLen(limit);
    var f := LongList(limit)[0];
    assert IsCritical(f.key) && f in LongList(limit);
    SizeIsWeight(LongList(limit));
    assert FieldCost(f) >= limit;
  }

  /** Whatever the limit, there is a payload whose only instruction does not come through: a list
      of requirements with as many entries as the limit has characters. */
  lemma LongListIsLost(
    limit: nat, note: string, cap: nat, bulk: seq<Field>, merged: seq<Field>,
    order: seq<string>, n: nat, doc: seq<Field>)
    requires IsBounded(LongList(limit), limit, note, cap, bulk, merged, order, n, doc)
    ensures !Intact(LongList(limit), cap, doc)
  {
    LongListAlone(limit, cap);
    LongListIsLong(limit);
    InstructionsAlone(LongList(limit), limit, cap, bulk, merged, order);
    NeverFits(merged, order, limit, 0);
    InstructionsSurviveIff(LongList(limit), limit, note, cap, bulk, merged, order, n, doc);
  }
}
