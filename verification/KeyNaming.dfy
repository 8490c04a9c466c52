/** Which keys of a payload are still named in the fitted document, as a section, a notice about it
    or a mark: an exact condition for every key, and a payload whose instructions vanish. */
module KeyNaming {
  import opened Basics
  import opened JsonSizes
  import opened JsonValues
  import opened PayloadFitter
  import opened InstructionFate

  function ShorterThan(f: Field): Field -> bool {
    (g: Field) => Len(g.value, 1) < Len(f.value, 1)
  }

  function NoLongerThan(f: Field): Field -> bool {
    (g: Field) => Len(g.value, 1) <= Len(f.value, 1)
  }

  /** What is left of a notice when everything is dropped that is dropped before field r. */
  ghost function Rest(doc: seq<Field>, r: nat): seq<Field>
    requires r < |doc|
  {
    Only(ShorterThan(doc[r]), doc[..r])
    + Only(NoLongerThan(doc[r]), doc[r..])
  }

  lemma RestIsSmaller(doc: seq<Field>, r: nat)
    requires r < |doc|
    ensures DocLen(Rest(doc, r)) <= DocLen(doc)
  {
    var f := doc[r];
    var a := Only(ShorterThan(f), doc[..r]);
    var b := Only(NoLongerThan(f), doc[r..]);
    OnlyIsLighter(ShorterThan(f), FieldCost, doc[..r]);
    OnlyIsLighter(NoLongerThan(f), FieldCost, doc[r..]);
    WeightAppend(FieldCost, a, b);
    WeightAppend(FieldCost, doc[..r], doc[r..]);
    assert doc == doc[..r] + doc[r..];
    SizeIsWeight(a + b);
    SizeIsWeight(doc);
  }

  lemma ShorterBefore(doc: seq<Field>, r: nat)
    requires IsLongest(doc, r)
    ensures Only(ShorterThan(doc[r]), doc[..r]) == doc[..r]
  {
    var f, a := doc[r], doc[..r];
    forall g | g in a ensures ShorterThan(f)(g) {
      var i :| 0 <= i < r && a[i] == g;
      assert doc[i] == g;
    }
    OnlyAll(ShorterThan(f), a);
  }

  lemma NoLongerAfter(doc: seq<Field>, r: nat)
    requires IsLongest(doc, r)
    ensures Only(NoLongerThan(doc[r]), doc[r..]) == doc[r..]
  {
    var f, b := doc[r], doc[r..];
    forall g | g in b ensures NoLongerThan(f)(g) {
      var i :| 0 <= i < |b| && b[i] == g;
      assert doc[r + i] == g;
    }
    OnlyAll(NoLongerThan(f), b);
  }

  /** Nothing is dropped before the first longest field. */
  lemma RestOfLongest(doc: seq<Field>, r: nat)
    requires IsLongest(doc, r)
    ensures Rest(doc, r) == doc
  {
    ShorterBefore(doc, r);
    NoLongerAfter(doc, r);
    assert doc == doc[..r] + doc[r..];
  }

  lemma SliceBefore(doc: seq<Field>, k: nat, r: nat)
    requires k < r < |doc|
    ensures var less := doc[..k] + doc[k + 1..];
            less[..r - 1] == doc[..r][..k] + doc[..r][k + 1..] && less[r - 1..] == doc[r..] && less[r - 1] == doc[r]
  {
  }

  lemma SliceAfter(doc: seq<Field>, k: nat, r: nat)
    requires r < k < |doc|
    ensures var less := doc[..k] + doc[k + 1..];
            less[..r] == doc[..r] && less[r..] == doc[r..][..k - r] + doc[r..][k - r + 1..] && less[r] == doc[r]
  {
    var less, tail := doc[..k] + doc[k + 1..], doc[r..];
    assert |less| == |doc| - 1;
    assert less[r..] == tail[..k - r] + tail[k - r + 1..];
  }

  /** Dropping the first longest field changes nothing for the others. */
  lemma RestWithoutLongest(doc: seq<Field>, k: nat, r: nat)
    requires IsLongest(doc, k) && r < |doc| && r != k
    ensures var less, r' := doc[..k] + doc[k + 1..], if k < r then r - 1 else r;
            r' < |less| && less[r'] == doc[r] && Rest(less, r') == Rest(doc, r)
  {
    if k < r {
      SliceBefore(doc, k, r);
      OnlyWithout(ShorterThan(doc[r]), doc[..r], k);
    } else {
      SliceAfter(doc, k, r);
      OnlyWithout(NoLongerThan(doc[r]), doc[r..], k - r);
    }
  }

  /** A field survives the trimming exactly if what is left when its turn comes fits. */
  lemma {:induction false} FieldSurvivesIff(steps: seq<seq<Field>>, limit: nat, r: nat)
    requires DropChain(steps, limit) && DistinctKeys(steps[0]) && r < |steps[0]|
    requires DocLen(steps[|steps| - 1]) <= limit || steps[|steps| - 1] == []
    ensures steps[0][r] in steps[|steps| - 1] <==> DocLen(Rest(steps[0], r)) <= limit
    decreases |steps|
  {
    if |steps| == 1 {
      RestIsSmaller(steps[0], r);
    } else {
      ChainTail(steps, limit);
      var k: nat :| IsLongest(steps[0], k) && steps[1] == steps[0][..k] + steps[0][k + 1..];
      DistinctWithout(steps[0], k);
      if k == r {
        RestOfLongest(steps[0], r);
        GoneForGood(steps, limit, steps[0][r]);
      } else {
        RestWithoutLongest(steps[0], k, r);
        FieldSurvivesIff(steps[1..], limit, if k < r then r - 1 else r);
      }
    }
  }

  lemma GoneForGood(steps: seq<seq<Field>>, limit: nat, f: Field)
    requires DropChain(steps, limit) && |steps| > 1 && f !in steps[1]
    ensures f !in steps[|steps| - 1]
  {
    ChainTail(steps, limit);
    if f in steps[|steps| - 1] {
      ChainKeepsShortest(steps[1..], limit, f, f);
      assert false;
    }
  }

  /** The document has a field for the key, and trimming it never reaches that field. */
  ghost predicate Spared(doc: seq<Field>, limit: nat, k: string) {
    exists r :: 0 <= r < |doc| && doc[r].key == k && DocLen(Rest(doc, r)) <= limit
  }

  lemma TrimmingNamesIff(steps: seq<seq<Field>>, limit: nat, k: string)
    requires DropChain(steps, limit) && DistinctKeys(steps[0])
    requires DocLen(steps[|steps| - 1]) <= limit || steps[|steps| - 1] == []
    ensures Has(steps[|steps| - 1], k) <==> Spared(steps[0], limit, k)
  {
    var notice, doc := steps[0], steps[|steps| - 1];
    if Has(doc, k) {
      var i :| 0 <= i < |doc| && doc[i].key == k;
      ChainKeepsShortest(steps, limit, doc[i], doc[i]);
      var r :| 0 <= r < |notice| && notice[r] == doc[i];
      FieldSurvivesIff(steps, limit, r);
    }
    if Spared(notice, limit, k) {
      var r :| 0 <= r < |notice| && notice[r].key == k && DocLen(Rest(notice, r)) <= limit;
      FieldSurvivesIff(steps, limit, r);
      var i :| 0 <= i < |doc| && doc[i] == notice[r];
      assert doc[i].key == k;
    }
  }

  ghost predicate NoticeNames(payload: seq<Field>, cap: nat, note: string, limit: nat, k: string) {
    Spared(Marks(note) + Instructions(Critical(payload, cap)), limit, k)
  }

  lemma TrimmedNamesIff(payload: seq<Field>, cap: nat, note: string, limit: nat, doc: seq<Field>, k: string)
    requires DistinctKeys(payload)
    requires IsTrimmed(Marks(note) + Instructions(Critical(payload, cap)), limit, doc)
    ensures Has(doc, k) <==> NoticeNames(payload, cap, note, limit, k)
  {
    var notice := Marks(note) + Instructions(Critical(payload, cap));
    var steps :| DropChain(steps, limit) && steps[0] == notice && steps[|steps| - 1] == doc;
    NoticeDistinct(payload, cap, note);
    TrimmingNamesIff(steps, limit, k);
  }

  /** A key of the payload is named in the document exactly if the document fits after some number
      of bulk sections is given up, or the notice has a field for it that trimming never reaches. */
  lemma KeyNamedIff(
    payload: seq<Field>, limit: nat, note: string, cap: nat, bulk: seq<Field>, merged: seq<Field>,
    order: seq<string>, n: nat, doc: seq<Field>, k: string)
    requires DistinctKeys(payload) && IsBounded(payload, limit, note, cap, bulk, merged, order, n, doc)
    requires Has(payload, k)
    ensures Has(doc, k) <==> FitsSomehow(merged, order, limit) || NoticeNames(payload, cap, note, limit, k)
  {
    if DocLen(GivenUp(merged, order, n)) > limit {
      NeverFits(merged, order, limit, n);
      NoticeOfPayload(payload, limit, cap, bulk, merged, order, note);
      TrimmedNamesIff(payload, cap, note, limit, doc, k);
    }
  }

  /** In a notice no section outside the instructions is named at all. */
  lemma BulkIsNotNamed(payload: seq<Field>, cap: nat, note: string, limit: nat, k: string)
    requires !NoticeKey(k) && DistinctKeys(payload)
    ensures !NoticeNames(payload, cap, note, limit, k)
  {
    var i := Instructions(Critical(payload, cap));
    NoticeInstructions(payload, cap);
    forall j | 0 <= j < |i| ensures i[j].key != k {
      CriticalFields(payload, cap, Critical(payload, cap)[j]);
    }
  }

  ghost predicate InstructionsNamed(payload: seq<Field>, doc: seq<Field>) {
    forall k | IsCritical(k) && Has(payload, k) :: Has(doc, k)
  }

  /** The notice can afford a field for every instruction, be it the string or its mark. */
  ghost predicate NoticeNamesAll(payload: seq<Field>, cap: nat, note: string, limit: nat) {
    var i := Instructions(Critical(payload, cap));
    i == [] || DocLen(Light(Marks(note), i) + i) <= limit
  }

  /** The fields of the notice and the instructions of the payload have the same keys. */
  lemma NoticeKeys(payload: seq<Field>, cap: nat, k: string)
    requires DistinctKeys(payload)
    ensures Has(Instructions(Critical(payload, cap)), k) <==> IsCritical(k) && Has(payload, k)
  {
    var c, i := Critical(payload, cap), Instructions(Critical(payload, cap));
    NoticeInstructions(payload, cap);
    SameKeysHas(i, c, k);
    SectionsCoverPayload(payload, cap, k);
  }

  lemma KeptIsNamed(payload: seq<Field>, cap: nat, note: string, doc: seq<Field>)
    requires DistinctKeys(payload) && ContainsAll(Marks(note) + Instructions(Critical(payload, cap)), doc)
    ensures ContainsAll(doc, Instructions(Critical(payload, cap))) <==> InstructionsNamed(payload, doc)
  {
    var i := Instructions(Critical(payload, cap));
    var notice := Marks(note) + i;
    if ContainsAll(doc, i) {
      forall k | IsCritical(k) && Has(payload, k) ensures Has(doc, k) {
        NoticeKeys(payload, cap, k);
        FieldOfGet(i, k);
        var j :| 0 <= j < |doc| && doc[j] == Field(k, Get(i, k));
        assert doc[j].key == k;
      }
    }
    if InstructionsNamed(payload, doc) {
      NoticeDistinct(payload, cap, note);
      forall f | f in i ensures f in doc {
        var j :| 0 <= j < |i| && i[j] == f;
        assert i[j].key == f.key;
        NoticeKeys(payload, cap, f.key);
        var m :| 0 <= m < |doc| && doc[m].key == f.key;
        GetOfField(notice, doc[m]);
        assert f in notice;
        GetOfField(notice, f);
      }
    }
  }

  lemma TrimmedNamesAllIff(payload: seq<Field>, cap: nat, note: string, limit: nat, doc: seq<Field>)
    requires DistinctKeys(payload)
    requires IsTrimmed(Marks(note) + Instructions(Critical(payload, cap)), limit, doc)
    ensures InstructionsNamed(payload, doc) <==> NoticeNamesAll(payload, cap, note, limit)
  {
    var i := Instructions(Critical(payload, cap));
    var notice := Marks(note) + i;
    var steps :| DropChain(steps, limit) && steps[0] == notice && steps[|steps| - 1] == doc;
    NoticeDistinct(payload, cap, note);
    TrimSpares(steps, Marks(note), i, limit);
    forall f | f in doc ensures f in notice { ChainKeepsShortest(steps, limit, f, f); }
    KeptIsNamed(payload, cap, note, doc);
  }

  /** All instructions are named in the document, as they are or by a mark, exactly if the document
      fits after some number of bulk sections is given up, or the notice can afford all of them. */
  lemma InstructionsNamedIff(
    payload: seq<Field>, limit: nat, note: string, cap: nat, bulk: seq<Field>, merged: seq<Field>,
    order: seq<string>, n: nat, doc: seq<Field>)
    requires DistinctKeys(payload) && IsBounded(payload, limit, note, cap, bulk, merged, order, n, doc)
    ensures InstructionsNamed(payload, doc) <==>
              FitsSomehow(merged, order, limit) || NoticeNamesAll(payload, cap, note, limit)
  {
    if DocLen(GivenUp(merged, order, n)) > limit {
      NeverFits(merged, order, limit, n);
      NoticeOfPayload(payload, limit, cap, bulk, merged, order, note);
      TrimmedNamesAllIff(payload, cap, note, limit, doc);
    }
  }

  /** Everything is named, for a payload that does not use the two names of the marks: exactly if
      the document fits somehow, or there are only instructions and the notice can afford them. */
  lemma AllNamedIff(
    payload: seq<Field>, limit: nat, note: string, cap: nat, bulk: seq<Field>, merged: seq<Field>,
    order: seq<string>, n: nat, doc: seq<Field>)
    requires DistinctKeys(payload) && IsBounded(payload, limit, note, cap, bulk, merged, order, n, doc)
    requires forall k | Has(payload, k) :: NoticeKey(k) ==> IsCritical(k)
    ensures (forall k | Has(payload, k) :: Has(doc, k)) <==>
              || FitsSomehow(merged, order, limit)
              || ((forall k | Has(payload, k) :: IsCritical(k)) && NoticeNamesAll(payload, cap, note, limit))
  {
    InstructionsNamedIff(payload, limit, note, cap, bulk, merged, order, n, doc);
    forall k | Has(payload, k) && !IsCritical(k) ensures Has(doc, k) <==> FitsSomehow(merged, order, limit) {
      KeyNamedIff(payload, limit, note, cap, bulk, merged, order, n, doc, k);
      BulkIsNotNamed(payload, cap, note, limit, k);
    }
    if FitsSomehow(merged, order, limit) {
      forall k | Has(payload, k) ensures Has(doc, k) {
        KeyNamedIff(payload, limit, note, cap, bulk, merged, order, n, doc, k);
      }
    }
  }

  // ----- A payload whose instructions vanish

  const WIDE: char := '\U{1F600}'

  /** A thousand characters that take twelve each. */
  function WideText(n: nat): string {
    seq(n, _ => WIDE)
  }

  lemma {:induction false} WideLen(n: nat)
    ensures CharsLen(WideText(n)) == 12 * n
  {
    if n > 0 {
      assert WideText(n)[1..] == WideText(n - 1);
      WideLen(n - 1);
    }
  }

  /** Four instructions with the same text. */
  function FourFields(text: Json): seq<Field> {
    [Field("requirements", text), Field("task_type", text), Field("agent_role", text),
     Field("acceptance_criteria", text)]
  }

  /** Each text is as long as the smallest cap allows. */
  function FourTexts(): seq<Field> {
    FourFields(JStr(WideText(MIN_CRITICAL_VALUE_CHARS)))
  }

  lemma FourKeys(text: Json)
    ensures DistinctKeys(FourFields(text))
  {
    assert "requirements"[0] == 'r' && "task_type"[0] == 't';
    assert "agent_role"[0] == 'a' && "agent_role"[1] == 'g' && "acceptance_criteria"[1] == 'c';
  }

  lemma FourInstructions(text: Json, cap: nat)
    requires text.JStr? && |text.s| <= cap
    ensures AllStrings(FourFields(text))
    ensures Critical(FourFields(text), cap) == FourFields(text) && Others(FourFields(text)) == []
  {
    assert IsCritical("requirements") && IsCritical("task_type");
    assert IsCritical("agent_role") && IsCritical("acceptance_criteria");
    OnlyInstructions(FourFields(text), cap);
  }

  lemma {:induction false} WeightAtLeast(cost: Field -> nat, fields: seq<Field>, each: nat)
    requires forall f | f in fields :: cost(f) >= each
    ensures Weight(cost, fields) >= Multiple(|fields|, each)
  {
    if fields != [] {
      WeightAtLeast(cost, fields[1..], each);
      assert fields[0] in fields;
    }
  }

  lemma FourTextsAreLong()
    ensures DocLen(FourTexts()) > 48000
  {
    var text := JStr(WideText(MIN_CRITICAL_VALUE_CHARS));
    WideLen(MIN_CRITICAL_VALUE_CHARS);
    assert Len(text, 0) == 12002;
    forall f | f in FourTexts() ensures FieldCost(f) >= 12006 { assert f.value == text; }
    WeightAtLeast(FieldCost, FourTexts(), 12006);
    MultipleIsProduct(4, 12006);
    SizeIsWeight(FourTexts());
  }

  /** At the limit that the program uses, and below, there is a payload one of whose instructions
      is in the result neither as it is nor by a mark. */
  lemma InstructionVanishes(
    limit: nat, note: string, cap: nat, bulk: seq<Field>, merged: seq<Field>,
    order: seq<string>, n: nat, doc: seq<Field>)
    requires limit <= 48000 && IsBounded(FourTexts(), limit, note, cap, bulk, merged, order, n, doc)
    ensures exists k :: IsCritical(k) && Has(FourTexts(), k) && !Has(doc, k)
  {
    var payload := FourTexts();
    FourKeys(JStr(WideText(MIN_CRITICAL_VALUE_CHARS)));
    FourInstructions(JStr(WideText(MIN_CRITICAL_VALUE_CHARS)), cap);
    FourTextsAreLong();
    InstructionsAlone(payload, limit, cap, bulk, merged, order);
    NeverFits(merged, order, limit, 0);
    StringsComeThrough(payload, cap);
    LightIsExtra(Marks(note), payload);
    InstructionsNamedIff(payload, limit, note, cap, bulk, merged, order, n, doc);
  }

  lemma LightIsExtra(marks: seq<Field>, instructions: seq<Field>)
    requires instructions != []
    ensures DocLen(Light(marks, instructions) + instructions) >= DocLen(instructions)
  {
    var light := Light(marks, instructions);
    WeightAppend(FieldCost, light, instructions);
    SizeIsWeight(light + instructions);
    SizeIsWeight(instructions);
  }
}
