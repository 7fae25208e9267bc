/**
 * The entry decomposer (`parse_entry`): runs the meaning resolver and the
 * example flattener over each direct-child sense of an entry, the form
 * extractor over its lexical unit and each of its variant form-sets with one
 * shared counter, merges the variant descriptors indexed under the entry's
 * `guid`, and assembles the morpheme.
 */
module Entries {
  import opened LiftTree
  import opened Records
  import opened Variants
  import opened Meanings
  import opened Examples
  import opened Forms

  // ---------------------------------------------------------------------------
  // The sense loop (lines 97-111)

  /** A sense as the source records it (lines 104-108). */
  datatype Sense = Sense(id: string, description: string, entryId: string)

  /** The sense as a table row. */
  function SenseRow(s: Sense): Record
  {
    map["ID" := Str(s.id), "Description" := Str(s.description), "Entry_ID" := Str(s.entryId)]
  }

  /** What the sense loop has built so far: the grammatical categories, the
      accumulator, and the shared sense and example lists. */
  datatype SenseState = SenseState(poses: seq<string>, fields: Fields, senses: seq<Sense>, examples: seq<Record>)

  /** One iteration of the sense loop, or the first KeyError it raises. */
  function SenseStep(st: SenseState, sense: Node, entryId: string, sep: string, slug: string -> string): Result<SenseState>
  {
    var gis := FindAll(sense, "grammatical-info");
    if !AllHave(gis, "value") then Fail(MissingAttribute("value"))
    else if "id" !in sense.attrs then Fail(MissingAttribute("id"))
    else
      var id := sense.attrs["id"];
      match Meanings.Meanings(sense, Push(st.fields, "Parameter_ID", id), sep)
      case Fail(e) => Fail(e)
      case Ok(m) =>
        match Extended(st.examples, FindAll(sense, "example"), entryId, slug)
        case Fail(e) => Fail(e)
        case Ok(exs) =>
          Ok(SenseState(st.poses + AttrValues(gis, "value"), m.fields, st.senses + [Sense(id, m.description, entryId)], exs))
  }

  /** The state after the sense loop has run over `ss`, or the first error. */
  function SensePass(ss: seq<Node>, st: SenseState, entryId: string, sep: string, slug: string -> string): Result<SenseState>
  {
    if ss == [] then Ok(st)
    else match SensePass(ss[..|ss| - 1], st, entryId, sep, slug)
      case Fail(e) => Fail(e)
      case Ok(before) => SenseStep(before, ss[|ss| - 1], entryId, sep, slug)
  }

  lemma {:induction false} SensePassFailSticks(ss: seq<Node>, more: seq<Node>, st: SenseState, entryId: string, sep: string, slug: string -> string)
    requires SensePass(ss, st, entryId, sep, slug).Fail?
    ensures SensePass(ss + more, st, entryId, sep, slug) == SensePass(ss, st, entryId, sep, slug)
  {
    if more == [] {
      assert ss + more == ss;
    } else {
      assert (ss + more)[..|ss + more| - 1] == ss + more[..|more| - 1];
      SensePassFailSticks(ss, more[..|more| - 1], st, entryId, sep, slug);
    }
  }

  lemma SensePassStep(ss: seq<Node>, i: nat, st: SenseState, entryId: string, sep: string, slug: string -> string)
    requires i < |ss| && SensePass(ss[..i], st, entryId, sep, slug).Ok?
    ensures SensePass(ss[..i + 1], st, entryId, sep, slug)
         == SenseStep(SensePass(ss[..i], st, entryId, sep, slug).value, ss[i], entryId, sep, slug)
  {
    assert ss[..i + 1][..i] == ss[..i];
  }

  lemma SensePassFailsAt(ss: seq<Node>, i: nat, st: SenseState, entryId: string, sep: string, slug: string -> string)
    requires i < |ss| && SensePass(ss[..i + 1], st, entryId, sep, slug).Fail?
    ensures SensePass(ss, st, entryId, sep, slug) == SensePass(ss[..i + 1], st, entryId, sep, slug)
  {
    SensePassFailSticks(ss[..i + 1], ss[i + 1..], st, entryId, sep, slug);
    assert ss[..i + 1] + ss[i + 1..] == ss;
  }

  /** One iteration of the sense loop (lines 99-111). */
  method ParseSense(sense: Node, st: SenseState, entryId: string, sep: string, slug: string -> string)
    returns (res: Result<SenseState>)
    ensures res == SenseStep(st, sense, entryId, sep, slug)
  {
    var gis := FindAll(sense, "grammatical-info");
    var poses := st.poses;
    for i := 0 to |gis|
      invariant AllHave(gis[..i], "value")
      invariant poses == st.poses + AttrValues(gis[..i], "value")
    {
      if "value" !in gis[i].attrs {
        return Fail(MissingAttribute("value"));
      }
      assert gis[..i + 1][..i] == gis[..i];
      poses := poses + [gis[i].attrs["value"]];
    }
    assert gis[..|gis|] == gis;
    if "id" !in sense.attrs {
      return Fail(MissingAttribute("id"));
    }
    var fields := st.fields;
    fields := fields["Parameter_ID" := Get(fields, "Parameter_ID") + [sense.attrs["id"]]];
    var meaning := ExtractMeanings(sense, fields, sep);
    if meaning.Fail? {
      return Fail(meaning.error);
    }
    var senses := st.senses + [Sense(sense.attrs["id"], meaning.value.description, entryId)];
    var examples := ExtractExamples(sense, st.examples, entryId, slug);
    if examples.Fail? {
      return Fail(examples.error);
    }
    res := Ok(SenseState(poses, meaning.value.fields, senses, examples.value));
  }

  /** The sense loop of lines 97-111. */
  method ParseSenses(ss: seq<Node>, st0: SenseState, entryId: string, sep: string, slug: string -> string)
    returns (res: Result<SenseState>)
    ensures res == SensePass(ss, st0, entryId, sep, slug)
  {
    var st := st0;
    for i := 0 to |ss|
      invariant SensePass(ss[..i], st0, entryId, sep, slug) == Ok(st)
    {
      SensePassStep(ss, i, st0, entryId, sep, slug);
      var next := ParseSense(ss[i], st, entryId, sep, slug);
      if next.Fail? {
        SensePassFailsAt(ss, i, st0, entryId, sep, slug);
        return next;
      }
      st := next.value;
    }
    assert ss[..|ss|] == ss;
    res := Ok(st);
  }

  /** The senses recorded for the sense elements `ss` of entry `entryId`, in
      order: each element's `id`, its description, and the entry. */
  function SenseRecords(ss: seq<Node>, entryId: string, sep: string): (r: seq<Sense>)
    requires AllHave(ss, "id")
    ensures |r| == |ss|
  {
    if ss == [] then []
    else
      var last := ss[|ss| - 1];
      SenseRecords(ss[..|ss| - 1], entryId, sep) + [Sense(last.attrs["id"], Description(last, sep), entryId)]
  }

  lemma {:induction false} SenseRecordAt(ss: seq<Node>, entryId: string, sep: string, k: nat)
    requires AllHave(ss, "id") && k < |ss|
    ensures SenseRecords(ss, entryId, sep)[k] == Sense(ss[k].attrs["id"], Description(ss[k], sep), entryId)
  {
    if k < |ss| - 1 {
      SenseRecordAt(ss[..|ss| - 1], entryId, sep, k);
    }
  }

  /** Every `grammatical-info` under each of the senses has a `value`. */
  predicate GrammTagged(ss: seq<Node>)
  {
    forall i :: 0 <= i < |ss| ==> AllHave(FindAll(ss[i], "grammatical-info"), "value")
  }

  /** The `value` of every `grammatical-info` under the senses, sense by
      sense and in document order within each. */
  function Poses(ss: seq<Node>): seq<string>
    requires GrammTagged(ss)
  {
    if ss == [] then []
    else Poses(ss[..|ss| - 1]) + AttrValues(FindAll(ss[|ss| - 1], "grammatical-info"), "value")
  }

  lemma {:induction false} TextsUnderOtherKey(ns: seq<Node>, prefix: string, k: string)
    requires AllHave(ns, "lang") && !HasPrefix(k, prefix)
    ensures TextsUnder(ns, prefix, k) == []
  {
    if ns != [] {
      TextsUnderOtherKey(ns[..|ns| - 1], prefix, k);
      var key := prefix + ns[|ns| - 1].attrs["lang"];
      assert key[..|prefix|] == prefix;
    }
  }

  /** One sense step adds exactly one sense, carrying the element's `id`,
      its description and the entry's `guid`; it appends the values of the
      sense's grammatical-info elements to the categories; and it keeps the
      examples already there. */
  lemma SenseStepLists(st: SenseState, sense: Node, entryId: string, sep: string, slug: string -> string)
    requires SenseStep(st, sense, entryId, sep, slug).Ok?
    ensures var st' := SenseStep(st, sense, entryId, sep, slug).value;
      var gis := FindAll(sense, "grammatical-info");
      && "id" in sense.attrs
      && st'.senses == st.senses + [Sense(sense.attrs["id"], Description(sense, sep), entryId)]
      && AllHave(gis, "value")
      && st'.poses == st.poses + AttrValues(gis, "value")
      && st.examples <= st'.examples
  {
  }

  /** One sense step files exactly the sense's `id` under `Parameter_ID` (the
      gloss and definition columns never collide with it) and keeps the
      accumulator's keys to the accumulator's kinds. */
  lemma SenseStepFields(st: SenseState, sense: Node, entryId: string, sep: string, slug: string -> string)
    requires AccumulatorKeys(st.fields)
    requires SenseStep(st, sense, entryId, sep, slug).Ok?
    ensures var st' := SenseStep(st, sense, entryId, sep, slug).value;
      && "id" in sense.attrs
      && Get(st'.fields, "Parameter_ID") == Get(st.fields, "Parameter_ID") + [sense.attrs["id"]]
      && AccumulatorKeys(st'.fields)
  {
    var id := sense.attrs["id"];
    var f1 := Push(st.fields, "Parameter_ID", id);
    assert AccumulatorKeys(f1);
    MeaningsContents(sense, f1, sep);
    var gs, ds := Glosses(sense), DefinitionForms(sense);
    assert !HasPrefix("Parameter_ID", "gloss_") by { assert "Parameter_ID"[0] != "gloss_"[0]; }
    assert !HasPrefix("Parameter_ID", "definition_") by { assert "Parameter_ID"[0] != "definition_"[0]; }
    TextsUnderOtherKey(gs, "gloss_", "Parameter_ID");
    TextsUnderOtherKey(ds, "definition_", "Parameter_ID");
  }

  /** The sense loop adds one sense per direct-child sense element, in order,
      each with that element's `id`, its description and the entry's `guid`;
      it gathers the senses' grammatical categories in order; and it keeps
      the examples already there. */
  lemma {:induction false} SensePassLists(ss: seq<Node>, st: SenseState, entryId: string, sep: string, slug: string -> string)
    requires SensePass(ss, st, entryId, sep, slug).Ok?
    ensures var st' := SensePass(ss, st, entryId, sep, slug).value;
      && AllHave(ss, "id")
      && st'.senses == st.senses + SenseRecords(ss, entryId, sep)
      && GrammTagged(ss)
      && st'.poses == st.poses + Poses(ss)
      && st.examples <= st'.examples
  {
    if ss != [] {
      var init, last := ss[..|ss| - 1], ss[|ss| - 1];
      SensePassLists(init, st, entryId, sep, slug);
      var before := SensePass(init, st, entryId, sep, slug).value;
      SenseStepLists(before, last, entryId, sep, slug);
      AllHaveSnoc(ss, "id");
      assert GrammTagged(ss) by {
        forall i | 0 <= i < |ss| ensures AllHave(FindAll(ss[i], "grammatical-info"), "value") {
          if i < |ss| - 1 { assert ss[i] == init[i]; }
        }
      }
      AppendAssoc(st.senses, SenseRecords(init, entryId, sep), [Sense(last.attrs["id"], Description(last, sep), entryId)]);
      AppendAssoc(st.poses, Poses(init), AttrValues(FindAll(last, "grammatical-info"), "value"));
    }
  }

  /** `Parameter_ID` ends up listing exactly the senses' ids, in order. */
  lemma {:induction false} SensePassFields(ss: seq<Node>, st: SenseState, entryId: string, sep: string, slug: string -> string)
    requires AccumulatorKeys(st.fields)
    requires SensePass(ss, st, entryId, sep, slug).Ok?
    ensures var st' := SensePass(ss, st, entryId, sep, slug).value;
      && AllHave(ss, "id")
      && Get(st'.fields, "Parameter_ID") == Get(st.fields, "Parameter_ID") + AttrValues(ss, "id")
      && AccumulatorKeys(st'.fields)
  {
    if ss != [] {
      var init, last := ss[..|ss| - 1], ss[|ss| - 1];
      SensePassFields(init, st, entryId, sep, slug);
      var before := SensePass(init, st, entryId, sep, slug).value;
      SenseStepFields(before, last, entryId, sep, slug);
      AllHaveSnoc(ss, "id");
      AppendAssoc(Get(st.fields, "Parameter_ID"), AttrValues(init, "id"), [last.attrs["id"]]);
    }
  }

  // ---------------------------------------------------------------------------
  // The form-sets (lines 113-123)

  /** A form-set: the morph type its morphs get and its `form` elements. */
  datatype FormSet = FormSet(morphType: string, forms: seq<Node>)

  /** `start` followed by the variant form-sets of `vs`, each typed by its
      own morph-type trait, or the first error. */
  function VariantSets(vs: seq<Node>, start: seq<FormSet>): Result<seq<FormSet>>
  {
    if vs == [] then Ok(start)
    else match VariantSets(vs[..|vs| - 1], start)
      case Fail(e) => Fail(e)
      case Ok(sets) =>
        match MorphType(vs[|vs| - 1])
        case Fail(e) => Fail(e)
        case Ok(t) => Ok(sets + [FormSet(t, FindAll(vs[|vs| - 1], "form"))])
  }

  lemma {:induction false} VariantSetsFailSticks(vs: seq<Node>, more: seq<Node>, start: seq<FormSet>)
    requires VariantSets(vs, start).Fail?
    ensures VariantSets(vs + more, start) == VariantSets(vs, start)
  {
    if more == [] {
      assert vs + more == vs;
    } else {
      assert (vs + more)[..|vs + more| - 1] == vs + more[..|more| - 1];
      VariantSetsFailSticks(vs, more[..|more| - 1], start);
    }
  }

  lemma VariantSetsStep(vs: seq<Node>, j: nat, start: seq<FormSet>)
    requires j < |vs| && VariantSets(vs[..j], start).Ok?
    ensures MorphType(vs[j]).Fail? ==> VariantSets(vs, start) == Fail(MorphType(vs[j]).error)
    ensures MorphType(vs[j]).Ok? ==>
      VariantSets(vs[..j + 1], start)
        == Ok(VariantSets(vs[..j], start).value + [FormSet(MorphType(vs[j]).value, FindAll(vs[j], "form"))])
  {
    assert vs[..j + 1][..j] == vs[..j];
    if MorphType(vs[j]).Fail? {
      VariantSetsFailSticks(vs[..j + 1], vs[j + 1..], start);
      assert vs[..j + 1] + vs[j + 1..] == vs;
    }
  }

  /** The lexical unit typed by the entry's morph type, then every variant. */
  function FormSets(entry: Node, morphType: string): Result<seq<FormSet>>
  {
    match Find(entry, "lexical-unit")
    case None => Fail(MissingElement("lexical-unit"))
    case Some(lu) => VariantSets(FindAll(entry, "variant"), [FormSet(morphType, FindAll(lu, "form"))])
  }

  /** All forms of the form-sets, in extraction order. */
  function AllForms(sets: seq<FormSet>): seq<Node>
  {
    if sets == [] then [] else AllForms(sets[..|sets| - 1]) + sets[|sets| - 1].forms
  }

  /** The morph type the `i`-th of those forms gets: its form-set's. */
  function TypeAt(sets: seq<FormSet>, i: nat): string
    requires i < |AllForms(sets)|
  {
    var init := sets[..|sets| - 1];
    if i < |AllForms(init)| then TypeAt(init, i) else sets[|sets| - 1].morphType
  }

  /** The morphs of the chained `extract_forms` calls, the counter starting at
      0 and carried from one form-set to the next. */
  function SetMorphs(sets: seq<FormSet>, entryId: string, fields: Fields): (r: seq<Morph>)
    ensures |r| == |AllForms(sets)|
  {
    if sets == [] then []
    else
      var init, last := sets[..|sets| - 1], sets[|sets| - 1];
      SetMorphs(init, entryId, fields) + NumberedMorphs(last.forms, entryId, last.morphType, fields, |AllForms(init)|)
  }

  /** The `i`-th morph of the chain is numbered `i` and carries the `i`-th
      form and that form's form-set type. */
  lemma {:induction false} SetMorphsAt(sets: seq<FormSet>, entryId: string, fields: Fields, i: nat)
    requires i < |AllForms(sets)|
    ensures SetMorphs(sets, entryId, fields)[i] == Morph(IdOf(entryId, i), AllForms(sets)[i].text, TypeAt(sets, i), entryId, fields)
  {
    var init, last := sets[..|sets| - 1], sets[|sets| - 1];
    var n := |AllForms(init)|;
    if i < n {
      SetMorphsAt(init, entryId, fields, i);
      assert AllForms(sets)[i] == AllForms(init)[i];
    } else {
      NumberedMorphsAt(last.forms, entryId, last.morphType, fields, n, i - n);
      assert AllForms(sets)[i] == last.forms[i - n];
    }
  }

  lemma SetMorphsSnoc(sets: seq<FormSet>, set1: FormSet, entryId: string, fields: Fields)
    ensures AllForms(sets + [set1]) == AllForms(sets) + set1.forms
    ensures SetMorphs(sets + [set1], entryId, fields)
         == SetMorphs(sets, entryId, fields) + NumberedMorphs(set1.forms, entryId, set1.morphType, fields, |AllForms(sets)|)
  {
    assert (sets + [set1])[..|sets|] == sets;
  }

  /** Lines 113-123: the morphs of the lexical unit and then of each variant
      form-set, one counter throughout. */
  method ExtractAllForms(entry: Node, entryId: string, morphType: string, fields: Fields)
    returns (res: Result<seq<Morph>>)
    ensures FormSets(entry, morphType).Fail? ==> res == Fail(FormSets(entry, morphType).error)
    ensures FormSets(entry, morphType).Ok? ==> res == Ok(SetMorphs(FormSets(entry, morphType).value, entryId, fields))
  {
    var lu := Find(entry, "lexical-unit");
    if lu.None? {
      return Fail(MissingElement("lexical-unit"));
    }
    var morphs: seq<Morph> := [];
    var formCount := 0;
    morphs, formCount := ExtractForms(lu.value, entryId, morphType, morphs, fields, formCount);
    ghost var sets := [FormSet(morphType, FindAll(lu.value, "form"))];
    SetMorphsSnoc([], sets[0], entryId, fields);
    assert [] + sets == sets;
    var vs := FindAll(entry, "variant");
    for j := 0 to |vs|
      invariant VariantSets(vs[..j], [FormSet(morphType, FindAll(lu.value, "form"))]) == Ok(sets)
      invariant formCount == |AllForms(sets)|
      invariant morphs == SetMorphs(sets, entryId, fields)
    {
      VariantSetsStep(vs, j, [FormSet(morphType, FindAll(lu.value, "form"))]);
      var variantType := MorphType(vs[j]);
      if variantType.Fail? {
        return Fail(variantType.error);
      }
      morphs, formCount := ExtractForms(vs[j], entryId, variantType.value, morphs, fields, formCount);
      ghost var next := FormSet(variantType.value, FindAll(vs[j], "form"));
      SetMorphsSnoc(sets, next, entryId, fields);
      sets := sets + [next];
    }
    assert vs[..|vs|] == vs;
    res := Ok(morphs);
  }

  // ---------------------------------------------------------------------------
  // Merged variant descriptors (lines 126-129) and the morpheme (131-138)

  /** A descriptor made into a morph: its own identifier, form and type, the
      owning entry, and the entry's accumulated columns. */
  function DescriptorMorph(d: Descriptor, entryId: string, fields: Fields): Morph
  {
    Morph(d.id, d.form, d.morphType, entryId, fields)
  }

  function DescriptorMorphs(ds: seq<Descriptor>, entryId: string, fields: Fields): (r: seq<Morph>)
    ensures |r| == |ds|
  {
    if ds == [] then [] else DescriptorMorphs(ds[..|ds| - 1], entryId, fields) + [DescriptorMorph(ds[|ds| - 1], entryId, fields)]
  }

  lemma {:induction false} DescriptorMorphsAt(ds: seq<Descriptor>, entryId: string, fields: Fields, j: nat)
    requires j < |ds|
    ensures DescriptorMorphs(ds, entryId, fields)[j] == DescriptorMorph(ds[j], entryId, fields)
  {
    if j < |ds| - 1 {
      DescriptorMorphsAt(ds[..|ds| - 1], entryId, fields, j);
    }
  }

  /** Lines 126-129: one morph per descriptor indexed under the entry. */
  method MergeDescriptors(morphs: seq<Morph>, ds: seq<Descriptor>, entryId: string, fields: Fields)
    returns (morphs': seq<Morph>)
    ensures morphs' == morphs + DescriptorMorphs(ds, entryId, fields)
  {
    morphs' := morphs;
    for k := 0 to |ds|
      invariant morphs' == morphs + DescriptorMorphs(ds[..k], entryId, fields)
    {
      assert ds[..k + 1][..k] == ds[..k];
      var variant := Morph(ds[k].id, ds[k].form, ds[k].morphType, entryId, fields);
      AppendAssoc(morphs, DescriptorMorphs(ds[..k], entryId, fields), [variant]);
      morphs' := morphs' + [variant];
    }
    assert ds[..|ds|] == ds;
  }

  /** `[x["Form"] for x in morphs]` */
  function MorphForms(ms: seq<Morph>): (r: seq<string>)
    ensures |r| == |ms|
  {
    if ms == [] then [] else MorphForms(ms[..|ms| - 1]) + [ms[|ms| - 1].form]
  }

  lemma {:induction false} MorphFormsAt(ms: seq<Morph>, i: nat)
    requires i < |ms|
    ensures MorphForms(ms)[i] == ms[i].form
  {
    if i < |ms| - 1 {
      MorphFormsAt(ms[..|ms| - 1], i);
    }
  }

  /** A morpheme as the source records it (lines 131-138). */
  datatype Morpheme = Morpheme(id: string, gramm: seq<string>, morphType: string, forms: seq<string>, name: string, fields: Fields)

  /** The morpheme as a table row: its five fixed columns, then the
      accumulator merged in. */
  function MorphemeRow(m: Morpheme): Record
  {
    map["ID" := Str(m.id), "Gramm" := List(m.gramm), "Type" := Str(m.morphType),
        "Form" := List(m.forms), "Name" := Str(m.name)]
      + FieldsRecord(m.fields)
  }

  /** What `parse_entry` returns, with the shared sense and example lists it
      extends. */
  datatype Parsed = Parsed(morpheme: Morpheme, morphs: seq<Morph>, senses: seq<Sense>, examples: seq<Record>)

  /** The accumulator an entry starts with (line 95). */
  const InitialFields: Fields := map["Parameter_ID" := []]

  /** `parse_entry(entry, senses, dictionary_examples, variant_dict, sep)`, or
      the first exception it raises. */
  function EntrySpec(entry: Node, senses: seq<Sense>, examples: seq<Record>, index: VariantIndex, sep: string, slug: string -> string): Result<Parsed>
  {
    if "guid" !in entry.attrs then Fail(MissingAttribute("guid"))
    else
      var entryId := entry.attrs["guid"];
      match MorphType(entry)
      case Fail(e) => Fail(e)
      case Ok(mt) =>
        match SensePass(ChildrenNamed(entry, "sense"), SenseState([], InitialFields, senses, examples), entryId, sep, slug)
        case Fail(e) => Fail(e)
        case Ok(st) =>
          match FormSets(entry, mt)
          case Fail(e) => Fail(e)
          case Ok(sets) =>
            var morphs := SetMorphs(sets, entryId, st.fields) + DescriptorMorphs(Lookup(index, entryId), entryId, st.fields);
            if morphs == [] then Fail(IndexOutOfRange)
            else Ok(Parsed(Morpheme(entryId, st.poses, mt, MorphForms(morphs), morphs[0].form, st.fields), morphs, st.senses, st.examples))
  }

  /** `parse_entry`: the shared lists passed by value and returned extended. */
  method ParseEntry(entry: Node, senses: seq<Sense>, examples: seq<Record>, index: VariantIndex, sep: string, slug: string -> string)
    returns (res: Result<Parsed>)
    ensures res == EntrySpec(entry, senses, examples, index, sep, slug)
  {
    if "guid" !in entry.attrs {
      return Fail(MissingAttribute("guid"));
    }
    var entryId := entry.attrs["guid"];
    var morphemeType := MorphType(entry);
    if morphemeType.Fail? {
      return Fail(morphemeType.error);
    }
    var parsed := ParseSenses(ChildrenNamed(entry, "sense"), SenseState([], InitialFields, senses, examples), entryId, sep, slug);
    if parsed.Fail? {
      return Fail(parsed.error);
    }
    var st := parsed.value;
    var formMorphs := ExtractAllForms(entry, entryId, morphemeType.value, st.fields);
    if formMorphs.Fail? {
      return Fail(formMorphs.error);
    }
    var morphs := MergeDescriptors(formMorphs.value, Lookup(index, entryId), entryId, st.fields);
    if morphs == [] {
      return Fail(IndexOutOfRange);
    }
    var morpheme := Morpheme(entryId, st.poses, morphemeType.value, MorphForms(morphs), morphs[0].form, st.fields);
    res := Ok(Parsed(morpheme, morphs, st.senses, st.examples));
  }

  // ---------------------------------------------------------------------------
  // What `parse_entry` promises

  /** An entry without `guid`, or whose morph-type trait is missing, is
      rejected before anything else; an entry that parses has a morph type,
      its form-sets, and at least one form or variant descriptor. */
  lemma EntryFailures(entry: Node, senses: seq<Sense>, examples: seq<Record>, index: VariantIndex, sep: string, slug: string -> string)
    ensures "guid" !in entry.attrs ==> EntrySpec(entry, senses, examples, index, sep, slug) == Fail(MissingAttribute("guid"))
    ensures "guid" in entry.attrs && SelectTrait(entry, "morph-type") == [] ==>
      EntrySpec(entry, senses, examples, index, sep, slug) == Fail(IndexOutOfRange)
    ensures EntrySpec(entry, senses, examples, index, sep, slug).Ok? ==>
      && "guid" in entry.attrs && MorphType(entry).Ok?
      && FormSets(entry, MorphType(entry).value).Ok?
      && (|AllForms(FormSets(entry, MorphType(entry).value).value)| > 0 || Lookup(index, entry.attrs["guid"]) != [])
  {
  }

  /** An entry whose parts all parse but that has no form anywhere and no
      variant descriptor fails on `morphs[0]`. */
  lemma EntryWithoutMorphs(entry: Node, senses: seq<Sense>, examples: seq<Record>, index: VariantIndex, sep: string, slug: string -> string)
    requires "guid" in entry.attrs && MorphType(entry).Ok?
    requires SensePass(ChildrenNamed(entry, "sense"), SenseState([], InitialFields, senses, examples), entry.attrs["guid"], sep, slug).Ok?
    requires FormSets(entry, MorphType(entry).value).Ok?
    requires AllForms(FormSets(entry, MorphType(entry).value).value) == [] && Lookup(index, entry.attrs["guid"]) == []
    ensures EntrySpec(entry, senses, examples, index, sep, slug) == Fail(IndexOutOfRange)
  {
  }

  /** The senses of an entry: one per direct-child sense element, in order,
      each with that element's `id`, its description and the entry's `guid`,
      appended to the shared list; the entry's `Parameter_ID` column lists the same ids in the
      same order; the shared example list is only extended. */
  lemma EntrySenses(entry: Node, senses: seq<Sense>, examples: seq<Record>, index: VariantIndex, sep: string, slug: string -> string)
    requires EntrySpec(entry, senses, examples, index, sep, slug).Ok?
    ensures var p := EntrySpec(entry, senses, examples, index, sep, slug).value;
      var ss := ChildrenNamed(entry, "sense");
      && AllHave(ss, "id")
      && p.senses == senses + SenseRecords(ss, entry.attrs["guid"], sep)
      && Get(p.morpheme.fields, "Parameter_ID") == AttrValues(ss, "id")
      && AccumulatorKeys(p.morpheme.fields)
      && examples <= p.examples
  {
    var ss := ChildrenNamed(entry, "sense");
    var st0 := SenseState([], InitialFields, senses, examples);
    assert AccumulatorKeys(InitialFields);
    SensePassLists(ss, st0, entry.attrs["guid"], sep, slug);
    SensePassFields(ss, st0, entry.attrs["guid"], sep, slug);
  }

  /** The parts an entry that parses is assembled from (lines 131-139). */
  lemma EntryParts(entry: Node, senses: seq<Sense>, examples: seq<Record>, index: VariantIndex, sep: string, slug: string -> string)
    requires EntrySpec(entry, senses, examples, index, sep, slug).Ok?
    ensures "guid" in entry.attrs && MorphType(entry).Ok?
    ensures SensePass(ChildrenNamed(entry, "sense"), SenseState([], InitialFields, senses, examples), entry.attrs["guid"], sep, slug).Ok?
    ensures FormSets(entry, MorphType(entry).value).Ok?
    ensures var p := EntrySpec(entry, senses, examples, index, sep, slug).value;
      var guid := entry.attrs["guid"];
      var st := SensePass(ChildrenNamed(entry, "sense"), SenseState([], InitialFields, senses, examples), guid, sep, slug).value;
      && p.morphs == SetMorphs(FormSets(entry, MorphType(entry).value).value, guid, st.fields) + DescriptorMorphs(Lookup(index, guid), guid, st.fields)
      && p.morphs != []
      && p.morpheme == Morpheme(guid, st.poses, MorphType(entry).value, MorphForms(p.morphs), p.morphs[0].form, st.fields)
      && p.senses == st.senses && p.examples == st.examples
  {
  }

  /** The morphs of an entry begin with one per form of the lexical unit and
      of each variant form-set, in order: the `i`-th is identified
      `<guid>-<i>`, carries the `i`-th form's text and its form-set's type, and
      is owned by the entry with its final accumulated columns. */
  lemma EntryFormMorphs(entry: Node, senses: seq<Sense>, examples: seq<Record>, index: VariantIndex, sep: string, slug: string -> string)
    requires EntrySpec(entry, senses, examples, index, sep, slug).Ok?
    ensures var p := EntrySpec(entry, senses, examples, index, sep, slug).value;
      var guid := entry.attrs["guid"];
      var sets := FormSets(entry, MorphType(entry).value).value;
      && |p.morphs| == |AllForms(sets)| + |Lookup(index, guid)|
      && forall i :: 0 <= i < |AllForms(sets)| ==>
           p.morphs[i] == Morph(IdOf(guid, i), AllForms(sets)[i].text, TypeAt(sets, i), guid, p.morpheme.fields)
  {
    EntryParts(entry, senses, examples, index, sep, slug);
    var p := EntrySpec(entry, senses, examples, index, sep, slug).value;
    var guid := entry.attrs["guid"];
    var sets := FormSets(entry, MorphType(entry).value).value;
    forall i | 0 <= i < |AllForms(sets)|
      ensures p.morphs[i] == Morph(IdOf(guid, i), AllForms(sets)[i].text, TypeAt(sets, i), guid, p.morpheme.fields)
    {
      SetMorphsAt(sets, guid, p.morpheme.fields, i);
    }
  }

  /** After those come one morph per variant descriptor indexed under the
      entry's `guid`, in order (`DescriptorMorphsAt` gives the `j`-th): each
      keeps the descriptor's own identifier, form and type and is owned by the
      entry with its final accumulated columns. */
  lemma EntryDescriptorMorphs(entry: Node, senses: seq<Sense>, examples: seq<Record>, index: VariantIndex, sep: string, slug: string -> string)
    requires EntrySpec(entry, senses, examples, index, sep, slug).Ok?
    ensures var p := EntrySpec(entry, senses, examples, index, sep, slug).value;
      var n := |AllForms(FormSets(entry, MorphType(entry).value).value)|;
      && n <= |p.morphs|
      && p.morphs[n..] == DescriptorMorphs(Lookup(index, entry.attrs["guid"]), entry.attrs["guid"], p.morpheme.fields)
  {
    EntryParts(entry, senses, examples, index, sep, slug);
    var p := EntrySpec(entry, senses, examples, index, sep, slug).value;
    var guid := entry.attrs["guid"];
    var formMorphs := SetMorphs(FormSets(entry, MorphType(entry).value).value, guid, p.morpheme.fields);
    var dms := DescriptorMorphs(Lookup(index, guid), guid, p.morpheme.fields);
    assert p.morphs == formMorphs + dms;
    assert p.morphs[|formMorphs|..] == dms;
  }

  /** Morphs numbered by the entry's counter never share an identifier. */
  lemma EntryMorphIdsDistinct(entry: Node, senses: seq<Sense>, examples: seq<Record>, index: VariantIndex, sep: string, slug: string -> string, i: nat, j: nat)
    requires EntrySpec(entry, senses, examples, index, sep, slug).Ok?
    requires i < j < |AllForms(FormSets(entry, MorphType(entry).value).value)|
    ensures EntrySpec(entry, senses, examples, index, sep, slug).value.morphs[i].id
         != EntrySpec(entry, senses, examples, index, sep, slug).value.morphs[j].id
  {
    EntryFormMorphs(entry, senses, examples, index, sep, slug);
    var guid := entry.attrs["guid"];
    if IdOf(guid, i) == IdOf(guid, j) {
      IdOfInjective(guid, i, j);
    }
  }

  /** The morpheme of an entry: identified by the `guid`, typed by the entry's
      morph-type trait, its `Gramm` list the grammatical categories of the
      entry's direct-child senses in order, its `Form` list is the morphs' forms in order, its
      `Name` the first morph's form, and it shares the morphs' owner and
      accumulated columns. */
  lemma EntryMorpheme(entry: Node, senses: seq<Sense>, examples: seq<Record>, index: VariantIndex, sep: string, slug: string -> string)
    requires EntrySpec(entry, senses, examples, index, sep, slug).Ok?
    ensures var p := EntrySpec(entry, senses, examples, index, sep, slug).value;
      && p.morpheme.id == entry.attrs["guid"]
      && p.morpheme.morphType == MorphType(entry).value
      && GrammTagged(ChildrenNamed(entry, "sense"))
      && p.morpheme.gramm == Poses(ChildrenNamed(entry, "sense"))
      && |p.morphs| > 0 && p.morpheme.name == p.morphs[0].form
      && |p.morpheme.forms| == |p.morphs|
      && (forall i :: 0 <= i < |p.morphs| ==> p.morpheme.forms[i] == p.morphs[i].form)
      && (forall i :: 0 <= i < |p.morphs| ==> p.morphs[i].fields == p.morpheme.fields && p.morphs[i].morphemeId == p.morpheme.id)
  {
    EntryParts(entry, senses, examples, index, sep, slug);
    var p := EntrySpec(entry, senses, examples, index, sep, slug).value;
    var guid := entry.attrs["guid"];
    SensePassLists(ChildrenNamed(entry, "sense"), SenseState([], InitialFields, senses, examples), guid, sep, slug);
    assert [] + Poses(ChildrenNamed(entry, "sense")) == Poses(ChildrenNamed(entry, "sense"));
    var sets := FormSets(entry, MorphType(entry).value).value;
    var n := |AllForms(sets)|;
    var ds := Lookup(index, guid);
    forall i | 0 <= i < |p.morphs|
      ensures p.morpheme.forms[i] == p.morphs[i].form
      ensures p.morphs[i].fields == p.morpheme.fields && p.morphs[i].morphemeId == p.morpheme.id
    {
      MorphFormsAt(p.morphs, i);
      if i < n {
        SetMorphsAt(sets, guid, p.morpheme.fields, i);
      } else {
        DescriptorMorphsAt(ds, guid, p.morpheme.fields, i - n);
      }
    }
  }
}
