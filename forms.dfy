/**
 * The form extractor (`extract_forms`): one morph per `form` of a form-set,
 * numbered by a counter the caller threads through all form-sets of an entry.
 */
module Forms {
  import opened LiftTree
  import opened Records

  /** A morph as the source builds it (lines 77-83): identifier, form, morph
      type, owning entry, and the entry's accumulated columns. */
  datatype Morph = Morph(id: string, form: string, morphType: string, morphemeId: string, fields: Fields)

  /** The morph as a table row: the four fixed columns, then the accumulator
      merged in (`f_dict.update(fields)`). */
  function MorphRow(m: Morph): Record
  {
    map["ID" := Str(m.id), "Form" := Str(m.form), "Type" := Str(m.morphType), "Morpheme_ID" := Str(m.morphemeId)]
      + FieldsRecord(m.fields)
  }

  /** The accumulator never overwrites the four fixed columns of a morph row. */
  lemma MorphRowColumns(m: Morph)
    requires AccumulatorKeys(m.fields)
    ensures var r := MorphRow(m);
      && r.Keys == {"ID", "Form", "Type", "Morpheme_ID"} + m.fields.Keys
      && r["ID"] == Str(m.id) && r["Form"] == Str(m.form)
      && r["Type"] == Str(m.morphType) && r["Morpheme_ID"] == Str(m.morphemeId)
      && forall k :: k in m.fields ==> r[k] == List(m.fields[k])
  {
    FixedColumnsNotAccumulated(m.fields);
  }

  /** The morphs of the consecutive `form` elements `forms`, numbered from
      `start`. */
  function NumberedMorphs(forms: seq<Node>, entryId: string, morphType: string, fields: Fields, start: nat): (r: seq<Morph>)
    ensures |r| == |forms|
  {
    if forms == [] then []
    else NumberedMorphs(forms[..|forms| - 1], entryId, morphType, fields, start)
         + [Morph(IdOf(entryId, start + |forms| - 1), forms[|forms| - 1].text, morphType, entryId, fields)]
  }

  /** The `i`-th morph carries the `i`-th form's text and number `start + i`. */
  lemma {:induction false} NumberedMorphsAt(forms: seq<Node>, entryId: string, morphType: string, fields: Fields, start: nat, i: nat)
    requires i < |forms|
    ensures NumberedMorphs(forms, entryId, morphType, fields, start)[i]
         == Morph(IdOf(entryId, start + i), forms[i].text, morphType, entryId, fields)
  {
    if i < |forms| - 1 {
      NumberedMorphsAt(forms[..|forms| - 1], entryId, morphType, fields, start, i);
    }
  }

  /** Appending the morph of `forms[i]` extends the numbered morphs of
      `forms[..i]` to those of `forms[..i + 1]`. */
  lemma NumberedMorphsSnoc(morphs: seq<Morph>, forms: seq<Node>, i: nat, entryId: string, morphType: string, fields: Fields, start: nat)
    requires i < |forms|
    ensures morphs + NumberedMorphs(forms[..i + 1], entryId, morphType, fields, start)
         == morphs + NumberedMorphs(forms[..i], entryId, morphType, fields, start)
            + [Morph(IdOf(entryId, start + i), forms[i].text, morphType, entryId, fields)]
  {
    assert forms[..i + 1][..i] == forms[..i];
    AppendAssoc(morphs, NumberedMorphs(forms[..i], entryId, morphType, fields, start),
                [Morph(IdOf(entryId, start + i), forms[i].text, morphType, entryId, fields)]);
  }

  /** `extract_forms(entry_part, entry_id, morph_type, morphs, fields,
      form_count)`: appends one morph per `form` below `part`, numbered from
      `formCount`, and returns the advanced counter. */
  method ExtractForms(part: Node, entryId: string, morphType: string, morphs: seq<Morph>, fields: Fields, formCount: nat)
    returns (morphs': seq<Morph>, count: nat)
    ensures count == formCount + |FindAll(part, "form")|
    ensures morphs' == morphs + NumberedMorphs(FindAll(part, "form"), entryId, morphType, fields, formCount)
  {
    var forms := FindAll(part, "form");
    morphs' := morphs;
    count := formCount;
    for i := 0 to |forms|
      invariant count == formCount + i
      invariant morphs' == morphs + NumberedMorphs(forms[..i], entryId, morphType, fields, formCount)
    {
      var fDict := Morph(IdOf(entryId, count), forms[i].text, morphType, entryId, fields);
      NumberedMorphsSnoc(morphs, forms, i, entryId, morphType, fields, formCount);
      morphs' := morphs' + [fDict];
      count := count + 1;
    }
    assert forms[..|forms|] == forms;
  }
}
