/**
 * The driver (`convert`, lines 162-200) with the language inference
 * (`figure_out_gloss_language`): the variant pre-pass over every entry, the
 * entry loop that settles the meta and object languages and decomposes each
 * entry, and the post-pass over the morph and morpheme tables.
 */
module Convert {
  import opened LiftTree
  import opened Records
  import opened Variants
  import opened Forms
  import opened Entries
  import opened Tables

  /** The configuration keys `convert` reads (lines 162-165), each possibly
      absent. */
  datatype Config = Config(separator: Option<string>, objLg: Option<string>, glossLg: Option<string>, languageId: Option<string>)

  /** `conf.get("csv_cell_separator", "; ")` */
  function Separator(conf: Config): string
  {
    match conf.separator
    case None => "; "
    case Some(s) => s
  }

  /** Python truthiness of an optional string. */
  predicate Truthy(o: Option<string>)
  {
    o.Some? && o.value != ""
  }

  // ---------------------------------------------------------------------------
  // Language inference (lines 142-150, 179-183)

  /** `figure_out_gloss_language(entry)`: the `lang` of the entry's first
      gloss; failing a gloss, the `lang` of the first form of its first
      definition; failing both, nothing. */
  function GlossLanguage(entry: Node): (r: Result<Option<string>>)
    ensures r == Ok(None) <==> FindAll(entry, "gloss") == [] && FindAll(entry, "definition") == []
    ensures FindAll(entry, "gloss") != [] ==>
      r == (var g := FindAll(entry, "gloss")[0]; if "lang" in g.attrs then Ok(Some(g.attrs["lang"])) else Fail(MissingAttribute("lang")))
    ensures FindAll(entry, "gloss") == [] && FindAll(entry, "definition") != [] && FindAll(FindAll(entry, "definition")[0], "form") == [] ==>
      r == Fail(MissingElement("form"))
    ensures FindAll(entry, "gloss") == [] && FindAll(entry, "definition") != [] && FindAll(FindAll(entry, "definition")[0], "form") != [] ==>
      r == (var f := FindAll(FindAll(entry, "definition")[0], "form")[0];
            if "lang" in f.attrs then Ok(Some(f.attrs["lang"])) else Fail(MissingAttribute("lang")))
  {
    match Find(entry, "gloss")
    case Some(g) =>
      if "lang" in g.attrs then Ok(Some(g.attrs["lang"])) else Fail(MissingAttribute("lang"))
    case None =>
      match Find(entry, "definition")
      case None => Ok(None)
      case Some(d) =>
        match Find(d, "form")
        case None => Fail(MissingElement("form"))
        case Some(f) => if "lang" in f.attrs then Ok(Some(f.attrs["lang"])) else Fail(MissingAttribute("lang"))
  }

  /** `entry.find("form")["lang"]` (line 182). */
  function ObjectLanguage(entry: Node): (r: Result<Option<string>>)
    ensures r.Ok? <==> FindAll(entry, "form") != [] && "lang" in FindAll(entry, "form")[0].attrs
    ensures r.Ok? ==> r.value == Some(FindAll(entry, "form")[0].attrs["lang"])
  {
    match Find(entry, "form")
    case None => Fail(MissingElement("form"))
    case Some(f) => if "lang" in f.attrs then Ok(Some(f.attrs["lang"])) else Fail(MissingAttribute("lang"))
  }

  /** `if not lg: lg = infer(entry)`: a truthy language stays, anything else
      is replaced by what the entry gives. */
  function Settle(lg: Option<string>, inferred: Result<Option<string>>): Result<Option<string>>
  {
    if Truthy(lg) then Ok(lg) else inferred
  }

  /** The language after reading `es` front to back, starting from `lg` and
      stopping at the first truthy one: the independent statement of the
      "first entry that has one decides" rule. */
  function FirstLanguage(lg: Option<string>, es: seq<Node>, infer: Node -> Result<Option<string>>): Result<Option<string>>
    decreases |es|
  {
    if Truthy(lg) || es == [] then Ok(lg)
    else match infer(es[0])
      case Fail(e) => Fail(e)
      case Ok(next) => FirstLanguage(next, es[1..], infer)
  }

  lemma {:induction false} FirstLanguageSnoc(lg: Option<string>, es: seq<Node>, infer: Node -> Result<Option<string>>)
    requires es != [] && FirstLanguage(lg, es[..|es| - 1], infer).Ok?
    ensures FirstLanguage(lg, es, infer) == Settle(FirstLanguage(lg, es[..|es| - 1], infer).value, infer(es[|es| - 1]))
    decreases |es|
  {
    if !Truthy(lg) && |es| > 1 {
      var tail := es[1..];
      assert es[..|es| - 1][0] == es[0];
      assert es[..|es| - 1][1..] == tail[..|tail| - 1];
      FirstLanguageSnoc(infer(es[0]).value, tail, infer);
    }
  }

  // ---------------------------------------------------------------------------
  // The variant pre-pass over all entries (lines 175-177)

  /** The index after `gather_variants` has run on each of `es`, or the first
      error. */
  function GatherAll(es: seq<Node>, index: VariantIndex, slug: string -> string): Result<VariantIndex>
  {
    if es == [] then Ok(index)
    else match GatherAll(es[..|es| - 1], index, slug)
      case Fail(e) => Fail(e)
      case Ok(before) => Gathered(es[|es| - 1], FindAll(es[|es| - 1], "relation"), before, slug)
  }

  lemma {:induction false} GatherAllFailSticks(es: seq<Node>, more: seq<Node>, index: VariantIndex, slug: string -> string)
    requires GatherAll(es, index, slug).Fail?
    ensures GatherAll(es + more, index, slug) == GatherAll(es, index, slug)
  {
    if more == [] {
      assert es + more == es;
    } else {
      assert (es + more)[..|es + more| - 1] == es + more[..|more| - 1];
      GatherAllFailSticks(es, more[..|more| - 1], index, slug);
    }
  }

  lemma GatherAllStep(es: seq<Node>, i: nat, index: VariantIndex, slug: string -> string)
    requires i < |es| && GatherAll(es[..i], index, slug).Ok?
    ensures var step := Gathered(es[i], FindAll(es[i], "relation"), GatherAll(es[..i], index, slug).value, slug);
      && GatherAll(es[..i + 1], index, slug) == step
      && (step.Fail? ==> GatherAll(es, index, slug) == step)
  {
    assert es[..i + 1][..i] == es[..i];
    if GatherAll(es[..i + 1], index, slug).Fail? {
      GatherAllFailsAt(es, i + 1, index, slug);
    }
  }

  lemma GatherAllFailsAt(es: seq<Node>, n: nat, index: VariantIndex, slug: string -> string)
    requires n <= |es| && GatherAll(es[..n], index, slug).Fail?
    ensures GatherAll(es, index, slug) == GatherAll(es[..n], index, slug)
  {
    GatherAllFailSticks(es[..n], es[n..], index, slug);
    assert es[..n] + es[n..] == es;
  }

  /** Lines 175-177: every entry's relations are consulted, in document
      order. Since `gather_variants` returns nothing, no entry is set aside:
      all of them go on to the entry loop. */
  method GatherAllVariants(es: seq<Node>, slug: string -> string) returns (res: Result<VariantIndex>)
    ensures res == GatherAll(es, map[], slug)
  {
    var index: VariantIndex := map[];
    for i := 0 to |es|
      invariant GatherAll(es[..i], map[], slug) == Ok(index)
    {
      GatherAllStep(es, i, map[], slug);
      var next := GatherVariants(es[i], index, slug);
      if next.Fail? {
        return next;
      }
      index := next.value;
    }
    assert es[..|es|] == es;
    res := Ok(index);
  }

  /** The pre-pass only appends: every list of descriptors it starts with is
      a prefix of the list it ends with. */
  lemma {:induction false} GatherAllExtends(es: seq<Node>, index: VariantIndex, slug: string -> string, k: string)
    requires GatherAll(es, index, slug).Ok?
    ensures Lookup(index, k) <= Lookup(GatherAll(es, index, slug).value, k)
  {
    if es != [] {
      var init, last := es[..|es| - 1], es[|es| - 1];
      GatherAllExtends(init, index, slug, k);
      var before := GatherAll(init, index, slug).value;
      GatheredAppends(last, FindAll(last, "relation"), before, slug);
    }
  }

  // ---------------------------------------------------------------------------
  // The entry loop (lines 178-188)

  /** What the entry loop has built so far. */
  datatype Progress = Progress(glossLg: Option<string>, objLg: Option<string>, morphemes: seq<Morpheme>,
                               morphs: seq<Morph>, senses: seq<Sense>, examples: seq<Record>)

  /** One iteration of the entry loop, or the first error it raises. */
  function EntryStep(pr: Progress, entry: Node, index: VariantIndex, sep: string, slug: string -> string): Result<Progress>
  {
    match Settle(pr.glossLg, GlossLanguage(entry))
    case Fail(e) => Fail(e)
    case Ok(glossLg) =>
      match Settle(pr.objLg, ObjectLanguage(entry))
      case Fail(e) => Fail(e)
      case Ok(objLg) =>
        match EntrySpec(entry, pr.senses, pr.examples, index, sep, slug)
        case Fail(e) => Fail(e)
        case Ok(p) => Ok(Progress(glossLg, objLg, pr.morphemes + [p.morpheme], pr.morphs + p.morphs, p.senses, p.examples))
  }

  /** The entry loop over `es`, or the first error. */
  function EntriesPass(es: seq<Node>, pr: Progress, index: VariantIndex, sep: string, slug: string -> string): Result<Progress>
  {
    if es == [] then Ok(pr)
    else match EntriesPass(es[..|es| - 1], pr, index, sep, slug)
      case Fail(e) => Fail(e)
      case Ok(before) => EntryStep(before, es[|es| - 1], index, sep, slug)
  }

  lemma {:induction false} EntriesPassFailSticks(es: seq<Node>, more: seq<Node>, pr: Progress, index: VariantIndex, sep: string, slug: string -> string)
    requires EntriesPass(es, pr, index, sep, slug).Fail?
    ensures EntriesPass(es + more, pr, index, sep, slug) == EntriesPass(es, pr, index, sep, slug)
  {
    if more == [] {
      assert es + more == es;
    } else {
      assert (es + more)[..|es + more| - 1] == es + more[..|more| - 1];
      EntriesPassFailSticks(es, more[..|more| - 1], pr, index, sep, slug);
    }
  }

  lemma EntriesPassPrefix(es: seq<Node>, i: nat, pr: Progress, index: VariantIndex, sep: string, slug: string -> string)
    requires i < |es| && EntriesPass(es[..i], pr, index, sep, slug).Ok?
    ensures EntriesPass(es[..i + 1], pr, index, sep, slug)
         == EntryStep(EntriesPass(es[..i], pr, index, sep, slug).value, es[i], index, sep, slug)
  {
    assert es[..i + 1][..i] == es[..i];
  }

  lemma EntriesPassStep(es: seq<Node>, i: nat, pr: Progress, index: VariantIndex, sep: string, slug: string -> string)
    requires i < |es| && EntriesPass(es[..i], pr, index, sep, slug).Ok?
    ensures var step := EntryStep(EntriesPass(es[..i], pr, index, sep, slug).value, es[i], index, sep, slug);
      && EntriesPass(es[..i + 1], pr, index, sep, slug) == step
      && (step.Fail? ==> EntriesPass(es, pr, index, sep, slug) == step)
  {
    EntriesPassPrefix(es, i, pr, index, sep, slug);
    if EntriesPass(es[..i + 1], pr, index, sep, slug).Fail? {
      EntriesPassFailsAt(es, i + 1, pr, index, sep, slug);
    }
  }

  lemma EntriesPassFailsAt(es: seq<Node>, n: nat, pr: Progress, index: VariantIndex, sep: string, slug: string -> string)
    requires n <= |es| && EntriesPass(es[..n], pr, index, sep, slug).Fail?
    ensures EntriesPass(es, pr, index, sep, slug) == EntriesPass(es[..n], pr, index, sep, slug)
  {
    EntriesPassFailSticks(es[..n], es[n..], pr, index, sep, slug);
    assert es[..n] + es[n..] == es;
  }

  /** One iteration of lines 179-188. */
  method ConvertEntry(pr: Progress, entry: Node, index: VariantIndex, sep: string, slug: string -> string)
    returns (res: Result<Progress>)
    ensures res == EntryStep(pr, entry, index, sep, slug)
  {
    var glossLg := pr.glossLg;
    if !Truthy(glossLg) {
      var inferred := GlossLanguage(entry);
      if inferred.Fail? {
        return Fail(inferred.error);
      }
      glossLg := inferred.value;
    }
    var objLg := pr.objLg;
    if !Truthy(objLg) {
      var form := Find(entry, "form");
      if form.None? {
        return Fail(MissingElement("form"));
      }
      if "lang" !in form.value.attrs {
        return Fail(MissingAttribute("lang"));
      }
      objLg := Some(form.value.attrs["lang"]);
    }
    var parsed := ParseEntry(entry, pr.senses, pr.examples, index, sep, slug);
    if parsed.Fail? {
      return Fail(parsed.error);
    }
    var p := parsed.value;
    res := Ok(Progress(glossLg, objLg, pr.morphemes + [p.morpheme], pr.morphs + p.morphs, p.senses, p.examples));
  }

  /** The entry loop of lines 178-188. */
  method ConvertEntries(es: seq<Node>, pr0: Progress, index: VariantIndex, sep: string, slug: string -> string)
    returns (res: Result<Progress>)
    ensures res == EntriesPass(es, pr0, index, sep, slug)
  {
    var pr := pr0;
    for i := 0 to |es|
      invariant EntriesPass(es[..i], pr0, index, sep, slug) == Ok(pr)
    {
      EntriesPassStep(es, i, pr0, index, sep, slug);
      var next := ConvertEntry(pr, es[i], index, sep, slug);
      if next.Fail? {
        return next;
      }
      pr := next.value;
    }
    assert es[..|es|] == es;
    res := Ok(pr);
  }

  /** The identifier of each morpheme, in order. */
  function MorphemeIds(ms: seq<Morpheme>): (r: seq<string>)
    ensures |r| == |ms|
  {
    if ms == [] then [] else MorphemeIds(ms[..|ms| - 1]) + [ms[|ms| - 1].id]
  }

  /** The entry loop adds one morpheme per entry, in document order,
      identified by the entry's `guid`, and only extends the shared lists. */
  lemma {:induction false} EntriesMorphemes(es: seq<Node>, pr: Progress, index: VariantIndex, sep: string, slug: string -> string)
    requires EntriesPass(es, pr, index, sep, slug).Ok?
    ensures var out := EntriesPass(es, pr, index, sep, slug).value;
      && AllHave(es, "guid")
      && MorphemeIds(out.morphemes) == MorphemeIds(pr.morphemes) + AttrValues(es, "guid")
      && pr.morphs <= out.morphs && pr.senses <= out.senses && pr.examples <= out.examples
  {
    if es != [] {
      var init, last := es[..|es| - 1], es[|es| - 1];
      EntriesMorphemes(init, pr, index, sep, slug);
      var before := EntriesPass(init, pr, index, sep, slug).value;
      var out := EntriesPass(es, pr, index, sep, slug).value;
      EntryParts(last, before.senses, before.examples, index, sep, slug);
      EntrySenses(last, before.senses, before.examples, index, sep, slug);
      assert out.morphemes[..|out.morphemes| - 1] == before.morphemes;
      AllHaveSnoc(es, "guid");
      AppendAssoc(MorphemeIds(pr.morphemes), AttrValues(init, "guid"), [last.attrs["guid"]]);
    }
  }

  /** One step of the loop settles each language as `Settle` says. */
  lemma EntryStepLanguages(pr: Progress, entry: Node, index: VariantIndex, sep: string, slug: string -> string)
    requires EntryStep(pr, entry, index, sep, slug).Ok?
    ensures Settle(pr.glossLg, GlossLanguage(entry)) == Ok(EntryStep(pr, entry, index, sep, slug).value.glossLg)
    ensures Settle(pr.objLg, ObjectLanguage(entry)) == Ok(EntryStep(pr, entry, index, sep, slug).value.objLg)
  {
  }

  /** Every entry has a `guid` and each of its senses an `id`. */
  predicate SensesKeyed(es: seq<Node>)
  {
    forall i :: 0 <= i < |es| ==> "guid" in es[i].attrs && AllHave(ChildrenNamed(es[i], "sense"), "id")
  }

  /** The sense recorded for each direct-child sense of the entries, in
      document order. */
  function EntrySenseRecords(es: seq<Node>, sep: string): seq<Sense>
    requires SensesKeyed(es)
  {
    if es == [] then []
    else
      var last := es[|es| - 1];
      EntrySenseRecords(es[..|es| - 1], sep) + SenseRecords(ChildrenNamed(last, "sense"), last.attrs["guid"], sep)
  }

  /** The sense table gains the senses of every entry, in document order,
      each with its `id`, its description and its entry. */
  lemma {:induction false} EntriesSenses(es: seq<Node>, pr: Progress, index: VariantIndex, sep: string, slug: string -> string)
    requires EntriesPass(es, pr, index, sep, slug).Ok?
    ensures SensesKeyed(es)
    ensures EntriesPass(es, pr, index, sep, slug).value.senses == pr.senses + EntrySenseRecords(es, sep)
  {
    if es != [] {
      var init, last := es[..|es| - 1], es[|es| - 1];
      EntriesSenses(init, pr, index, sep, slug);
      var before := EntriesPass(init, pr, index, sep, slug).value;
      EntrySenses(last, before.senses, before.examples, index, sep, slug);
      EntryParts(last, before.senses, before.examples, index, sep, slug);
      assert SensesKeyed(es) by {
        forall i | 0 <= i < |es| ensures "guid" in es[i].attrs && AllHave(ChildrenNamed(es[i], "sense"), "id") {
          if i < |es| - 1 { assert es[i] == init[i]; }
        }
      }
      AppendAssoc(pr.senses, EntrySenseRecords(init, sep), SenseRecords(ChildrenNamed(last, "sense"), last.attrs["guid"], sep));
    }
  }

  /** The meta and object languages the loop ends with are those of the
      front-to-back reading: a truthy configured value is kept, and otherwise
      the first entry that yields a truthy one decides. */
  lemma {:induction false} EntriesLanguages(es: seq<Node>, pr: Progress, index: VariantIndex, sep: string, slug: string -> string)
    requires EntriesPass(es, pr, index, sep, slug).Ok?
    ensures var out := EntriesPass(es, pr, index, sep, slug).value;
      && FirstLanguage(pr.glossLg, es, GlossLanguage) == Ok(out.glossLg)
      && FirstLanguage(pr.objLg, es, ObjectLanguage) == Ok(out.objLg)
  {
    if es != [] {
      var init, last := es[..|es| - 1], es[|es| - 1];
      EntriesLanguages(init, pr, index, sep, slug);
      var before := EntriesPass(init, pr, index, sep, slug).value;
      EntryStepLanguages(before, last, index, sep, slug);
      FirstLanguageSnoc(pr.glossLg, es, GlossLanguage);
      FirstLanguageSnoc(pr.objLg, es, ObjectLanguage);
    }
  }

  // ---------------------------------------------------------------------------
  // The tables (lines 189-202)

  function MorphRows(ms: seq<Morph>): (t: Table)
    ensures |t| == |ms|
  {
    seq(|ms|, i requires 0 <= i < |ms| => MorphRow(ms[i]))
  }

  function MorphemeRows(ms: seq<Morpheme>): (t: Table)
    ensures |t| == |ms|
  {
    seq(|ms|, i requires 0 <= i < |ms| => MorphemeRow(ms[i]))
  }

  function SenseRows(ss: seq<Sense>): (t: Table)
    ensures |t| == |ss|
  {
    seq(|ss|, i requires 0 <= i < |ss| => SenseRow(ss[i]))
  }

  /** The column renamed `Meaning`: `f"gloss_{gloss_lg}"`, where a missing
      language prints as `None`. */
  function MeaningSource(glossLg: Option<string>): string
  {
    "gloss_" + (match glossLg case None => "None" case Some(lg) => lg)
  }

  /** The `Language_ID` stamp: the configured one if truthy, else the object
      language; a missing one is filled as empty. */
  function LanguageId(languageId: Option<string>, objLg: Option<string>): string
  {
    if Truthy(languageId) then languageId.value
    else match objLg case None => "" case Some(lg) => lg
  }

  /** The four tables written out. */
  datatype Output = Output(morphs: Table, morphemes: Table, senses: Table, examples: Table)

  /** Lines 169-187 of `convert`: the variant pre-pass, then the entry loop
      starting from the configured languages. */
  function ParseDocument(doc: Node, conf: Config, slug: string -> string): Result<Progress>
  {
    var es := FindAll(doc, "entry");
    match GatherAll(es, map[], slug)
    case Fail(e) => Fail(e)
    case Ok(index) => EntriesPass(es, Progress(conf.glossLg, conf.objLg, [], [], [], []), index, Separator(conf), slug)
  }

  /** What `convert` produces from a parsed document, or the first error, with
      the post-pass as written. */
  function ConvertSpec(doc: Node, conf: Config, slug: string -> string): Result<Output>
  {
    var sep := Separator(conf);
    match ParseDocument(doc, conf, slug)
    case Fail(e) => Fail(e)
    case Ok(pr) =>
      var from := MeaningSource(pr.glossLg);
      var langId := LanguageId(conf.languageId, pr.objLg);
      match PostPassAsWritten(MorphRows(pr.morphs), from, langId, sep)
      case Fail(e) => Fail(e)
      case Ok(morphs) =>
        match PostPassAsWritten(MorphemeRows(pr.morphemes), from, langId, sep)
        case Fail(e) => Fail(e)
        case Ok(morphemes) => Ok(Output(morphs, morphemes, SenseRows(pr.senses), pr.examples))
  }

  /** The same conversion with the post-pass's join corrected to join every
      list cell. */
  function ConvertCorrected(doc: Node, conf: Config, slug: string -> string): Result<Output>
  {
    var sep := Separator(conf);
    match ParseDocument(doc, conf, slug)
    case Fail(e) => Fail(e)
    case Ok(pr) =>
      var from := MeaningSource(pr.glossLg);
      var langId := LanguageId(conf.languageId, pr.objLg);
      match PostPass(MorphRows(pr.morphs), from, langId, sep)
      case Fail(e) => Fail(e)
      case Ok(morphs) =>
        match PostPass(MorphemeRows(pr.morphemes), from, langId, sep)
        case Fail(e) => Fail(e)
        case Ok(morphemes) => Ok(Output(morphs, morphemes, SenseRows(pr.senses), pr.examples))
  }

  /** `convert` on a parsed document: lines 162-165 and 169-200. */
  method Convert(doc: Node, conf: Config, slug: string -> string) returns (res: Result<Output>)
    ensures res == ConvertSpec(doc, conf, slug)
  {
    var sep := Separator(conf);
    var es := FindAll(doc, "entry");
    var index := GatherAllVariants(es, slug);
    if index.Fail? {
      return Fail(index.error);
    }
    var pr := ConvertEntries(es, Progress(conf.glossLg, conf.objLg, [], [], [], []), index.value, sep, slug);
    if pr.Fail? {
      return Fail(pr.error);
    }
    var from := MeaningSource(pr.value.glossLg);
    var langId := LanguageId(conf.languageId, pr.value.objLg);
    var morphs := PostPassAsWritten(MorphRows(pr.value.morphs), from, langId, sep);
    if morphs.Fail? {
      return Fail(morphs.error);
    }
    var morphemes := PostPassAsWritten(MorphemeRows(pr.value.morphemes), from, langId, sep);
    if morphemes.Fail? {
      return Fail(morphemes.error);
    }
    res := Ok(Output(morphs.value, morphemes.value, SenseRows(pr.value.senses), pr.value.examples));
  }

  // ---------------------------------------------------------------------------
  // What `convert` promises

  /** A document without entries fails: the morph table has no first row. */
  lemma EmptyDocumentFails(doc: Node, conf: Config, slug: string -> string)
    requires FindAll(doc, "entry") == []
    ensures ConvertSpec(doc, conf, slug) == Fail(IndexOutOfRange)
  {
  }

  /** Unfolds a successful conversion into its passes. */
  lemma ConvertParts(doc: Node, conf: Config, slug: string -> string)
    requires ConvertSpec(doc, conf, slug).Ok?
    ensures var es := FindAll(doc, "entry");
      var pr0 := Progress(conf.glossLg, conf.objLg, [], [], [], []);
      && GatherAll(es, map[], slug).Ok?
      && EntriesPass(es, pr0, GatherAll(es, map[], slug).value, Separator(conf), slug).Ok?
      && var pr := EntriesPass(es, pr0, GatherAll(es, map[], slug).value, Separator(conf), slug).value;
         var out := ConvertSpec(doc, conf, slug).value;
         && ParseDocument(doc, conf, slug) == Ok(pr)
         && out.morphemes == PostPassAsWritten(MorphemeRows(pr.morphemes), MeaningSource(pr.glossLg), LanguageId(conf.languageId, pr.objLg), Separator(conf)).value
         && out.morphs == PostPassAsWritten(MorphRows(pr.morphs), MeaningSource(pr.glossLg), LanguageId(conf.languageId, pr.objLg), Separator(conf)).value
         && out.senses == SenseRows(pr.senses) && out.examples == pr.examples
  {
  }

  /** Unfolds a successful corrected conversion into its passes. */
  lemma ConvertCorrectedParts(doc: Node, conf: Config, slug: string -> string)
    requires ConvertCorrected(doc, conf, slug).Ok?
    ensures var es := FindAll(doc, "entry");
      var pr0 := Progress(conf.glossLg, conf.objLg, [], [], [], []);
      && GatherAll(es, map[], slug).Ok?
      && EntriesPass(es, pr0, GatherAll(es, map[], slug).value, Separator(conf), slug).Ok?
      && var pr := EntriesPass(es, pr0, GatherAll(es, map[], slug).value, Separator(conf), slug).value;
         var out := ConvertCorrected(doc, conf, slug).value;
         && out.morphemes == PostPass(MorphemeRows(pr.morphemes), MeaningSource(pr.glossLg), LanguageId(conf.languageId, pr.objLg), Separator(conf)).value
         && out.morphs == PostPass(MorphRows(pr.morphs), MeaningSource(pr.glossLg), LanguageId(conf.languageId, pr.objLg), Separator(conf)).value
         && out.senses == SenseRows(pr.senses) && out.examples == pr.examples
  {
  }

  /** Through the post-pass as written, a morpheme's row keeps its `ID` (the
      first row's `ID` is a string, so that column is never joined) and gets
      the `Language_ID` stamp; any cell is a string exactly when its column's
      first cell is a list or it was a string already. */
  lemma PostMorphemeRow(ms: seq<Morpheme>, glossLg: Option<string>, langId: string, sep: string, k: nat)
    requires k < |ms| && AccumulatorKeys(ms[0].fields) && AccumulatorKeys(ms[k].fields)
    ensures PostPassAsWritten(MorphemeRows(ms), MeaningSource(glossLg), langId, sep).Ok?
    ensures var t := MorphemeRows(ms);
      var from := MeaningSource(glossLg);
      var out := PostPassAsWritten(t, from, langId, sep).value;
      && |out| == |ms|
      && "ID" in out[k] && out[k]["ID"] == Str(ms[k].id)
      && "Language_ID" in out[k] && out[k]["Language_ID"] == Str(langId)
      && (forall c :: c in out[k] ==> (out[k][c].Str? <==> JoinedColumn(t, from, langId, c) || PreparedCell(t[k], from, langId, c).Str?))
  {
    var from := MeaningSource(glossLg);
    var t := MorphemeRows(ms);
    assert from != "Language_ID" && from != "ID" by {
      assert from[0] == 'g';
    }
    AsWrittenRowCells(t, from, langId, sep, k);
    assert t[k] == MorphemeRow(ms[k]) && t[0] == MorphemeRow(ms[0]);
    MorphemeRowId(ms[k]);
    MorphemeRowId(ms[0]);
    PreparedKeeps(t[k], from, langId, "ID");
    PreparedKeeps(t[0], from, langId, "ID");
  }

  /** Through the corrected post-pass, a morpheme's row keeps its `ID`, gets
      the `Language_ID` stamp, and holds no list. */
  lemma PostMorphemeRowCorrected(ms: seq<Morpheme>, glossLg: Option<string>, langId: string, sep: string, k: nat)
    requires k < |ms| && AccumulatorKeys(ms[k].fields)
    ensures PostPass(MorphemeRows(ms), MeaningSource(glossLg), langId, sep).Ok?
    ensures var out := PostPass(MorphemeRows(ms), MeaningSource(glossLg), langId, sep).value;
      && |out| == |ms|
      && "ID" in out[k] && out[k]["ID"] == Str(ms[k].id)
      && "Language_ID" in out[k] && out[k]["Language_ID"] == Str(langId)
      && (forall c :: c in out[k] ==> out[k][c].Str?)
  {
    var from := MeaningSource(glossLg);
    var t := MorphemeRows(ms);
    assert from != "Language_ID" && from != "ID" by {
      assert from[0] == 'g';
    }
    PostPassRows(t, from, langId, sep, k);
    assert t[k] == MorphemeRow(ms[k]);
    MorphemeRowId(ms[k]);
    PostRowCells(t[k], Columns(Prepared(t, from, langId)), from, langId, sep);
  }

  /** The morpheme table has one row per entry, in document order: its `ID` is
      the entry's `guid` and its `Language_ID` the stamp; a cell is a string
      exactly when its column's first cell is a list or it was a string
      before the join. */
  lemma ConvertMorphemes(doc: Node, conf: Config, slug: string -> string, k: nat)
    requires ConvertSpec(doc, conf, slug).Ok?
    requires k < |ConvertSpec(doc, conf, slug).value.morphemes|
    ensures ParseDocument(doc, conf, slug).Ok?
    ensures var es := FindAll(doc, "entry");
      var pr := ParseDocument(doc, conf, slug).value;
      var t := MorphemeRows(pr.morphemes);
      var from := MeaningSource(pr.glossLg);
      var langId := LanguageId(conf.languageId, pr.objLg);
      var row := ConvertSpec(doc, conf, slug).value.morphemes[k];
      && |ConvertSpec(doc, conf, slug).value.morphemes| == |es|
      && "guid" in es[k].attrs
      && "ID" in row && row["ID"] == Str(es[k].attrs["guid"])
      && "Language_ID" in row && row["Language_ID"] == Str(langId)
      && (forall c :: c in row ==> (row[c].Str? <==> JoinedColumn(t, from, langId, c) || PreparedCell(t[k], from, langId, c).Str?))
  {
    ConvertParts(doc, conf, slug);
    var es := FindAll(doc, "entry");
    var sep := Separator(conf);
    var index := GatherAll(es, map[], slug).value;
    var pr0 := Progress(conf.glossLg, conf.objLg, [], [], [], []);
    var pr := EntriesPass(es, pr0, index, sep, slug).value;
    EntriesMorphemes(es, pr0, index, sep, slug);
    EntriesAccumulators(es, pr0, index, sep, slug);
    MorphemeIdAt(pr.morphemes, es, k);
    PostMorphemeRow(pr.morphemes, pr.glossLg, LanguageId(conf.languageId, pr.objLg), sep, k);
  }

  /** Under the corrected join the morpheme table has one row per entry, in
      document order: its `ID` is the entry's `guid`, its `Language_ID` the
      stamp, and no cell holds a list. */
  lemma ConvertMorphemesCorrected(doc: Node, conf: Config, slug: string -> string, k: nat)
    requires ConvertCorrected(doc, conf, slug).Ok?
    requires k < |ConvertCorrected(doc, conf, slug).value.morphemes|
    ensures var es := FindAll(doc, "entry");
      var row := ConvertCorrected(doc, conf, slug).value.morphemes[k];
      && |ConvertCorrected(doc, conf, slug).value.morphemes| == |es|
      && "guid" in es[k].attrs
      && "ID" in row && row["ID"] == Str(es[k].attrs["guid"])
      && "Language_ID" in row
      && (forall c :: c in row ==> row[c].Str?)
  {
    ConvertCorrectedParts(doc, conf, slug);
    var es := FindAll(doc, "entry");
    var sep := Separator(conf);
    var index := GatherAll(es, map[], slug).value;
    var pr0 := Progress(conf.glossLg, conf.objLg, [], [], [], []);
    var pr := EntriesPass(es, pr0, index, sep, slug).value;
    EntriesMorphemes(es, pr0, index, sep, slug);
    EntriesAccumulators(es, pr0, index, sep, slug);
    MorphemeIdAt(pr.morphemes, es, k);
    PostMorphemeRowCorrected(pr.morphemes, pr.glossLg, LanguageId(conf.languageId, pr.objLg), sep, k);
  }

  lemma {:induction false} MorphemeIdAt(ms: seq<Morpheme>, es: seq<Node>, k: nat)
    requires AllHave(es, "guid") && MorphemeIds(ms) == AttrValues(es, "guid") && k < |ms|
    ensures "guid" in es[k].attrs && ms[k].id == es[k].attrs["guid"]
  {
    var n := |ms| - 1;
    assert MorphemeIds(ms)[n] == AttrValues(es, "guid")[n];
    if k < n {
      assert AllHave(es[..n], "guid") by {
        forall j | 0 <= j < n ensures "guid" in es[..n][j].attrs { assert es[..n][j] == es[j]; }
      }
      assert MorphemeIds(ms[..n]) == MorphemeIds(ms)[..n];
      assert AttrValues(es[..n], "guid") == AttrValues(es, "guid")[..n];
      MorphemeIdAt(ms[..n], es[..n], k);
    }
  }

  /** Every morpheme the loop builds keeps only accumulated columns in its
      accumulator. */
  lemma {:induction false} EntriesAccumulators(es: seq<Node>, pr: Progress, index: VariantIndex, sep: string, slug: string -> string)
    requires EntriesPass(es, pr, index, sep, slug).Ok?
    requires forall i :: 0 <= i < |pr.morphemes| ==> AccumulatorKeys(pr.morphemes[i].fields)
    ensures var out := EntriesPass(es, pr, index, sep, slug).value;
      forall i :: 0 <= i < |out.morphemes| ==> AccumulatorKeys(out.morphemes[i].fields)
  {
    if es != [] {
      var init, last := es[..|es| - 1], es[|es| - 1];
      EntriesAccumulators(init, pr, index, sep, slug);
      var before := EntriesPass(init, pr, index, sep, slug).value;
      EntrySenses(last, before.senses, before.examples, index, sep, slug);
    }
  }

  /** The morpheme row's `ID` is the morpheme's own. */
  lemma MorphemeRowId(m: Morpheme)
    requires AccumulatorKeys(m.fields)
    ensures "ID" in MorphemeRow(m) && MorphemeRow(m)["ID"] == Str(m.id)
  {
    FixedColumnsNotAccumulated(m.fields);
  }

  /** The sense table has one row per sense of the document, in order, its
      `ID` the sense's `id`, its `Description` the sense's description and
      its `Entry_ID` the owning entry's `guid`. */
  lemma ConvertSenses(doc: Node, conf: Config, slug: string -> string, k: nat)
    requires ConvertSpec(doc, conf, slug).Ok?
    requires k < |ConvertSpec(doc, conf, slug).value.senses|
    ensures var es := FindAll(doc, "entry");
      var row := ConvertSpec(doc, conf, slug).value.senses[k];
      && SensesKeyed(es)
      && var recs := EntrySenseRecords(es, Separator(conf));
      && |ConvertSpec(doc, conf, slug).value.senses| == |recs|
      && row == map["ID" := Str(recs[k].id), "Description" := Str(recs[k].description),
                    "Entry_ID" := Str(recs[k].entryId)]
  {
    ConvertParts(doc, conf, slug);
    var es := FindAll(doc, "entry");
    var pr0 := Progress(conf.glossLg, conf.objLg, [], [], [], []);
    var pr := EntriesPass(es, pr0, GatherAll(es, map[], slug).value, Separator(conf), slug).value;
    EntriesSenses(es, pr0, GatherAll(es, map[], slug).value, Separator(conf), slug);
  }
}
