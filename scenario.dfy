/**
 * A worked conversion: one `stem` entry whose lexical unit has the single
 * form "taka" in language `cux`, with two senses glossed "to run" and
 * "to jump" in `en`, no definitions, no variants and no configuration.
 * The lemmas follow `convert` pass by pass down to the tables it writes.
 */
module Scenario {
  import opened LiftTree
  import opened Records
  import opened Variants
  import opened Meanings
  import opened Examples
  import opened Forms
  import opened Entries
  import opened Tables
  import opened Convert

  function Taka(): Node { Node("form", map["lang" := "cux"], "taka", []) }
  function Unit(): Node { Node("lexical-unit", map[], "", [Taka()]) }
  function Stem(): Node { Node("trait", map["name" := "morph-type", "value" := "stem"], "", []) }
  function Gloss(text: string): Node { Node("gloss", map["lang" := "en"], text, []) }
  /** A sense with one gloss in `en` and nothing else. */
  function GlossSense(id: string, text: string): Node { Node("sense", map["id" := id], "", [Gloss(text)]) }
  function Run(): Node { GlossSense("s1", "to run") }
  function Jump(): Node { GlossSense("s2", "to jump") }
  function Entry(): Node { Node("entry", map["guid" := "g1"], "", [Unit(), Stem(), Run(), Jump()]) }
  function Lexicon(): Node { Node("lift", map[], "", [Entry()]) }

  /** The entry's descendants in document order. */
  lemma EntryDescendants()
    ensures Descendants(Entry()) == [Unit(), Taka(), Stem(), Run(), Gloss("to run"), Jump(), Gloss("to jump")]
  {
    assert Forest([]) == [];
    assert Forest([Taka()]) == [Taka()];
    assert Forest([Gloss("to run")]) == [Gloss("to run")];
    assert Forest([Gloss("to jump")]) == [Gloss("to jump")];
    var cs := [Unit(), Stem(), Run(), Jump()];
    assert cs[1..] == [Stem(), Run(), Jump()];
    assert cs[1..][1..] == [Run(), Jump()];
    assert cs[1..][1..][1..] == [Jump()];
    assert [Jump()][1..] == [];
  }

  lemma SenseFacts(id: string, text: string)
    ensures var s := GlossSense(id, text);
      && Descendants(s) == [Gloss(text)]
      && Glosses(s) == [Gloss(text)]
      && DefinitionForms(s) == []
      && FindAll(s, "grammatical-info") == [] && FindAll(s, "example") == []
  {
    assert Forest([Gloss(text)]) == [Gloss(text)];
    assert [Gloss(text)][..0] == [];
  }

  // ---------------------------------------------------------------------------
  // Searching the entry

  /** Filtering a list that ends in `n` filters the rest, then keeps or drops `n`. */
  lemma NamedSnoc(ns: seq<Node>, n: Node, name: string)
    ensures Named(ns + [n], name) == if n.name == name then Named(ns, name) + [n] else Named(ns, name)
  {
    assert (ns + [n])[..|ns|] == ns;
  }

  /** `n` alone, if it is named `name`. */
  function Keep(n: Node, name: string): seq<Node>
  {
    if n.name == name then [n] else []
  }

  /** Filtering distributes over concatenation. */
  lemma {:induction false} NamedAppend(xs: seq<Node>, ys: seq<Node>, name: string)
    ensures Named(xs + ys, name) == Named(xs, name) + Named(ys, name)
  {
    if ys == [] {
      assert xs + ys == xs;
    } else {
      var init, last := ys[..|ys| - 1], ys[|ys| - 1];
      assert (xs + ys)[..|xs + ys| - 1] == xs + init;
      NamedAppend(xs, init, name);
    }
  }

  lemma ForestCons(c: Node, rest: seq<Node>)
    ensures Forest([c] + rest) == [c] + Forest(c.children) + Forest(rest)
  {
    assert ([c] + rest)[1..] == rest;
  }

  lemma NamedSingle(c: Node, name: string)
    ensures Named([c], name) == Keep(c, name)
  {
    assert [c][..0] == [];
  }

  lemma Named7(a: Node, b: Node, c: Node, e: Node, f: Node, g: Node, h: Node, name: string)
    ensures Named([a, b, c, e, f, g, h], name) == Named([a, b, c, e, f, g], name) + Keep(h, name)
  {
    NamedSnoc([a, b, c, e, f, g], h, name);
    assert [a, b, c, e, f, g, h] == [a, b, c, e, f, g] + [h];
  }

  lemma Named6(a: Node, b: Node, c: Node, e: Node, f: Node, g: Node, name: string)
    ensures Named([a, b, c, e, f, g], name) == Named([a, b, c, e, f], name) + Keep(g, name)
  {
    NamedSnoc([a, b, c, e, f], g, name);
    assert [a, b, c, e, f, g] == [a, b, c, e, f] + [g];
  }

  lemma Named5(a: Node, b: Node, c: Node, e: Node, f: Node, name: string)
    ensures Named([a, b, c, e, f], name) == Named([a, b, c, e], name) + Keep(f, name)
  {
    NamedSnoc([a, b, c, e], f, name);
    assert [a, b, c, e, f] == [a, b, c, e] + [f];
  }

  lemma Named4(a: Node, b: Node, c: Node, e: Node, name: string)
    ensures Named([a, b, c, e], name) == Named([a, b, c], name) + Keep(e, name)
  {
    NamedSnoc([a, b, c], e, name);
    assert [a, b, c, e] == [a, b, c] + [e];
  }

  lemma Named3(a: Node, b: Node, c: Node, name: string)
    ensures Named([a, b, c], name) == Keep(a, name) + Keep(b, name) + Keep(c, name)
  {
    NamedSnoc([a, b], c, name);
    assert [a, b, c] == [a, b] + [c];
    NamedSnoc([a], b, name);
    assert [a, b] == [a] + [b];
    NamedSingle(a, name);
  }

  /** Filtering the entry's descendants, seven nodes, by one element name. */
  lemma DescendantsNamed(name: string)
    ensures var a, b, c, e, f, g, h := Unit(), Taka(), Stem(), Run(), Gloss("to run"), Jump(), Gloss("to jump");
      FindAll(Entry(), name)
        == Keep(a, name) + Keep(b, name) + Keep(c, name) + Keep(e, name) + Keep(f, name) + Keep(g, name) + Keep(h, name)
  {
    EntryDescendants();
    var a, b, c, e, f, g, h := Unit(), Taka(), Stem(), Run(), Gloss("to run"), Jump(), Gloss("to jump");
    Named7(a, b, c, e, f, g, h, name);
    Named6(a, b, c, e, f, g, name);
    Named5(a, b, c, e, f, name);
    Named4(a, b, c, e, name);
    Named3(a, b, c, name);
  }

  // The searches `convert` and `parse_entry` make of the entry, one element
  // name at a time.

  /** The entry has no relation, no variant and no nested entry. */
  lemma Absent(name: string)
    requires name == "relation" || name == "variant" || name == "entry"
    ensures FindAll(Entry(), name) == []
  {
    DescendantsNamed(name);
  }

  lemma OneUnit()
    ensures FindAll(Entry(), "lexical-unit") == [Unit()]
  {
    DescendantsNamed("lexical-unit");
  }

  lemma OneForm()
    ensures FindAll(Entry(), "form") == [Taka()]
  {
    DescendantsNamed("form");
  }

  lemma TwoGlosses()
    ensures FindAll(Entry(), "gloss") == [Gloss("to run"), Gloss("to jump")]
  {
    DescendantsNamed("gloss");
  }

  lemma OneTrait()
    ensures FindAll(Entry(), "trait") == [Stem()]
  {
    DescendantsNamed("trait");
  }

  lemma SenseChildren()
    ensures ChildrenNamed(Entry(), "sense") == [Run(), Jump()]
  {
    var name := "sense";
    Named4(Unit(), Stem(), Run(), Jump(), name);
    Named3(Unit(), Stem(), Run(), name);
    assert Keep(Unit(), name) == [] && Keep(Stem(), name) == [];
    assert Keep(Run(), name) == [Run()] && Keep(Jump(), name) == [Jump()];
  }

  lemma UnitForms()
    ensures FindAll(Unit(), "form") == [Taka()]
  {
    assert Forest([Taka()]) == [Taka()];
    NamedSnoc([], Taka(), "form");
  }

  /** A document whose one child is an entry with no entry below it. */
  lemma {:induction false} OneEntry(e: Node)
    requires e.name == "entry" && FindAll(e, "entry") == []
    ensures FindAll(Node("lift", map[], "", [e]), "entry") == [e]
  {
    ForestCons(e, []);
    assert [e] + [] == [e];
    assert Forest([]) == [];
    var kids := Forest(e.children);
    assert [e] + kids + [] == [e] + kids;
    NamedAppend([e], kids, "entry");
    NamedSingle(e, "entry");
  }

  lemma LexiconEntries()
    ensures FindAll(Lexicon(), "entry") == [Entry()]
  {
    Absent("entry");
    OneEntry(Entry());
  }

  // ---------------------------------------------------------------------------
  // The entry, step by step

  /** The accumulator after both senses: the sense identifiers and the `en`
      glosses, in document order. */
  function Accumulated(): Fields
  {
    map["Parameter_ID" := ["s1", "s2"], "gloss_en" := ["to run", "to jump"]]
  }

  function RunSense(): Sense { Sense("s1", "to run", "g1") }
  function JumpSense(): Sense { Sense("s2", "to jump", "g1") }

  lemma EntryMorphType()
    ensures MorphType(Entry()) == Ok("stem")
  {
    OneTrait();
    assert [Stem()][..0] == [];
  }

  lemma EntryLanguages()
    ensures GlossLanguage(Entry()) == Ok(Some("en"))
    ensures ObjectLanguage(Entry()) == Ok(Some("cux"))
  {
    TwoGlosses();
    OneForm();
  }

  /** Its meanings: the gloss filed under `gloss_en`, and the gloss as the
      description. */
  lemma GlossSenseMeanings(id: string, text: string, f: Fields, sep: string)
    ensures Meanings.Meanings(GlossSense(id, text), f, sep) == Ok(Meaning(Push(f, "gloss_en", text), text))
  {
    SenseFacts(id, text);
    var g := Gloss(text);
    assert [g][..0] == [];
    assert AllHave([g], "lang");
    assert AppendTexts(f, "gloss_", []) == f;
    assert "gloss_" + g.attrs["lang"] == "gloss_en";
    assert AppendTexts(f, "gloss_", [g]) == Push(f, "gloss_en", text);
    assert Texts([g]) == [text];
    assert Describe([text], [], sep) == text;
  }

  /** A sense with a single `en` gloss files its identifier and its gloss,
      and is described by that gloss. */
  lemma GlossSenseStep(st: SenseState, id: string, text: string, entryId: string, sep: string, slug: string -> string)
    ensures SenseStep(st, GlossSense(id, text), entryId, sep, slug)
         == Ok(SenseState(st.poses, Push(Push(st.fields, "Parameter_ID", id), "gloss_en", text),
                          st.senses + [Sense(id, text, entryId)], st.examples))
  {
    SenseFacts(id, text);
    assert AttrValues([], "value") == [];
    GlossSenseMeanings(id, text, Push(st.fields, "Parameter_ID", id), sep);
    assert ExampleRecords([], entryId, slug) == Ok([]);
    assert st.examples + [] == st.examples;
    assert st.poses + [] == st.poses;
  }

  lemma FirstPushes(id: string, text: string)
    ensures Push(Push(InitialFields, "Parameter_ID", id), "gloss_en", text) == map["Parameter_ID" := [id], "gloss_en" := [text]]
  {
    var m := Push(InitialFields, "Parameter_ID", id);
    assert [] + [id] == [id];
    assert m == map["Parameter_ID" := [id]];
    assert Get(m, "gloss_en") + [text] == [text];
  }

  lemma SecondPushes(id1: string, text1: string, id2: string, text2: string)
    ensures Push(Push(map["Parameter_ID" := [id1], "gloss_en" := [text1]], "Parameter_ID", id2), "gloss_en", text2)
         == map["Parameter_ID" := [id1, id2], "gloss_en" := [text1, text2]]
  {
    var m := map["Parameter_ID" := [id1], "gloss_en" := [text1]];
    var m1 := Push(m, "Parameter_ID", id2);
    assert Get(m, "Parameter_ID") + [id2] == [id1, id2];
    assert m1.Keys == {"Parameter_ID", "gloss_en"};
    assert m1["gloss_en"] == [text1];
    assert m1 == map["Parameter_ID" := [id1, id2], "gloss_en" := [text1]];
    assert Get(m1, "gloss_en") + [text2] == [text1, text2];
  }

  /** The sense loop over two senses is their two steps. */
  lemma SensePassTwo(a: Node, b: Node, st: SenseState, entryId: string, sep: string, slug: string -> string)
    requires SenseStep(st, a, entryId, sep, slug).Ok?
    ensures SensePass([a, b], st, entryId, sep, slug) == SenseStep(SenseStep(st, a, entryId, sep, slug).value, b, entryId, sep, slug)
  {
    assert [a][..0] == [];
    assert SensePass([a], st, entryId, sep, slug) == SenseStep(st, a, entryId, sep, slug);
    assert [a, b][..1] == [a];
  }

  lemma FirstGlossSense(id: string, text: string, entryId: string, sep: string, slug: string -> string)
    ensures SenseStep(SenseState([], InitialFields, [], []), GlossSense(id, text), entryId, sep, slug)
         == Ok(SenseState([], map["Parameter_ID" := [id], "gloss_en" := [text]], [Sense(id, text, entryId)], []))
  {
    GlossSenseStep(SenseState([], InitialFields, [], []), id, text, entryId, sep, slug);
    FirstPushes(id, text);
    assert [] + [Sense(id, text, entryId)] == [Sense(id, text, entryId)];
  }

  lemma SecondGlossSense(id1: string, text1: string, id2: string, text2: string, entryId: string, sep: string, slug: string -> string)
    ensures SenseStep(SenseState([], map["Parameter_ID" := [id1], "gloss_en" := [text1]], [Sense(id1, text1, entryId)], []),
                      GlossSense(id2, text2), entryId, sep, slug)
         == Ok(SenseState([], map["Parameter_ID" := [id1, id2], "gloss_en" := [text1, text2]],
                          [Sense(id1, text1, entryId), Sense(id2, text2, entryId)], []))
  {
    var st1 := SenseState([], map["Parameter_ID" := [id1], "gloss_en" := [text1]], [Sense(id1, text1, entryId)], []);
    GlossSenseStep(st1, id2, text2, entryId, sep, slug);
    SecondPushes(id1, text1, id2, text2);
    assert st1.senses + [Sense(id2, text2, entryId)] == [Sense(id1, text1, entryId), Sense(id2, text2, entryId)];
  }

  /** Two single-gloss senses: both identifiers and both glosses filed in
      order, and one sense record each. */
  lemma TwoGlossSenses(id1: string, text1: string, id2: string, text2: string, entryId: string, sep: string, slug: string -> string)
    ensures SensePass([GlossSense(id1, text1), GlossSense(id2, text2)], SenseState([], InitialFields, [], []), entryId, sep, slug)
         == Ok(SenseState([], map["Parameter_ID" := [id1, id2], "gloss_en" := [text1, text2]],
                          [Sense(id1, text1, entryId), Sense(id2, text2, entryId)], []))
  {
    FirstGlossSense(id1, text1, entryId, sep, slug);
    SecondGlossSense(id1, text1, id2, text2, entryId, sep, slug);
    SensePassTwo(GlossSense(id1, text1), GlossSense(id2, text2), SenseState([], InitialFields, [], []), entryId, sep, slug);
  }

  lemma EntrySensePass(slug: string -> string)
    ensures SensePass([Run(), Jump()], SenseState([], InitialFields, [], []), "g1", "; ", slug)
         == Ok(SenseState([], Accumulated(), [RunSense(), JumpSense()], []))
  {
    TwoGlossSenses("s1", "to run", "s2", "to jump", "g1", "; ", slug);
  }

  // ---------------------------------------------------------------------------
  // Forms and morphs

  lemma EntryFormSets()
    ensures FormSets(Entry(), "stem") == Ok([FormSet("stem", [Taka()])])
  {
    OneUnit();
    UnitForms();
    Absent("variant");
  }

  /** A single form-set of a single form makes one morph, numbered 0. */
  lemma OneFormMorphs(form: Node, morphType: string, entryId: string, fields: Fields)
    ensures SetMorphs([FormSet(morphType, [form])], entryId, fields)
         == [Morph(IdOf(entryId, 0), form.text, morphType, entryId, fields)]
  {
    assert [FormSet(morphType, [form])][..0] == [];
    assert AllForms([]) == [];
    assert [form][..0] == [];
    var m := Morph(IdOf(entryId, 0), form.text, morphType, entryId, fields);
    assert NumberedMorphs([form], entryId, morphType, fields, 0) == [m];
    assert [] + [m] == [m];
  }

  lemma FirstId()
    ensures IdOf("g1", 0) == "g1-0"
  {
    assert NatToString(0) == "0";
  }

  function TheMorph(): Morph
  {
    Morph("g1-0", "taka", "stem", "g1", Accumulated())
  }

  function TheMorpheme(): Morpheme
  {
    Morpheme("g1", [], "stem", ["taka"], "taka", Accumulated())
  }

  lemma EntryMorphs()
    ensures SetMorphs([FormSet("stem", [Taka()])], "g1", Accumulated()) + DescriptorMorphs(Lookup(map[], "g1"), "g1", Accumulated())
         == [TheMorph()]
  {
    OneFormMorphs(Taka(), "stem", "g1", Accumulated());
    FirstId();
    assert DescriptorMorphs([], "g1", Accumulated()) == [];
    assert [TheMorph()] + [] == [TheMorph()];
  }

  lemma OneMorphForms(m: Morph)
    ensures MorphForms([m]) == [m.form]
  {
    assert [m][..0] == [];
  }

  /** `parse_entry` on the entry: one morpheme, one morph, two senses, no
      examples. */
  lemma EntryParsed(slug: string -> string)
    ensures EntrySpec(Entry(), [], [], map[], "; ", slug) == Ok(Parsed(TheMorpheme(), [TheMorph()], [RunSense(), JumpSense()], []))
  {
    EntryMorphType();
    SenseChildren();
    EntrySensePass(slug);
    EntryFormSets();
    EntryMorphs();
    OneMorphForms(TheMorph());
  }

  // ---------------------------------------------------------------------------
  // The passes of `convert`

  lemma LexiconGathered(slug: string -> string)
    ensures GatherAll([Entry()], map[], slug) == Ok(map[])
  {
    assert [Entry()][..0] == [];
    Absent("relation");
  }

  function Parsed1(): Progress
  {
    Progress(Some("en"), Some("cux"), [TheMorpheme()], [TheMorph()], [RunSense(), JumpSense()], [])
  }

  /** The entry loop over one entry is its one step. */
  lemma EntriesPassOne(e: Node, pr: Progress, index: VariantIndex, sep: string, slug: string -> string)
    ensures EntriesPass([e], pr, index, sep, slug) == EntryStep(pr, e, index, sep, slug)
  {
    assert [e][..0] == [];
  }

  /** From an unset configuration, one entry's step takes its languages from
      the entry and appends what `parse_entry` returns. */
  lemma FirstStep(e: Node, index: VariantIndex, sep: string, slug: string -> string, glossLg: string, objLg: string, p: Parsed)
    requires GlossLanguage(e) == Ok(Some(glossLg)) && ObjectLanguage(e) == Ok(Some(objLg))
    requires EntrySpec(e, [], [], index, sep, slug) == Ok(p)
    ensures EntryStep(Progress(None, None, [], [], [], []), e, index, sep, slug)
         == Ok(Progress(Some(glossLg), Some(objLg), [p.morpheme], p.morphs, p.senses, p.examples))
  {
    var pr := Progress(None, None, [], [], [], []);
    assert Settle(pr.glossLg, GlossLanguage(e)) == Ok(Some(glossLg));
    assert Settle(pr.objLg, ObjectLanguage(e)) == Ok(Some(objLg));
    assert [] + [p.morpheme] == [p.morpheme];
    assert [] + p.morphs == p.morphs;
  }

  lemma LexiconEntriesPass(slug: string -> string)
    ensures EntriesPass([Entry()], Progress(None, None, [], [], [], []), map[], "; ", slug) == Ok(Parsed1())
  {
    EntriesPassOne(Entry(), Progress(None, None, [], [], [], []), map[], "; ", slug);
    EntryLanguages();
    EntryParsed(slug);
    FirstStep(Entry(), map[], "; ", slug, "en", "cux", Parsed(TheMorpheme(), [TheMorph()], [RunSense(), JumpSense()], []));
  }

  // ---------------------------------------------------------------------------
  // The post-pass and the tables

  lemma OneRowColumns(r: Record)
    ensures Columns([r]) == r.Keys
  {
    forall c | c in r ensures c in Columns([r]) {
      assert c in [r][0];
    }
  }

  /** `out` is `r` through the post-pass: the gloss column `from` becomes
      `Meaning`, `Language_ID` is added, and every other cell is kept with
      its lists joined. */
  predicate PostPassed(r: Record, out: Record, from: string, langId: string, sep: string)
    requires from in r
  {
    && out.Keys == (r.Keys - {from}) + {"Meaning", "Language_ID"}
    && out["Meaning"] == Flat(r[from], sep)
    && out["Language_ID"] == Str(langId)
    && forall c :: c in r && c != from && c != "Meaning" && c != "Language_ID" ==> out[c] == Flat(r[c], sep)
  }

  /** The post-pass of a one-row table whose row has the gloss column. */
  lemma SingleRowPostPass(r: Record, from: string, langId: string, sep: string)
    requires from in r && from != "Language_ID"
    ensures PostPass([r], from, langId, sep).Ok?
    ensures var out := PostPass([r], from, langId, sep).value;
      |out| == 1 && PostPassed(r, out[0], from, langId, sep)
  {
    PostPassRows([r], from, langId, sep, 0);
    PreparedColumns([r], from, langId);
    OneRowColumns(r);
    PostRowCells(r, Columns(Prepared([r], from, langId)), from, langId, sep);
  }

  lemma AccumulatedKeys()
    ensures AccumulatorKeys(Accumulated())
    ensures Accumulated().Keys == {"Parameter_ID", "gloss_en"}
  {
    assert HasPrefix("gloss_en", "gloss_");
  }

  lemma JoinTwo(a: string, b: string, sep: string)
    ensures Join([a, b], sep) == a + sep + b
  {
    assert [a, b][..1] == [a];
  }

  lemma JoinedCells()
    ensures Flat(List(["to run", "to jump"]), "; ") == Str("to run; to jump")
    ensures Flat(List(["s1", "s2"]), "; ") == Str("s1; s2")
  {
    JoinTwo("to run", "to jump", "; ");
    JoinTwo("s1", "s2", "; ");
  }

  /** The morph table written out: the morph's four columns, the joined
      sense identifiers and glosses, and the stamp. */
  function MorphOut(): Record
  {
    map["ID" := Str("g1-0"), "Form" := Str("taka"), "Type" := Str("stem"), "Morpheme_ID" := Str("g1"),
        "Parameter_ID" := Str("s1; s2"), "Meaning" := Str("to run; to jump"), "Language_ID" := Str("cux")]
  }

  /** The morpheme table written out: the empty category list and the one
      form joined to strings. */
  function MorphemeOut(): Record
  {
    map["ID" := Str("g1"), "Gramm" := Str(""), "Type" := Str("stem"), "Form" := Str("taka"), "Name" := Str("taka"),
        "Parameter_ID" := Str("s1; s2"), "Meaning" := Str("to run; to jump"), "Language_ID" := Str("cux")]
  }

  lemma MorphOutCells(out: Record)
    requires out.Keys == {"ID", "Form", "Type", "Morpheme_ID", "Parameter_ID", "Meaning", "Language_ID"}
    requires out["ID"] == Str("g1-0") && out["Form"] == Str("taka") && out["Type"] == Str("stem") && out["Morpheme_ID"] == Str("g1")
    requires out["Parameter_ID"] == Str("s1; s2") && out["Meaning"] == Str("to run; to jump") && out["Language_ID"] == Str("cux")
    ensures out == MorphOut()
  {
  }

  lemma TheMorphRow()
    ensures var r := MorphRow(TheMorph());
      && r.Keys == {"ID", "Form", "Type", "Morpheme_ID", "Parameter_ID", "gloss_en"}
      && r["ID"] == Str("g1-0") && r["Form"] == Str("taka") && r["Type"] == Str("stem") && r["Morpheme_ID"] == Str("g1")
      && r["Parameter_ID"] == List(["s1", "s2"]) && r["gloss_en"] == List(["to run", "to jump"])
  {
    AccumulatedKeys();
    MorphRowColumns(TheMorph());
  }

  /** The morph row's cells through the post-pass. */
  lemma MorphOutFromRow(r: Record, out: Record)
    requires r == MorphRow(TheMorph()) && "gloss_en" in r
    requires PostPassed(r, out, "gloss_en", "cux", "; ")
    ensures out == MorphOut()
  {
    TheMorphRow();
    JoinedCells();
    assert out["ID"] == Flat(r["ID"], "; ");
    assert out["Form"] == Flat(r["Form"], "; ");
    assert out["Type"] == Flat(r["Type"], "; ");
    assert out["Morpheme_ID"] == Flat(r["Morpheme_ID"], "; ");
    assert out["Parameter_ID"] == Flat(r["Parameter_ID"], "; ");
    MorphOutCells(out);
  }

  /** A one-morph table through the post-pass is that morph's row through it. */
  lemma OneMorphTable(m: Morph, from: string, langId: string, sep: string)
    requires from in MorphRow(m) && from != "Language_ID"
    ensures PostPass(MorphRows([m]), from, langId, sep).Ok?
    ensures var out := PostPass(MorphRows([m]), from, langId, sep).value;
      out == [out[0]] && PostPassed(MorphRow(m), out[0], from, langId, sep)
    ensures PostPassAsWritten(MorphRows([m]), from, langId, sep) == PostPass(MorphRows([m]), from, langId, sep)
  {
    assert MorphRows([m]) == [MorphRow(m)];
    SingleRowPostPass(MorphRow(m), from, langId, sep);
    OneRowAgrees(MorphRow(m), from, langId, sep);
  }

  lemma MorphTable()
    ensures PostPass(MorphRows([TheMorph()]), "gloss_en", "cux", "; ") == Ok([MorphOut()])
    ensures PostPassAsWritten(MorphRows([TheMorph()]), "gloss_en", "cux", "; ") == Ok([MorphOut()])
  {
    TheMorphRow();
    OneMorphTable(TheMorph(), "gloss_en", "cux", "; ");
    var out := PostPass(MorphRows([TheMorph()]), "gloss_en", "cux", "; ").value;
    MorphOutFromRow(MorphRow(TheMorph()), out[0]);
  }

  lemma MorphemeOutCells(out: Record)
    requires out.Keys == {"ID", "Gramm", "Type", "Form", "Name", "Parameter_ID", "Meaning", "Language_ID"}
    requires out["ID"] == Str("g1") && out["Gramm"] == Str("") && out["Type"] == Str("stem") && out["Form"] == Str("taka")
    requires out["Name"] == Str("taka") && out["Parameter_ID"] == Str("s1; s2") && out["Meaning"] == Str("to run; to jump")
    requires out["Language_ID"] == Str("cux")
    ensures out == MorphemeOut()
  {
  }

  lemma TheMorphemeRow()
    ensures var r := MorphemeRow(TheMorpheme());
      && r.Keys == {"ID", "Gramm", "Type", "Form", "Name", "Parameter_ID", "gloss_en"}
      && r["ID"] == Str("g1") && r["Gramm"] == List([]) && r["Type"] == Str("stem") && r["Form"] == List(["taka"])
      && r["Name"] == Str("taka") && r["Parameter_ID"] == List(["s1", "s2"]) && r["gloss_en"] == List(["to run", "to jump"])
  {
    AccumulatedKeys();
    FixedColumnsNotAccumulated(Accumulated());
  }

  /** The morpheme row's cells through the post-pass. */
  lemma MorphemeOutFromRow(r: Record, out: Record)
    requires r == MorphemeRow(TheMorpheme()) && "gloss_en" in r
    requires PostPassed(r, out, "gloss_en", "cux", "; ")
    ensures out == MorphemeOut()
  {
    TheMorphemeRow();
    JoinedCells();
    assert Join([], "; ") == "" && Join(["taka"], "; ") == "taka";
    assert out["ID"] == Flat(r["ID"], "; ");
    assert out["Gramm"] == Flat(r["Gramm"], "; ");
    assert out["Type"] == Flat(r["Type"], "; ");
    assert out["Form"] == Flat(r["Form"], "; ");
    assert out["Name"] == Flat(r["Name"], "; ");
    assert out["Parameter_ID"] == Flat(r["Parameter_ID"], "; ");
    MorphemeOutCells(out);
  }

  /** A one-morpheme table through the post-pass is that morpheme's row
      through it. */
  lemma OneMorphemeTable(m: Morpheme, from: string, langId: string, sep: string)
    requires from in MorphemeRow(m) && from != "Language_ID"
    ensures PostPass(MorphemeRows([m]), from, langId, sep).Ok?
    ensures var out := PostPass(MorphemeRows([m]), from, langId, sep).value;
      out == [out[0]] && PostPassed(MorphemeRow(m), out[0], from, langId, sep)
    ensures PostPassAsWritten(MorphemeRows([m]), from, langId, sep) == PostPass(MorphemeRows([m]), from, langId, sep)
  {
    assert MorphemeRows([m]) == [MorphemeRow(m)];
    SingleRowPostPass(MorphemeRow(m), from, langId, sep);
    OneRowAgrees(MorphemeRow(m), from, langId, sep);
  }

  lemma MorphemeTable()
    ensures PostPass(MorphemeRows([TheMorpheme()]), "gloss_en", "cux", "; ") == Ok([MorphemeOut()])
    ensures PostPassAsWritten(MorphemeRows([TheMorpheme()]), "gloss_en", "cux", "; ") == Ok([MorphemeOut()])
  {
    TheMorphemeRow();
    OneMorphemeTable(TheMorpheme(), "gloss_en", "cux", "; ");
    var out := PostPass(MorphemeRows([TheMorpheme()]), "gloss_en", "cux", "; ").value;
    MorphemeOutFromRow(MorphemeRow(TheMorpheme()), out[0]);
  }

  /** A conversion whose passes all succeed produces their tables. */
  lemma ConvertOf(doc: Node, conf: Config, slug: string -> string, es: seq<Node>, index: VariantIndex, pr: Progress,
                  from: string, langId: string, morphs: Table, morphemes: Table)
    requires FindAll(doc, "entry") == es && GatherAll(es, map[], slug) == Ok(index)
    requires EntriesPass(es, Progress(conf.glossLg, conf.objLg, [], [], [], []), index, Separator(conf), slug) == Ok(pr)
    requires MeaningSource(pr.glossLg) == from && LanguageId(conf.languageId, pr.objLg) == langId
    requires PostPassAsWritten(MorphRows(pr.morphs), from, langId, Separator(conf)) == Ok(morphs)
    requires PostPassAsWritten(MorphemeRows(pr.morphemes), from, langId, Separator(conf)) == Ok(morphemes)
    ensures ConvertSpec(doc, conf, slug) == Ok(Output(morphs, morphemes, SenseRows(pr.senses), pr.examples))
  {
  }

  lemma LexiconStamps()
    ensures MeaningSource(Parsed1().glossLg) == "gloss_en"
    ensures LanguageId(None, Parsed1().objLg) == "cux"
  {
  }

  lemma LexiconSenseRows()
    ensures SenseRows(Parsed1().senses) == [SenseRow(RunSense()), SenseRow(JumpSense())]
  {
  }

  /** `convert` on the one-entry lexicon with no configuration: the
      languages come from the entry, and the three tables hold one morph,
      one morpheme and two senses; there are no examples. */
  lemma WorkedExample(slug: string -> string)
    ensures ConvertSpec(Lexicon(), Config(None, None, None, None), slug)
         == Ok(Output([MorphOut()], [MorphemeOut()], [SenseRow(RunSense()), SenseRow(JumpSense())], []))
  {
    LexiconEntries();
    LexiconGathered(slug);
    LexiconEntriesPass(slug);
    LexiconStamps();
    MorphTable();
    MorphemeTable();
    LexiconSenseRows();
    ConvertOf(Lexicon(), Config(None, None, None, None), slug, [Entry()], map[], Parsed1(), "gloss_en", "cux", [MorphOut()], [MorphemeOut()]);
  }
}
