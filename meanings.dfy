/**
 * The meaning resolver (`extract_meanings`): a sense's gloss and definition
 * texts are appended, language by language, to the entry-wide accumulator,
 * and the sense's description is chosen from them.
 */
module Meanings {
  import opened LiftTree
  import opened Records

  /** The `form`s of each definition in `defs`, definition by definition. */
  function FormsOf(defs: seq<Node>): seq<Node>
  {
    if defs == [] then [] else FormsOf(defs[..|defs| - 1]) + FindAll(defs[|defs| - 1], "form")
  }

  /** The definition forms of a sense, in the order lines 40-41 visit them. */
  function DefinitionForms(sense: Node): seq<Node>
  {
    FormsOf(FindAll(sense, "definition"))
  }

  function Glosses(sense: Node): seq<Node>
  {
    FindAll(sense, "gloss")
  }

  /** Appending each node's text to the list under `prefix + lang`, in order. */
  function AppendTexts(f: Fields, prefix: string, ns: seq<Node>): Fields
    requires AllHave(ns, "lang")
  {
    if ns == [] then f
    else
      var last := ns[|ns| - 1];
      Push(AppendTexts(f, prefix, ns[..|ns| - 1]), prefix + last.attrs["lang"], last.text)
  }

  /** The texts of the nodes of `ns` whose `prefix + lang` is `k`, in order. */
  function TextsUnder(ns: seq<Node>, prefix: string, k: string): seq<string>
    requires AllHave(ns, "lang")
  {
    if ns == [] then []
    else
      var last := ns[|ns| - 1];
      TextsUnder(ns[..|ns| - 1], prefix, k) + (if prefix + last.attrs["lang"] == k then [last.text] else [])
  }

  function LangKeys(ns: seq<Node>, prefix: string): set<string>
    requires AllHave(ns, "lang")
  {
    set i | 0 <= i < |ns| :: prefix + ns[i].attrs["lang"]
  }

  lemma {:induction false} LangKeysSnoc(ns: seq<Node>, prefix: string)
    requires ns != [] && AllHave(ns, "lang")
    ensures LangKeys(ns, prefix) == LangKeys(ns[..|ns| - 1], prefix) + {prefix + ns[|ns| - 1].attrs["lang"]}
  {
    var init := ns[..|ns| - 1];
    forall x | x in LangKeys(ns, prefix) ensures x in LangKeys(init, prefix) + {prefix + ns[|ns| - 1].attrs["lang"]} {
      var i :| 0 <= i < |ns| && prefix + ns[i].attrs["lang"] == x;
      if i < |init| { assert init[i] == ns[i]; }
    }
    forall x | x in LangKeys(init, prefix) ensures x in LangKeys(ns, prefix) {
      var i :| 0 <= i < |init| && prefix + init[i].attrs["lang"] == x;
      assert ns[i] == init[i];
    }
  }

  /** Appending files every node under `prefix + lang` and drops no key. */
  lemma {:induction false} AppendTextsDomain(f: Fields, prefix: string, ns: seq<Node>)
    requires AllHave(ns, "lang")
    ensures AppendTexts(f, prefix, ns).Keys == f.Keys + LangKeys(ns, prefix)
  {
    if ns != [] {
      AppendTextsDomain(f, prefix, ns[..|ns| - 1]);
      LangKeysSnoc(ns, prefix);
    }
  }

  /** Appending only extends: each list gains exactly the texts filed under its
      key, after what it held. */
  lemma {:induction false} AppendTextsContents(f: Fields, prefix: string, ns: seq<Node>)
    requires AllHave(ns, "lang")
    ensures forall k :: Get(AppendTexts(f, prefix, ns), k) == Get(f, k) + TextsUnder(ns, prefix, k)
  {
    if ns != [] {
      var init, last := ns[..|ns| - 1], ns[|ns| - 1];
      AppendTextsContents(f, prefix, init);
      var key := prefix + last.attrs["lang"];
      forall k ensures Get(AppendTexts(f, prefix, ns), k) == Get(f, k) + TextsUnder(ns, prefix, k) {
        AppendAssoc(Get(f, k), TextsUnder(init, prefix, k), if key == k then [last.text] else []);
      }
    }
  }

  lemma {:induction false} AppendTextsKeys(f: Fields, prefix: string, ns: seq<Node>)
    requires AllHave(ns, "lang")
    requires AccumulatorKeys(f)
    requires prefix == "gloss_" || prefix == "definition_"
    ensures AccumulatorKeys(AppendTexts(f, prefix, ns))
  {
    if ns != [] {
      AppendTextsKeys(f, prefix, ns[..|ns| - 1]);
      var key := prefix + ns[|ns| - 1].attrs["lang"];
      assert key[..|prefix|] == prefix;
    }
  }

  datatype Meaning = Meaning(fields: Fields, description: string)

  /** The description returned at lines 46-51. */
  function Describe(glosses: seq<string>, definitions: seq<string>, sep: string): string
  {
    if definitions != [] then Join(definitions, sep)
    else if glosses != [] then Join(glosses, sep)
    else ""
  }

  /** The description a sense element gets: its definition texts, else its
      gloss texts, joined by the separator. */
  function Description(sense: Node, sep: string): string
  {
    Describe(Texts(Glosses(sense)), Texts(DefinitionForms(sense)), sep)
  }

  /** What `extract_meanings` leaves in the accumulator and returns, or the
      KeyError of a gloss or definition form without `lang`. */
  function Meanings(sense: Node, fields: Fields, sep: string): Result<Meaning>
  {
    var gs, ds := Glosses(sense), DefinitionForms(sense);
    if !AllHave(gs, "lang") || !AllHave(ds, "lang") then Fail(MissingAttribute("lang"))
    else
      Ok(Meaning(AppendTexts(AppendTexts(fields, "gloss_", gs), "definition_", ds),
                 Description(sense, sep)))
  }

  lemma {:induction false} AppendTextsConcat(f: Fields, prefix: string, xs: seq<Node>, ys: seq<Node>)
    requires AllHave(xs, "lang") && AllHave(ys, "lang")
    ensures AllHave(xs + ys, "lang")
    ensures AppendTexts(f, prefix, xs + ys) == AppendTexts(AppendTexts(f, prefix, xs), prefix, ys)
  {
    var zs := xs + ys;
    assert AllHave(zs, "lang") by {
      forall i | 0 <= i < |zs| ensures "lang" in zs[i].attrs {
        if i < |xs| { assert zs[i] == xs[i]; } else { assert zs[i] == ys[i - |xs|]; }
      }
    }
    if ys == [] {
      assert zs == xs;
    } else {
      var init, last := ys[..|ys| - 1], ys[|ys| - 1];
      assert zs[..|zs| - 1] == xs + init && zs[|zs| - 1] == last;
      assert AllHave(init, "lang") by {
        forall i | 0 <= i < |init| ensures "lang" in init[i].attrs { assert init[i] == ys[i]; }
      }
      AppendTextsConcat(f, prefix, xs, init);
      var g := AppendTexts(f, prefix, xs);
      var key := prefix + last.attrs["lang"];
      assert AppendTexts(g, prefix, ys) == Push(AppendTexts(g, prefix, init), key, last.text);
      AppendTextsSnoc(f, prefix, zs);
      var front := zs[..|zs| - 1];
      assert AppendTexts(f, prefix, front) == AppendTexts(f, prefix, xs + init);
    }
  }

  lemma AppendTextsSnoc(f: Fields, prefix: string, ns: seq<Node>)
    requires ns != [] && AllHave(ns, "lang")
    ensures AllHave(ns[..|ns| - 1], "lang")
    ensures AppendTexts(f, prefix, ns)
         == Push(AppendTexts(f, prefix, ns[..|ns| - 1]), prefix + ns[|ns| - 1].attrs["lang"], ns[|ns| - 1].text)
  {
  }

  /** Filing `ns[i]` extends the state filed from `ns[..i]` to that of
      `ns[..i + 1]`. */
  lemma FileTextsStep(fields: Fields, prefix: string, ns: seq<Node>, i: nat, f: Fields, collected: seq<string>, texts: seq<string>)
    requires i < |ns| && AllHave(ns[..i], "lang") && "lang" in ns[i].attrs
    requires f == AppendTexts(fields, prefix, ns[..i]) && texts == collected + Texts(ns[..i])
    ensures AllHave(ns[..i + 1], "lang")
    ensures Push(f, prefix + ns[i].attrs["lang"], ns[i].text) == AppendTexts(fields, prefix, ns[..i + 1])
    ensures texts + [ns[i].text] == collected + Texts(ns[..i + 1])
  {
    assert ns[..i + 1][..i] == ns[..i];
    AllHaveSnoc(ns[..i + 1], "lang");
    AppendAssoc(collected, Texts(ns[..i]), [ns[i].text]);
  }

  lemma FormsOfSnoc(defs: seq<Node>, j: nat)
    requires j < |defs|
    ensures FormsOf(defs[..j + 1]) == FormsOf(defs[..j]) + FindAll(defs[j], "form")
  {
    assert defs[..j + 1][..j] == defs[..j];
  }

  lemma NotAllHaveInside(pre: seq<Node>, mid: seq<Node>, post: seq<Node>, key: string)
    requires !AllHave(mid, key)
    ensures !AllHave(pre + mid + post, key)
  {
    var k :| 0 <= k < |mid| && key !in mid[k].attrs;
    assert (pre + mid + post)[|pre| + k] == mid[k];
  }

  lemma {:induction false} MissingLangInForms(defs: seq<Node>, j: nat)
    requires j < |defs| && !AllHave(FindAll(defs[j], "form"), "lang")
    ensures !AllHave(FormsOf(defs), "lang")
  {
    var init, last := defs[..|defs| - 1], FindAll(defs[|defs| - 1], "form");
    if j == |defs| - 1 {
      NotAllHaveInside(FormsOf(init), last, [], "lang");
      assert FormsOf(init) + last + [] == FormsOf(defs);
    } else {
      assert init[j] == defs[j];
      MissingLangInForms(init, j);
      NotAllHaveInside([], FormsOf(init), last, "lang");
      assert [] + FormsOf(init) + last == FormsOf(defs);
    }
  }

  /** Lines 37-39 and 43-45: start the list under `key` if there is none,
      then append `text` to it. */
  method FileText(fields: Fields, key: string, text: string) returns (f: Fields)
    ensures f == Push(fields, key, text)
  {
    f := fields;
    if key !in f {
      f := f[key := []];
    }
    f := f[key := f[key] + [text]];
  }

  /** The loop body shared by lines 35-39 and 41-45: file each node's text
      under `prefix + lang` and collect it; a KeyError when a node has no
      `lang`. */
  method FileTexts(ns: seq<Node>, prefix: string, fields: Fields, collected: seq<string>)
    returns (res: Result<(Fields, seq<string>)>)
    ensures res.Ok? <==> AllHave(ns, "lang")
    ensures res.Fail? ==> res.error == MissingAttribute("lang")
    ensures res.Ok? ==> res.value == (AppendTexts(fields, prefix, ns), collected + Texts(ns))
  {
    var f := fields;
    var texts := collected;
    var i := 0;
    while i < |ns|
      invariant 0 <= i <= |ns|
      invariant AllHave(ns[..i], "lang")
      invariant f == AppendTexts(fields, prefix, ns[..i])
      invariant texts == collected + Texts(ns[..i])
    {
      var n := ns[i];
      if "lang" !in n.attrs {
        return Fail(MissingAttribute("lang"));
      }
      FileTextsStep(fields, prefix, ns, i, f, collected, texts);
      f := FileText(f, prefix + n.attrs["lang"], n.text);
      texts := texts + [n.text];
      i := i + 1;
    }
    assert ns[..i] == ns;
    res := Ok((f, texts));
  }

  /** `extract_meanings(sense, fields, entry_id, sep)`: the accumulator passed
      by value and returned updated together with the description. */
  method ExtractMeanings(sense: Node, fields: Fields, sep: string) returns (res: Result<Meaning>)
    ensures res == Meanings(sense, fields, sep)
  {
    var gs := FindAll(sense, "gloss");
    var filed := FileTexts(gs, "gloss_", fields, []);
    if filed.Fail? {
      return Fail(filed.error);
    }
    var (f, glosses) := filed.value;
    assert glosses == Texts(gs);

    ghost var afterGlosses := f;
    var defs := FindAll(sense, "definition");
    var definitions: seq<string> := [];
    var j := 0;
    while j < |defs|
      invariant 0 <= j <= |defs|
      invariant AllHave(FormsOf(defs[..j]), "lang")
      invariant f == AppendTexts(afterGlosses, "definition_", FormsOf(defs[..j]))
      invariant definitions == Texts(FormsOf(defs[..j]))
    {
      ghost var done := FormsOf(defs[..j]);
      var forms := FindAll(defs[j], "form");
      FormsOfSnoc(defs, j);
      var more := FileTexts(forms, "definition_", f, definitions);
      if more.Fail? {
        MissingLangInForms(defs, j);
        return Fail(more.error);
      }
      AppendTextsConcat(afterGlosses, "definition_", done, forms);
      TextsAppend(done, forms);
      f, definitions := more.value.0, more.value.1;
      j := j + 1;
    }
    assert defs[..j] == defs;

    var description := "";
    if definitions != [] {
      description := Join(definitions, sep);
    } else if glosses != [] {
      description := Join(glosses, sep);
    }
    res := Ok(Meaning(f, description));
  }

  /** The promises of `extract_meanings`: it fails only on a missing `lang`;
      the description is the joined definition texts if there are any, else
      the joined gloss texts, else empty; and the accumulator only grows, each
      list by exactly the gloss and definition texts filed under its key, in
      document order. */
  lemma MeaningsContents(sense: Node, fields: Fields, sep: string)
    ensures Meanings(sense, fields, sep).Ok? <==>
      AllHave(Glosses(sense), "lang") && AllHave(DefinitionForms(sense), "lang")
    ensures Meanings(sense, fields, sep).Ok? ==>
      var m := Meanings(sense, fields, sep).value;
      var gs, ds := Glosses(sense), DefinitionForms(sense);
      && (ds != [] ==> m.description == Join(Texts(ds), sep))
      && (ds == [] && gs != [] ==> m.description == Join(Texts(gs), sep))
      && (ds == [] && gs == [] ==> m.description == "")
      && m.fields.Keys == fields.Keys + LangKeys(gs, "gloss_") + LangKeys(ds, "definition_")
      && (forall k :: Get(m.fields, k) == Get(fields, k) + TextsUnder(gs, "gloss_", k) + TextsUnder(ds, "definition_", k))
      && (AccumulatorKeys(fields) ==> AccumulatorKeys(m.fields))
  {
    var gs, ds := Glosses(sense), DefinitionForms(sense);
    if AllHave(gs, "lang") && AllHave(ds, "lang") {
      AppendTextsDomain(fields, "gloss_", gs);
      AppendTextsDomain(AppendTexts(fields, "gloss_", gs), "definition_", ds);
      AppendTextsContents(fields, "gloss_", gs);
      AppendTextsContents(AppendTexts(fields, "gloss_", gs), "definition_", ds);
      if AccumulatorKeys(fields) {
        AppendTextsKeys(fields, "gloss_", gs);
        AppendTextsKeys(AppendTexts(fields, "gloss_", gs), "definition_", ds);
      }
    }
  }
}
