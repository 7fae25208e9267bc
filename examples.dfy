/**
 * The example flattener (`extract_examples`): every `example` below a sense
 * becomes one flat record, identified by the entry and the example's position
 * within the sense, with one column per translation or note and the
 * example's own attributes copied over last.
 */
module Examples {
  import opened LiftTree
  import opened Records

  /** `f"{child.name}-{slugify(child['type'])}-{child_form['lang']}"` */
  function ColumnName(child: Node, childForm: Node, slug: string -> string): (k: string)
    requires "type" in child.attrs && "lang" in childForm.attrs
    ensures k != "Form" && k != "ID"
  {
    var k := child.name + "-" + slug(child.attrs["type"]) + "-" + childForm.attrs["lang"];
    assert k[|child.name|] == '-';
    k
  }

  /** What one child of an example writes (lines 58-67): a `form` child sets
      `Form`; another child with a nested `form` sets its composed column to
      that form's text; a child with neither writes nothing (the source only
      logs). A KeyError when the composed name cannot be built. */
  function Cell(child: Node, slug: string -> string): (r: Result<Option<(string, string)>>)
    ensures child.name == "form" ==> r == Ok(Some(("Form", child.text)))
    ensures child.name != "form" && Find(child, "form").None? ==> r == Ok(None)
    ensures child.name != "form" && r.Ok? && r.value.Some? ==>
      && Find(child, "form").Some?
      && r.value.value.0 != "Form" && r.value.value.0 != "ID"
      && r.value.value.1 == Find(child, "form").value.text
  {
    if child.name == "form" then Ok(Some(("Form", child.text)))
    else match Find(child, "form")
      case None => Ok(None)
      case Some(childForm) =>
        if "type" !in child.attrs then Fail(MissingAttribute("type"))
        else if "lang" !in childForm.attrs then Fail(MissingAttribute("lang"))
        else Ok(Some((ColumnName(child, childForm, slug), childForm.text)))
  }

  /** The record after the children loop has run over `cs`. */
  function ChildColumns(rec: Record, cs: seq<Node>, slug: string -> string): Result<Record>
  {
    if cs == [] then Ok(rec)
    else match ChildColumns(rec, cs[..|cs| - 1], slug)
      case Fail(e) => Fail(e)
      case Ok(r) =>
        match Cell(cs[|cs| - 1], slug)
        case Fail(e) => Fail(e)
        case Ok(None) => Ok(r)
        case Ok(Some(kv)) => Ok(r[kv.0 := Str(kv.1)])
  }

  /** The text the last child of `cs` that writes column `k` writes there. */
  function Written(cs: seq<Node>, slug: string -> string, k: string): Option<string>
  {
    if cs == [] then None
    else
      var c := Cell(cs[|cs| - 1], slug);
      if c.Ok? && c.value.Some? && c.value.value.0 == k then Some(c.value.value.1)
      else Written(cs[..|cs| - 1], slug, k)
  }

  /** The children loop: a column is present iff it was there before or some
      child writes it, and then it holds what the last such child wrote. */
  lemma {:induction false} ChildColumnsContents(rec: Record, cs: seq<Node>, slug: string -> string)
    requires ChildColumns(rec, cs, slug).Ok?
    ensures forall k :: k in ChildColumns(rec, cs, slug).value <==> k in rec || Written(cs, slug, k).Some?
    ensures forall k :: Written(cs, slug, k).Some? ==>
      ChildColumns(rec, cs, slug).value[k] == Str(Written(cs, slug, k).value)
    ensures forall k :: Written(cs, slug, k).None? && k in rec ==>
      ChildColumns(rec, cs, slug).value[k] == rec[k]
  {
    if cs != [] {
      ChildColumnsContents(rec, cs[..|cs| - 1], slug);
    }
  }

  /** The example's own attributes as columns (lines 68-69). */
  function AttrColumns(attrs: map<string, string>): (r: Record)
    ensures r.Keys == attrs.Keys
    ensures forall a :: a in attrs ==> r[a] == Str(attrs[a])
  {
    map a | a in attrs :: Str(attrs[a])
  }

  /** The record of the `k`-th (0-based) example of a sense. */
  function ExampleRecord(example: Node, entryId: string, k: nat, slug: string -> string): Result<Record>
  {
    match ChildColumns(map["ID" := Str(IdOf(entryId, k))], example.children, slug)
    case Fail(e) => Fail(e)
    case Ok(r) => Ok(r + AttrColumns(example.attrs))
  }

  /** The records of `exs`, numbered from 0, or the first error. */
  function ExampleRecords(exs: seq<Node>, entryId: string, slug: string -> string): Result<seq<Record>>
  {
    if exs == [] then Ok([])
    else match ExampleRecords(exs[..|exs| - 1], entryId, slug)
      case Fail(e) => Fail(e)
      case Ok(rs) =>
        match ExampleRecord(exs[|exs| - 1], entryId, |exs| - 1, slug)
        case Fail(e) => Fail(e)
        case Ok(r) => Ok(rs + [r])
  }

  /** `examples` extended by the records of `exs`, or the first error. */
  function Extended(examples: seq<Record>, exs: seq<Node>, entryId: string, slug: string -> string): Result<seq<Record>>
  {
    match ExampleRecords(exs, entryId, slug)
    case Fail(e) => Fail(e)
    case Ok(rs) => Ok(examples + rs)
  }

  /** One iteration of the loop at lines 55-70: the record of one example. */
  method FlattenExample(example: Node, entryId: string, k: nat, slug: string -> string) returns (res: Result<Record>)
    ensures res == ExampleRecord(example, entryId, k, slug)
  {
    var rec: Record := map["ID" := Str(IdOf(entryId, k))];
    var cs := example.children;
    var i := 0;
    while i < |cs|
      invariant 0 <= i <= |cs|
      invariant ChildColumns(map["ID" := Str(IdOf(entryId, k))], cs[..i], slug) == Ok(rec)
    {
      var child := cs[i];
      assert cs[..i + 1][..i] == cs[..i];
      var cell := Cell(child, slug);
      if cell.Fail? {
        ChildColumnsFailSticks(map["ID" := Str(IdOf(entryId, k))], cs[..i + 1], cs[i + 1..], slug);
        assert cs[..i + 1] + cs[i + 1..] == cs;
        return Fail(cell.error);
      }
      if cell.value.Some? {
        rec := rec[cell.value.value.0 := Str(cell.value.value.1)];
      }
      i := i + 1;
    }
    assert cs[..i] == cs;
    // lines 68-69: the attributes have distinct names, so copying them one by
    // one is the same as one map update
    res := Ok(rec + AttrColumns(example.attrs));
  }

  lemma {:induction false} ChildColumnsFailSticks(rec: Record, cs: seq<Node>, more: seq<Node>, slug: string -> string)
    requires ChildColumns(rec, cs, slug).Fail?
    ensures ChildColumns(rec, cs + more, slug) == ChildColumns(rec, cs, slug)
  {
    if more == [] {
      assert cs + more == cs;
    } else {
      assert (cs + more)[..|cs + more| - 1] == cs + more[..|more| - 1];
      ChildColumnsFailSticks(rec, cs, more[..|more| - 1], slug);
    }
  }

  lemma {:induction false} ExampleRecordsFailSticks(exs: seq<Node>, more: seq<Node>, entryId: string, slug: string -> string)
    requires ExampleRecords(exs, entryId, slug).Fail?
    ensures ExampleRecords(exs + more, entryId, slug) == ExampleRecords(exs, entryId, slug)
  {
    if more == [] {
      assert exs + more == exs;
    } else {
      assert (exs + more)[..|exs + more| - 1] == exs + more[..|more| - 1];
      ExampleRecordsFailSticks(exs, more[..|more| - 1], entryId, slug);
    }
  }

  /** `extract_examples(sense, dictionary_examples, entry_id)`: the example
      list passed by value and returned extended. */
  method ExtractExamples(sense: Node, examples: seq<Record>, entryId: string, slug: string -> string)
    returns (res: Result<seq<Record>>)
    ensures res == Extended(examples, FindAll(sense, "example"), entryId, slug)
  {
    var exs := FindAll(sense, "example");
    var out := examples;
    var k := 0;
    assert examples + [] == examples;
    while k < |exs|
      invariant 0 <= k <= |exs|
      invariant Extended(examples, exs[..k], entryId, slug) == Ok(out)
    {
      assert exs[..k + 1][..k] == exs[..k];
      var rec := FlattenExample(exs[k], entryId, k, slug);
      if rec.Fail? {
        ExampleRecordsFailSticks(exs[..k + 1], exs[k + 1..], entryId, slug);
        assert exs[..k + 1] + exs[k + 1..] == exs;
        return Fail(rec.error);
      }
      ghost var rs := ExampleRecords(exs[..k], entryId, slug).value;
      AppendAssoc(examples, rs, [rec.value]);
      out := out + [rec.value];
      k := k + 1;
    }
    assert exs[..k] == exs;
    res := Ok(out);
  }

  /** One record per example, in order: the `k`-th is the `k`-th example's
      record, numbered from 0 within this call. */
  lemma {:induction false} ExampleRecordsShape(exs: seq<Node>, entryId: string, slug: string -> string)
    requires ExampleRecords(exs, entryId, slug).Ok?
    ensures |ExampleRecords(exs, entryId, slug).value| == |exs|
    ensures forall k :: 0 <= k < |exs| ==>
      ExampleRecord(exs[k], entryId, k, slug).Ok? &&
      ExampleRecords(exs, entryId, slug).value[k] == ExampleRecord(exs[k], entryId, k, slug).value
  {
    if exs != [] {
      var init := exs[..|exs| - 1];
      ExampleRecordsShape(init, entryId, slug);
      forall k | 0 <= k < |init| ensures exs[k] == init[k] { }
    }
  }

  /** The `k`-th example's record: its `ID` is `<entry>-<k>` unless the example
      carries an `ID` attribute of its own; every attribute of the example
      overrides what the children wrote; any other column is what the last
      child writing it wrote. */
  lemma ExampleRecordColumns(example: Node, entryId: string, k: nat, slug: string -> string)
    requires ExampleRecord(example, entryId, k, slug).Ok?
    ensures var r := ExampleRecord(example, entryId, k, slug).value;
      && "ID" in r
      && r["ID"] == (if "ID" in example.attrs then Str(example.attrs["ID"]) else Str(IdOf(entryId, k)))
      && (forall a :: a in example.attrs ==> a in r && r[a] == Str(example.attrs[a]))
      && (forall c :: c !in example.attrs && c != "ID" ==>
            (c in r <==> Written(example.children, slug, c).Some?))
      && (forall c :: c !in example.attrs && c != "ID" && Written(example.children, slug, c).Some? ==>
            c in r && r[c] == Str(Written(example.children, slug, c).value))
  {
    var init: Record := map["ID" := Str(IdOf(entryId, k))];
    ChildColumnsContents(init, example.children, slug);
    WrittenNeverId(example.children, slug);
  }

  lemma {:induction false} WrittenNeverId(cs: seq<Node>, slug: string -> string)
    ensures Written(cs, slug, "ID").None?
  {
    if cs != [] {
      WrittenNeverId(cs[..|cs| - 1], slug);
    }
  }
}
