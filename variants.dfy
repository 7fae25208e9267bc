/**
 * The variant pre-pass (`gather_variants`): an entry whose `relation` carries a
 * `variant-type` trait and a non-empty `ref` is recorded as a variant
 * descriptor under the last `_`-separated segment of that reference.
 * Also the morph-type lookup shared with the entry decomposer.
 */
module Variants {
  import opened LiftTree
  import opened Records

  /** `{"ID": ..., "Form": ..., "Type": ...}` recorded for a variant entry. */
  datatype Descriptor = Descriptor(id: string, form: string, morphType: string)

  /** main-entry key -> descriptors, in the order they were found */
  type VariantIndex = map<string, seq<Descriptor>>

  function Lookup(idx: VariantIndex, k: string): seq<Descriptor>
  {
    if k in idx then idx[k] else []
  }

  /** `ref.split("_")[-1]`: the longest suffix of `s` free of `_`. */
  function LastSegment(s: string): (r: string)
    ensures |r| <= |s| && s[|s| - |r|..] == r
    ensures forall i :: 0 <= i < |r| ==> r[i] != '_'
    ensures |r| == |s| || s[|s| - |r| - 1] == '_'
  {
    if s == [] then []
    else if s[|s| - 1] == '_' then []
    else LastSegment(s[..|s| - 1]) + [s[|s| - 1]]
  }

  /** `n.select("trait[name='morph-type']")[0]["value"]`: the value of the
      first morph-type trait below `n`; an IndexError when there is none, a
      KeyError when it has no value. */
  function MorphType(n: Node): (r: Result<string>)
    ensures r.Ok? <==> SelectTrait(n, "morph-type") != [] && "value" in SelectTrait(n, "morph-type")[0].attrs
    ensures r.Fail? && SelectTrait(n, "morph-type") == [] ==> r.error == IndexOutOfRange
    ensures r.Ok? ==> r.value == SelectTrait(n, "morph-type")[0].attrs["value"]
  {
    var traits := SelectTrait(n, "morph-type");
    if traits == [] then Fail(IndexOutOfRange)
    else if "value" !in traits[0].attrs then Fail(MissingAttribute("value"))
    else Ok(traits[0].attrs["value"])
  }

  /** The descriptor built for a variant entry (lines 20-24): its slugified
      `id`, the text of its first `form`, and its morph type. */
  function VariantDescriptor(entry: Node, slug: string -> string): Result<Descriptor>
  {
    if "id" !in entry.attrs then Fail(MissingAttribute("id"))
    else match Find(entry, "form")
      case None => Fail(MissingElement("form"))
      case Some(form) =>
        match MorphType(entry)
        case Fail(e) => Fail(e)
        case Ok(t) => Ok(Descriptor(slug(entry.attrs["id"]), form.text, t))
  }

  predicate HasVariantTrait(rel: Node)
  {
    SelectTrait(rel, "variant-type") != []
  }

  /** The relations that record a descriptor: a variant-type trait and a
      non-empty `ref`. */
  predicate Recording(rel: Node)
  {
    HasVariantTrait(rel) && "ref" in rel.attrs && rel.attrs["ref"] != ""
  }

  /** Every relation whose `ref` is consulted has one. */
  predicate RefsPresent(rels: seq<Node>)
  {
    forall i :: 0 <= i < |rels| && HasVariantTrait(rels[i]) ==> "ref" in rels[i].attrs
  }

  /** The keys under which `rels` record descriptors, in order. */
  function VariantKeys(rels: seq<Node>): (ks: seq<string>)
    ensures |ks| <= |rels|
  {
    if rels == [] then []
    else
      var last := rels[|rels| - 1];
      VariantKeys(rels[..|rels| - 1]) + (if Recording(last) then [LastSegment(last.attrs["ref"])] else [])
  }

  function AddDescriptor(idx: VariantIndex, k: string, d: Descriptor): VariantIndex
  {
    idx[k := Lookup(idx, k) + [d]]
  }

  /** One iteration of the loop at lines 15-25. */
  function RelationStep(entry: Node, rel: Node, idx: VariantIndex, slug: string -> string): Result<VariantIndex>
  {
    if !HasVariantTrait(rel) then Ok(idx)
    else if "ref" !in rel.attrs then Fail(MissingAttribute("ref"))
    else if rel.attrs["ref"] == "" then Ok(idx)
    else match VariantDescriptor(entry, slug)
      case Fail(e) => Fail(e)
      case Ok(d) => Ok(AddDescriptor(idx, LastSegment(rel.attrs["ref"]), d))
  }

  /** The index after the loop has run over `rels`, or the first error. */
  function Gathered(entry: Node, rels: seq<Node>, idx: VariantIndex, slug: string -> string): Result<VariantIndex>
  {
    if rels == [] then Ok(idx)
    else match Gathered(entry, rels[..|rels| - 1], idx, slug)
      case Fail(e) => Fail(e)
      case Ok(before) => RelationStep(entry, rels[|rels| - 1], before, slug)
  }

  /** Once a relation has failed, so has every longer run. */
  lemma {:induction false} GatheredFailSticks(entry: Node, rels: seq<Node>, more: seq<Node>, idx: VariantIndex, slug: string -> string)
    requires Gathered(entry, rels, idx, slug).Fail?
    ensures Gathered(entry, rels + more, idx, slug) == Gathered(entry, rels, idx, slug)
  {
    if more != [] {
      var init := rels + more[..|more| - 1];
      assert (rels + more)[..|rels + more| - 1] == init;
      GatheredFailSticks(entry, rels, more[..|more| - 1], idx, slug);
      assert Gathered(entry, init, idx, slug).Fail?;
    } else {
      assert rels + more == rels;
    }
  }

  /** The `i`-th iteration extends the pass over `rels[..i]`; should it fail,
      so does the whole pass. */
  lemma GatheredStep(entry: Node, rels: seq<Node>, i: nat, index: VariantIndex, slug: string -> string)
    requires i < |rels| && Gathered(entry, rels[..i], index, slug).Ok?
    ensures var step := RelationStep(entry, rels[i], Gathered(entry, rels[..i], index, slug).value, slug);
      && Gathered(entry, rels[..i + 1], index, slug) == step
      && (step.Fail? ==> Gathered(entry, rels, index, slug) == step)
  {
    assert rels[..i + 1][..i] == rels[..i];
    if Gathered(entry, rels[..i + 1], index, slug).Fail? {
      GatheredFailSticks(entry, rels[..i + 1], rels[i + 1..], index, slug);
      assert rels[..i + 1] + rels[i + 1..] == rels;
    }
  }

  /** `gather_variants(entry, variant_dict)`, the dictionary passed by value
      and returned updated. */
  method GatherVariants(entry: Node, index: VariantIndex, slug: string -> string) returns (res: Result<VariantIndex>)
    ensures res == Gathered(entry, FindAll(entry, "relation"), index, slug)
  {
    var rels := FindAll(entry, "relation");
    var idx := index;
    for i := 0 to |rels|
      invariant Gathered(entry, rels[..i], index, slug) == Ok(idx)
    {
      var rel := rels[i];
      GatheredStep(entry, rels, i, index, slug);
      if HasVariantTrait(rel) && "ref" !in rel.attrs {
        return Fail(MissingAttribute("ref"));
      }
      if HasVariantTrait(rel) && rel.attrs["ref"] != "" {
        var key := LastSegment(rel.attrs["ref"]);
        var d := VariantDescriptor(entry, slug);
        if d.Fail? {
          return Fail(d.error);
        }
        idx := idx[key := Lookup(idx, key) + [d.value]];
      }
    }
    assert rels[..|rels|] == rels;
    res := Ok(idx);
  }

  /** `n` copies of `d` */
  function Copies(d: Descriptor, n: nat): (r: seq<Descriptor>)
    ensures |r| == n && forall i :: 0 <= i < n ==> r[i] == d
  {
    seq(n, _ => d)
  }

  function Count(ks: seq<string>, k: string): nat
  {
    if ks == [] then 0 else Count(ks[..|ks| - 1], k) + (if ks[|ks| - 1] == k then 1 else 0)
  }

  /** The pass succeeds exactly when every consulted relation has a `ref` and,
      should any relation record, the entry's descriptor can be built. */
  lemma {:induction false} GatheredSucceeds(entry: Node, rels: seq<Node>, index: VariantIndex, slug: string -> string)
    ensures Gathered(entry, rels, index, slug).Ok? <==>
      RefsPresent(rels) && (VariantKeys(rels) != [] ==> VariantDescriptor(entry, slug).Ok?)
  {
    if rels != [] {
      var init, last := rels[..|rels| - 1], rels[|rels| - 1];
      GatheredSucceeds(entry, init, index, slug);
      RefsPresentSnoc(rels);
      assert VariantKeys(rels) != [] <==> VariantKeys(init) != [] || Recording(last);
    }
  }

  lemma RefsPresentSnoc(rels: seq<Node>)
    requires rels != []
    ensures RefsPresent(rels) <==>
      RefsPresent(rels[..|rels| - 1]) && (HasVariantTrait(rels[|rels| - 1]) ==> "ref" in rels[|rels| - 1].attrs)
  {
    var init := rels[..|rels| - 1];
    if RefsPresent(init) && (HasVariantTrait(rels[|rels| - 1]) ==> "ref" in rels[|rels| - 1].attrs) {
      forall i | 0 <= i < |rels| && HasVariantTrait(rels[i]) ensures "ref" in rels[i].attrs {
        if i < |init| { assert rels[i] == init[i]; }
      }
    }
  }


  /** Appending `d` under each key of `ks` in turn. */
  function AddAll(idx: VariantIndex, ks: seq<string>, d: Descriptor): VariantIndex
  {
    if ks == [] then idx else AddDescriptor(AddAll(idx, ks[..|ks| - 1], d), ks[|ks| - 1], d)
  }

  function KeySet(ks: seq<string>): set<string>
  {
    set i | 0 <= i < |ks| :: ks[i]
  }

  lemma {:induction false} AddAllContents(idx: VariantIndex, ks: seq<string>, d: Descriptor)
    ensures AddAll(idx, ks, d).Keys == idx.Keys + KeySet(ks)
    ensures forall k :: Lookup(AddAll(idx, ks, d), k) == Lookup(idx, k) + Copies(d, Count(ks, k))
  {
    if ks != [] {
      var init, key := ks[..|ks| - 1], ks[|ks| - 1];
      AddAllContents(idx, init, d);
      assert KeySet(ks) == KeySet(init) + {key} by {
        forall x | x in KeySet(ks) ensures x in KeySet(init) + {key} {
          var i :| 0 <= i < |ks| && ks[i] == x;
          if i < |init| { assert init[i] == x; }
        }
        forall x | x in KeySet(init) ensures x in KeySet(ks) {
          var i :| 0 <= i < |init| && init[i] == x;
          assert ks[i] == x;
        }
      }
      forall k ensures Lookup(AddAll(idx, ks, d), k) == Lookup(idx, k) + Copies(d, Count(ks, k)) {
        if k == key {
          assert Copies(d, Count(ks, k)) == Copies(d, Count(init, k)) + [d];
        }
      }
    }
  }

  /** On success the pass is the entry's descriptor appended under each
      recorded key in turn. */
  lemma {:induction false} GatheredIsAddAll(entry: Node, rels: seq<Node>, index: VariantIndex, slug: string -> string)
    requires Gathered(entry, rels, index, slug).Ok?
    ensures VariantKeys(rels) == [] ==> Gathered(entry, rels, index, slug) == Ok(index)
    ensures VariantKeys(rels) != [] ==>
      && VariantDescriptor(entry, slug).Ok?
      && Gathered(entry, rels, index, slug) == Ok(AddAll(index, VariantKeys(rels), VariantDescriptor(entry, slug).value))
  {
    if rels != [] {
      var init, last := rels[..|rels| - 1], rels[|rels| - 1];
      GatheredIsAddAll(entry, init, index, slug);
      var ks0, ks := VariantKeys(init), VariantKeys(rels);
      if Recording(last) {
        assert ks == ks0 + [LastSegment(last.attrs["ref"])];
        assert ks[..|ks| - 1] == ks0;
      } else {
        assert ks == ks0;
      }
    }
  }

  /** Only appends: each recording relation adds the entry's descriptor once,
      at the end of the list under its key; every other list is unchanged. */
  lemma GatheredAppends(entry: Node, rels: seq<Node>, index: VariantIndex, slug: string -> string)
    requires Gathered(entry, rels, index, slug).Ok?
    ensures VariantKeys(rels) == [] ==> Gathered(entry, rels, index, slug) == Ok(index)
    ensures VariantKeys(rels) != [] ==> VariantDescriptor(entry, slug).Ok?
    ensures VariantKeys(rels) != [] ==>
      var idx := Gathered(entry, rels, index, slug).value;
      var d := VariantDescriptor(entry, slug).value;
      && idx.Keys == index.Keys + KeySet(VariantKeys(rels))
      && forall k :: Lookup(idx, k) == Lookup(index, k) + Copies(d, Count(VariantKeys(rels), k))
  {
    GatheredIsAddAll(entry, rels, index, slug);
    if VariantKeys(rels) != [] {
      AddAllContents(index, VariantKeys(rels), VariantDescriptor(entry, slug).value);
    }
  }
}
