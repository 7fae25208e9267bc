/**
 * Flat records as the converter builds them (one Python dict per row), the
 * entry-wide meaning accumulator, errors, and the string helpers the records
 * are made with: `sep.join(...)`, `str(n)` and the `<entry>-<n>` identifiers.
 */
module Records {

  /** A cell: a plain string, or a list of strings still to be joined. */
  datatype Value = Str(s: string) | List(items: seq<string>)

  /** One row, keyed by column name. */
  type Record = map<string, Value>

  /** The accumulator an entry threads through its senses (`fields`): every
      value is a list. */
  type Fields = map<string, seq<string>>

  /** The exceptions the source raises on malformed input; any of them aborts
      the conversion. */
  datatype Error =
    | MissingAttribute(attribute: string)  // a KeyError on an element attribute
    | MissingElement(element: string)      // a lookup on a `find` that found nothing
    | IndexOutOfRange                      // an IndexError on an empty list or table

  datatype Result<T> = Ok(value: T) | Fail(error: Error)

  /** The list held under `k`, or the empty list (`fields.get(k, [])`). */
  function Get(f: Fields, k: string): seq<string>
  {
    if k in f then f[k] else []
  }

  /** `fields.setdefault(k, []); fields[k].append(t)` */
  function Push(f: Fields, k: string, t: string): (r: Fields)
    ensures r.Keys == f.Keys + {k}
    ensures Get(r, k) == Get(f, k) + [t]
    ensures forall j :: j in f && j != k ==> r[j] == f[j]
  {
    f[k := Get(f, k) + [t]]
  }

  /** The accumulator as record columns (`d.update(**fields)`). */
  function FieldsRecord(f: Fields): (r: Record)
    ensures r.Keys == f.Keys
    ensures forall k :: k in f ==> r[k] == List(f[k])
  {
    map k | k in f :: List(f[k])
  }

  /** `sep.join(xs)` */
  function Join(xs: seq<string>, sep: string): string
  {
    if |xs| == 0 then ""
    else if |xs| == 1 then xs[0]
    else Join(xs[..|xs| - 1], sep) + sep + xs[|xs| - 1]
  }

  /** `sep` occurs in `s` at position `i`. */
  predicate SepAt(s: string, sep: string, i: nat)
  {
    i + |sep| <= |s| && s[i..i + |sep|] == sep
  }

  /** `s.split(sep)` for a non-empty `sep`, once positions before `i` are
      known to hold no separator: the first piece ends at the leftmost
      separator from `i` on, and the rest is split after it. */
  function SplitFrom(s: string, sep: string, i: nat): seq<string>
    requires |sep| > 0 && i <= |s|
    decreases |s|, |s| - i
  {
    if i + |sep| > |s| then [s]
    else if SepAt(s, sep, i) then [s[..i]] + SplitFrom(s[i + |sep|..], sep, 0)
    else SplitFrom(s, sep, i + 1)
  }

  /** `s.split(sep)`: the pieces between the leftmost, non-overlapping
      occurrences of `sep`. */
  function Split(s: string, sep: string): seq<string>
    requires |sep| > 0
  {
    SplitFrom(s, sep, 0)
  }

  /** No occurrence of `sep` begins inside `x`, not even one running on into
      a separator placed after it. */
  predicate Clean(x: string, sep: string)
  {
    forall i :: 0 <= i < |x| ==> !SepAt(x + sep, sep, i)
  }

  /** Joining a non-empty list with a non-empty separator that no item runs
      into is undone by splitting on that separator. */
  lemma {:induction false} SplitJoin(xs: seq<string>, sep: string)
    requires xs != [] && |sep| > 0
    requires forall k :: 0 <= k < |xs| ==> Clean(xs[k], sep)
    ensures Split(Join(xs, sep), sep) == xs
  {
    if |xs| == 1 {
      SplitClean(xs[0], sep);
    } else {
      JoinFront(xs, sep);
      SplitPiece(xs[0], sep, Join(xs[1..], sep));
      SplitJoin(xs[1..], sep);
      assert xs == [xs[0]] + xs[1..];
    }
  }

  /** A clean string splits into itself. */
  lemma SplitClean(x: string, sep: string)
    requires |sep| > 0 && Clean(x, sep)
    ensures Split(x, sep) == [x]
  {
    forall i | 0 <= i < |x| ensures !SepAt(x, sep, i) {
      assert !SepAt(x + sep, sep, i);
      if i + |sep| <= |x| {
        assert x[i..i + |sep|] == (x + sep)[i..i + |sep|];
      }
    }
    SplitSkips(x, sep, 0, |x|);
  }

  /** A clean piece followed by the separator splits off first. */
  lemma SplitPiece(x: string, sep: string, rest: string)
    requires |sep| > 0 && Clean(x, sep)
    ensures Split(x + sep + rest, sep) == [x] + Split(rest, sep)
  {
    var s := x + sep + rest;
    forall i | 0 <= i < |x| ensures !SepAt(s, sep, i) {
      assert !SepAt(x + sep, sep, i);
      assert s[i..i + |sep|] == (x + sep)[i..i + |sep|];
    }
    SplitSkips(s, sep, 0, |x|);
    assert SepAt(s, sep, |x|) by {
      assert s[|x|..|x| + |sep|] == sep;
    }
    assert s[..|x|] == x;
    assert s[|x| + |sep|..] == rest;
  }

  /** A list of two or more joins as its head, the separator, and the join of
      its tail. */
  lemma {:induction false} JoinFront(xs: seq<string>, sep: string)
    requires |xs| >= 2
    ensures Join(xs, sep) == xs[0] + sep + Join(xs[1..], sep)
  {
    if |xs| > 2 {
      var init := xs[..|xs| - 1];
      JoinFront(init, sep);
      assert init[1..] == xs[1..][..|xs[1..]| - 1];
    } else {
      assert xs[1..] == [xs[1]];
    }
  }

  /** Positions holding no separator are passed over. */
  lemma {:induction false} SplitSkips(s: string, sep: string, from: nat, to: nat)
    requires |sep| > 0 && from <= to <= |s|
    requires forall i :: from <= i < to ==> !SepAt(s, sep, i)
    ensures SplitFrom(s, sep, from) == SplitFrom(s, sep, to)
    decreases (to as int) - from
  {
    if from < to && from + |sep| <= |s| {
      SplitSkips(s, sep, from + 1, to);
    }
  }

  /** Without those conditions the list is not recovered: the empty list and
      the list of one empty string join alike, and a separator an item runs
      into is found too early. */
  lemma JoinLosesLists()
    ensures Join([], "; ") == Join([""], "; ") == ""
    ensures Join(["a", "b"], "aa") == "aaab"
    ensures Split("aaab", "aa") == ["", "ab"]
  {
    assert Join(["a", "b"], "aa") == Join(["a"], "aa") + "aa" + "b";
    var s := "aaab";
    assert SepAt(s, "aa", 0) by { assert s[0..2] == "aa"; }
    assert s[..0] == "" && s[2..] == "ab";
    assert SplitFrom("ab", "aa", 0) == ["ab"] by {
      assert !SepAt("ab", "aa", 0) by { assert "ab"[1] != "aa"[1]; }
    }
  }

  function Digit(d: nat): (c: char)
    requires d < 10
  {
    "0123456789"[d]
  }

  /** `str(n)`: the decimal numeral of `n`. */
  function NatToString(n: nat): (r: string)
    ensures |r| >= 1
    ensures n >= 10 <==> |r| >= 2
  {
    if n < 10 then [Digit(n)] else NatToString(n / 10) + [Digit(n % 10)]
  }

  /** Distinct numbers have distinct numerals. */
  lemma {:induction false} NatToStringInjective(a: nat, b: nat)
    requires NatToString(a) == NatToString(b)
    ensures a == b
  {
    var s := NatToString(a);
    if a >= 10 {
      assert NatToString(a / 10) == s[..|s| - 1] == NatToString(b / 10);
      NatToStringInjective(a / 10, b / 10);
      assert Digit(a % 10) == s[|s| - 1] == Digit(b % 10);
    } else {
      assert Digit(a) == s[0] == Digit(b);
    }
  }

  /** The identifier `f"{owner}-{n}"` given to examples and morphs. */
  function IdOf(owner: string, n: nat): (r: string)
    ensures |r| > |owner| && r[..|owner|] == owner && r[|owner|] == '-'
  {
    owner + "-" + NatToString(n)
  }

  /** Within one owner, the counter determines the identifier. */
  lemma IdOfInjective(owner: string, a: nat, b: nat)
    requires IdOf(owner, a) == IdOf(owner, b)
    ensures a == b
  {
    var n := |owner| + 1;
    assert NatToString(a) == IdOf(owner, a)[n..] == IdOf(owner, b)[n..] == NatToString(b);
    NatToStringInjective(a, b);
  }

  predicate HasPrefix(s: string, p: string)
  {
    |p| <= |s| && s[..|p|] == p
  }

  /** The keys the accumulator ever holds: the sense list and the per-language
      gloss and definition lists. */
  predicate AccumulatorKey(k: string)
  {
    k == "Parameter_ID" || HasPrefix(k, "gloss_") || HasPrefix(k, "definition_")
  }

  predicate AccumulatorKeys(f: Fields)
  {
    forall k :: k in f ==> AccumulatorKey(k)
  }

  lemma AccumulatorKeyHead(k: string)
    requires AccumulatorKey(k)
    ensures |k| > 0 && (k[0] == 'P' || k[0] == 'g' || k[0] == 'd')
  {
    if HasPrefix(k, "gloss_") {
      assert k[0] == k[..6][0];
    } else if HasPrefix(k, "definition_") {
      assert k[0] == k[..11][0];
    }
  }

  /** The fixed columns that morph and morpheme records set before merging the
      accumulator; none of them can be overwritten by it. */
  lemma FixedColumnsNotAccumulated(f: Fields)
    requires AccumulatorKeys(f)
    ensures "ID" !in f && "Form" !in f && "Type" !in f && "Morpheme_ID" !in f
    ensures "Gramm" !in f && "Name" !in f && "Language_ID" !in f && "Meaning" !in f
  {
    forall k | k in f
      ensures |k| > 0 && (k[0] == 'P' || k[0] == 'g' || k[0] == 'd')
    {
      AccumulatorKeyHead(k);
    }
  }

  /** The cell of column `c`, or the empty string where the row lacks it (what
      `fillna("")` puts there). */
  function CellAt(r: Record, c: string): Value
  {
    if c in r then r[c] else Str("")
  }

  lemma AppendAssoc<T>(a: seq<T>, b: seq<T>, c: seq<T>)
    ensures a + b + c == a + (b + c)
  {
  }
}
