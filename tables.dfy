/**
 * The column post-pass `convert` runs over the morph and morpheme tables
 * (lines 191-200): the gloss column of the meta language is renamed
 * `Meaning`, every row is stamped with `Language_ID`, missing cells are
 * filled with the empty string, and list cells are joined with the cell
 * separator. A table is the list of rows handed to `DataFrame.from_dict`;
 * its columns are all the keys its rows use.
 */
module Tables {
  import opened Records

  type Table = seq<Record>

  /** The columns of a table: every key some row uses. */
  function Columns(t: Table): (cols: set<string>)
    ensures forall i, c :: 0 <= i < |t| && c in t[i] ==> c in cols
    ensures forall c :: c in cols ==> exists i :: 0 <= i < |t| && c in t[i]
  {
    set i, c | 0 <= i < |t| && c in t[i] :: c
  }

  /** `rename(columns={from: to})` on one row. */
  function RenameIn(r: Record, from: string, to: string): Record
  {
    if from in r then (r - {from})[to := r[from]] else r
  }

  /** Lines 192-196 on one row: the rename, then `Language_ID` set. */
  function PrepareRow(r: Record, from: string, langId: string): Record
  {
    RenameIn(r, from, "Meaning")["Language_ID" := Str(langId)]
  }

  function Prepared(t: Table, from: string, langId: string): (t': Table)
    ensures |t'| == |t|
  {
    seq(|t|, i requires 0 <= i < |t| => PrepareRow(t[i], from, langId))
  }

  /** `fillna("")` on one row of a table with columns `cols`. */
  function FillRow(r: Record, cols: set<string>): Record
  {
    map c | c in cols :: CellAt(r, c)
  }

  /** Line 197: every row gets every column, empty where it had none. */
  function Filled(t: Table): (t': Table)
    ensures |t'| == |t|
  {
    seq(|t|, i requires 0 <= i < |t| => FillRow(t[i], Columns(t)))
  }

  /** A string as the sequence of its one-character strings. */
  function Chars(s: string): (r: seq<string>)
    ensures |r| == |s|
  {
    seq(|s|, i requires 0 <= i < |s| => [s[i]])
  }

  /** `sep.join(cell)`: a list joins its items, and a string, being iterable,
      joins its characters. */
  function SepJoin(v: Value, sep: string): Value
  {
    match v
    case List(xs) => Str(Join(xs, sep))
    case Str(s) => Str(Join(Chars(s), sep))
  }

  /** Lines 198-200 as written: a column is joined when its FIRST cell is a
      list, and left as it is otherwise; an IndexError on a table without
      rows. */
  function JoinListsAsWritten(t: Table, sep: string): Result<Table>
  {
    if t == [] then Fail(IndexOutOfRange)
    else Ok(seq(|t|, i requires 0 <= i < |t| =>
      map c | c in t[i] :: if c in t[0] && t[0][c].List? then SepJoin(t[i][c], sep) else t[i][c]))
  }

  /** A list cell as its `sep`-join; a string cell as it is. */
  function Flat(v: Value, sep: string): Value
  {
    match v
    case List(xs) => Str(Join(xs, sep))
    case Str(_) => v
  }

  /** Lines 198-200 as intended, on one row: every list cell is joined,
      whatever its column's first cell holds. */
  function FlatRow(r: Record, sep: string): Record
  {
    map c | c in r :: Flat(r[c], sep)
  }

  /** One row through the corrected post-pass, in a table whose columns after
      the rename and the stamp are `cols`. */
  function PostRow(r: Record, cols: set<string>, from: string, langId: string, sep: string): Record
  {
    FlatRow(FillRow(PrepareRow(r, from, langId), cols), sep)
  }

  /** The post-pass of one table as written; an IndexError on an empty table
      (line 199 reads the first cell of the `Language_ID` column). */
  function PostPassAsWritten(t: Table, from: string, langId: string, sep: string): Result<Table>
  {
    JoinListsAsWritten(Filled(Prepared(t, from, langId)), sep)
  }

  /** The post-pass of one table with the join corrected. */
  function PostPass(t: Table, from: string, langId: string, sep: string): Result<Table>
  {
    if t == [] then Fail(IndexOutOfRange)
    else
      var cols := Columns(Prepared(t, from, langId));
      Ok(seq(|t|, i requires 0 <= i < |t| => PostRow(t[i], cols, from, langId, sep)))
  }

  // ---------------------------------------------------------------------------
  // What the post-pass promises

  /** After the rename and the stamp, the table's columns are the original
      ones less the renamed gloss column, plus `Meaning` when some row had
      that column, plus `Language_ID`. */
  lemma PreparedColumns(t: Table, from: string, langId: string)
    requires t != []
    ensures Columns(Prepared(t, from, langId))
         == (Columns(t) - {from}) + (if from in Columns(t) then {"Meaning"} else {}) + {"Language_ID"}
  {
    var p := Prepared(t, from, langId);
    var rhs := (Columns(t) - {from}) + (if from in Columns(t) then {"Meaning"} else {}) + {"Language_ID"};
    forall c | c in Columns(p) ensures c in rhs {
      var i :| 0 <= i < |p| && c in p[i];
      assert p[i] == RenameIn(t[i], from, "Meaning")["Language_ID" := Str(langId)];
    }
    forall c | c in rhs ensures c in Columns(p) {
      if c == "Language_ID" {
        assert c in p[0];
      } else if c == "Meaning" && from in Columns(t) {
        var i :| 0 <= i < |t| && from in t[i];
        assert c in p[i];
      } else {
        var i :| 0 <= i < |t| && c in t[i];
        assert c in p[i];
      }
    }
  }

  /** One row through the corrected post-pass: it has every column;
      `Language_ID` is the stamp; `Meaning` holds the row's renamed gloss
      cell, joined; every other cell the row had is kept, lists joined; cells
      it lacked are empty; and no list is left. */
  lemma PostRowCells(r: Record, cols: set<string>, from: string, langId: string, sep: string)
    requires PrepareRow(r, from, langId).Keys <= cols && from != "Language_ID"
    ensures var out := PostRow(r, cols, from, langId, sep);
      && out.Keys == cols
      && "Language_ID" in out && out["Language_ID"] == Str(langId)
      && (from in r ==> "Meaning" in out && out["Meaning"] == Flat(r[from], sep))
      && (forall c :: c in r && c != from && c != "Meaning" && c != "Language_ID" ==> c in out && out[c] == Flat(r[c], sep))
      && (forall c :: c in cols && c !in r && c != "Meaning" && c != "Language_ID" ==> out[c] == Str(""))
      && (forall c :: c in out ==> out[c].Str?)
  {
  }

  /** The corrected post-pass keeps one row per row, each as `PostRowCells`
      describes, with the columns of the renamed and stamped table. */
  lemma PostPassRows(t: Table, from: string, langId: string, sep: string, i: nat)
    requires t != [] && i < |t|
    ensures PostPass(t, from, langId, sep).Ok?
    ensures var out := PostPass(t, from, langId, sep).value;
      && |out| == |t|
      && PrepareRow(t[i], from, langId).Keys <= Columns(Prepared(t, from, langId))
      && out[i] == PostRow(t[i], Columns(Prepared(t, from, langId)), from, langId, sep)
  {
    assert Prepared(t, from, langId)[i] == PrepareRow(t[i], from, langId);
  }

  /** The cell a row has in column `c` once renamed, stamped and filled. */
  function PreparedCell(r: Record, from: string, langId: string, c: string): Value
  {
    CellAt(PrepareRow(r, from, langId), c)
  }

  /** The rename and the stamp keep every other cell of the row. */
  lemma PreparedKeeps(r: Record, from: string, langId: string, c: string)
    requires c in r && c != from && c != "Meaning" && c != "Language_ID"
    ensures c in PrepareRow(r, from, langId) && PreparedCell(r, from, langId, c) == r[c]
  {
  }

  /** Line 199 joins column `c` exactly when the table's first filled cell
      there is a list. */
  predicate JoinedColumn(t: Table, from: string, langId: string, c: string)
  {
    t != [] && PreparedCell(t[0], from, langId, c).List?
  }

  /** One row through the post-pass as written: it has every column of the
      renamed and stamped table; `Language_ID` is the stamp; in a joined
      column the filled cell is joined (a string cell character by
      character), elsewhere it is kept; so a cell ends up a string exactly
      when its column is joined or it was a string already, and the first
      row holds no list. */
  lemma AsWrittenRowCells(t: Table, from: string, langId: string, sep: string, i: nat)
    requires i < |t|
    ensures PostPassAsWritten(t, from, langId, sep).Ok?
    ensures var out := PostPassAsWritten(t, from, langId, sep).value;
      && |out| == |t|
      && out[i].Keys == Columns(Prepared(t, from, langId))
      && PrepareRow(t[i], from, langId).Keys <= out[i].Keys
      && "Language_ID" in out[i] && out[i]["Language_ID"] == Str(langId)
      && (forall c :: c in out[i] ==>
            out[i][c] == if JoinedColumn(t, from, langId, c) then SepJoin(PreparedCell(t[i], from, langId, c), sep)
                         else PreparedCell(t[i], from, langId, c))
      && (forall c :: c in out[i] ==> (out[i][c].Str? <==> JoinedColumn(t, from, langId, c) || PreparedCell(t[i], from, langId, c).Str?))
      && (i == 0 ==> forall c :: c in out[i] ==> out[i][c].Str?)
  {
    var p := Prepared(t, from, langId);
    var f := Filled(p);
    assert p[i] == PrepareRow(t[i], from, langId);
    assert p[0] == PrepareRow(t[0], from, langId);
    assert f[i] == FillRow(p[i], Columns(p));
    assert f[0] == FillRow(p[0], Columns(p));
    assert "Language_ID" in p[0];
  }

  /** Every column's cells all lists or all strings, after the fill. */
  ghost predicate Uniform(t: Table, from: string, langId: string)
  {
    forall i, c :: 0 <= i < |t| ==> (PreparedCell(t[i], from, langId, c).List? <==> PreparedCell(t[0], from, langId, c).List?)
  }

  /** Where every column is uniform, the as-written join is the corrected
      one: the two disagree only on a column whose first cell is a string
      and some later cell a list, or the other way round. */
  lemma AsWrittenAgrees(t: Table, from: string, langId: string, sep: string)
    requires Uniform(t, from, langId)
    ensures PostPassAsWritten(t, from, langId, sep) == PostPass(t, from, langId, sep)
  {
    if t != [] {
      var aw := PostPassAsWritten(t, from, langId, sep).value;
      var co := PostPass(t, from, langId, sep).value;
      assert |aw| == |t| == |co|;
      forall i | 0 <= i < |t| ensures aw[i] == co[i] {
        UniformRowAgrees(t, from, langId, sep, i);
      }
      assert aw == co;
    }
  }

  lemma UniformRowAgrees(t: Table, from: string, langId: string, sep: string, i: nat)
    requires Uniform(t, from, langId) && i < |t|
    ensures PostPassAsWritten(t, from, langId, sep).Ok? && PostPass(t, from, langId, sep).Ok?
    ensures PostPassAsWritten(t, from, langId, sep).value[i] == PostPass(t, from, langId, sep).value[i]
  {
    var p := Prepared(t, from, langId);
    var cols := Columns(p);
    var f := Filled(p);
    assert p[i] == PrepareRow(t[i], from, langId);
    assert p[0] == PrepareRow(t[0], from, langId);
    var g := FillRow(p[i], cols);
    var g0 := FillRow(p[0], cols);
    assert f[i] == g && f[0] == g0;
    forall c | c in g ensures c in g0 && (g[c].List? <==> g0[c].List?) {
      assert g[c] == PreparedCell(t[i], from, langId, c);
      assert g0[c] == PreparedCell(t[0], from, langId, c);
    }
    assert PostPass(t, from, langId, sep).value[i] == FlatRow(g, sep);
    SameShapeJoins(g, g0, sep);
  }

  /** Joining by the first row's shape is joining every list, when each cell
      is a list exactly when the first row's is. */
  lemma SameShapeJoins(g: Record, g0: Record, sep: string)
    requires forall c :: c in g ==> c in g0 && (g[c].List? <==> g0[c].List?)
    ensures (map c | c in g :: if c in g0 && g0[c].List? then SepJoin(g[c], sep) else g[c]) == FlatRow(g, sep)
  {
  }

  /** A one-row table is uniform, so both joins agree on it. */
  lemma OneRowAgrees(r: Record, from: string, langId: string, sep: string)
    ensures PostPassAsWritten([r], from, langId, sep) == PostPass([r], from, langId, sep)
  {
    AsWrittenAgrees([r], from, langId, sep);
  }

  /** The as-written join leaves a list in place in every column whose first
      cell is not a list. */
  lemma AsWrittenKeepsLaterLists(t: Table, sep: string, i: nat, c: string)
    requires i < |t| && c in t[i] && t[i][c].List?
    requires c !in t[0] || t[0][c].Str?
    ensures JoinListsAsWritten(t, sep).Ok?
    ensures JoinListsAsWritten(t, sep).value[i][c] == t[i][c]
  {
  }

  /** The table of two morphemes of which only the second has a gloss in the
      meta language `en`. */
  function TwoMorphemes(): Table
  {
    [map["ID" := Str("a")], map["ID" := Str("b"), "gloss_en" := List(["dog"])]]
  }

  /** On `TwoMorphemes` the as-written post-pass leaves the second row's
      `Meaning` a list: the first row has no gloss, so its filled cell is a
      string and the column is never joined. */
  lemma FirstRowTestMissesLists()
    ensures PostPassAsWritten(TwoMorphemes(), "gloss_en", "xyz", "; ").Ok?
    ensures var out := PostPassAsWritten(TwoMorphemes(), "gloss_en", "xyz", "; ").value;
      |out| == 2 && "Meaning" in out[1] && out[1]["Meaning"] == List(["dog"])
  {
    var t := TwoMorphemes();
    var p := Prepared(t, "gloss_en", "xyz");
    assert p[0] == PrepareRow(t[0], "gloss_en", "xyz");
    assert p[1] == PrepareRow(t[1], "gloss_en", "xyz");
    assert "Meaning" !in p[0];
    assert "Meaning" in p[1] && p[1]["Meaning"] == List(["dog"]);
    var f := Filled(p);
    assert "Meaning" in Columns(p);
    assert f[0] == FillRow(p[0], Columns(p));
    assert f[1] == FillRow(p[1], Columns(p));
    AsWrittenKeepsLaterLists(f, "; ", 1, "Meaning");
  }

  /** On the same table the corrected post-pass joins it. */
  lemma CorrectedJoinsLaterLists()
    ensures PostPass(TwoMorphemes(), "gloss_en", "xyz", "; ").Ok?
    ensures var out := PostPass(TwoMorphemes(), "gloss_en", "xyz", "; ").value;
      |out| == 2 && "Meaning" in out[1] && out[1]["Meaning"] == Str("dog")
  {
    var t := TwoMorphemes();
    PostPassRows(t, "gloss_en", "xyz", "; ", 1);
    PostRowCells(t[1], Columns(Prepared(t, "gloss_en", "xyz")), "gloss_en", "xyz", "; ");
  }
}
