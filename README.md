# cldflex LIFT converter, modelled in Dafny

This project models the core of `cldflex`'s LIFT-to-CSV converter
(`src/cldflex/lift2csv.py`). LIFT (Lexicon Interchange FormaT) is the XML
dictionary format that SIL FLEx exports. The converter walks the parsed
dictionary and builds four flat tables:

- one **morpheme** row per entry;
- one **morph** row per surface form of an entry (its lexical unit, its
  `variant` form-sets, and variant descriptors gathered from other entries);
- one **sense** row per direct-child sense;
- one **example** row per example.

Along the way it collects gloss and definition texts per language into an
entry-wide accumulator (`fields`). It works out the meta language and the
object language from the first entry that has one. In the morph and
morpheme tables it renames `gloss_<meta language>` to `Meaning`, stamps
`Language_ID`, fills empty cells, and joins list cells with the cell
separator.

The model is organised by the program's own parts:

| file | module | models |
|---|---|---|
| `tree.dfy` | `LiftTree` | the parsed document: `find_all`, `find`, `find_all(recursive=False)` and `select("trait[name=…]")` |
| `records.dfy` | `Records` | cells, records, the `fields` accumulator, the errors the code can raise, and `<owner>-<n>` identifiers |
| `variants.dfy` | `Variants` | `gather_variants` and `get_morph_type` |
| `meanings.dfy` | `Meanings` | `extract_meanings` |
| `examples.dfy` | `Examples` | `extract_examples` |
| `forms.dfy` | `Forms` | `extract_forms` |
| `entries.dfy` | `Entries` | `parse_entry` |
| `tables.dfy` | `Tables` | the column post-pass of `convert` |
| `convert.dfy` | `Convert` | `figure_out_gloss_language`, the variant pre-pass, the entry loop, and the whole conversion |
| `scenario.dfy` | `Scenario` | a worked conversion of a one-entry lexicon, pass by pass |

How the Python becomes Dafny:

- **Loops become methods.** Each function that works by appending and
  mutating becomes a `method` with a loop. Examples are `gather_variants`,
  `extract_meanings`, `extract_examples`, `extract_forms`, `parse_entry` and
  the `convert` loops.
- **Each method has a specification function.** The method is proved equal
  to a recursive function that peels off the last element. The source's
  promises are proved as lemmas about that function.
- **Exceptions become a `Result`.** A Python exception ends the whole
  conversion, so the model returns `Fail(error)` with the exception's kind:
  - `KeyError` on an attribute is `MissingAttribute`;
  - a method call on a `find` that returned `None` is `MissingElement`;
  - `IndexError` is `IndexOutOfRange`.
- **Values instead of references.** The lists and dicts that Python shares
  by reference are plain values. The sharing is harmless because forms are
  extracted only after every sense has filled the accumulator.

Two behaviours of the code are easy to misread, and the model keeps them:

- **Variant entries are never set aside.** `gather_variants` has no
  `return` statement and so returns `None`. The test at line 176 therefore
  never sets an entry aside, and every entry reaches `parse_entry`. `Convert.EntriesMorphemes` and
  `Convert.ConvertMorphemes` state the consequence: one morpheme per
  `entry` element of the document, variants included.
- **A missing morph type raises `IndexError`.** Line 29 indexes an empty
  selection, so the model reports `IndexOutOfRange`, not a missing
  attribute.
- **Only some list columns are joined.** Line 199 joins a column only when
  its first cell is a list (see "## Findings"). `Convert.ConvertSpec` and
  the method `Convert.Convert` keep that test. `Convert.ConvertCorrected` is
  the same conversion with every list cell joined.

## Model

| member | source | states |
|---|---|---|
| Records.Push | src/cldflex/lift2csv.py:37-38 | `setdefault(key, [])` then `append`: the key is added if new, the text goes at the end of its list, and every other key is unchanged |
| Records.FieldsRecord | src/cldflex/lift2csv.py:83 | `update(**fields)` adds exactly the accumulator's keys, each holding its list |
| Records.NatToStringInjective | src/cldflex/lift2csv.py:78 | different counters print differently |
| Records.IdOfInjective | src/cldflex/lift2csv.py:78 | `f"{entry_id}-{n}"` gives different identifiers for different `n` |
| Records.FixedColumnsNotAccumulated | src/cldflex/lift2csv.py:83 | accumulator keys (`Parameter_ID`, `gloss_*`, `definition_*`) never overwrite `ID`, `Form`, `Type`, `Morpheme_ID`, `Gramm`, `Name`, `Language_ID` or `Meaning` |
| Records.SplitJoin | src/cldflex/lift2csv.py:198-200 | splitting a joined cell on the separator gives back the list, when the list is non-empty, the separator is non-empty, and no item contains the separator, even running on into the separator that follows it |
| Records.JoinLosesLists | src/cldflex/lift2csv.py:198-200 | without those conditions the list is lost: `[]` and `[""]` both join to `""`, and with separator `aa` the list `["a", "b"]` joins to `aaab`, which splits to `["", "ab"]` |
| Variants.LastSegment | src/cldflex/lift2csv.py:17 | `split("_")[-1]` is a suffix of the reference, contains no `_`, and is the whole reference or is preceded by `_` |
| Variants.MorphType | src/cldflex/lift2csv.py:28-29 | succeeds exactly when the first `morph-type` trait exists and has a `value`, and returns that value; with no such trait it is an `IndexError` |
| Variants.GatherVariants | src/cldflex/lift2csv.py:12-25 | the loop over the entry's relations computes `Gathered`, including the first error |
| Variants.GatheredSucceeds | src/cldflex/lift2csv.py:15-23 | the pass succeeds exactly when every variant-type relation has a `ref` and, if some relation records, the entry's descriptor (`id`, first `form`, `morph-type`) can be built |
| Variants.GatheredIsAddAll | src/cldflex/lift2csv.py:15-25 | a successful pass leaves the index unchanged when no relation records, and otherwise adds the entry's descriptor under the key of each recording relation, in order |
| Variants.AddAllContents | src/cldflex/lift2csv.py:18-19 | adding a descriptor under a list of keys grows the key set by those keys, and extends each key's list by as many copies of the descriptor as the key occurs |
| Variants.GatheredAppends | src/cldflex/lift2csv.py:15-25 | a pass only appends: each key's old list is a prefix of its new one, and exactly the recording relations' keys gain one copy of the descriptor per occurrence |
| Meanings.FileText | src/cldflex/lift2csv.py:37-38 | one `setdefault`/`append` on the accumulator |
| Meanings.FileTexts | src/cldflex/lift2csv.py:35-45 | one of the two inner loops: it fails with a missing `lang` exactly when some node lacks one; otherwise it files every text under `prefix + lang` in order and collects the texts |
| Meanings.ExtractMeanings | src/cldflex/lift2csv.py:32-51 | the method computes `Meanings`, including the first error |
| Meanings.MeaningsContents | src/cldflex/lift2csv.py:32-51 | succeeds exactly when every gloss and every definition form has a `lang`. The description is the definition texts joined, else the gloss texts joined, else `""`. The accumulator gains exactly the new language keys, each list is extended at its end by its texts in document order, and the key discipline is kept |
| Meanings.AppendTextsDomain | src/cldflex/lift2csv.py:35-45 | filing texts adds exactly the keys `prefix + lang` of the nodes |
| Meanings.AppendTextsContents | src/cldflex/lift2csv.py:35-45 | filing texts extends each key's list at its end with the texts filed under it, in order, and leaves other keys' lists as they were |
| Meanings.AppendTextsKeys | src/cldflex/lift2csv.py:36-42 | filing under `gloss_` or `definition_` keeps every key an accumulator key |
| Meanings.AppendTextsConcat | src/cldflex/lift2csv.py:40-45 | filing the forms of several definitions is filing them definition after definition |
| Meanings.MissingLangInForms | src/cldflex/lift2csv.py:41-42 | a form without `lang` in any definition makes the definition pass fail |
| Examples.ColumnName | src/cldflex/lift2csv.py:64 | the `name-slug(type)-lang` column of a child can never be `Form` or `ID` |
| Examples.Cell | src/cldflex/lift2csv.py:58-67 | a `form` child writes `Form`; another child writes the text of its first nested form under its built column name; a child without a nested form writes nothing |
| Examples.ChildColumnsContents | src/cldflex/lift2csv.py:57-67 | after the children loop, a key is present exactly when it was before or some child wrote it, and the last writer's text wins |
| Examples.AttrColumns | src/cldflex/lift2csv.py:68-69 | every attribute of the example becomes a column holding its value |
| Examples.FlattenExample | src/cldflex/lift2csv.py:56-69 | the loop body computes `ExampleRecord` for the k-th example |
| Examples.ExtractExamples | src/cldflex/lift2csv.py:54-70 | the loop appends the examples' records to the earlier ones, or fails with the first error |
| Examples.ExampleRecordsShape | src/cldflex/lift2csv.py:55-56 | one record per example, in order, the k-th built with counter k (the counter restarts for each sense) |
| Examples.ExampleRecordColumns | src/cldflex/lift2csv.py:56-69 | `ID` is `<entry>-<k>` unless an `ID` attribute overwrites it; attributes win over child columns; other columns are exactly those the children wrote |
| Examples.WrittenNeverId | src/cldflex/lift2csv.py:57-65 | no child ever writes the `ID` column |
| Forms.MorphRowColumns | src/cldflex/lift2csv.py:77-83 | a morph row has the four fixed columns with the morph's values plus the accumulator's lists, none overwritten |
| Forms.NumberedMorphsAt | src/cldflex/lift2csv.py:76-85 | the i-th morph has the i-th form's text and identifier `<entry>-<start + i>` |
| Forms.ExtractForms | src/cldflex/lift2csv.py:73-86 | appends one morph per `form`, numbered from the incoming counter, and returns the counter advanced by the number of forms |
| Entries.ParseSense | src/cldflex/lift2csv.py:98-111 | the loop body for one sense computes `SenseStep` |
| Entries.ParseSenses | src/cldflex/lift2csv.py:97-111 | the sense loop computes `SensePass`, stopping at the first error |
| Entries.SenseStepLists | src/cldflex/lift2csv.py:99-111 | one sense appends exactly one sense `(id, description, entry)`, where the description is its definition texts joined, else its gloss texts joined, else empty. It appends the `value` of each of its `grammatical-info` elements to the categories, and only extends the example list |
| Entries.SenseStepFields | src/cldflex/lift2csv.py:102-106 | one sense appends its `id` to `Parameter_ID` and keeps the key discipline |
| Entries.SensePassLists | src/cldflex/lift2csv.py:97-111 | the sense list gains exactly `SenseRecords`: one sense per sense element, in order, with its `id`, its description and the entry. The categories gain exactly `Poses`: every `grammatical-info` value, sense by sense. The example list only grows |
| Entries.SensePassFields | src/cldflex/lift2csv.py:97-106 | `Parameter_ID` lists the senses' ids in order |
| Entries.ExtractAllForms | src/cldflex/lift2csv.py:114-123 | the lexical unit, then every `variant` form-set with its own morph type, numbered by one shared counter from 0 |
| Entries.SetMorphsAt | src/cldflex/lift2csv.py:114-123 | the i-th morph has the i-th form's text over all form-sets, its set's type, and identifier `<entry>-<i>` |
| Entries.SetMorphsSnoc | src/cldflex/lift2csv.py:120-123 | a further form-set continues the numbering where the previous ones stopped |
| Entries.MergeDescriptors | src/cldflex/lift2csv.py:126-129 | appends one morph per gathered descriptor, stamped with the entry and the accumulator |
| Entries.DescriptorMorphsAt | src/cldflex/lift2csv.py:127-129 | the j-th merged morph keeps the j-th descriptor's own identifier, form and type |
| Entries.MorphFormsAt | src/cldflex/lift2csv.py:135 | the morpheme's i-th form is the i-th morph's form |
| Entries.ParseEntry | src/cldflex/lift2csv.py:89-139 | `parse_entry` computes `EntrySpec`, including the first error |
| Entries.EntryFailures | src/cldflex/lift2csv.py:90-92 | no `guid` is a missing attribute; no morph-type trait is an `IndexError`; a successful entry has a type, form-sets, and at least one form or gathered descriptor |
| Entries.EntryWithoutMorphs | src/cldflex/lift2csv.py:136 | an entry with no forms and no gathered descriptors fails on `morphs[0]` |
| Entries.EntrySenses | src/cldflex/lift2csv.py:95-111 | the entry's senses are appended to the shared list in order, each with its `id`, its description and `Entry_ID` the `guid`. `Parameter_ID` is their ids, and the example list only grows |
| Entries.EntryFormMorphs | src/cldflex/lift2csv.py:114-123 | the morphs begin with one per form over all form-sets, the i-th numbered `<guid>-<i>`, followed by one per gathered descriptor |
| Entries.EntryDescriptorMorphs | src/cldflex/lift2csv.py:126-129 | the morphs after the form morphs are exactly the gathered descriptors, stamped |
| Entries.EntryMorphIdsDistinct | src/cldflex/lift2csv.py:114-123 | the form morphs of an entry have pairwise different identifiers |
| Entries.EntryMorpheme | src/cldflex/lift2csv.py:97-138 | the morpheme's `ID` is the `guid` and `Type` the morph type. `Gramm` is the `value` of every `grammatical-info` under the entry's direct-child senses, sense by sense and in document order. `Form` lists every morph's form in order, and `Name` is the first one. Every morph carries the morpheme's accumulator and identity |
| Tables.Columns | src/cldflex/lift2csv.py:189-190 | a table's columns are exactly the keys some row uses |
| Tables.PreparedColumns | src/cldflex/lift2csv.py:192-196 | after the rename and the stamp, the columns are the old ones less the renamed one, plus `Meaning` when it was present, plus `Language_ID` |
| Tables.PostRowCells | src/cldflex/lift2csv.py:192-200 | one row through the corrected join: it has every column. `Language_ID` is the stamp and `Meaning` the joined gloss cell. Other cells are kept, with lists joined. Missing cells are `""`, and no list is left |
| Tables.PostPassRows | src/cldflex/lift2csv.py:191-200 | the corrected post-pass keeps one row per row of a non-empty table, each as `PostRowCells` states |
| Tables.PreparedKeeps | src/cldflex/lift2csv.py:192-196 | the rename and the stamp keep every cell other than the renamed gloss column, `Meaning` and `Language_ID` |
| Tables.AsWrittenRowCells | src/cldflex/lift2csv.py:191-200 | one row through the post-pass as written: it has every column of the stamped table, and `Language_ID` is the stamp. A cell is joined exactly when its column's first filled cell is a list, and otherwise kept. So it ends up a string exactly when its column is joined or it was a string, and the first row holds no list |
| Tables.AsWrittenAgrees | src/cldflex/lift2csv.py:191-200 | on a table where each column's filled cells are all lists or all strings, the post-pass as written equals the corrected one |
| Tables.AsWrittenKeepsLaterLists | src/cldflex/lift2csv.py:198-200 | the as-written join leaves a list unjoined in any column whose first cell is not a list |
| Tables.FirstRowTestMissesLists | src/cldflex/lift2csv.py:198-200 | on two morphemes where only the second has a meta-language gloss, its `Meaning` stays a list |
| Tables.CorrectedJoinsLaterLists | src/cldflex/lift2csv.py:198-200 | on the same table the corrected join gives the joined string |
| Convert.GlossLanguage | src/cldflex/lift2csv.py:142-150 | the first gloss's `lang`, else the first definition's first form's `lang`, else nothing. Nothing comes back exactly when the entry has neither, and the missing form or `lang` errors are reported |
| Convert.ObjectLanguage | src/cldflex/lift2csv.py:182 | succeeds exactly when the entry's first form has a `lang`, and returns it |
| Convert.GatherAllVariants | src/cldflex/lift2csv.py:175-177 | the pre-pass runs `gather_variants` on every entry in document order |
| Convert.GatherAllExtends | src/cldflex/lift2csv.py:175-177 | the pre-pass only appends to the descriptor lists |
| Convert.ConvertEntry | src/cldflex/lift2csv.py:179-188 | one iteration settles each language only while it is not truthy, then parses the entry and appends its morpheme and morphs |
| Convert.ConvertEntries | src/cldflex/lift2csv.py:178-188 | the entry loop computes `EntriesPass`, stopping at the first error |
| Convert.EntriesMorphemes | src/cldflex/lift2csv.py:176-188 | the loop adds one morpheme per entry, variants included, identified by the entries' `guid`s in document order; the morph, sense and example lists only grow |
| Convert.EntriesLanguages | src/cldflex/lift2csv.py:179-183 | the languages the loop ends with are those of `FirstLanguage`: a truthy configured value stays, otherwise the first entry that yields a truthy one decides |
| Convert.EntriesSenses | src/cldflex/lift2csv.py:178-188 | the sense list gains every entry's senses in document order, each with its `id`, its description and its entry |
| Convert.EntriesAccumulators | src/cldflex/lift2csv.py:184-187 | every morpheme's accumulator keeps the key discipline |
| Convert.Convert | src/cldflex/lift2csv.py:175-200 | the whole conversion computes `ConvertSpec`: pre-pass, entry loop, then the post-pass as written over the morph and morpheme tables |
| Convert.EmptyDocumentFails | src/cldflex/lift2csv.py:189-199 | a document without entries fails with `IndexError`, because the empty table has no first row |
| Convert.PostMorphemeRow | src/cldflex/lift2csv.py:191-200 | after the post-pass as written, a morpheme row keeps its `ID` and carries the `Language_ID` stamp. A cell is a string exactly when its column's first cell is a list or the cell was a string already |
| Convert.PostMorphemeRowCorrected | src/cldflex/lift2csv.py:191-200 | with the corrected join, a morpheme row keeps its `ID`, carries the `Language_ID` stamp and holds no list |
| Convert.ConvertMorphemes | src/cldflex/lift2csv.py:175-200 | the morpheme table has one row per `entry` element. The k-th row's `ID` is the k-th entry's `guid` and its `Language_ID` the stamp. A cell is a string exactly when its column's first cell is a list or the cell was a string already |
| Convert.ConvertMorphemesCorrected | src/cldflex/lift2csv.py:175-200 | with the corrected join (`ConvertCorrected`), the k-th morpheme row's `ID` is the k-th entry's `guid`; it has a `Language_ID` and only string cells |
| Convert.ConvertSenses | src/cldflex/lift2csv.py:178-188 | the sense table has one row per direct-child sense of each entry, in document order. Its `ID` is the sense's `id`, its `Description` the sense's description and its `Entry_ID` the entry's `guid` |
| Scenario.GlossSenseStep | src/cldflex/lift2csv.py:98-111 | a sense with one `en` gloss appends its `id` to `Parameter_ID` and its gloss to `gloss_en`, and adds one sense row described by that gloss |
| Scenario.TwoGlossSenses | src/cldflex/lift2csv.py:97-111 | over two such senses the accumulator holds both ids and both glosses in document order, and there are two sense rows |
| Scenario.OneFormMorphs | src/cldflex/lift2csv.py:73-86 | a lexical unit with one form gives one morph numbered `<entry>-0` |
| Scenario.EntryParsed | src/cldflex/lift2csv.py:89-139 | `parse_entry` on the worked entry gives the morpheme `g1` of type `stem` with forms `["taka"]` and name `taka`, the morph `g1-0`, and the two senses |
| Scenario.LexiconEntriesPass | src/cldflex/lift2csv.py:178-188 | with no configured languages, the entry loop takes `en` and `cux` from the entry |
| Scenario.SingleRowPostPass | src/cldflex/lift2csv.py:191-200 | on a one-row table, the gloss column becomes `Meaning`, `Language_ID` is added, and every other cell is kept with lists joined |
| Scenario.MorphTable | src/cldflex/lift2csv.py:191-200 | under either join, the worked morph row is written with `Meaning` "to run; to jump", `Parameter_ID` "s1; s2" and `Language_ID` `cux` |
| Scenario.MorphemeTable | src/cldflex/lift2csv.py:191-200 | under either join, the worked morpheme row is written with its empty `Gramm` as `""` and its form list joined to `taka` |
| Scenario.WorkedExample | src/cldflex/lift2csv.py:169-200 | `convert` on the one-entry lexicon with no configuration writes exactly one morph row, one morpheme row, two sense rows and no example |

## Left out

- Reading the configuration file, opening the LIFT file, and parsing the
  XML (lines 156-168). The model starts from an in-memory `Node` tree and a
  `Config` value.
- An element's `.text` is a field of the node. The model does not derive
  it from the element's children, as the XML library does.
- `slugify` is a function parameter `slug`. Its internals are another
  library's.
- `select("trait[name=…]")` is a search over all descendants. The
  `recursive=False` argument at line 29 is not an argument of the CSS
  selector, which searches descendants anyway.
- Logging (lines 50, 67, 149, 166, 183, 209) changes no record, so it is
  left out.
- pandas specifics. The model treats a table as a list of rows (maps),
  and its columns as the set of keys the rows use:
  - the model does not capture column order;
  - the model does not capture the NaN cells before `fillna` (absent keys
    stand for them);
  - the model does not capture writing the CSV files (lines 202-212).
- The post-pass column loop (lines 198-200) is modelled by functions over
  rows (`Tables.PostPassAsWritten`), not by a loop that updates a data frame in
  place.
- `create_dictionary_dataset` (line 215) is not part of this model. It is
  a separate packager whose source is not shown.
- Aliasing. The descriptors and `fields` lists that the source shares
  between records (lines 83, 127-128, 138) are values here. The in-place
  update of a descriptor at lines 127-128 is modelled as building a new
  morph from it. The model therefore does not capture one effect: if two
  entries had the same `guid`, the source would stamp the same descriptor
  objects twice, changing the first entry's morphs as well.
- Convert.ConvertMorphemes: states the `ID` and `Language_ID` cells and
  which cells are strings, not the value of each accumulated column.
  `Tables.AsWrittenRowCells` states those values row by row.

## Findings

| source | as written | input that shows it | evidently intended | confidence | as-written member | corrected member |
|---|---|---|---|---|---|---|
| src/cldflex/lift2csv.py:198-200 | a column is joined with the separator only when its FIRST row's cell is a list | two entries where only the second has a gloss in the meta language: the first morpheme's `Meaning` is filled as `""`, so the second's list `["dog"]` is written as a list | every list cell is joined, whichever row it is in | not executed | Tables.FirstRowTestMissesLists | Tables.CorrectedJoinsLaterLists |

`Convert.ConvertSpec` and the method `Convert.Convert` keep the code as
written (`Tables.PostPassAsWritten`). `Convert.ConvertCorrected` is the
conversion with the corrected join (`Tables.PostPass`), and
`Convert.ConvertMorphemesCorrected` proves that its morpheme table holds no
list. `Tables.AsWrittenAgrees` shows the two joins agree on any table
whose columns are each all lists or all strings.
