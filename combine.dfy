/**
 * combine.py: flattening saved search results into CSV rows.
 * Each input file is given as its stem and its decoded content (None when the
 * file could not be read or decoded); the CSV writer is replaced by the table
 * (header and rows) it would be handed.
 */
module Combine {
  import opened Wrappers
  import opened JsonValues
  import opened Sequences

  /** Columns of the CSV; a dotted name addresses a nested field. */
  const SelectedAttributes: seq<string> := [
    "id", "usItemId", "name", "type", "averageRating", "numberOfReviews",
    "salesUnitType", "sellerName", "imageInfo.thumbnailUrl"
  ]

  /** The only record type that is exported. */
  const ValidType: string := "REGULAR"

  /** The extra column holding the file stem. */
  const Category: string := "category"

  /** The value get_nested_value answers for a missing path. */
  const Missing: Json := JStr("")

  // ---------------------------------------------------------------------------
  // Dotted attribute names

  /** `s.split(".")` */
  function Split(s: string): (pieces: seq<string>)
    ensures |pieces| >= 1
  {
    if s == [] then [""]
    else
      var rest := Split(s[1..]);
      if s[0] == '.' then [""] + rest
      else [[s[0]] + rest[0]] + rest[1..]
  }

  /** `".".join(pieces)` */
  function Join(pieces: seq<string>): string
    requires |pieces| >= 1
  {
    if |pieces| == 1 then pieces[0] else pieces[0] + "." + Join(pieces[1..])
  }

  predicate NoDot(s: string) {
    '.' !in s
  }

  /** Splitting yields dot-free pieces that rejoin to the attribute name. */
  lemma {:induction false} SplitThenJoin(s: string)
    ensures Join(Split(s)) == s
    ensures forall i :: 0 <= i < |Split(s)| ==> NoDot(Split(s)[i])
  {
    if s != [] {
      var rest := Split(s[1..]);
      SplitThenJoin(s[1..]);
      if s[0] != '.' {
        var pieces := [[s[0]] + rest[0]] + rest[1..];
        assert Split(s) == pieces;
        assert Join(pieces) == s by {
          assert pieces[1..] == rest[1..];
          if |rest| > 1 {
            assert Join(rest) == rest[0] + "." + Join(rest[1..]);
          }
          assert s == [s[0]] + s[1..];
        }
        forall i | 0 <= i < |pieces| ensures NoDot(pieces[i]) {
          if i > 0 { assert pieces[i] == rest[i]; }
        }
      } else {
        assert Join(Split(s)) == s by {
          assert ([""] + rest)[1..] == rest;
          assert s == [s[0]] + s[1..];
        }
      }
    }
  }

  /** A dot-free prefix stays glued to the first piece of what follows it. */
  lemma {:induction false} SplitDotFreePrefix(p: string, t: string)
    requires NoDot(p)
    ensures Split(p + t) == [p + Split(t)[0]] + Split(t)[1..]
  {
    var pieces := Split(t);
    if p == [] {
      assert p + t == t;
      assert p + pieces[0] == pieces[0];
      assert [pieces[0]] + pieces[1..] == pieces;
    } else {
      var s := p + t;
      assert s[0] == p[0] && s[0] != '.' by { assert p[0] in p; }
      assert s[1..] == p[1..] + t;
      SplitDotFreePrefix(p[1..], t);
      var rest := Split(s[1..]);
      assert rest[0] == p[1..] + pieces[0] && rest[1..] == pieces[1..];
      assert [p[0]] + rest[0] == p + pieces[0] by {
        assert p == [p[0]] + p[1..];
      }
    }
  }

  /** Joining dot-free pieces and splitting again gives the pieces back. */
  lemma {:induction false} JoinThenSplit(pieces: seq<string>)
    requires |pieces| >= 1
    requires forall i :: 0 <= i < |pieces| ==> NoDot(pieces[i])
    ensures Split(Join(pieces)) == pieces
  {
    var p := pieces[0];
    if |pieces| == 1 {
      SplitDotFreePrefix(p, "");
      assert p + "" == p;
    } else {
      var t := Join(pieces[1..]);
      JoinThenSplit(pieces[1..]);
      assert "." + t == ['.'] + t;
      assert ("." + t)[1..] == t;
      assert Split("." + t) == [""] + pieces[1..];
      SplitDotFreePrefix(p, "." + t);
      assert p + "." + t == p + ("." + t);
      assert ([""] + pieces[1..])[1..] == pieces[1..];
      assert p + "" == p;
      assert [p] + pieces[1..] == pieces;
    }
  }

  /** The nested column of the CSV splits into its two keys. */
  lemma ThumbnailPath()
    ensures Split("imageInfo.thumbnailUrl") == ["imageInfo", "thumbnailUrl"]
  {
    var pieces := ["imageInfo", "thumbnailUrl"];
    assert Join(pieces) == "imageInfo.thumbnailUrl";
    assert NoDot(pieces[0]) && NoDot(pieces[1]);
    JoinThenSplit(pieces);
  }

  // ---------------------------------------------------------------------------
  // get_nested_value

  /** What get_nested_value answers: the value at the end of the path, or "" when a step fails. */
  function NestedValue(data: Json, keys: seq<string>): Json {
    match Follow(data, keys)
    case Some(v) => v
    case None => Missing
  }

  /** Walks the path key by key, answering "" at the first non-dict or missing key. */
  method GetNestedValue(data: Json, keys: seq<string>) returns (r: Json)
    ensures r == NestedValue(data, keys)
  {
    r := data;
    for i := 0 to |keys|
      invariant Follow(data, keys[..i]) == Some(r)
    {
      if r.JObj? && keys[i] in Keys(r.fields) {
        var next := Get(r.fields, keys[i]).value;
        FollowAppend(data, keys[..i], [keys[i]]);
        assert keys[..i] + [keys[i]] == keys[..i + 1];
        r := next;
      } else {
        FollowAppend(data, keys[..i], keys[i..]);
        assert keys[..i] + keys[i..] == keys;
        return Missing;
      }
    }
    assert keys[..|keys|] == keys;
  }

  /** The empty path answers the data itself. */
  lemma NestedValueEmptyPath(data: Json)
    ensures NestedValue(data, []) == data
  {
  }

  /** A step that meets a non-dict or a missing key makes the whole lookup answer "". */
  lemma NestedValueStopsAtMiss(data: Json, keys: seq<string>, i: nat)
    requires i < |keys| && Follow(data, keys[..i]).Some?
    requires Field(Follow(data, keys[..i]).value, keys[i]).None?
    ensures NestedValue(data, keys) == Missing
  {
    FollowAppend(data, keys[..i], keys[i..]);
    assert keys[..i] + keys[i..] == keys;
  }

  /** Looking up a + b is looking up b in what looking up a answered. */
  lemma NestedValueAppend(data: Json, a: seq<string>, b: seq<string>)
    ensures NestedValue(data, a + b) == NestedValue(NestedValue(data, a), b)
  {
    FollowAppend(data, a, b);
    if Follow(data, a).None? && b != [] {
      assert Field(Missing, b[0]).None?;
    }
  }

  // ---------------------------------------------------------------------------
  // is_valid_record

  /** The dotted path looks up to something other than "". */
  predicate PathPresent(item: Json, attr: string) {
    NestedValue(item, Split(attr)) != Missing
  }

  /** Every required dotted path looks up to something other than "". */
  function AllPresent(item: Json, required: seq<string>): (all: bool)
    ensures all <==> forall i :: 0 <= i < |required| ==> PathPresent(item, required[i])
  {
    if required == [] then true
    else PathPresent(item, required[0]) && AllPresent(item, required[1..])
  }

  /**
   * The record has the wanted top-level type and every required path is present.
   * A stored "" counts as missing; null, 0 and false count as present.
   */
  function IsValidRecord(item: Json, required: seq<string>, validType: string): (valid: bool)
    requires item.JObj?
    ensures Field(item, "type") != Some(JStr(validType)) ==> !valid
    ensures required == [] ==> (valid <==> Field(item, "type") == Some(JStr(validType)))
  {
    Field(item, "type") == Some(JStr(validType)) && AllPresent(item, required)
  }

  /** A record is valid exactly when its type matches and every required path is present. */
  lemma ValidRecordMeaning(item: Json, required: seq<string>, validType: string)
    requires item.JObj?
    ensures IsValidRecord(item, required, validType)
            <==> Field(item, "type") == Some(JStr(validType))
                 && forall i :: 0 <= i < |required| ==> PathPresent(item, required[i])
  {
  }

  // ---------------------------------------------------------------------------
  // Rows

  /** One CSV row: column name to value, in column order. */
  datatype Row = Row(fields: Fields)

  /** The attribute names in order of first occurrence: the key order of a dict filled from them. */
  function FirstOccurrences(attrs: seq<string>): (ks: seq<string>)
    ensures forall k :: k in ks <==> k in attrs
    decreases |attrs|
  {
    if attrs == [] then []
    else
      var init, last := attrs[..|attrs| - 1], attrs[|attrs| - 1];
      assert attrs == init + [last];
      var prev := FirstOccurrences(init);
      if last in prev then prev else prev + [last]
  }

  /** No name occurs twice, and names that were distinct already keep their order. */
  lemma {:induction false} FirstOccurrencesDistinct(attrs: seq<string>)
    ensures Distinct(FirstOccurrences(attrs))
    ensures Distinct(attrs) ==> FirstOccurrences(attrs) == attrs
    decreases |attrs|
  {
    if attrs != [] {
      var init, last := attrs[..|attrs| - 1], attrs[|attrs| - 1];
      assert attrs == init + [last];
      FirstOccurrencesDistinct(init);
      var prev := FirstOccurrences(init);
      if last !in prev {
        var ks := prev + [last];
        forall i, j | 0 <= i < j < |ks| ensures ks[i] != ks[j] {
          if j == |ks| - 1 { assert ks[i] in prev; }
        }
      }
      assert Distinct(attrs) ==> Distinct(init) && last !in init;
    }
  }

  /** x occurs in attrs before any occurrence of y. */
  predicate OccursBefore(attrs: seq<string>, x: string, y: string) {
    exists m :: 0 <= m < |attrs| && attrs[m] == x && y !in attrs[..m]
  }

  /**
   * The names come in order of first occurrence: of two names, the earlier one occurs in
   * attrs before any occurrence of the later one.
   */
  lemma {:induction false} FirstOccurrencesOrder(attrs: seq<string>)
    ensures forall i, j :: 0 <= i < j < |FirstOccurrences(attrs)| ==>
              OccursBefore(attrs, FirstOccurrences(attrs)[i], FirstOccurrences(attrs)[j])
    decreases |attrs|
  {
    if attrs != [] {
      var init, last := attrs[..|attrs| - 1], attrs[|attrs| - 1];
      assert attrs == init + [last];
      FirstOccurrencesOrder(init);
      var prev := FirstOccurrences(init);
      var ks := FirstOccurrences(attrs);
      forall i, j | 0 <= i < j < |ks| ensures OccursBefore(attrs, ks[i], ks[j]) {
        assert ks[i] == prev[i] && prev[i] in init;
        if j < |prev| {
          assert ks[j] == prev[j] && OccursBefore(init, prev[i], prev[j]);
          var m :| 0 <= m < |init| && init[m] == prev[i] && prev[j] !in init[..m];
          assert attrs[m] == init[m] && attrs[..m] == init[..m];
        } else {
          assert ks[j] == last && last !in init;
          var m :| 0 <= m < |init| && init[m] == prev[i];
          assert attrs[m] == init[m] && attrs[..m] == init[..m];
        }
      }
    }
  }

  /** The columns ks, each holding the nested lookup of its dotted path, in the order of ks. */
  function Columns(item: Json, ks: seq<string>): (row: Fields)
    ensures Keys(row) == ks
    ensures forall i :: 0 <= i < |ks| ==> row[i].1 == NestedValue(item, Split(ks[i]))
  {
    if ks == [] then [] else [(ks[0], NestedValue(item, Split(ks[0])))] + Columns(item, ks[1..])
  }

  /**
   * `{attr: get_nested_value(item, attr.split(".")) for attr in attrs}`: a repeated
   * attribute keeps the position of its first occurrence, and its value is the same
   * lookup each time.
   */
  function Project(item: Json, attrs: seq<string>): (row: Fields)
    ensures Keys(row) == FirstOccurrences(attrs)
  {
    Columns(item, FirstOccurrences(attrs))
  }

  /** Each projected attribute holds the nested lookup of its dotted path. */
  lemma ProjectValues(item: Json, attrs: seq<string>, a: string)
    requires a in attrs
    ensures Get(Project(item, attrs), a) == Some(NestedValue(item, Split(a)))
  {
    var ks := FirstOccurrences(attrs);
    var row := Project(item, attrs);
    var i :| 0 <= i < |ks| && ks[i] == a;
    assert Keys(row) == ks;
    FirstOccurrencesDistinct(attrs);
    GetDistinct(row, i);
  }

  /** The row built for one record: its projection, then `row["category"] = stem`. */
  function BuildRow(item: Json, attrs: seq<string>, stem: string): (row: Row)
    ensures Keys(row.fields) == if Category in attrs then FirstOccurrences(attrs) else FirstOccurrences(attrs) + [Category]
  {
    Row(Put(Project(item, attrs), Category, JStr(stem)))
  }

  /**
   * A row has exactly the selected attributes plus "category", each attribute holding
   * the nested lookup of its dotted path and "category" holding the file stem.
   */
  lemma RowShape(item: Json, attrs: seq<string>, stem: string)
    ensures forall k :: k in Keys(BuildRow(item, attrs, stem).fields) <==> k in attrs || k == Category
    ensures Get(BuildRow(item, attrs, stem).fields, Category) == Some(JStr(stem))
    ensures forall a :: a in attrs && a != Category ==> Get(BuildRow(item, attrs, stem).fields, a) == Some(NestedValue(item, Split(a)))
    ensures Distinct(Keys(BuildRow(item, attrs, stem).fields))
    ensures Distinct(attrs) && Category !in attrs ==> Keys(BuildRow(item, attrs, stem).fields) == attrs + [Category]
  {
    var prev := Project(item, attrs);
    var row := Put(prev, Category, JStr(stem));
    FirstOccurrencesDistinct(attrs);
    forall a | a in attrs && a != Category ensures Get(row, a) == Some(NestedValue(item, Split(a))) {
      ProjectValues(item, attrs, a);
      PutOther(prev, Category, JStr(stem), a);
    }
    assert Distinct(Keys(row)) by {
      if Category !in Keys(prev) {
        var ks := Keys(prev) + [Category];
        forall i, j | 0 <= i < j < |ks| ensures ks[i] != ks[j] {
          if j == |ks| - 1 { assert ks[i] in Keys(prev); }
        }
      }
    }
  }

  // ---------------------------------------------------------------------------
  // json_to_csv

  /** One file found by the glob: its stem and its decoded content, None when reading failed. */
  datatype JsonFile = JsonFile(stem: string, content: Option<Json>)

  /** What the CSV writer is handed. */
  datatype Table = Table(header: seq<string>, rows: seq<Row>)

  /** A list item without `.get`: is_valid_record raises and the conversion aborts. */
  datatype CombineError = RecordNotAnObject(stem: string)

  /** The items a file contributes: those of a top-level list, none otherwise. */
  function Items(f: JsonFile): seq<Json> {
    if f.content.Some? && f.content.value.JArr? then f.content.value.items else []
  }

  /** The rows one item contributes: one for a valid record, none otherwise. */
  function RowFor(item: Json, attrs: seq<string>, stem: string): (rows: seq<Row>)
    ensures |rows| <= 1
    ensures rows != [] <==> item.JObj? && IsValidRecord(item, attrs, ValidType)
  {
    if item.JObj? && IsValidRecord(item, attrs, ValidType) then [BuildRow(item, attrs, stem)] else []
  }

  function RowForItem(attrs: seq<string>, stem: string): Json -> seq<Row> {
    item => RowFor(item, attrs, stem)
  }

  /** The rows of one list, item by item. */
  function ItemRows(items: seq<Json>, attrs: seq<string>, stem: string): seq<Row> {
    FlatMap(items, RowForItem(attrs, stem))
  }

  /** The rows one file contributes. */
  function FileRows(f: JsonFile, attrs: seq<string>): seq<Row> {
    ItemRows(Items(f), attrs, f.stem)
  }

  function FileRowsFor(attrs: seq<string>): JsonFile -> seq<Row> {
    f => FileRows(f, attrs)
  }

  /** The rows of all files, file by file. */
  function AllRows(files: seq<JsonFile>, attrs: seq<string>): seq<Row> {
    FlatMap(files, FileRowsFor(attrs))
  }

  /** Every item the file contributes is an object. */
  predicate RecordsOnly(f: JsonFile) {
    forall j :: 0 <= j < |Items(f)| ==> Items(f)[j].JObj?
  }

  /** Some list file holds an item that is not an object. */
  predicate HasNonRecord(files: seq<JsonFile>) {
    exists i :: 0 <= i < |files| && !RecordsOnly(files[i])
  }

  /** An unreadable or non-list file contributes no row, wherever it stands. */
  lemma FileWithoutListAddsNothing(before: seq<JsonFile>, f: JsonFile, after: seq<JsonFile>, attrs: seq<string>)
    requires !(f.content.Some? && f.content.value.JArr?)
    ensures AllRows(before + [f] + after, attrs) == AllRows(before + after, attrs)
  {
    var g := FileRowsFor(attrs);
    assert Items(f) == [];
    assert g(f) == [];
    assert FlatMap([f], g) == [] by {
      assert [f][..0] == [];
    }
    FlatMapAppend(before, [f], g);
    assert FlatMap(before + [f], g) == FlatMap(before, g);
    FlatMapAppend(before + [f], after, g);
    FlatMapAppend(before, after, g);
  }

  /** Every row of a list is the row of one of its valid records. */
  lemma ItemRowsFromRecords(items: seq<Json>, attrs: seq<string>, stem: string, k: nat)
    requires k < |ItemRows(items, attrs, stem)|
    ensures exists j :: 0 <= j < |items| && items[j].JObj? && IsValidRecord(items[j], attrs, ValidType)
                        && ItemRows(items, attrs, stem)[k] == BuildRow(items[j], attrs, stem)
  {
    var g := RowForItem(attrs, stem);
    FlatMapFrom(items, g, k);
    var j :| 0 <= j < |items| && FlatMap(items, g)[k] in g(items[j]);
    assert g(items[j]) == RowFor(items[j], attrs, stem);
  }

  /**
   * Every row fits the CSV header `attrs + ["category"]`, so the writer never meets an
   * unknown key, and its category is the stem of a file that holds its record.
   */
  lemma RowsFitHeader(files: seq<JsonFile>, attrs: seq<string>, k: nat)
    requires k < |AllRows(files, attrs)|
    ensures forall key :: key in Keys(AllRows(files, attrs)[k].fields) <==> key in attrs + [Category]
    ensures exists i :: 0 <= i < |files| && Get(AllRows(files, attrs)[k].fields, Category) == Some(JStr(files[i].stem))
  {
    var g := FileRowsFor(attrs);
    FlatMapFrom(files, g, k);
    var i :| 0 <= i < |files| && AllRows(files, attrs)[k] in g(files[i]);
    var rows := FileRows(files[i], attrs);
    var m :| 0 <= m < |rows| && rows[m] == AllRows(files, attrs)[k];
    ItemRowsFromRecords(Items(files[i]), attrs, files[i].stem, m);
    var items := Items(files[i]);
    var j :| 0 <= j < |items| && items[j].JObj? && IsValidRecord(items[j], attrs, ValidType)
             && rows[m] == BuildRow(items[j], attrs, files[i].stem);
    RowShape(items[j], attrs, files[i].stem);
  }

  /** The inner loop of json_to_csv: the rows of one decoded list, or the abort on a non-object item. */
  method ListRows(items: seq<Json>, selected: seq<string>, stem: string) returns (r: Result<seq<Row>, CombineError>)
    ensures r.Failure? <==> exists j :: 0 <= j < |items| && !items[j].JObj?
    ensures r.Success? ==> r.value == ItemRows(items, selected, stem)
  {
    var rows: seq<Row> := [];
    for k := 0 to |items|
      invariant rows == ItemRows(items[..k], selected, stem)
      invariant forall j :: 0 <= j < k ==> items[j].JObj?
    {
      var item := items[k];
      if !item.JObj? {
        return Failure(RecordNotAnObject(stem));
      }
      assert forall j :: 0 <= j < k + 1 ==> items[j].JObj?;
      TakeOneMore(items, k);
      FlatMapSnoc(items[..k], item, RowForItem(selected, stem));
      if IsValidRecord(item, selected, ValidType) {
        var row := BuildRow(item, selected, stem);
        rows := rows + [row];
      }
    }
    TakeAll(items);
    r := Success(rows);
  }

  /**
   * The conversion: one row per valid record of each list file, in file then item
   * order; a list item that is not an object aborts it; no table without rows.
   */
  method JsonToCsv(files: seq<JsonFile>, selected: seq<string>) returns (out: Result<Option<Table>, CombineError>)
    ensures out.Failure? <==> HasNonRecord(files)
    ensures out.Success? ==> out.value == if AllRows(files, selected) == [] then None
                                          else Some(Table(selected + [Category], AllRows(files, selected)))
  {
    var csvData: seq<Row> := [];
    for f := 0 to |files|
      invariant csvData == AllRows(files[..f], selected)
      invariant forall i :: 0 <= i < f ==> RecordsOnly(files[i])
    {
      var file := files[f];
      if file.content.Some? && file.content.value.JArr? {
        var rows := ListRows(file.content.value.items, selected, file.stem);
        assert Items(file) == file.content.value.items;
        if rows.Failure? {
          assert !RecordsOnly(files[f]);
          return Failure(rows.error);
        }
        assert forall i :: 0 <= i < f + 1 ==> RecordsOnly(files[i]);
        csvData := csvData + rows.value;
      } else {
        assert forall i :: 0 <= i < f + 1 ==> RecordsOnly(files[i]);
      }
      TakeOneMore(files, f);
      FlatMapSnoc(files[..f], file, FileRowsFor(selected));
    }
    TakeAll(files);
    if csvData == [] {
      out := Success(None);
    } else {
      out := Success(Some(Table(selected + [Category], csvData)));
    }
  }
}
