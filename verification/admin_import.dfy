/** The CSV upload pages of reviews/admin.py for categories, genres and
    titles. Each page saves the upload as an import record, compares the first
    line of the file with a fixed header and then, line by line in file
    order, calls `update_or_create` with every column of the line as a lookup
    value and no `defaults`. Such a call leaves the table alone when a row with
    exactly those values exists and otherwise inserts one, which the database
    may refuse. The first refusal ends the request with a server error; the
    rows written before it stay written.

    A file is a sequence of lines, each a sequence of cells; reading and
    splitting it is not modelled. */
module AdminImport {
  import opened Text
  import opened Users
  import opened Catalog
  import opened Permissions

  // ---------------------------------------------------------------------
  // One line of a file
  // ---------------------------------------------------------------------

  /** Why a line could not be written: the line has fewer cells than the
      statement reads (IndexError), a cell that must be an integer is not
      (ValueError), the database refuses a value longer than its column
      (DataError) or a duplicate key, a duplicate slug or a foreign key with
      no row behind it (IntegrityError). */
  datatype RowError = MissingCell | NotAnInteger | DataError | IntegrityError

  type Table<T> = map<Id, T>

  type Applier<!T> = (Table<T>, seq<string>) -> Result<Table<T>, RowError>

  /** Every row of `small` is in `big`, unchanged. */
  ghost predicate Extends<T>(small: Table<T>, big: Table<T>)
  {
    small.Keys <= big.Keys && forall k :: k in small ==> big[k] == small[k]
  }

  const NAMED_HEADER: seq<string> := ["id", "name", "slug"]
  const TITLE_HEADER: seq<string> := ["id", "name", "year", "description", "category_id"]

  /** The key and the row a category or genre line describes. The source
      reads cell 2 first (to print it), then cells 0, 1 and 2. */
  function ParseNamedRow(line: seq<string>): Result<(Id, Named), RowError>
  {
    if |line| < 3 then Err(MissingCell)
    else match ParseInt(line[0])
      case None => Err(NotAnInteger)
      case Some(id) => Ok((id, Named(line[1], line[2])))
  }

  /** The line is stored: a row with its key and exactly its values exists. */
  predicate NamedRowPresent(t: Table<Named>, line: seq<string>)
  {
    ParseNamedRow(line).Ok? &&
    var (id, n) := ParseNamedRow(line).value;
    id in t && t[id] == n
  }

  /** `update_or_create(id=…, name=…, slug=…)` on the Category or Genre table:
      a value too long for its column or a key outside the 64-bit range is a
      DataError, a taken key or slug an IntegrityError. */
  function ApplyNamedRow(t: Table<Named>, line: seq<string>): Result<Table<Named>, RowError>
  {
    match ParseNamedRow(line)
    case Err(e) => Err(e)
    case Ok((id, n)) =>
      if id in t && t[id] == n then Ok(t)
      else if !NamedRowValid(n) || !InBigIntegerRange(id) then Err(DataError)
      else if id in t || exists k :: k in t && t[k].slug == n.slug then Err(IntegrityError)
      else Ok(t[id := n])
  }

  /** The values of a title line, in the order the statement reads them. */
  datatype TitleLine = TitleLine(id: Id, name: string, year: int, description: string, category: Id)

  function ParseTitleRow(line: seq<string>): Result<TitleLine, RowError>
  {
    if |line| < 5 then Err(MissingCell)
    else match (ParseInt(line[0]), ParseInt(line[2]), ParseInt(line[4]))
      case (Some(id), Some(year), Some(category)) => Ok(TitleLine(id, line[1], year, line[3], category))
      case _ => Err(NotAnInteger)
  }

  /** The stored title matches every looked-up column; its genres are not
      among them. */
  predicate TitleMatches(t: Title, l: TitleLine)
  {
    t.name == l.name && t.year == l.year && t.description == l.description && t.category == Some(l.category)
  }

  predicate TitleRowPresent(t: Table<Title>, line: seq<string>)
  {
    ParseTitleRow(line).Ok? &&
    var l := ParseTitleRow(line).value;
    l.id in t && TitleMatches(t[l.id], l)
  }

  /** `update_or_create(id=…, name=…, year=…, description=…, category_id=…)`
      on the Title table, with `categories` the Category table the foreign key
      refers to. The year goes in unchecked: the model's validator is not run
      on a save, but a year outside the 32-bit column, like a key outside the
      64-bit one, is refused by the database. A new title has no genres. */
  function ApplyTitleRow(categories: Table<Named>, t: Table<Title>, line: seq<string>)
    : Result<Table<Title>, RowError>
  {
    match ParseTitleRow(line)
    case Err(e) => Err(e)
    case Ok(l) =>
      if l.id in t && TitleMatches(t[l.id], l) then Ok(t)
      else if |l.name| > ENTRY_NAME_MAX_LENGTH || !InIntegerRange(l.year)
              || !InBigIntegerRange(l.id) || !InBigIntegerRange(l.category) then Err(DataError)
      else if l.id in t || l.category !in categories then Err(IntegrityError)
      else Ok(t[l.id := Title(l.name, l.year, l.description, {}, Some(l.category))])
  }

  function TitleApplier(categories: Table<Named>): Applier<Title>
  {
    (t, line) => ApplyTitleRow(categories, t, line)
  }

  // ---------------------------------------------------------------------
  // The laws of an update_or_create without defaults
  // ---------------------------------------------------------------------

  /** A written line only adds to the table and is stored afterwards; a
      stored line is a no-op; a stored line stays stored in a larger table. */
  ghost predicate Lawful<T(!new)>(apply: Applier<T>, present: (Table<T>, seq<string>) -> bool)
  {
    && (forall t, line :: apply(t, line).Ok? ==>
          Extends(t, apply(t, line).value) && present(apply(t, line).value, line))
    && (forall t, line :: present(t, line) ==> apply(t, line) == Ok(t))
    && (forall t, big, line :: present(t, line) && Extends(t, big) ==> present(big, line))
  }

  lemma NamedLawful()
    ensures Lawful(ApplyNamedRow, NamedRowPresent)
  {
  }

  lemma TitleLawful(categories: Table<Named>)
    ensures Lawful(TitleApplier(categories), TitleRowPresent)
  {
  }

  /** A category or genre line that is written keeps the table within the
      constraints of its columns: unique slugs and bounded lengths. */
  lemma NamedRowKeepsTableValid(t: Table<Named>, line: seq<string>)
    requires NamedTableValid(t)
    requires ApplyNamedRow(t, line).Ok?
    ensures NamedTableValid(ApplyNamedRow(t, line).value)
  {
  }

  /** A title line that is written names an existing category and a name
      that fits its column. */
  lemma TitleRowKeepsReferences(categories: Table<Named>, t: Table<Title>, line: seq<string>)
    requires forall k :: k in t ==> TitleRowValid(categories, t[k])
    requires ApplyTitleRow(categories, t, line).Ok?
    ensures var after := ApplyTitleRow(categories, t, line).value;
      forall k :: k in after ==> TitleRowValid(categories, after[k])
  {
  }

  predicate TitleRowValid(categories: Table<Named>, t: Title)
  {
    |t.name| <= ENTRY_NAME_MAX_LENGTH && InIntegerRange(t.year) &&
    (t.category.Some? ==> t.category.value in categories)
  }

  // ---------------------------------------------------------------------
  // The loop over the lines
  // ---------------------------------------------------------------------

  /** After the lines: every line written, or the table when line `index`
      failed with `error`. */
  datatype RunOutcome<T> = Done(table: Table<T>) | Failed(table: Table<T>, index: nat, error: RowError)

  /** The lines applied in order, stopping at the first failure. */
  function Run<T>(apply: Applier<T>, t: Table<T>, lines: seq<seq<string>>): RunOutcome<T>
    decreases |lines|
  {
    if |lines| == 0 then Done(t)
    else match Run(apply, t, lines[..|lines| - 1])
      case Failed(s, k, e) => Failed(s, k, e)
      case Done(s) =>
        match apply(s, lines[|lines| - 1])
        case Err(e) => Failed(s, |lines| - 1, e)
        case Ok(s') => Done(s')
  }

  /** `for row in rows: Model.objects.update_or_create(...)`. */
  method ImportRows<T>(apply: Applier<T>, t0: Table<T>, lines: seq<seq<string>>) returns (r: RunOutcome<T>)
    ensures r == Run(apply, t0, lines)
  {
    var t := t0;
    var i := 0;
    while i < |lines|
      invariant 0 <= i <= |lines|
      invariant Run(apply, t0, lines[..i]) == Done(t)
    {
      assert lines[..i + 1][..i] == lines[..i];
      match apply(t, lines[i])
      case Err(e) =>
        FailureIsFinal(apply, t0, lines, i + 1);
        return Failed(t, i, e);
      case Ok(next) =>
        t := next;
      i := i + 1;
    }
    assert lines[..|lines|] == lines;
    r := Done(t);
  }

  /** Once a prefix of the lines fails, the later lines are never looked at. */
  lemma {:induction false} FailureIsFinal<T>(apply: Applier<T>, t: Table<T>, lines: seq<seq<string>>, j: nat)
    requires j <= |lines|
    requires Run(apply, t, lines[..j]).Failed?
    ensures Run(apply, t, lines) == Run(apply, t, lines[..j])
    decreases |lines| - j
  {
    if j < |lines| {
      var next := lines[..j + 1];
      assert next[..j] == lines[..j];
      FailureIsFinal(apply, t, lines, j + 1);
    } else {
      assert lines[..j] == lines;
    }
  }

  /** No rollback: when line `index` fails, the table holds exactly what the
      lines before it wrote, and that line is the one the database refused. */
  lemma {:induction false} FailureKeepsEarlierRows<T>(apply: Applier<T>, t: Table<T>, lines: seq<seq<string>>)
    requires Run(apply, t, lines).Failed?
    ensures var Failed(s, k, e) := Run(apply, t, lines);
      k < |lines| && Run(apply, t, lines[..k]) == Done(s) && apply(s, lines[k]) == Err(e)
    decreases |lines|
  {
    var prefix := lines[..|lines| - 1];
    if Run(apply, t, prefix).Failed? {
      FailureKeepsEarlierRows(apply, t, prefix);
      var k := Run(apply, t, prefix).index;
      assert prefix[..k] == lines[..k];
    } else {
      assert lines[..|lines| - 1] == prefix;
    }
  }

  /** The table only grows while the lines are applied. */
  lemma {:induction false} RunExtends<T(!new)>(apply: Applier<T>, present: (Table<T>, seq<string>) -> bool,
                                         t: Table<T>, lines: seq<seq<string>>)
    requires Lawful(apply, present)
    ensures Extends(t, Run(apply, t, lines).table)
    decreases |lines|
  {
    if |lines| > 0 {
      RunExtends(apply, present, t, lines[..|lines| - 1]);
    }
  }

  /** After a run that wrote every line, every line is stored. */
  lemma {:induction false} DoneStoresEveryLine<T(!new)>(apply: Applier<T>, present: (Table<T>, seq<string>) -> bool,
                                                  t: Table<T>, lines: seq<seq<string>>)
    requires Lawful(apply, present)
    requires Run(apply, t, lines).Done?
    ensures forall i :: 0 <= i < |lines| ==> present(Run(apply, t, lines).table, lines[i])
    decreases |lines|
  {
    if |lines| > 0 {
      var prefix := lines[..|lines| - 1];
      DoneStoresEveryLine(apply, present, t, prefix);
      var s := Run(apply, t, prefix).table;
      var after := Run(apply, t, lines).table;
      forall i | 0 <= i < |lines|
        ensures present(after, lines[i])
      {
        if i < |lines| - 1 {
          assert prefix[i] == lines[i];
          assert present(s, lines[i]);
        }
      }
    }
  }

  /** Lines that are all stored already change nothing. */
  lemma {:induction false} StoredLinesAreNoOps<T(!new)>(apply: Applier<T>, present: (Table<T>, seq<string>) -> bool,
                                                  t: Table<T>, lines: seq<seq<string>>)
    requires Lawful(apply, present)
    requires forall i :: 0 <= i < |lines| ==> present(t, lines[i])
    ensures Run(apply, t, lines) == Done(t)
    decreases |lines|
  {
    if |lines| > 0 {
      var prefix := lines[..|lines| - 1];
      assert forall i :: 0 <= i < |prefix| ==> prefix[i] == lines[i];
      StoredLinesAreNoOps(apply, present, t, prefix);
      assert present(t, lines[|lines| - 1]);
    }
  }

  /** Importing the same lines a second time, on the table the first import
      left, ends exactly as the first import did: the same table, and the
      same failing line with the same error if there was one. */
  lemma RunIdempotent<T(!new)>(apply: Applier<T>, present: (Table<T>, seq<string>) -> bool,
                         t: Table<T>, lines: seq<seq<string>>)
    requires Lawful(apply, present)
    ensures Run(apply, Run(apply, t, lines).table, lines) == Run(apply, t, lines)
  {
    var first := Run(apply, t, lines);
    var s := first.table;
    if first.Done? {
      DoneStoresEveryLine(apply, present, t, lines);
      StoredLinesAreNoOps(apply, present, s, lines);
    } else {
      FailureKeepsEarlierRows(apply, t, lines);
      var k := first.index;
      var prefix := lines[..k];
      DoneStoresEveryLine(apply, present, t, prefix);
      StoredLinesAreNoOps(apply, present, s, prefix);
      assert lines[..k + 1][..k] == prefix;
      assert Run(apply, s, lines[..k + 1]) == first;
      FailureIsFinal(apply, s, lines, k + 1);
    }
  }

  /** A run keeps every property of the table that each written line keeps. */
  lemma {:induction false} RunPreserves<T>(apply: Applier<T>, inv: Table<T> -> bool,
                                           t: Table<T>, lines: seq<seq<string>>)
    requires inv(t)
    requires forall s, line :: inv(s) && apply(s, line).Ok? ==> inv(apply(s, line).value)
    ensures inv(Run(apply, t, lines).table)
    decreases |lines|
  {
    if |lines| > 0 {
      RunPreserves(apply, inv, t, lines[..|lines| - 1]);
    }
  }

  // ---------------------------------------------------------------------
  // The upload page
  // ---------------------------------------------------------------------

  /** What the upload page answers. `FormShown`: the page with the upload
      form (not a POST, or a form that does not validate: no file attached,
      or an empty file, which the form's file field refuses; a file with any
      content has at least one line). `InvalidHeaders`: a warning and a redirect back to the page.
      `Imported`: the success message and a redirect to the admin index.
      `RowFailed`: data line `index` (counting from 0 after the header) was
      refused, an error the page does not catch. */
  datatype UploadOutcome =
    | FormShown
    | InvalidHeaders
    | Imported
    | RowFailed(index: nat, error: RowError)

  /** The page on the table `t` for a POSTed file: an empty file fails the
      form and the form is shown again; otherwise the import record is saved
      and the lines are read. */
  function Upload<T>(apply: Applier<T>, header: seq<string>, t: Table<T>, file: seq<seq<string>>)
    : (UploadOutcome, Table<T>)
  {
    if |file| == 0 then (FormShown, t)
    else if file[0] != header then (InvalidHeaders, t)
    else match Run(apply, t, file[1..])
      case Done(s) => (Imported, s)
      case Failed(s, k, e) => (RowFailed(k, e), s)
  }

  /** Uploading the same file twice gives the same answer and the same table
      as uploading it once. */
  lemma UploadIdempotent<T(!new)>(apply: Applier<T>, present: (Table<T>, seq<string>) -> bool,
                            header: seq<string>, t: Table<T>, file: seq<seq<string>>)
    requires Lawful(apply, present)
    ensures var (out, s) := Upload(apply, header, t, file);
      Upload(apply, header, s, file) == (out, s)
  {
    if |file| > 0 && file[0] == header {
      RunIdempotent(apply, present, t, file[1..]);
    }
  }

  /** The form is shown again exactly for an empty file; the success
      message means every data line of the file is stored; a wrong header
      means no line was looked at; a failure keeps what the lines before the
      failing one wrote. */
  lemma UploadOutcomes<T(!new)>(apply: Applier<T>, present: (Table<T>, seq<string>) -> bool,
                          header: seq<string>, t: Table<T>, file: seq<seq<string>>)
    requires Lawful(apply, present)
    ensures var (out, s) := Upload(apply, header, t, file);
      && Extends(t, s)
      && (out == Imported <==> |file| > 0 && file[0] == header && Run(apply, t, file[1..]).Done?)
      && (out == Imported ==> forall i :: 1 <= i < |file| ==> present(s, file[i]))
      && (out == FormShown <==> |file| == 0)
      && (out == InvalidHeaders || out == FormShown ==> s == t)
      && (out.RowFailed? ==>
            out.index < |file| - 1 && Run(apply, t, file[1..out.index + 1]) == Done(s) &&
            apply(s, file[out.index + 1]) == Err(out.error))
  {
    var (out, s) := Upload(apply, header, t, file);
    if |file| > 0 && file[0] == header {
      var lines := file[1..];
      RunExtends(apply, present, t, lines);
      if out == Imported {
        DoneStoresEveryLine(apply, present, t, lines);
        forall i | 1 <= i < |file|
          ensures present(s, file[i])
        {
          assert file[i] == lines[i - 1];
        }
      }
      if out.RowFailed? {
        FailureKeepsEarlierRows(apply, t, lines);
        assert lines[..out.index] == file[1..out.index + 1];
      }
    }
  }

  /** The import path writes years the API refuses: a title line whose year
      lies after the current year, and within the column, is stored as it
      is. */
  lemma ImportStoresFutureYear(categories: Table<Named>, t: Table<Title>, now: int, c: Id)
    requires c in categories && 1 !in t
    requires InIntegerRange(now + 1) && InBigIntegerRange(c)
    ensures var line := ["1", "Future", IntToString(now + 1), "", IntToString(c)];
      var out := Upload(TitleApplier(categories), TITLE_HEADER, t, [TITLE_HEADER, line]);
      out.0 == Imported && 1 in out.1 && out.1[1].year > now
  {
    var line := ["1", "Future", IntToString(now + 1), "", IntToString(c)];
    IntToStringRoundTrip(now + 1);
    IntToStringRoundTrip(c);
    assert ParseInt("1") == Some(1);
    var file := [TITLE_HEADER, line];
    assert ParseTitleRow(line) == Ok(TitleLine(1, "Future", now + 1, "", c));
    assert ApplyTitleRow(categories, t, line).Ok?;
    assert file[1..] == [line];
    assert [line][..0] == [];
    assert Run(TitleApplier(categories), t, [line][..0]) == Done(t);
  }

  /** A year one past the 32-bit column is refused by the database: the
      first data line fails with a DataError and the table is unchanged. */
  lemma ImportRefusesYearPastColumn(categories: Table<Named>, t: Table<Title>, c: Id)
    requires forall k :: k in t ==> TitleRowValid(categories, t[k])
    ensures var line := ["1", "Late", IntToString(INTEGER_FIELD_MAX + 1), "", IntToString(c)];
      Upload(TitleApplier(categories), TITLE_HEADER, t, [TITLE_HEADER, line]) == (RowFailed(0, DataError), t)
  {
    var line := ["1", "Late", IntToString(INTEGER_FIELD_MAX + 1), "", IntToString(c)];
    IntToStringRoundTrip(INTEGER_FIELD_MAX + 1);
    IntToStringRoundTrip(c);
    assert ParseInt("1") == Some(1);
    assert ParseTitleRow(line) == Ok(TitleLine(1, "Late", INTEGER_FIELD_MAX + 1, "", c));
    assert ApplyTitleRow(categories, t, line) == Err(DataError);
    assert [TITLE_HEADER, line][1..] == [line];
    assert [line][..0] == [];
    assert Run(TitleApplier(categories), t, [line][..0]) == Done(t);
  }

  // ---------------------------------------------------------------------
  // The database the pages write to
  // ---------------------------------------------------------------------

  datatype ImportTarget = CategoryTarget | GenreTarget | TitleTarget

  /** A saved CategoryImport, GenreImport or TitleImport record. */
  datatype ImportRecord = ImportRecord(target: ImportTarget, file: seq<seq<string>>)

  class AdminStore {
    var categories: Table<Named>
    var genres: Table<Named>
    var titles: Table<Title>
    var imports: seq<ImportRecord>

    ghost predicate Valid()
      reads this
    {
      NamedTableValid(categories) && NamedTableValid(genres) &&
      forall k :: k in titles ==> TitleRowValid(categories, titles[k])
    }

    constructor ()
      ensures Valid() && categories == map[] && genres == map[] && titles == map[] && imports == []
    {
      categories := map[];
      genres := map[];
      titles := map[];
      imports := [];
    }

    /** `upload_csv` of CategoryAdmin and, with `target == GenreTarget`, of
        GenreAdmin, which is the same code on the Genre table. */
    method UploadNamedCsv(target: ImportTarget, m: HttpMethod, file: Option<seq<seq<string>>>)
      returns (out: UploadOutcome)
      requires target != TitleTarget
      requires Valid()
      modifies this`categories, this`genres, this`imports
      ensures Valid()
      ensures m != Post || file.None? || file.value == [] ==>
        out == FormShown && unchanged(this)
      ensures m == Post && file.Some? && file.value != [] ==>
        && imports == old(imports) + [ImportRecord(target, file.value)]
        && (target == CategoryTarget ==>
              (out, categories) == Upload(ApplyNamedRow, NAMED_HEADER, old(categories), file.value) &&
              genres == old(genres))
        && (target == GenreTarget ==>
              (out, genres) == Upload(ApplyNamedRow, NAMED_HEADER, old(genres), file.value) &&
              categories == old(categories))
    {
      if m != Post || file.None? || file.value == [] {
        return FormShown;
      }
      imports := imports + [ImportRecord(target, file.value)];
      var lines := file.value;
      var table := if target == CategoryTarget then categories else genres;
      if lines[0] != NAMED_HEADER {
        return InvalidHeaders;
      }
      var run := ImportRows(ApplyNamedRow, table, lines[1..]);
      RunPreserves(ApplyNamedRow, NamedTableValid, table, lines[1..]);
      RunExtends(ApplyNamedRow, NamedRowPresent, table, lines[1..]);
      if target == CategoryTarget {
        CategoriesGrowKeepsTitles(categories, run.table, titles);
        categories := run.table;
      } else {
        genres := run.table;
      }
      out := if run.Done? then Imported else RowFailed(run.index, run.error);
    }

    /** `upload_csv` of TitleAdmin. */
    method UploadTitleCsv(m: HttpMethod, file: Option<seq<seq<string>>>)
      returns (out: UploadOutcome)
      requires Valid()
      modifies this`titles, this`imports
      ensures Valid()
      ensures m != Post || file.None? || file.value == [] ==>
        out == FormShown && unchanged(this)
      ensures m == Post && file.Some? && file.value != [] ==>
        && imports == old(imports) + [ImportRecord(TitleTarget, file.value)]
        && (out, titles) == Upload(TitleApplier(categories), TITLE_HEADER, old(titles), file.value)
    {
      if m != Post || file.None? || file.value == [] {
        return FormShown;
      }
      imports := imports + [ImportRecord(TitleTarget, file.value)];
      var lines := file.value;
      if lines[0] != TITLE_HEADER {
        return InvalidHeaders;
      }
      var cats := categories;
      var run := ImportRows(TitleApplier(cats), titles, lines[1..]);
      ghost var inv := (t: Table<Title>) => forall k :: k in t ==> TitleRowValid(cats, t[k]);
      forall s, line | inv(s) && TitleApplier(cats)(s, line).Ok?
        ensures inv(TitleApplier(cats)(s, line).value)
      {
        TitleRowKeepsReferences(cats, s, line);
      }
      RunPreserves(TitleApplier(cats), inv, titles, lines[1..]);
      titles := run.table;
      out := if run.Done? then Imported else RowFailed(run.index, run.error);
    }
  }

  lemma CategoriesGrowKeepsTitles(before: Table<Named>, after: Table<Named>, titles: Table<Title>)
    requires Extends(before, after)
    requires forall k :: k in titles ==> TitleRowValid(before, titles[k])
    ensures forall k :: k in titles ==> TitleRowValid(after, titles[k])
  {
  }
}
