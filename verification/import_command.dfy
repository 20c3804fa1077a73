/** The `import_csv` management command
    (reviews/management/commands/import_csv.py). It reads CSV files either
    into models, one `bulk_create` per file, or straight into tables, one raw
    INSERT per line. The files are a map from path to lines, each line a
    sequence of cells; the known models are a map from lower-case model name
    to the names of its fields. The database connection is a log of the
    writes handed to it; whether the database accepts them is not modelled. */
module ImportCommand {
  import opened Text

  // ---------------------------------------------------------------------
  // Arguments (Command.handle)
  // ---------------------------------------------------------------------

  const PARAMETERS_MESSAGE: string := "Incorrect specification of parameters"
  const MODELS_MISMATCH_MESSAGE: string := "Number of paths and models do not match"
  const TABLES_MISMATCH_MESSAGE: string := "Number of paths and tables do not match"

  /** An option given on the command line, as Python's truth test sees it:
      absent and empty are both false. */
  predicate Given(o: Option<seq<string>>)
  {
    o.Some? && |o.value| > 0
  }

  /** One (name, path) pair to read. */
  datatype Job = Job(name: string, path: string)

  datatype Plan =
    | Refused(message: string)   // CommandError
    | ModelJobs(jobs: seq<Job>)  // read_model for each pair, in order
    | TableJobs(jobs: seq<Job>)  // read_table for each pair, in order
    | NoJobs                     // nothing to do and no error

  function Zip(names: seq<string>, paths: seq<string>): (r: seq<Job>)
    requires |names| == |paths|
    ensures |r| == |names|
    ensures forall i :: 0 <= i < |r| ==> r[i] == Job(names[i], paths[i])
  {
    seq(|names|, i requires 0 <= i < |names| => Job(names[i], paths[i]))
  }

  /** The checks of `handle` and the work they leave. */
  function PlanCommand(models: Option<seq<string>>, tables: Option<seq<string>>,
                       paths: Option<seq<string>>): Plan
  {
    if (!Given(models) && !Given(tables)) || (Given(models) && Given(tables)) then
      Refused(PARAMETERS_MESSAGE)
    else if Given(models) && Given(paths) then
      if |models.value| != |paths.value| then Refused(MODELS_MISMATCH_MESSAGE)
      else ModelJobs(Zip(models.value, paths.value))
    else if Given(tables) && Given(paths) then
      if |tables.value| != |paths.value| then Refused(TABLES_MISMATCH_MESSAGE)
      else TableJobs(Zip(tables.value, paths.value))
    else NoJobs
  }

  /** The argument rules: exactly one of models and tables must be given;
      with paths, their counts must agree, and then the pairs are read in
      the order given; without paths, nothing happens and nothing fails. */
  lemma PlanRules(models: Option<seq<string>>, tables: Option<seq<string>>, paths: Option<seq<string>>)
    ensures var plan := PlanCommand(models, tables, paths);
      && (plan == Refused(PARAMETERS_MESSAGE) <==> Given(models) == Given(tables))
      && (plan == Refused(MODELS_MISMATCH_MESSAGE) <==>
            Given(models) && !Given(tables) && Given(paths) && |models.value| != |paths.value|)
      && (plan == Refused(TABLES_MISMATCH_MESSAGE) <==>
            Given(tables) && !Given(models) && Given(paths) && |tables.value| != |paths.value|)
      && (plan == NoJobs <==> Given(models) != Given(tables) && !Given(paths))
      && (plan.ModelJobs? ==>
            (Given(models) && |plan.jobs| == |models.value| &&
             forall i :: 0 <= i < |plan.jobs| ==> plan.jobs[i] == Job(models.value[i], paths.value[i])))
      && (plan.TableJobs? ==>
            (Given(tables) && |plan.jobs| == |tables.value| &&
             forall i :: 0 <= i < |plan.jobs| ==> plan.jobs[i] == Job(tables.value[i], paths.value[i])))
  {
  }

  // ---------------------------------------------------------------------
  // csv.DictReader
  // ---------------------------------------------------------------------

  /** The data lines: every line after the first, blank lines skipped. */
  function DataLines(lines: seq<seq<string>>): (r: seq<seq<string>>)
    ensures |r| <= |lines|
    ensures forall i :: 0 <= i < |r| ==> r[i] != []
    decreases |lines|
  {
    if |lines| <= 1 then []
    else DataLines(lines[..|lines| - 1]) + (if lines[|lines| - 1] == [] then [] else [lines[|lines| - 1]])
  }

  lemma DataLinesStep(lines: seq<seq<string>>, i: nat)
    requires 1 <= i < |lines|
    ensures DataLines(lines[..i + 1]) == DataLines(lines[..i]) + (if lines[i] == [] then [] else [lines[i]])
  {
    assert lines[..i + 1][..i] == lines[..i];
  }

  /** The position of the last occurrence of `name` in the header. */
  function LastIndex(header: seq<string>, name: string): (j: nat)
    requires name in header
    ensures j < |header| && header[j] == name
    ensures forall k :: j < k < |header| ==> header[k] != name
    decreases |header|
  {
    if header[|header| - 1] == name then |header| - 1
    else LastIndex(header[..|header| - 1], name)
  }

  /** `row[name]` of the dict DictReader makes of `line`: a header name that
      occurs twice takes the later column, and a column past the end of the
      line is `None`. */
  function Cell(header: seq<string>, line: seq<string>, name: string): Option<string>
    requires name in header
  {
    var j := LastIndex(header, name);
    if j < |line| then Some(line[j]) else None
  }

  /** `[row[item] for item in header]`. */
  function RowParams(header: seq<string>, line: seq<string>): (r: seq<Option<string>>)
    ensures |r| == |header|
  {
    seq(|header|, i requires 0 <= i < |header| => Cell(header, line, header[i]))
  }

  predicate Distinct(header: seq<string>)
  {
    forall i, j :: 0 <= i < j < |header| ==> header[i] != header[j]
  }

  /** With distinct header names, the parameters are the line's cells in
      header order, padded with `None` where the line is short. */
  lemma RowParamsInOrder(header: seq<string>, line: seq<string>)
    requires Distinct(header)
    ensures forall i :: 0 <= i < |header| ==>
      RowParams(header, line)[i] == (if i < |line| then Some(line[i]) else None)
  {
  }

  /** A repeated header name hands both placeholders the later column. */
  lemma RepeatedNameTakesLaterColumn()
    ensures RowParams(["id", "id"], ["1", "2"]) == [Some("2"), Some("2")]
  {
    assert LastIndex(["id", "id"], "id") == 1;
  }

  // ---------------------------------------------------------------------
  // read_table
  // ---------------------------------------------------------------------

  /** `['%s' for _ in header]`. */
  function Placeholders(n: nat): (r: seq<string>)
    ensures |r| == n && forall i :: 0 <= i < n ==> r[i] == "%s"
  {
    seq(n, _ => "%s")
  }

  /** `f'INSERT INTO {table}({fields}) VALUES({values})'`. */
  function InsertStatement(table: string, header: seq<string>): string
  {
    var fields := Join(header, ", ");
    var values := Join(Placeholders(|header|), ", ");
    "INSERT INTO " + table + "(" + fields + ") VALUES(" + values + ")"
  }

  /** When neither the table name nor a column name holds a `%`, the
      statement has exactly one placeholder per column, and therefore one per
      parameter the row supplies. */
  lemma PlaceholdersMatchParams(table: string, header: seq<string>, line: seq<string>)
    requires CountChar(table, '%') == 0
    requires forall i :: 0 <= i < |header| ==> CountChar(header[i], '%') == 0
    ensures CountChar(InsertStatement(table, header), '%') == |RowParams(header, line)|
  {
    CountCharAbsent(", ", '%');
    JoinCount(header, ", ", '%', 0);
    PlaceholderCount(|header|);
    StatementCount(table, Join(header, ", "), Join(Placeholders(|header|), ", "));
  }

  lemma PlaceholderCount(n: nat)
    ensures CountChar(Join(Placeholders(n), ", "), '%') == n
  {
    CountCharAbsent(", ", '%');
    CountCharAbsent("s", '%');
    CountCharAppend("%", "s", '%');
    assert "%" + "s" == "%s";
    JoinCount(Placeholders(n), ", ", '%', 1);
  }

  /** The fixed text of the statement holds no `%`. */
  lemma FixedTextHasNoPercent()
    ensures CountChar("INSERT INTO ", '%') == 0 && CountChar("(", '%') == 0
    ensures CountChar(") VALUES(", '%') == 0 && CountChar(")", '%') == 0
  {
    CountCharAbsent("INSERT INTO ", '%');
    CountCharAbsent("(", '%');
    CountCharAbsent(") VALUES(", '%');
    CountCharAbsent(")", '%');
  }

  lemma StatementCount(table: string, fields: string, values: string)
    ensures CountChar("INSERT INTO " + table + "(" + fields + ") VALUES(" + values + ")", '%')
         == CountChar(table, '%') + CountChar(fields, '%') + CountChar(values, '%')
  {
    FixedTextHasNoPercent();
    var a := "INSERT INTO " + table;
    CountCharAppend("INSERT INTO ", table, '%');
    var b := a + "(";
    CountCharAppend(a, "(", '%');
    var c := b + fields;
    CountCharAppend(b, fields, '%');
    var d := c + ") VALUES(";
    CountCharAppend(c, ") VALUES(", '%');
    var e := d + values;
    CountCharAppend(d, values, '%');
    CountCharAppend(e, ")", '%');
  }

  /** What the connection is handed. */
  datatype Write =
    | Insert(sql: string, params: seq<Option<string>>)
    | BulkCreate(model: string, items: seq<Item>)

  /** A model instance built from one line: field name to value. */
  type Item = map<string, Option<string>>

  /** One INSERT per data line, in file order. */
  function Inserts(table: string, header: seq<string>, rows: seq<seq<string>>): (r: seq<Write>)
    ensures |r| == |rows|
    decreases |rows|
  {
    if |rows| == 0 then []
    else Inserts(table, header, rows[..|rows| - 1])
         + [Insert(InsertStatement(table, header), RowParams(header, rows[|rows| - 1]))]
  }

  lemma InsertsSnoc(table: string, header: seq<string>, rows: seq<seq<string>>, line: seq<string>)
    ensures Inserts(table, header, rows + [line])
         == Inserts(table, header, rows) + [Insert(InsertStatement(table, header), RowParams(header, line))]
  {
    assert (rows + [line])[..|rows|] == rows;
  }

  lemma {:induction false} InsertsInFileOrder(table: string, header: seq<string>, rows: seq<seq<string>>)
    ensures forall i :: 0 <= i < |rows| ==>
      Inserts(table, header, rows)[i] == Insert(InsertStatement(table, header), RowParams(header, rows[i]))
    decreases |rows|
  {
    if |rows| > 0 {
      var prefix := rows[..|rows| - 1];
      InsertsInFileOrder(table, header, prefix);
      assert forall i :: 0 <= i < |prefix| ==> prefix[i] == rows[i];
    }
  }

  /** Why one (name, path) pair could not be read. `FileNotFound`: no file at
      the path. `NoHeader`: the file is empty, so DictReader has no field
      names and joining them fails. `BadItem`: data line `index` cannot build
      a model instance (a column that is not a field, or more cells than
      columns). */
  datatype Failure = FileNotFound(path: string) | NoHeader | BadItem(index: nat)

  /** `read_table`: the writes of one file. */
  function TableWrites(table: string, lines: seq<seq<string>>): Result<seq<Write>, Failure>
  {
    if |lines| == 0 then Err(NoHeader)
    else Ok(Inserts(table, lines[0], DataLines(lines)))
  }

  // ---------------------------------------------------------------------
  // read_model
  // ---------------------------------------------------------------------

  /** `model(**row)`: every key must name a field of the model, and the line
      may not have more cells than the header (the extra cells sit under the
      key `None`). */
  function MakeItem(fields: set<string>, header: seq<string>, line: seq<string>): Option<Item>
  {
    if |line| > |header| || exists i :: 0 <= i < |header| && header[i] !in fields then None
    else Some(map name | name in header :: Cell(header, line, name))
  }

  /** The items of the data lines, or the index of the first line that
      cannot build one. */
  function ModelItems(fields: set<string>, header: seq<string>, rows: seq<seq<string>>)
    : (r: Result<seq<Item>, nat>)
    ensures r.Ok? ==> |r.value| == |rows|
    ensures r.Err? ==> r.error < |rows|
    decreases |rows|
  {
    if |rows| == 0 then Ok([])
    else match ModelItems(fields, header, rows[..|rows| - 1])
      case Err(k) => Err(k)
      case Ok(items) =>
        match MakeItem(fields, header, rows[|rows| - 1])
        case None => Err(|rows| - 1)
        case Some(item) => Ok(items + [item])
  }

  /** The loop of `read_model`: `items.append(model(**row))` per data line. */
  method CollectItems(fields: set<string>, header: seq<string>, rows: seq<seq<string>>)
    returns (r: Result<seq<Item>, nat>)
    ensures r == ModelItems(fields, header, rows)
  {
    var items: seq<Item> := [];
    var i := 0;
    while i < |rows|
      invariant 0 <= i <= |rows|
      invariant ModelItems(fields, header, rows[..i]) == Ok(items)
    {
      assert rows[..i + 1][..i] == rows[..i];
      var item := MakeItem(fields, header, rows[i]);
      if item.None? {
        ModelFailureIsFinal(fields, header, rows, i + 1);
        return Err(i);
      }
      items := items + [item.value];
      i := i + 1;
    }
    assert rows[..|rows|] == rows;
    r := Ok(items);
  }

  lemma {:induction false} ModelFailureIsFinal(fields: set<string>, header: seq<string>,
                                               rows: seq<seq<string>>, j: nat)
    requires j <= |rows|
    requires ModelItems(fields, header, rows[..j]).Err?
    ensures ModelItems(fields, header, rows) == ModelItems(fields, header, rows[..j])
    decreases |rows| - j
  {
    if j < |rows| {
      assert rows[..j + 1][..j] == rows[..j];
      ModelFailureIsFinal(fields, header, rows, j + 1);
    } else {
      assert rows[..j] == rows;
    }
  }

  /** Each item holds, for every header name, the line's cell under it. */
  lemma {:induction false} ItemsFollowLines(fields: set<string>, header: seq<string>, rows: seq<seq<string>>)
    requires ModelItems(fields, header, rows).Ok?
    ensures forall i :: 0 <= i < |rows| ==>
      MakeItem(fields, header, rows[i]) == Some(ModelItems(fields, header, rows).value[i])
    decreases |rows|
  {
    if |rows| > 0 {
      var prefix := rows[..|rows| - 1];
      ItemsFollowLines(fields, header, prefix);
      assert forall i :: 0 <= i < |prefix| ==> prefix[i] == rows[i];
    }
  }

  /** `read_model`: an unknown model name, looked up in lower case, writes
      nothing; an empty file or one without data lines writes nothing either;
      otherwise one `bulk_create` with an item per data line. */
  function ModelWrites(known: map<string, set<string>>, name: string, lines: seq<seq<string>>)
    : Result<seq<Write>, Failure>
  {
    var model := Lower(name);
    if model !in known || |lines| == 0 then Ok([])
    else match ModelItems(known[model], lines[0], DataLines(lines))
      case Err(k) => Err(BadItem(k))
      case Ok(items) => Ok(if |items| == 0 then [] else [BulkCreate(model, items)])
  }

  /** The early exits of `read_model` and what it writes otherwise. */
  lemma ModelWritesRules(known: map<string, set<string>>, name: string, lines: seq<seq<string>>)
    ensures Lower(name) !in known ==> ModelWrites(known, name, lines) == Ok([])
    ensures DataLines(lines) == [] ==> ModelWrites(known, name, lines) == Ok([])
    ensures match ModelWrites(known, name, lines)
      case Ok(w) => |w| <= 1 && (|w| == 1 ==>
        && Lower(name) in known && |lines| > 0
        && w[0] == BulkCreate(Lower(name), w[0].items)
        && |w[0].items| == |DataLines(lines)| > 0
        && forall i :: 0 <= i < |w[0].items| ==>
             MakeItem(known[Lower(name)], lines[0], DataLines(lines)[i]) == Some(w[0].items[i]))
      case Err(f) => f.BadItem? && Lower(name) in known && |lines| > 0 && f.index < |DataLines(lines)|
  {
    var model := Lower(name);
    if model in known && |lines| > 0 && ModelItems(known[model], lines[0], DataLines(lines)).Ok? {
      ItemsFollowLines(known[model], lines[0], DataLines(lines));
    }
  }

  // ---------------------------------------------------------------------
  // The command as a whole
  // ---------------------------------------------------------------------

  /** One job: `read_model` looks the model name up before it opens the
      file, so an unknown model is skipped even when its file is missing;
      `read_table` opens the file straight away. */
  function JobWrites(tables: bool, known: map<string, set<string>>, files: map<string, seq<seq<string>>>,
                     job: Job): Result<seq<Write>, Failure>
  {
    if !tables && Lower(job.name) !in known then Ok([])
    else if job.path !in files then Err(FileNotFound(job.path))
    else if tables then TableWrites(job.name, files[job.path])
    else ModelWrites(known, job.name, files[job.path])
  }

  /** A missing file fails a table job, and a model job only when the model
      is known; an unknown model writes nothing whether or not its file
      exists. */
  lemma JobWritesRules(tables: bool, known: map<string, set<string>>, files: map<string, seq<seq<string>>>,
                       job: Job)
    ensures !tables && Lower(job.name) !in known ==> JobWrites(tables, known, files, job) == Ok([])
    ensures JobWrites(tables, known, files, job) == Err(FileNotFound(job.path)) <==>
      job.path !in files && (tables || Lower(job.name) in known)
  {
  }

  datatype CommandOutcome =
    | CommandError(message: string)
    | Finished
    | JobFailed(index: nat, failure: Failure)   // an error the command does not catch

  /** The jobs in order, stopping at the first that fails: the writes made and
      the failure, if any. */
  function RunJobs(tables: bool, known: map<string, set<string>>, files: map<string, seq<seq<string>>>,
                   jobs: seq<Job>): (r: (seq<Write>, Option<(nat, Failure)>))
    ensures r.1.Some? ==> r.1.value.0 < |jobs|
    decreases |jobs|
  {
    if |jobs| == 0 then ([], None)
    else
      var (w, failed) := RunJobs(tables, known, files, jobs[..|jobs| - 1]);
      if failed.Some? then (w, failed)
      else match JobWrites(tables, known, files, jobs[|jobs| - 1])
        case Err(f) => (w, Some((|jobs| - 1, f)))
        case Ok(more) => (w + more, None)
  }

  /** `handle` as a whole: the outcome and the writes made. */
  function Command(models: Option<seq<string>>, tables: Option<seq<string>>, paths: Option<seq<string>>,
                   known: map<string, set<string>>, files: map<string, seq<seq<string>>>)
    : (CommandOutcome, seq<Write>)
  {
    match PlanCommand(models, tables, paths)
    case Refused(msg) => (CommandError(msg), [])
    case NoJobs => (Finished, [])
    case ModelJobs(jobs) =>
      var (w, failed) := RunJobs(false, known, files, jobs);
      (if failed.None? then Finished else JobFailed(failed.value.0, failed.value.1), w)
    case TableJobs(jobs) =>
      var (w, failed) := RunJobs(true, known, files, jobs);
      (if failed.None? then Finished else JobFailed(failed.value.0, failed.value.1), w)
  }

  /** A refused command and a command without paths write nothing; a
      command that reads writes exactly what its jobs write, in job order. */
  lemma CommandRules(models: Option<seq<string>>, tables: Option<seq<string>>, paths: Option<seq<string>>,
                     known: map<string, set<string>>, files: map<string, seq<seq<string>>>)
    ensures var (out, w) := Command(models, tables, paths, known, files);
      && (out.CommandError? ==> w == [])
      && (!Given(paths) ==> w == [] && (out == Finished || out == CommandError(PARAMETERS_MESSAGE)))
      && (Given(models) && Given(tables) ==> out == CommandError(PARAMETERS_MESSAGE))
      && (out.JobFailed? ==> Given(paths) && out.index < |paths.value|)
  {
  }

  /** An unknown model name is skipped before its path is opened: naming a
      missing file beside it still finishes without writing. */
  lemma UnknownModelSkipsMissingFile()
    ensures Command(Some(["nosuch"]), None, Some(["missing.csv"]), map[], map[]) == (Finished, [])
  {
    var jobs := [Job("nosuch", "missing.csv")];
    var known: map<string, set<string>> := map[];
    var files: map<string, seq<seq<string>>> := map[];
    assert PlanCommand(Some(["nosuch"]), None, Some(["missing.csv"])) == ModelJobs(jobs);
    assert JobWrites(false, known, files, jobs[0]) == Ok([]);
    assert jobs[..0] == [];
    assert RunJobs(false, known, files, jobs[..0]) == ([], None);
    var r := RunJobs(false, known, files, jobs);
    assert r.1 == None && r.0 == [];
  }

  /** The jobs before a failing one have all written their share; the failing
      one wrote nothing and the jobs after it never ran. */
  lemma {:induction false} RunJobsFailure(tables: bool, known: map<string, set<string>>,
                                          files: map<string, seq<seq<string>>>, jobs: seq<Job>)
    requires RunJobs(tables, known, files, jobs).1.Some?
    ensures var (w, failed) := RunJobs(tables, known, files, jobs);
      var k := failed.value.0;
      && RunJobs(tables, known, files, jobs[..k]) == (w, None)
      && JobWrites(tables, known, files, jobs[k]) == Err(failed.value.1)
    decreases |jobs|
  {
    var prefix := jobs[..|jobs| - 1];
    if RunJobs(tables, known, files, prefix).1.Some? {
      RunJobsFailure(tables, known, files, prefix);
      var k := RunJobs(tables, known, files, prefix).1.value.0;
      assert prefix[..k] == jobs[..k];
    } else {
      assert jobs[..|jobs| - 1] == prefix;
    }
  }

  /** A database connection, reduced to the writes handed to it. */
  class Connection {
    var log: seq<Write>

    constructor ()
      ensures log == []
    {
      log := [];
    }

    /** `cursor.execute(sql, params)`. */
    method Execute(sql: string, params: seq<Option<string>>)
      modifies this
      ensures log == old(log) + [Insert(sql, params)]
    {
      log := log + [Insert(sql, params)];
    }

    /** `Model.objects.bulk_create(items)`. */
    method BulkCreateItems(model: string, items: seq<Item>)
      modifies this
      ensures log == old(log) + [BulkCreate(model, items)]
    {
      log := log + [BulkCreate(model, items)];
    }

    /** `read_table` on the lines of an opened file. */
    method ReadTable(table: string, lines: seq<seq<string>>) returns (r: Result<(), Failure>)
      modifies this
      ensures match TableWrites(table, lines)
        case Ok(w) => r.Ok? && log == old(log) + w
        case Err(f) => r == Err(f) && log == old(log)
    {
      if |lines| == 0 {
        return Err(NoHeader);
      }
      var header := lines[0];
      var sql := InsertStatement(table, header);
      var i := 1;
      while i < |lines|
        invariant 1 <= i <= |lines|
        invariant log == old(log) + Inserts(table, header, DataLines(lines[..i]))
      {
        ghost var rows := DataLines(lines[..i]);
        DataLinesStep(lines, i);
        if lines[i] == [] {
          assert DataLines(lines[..i + 1]) == rows;
        } else {
          InsertsSnoc(table, header, rows, lines[i]);
          Execute(sql, RowParams(header, lines[i]));
          assert log == old(log) + (Inserts(table, header, rows) + [Insert(sql, RowParams(header, lines[i]))]);
        }
        i := i + 1;
      }
      assert lines[..|lines|] == lines;
      r := Ok(());
    }

    /** `read_model` on the lines of an opened file. */
    method ReadModel(known: map<string, set<string>>, name: string, lines: seq<seq<string>>)
      returns (r: Result<(), Failure>)
      modifies this
      ensures match ModelWrites(known, name, lines)
        case Ok(w) => r.Ok? && log == old(log) + w
        case Err(f) => r == Err(f) && log == old(log)
    {
      var model := Lower(name);
      if model !in known || |lines| == 0 {
        return Ok(());
      }
      var items := CollectItems(known[model], lines[0], DataLines(lines));
      if items.Err? {
        return Err(BadItem(items.error));
      }
      if |items.value| > 0 {
        BulkCreateItems(model, items.value);
      }
      r := Ok(());
    }

    /** One pair of the `zip` loop: open the file at the path, then read it. */
    method ReadJob(readTables: bool, known: map<string, set<string>>, files: map<string, seq<seq<string>>>,
                   job: Job) returns (r: Result<(), Failure>)
      modifies this
      ensures match JobWrites(readTables, known, files, job)
        case Ok(w) => r.Ok? && log == old(log) + w
        case Err(f) => r == Err(f) && log == old(log)
    {
      if !readTables && Lower(job.name) !in known {
        return Ok(());
      }
      if job.path !in files {
        return Err(FileNotFound(job.path));
      }
      if readTables {
        r := ReadTable(job.name, files[job.path]);
      } else {
        r := ReadModel(known, job.name, files[job.path]);
      }
    }

    /** `Command.handle`. */
    method Handle(models: Option<seq<string>>, tables: Option<seq<string>>, paths: Option<seq<string>>,
                  known: map<string, set<string>>, files: map<string, seq<seq<string>>>)
      returns (out: CommandOutcome)
      modifies this
      ensures var (o, w) := Command(models, tables, paths, known, files);
        out == o && log == old(log) + w
    {
      var plan := PlanCommand(models, tables, paths);
      if plan.Refused? {
        return CommandError(plan.message);
      }
      if plan.NoJobs? {
        return Finished;
      }
      var failed := ReadJobs(plan.TableJobs?, known, files, plan.jobs);
      out := if failed.None? then Finished else JobFailed(failed.value.0, failed.value.1);
    }

    /** The `zip` loop of `handle`. */
    method ReadJobs(readTables: bool, known: map<string, set<string>>, files: map<string, seq<seq<string>>>,
                    jobs: seq<Job>) returns (failed: Option<(nat, Failure)>)
      modifies this
      ensures var (w, f) := RunJobs(readTables, known, files, jobs);
        failed == f && log == old(log) + w
    {
      var i := 0;
      ghost var written: seq<Write> := [];
      while i < |jobs|
        invariant 0 <= i <= |jobs|
        invariant log == old(log) + written
        invariant RunJobs(readTables, known, files, jobs[..i]) == (written, None)
      {
        assert jobs[..i + 1][..i] == jobs[..i];
        var job := jobs[i];
        var r := ReadJob(readTables, known, files, job);
        if r.Err? {
          JobsFailureIsFinal(readTables, known, files, jobs, i + 1);
          return Some((i, r.error));
        }
        written := written + JobWrites(readTables, known, files, job).value;
        i := i + 1;
      }
      assert jobs[..|jobs|] == jobs;
      failed := None;
    }
  }

  lemma {:induction false} JobsFailureIsFinal(tables: bool, known: map<string, set<string>>,
                                              files: map<string, seq<seq<string>>>, jobs: seq<Job>, j: nat)
    requires j <= |jobs|
    requires RunJobs(tables, known, files, jobs[..j]).1.Some?
    ensures RunJobs(tables, known, files, jobs) == RunJobs(tables, known, files, jobs[..j])
    decreases |jobs| - j
  {
    if j < |jobs| {
      assert jobs[..j + 1][..j] == jobs[..j];
      JobsFailureIsFinal(tables, known, files, jobs, j + 1);
    } else {
      assert jobs[..j] == jobs;
    }
  }
}
