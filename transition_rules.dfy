/** Project._prepare_transition_rules (gcbmwalltowall/component/project.py): the
    transition rules written by the tiler and the ones supplied by the user are
    merged into one CSV file whose rows all carry the classifier columns and the
    reserved columns, and the undisturbed transition files are copied next to
    it. The file system is a map from path to content. */
module TransitionRuleMerge {
  import opened Common
  import opened DisturbanceParsing

  // ---------------------------------------------------------------------------
  // Rows: the dictionaries csv.DictReader yields

  /** A dictionary from column to text; `keys` lists its keys in insertion
      order. */
  datatype Row = Row(keys: seq<string>, vals: map<string, string>)

  /** Every listed key is mapped, every mapped key is listed, once. */
  ghost predicate WellFormed(row: Row)
  {
    NoDuplicates(row.keys) && forall x :: x in row.keys <==> x in row.vals
  }

  /** row.get(key) */
  function Get(row: Row, key: string): Option<string>
  {
    if key in row.vals then Some(row.vals[key]) else None
  }

  /** row[key] = value: a new key goes last, an existing one keeps its place. */
  function Assign(row: Row, key: string, value: string): (r: Row)
    ensures r.vals == row.vals[key := value]
    ensures WellFormed(row) ==> WellFormed(r)
  {
    if key in row.vals then Row(row.keys, row.vals[key := value])
    else
      var r := Row(row.keys + [key], row.vals[key := value]);
      assert WellFormed(row) ==> forall i :: 0 <= i < |row.keys| ==> r.keys[i] != key;
      r
  }

  /** row[key] = row.get(key, value) */
  function SetDefault(row: Row, key: string, value: string): (r: Row)
    ensures r.vals == if key in row.vals then row.vals else row.vals[key := value]
    ensures WellFormed(row) ==> WellFormed(r)
  {
    if key in row.vals then row else Assign(row, key, value)
  }

  /** Each key in turn defaulted to the same value. */
  function SetDefaults(row: Row, keys: seq<string>, value: string): Row
    decreases |keys|
  {
    if keys == [] then row else SetDefault(SetDefaults(row, keys[..|keys| - 1], value), keys[|keys| - 1], value)
  }

  lemma {:induction false} SetDefaultsFacts(row: Row, keys: seq<string>, value: string)
    ensures var r := SetDefaults(row, keys, value);
      && (forall x :: x in r.vals <==> x in row.vals || x in keys)
      && (forall x :: x in r.vals ==> r.vals[x] == if x in row.vals then row.vals[x] else value)
      && (WellFormed(row) ==> WellFormed(r))
    decreases |keys|
  {
    if keys != [] {
      SetDefaultsFacts(row, keys[..|keys| - 1], value);
      assert forall x :: x in keys <==> x in keys[..|keys| - 1] || x == keys[|keys| - 1];
    }
  }

  // ---------------------------------------------------------------------------
  // Classifier columns

  /** The columns that are never classifiers. */
  const ReservedColumns: set<string> := {"id", "regen_delay", "age_after", "disturbance_type", "age_reset_type"}

  /** The keys not yet in `acc` and not reserved, appended to `acc` in order. */
  function AddClassifiers(acc: seq<string>, keys: seq<string>): (r: seq<string>)
    ensures forall x :: x in r <==> x in acc || (x in keys && x !in ReservedColumns)
    ensures NoDuplicates(acc) ==> NoDuplicates(r)
    decreases |keys|
  {
    if keys == [] then acc
    else
      var k := keys[0];
      var next := if k !in ReservedColumns && k !in acc then acc + [k] else acc;
      assert forall x :: x in keys <==> x == k || x in keys[1..];
      AddClassifiers(next, keys[1..])
  }

  /** The union of the non-reserved columns of all rows, in order of first
      appearance (the program collects them in a set, whose order it does not
      rely on). */
  function ClassifierColumns(rows: seq<Row>): (r: seq<string>)
    ensures NoDuplicates(r)
    ensures forall x :: x in r <==> x !in ReservedColumns && exists i :: 0 <= i < |rows| && x in rows[i].keys
    decreases |rows|
  {
    if rows == [] then []
    else
      var prefix := rows[..|rows| - 1];
      assert forall i :: 0 <= i < |prefix| ==> prefix[i] == rows[i];
      AddClassifiers(ClassifierColumns(prefix), rows[|rows| - 1].keys)
  }

  method CollectClassifierColumns(rows: seq<Row>) returns (columns: seq<string>)
    ensures columns == ClassifierColumns(rows)
  {
    columns := [];
    for i := 0 to |rows|
      invariant columns == ClassifierColumns(rows[..i])
    {
      assert rows[..i + 1][..i] == rows[..i];
      columns := AddClassifiers(columns, rows[i].keys);
    }
    assert rows[..|rows|] == rows;
  }

  // ---------------------------------------------------------------------------
  // Filling the defaults

  /** For each project classifier `name`: `name` defaults to "?" and
      `name_match` to "". */
  function ProjectClassifierDefaults(row: Row, names: seq<string>): Row
    decreases |names|
  {
    if names == [] then row
    else
      var n := names[|names| - 1];
      SetDefault(SetDefault(ProjectClassifierDefaults(row, names[..|names| - 1]), n, "?"), n + "_match", "")
  }

  function MatchColumns(names: seq<string>): (r: seq<string>)
    ensures forall x :: x in r <==> exists k :: 0 <= k < |names| && x == names[k] + "_match"
  {
    if names == [] then []
    else
      var r := MatchColumns(names[..|names| - 1]) + [names[|names| - 1] + "_match"];
      assert forall k :: 0 <= k < |names| - 1 ==> names[..|names| - 1][k] == names[k];
      r
  }

  lemma {:induction false} ProjectClassifierDefaultsFacts(row: Row, names: seq<string>)
    ensures var r := ProjectClassifierDefaults(row, names);
      && (forall x :: x in r.vals <==> x in row.vals || x in names || x in MatchColumns(names))
      && (forall x :: x in row.vals ==> r.vals[x] == row.vals[x])
      && (forall x :: x in names && x !in MatchColumns(names) && x !in row.vals ==> r.vals[x] == "?")
      && (forall x :: x in MatchColumns(names) && x !in names && x !in row.vals ==> r.vals[x] == "")
      && (WellFormed(row) ==> WellFormed(r))
    decreases |names|
  {
    if names != [] {
      var prefix := names[..|names| - 1];
      var n := names[|names| - 1];
      ProjectClassifierDefaultsFacts(row, prefix);
      assert forall x :: x in names <==> x in prefix || x == n;
      assert forall x :: x in MatchColumns(names) <==> x in MatchColumns(prefix) || x == n + "_match";
    }
  }

  /** The row with the reserved defaults, then every classifier column, then
      every project classifier filled in where missing; `id` is the fresh
      identifier. */
  function FillRow(row: Row, id: string, classifiers: seq<string>, projectClassifiers: seq<string>): Row
  {
    var r := SetDefault(row, "id", id);
    var r := SetDefault(r, "disturbance_type", "");
    var r := SetDefault(r, "age_reset_type", "absolute");
    var r := SetDefault(r, "regen_delay", "0");
    var r := SetDefaults(r, classifiers, "?");
    ProjectClassifierDefaults(r, projectClassifiers)
  }

  /** The columns every filled row has, whatever it started with. */
  predicate IsFilledColumn(x: string, classifiers: seq<string>, projectClassifiers: seq<string>)
  {
    x == "id" || x == "disturbance_type" || x == "age_reset_type" || x == "regen_delay"
    || x in classifiers || x in projectClassifiers || x in MatchColumns(projectClassifiers)
  }

  /** Filling never changes a value that is present and adds exactly the
      reserved columns other than `age_after`, the classifier columns and the
      project classifier columns. */
  lemma FillRowAt(row: Row, id: string, classifiers: seq<string>, projectClassifiers: seq<string>, x: string)
    ensures var r := FillRow(row, id, classifiers, projectClassifiers);
      && (x in r.vals <==> x in row.vals || IsFilledColumn(x, classifiers, projectClassifiers))
      && (x in row.vals ==> Get(r, x) == Get(row, x))
  {
    var r4 := SetDefault(SetDefault(SetDefault(SetDefault(row, "id", id), "disturbance_type", ""), "age_reset_type", "absolute"), "regen_delay", "0");
    assert x in r4.vals <==> x in row.vals || x in {"id", "disturbance_type", "age_reset_type", "regen_delay"};
    assert x in row.vals ==> Get(r4, x) == Get(row, x);
    SetDefaultsFacts(r4, classifiers, "?");
    ProjectClassifierDefaultsFacts(SetDefaults(r4, classifiers, "?"), projectClassifiers);
  }

  /** Filling keeps a row well formed. */
  lemma FillRowWellFormed(row: Row, id: string, classifiers: seq<string>, projectClassifiers: seq<string>)
    requires WellFormed(row)
    ensures WellFormed(FillRow(row, id, classifiers, projectClassifiers))
  {
    var r4 := SetDefault(SetDefault(SetDefault(SetDefault(row, "id", id), "disturbance_type", ""), "age_reset_type", "absolute"), "regen_delay", "0");
    SetDefaultsFacts(r4, classifiers, "?");
    ProjectClassifierDefaultsFacts(SetDefaults(r4, classifiers, "?"), projectClassifiers);
  }

  /** A missing reserved column gets its default: the fresh identifier, no
      disturbance type, an absolute age reset and no regeneration delay. */
  lemma FillRowDefaults(row: Row, id: string, classifiers: seq<string>, projectClassifiers: seq<string>)
    ensures var r := FillRow(row, id, classifiers, projectClassifiers);
      && ("id" !in row.vals ==> Get(r, "id") == Some(id))
      && ("disturbance_type" !in row.vals ==> Get(r, "disturbance_type") == Some(""))
      && ("age_reset_type" !in row.vals ==> Get(r, "age_reset_type") == Some("absolute"))
      && ("regen_delay" !in row.vals ==> Get(r, "regen_delay") == Some("0"))
  {
    var r4 := SetDefault(SetDefault(SetDefault(SetDefault(row, "id", id), "disturbance_type", ""), "age_reset_type", "absolute"), "regen_delay", "0");
    FillRowAt(r4, id, classifiers, projectClassifiers, "id");
    FillRowAt(r4, id, classifiers, projectClassifiers, "disturbance_type");
    FillRowAt(r4, id, classifiers, projectClassifiers, "age_reset_type");
    FillRowAt(r4, id, classifiers, projectClassifiers, "regen_delay");
  }

  /** A missing classifier column is filled with "?". */
  lemma FillRowClassifier(row: Row, id: string, classifiers: seq<string>, projectClassifiers: seq<string>, x: string)
    requires x in classifiers && x !in ReservedColumns && x !in row.vals
    ensures Get(FillRow(row, id, classifiers, projectClassifiers), x) == Some("?")
  {
    var r4 := SetDefault(SetDefault(SetDefault(SetDefault(row, "id", id), "disturbance_type", ""), "age_reset_type", "absolute"), "regen_delay", "0");
    assert x !in r4.vals;
    SetDefaultsFacts(r4, classifiers, "?");
    ProjectClassifierDefaultsFacts(SetDefaults(r4, classifiers, "?"), projectClassifiers);
  }

  /** Every row filled, the i-th taking the i-th fresh identifier (uuid4 is
      called for every row, whether it has an `id` or not). */
  function FillAll(rows: seq<Row>, classifiers: seq<string>, projectClassifiers: seq<string>, newId: nat -> string): (r: seq<Row>)
    ensures |r| == |rows|
  {
    seq(|rows|, i requires 0 <= i < |rows| => FillRow(rows[i], newId(i), classifiers, projectClassifiers))
  }

  method FillDefaults(rows: seq<Row>, classifiers: seq<string>, projectClassifiers: seq<string>, newId: nat -> string)
    returns (filled: seq<Row>)
    ensures filled == FillAll(rows, classifiers, projectClassifiers, newId)
  {
    filled := rows;
    for i := 0 to |rows|
      invariant |filled| == |rows|
      invariant forall k :: 0 <= k < i ==> filled[k] == FillRow(rows[k], newId(k), classifiers, projectClassifiers)
      invariant forall k :: i <= k < |rows| ==> filled[k] == rows[k]
    {
      var t := filled[i];
      t := SetDefault(t, "id", newId(i));
      t := SetDefault(t, "disturbance_type", "");
      t := SetDefault(t, "age_reset_type", "absolute");
      t := SetDefault(t, "regen_delay", "0");
      ghost var beforeClassifiers := t;
      for j := 0 to |classifiers|
        invariant t == SetDefaults(beforeClassifiers, classifiers[..j], "?")
      {
        assert classifiers[..j + 1][..j] == classifiers[..j];
        t := SetDefault(t, classifiers[j], "?");
      }
      assert classifiers[..|classifiers|] == classifiers;
      ghost var beforeProject := t;
      for j := 0 to |projectClassifiers|
        invariant t == ProjectClassifierDefaults(beforeProject, projectClassifiers[..j])
      {
        assert projectClassifiers[..j + 1][..j] == projectClassifiers[..j];
        var name := projectClassifiers[j];
        t := SetDefault(t, name, "?");
        t := SetDefault(t, name + "_match", "");
      }
      assert projectClassifiers[..|projectClassifiers|] == projectClassifiers;
      filled := filled[i := t];
    }
  }

  /** After filling with the union of the classifier columns, all rows have the
      same columns except `age_after`, which is never defaulted. */
  lemma FilledRowsAgree(rows: seq<Row>, projectClassifiers: seq<string>, newId: nat -> string, i: nat, j: nat, x: string)
    requires i < |rows| && j < |rows| && x != "age_after"
    requires WellFormed(rows[i]) && WellFormed(rows[j])
    ensures var filled := FillAll(rows, ClassifierColumns(rows), projectClassifiers, newId);
      x in filled[i].vals <==> x in filled[j].vals
  {
    var cs := ClassifierColumns(rows);
    FillRowAt(rows[i], newId(i), cs, projectClassifiers, x);
    FillRowAt(rows[j], newId(j), cs, projectClassifiers, x);
    if (x in rows[i].vals || x in rows[j].vals) && x !in ReservedColumns {
      assert x in cs;
    }
  }

  // ---------------------------------------------------------------------------
  // Files

  /** What a path holds: a CSV file (its header and records) or an empty file. */
  datatype FileContent = Csv(header: seq<string>, records: seq<seq<string>>) | Empty

  /** The record's field at position `k`, "" past its end. */
  function Field(record: seq<string>, k: nat): string
  {
    if k < |record| then record[k] else ""
  }

  /** The dictionary csv.DictReader makes of a record: each header column maps
      to the record's field at its position, to "" (written back as "") when the
      record is shorter; a repeated column keeps its first place and its last
      value. */
  function ReadRow(header: seq<string>, record: seq<string>): (r: Row)
    ensures WellFormed(r)
    ensures forall x :: x in r.vals <==> x in header
    ensures r.keys == Distinct(header)
    decreases |header|
  {
    if header == [] then Row([], map[])
    else
      var n := |header| - 1;
      assert forall x :: x in header <==> x in header[..n] || x == header[n];
      Assign(ReadRow(header[..n], record), header[n], Field(record, n))
  }

  /** The value of a column is the record's field at the column's last place
      in the header (later fields overwrite earlier ones), "" past the record's
      end. */
  lemma {:induction false} ReadRowValue(header: seq<string>, record: seq<string>, k: nat)
    requires k < |header| && forall j :: k < j < |header| ==> header[j] != header[k]
    ensures ReadRow(header, record).vals[header[k]] == Field(record, k)
    decreases |header|
  {
    var n := |header| - 1;
    var prefix := ReadRow(header[..n], record);
    var value := Field(record, n);
    var vals := ReadRow(header, record).vals;
    assert vals == prefix.vals[header[n] := value];
    if k < n {
      forall j | k < j < n ensures header[..n][j] != header[..n][k] {
        assert header[j] != header[k];
      }
      ReadRowValue(header[..n], record, k);
      assert header[..n][k] == header[k];
      assert prefix.vals[header[k]] == Field(record, k);
      assert header[n] != header[k];
      assert vals[header[k]] == prefix.vals[header[k]];
    } else {
      assert vals[header[n]] == value;
    }
  }

  /** The rows csv.DictReader yields for a file: blank records are skipped. */
  function RowsOf(c: FileContent): (rows: seq<Row>)
    ensures forall i :: 0 <= i < |rows| ==> WellFormed(rows[i])
  {
    match c
    case Csv(header, records) =>
      var kept := Filter(records, (record: seq<string>) => record != []);
      seq(|kept|, k requires 0 <= k < |kept| => ReadRow(header, kept[k]))
    case Empty => []
  }

  /** The record DictWriter writes for a row: its value under each header
      column, "" where it has none. */
  function Record(header: seq<string>, row: Row): (r: seq<string>)
    ensures |r| == |header|
    ensures forall k :: 0 <= k < |header| ==> r[k] == if header[k] in row.vals then row.vals[header[k]] else ""
  {
    seq(|header|, k requires 0 <= k < |header| => if header[k] in row.vals then row.vals[header[k]] else "")
  }

  /** DictWriter accepts a row only if all its keys are header columns. */
  predicate Fits(header: seq<string>, row: Row)
  {
    forall x :: x in row.vals ==> x in header
  }

  /** DictWriter with the first row's keys as header: the header, then the rows
      in order; a row with a key outside the header raises after the rows before
      it were written; with no rows the file is left empty and indexing the
      first row raises. */
  function WriteRows(rows: seq<Row>): (FileContent, Result<()>)
  {
    if rows == [] then (Empty, Err(IndexOutOfRange))
    else
      var header := rows[0].keys;
      match FirstIndex(rows, (row: Row) => !Fits(header, row))
      case None => (Csv(header, seq(|rows|, k requires 0 <= k < |rows| => Record(header, rows[k]))), Ok(()))
      case Some(bad) => (Csv(header, seq(bad, k requires 0 <= k < bad => Record(header, rows[k]))), Err(FieldsNotInHeader))
  }

  /** A filled row fits under the first filled row's keys unless it has
      `age_after` and the first row does not. */
  lemma FitsFirstRow(rows: seq<Row>, projectClassifiers: seq<string>, newId: nat -> string, i: nat)
    requires 0 <= i < |rows| && WellFormed(rows[0]) && WellFormed(rows[i])
    ensures var filled := FillAll(rows, ClassifierColumns(rows), projectClassifiers, newId);
      Fits(filled[0].keys, filled[i]) <==> ("age_after" in filled[i].vals ==> "age_after" in filled[0].vals)
  {
    var filled := FillAll(rows, ClassifierColumns(rows), projectClassifiers, newId);
    FillRowWellFormed(rows[0], newId(0), ClassifierColumns(rows), projectClassifiers);
    forall x | x != "age_after" ensures x in filled[i].vals <==> x in filled[0].vals {
      FilledRowsAgree(rows, projectClassifiers, newId, i, 0, x);
    }
  }

  /** Writing succeeds exactly when there is a first row and every row fits
      under its keys; then every row is written, in order. */
  lemma WriteRowsSucceeds(rows: seq<Row>)
    ensures WriteRows(rows).1.Ok? <==> rows != [] && forall i :: 0 <= i < |rows| ==> Fits(rows[0].keys, rows[i])
    ensures WriteRows(rows).1.Ok? ==>
      WriteRows(rows).0 == Csv(rows[0].keys, seq(|rows|, k requires 0 <= k < |rows| => Record(rows[0].keys, rows[k])))
  {
    if rows != [] {
      var bad := FirstIndex(rows, (row: Row) => !Fits(rows[0].keys, row));
      if bad.Some? {
        assert !Fits(rows[0].keys, rows[bad.value]);
      }
    }
  }

  /** Writing the filled rows fails exactly when there are none, or when the
      first row lacks `age_after` and a later row has it. */
  lemma WriteFilledRows(rows: seq<Row>, projectClassifiers: seq<string>, newId: nat -> string)
    requires forall i :: 0 <= i < |rows| ==> WellFormed(rows[i])
    ensures var filled := FillAll(rows, ClassifierColumns(rows), projectClassifiers, newId);
      WriteRows(filled).1.Ok? <==>
        rows != [] &&
        ("age_after" in filled[0].vals || forall i :: 0 <= i < |rows| ==> "age_after" !in filled[i].vals)
  {
    var filled := FillAll(rows, ClassifierColumns(rows), projectClassifiers, newId);
    WriteRowsSucceeds(filled);
    if rows != [] {
      forall i | 0 <= i < |rows|
        ensures Fits(filled[0].keys, filled[i]) <==> ("age_after" in filled[i].vals ==> "age_after" in filled[0].vals)
      {
        FitsFirstRow(rows, projectClassifiers, newId, i);
      }
    }
  }

  // ---------------------------------------------------------------------------
  // Paths

  /** pathlib's with_name, and parent.joinpath of a single name: the path with
      its last component replaced. */
  function WithName(p: string, name: string): string
  {
    p[..LastIndexOf(p, '/') + 1] + name
  }

  function Join(dir: string, name: string): string
  {
    dir + "/" + name
  }

  function IndexOfUnderscore(s: string): (k: nat)
    ensures k <= |s| && (k < |s| ==> s[k] == '_') && forall j :: 0 <= j < k ==> s[j] != '_'
  {
    if s == [] || s[0] == '_' then 0 else 1 + IndexOfUnderscore(s[1..])
  }

  /** "undisturbed" inserted after the first "_"-separated token; a name
      without "_" has no second part and indexing it raises. */
  function UndisturbedName(name: string): (r: Result<string>)
    ensures r.Err? <==> '_' !in name
  {
    var k := IndexOfUnderscore(name);
    if k == |name| then
      assert forall j :: 0 <= j < |name| ==> name[j] != '_';
      Err(IndexOutOfRange)
    else Ok(name[..k] + "_undisturbed_" + name[k + 1..])
  }

  lemma UndisturbedNameInserts(first: string, rest: string)
    requires '_' !in first
    ensures UndisturbedName(first + "_" + rest) == Ok(first + "_undisturbed_" + rest)
  {
    var name := first + "_" + rest;
    assert name[|first|] == '_';
    assert forall j :: 0 <= j < |first| ==> name[j] == first[j];
    var k := IndexOfUnderscore(name);
    assert k == |first|;
    assert name[..k] == first && name[k + 1..] == rest;
  }

  /** The user's transition rule files, if configured, and the names of the
      project's classifiers. */
  datatype TransitionSources = TransitionSources(
    disturbedRules: Option<string>, undisturbedRules: Option<string>, classifiers: seq<string>)

  /** The merged rows: the tiler's, then the user's, each read only if the
      file exists. */
  function MergedRows(files: map<string, FileContent>, tilerDisturbed: string, user: Option<string>): seq<Row>
  {
    (if tilerDisturbed in files then RowsOf(files[tilerDisturbed]) else [])
    + (if user.Some? && user.value in files then RowsOf(files[user.value]) else [])
  }

  /** The name of the copy of the user's undisturbed rules. */
  const RulesUndisturbedName := "gcbmwalltowall_transition_rules_undisturbed.csv"

  /** The outcome and the files afterwards. */
  function PrepareSpec(files: map<string, FileContent>, sources: TransitionSources, tilerOutput: string,
                       output: string, newId: nat -> string): (Result<()>, map<string, FileContent>)
  {
    match UndisturbedName(PathName(output))
    case Err(e) => (Err(e), files)
    case Ok(undisturbedName) =>
      var undisturbedOut := WithName(output, undisturbedName);
      var rulesUndisturbedOut := WithName(output, RulesUndisturbedName);
      var cleared := files - {output, undisturbedOut, rulesUndisturbedOut};
      var tilerDisturbed := Join(tilerOutput, "transition_rules.csv");
      if !(tilerDisturbed in cleared || sources.disturbedRules.Some?) then (Ok(()), cleared)
      else
        var rows := MergedRows(cleared, tilerDisturbed, sources.disturbedRules);
        var filled := FillAll(rows, ClassifierColumns(rows), sources.classifiers, newId);
        var tilerUndisturbed := Join(tilerOutput, "undisturbed_transition_rules.csv");
        var copied := if tilerUndisturbed in cleared then cleared[undisturbedOut := cleared[tilerUndisturbed]] else cleared;
        if sources.undisturbedRules.Some? && sources.undisturbedRules.value !in copied then
          (Err(PathNotFound(sources.undisturbedRules.value)), copied)
        else
          var copiedBoth := if sources.undisturbedRules.Some? then copied[rulesUndisturbedOut := copied[sources.undisturbedRules.value]] else copied;
          var (content, result) := WriteRows(filled);
          (result, copiedBoth[output := content])
  }

  // ---------------------------------------------------------------------------
  // The file system and the operation on it

  class FileStore {
    var files: map<string, FileContent>

    constructor(initial: map<string, FileContent>)
      ensures files == initial
    {
      files := initial;
    }

    predicate Exists(p: string)
      reads this
    {
      p in files
    }

    /** Path.unlink(missing_ok=True) */
    method Unlink(p: string)
      modifies this
      ensures files == old(files) - {p}
    {
      files := files - {p};
    }

    /** shutil.copyfile: the content is copied verbatim; a missing source raises. */
    method Copy(src: string, dst: string) returns (r: Result<()>)
      modifies this
      ensures src in old(files) ==> r == Ok(()) && files == old(files)[dst := old(files)[src]]
      ensures src !in old(files) ==> r == Err(PathNotFound(src)) && files == old(files)
    {
      if src in files {
        files := files[dst := files[src]];
        r := Ok(());
      } else {
        r := Err(PathNotFound(src));
      }
    }

    method Write(p: string, content: FileContent)
      modifies this
      ensures files == old(files)[p := content]
    {
      files := files[p := content];
    }
  }

  method PrepareTransitionRules(fs: FileStore, sources: TransitionSources, tilerOutput: string,
                                output: string, newId: nat -> string) returns (r: Result<()>)
    modifies fs
    ensures (r, fs.files) == PrepareSpec(old(fs.files), sources, tilerOutput, output, newId)
  {
    var undisturbedName := UndisturbedName(PathName(output));
    if undisturbedName.Err? {
      return Err(undisturbedName.error);
    }
    var undisturbedOut := WithName(output, undisturbedName.value);
    var rulesUndisturbedOut := WithName(output, RulesUndisturbedName);
    fs.Unlink(output);
    fs.Unlink(undisturbedOut);
    fs.Unlink(rulesUndisturbedOut);
    assert fs.files == old(fs.files) - {output, undisturbedOut, rulesUndisturbedOut};
    var tilerDisturbed := Join(tilerOutput, "transition_rules.csv");
    if !(fs.Exists(tilerDisturbed) || sources.disturbedRules.Some?) {
      return Ok(());
    }
    var rows := MergedRows(fs.files, tilerDisturbed, sources.disturbedRules);
    var classifiers := CollectClassifierColumns(rows);
    var filled := FillDefaults(rows, classifiers, sources.classifiers, newId);
    var tilerUndisturbed := Join(tilerOutput, "undisturbed_transition_rules.csv");
    if fs.Exists(tilerUndisturbed) {
      var _ := fs.Copy(tilerUndisturbed, undisturbedOut);
    }
    if sources.undisturbedRules.Some? {
      var copied := fs.Copy(sources.undisturbedRules.value, rulesUndisturbedOut);
      if copied.Err? {
        return copied;
      }
    }
    var (content, result) := WriteRows(filled);
    fs.Write(output, content);
    return result;
  }

  // ---------------------------------------------------------------------------
  // Properties of the whole operation

  /** With neither the tiler's rules nor user rules, the three output files are
      removed and nothing else changes. */
  lemma NothingToMerge(files: map<string, FileContent>, sources: TransitionSources, tilerOutput: string,
                       output: string, newId: nat -> string, first: string, rest: string)
    requires PathName(output) == first + "_" + rest && '_' !in first
    requires Join(tilerOutput, "transition_rules.csv") !in files && sources.disturbedRules.None?
    ensures PrepareSpec(files, sources, tilerOutput, output, newId) ==
      (Ok(()), files - {output, WithName(output, first + "_undisturbed_" + rest), WithName(output, RulesUndisturbedName)})
  {
    UndisturbedNameInserts(first, rest);
  }

  /** The tiler's undisturbed rules, when it wrote them, are copied verbatim
      to the undisturbed output; otherwise that output stays removed. */
  lemma TilerUndisturbedCopied(files: map<string, FileContent>, sources: TransitionSources, tilerOutput: string,
                               output: string, newId: nat -> string, undisturbedName: string)
    requires UndisturbedName(PathName(output)) == Ok(undisturbedName)
    requires PrepareSpec(files, sources, tilerOutput, output, newId).0.Ok?
    requires Join(tilerOutput, "transition_rules.csv") in files || sources.disturbedRules.Some?
    requires Join(tilerOutput, "transition_rules.csv") != output
      && Join(tilerOutput, "transition_rules.csv") != WithName(output, undisturbedName)
      && Join(tilerOutput, "transition_rules.csv") != WithName(output, RulesUndisturbedName)
    ensures var tilerUndisturbed := Join(tilerOutput, "undisturbed_transition_rules.csv");
      var undisturbedOut := WithName(output, undisturbedName);
      var out := PrepareSpec(files, sources, tilerOutput, output, newId).1;
      undisturbedOut != output && undisturbedOut != WithName(output, RulesUndisturbedName) ==>
        && (tilerUndisturbed in files && tilerUndisturbed !in {output, undisturbedOut, WithName(output, RulesUndisturbedName)} ==>
              undisturbedOut in out && out[undisturbedOut] == files[tilerUndisturbed])
        && (tilerUndisturbed !in files ==> undisturbedOut !in out)
  {
    var undisturbedOut := WithName(output, undisturbedName);
    var rulesUndisturbedOut := WithName(output, RulesUndisturbedName);
    var cleared := files - {output, undisturbedOut, rulesUndisturbedOut};
    var tilerDisturbed := Join(tilerOutput, "transition_rules.csv");
    assert tilerDisturbed in cleared || sources.disturbedRules.Some?;
    var rows := MergedRows(cleared, tilerDisturbed, sources.disturbedRules);
    var filled := FillAll(rows, ClassifierColumns(rows), sources.classifiers, newId);
    var tilerUndisturbed := Join(tilerOutput, "undisturbed_transition_rules.csv");
    var copied := if tilerUndisturbed in cleared then cleared[undisturbedOut := cleared[tilerUndisturbed]] else cleared;
    assert !(sources.undisturbedRules.Some? && sources.undisturbedRules.value !in copied);
    var copiedBoth := if sources.undisturbedRules.Some? then copied[rulesUndisturbedOut := copied[sources.undisturbedRules.value]] else copied;
    var written := WriteRows(filled);
    var out := PrepareSpec(files, sources, tilerOutput, output, newId).1;
    assert out == copiedBoth[output := written.0];
    if undisturbedOut != output && undisturbedOut != rulesUndisturbedOut {
      if tilerUndisturbed in files && tilerUndisturbed !in {output, undisturbedOut, rulesUndisturbedOut} {
        assert copied[undisturbedOut] == files[tilerUndisturbed];
        assert out[undisturbedOut] == copied[undisturbedOut];
      }
      if tilerUndisturbed !in files {
        assert undisturbedOut !in copied;
      }
    }
  }

  /** The merged output and the copy of the user's undisturbed rules. */
  lemma MergedRowsWritten(files: map<string, FileContent>, sources: TransitionSources, tilerOutput: string,
                          output: string, newId: nat -> string, undisturbedName: string)
    requires UndisturbedName(PathName(output)) == Ok(undisturbedName)
    requires PrepareSpec(files, sources, tilerOutput, output, newId).0.Ok?
    requires Join(tilerOutput, "transition_rules.csv") in files || sources.disturbedRules.Some?
    requires var outputs := {output, WithName(output, undisturbedName), WithName(output, RulesUndisturbedName)};
      && Join(tilerOutput, "transition_rules.csv") !in outputs
      && (sources.disturbedRules.Some? ==> sources.disturbedRules.value !in outputs)
      && (sources.undisturbedRules.Some? ==> sources.undisturbedRules.value !in outputs)
      && output != WithName(output, RulesUndisturbedName)
    ensures var rows := MergedRows(files, Join(tilerOutput, "transition_rules.csv"), sources.disturbedRules);
      var filled := FillAll(rows, ClassifierColumns(rows), sources.classifiers, newId);
      var out := PrepareSpec(files, sources, tilerOutput, output, newId).1;
      && rows != []
      && out[output] == Csv(filled[0].keys, seq(|rows|, k requires 0 <= k < |rows| => Record(filled[0].keys, filled[k])))
      && (sources.undisturbedRules.Some? ==>
            out[WithName(output, RulesUndisturbedName)] == files[sources.undisturbedRules.value])
  {
    var outputs := {output, WithName(output, undisturbedName), WithName(output, RulesUndisturbedName)};
    var cleared := files - outputs;
    var tilerDisturbed := Join(tilerOutput, "transition_rules.csv");
    assert MergedRows(cleared, tilerDisturbed, sources.disturbedRules) == MergedRows(files, tilerDisturbed, sources.disturbedRules);
    var rows := MergedRows(files, tilerDisturbed, sources.disturbedRules);
    var filled := FillAll(rows, ClassifierColumns(rows), sources.classifiers, newId);
    var header := filled[0].keys;
    match FirstIndex(filled, (row: Row) => !Fits(header, row))
    case None =>
    case Some(bad) =>
  }

  /** When the merge succeeds, the output holds, under the first row's keys,
      one record per merged row (the tiler's rows, then the user's) taken from
      the filled row, and the user's undisturbed rules are copied verbatim. */
  lemma MergeWritesEveryRow(files: map<string, FileContent>, sources: TransitionSources, tilerOutput: string,
                            output: string, newId: nat -> string, undisturbedName: string)
    requires UndisturbedName(PathName(output)) == Ok(undisturbedName)
    requires PrepareSpec(files, sources, tilerOutput, output, newId).0.Ok?
    requires Join(tilerOutput, "transition_rules.csv") in files || sources.disturbedRules.Some?
    requires var outputs := {output, WithName(output, undisturbedName), WithName(output, RulesUndisturbedName)};
      && Join(tilerOutput, "transition_rules.csv") !in outputs
      && (sources.disturbedRules.Some? ==> sources.disturbedRules.value !in outputs)
      && (sources.undisturbedRules.Some? ==> sources.undisturbedRules.value !in outputs)
      && output != WithName(output, RulesUndisturbedName)
    ensures var rows := MergedRows(files, Join(tilerOutput, "transition_rules.csv"), sources.disturbedRules);
      var filled := FillAll(rows, ClassifierColumns(rows), sources.classifiers, newId);
      var out := PrepareSpec(files, sources, tilerOutput, output, newId).1;
      && rows != []
      && out[output] == Csv(filled[0].keys, seq(|rows|, k requires 0 <= k < |rows| => Record(filled[0].keys, filled[k])))
      && (sources.undisturbedRules.Some? ==>
            out[WithName(output, RulesUndisturbedName)] == files[sources.undisturbedRules.value])
    ensures var tilerUndisturbed := Join(tilerOutput, "undisturbed_transition_rules.csv");
      var undisturbedOut := WithName(output, undisturbedName);
      var out := PrepareSpec(files, sources, tilerOutput, output, newId).1;
      undisturbedOut != output && undisturbedOut != WithName(output, RulesUndisturbedName) ==>
        && (tilerUndisturbed in files && tilerUndisturbed !in {output, undisturbedOut, WithName(output, RulesUndisturbedName)} ==>
              undisturbedOut in out && out[undisturbedOut] == files[tilerUndisturbed])
        && (tilerUndisturbed !in files ==> undisturbedOut !in out)
  {
    MergedRowsWritten(files, sources, tilerOutput, output, newId, undisturbedName);
    TilerUndisturbedCopied(files, sources, tilerOutput, output, newId, undisturbedName);
  }
}
