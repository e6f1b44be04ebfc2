/**
 * The import dialog (src/components/header/ImportDialog.tsx): the reader of
 * spreadsheet rows (`processExcelData`), the choice between the spreadsheet
 * and the JSON path by file extension, and the loop that stores every
 * imported training that has a name and an exercise list.
 *
 * A spreadsheet row is the list of its cells in key order. A row with one
 * cell opens a training named by that cell; a row with two cells, once a
 * training is open, adds an exercise whose descriptor ("4X 12", "30 min",
 * "15 - 12 - 10") sits under the key `__EMPTY`. The k-th call of
 * `crypto.randomUUID` gives `uuid(k)`; `new Date()` gives `now`.
 */
module ImportDialog {
  import opened Wrappers
  import opened Js
  import opened TrainingTypes
  import opened SeqOps
  import opened UseTraining

  /** One cell of a spreadsheet row: its column key and its text. */
  datatype Cell = Cell(key: string, value: string)

  /** A row as the spreadsheet reader gives it: its cells in key order. */
  type Row = seq<Cell>

  /** The row-number property the spreadsheet reader attaches to every row. */
  const RowNumKey: string := "__rowNum__"

  /** The key the spreadsheet reader gives a column without a header. */
  const EmptyKey: string := "__EMPTY"

  function CellKey(c: Cell): string {
    c.key
  }

  /** The row's cells without the row-number property, in order. */
  function Fields(row: Row): (f: seq<Cell>)
    ensures |f| <= |row|
    ensures forall i | 0 <= i < |f| :: f[i].key != RowNumKey
    ensures forall c | c in row && c.key != RowNumKey :: c in f
    ensures forall c | c in f :: c in row
  {
    RemoveWhere(row, CellKey, RowNumKey)
  }

  /** `row[key]`: the text of the first cell under the key, `undefined` when there is none. */
  function Lookup(row: Row, key: string): (v: Option<string>)
    ensures v.None? <==> forall i | 0 <= i < |row| :: row[i].key != key
    ensures v.Some? ==> exists i | 0 <= i < |row| :: row[i] == Cell(key, v.value)
  {
    match FindFirst(row, CellKey, key)
    case None => None
    case Some(c) => Some(c.value)
  }

  /**
   * `keys.find(key => key !== '__EMPTY') || keys[0]` on a row's two keys: the
   * first key other than `__EMPTY`, unless that key is the empty string
   * (falsy), in which case the first key.
   */
  function MainKey(k0: string, k1: string): (k: string)
    ensures k == k0 || k == k1
    ensures k0 != EmptyKey ==> k == k0
    ensures k0 == EmptyKey && k1 != EmptyKey && k1 != "" ==> k == k1
    ensures k != k0 ==> k1 != EmptyKey && k1 != ""
  {
    var found := if k0 != EmptyKey then Some(k0) else if k1 != EmptyKey then Some(k1) else None;
    if Truthy(found) then found.value else k0
  }

  /** The text of the main cell of a two-cell row. */
  function MainText(fields: seq<Cell>): string
    requires |fields| == 2
  {
    var key := MainKey(fields[0].key, fields[1].key);
    assert fields[0].key == key || fields[1].key == key;
    Lookup(fields, key).value
  }

  /** `s` starts with an ordinal: one or more digits and then the ")" at position `k`. */
  predicate OrdinalAt(s: string, k: int) {
    1 <= k < |s| && s[k] == ')' && forall j | 0 <= j < k :: IsDecimalDigit(s[j])
  }

  /** The ")" of an ordinal comes right after the leading run of digits. */
  lemma OrdinalEnd(s: string, k: int)
    requires OrdinalAt(s, k)
    ensures k == LeadingDigits(s, 10)
  {
    assert DigitValue(s[k]) >= 10;
  }

  /**
   * `s.replace` of the pattern `^\d+\)\s*` by nothing: drops a leading
   * "<digits>)" and the white space after it. Text that does not start with
   * digits followed by ")" (such as "3 sets") is kept as it is.
   */
  function StripOrdinal(s: string): (r: string)
    ensures forall k {:trigger OrdinalAt(s, k)} | OrdinalAt(s, k) :: r == TrimStart(s[k + 1..])
    ensures (forall k | 0 <= k < |s| :: !OrdinalAt(s, k)) ==> r == s
  {
    OrdinalDropped(s);
    OrdinalMissing(s);
    Unordinal(s)
  }

  /** The text after the leading digits and their ")", when there are both. */
  function Unordinal(s: string): string {
    var n := LeadingDigits(s, 10);
    if 1 <= n < |s| && s[n] == ')' then TrimStart(s[n + 1..]) else s
  }

  /** Wherever an ordinal ends, what follows it is what is kept. */
  lemma OrdinalDropped(s: string)
    ensures forall k {:trigger OrdinalAt(s, k)} | OrdinalAt(s, k) :: Unordinal(s) == TrimStart(s[k + 1..])
  {
    forall k | OrdinalAt(s, k)
      ensures Unordinal(s) == TrimStart(s[k + 1..])
    {
      OrdinalDroppedAt(s, k);
    }
  }

  lemma OrdinalDroppedAt(s: string, k: int)
    requires OrdinalAt(s, k)
    ensures Unordinal(s) == TrimStart(s[k + 1..])
  {
    OrdinalEnd(s, k);
    assert 1 <= LeadingDigits(s, 10) < |s| && s[LeadingDigits(s, 10)] == ')';
  }

  /** A text without an ordinal is kept whole. */
  lemma OrdinalMissing(s: string)
    ensures (forall k | 0 <= k < |s| :: !OrdinalAt(s, k)) ==> Unordinal(s) == s
  {
    var n := LeadingDigits(s, 10);
    if 1 <= n < |s| && s[n] == ')' {
      assert OrdinalAt(s, n);
    }
  }

  /** An ordinal "<digits>)" and the white space after it are dropped, and nothing more. */
  lemma StripOrdinalOf(digits: string, rest: string)
    requires digits != [] && forall i | 0 <= i < |digits| :: IsDecimalDigit(digits[i])
    ensures StripOrdinal(digits + ")" + rest) == TrimStart(rest)
  {
    var s := digits + ")" + rest;
    var tail := ")" + rest;
    assert s == digits + tail;
    assert LeadingDigits(s, 10) == |digits| by {
      LeadingDigitsAppend(digits, tail);
    }
    assert s[|digits|] == ')';
    assert s[|digits| + 1..] == rest;
  }

  /** The run of leading digits stops at the first character that is not one. */
  lemma {:induction false} LeadingDigitsAppend(digits: string, rest: string)
    requires forall i | 0 <= i < |digits| :: IsDecimalDigit(digits[i])
    requires rest != [] && !IsDecimalDigit(rest[0])
    ensures LeadingDigits(digits + rest, 10) == |digits|
  {
    if digits != [] {
      assert (digits + rest)[1..] == digits[1..] + rest;
      LeadingDigitsAppend(digits[1..], rest);
    } else {
      assert digits + rest == rest;
    }
  }

  /**
   * The exercise name: the main cell without its ordinal, trimmed. A cell
   * "<digits>) <name>" gives the name trimmed; a cell without an ordinal is
   * only trimmed.
   */
  function ExerciseName(raw: string): (name: string)
    ensures |name| <= |raw|
    ensures name != [] ==> !IsWhiteSpace(name[0]) && !IsWhiteSpace(name[|name| - 1])
    ensures forall k {:trigger OrdinalAt(raw, k)} | OrdinalAt(raw, k) :: name == Trim(raw[k + 1..])
    ensures (forall k | 0 <= k < |raw| :: !OrdinalAt(raw, k)) ==> name == Trim(raw)
  {
    TrimAfterOrdinal(raw);
    Trim(StripOrdinal(raw))
  }

  /** Trimming what follows an ordinal is trimming the rest of the cell. */
  lemma TrimAfterOrdinal(raw: string)
    ensures forall k {:trigger OrdinalAt(raw, k)} | OrdinalAt(raw, k) :: Trim(StripOrdinal(raw)) == Trim(raw[k + 1..])
  {
    forall k | OrdinalAt(raw, k)
      ensures Trim(StripOrdinal(raw)) == Trim(raw[k + 1..])
    {
      TrimOfTrimStart(raw[k + 1..]);
    }
  }

  /** A cell numbered "<digits>)" names the exercise by the rest of the cell, trimmed. */
  lemma ExerciseNameOfOrdinal(digits: string, rest: string)
    requires digits != [] && forall i | 0 <= i < |digits| :: IsDecimalDigit(digits[i])
    ensures ExerciseName(digits + ")" + rest) == Trim(rest)
  {
    var s := digits + ")" + rest;
    assert OrdinalAt(s, |digits|);
    assert s[|digits| + 1..] == rest;
  }

  /** "3 sets" has a leading number but no ")", so nothing is dropped. */
  lemma ThreeSetsKept()
    ensures StripOrdinal("3 sets") == "3 sets"
  {
    var s := "3 sets";
    forall k | 0 <= k < |s|
      ensures !OrdinalAt(s, k)
    {
      if k >= 1 {
        assert !IsDecimalDigit(s[1]);
      }
    }
  }

  /** What a descriptor sets: sets and repetitions, and the time when it gives minutes. */
  datatype Counts = Counts(sets: Num, reps: Num, time: Option<Num>)

  /** The values `sets` and `reps` start with, when no rule applies. */
  const Defaults: Counts := Counts(Int(1), Int(1), None)

  /** The marker of the "MÁXIMO" rule. */
  const Maximo: string := "MÁXIMO"

  /** What reading `.split` of `undefined` throws (the message is V8's wording). */
  const UndefinedSplit: Thrown := ErrorObject("TypeError", "Cannot read properties of undefined (reading 'split')")

  /** The number of pieces `split` cuts text into is one more than the separators in it. */
  lemma SplitIncluded(d: string, sep: char)
    requires Includes(d, [sep])
    ensures |Split(d, sep)| >= 2
  {
    var i := IndexOf(d, [sep]);
    assert d[i] == sep;
    SplitCount(d, sep);
  }

  /** "MÁXIMO" contains an "X", so a descriptor with it always takes the "X" rule first. */
  lemma MaximoIncludesX(d: string)
    ensures Includes(d, Maximo) ==> Includes(d, "X")
  {
    if Includes(d, Maximo) {
      var i := IndexOf(d, Maximo);
      assert "X" <= d[i + 2..];
      IncludesAt(d, "X", i + 2);
    }
  }

  /** The pieces of a split on "X" that the "X" rule reads. */
  lemma XRule(d: string)
    requires Includes(d, "X")
    ensures var parts, i := Split(d, 'X'), IndexOf(d, "X");
            && |parts| >= 2 && parts[0] == d[..i]
            && parts[1] == TextBefore(d[i + 1..], 'X')
  {
    var parts := Split(d, 'X');
    SplitIncluded(d, 'X');
    SplitFirstPiece(d, 'X');
    SplitAfterFirst(d, 'X');
    SplitFirstPiece(d[|parts[0]| + 1..], 'X');
  }

  /** The pieces of a split on "-" that the "-" rule reads. */
  lemma DashRule(d: string)
    ensures var segments := Split(d, '-');
            |segments| == multiset(d)['-'] + 1 && segments[0] == TextBefore(d, '-')
  {
    SplitCount(d, '-');
    SplitFirstPiece(d, '-');
  }

  /**
   * The descriptor rules in the order the code tests them: "min", then "X",
   * then "-", then "MÁXIMO", then "+". The "+" rule reads `parts[1]` of a
   * split on "X" that found no "X", so it throws.
   */
  function Classify(d: string): (r: Result<Counts, Thrown>)
    ensures r.Failure? <==> !Includes(d, "min") && !Includes(d, "X") && !Includes(d, "-") && Includes(d, "+")
    ensures r.Failure? ==> r.error == UndefinedSplit
    ensures r.Success? && r.value.time.Some? <==> Includes(d, "min")
    ensures Includes(d, "min") ==> r == Success(Counts(Int(1), Int(1), Some(ParseInt(DigitsOnly(d)))))
    ensures !Includes(d, "min") && Includes(d, "X") ==>
              var i := IndexOf(d, "X");
              r == Success(Counts(ParseInt(Trim(d[..i])), ParseInt(TextBefore(Trim(TextBefore(d[i + 1..], 'X')), ' ')), None))
    ensures !Includes(d, "min") && !Includes(d, "X") && Includes(d, "-") ==>
              r == Success(Counts(Int(multiset(d)['-'] + 1), ParseInt(Trim(TextBefore(d, '-'))), None))
    ensures !Includes(d, "min") && !Includes(d, "X") && !Includes(d, "-") && !Includes(d, "+") ==> r == Success(Defaults)
  {
    MaximoIncludesX(d);
    if Includes(d, "min") then
      Success(Counts(Int(1), Int(1), Some(ParseInt(DigitsOnly(d)))))
    else if Includes(d, "X") then
      var parts := Split(d, 'X');
      XRule(d);
      SplitFirstPiece(Trim(parts[1]), ' ');
      Success(Counts(ParseInt(Trim(parts[0])), ParseInt(Split(Trim(parts[1]), ' ')[0]), None))
    else if Includes(d, "-") then
      var segments := Split(d, '-');
      DashRule(d);
      Success(Counts(Int(|segments|), ParseInt(Trim(segments[0])), None))
    else if Includes(d, Maximo) then
      Success(Counts(ParseInt(Trim(TextBefore(d, 'X'))), Int(12), None))
    else if Includes(d, "+") then
      Failure(UndefinedSplit)
    else
      Success(Defaults)
  }

  /** `time || 30`: a missing, zero or NaN time becomes 30 minutes. */
  function TimeOrDefault(t: Option<Num>): (r: Num)
    ensures r.Int? && r != Int(0)
    ensures t.Some? && t.value.Int? && t.value != Int(0) ==> r == t.value
    ensures t.None? || t == Some(NaN) || t == Some(Int(0)) ==> r == Int(30)
  {
    if t.Some? && t.value.Int? && t.value != Int(0) then t.value else Int(30)
  }

  /** The exercise a two-cell row adds, or what its descriptor throws. */
  function BuildExercise(id: string, name: string, setsReps: Option<string>): (r: Result<Exercise, Thrown>)
    ensures r.Failure? <==> Truthy(setsReps) && Classify(setsReps.value).Failure?
    ensures r.Success? ==> && r.value.id == id && r.value.name == name
                           && (r.value.kind == Cardio <==> Includes(ToLowerAscii(name), "cardio"))
                           && r.value.notes == Some(if Truthy(setsReps) then setsReps.value else "")
                           && r.value.images == Some([])
    ensures r.Success? && r.value.kind == Cardio ==>
              && r.value.weight == None
              && r.value.time.Some? && r.value.time.value.Int? && r.value.time.value != Int(0)
    ensures r.Success? && r.value.kind == Weight ==> r.value.weight == Some(Int(0)) && r.value.time == None
    ensures r.Success? && !Truthy(setsReps) ==> r.value.sets == Int(1) && r.value.reps == Int(1)
    ensures r.Success? && Truthy(setsReps) ==>
              var c := Classify(setsReps.value).value;
              r.value.sets == c.sets && r.value.reps == c.reps
    ensures r.Success? && r.value.kind == Cardio ==>
              r.value.time == Some(TimeOrDefault(if Truthy(setsReps) then Classify(setsReps.value).value.time else None))
  {
    var isCardio := Includes(ToLowerAscii(name), "cardio");
    var counts := if Truthy(setsReps) then Classify(setsReps.value) else Success(Defaults);
    match counts
    case Failure(e) => Failure(e)
    case Success(c) =>
      Success(Exercise(
        id, name, if isCardio then Cardio else Weight, c.sets, c.reps,
        if isCardio then None else Some(Int(0)),
        if isCardio then Some(TimeOrDefault(c.time)) else None,
        Some(if Truthy(setsReps) then setsReps.value else ""),
        Some([])))
  }

  /**
   * The body of the loop for a two-cell row, as the code writes it: `sets`,
   * `reps` and `time` start at their defaults and the first rule that applies
   * overwrites them.
   */
  method ReadExercise(id: string, name: string, setsReps: Option<string>) returns (r: Result<Exercise, Thrown>)
    ensures r == BuildExercise(id, name, setsReps)
  {
    var sets := Int(1);
    var reps := Int(1);
    var isCardio := Includes(ToLowerAscii(name), "cardio");
    var time: Option<Num> := None;
    if Truthy(setsReps) {
      var d := setsReps.value;
      if Includes(d, "min") {
        time := Some(ParseInt(DigitsOnly(d)));
        sets := Int(1);
        reps := Int(1);
      } else if Includes(d, "X") {
        var parts := Split(d, 'X');
        SplitIncluded(d, 'X');
        sets := ParseInt(Trim(parts[0]));
        reps := ParseInt(Split(Trim(parts[1]), ' ')[0]);
      } else if Includes(d, "-") {
        var progressiveReps := Split(d, '-');
        sets := Int(|progressiveReps|);
        reps := ParseInt(Trim(progressiveReps[0]));
      } else if Includes(d, Maximo) {
        var parts := Split(d, 'X');
        sets := ParseInt(Trim(parts[0]));
        reps := Int(12);
      } else if Includes(d, "+") {
        return Failure(UndefinedSplit);
      }
    }
    r := Success(Exercise(
      id, name, if isCardio then Cardio else Weight, sets, reps,
      if isCardio then None else Some(Int(0)),
      if isCardio then Some(TimeOrDefault(time)) else None,
      Some(if Truthy(setsReps) then setsReps.value else ""),
      Some([])));
  }

  /** A training being read: opened by a title row, collecting exercises. */
  datatype Draft = Draft(id: string, name: string, exercises: seq<Exercise>)

  /** The reader's accumulator: the finished trainings, the open one, and the ids drawn so far. */
  datatype ParseState = ParseState(done: seq<PartialTraining>, current: Option<Draft>, calls: nat)

  /** The record pushed for a finished training. */
  function Finish(d: Draft, now: int): PartialTraining {
    PartialTraining(Some(d.id), Some(d.name), Some(now), Some(d.exercises), None, None)
  }

  /** The finished trainings with the open one, if any, pushed after them. */
  function Commit(done: seq<PartialTraining>, current: Option<Draft>, now: int): (r: seq<PartialTraining>)
    ensures |r| == |done| + (if current.Some? then 1 else 0) && r[..|done|] == done
    ensures current.Some? ==> r[|done|] == Finish(current.value, now)
  {
    if current.Some? then done + [Finish(current.value, now)] else done
  }

  /** The descriptor of a two-cell row throws. */
  predicate DescriptorThrows(row: Row) {
    var d := Lookup(row, EmptyKey);
    Truthy(d) && Classify(d.value).Failure?
  }

  /** One turn of the loop over the rows. */
  function Step(st: ParseState, row: Row, uuid: nat -> string, now: int): (r: Result<ParseState, Thrown>)
    ensures |Fields(row)| == 0 || |Fields(row)| >= 3 ==> r == Success(st)
    ensures |Fields(row)| == 2 && st.current.None? ==> r == Success(st)
    ensures |Fields(row)| == 1 ==>
              r == Success(ParseState(Commit(st.done, st.current, now), Some(Draft(uuid(st.calls), Fields(row)[0].value, [])), st.calls + 1))
    ensures r.Failure? <==> |Fields(row)| == 2 && st.current.Some? && DescriptorThrows(row)
    ensures |Fields(row)| == 2 && r.Success? ==>
              && r.value.done == st.done
              && (r.value.current.Some? <==> st.current.Some?)
              && (st.current.Some? ==> var before, after := st.current.value, r.value.current.value;
                                       && after.id == before.id && after.name == before.name
                                       && |after.exercises| == |before.exercises| + 1
                                       && after.exercises[..|before.exercises|] == before.exercises
                                       && after.exercises[|before.exercises|] == RowExercise(uuid(st.calls), row).value
                                       && r.value.calls == st.calls + 1)
  {
    var fields := Fields(row);
    if |fields| == 0 then Success(st)
    else if |fields| == 1 then
      Success(ParseState(Commit(st.done, st.current, now), Some(Draft(uuid(st.calls), fields[0].value, [])), st.calls + 1))
    else if |fields| == 2 && st.current.Some? then AddExercise(st, RowExercise(uuid(st.calls), row))
    else Success(st)
  }

  /** The exercise read from a two-cell row under the id `id`, or what reading it throws. */
  function RowExercise(id: string, row: Row): Result<Exercise, Thrown>
    requires |Fields(row)| == 2
  {
    BuildExercise(id, ExerciseName(MainText(Fields(row))), Lookup(row, EmptyKey))
  }

  /** The open training with the exercise appended, one more id drawn; or what reading the exercise threw. */
  function AddExercise(st: ParseState, ex: Result<Exercise, Thrown>): (r: Result<ParseState, Thrown>)
    requires st.current.Some?
    ensures r.Failure? <==> ex.Failure?
    ensures r.Failure? ==> r.error == ex.error
    ensures r.Success? ==> var cur := st.current.value;
                           r.value == st.(current := Some(cur.(exercises := cur.exercises + [ex.value])), calls := st.calls + 1)
  {
    match ex
    case Failure(e) => Failure(e)
    case Success(x) =>
      var cur := st.current.value;
      Success(st.(current := Some(cur.(exercises := cur.exercises + [x])), calls := st.calls + 1))
  }

  /** The accumulator after the loop has read `rows`, or what a row threw. */
  function Run(rows: seq<Row>, uuid: nat -> string, now: int): (r: Result<ParseState, Thrown>)
    ensures r.Success? ==> |r.value.done| + (if r.value.current.Some? then 1 else 0) <= |rows|
    ensures r.Success? ==> r.value.calls <= |rows|
  {
    if rows == [] then Success(ParseState([], None, 0))
    else
      match Run(rows[..|rows| - 1], uuid, now)
      case Failure(e) => Failure(e)
      case Success(st) => Step(st, rows[|rows| - 1], uuid, now)
  }

  /** What `processExcelData` returns, or what it throws. */
  function Parse(rows: seq<Row>, uuid: nat -> string, now: int): (r: Result<seq<PartialTraining>, Thrown>)
    ensures r.Success? ==> |r.value| <= |rows|
  {
    match Run(rows, uuid, now)
    case Failure(e) => Failure(e)
    case Success(st) => Success(Commit(st.done, st.current, now))
  }

  /** `processExcelData`: one pass over the rows with the open training as accumulator. */
  method ProcessExcelData(data: seq<Row>, uuid: nat -> string, now: int) returns (r: Result<seq<PartialTraining>, Thrown>)
    ensures r == Parse(data, uuid, now)
  {
    var currentTraining: Option<Draft> := None;
    var trainings: seq<PartialTraining> := [];
    var calls: nat := 0;
    for i := 0 to |data|
      invariant Run(data[..i], uuid, now) == Success(ParseState(trainings, currentTraining, calls))
    {
      RunSnoc(data, i, uuid, now);
      var next := ReadRow(ParseState(trainings, currentTraining, calls), data[i], uuid, now);
      if next.Failure? {
        ParseFails(data, i + 1, uuid, now);
        return Failure(next.error);
      }
      trainings, currentTraining, calls := next.value.done, next.value.current, next.value.calls;
    }
    ParseCommits(data, ParseState(trainings, currentTraining, calls), uuid, now);
    if currentTraining.Some? {
      trainings := trainings + [Finish(currentTraining.value, now)];
    }
    r := Success(trainings);
  }

  /** A sheet whose reading throws at some row gives what that row threw. */
  lemma ParseFails(rows: seq<Row>, k: nat, uuid: nat -> string, now: int)
    requires k <= |rows| && Run(rows[..k], uuid, now).Failure?
    ensures Parse(rows, uuid, now) == Failure(Run(rows[..k], uuid, now).error)
  {
    RunFailureSticks(rows, k, uuid, now);
  }

  /** A sheet read to the end gives the finished trainings and then the open one. */
  lemma ParseCommits(rows: seq<Row>, st: ParseState, uuid: nat -> string, now: int)
    requires Run(rows[..|rows|], uuid, now) == Success(st)
    ensures Parse(rows, uuid, now) == Success(Commit(st.done, st.current, now))
  {
    assert rows[..|rows|] == rows;
  }

  /** The body of the loop for one row: a title row opens a training, an exercise row adds to the open one. */
  method ReadRow(st: ParseState, row: Row, uuid: nat -> string, now: int) returns (r: Result<ParseState, Thrown>)
    ensures r == Step(st, row, uuid, now)
  {
    var keys := Fields(row);
    if |keys| == 0 {
      return Success(st);
    }
    if |keys| == 1 {
      var trainings := st.done;
      if st.current.Some? {
        trainings := trainings + [Finish(st.current.value, now)];
      }
      return Success(ParseState(trainings, Some(Draft(uuid(st.calls), keys[0].value, [])), st.calls + 1));
    }
    if |keys| == 2 && st.current.Some? {
      var exerciseName := ExerciseName(MainText(keys));
      var setsReps := Lookup(row, EmptyKey);
      var exercise := ReadExercise(uuid(st.calls), exerciseName, setsReps);
      if exercise.Failure? {
        return Failure(exercise.error);
      }
      var cur := st.current.value;
      return Success(st.(current := Some(cur.(exercises := cur.exercises + [exercise.value])), calls := st.calls + 1));
    }
    r := Success(st);
  }

  /** Reading one more row is one more step, unless a row already threw. */
  lemma RunSnoc(rows: seq<Row>, i: nat, uuid: nat -> string, now: int)
    requires i < |rows|
    ensures var before := Run(rows[..i], uuid, now);
            Run(rows[..i + 1], uuid, now) == if before.Failure? then before else Step(before.value, rows[i], uuid, now)
  {
    assert rows[..i + 1][..i] == rows[..i];
  }

  /** Once a row throws, the rest of the rows are never read. */
  lemma {:induction false} RunFailureSticks(rows: seq<Row>, k: nat, uuid: nat -> string, now: int)
    requires k <= |rows| && Run(rows[..k], uuid, now).Failure?
    ensures Run(rows, uuid, now) == Run(rows[..k], uuid, now)
  {
    if k < |rows| {
      assert rows[..|rows| - 1][..k] == rows[..k];
      RunFailureSticks(rows[..|rows| - 1], k, uuid, now);
    } else {
      assert rows[..k] == rows;
    }
  }

  /** The titles of the one-cell rows, in order. */
  function Titles(rows: seq<Row>): (ts: seq<string>)
    ensures |ts| <= |rows|
  {
    if rows == [] then []
    else
      var last := Fields(rows[|rows| - 1]);
      Titles(rows[..|rows| - 1]) + (if |last| == 1 then [last[0].value] else [])
  }

  /** The number of cells of a row besides the row number. */
  function Width(row: Row): nat {
    |Fields(row)|
  }

  /** Some row before position `i` is a one-cell row (for the given row width). */
  predicate TitleBefore(rows: seq<Row>, i: int, width: Row -> nat) {
    exists j | 0 <= j < i && j < |rows| :: width(rows[j]) == 1
  }

  /** Some row before position `i` is a title row. */
  predicate OpensBefore(rows: seq<Row>, i: int) {
    TitleBefore(rows, i, Width)
  }

  /** The row at position `i` is a two-cell row after a title, and `bad` holds of it. */
  predicate FlaggedAt(rows: seq<Row>, i: int, bad: Row -> bool, width: Row -> nat) {
    0 <= i < |rows| && width(rows[i]) == 2 && TitleBefore(rows, i, width) && bad(rows[i])
  }

  /** Some exercise row after a title has a descriptor that throws. */
  predicate SomeRowThrows(rows: seq<Row>) {
    exists i | 0 <= i < |rows| :: FlaggedAt(rows, i, DescriptorThrows, Width)
  }

  /** Appending a row does not change what comes before it. */
  lemma TitleBeforeAppend(rows: seq<Row>, i: int, width: Row -> nat)
    requires rows != [] && i <= |rows| - 1
    ensures TitleBefore(rows, i, width) <==> TitleBefore(rows[..|rows| - 1], i, width)
  {
    var init := rows[..|rows| - 1];
    if TitleBefore(rows, i, width) {
      var j :| 0 <= j < i && j < |rows| && width(rows[j]) == 1;
      assert init[j] == rows[j];
    }
    if TitleBefore(init, i, width) {
      var j :| 0 <= j < i && j < |init| && width(init[j]) == 1;
      assert init[j] == rows[j];
    }
  }

  /** A title has been read by the end of `rows` when one was read before its last row, or it is one. */
  lemma OpensBeforeEnd(rows: seq<Row>)
    requires rows != []
    ensures OpensBefore(rows, |rows|) <==> OpensBefore(rows[..|rows| - 1], |rows| - 1) || Width(rows[|rows| - 1]) == 1
  {
    TitleBeforeEnd(rows, Width);
  }

  lemma TitleBeforeEnd(rows: seq<Row>, width: Row -> nat)
    requires rows != []
    ensures TitleBefore(rows, |rows|, width) <==> TitleBefore(rows[..|rows| - 1], |rows| - 1, width) || width(rows[|rows| - 1]) == 1
  {
    var init := rows[..|rows| - 1];
    if TitleBefore(rows, |rows|, width) && width(rows[|rows| - 1]) != 1 {
      var j :| 0 <= j < |rows| && width(rows[j]) == 1;
      assert init[j] == rows[j];
    }
    TitleBeforeAppend(rows, |rows| - 1, width);
  }

  /** A row throws in `rows` when one throws before its last row, or the last row does. */
  lemma SomeRowThrowsAppend(rows: seq<Row>)
    requires rows != []
    ensures var init, last := rows[..|rows| - 1], rows[|rows| - 1];
            SomeRowThrows(rows) <==> SomeRowThrows(init) || (Width(last) == 2 && OpensBefore(init, |init|) && DescriptorThrows(last))
  {
    SomeFlaggedAppend(rows, DescriptorThrows, Width);
  }

  lemma SomeFlaggedAppend(rows: seq<Row>, bad: Row -> bool, width: Row -> nat)
    requires rows != []
    ensures var init, last := rows[..|rows| - 1], rows[|rows| - 1];
            (exists i | 0 <= i < |rows| :: FlaggedAt(rows, i, bad, width))
              <==> (exists i | 0 <= i < |init| :: FlaggedAt(init, i, bad, width)) || (width(last) == 2 && TitleBefore(init, |init|, width) && bad(last))
  {
    var init, last := rows[..|rows| - 1], rows[|rows| - 1];
    TitleBeforeAppend(rows, |init|, width);
    if exists i | 0 <= i < |rows| :: FlaggedAt(rows, i, bad, width) {
      var i :| 0 <= i < |rows| && FlaggedAt(rows, i, bad, width);
      if i < |init| {
        FlaggedAtAppend(rows, i, bad, width);
      }
    }
    if exists i | 0 <= i < |init| :: FlaggedAt(init, i, bad, width) {
      var i :| 0 <= i < |init| && FlaggedAt(init, i, bad, width);
      FlaggedAtAppend(rows, i, bad, width);
    }
    if width(last) == 2 && TitleBefore(init, |init|, width) && bad(last) {
      assert FlaggedAt(rows, |init|, bad, width);
    }
  }

  lemma FlaggedAtAppend(rows: seq<Row>, i: int, bad: Row -> bool, width: Row -> nat)
    requires 0 <= i < |rows| - 1
    ensures FlaggedAt(rows, i, bad, width) <==> FlaggedAt(rows[..|rows| - 1], i, bad, width)
  {
    assert rows[i] == rows[..|rows| - 1][i];
    TitleBeforeAppend(rows, i, width);
  }

  /** A training is open exactly when a title has been read. */
  lemma {:induction false} RunOpen(rows: seq<Row>, uuid: nat -> string, now: int)
    requires Run(rows, uuid, now).Success?
    ensures Run(rows, uuid, now).value.current.Some? <==> OpensBefore(rows, |rows|)
  {
    if rows != [] {
      RunOpen(rows[..|rows| - 1], uuid, now);
      OpensBeforeEnd(rows);
    }
  }

  /** The finished trainings followed by the open one are named by the titles read so far, in order. */
  lemma {:induction false} RunNames(rows: seq<Row>, uuid: nat -> string, now: int)
    requires Run(rows, uuid, now).Success?
    ensures var st := Run(rows, uuid, now).value;
            var out := Commit(st.done, st.current, now);
            && |out| == |Titles(rows)|
            && forall i | 0 <= i < |out| :: out[i].name == Some(Titles(rows)[i])
  {
    if rows != [] {
      var init := rows[..|rows| - 1];
      RunNames(init, uuid, now);
      StepNames(Run(init, uuid, now).value, rows[|rows| - 1], uuid, now);
    }
  }

  /**
   * A title row adds its title after the names committed so far; any other row
   * that does not throw keeps them.
   */
  lemma StepNames(st: ParseState, row: Row, uuid: nat -> string, now: int)
    requires Step(st, row, uuid, now).Success?
    ensures var next := Step(st, row, uuid, now).value;
            var before, after := Commit(st.done, st.current, now), Commit(next.done, next.current, now);
            && (Width(row) == 1 ==> |after| == |before| + 1 && after[..|before|] == before && after[|before|].name == Some(Fields(row)[0].value))
            && (Width(row) != 1 ==> |after| == |before| && forall i | 0 <= i < |after| :: after[i].name == before[i].name)
  {
    var next := Step(st, row, uuid, now).value;
    if Width(row) == 1 {
      TitleNames(st, next, Fields(row)[0].value, now);
    } else {
      KeptNames(st, next, now);
    }
  }

  /** Opening a training after a title commits the one that was open and then the new one, under that title. */
  lemma TitleNames(st: ParseState, next: ParseState, title: string, now: int)
    requires next.done == Commit(st.done, st.current, now) && next.current.Some? && next.current.value.name == title
    ensures var before, after := Commit(st.done, st.current, now), Commit(next.done, next.current, now);
            |after| == |before| + 1 && after[..|before|] == before && after[|before|].name == Some(title)
  {
  }

  /** Keeping the finished trainings and the open one's name keeps every name. */
  lemma KeptNames(st: ParseState, next: ParseState, now: int)
    requires next.done == st.done && (next.current.Some? <==> st.current.Some?)
    requires st.current.Some? ==> next.current.value.name == st.current.value.name
    ensures var before, after := Commit(st.done, st.current, now), Commit(next.done, next.current, now);
            |after| == |before| && forall i | 0 <= i < |after| :: after[i].name == before[i].name
  {
    var before, after := Commit(st.done, st.current, now), Commit(next.done, next.current, now);
    forall i | 0 <= i < |after|
      ensures after[i].name == before[i].name
    {
      if i < |st.done| {
        assert after[..|st.done|][i] == after[i] && before[..|st.done|][i] == before[i];
      }
    }
  }

  /** Every finished training carries an id, the import date and an exercise list. */
  lemma {:induction false} RunDone(rows: seq<Row>, uuid: nat -> string, now: int)
    requires Run(rows, uuid, now).Success?
    ensures var done := Run(rows, uuid, now).value.done;
            forall i | 0 <= i < |done| :: done[i].id.Some? && done[i].date == Some(now) && done[i].exercises.Some?
  {
    if rows != [] {
      RunDone(rows[..|rows| - 1], uuid, now);
    }
  }

  /**
   * Every training the reader returns carries an id, the import date and an
   * exercise list, and the trainings are named by the one-cell rows, one
   * training per such row, in input order.
   */
  lemma ParseTitles(rows: seq<Row>, uuid: nat -> string, now: int)
    requires Parse(rows, uuid, now).Success?
    ensures var out := Parse(rows, uuid, now).value;
            && |out| == |Titles(rows)|
            && (forall i | 0 <= i < |out| :: out[i].name == Some(Titles(rows)[i]))
            && (forall i | 0 <= i < |out| :: out[i].id.Some? && out[i].date == Some(now) && out[i].exercises.Some?)
  {
    RunNames(rows, uuid, now);
    RunDone(rows, uuid, now);
  }

  /**
   * The reader throws exactly when some exercise row after a title has a
   * descriptor that throws (one with "+" but no "min", "X" or "-").
   */
  lemma {:induction false} ParseFailsIff(rows: seq<Row>, uuid: nat -> string, now: int)
    ensures Parse(rows, uuid, now).Failure? <==> SomeRowThrows(rows)
  {
    if rows != [] {
      var init := rows[..|rows| - 1];
      ParseFailsIff(init, uuid, now);
      SomeRowThrowsAppend(rows);
      if Run(init, uuid, now).Success? {
        RunOpen(init, uuid, now);
      }
    }
  }

  /** A row with no cell besides the row number changes nothing, wherever it stands. */
  lemma {:induction false} SkippedRow(before: seq<Row>, row: Row, after: seq<Row>, uuid: nat -> string, now: int)
    requires Fields(row) == []
    ensures Run(before + [row] + after, uuid, now) == Run(before + after, uuid, now)
  {
    var full, short := before + [row] + after, before + after;
    if after == [] {
      assert full[..|full| - 1] == before && full[|full| - 1] == row;
      assert short == before;
      var r := Run(before, uuid, now);
      if r.Success? {
        assert |Fields(row)| == 0;
        assert Step(r.value, row, uuid, now) == r;
      }
    } else {
      var init, last := after[..|after| - 1], after[|after| - 1];
      SkippedRow(before, row, init, uuid, now);
      RunLast(full, uuid, now);
      RunLast(short, uuid, now);
      assert full[..|full| - 1] == before + [row] + init && full[|full| - 1] == last;
      assert short[..|short| - 1] == before + init && short[|short| - 1] == last;
    }
  }

  /** The reader's state after `rows` is one step after its state before their last row. */
  lemma RunLast(rows: seq<Row>, uuid: nat -> string, now: int)
    requires rows != []
    ensures var before := Run(rows[..|rows| - 1], uuid, now);
            Run(rows, uuid, now) == if before.Failure? then before else Step(before.value, rows[|rows| - 1], uuid, now)
  {
  }

  // Which exercises each training holds.

  /** The positions of the one-cell rows, in order: the k-th title sits at row `TitleRows(rows)[k]`. */
  function TitleRows(rows: seq<Row>): (ps: seq<nat>)
    ensures forall k | 0 <= k < |ps| :: ps[k] < |rows|
  {
    if rows == [] then []
    else TitleRows(rows[..|rows| - 1]) + (if Width(rows[|rows| - 1]) == 1 then [|rows| - 1] else [])
  }

  /** The k-th title position is a one-cell row holding the k-th title. */
  lemma {:induction false} TitleRowsAreTitles(rows: seq<Row>)
    ensures var ps := TitleRows(rows);
            && |ps| == |Titles(rows)|
            && forall k | 0 <= k < |ps| :: Width(rows[ps[k]]) == 1 && Titles(rows)[k] == Fields(rows[ps[k]])[0].value
  {
    if rows != [] {
      var init := rows[..|rows| - 1];
      TitleRowsAreTitles(init);
      assert forall i | 0 <= i < |init| :: rows[i] == init[i];
    }
  }

  /** The title positions are exactly the one-cell rows, in increasing order. */
  lemma {:induction false} TitleRowsInOrder(rows: seq<Row>)
    ensures var ps := TitleRows(rows);
            && (forall k, m | 0 <= k < m < |ps| :: ps[k] < ps[m])
            && (forall i | 0 <= i < |rows| && Width(rows[i]) == 1 :: i in ps)
  {
    if rows != [] {
      var init := rows[..|rows| - 1];
      TitleRowsInOrder(init);
      assert forall i | 0 <= i < |init| :: rows[i] == init[i];
    }
  }

  /** The number of ids the reader draws over `rows`: one per title row and one per exercise row after a title. */
  function Draws(rows: seq<Row>): nat {
    if rows == [] then 0
    else
      var init, w := rows[..|rows| - 1], Width(rows[|rows| - 1]);
      Draws(init) + (if w == 1 || (w == 2 && TitleRows(init) != []) then 1 else 0)
  }

  /** What the reader takes from the last of `rows`: the exercise of a two-cell row that taken without throwing, under the id drawn after those drawn for the rows before it. */
  function LastRead(rows: seq<Row>, uuid: nat -> string): Option<Exercise>
    requires rows != []
  {
    var init, last := rows[..|rows| - 1], rows[|rows| - 1];
    if Width(last) == 2 && RowExercise(uuid(Draws(init)), last).Success? then Some(RowExercise(uuid(Draws(init)), last).value) else None
  }

  /** What the reader takes from each row, position by position. */
  function Reads(rows: seq<Row>, uuid: nat -> string): (r: seq<Option<Exercise>>)
    ensures |r| == |rows|
  {
    if rows == [] then [] else Reads(rows[..|rows| - 1], uuid) + [LastRead(rows, uuid)]
  }

  /** The exercises read at the positions strictly between `lo` and `hi`, in order. */
  function Between(taken: seq<Option<Exercise>>, lo: nat, hi: nat): seq<Exercise>
    requires hi <= |taken|
  {
    if hi <= lo + 1 then []
    else Between(taken, lo, hi - 1) + (if taken[hi - 1].Some? then [taken[hi - 1].value] else [])
  }

  /** What was read before `hi` does not change when more is read. */
  lemma {:induction false} BetweenAppend(taken: seq<Option<Exercise>>, more: Option<Exercise>, lo: nat, hi: nat)
    requires hi <= |taken|
    ensures Between(taken + [more], lo, hi) == Between(taken, lo, hi)
  {
    if hi > lo + 1 {
      BetweenAppend(taken, more, lo, hi - 1);
      assert (taken + [more])[hi - 1] == taken[hi - 1];
    }
  }

  /** Reading one more row after `lo` adds what it gives at the end. */
  lemma BetweenLast(taken: seq<Option<Exercise>>, more: Option<Exercise>, lo: nat)
    requires lo < |taken|
    ensures Between(taken + [more], lo, |taken| + 1) == Between(taken, lo, |taken|) + (if more.Some? then [more.value] else [])
  {
    BetweenAppend(taken, more, lo, |taken|);
    assert (taken + [more])[|taken|] == more;
  }

  /**
   * The trainings of an accumulator hold what was read between the title
   * positions `ps`: each finished one what lies between its title and the
   * next, the open one (present once there is a title) what lies after the
   * last title.
   */
  predicate Holds(st: ParseState, ps: seq<nat>, taken: seq<Option<Exercise>>) {
    && (st.current.Some? <==> ps != [])
    && |st.done| == (if ps == [] then 0 else |ps| - 1)
    && (forall k | 0 <= k < |ps| :: ps[k] < |taken|)
    && (forall k | 0 <= k < |st.done| :: st.done[k].exercises == Some(Between(taken, ps[k], ps[k + 1])))
    && (st.current.Some? ==> st.current.value.exercises == Between(taken, ps[|ps| - 1], |taken|))
  }

  /** The reader's accumulator agrees with the rows read: the ids drawn, and what each training holds. */
  predicate Tracks(rows: seq<Row>, st: ParseState, uuid: nat -> string) {
    st.calls == Draws(rows) && Holds(st, TitleRows(rows), Reads(rows, uuid))
  }

  /** A title finishes the open training with what it holds and opens an empty one. */
  lemma TitleHolds(st: ParseState, ps: seq<nat>, taken: seq<Option<Exercise>>, next: ParseState, now: int)
    requires Holds(st, ps, taken)
    requires next.done == Commit(st.done, st.current, now) && next.current.Some? && next.current.value.exercises == []
    ensures Holds(next, ps + [|taken|], taken + [None])
  {
    var ps', taken' := ps + [|taken|], taken + [None];
    forall k | 0 <= k < |next.done|
      ensures next.done[k].exercises == Some(Between(taken', ps'[k], ps'[k + 1]))
    {
      BetweenAppend(taken, None, ps'[k], ps'[k + 1]);
      if k < |st.done| {
        assert next.done[..|st.done|][k] == next.done[k];
      }
    }
  }

  /** An exercise read while a training is open is appended to it. */
  lemma ExerciseHolds(st: ParseState, ps: seq<nat>, taken: seq<Option<Exercise>>, x: Exercise)
    requires Holds(st, ps, taken) && st.current.Some?
    ensures var cur := st.current.value;
            Holds(st.(current := Some(cur.(exercises := cur.exercises + [x])), calls := st.calls + 1), ps, taken + [Some(x)])
  {
    forall k | 0 <= k < |st.done|
      ensures st.done[k].exercises == Some(Between(taken + [Some(x)], ps[k], ps[k + 1]))
    {
      BetweenAppend(taken, Some(x), ps[k], ps[k + 1]);
    }
    BetweenLast(taken, Some(x), ps[|ps| - 1]);
  }

  /** Reading nothing, or anything while no training is open, changes no training. */
  lemma OtherHolds(st: ParseState, ps: seq<nat>, taken: seq<Option<Exercise>>, more: Option<Exercise>)
    requires Holds(st, ps, taken) && (st.current.Some? ==> more.None?)
    ensures Holds(st, ps, taken + [more])
  {
    forall k | 0 <= k < |st.done|
      ensures st.done[k].exercises == Some(Between(taken + [more], ps[k], ps[k + 1]))
    {
      BetweenAppend(taken, more, ps[k], ps[k + 1]);
    }
    if st.current.Some? {
      BetweenLast(taken, more, ps[|ps| - 1]);
    }
  }

  /** The accumulator tracks the rows after every row read. */
  lemma {:induction false} RunTracks(rows: seq<Row>, uuid: nat -> string, now: int)
    requires Run(rows, uuid, now).Success?
    ensures Tracks(rows, Run(rows, uuid, now).value, uuid)
  {
    if rows != [] {
      var init := rows[..|rows| - 1];
      RunTracks(init, uuid, now);
      StepTracks(rows, Run(init, uuid, now).value, uuid, now);
    }
  }

  /** One step keeps the accumulator tracking the rows. */
  lemma StepTracks(rows: seq<Row>, st: ParseState, uuid: nat -> string, now: int)
    requires rows != [] && Tracks(rows[..|rows| - 1], st, uuid)
    requires Step(st, rows[|rows| - 1], uuid, now).Success?
    ensures Tracks(rows, Step(st, rows[|rows| - 1], uuid, now).value, uuid)
  {
    var init, last := rows[..|rows| - 1], rows[|rows| - 1];
    var next := Step(st, last, uuid, now).value;
    var ps, taken := TitleRows(init), Reads(init, uuid);
    assert Reads(rows, uuid) == taken + [LastRead(rows, uuid)];
    if Width(last) == 1 {
      TitleRow(rows);
      assert LastRead(rows, uuid) == None;
      TitleHolds(st, ps, taken, next, now);
    } else if Width(last) == 2 && st.current.Some? {
      var x := ExerciseStep(st, last, uuid, now);
      NoTitleRow(rows);
      assert LastRead(rows, uuid) == Some(x);
      ExerciseHolds(st, ps, taken, x);
    } else {
      assert next == st;
      NoTitleRow(rows);
      OtherHolds(st, ps, taken, LastRead(rows, uuid));
    }
  }

  /** An exercise row after a title that reads appends its exercise to the open training and draws one id. */
  lemma ExerciseStep(st: ParseState, row: Row, uuid: nat -> string, now: int) returns (x: Exercise)
    requires |Fields(row)| == 2 && st.current.Some? && Step(st, row, uuid, now).Success?
    ensures RowExercise(uuid(st.calls), row) == Success(x)
    ensures var cur := st.current.value;
            Step(st, row, uuid, now).value == st.(current := Some(cur.(exercises := cur.exercises + [x])), calls := st.calls + 1)
  {
    StepAddsExercise(st, row, uuid, now);
    x := RowExercise(uuid(st.calls), row).value;
  }

  /** An exercise row after a title appends what reading it gives. */
  lemma StepAddsExercise(st: ParseState, row: Row, uuid: nat -> string, now: int)
    requires |Fields(row)| == 2 && st.current.Some?
    ensures Step(st, row, uuid, now) == AddExercise(st, RowExercise(uuid(st.calls), row))
  {
  }

  /** A title row adds its own position to the titles and draws one id. */
  lemma TitleRow(rows: seq<Row>)
    requires rows != [] && Width(rows[|rows| - 1]) == 1
    ensures TitleRows(rows) == TitleRows(rows[..|rows| - 1]) + [|rows| - 1]
    ensures Draws(rows) == Draws(rows[..|rows| - 1]) + 1
  {
  }

  /** A row that is not a title adds no title position, and draws an id exactly when it is an exercise row after a title. */
  lemma NoTitleRow(rows: seq<Row>)
    requires rows != [] && Width(rows[|rows| - 1]) != 1
    ensures TitleRows(rows) == TitleRows(rows[..|rows| - 1])
    ensures Draws(rows) == Draws(rows[..|rows| - 1]) + (if Width(rows[|rows| - 1]) == 2 && TitleRows(rows) != [] then 1 else 0)
  {
  }

  /**
   * The k-th training `processExcelData` returns holds, in order, the
   * exercises read from the rows strictly between the k-th title row and the
   * next one (or the end of the sheet): one per two-cell row there, each
   * under the id drawn for its row.
   */
  lemma ParseExercises(rows: seq<Row>, uuid: nat -> string, now: int)
    requires Parse(rows, uuid, now).Success?
    ensures var out, ps, taken := Parse(rows, uuid, now).value, TitleRows(rows), Reads(rows, uuid);
            && |out| == |ps|
            && forall k | 0 <= k < |out| ::
                 out[k].exercises == Some(Between(taken, ps[k], if k + 1 < |ps| then ps[k + 1] else |rows|))
  {
    RunTracks(rows, uuid, now);
  }

  // The two-row sheet: a title row, then one exercise row under it.

  /**
   * The sheet `[{A: "Treino X"}, {A: "1) Supino", __EMPTY: "4X12"}]` gives one
   * training, "Treino X", dated now, holding one weight exercise: "Supino",
   * four sets of twelve, with the descriptor kept as its notes.
   */
  lemma TwoRowSheet(uuid: nat -> string, now: int)
    ensures Parse([[Cell("A", "Treino X")], [Cell("A", "1) Supino"), Cell(EmptyKey, "4X12")]], uuid, now)
            == Success([PartialTraining(Some(uuid(0)), Some("Treino X"), Some(now),
                                        Some([Exercise(uuid(1), "Supino", Weight, Int(4), Int(12), Some(Int(0)), None, Some("4X12"), Some([]))]),
                                        None, None)])
  {
    SheetTitle(uuid, now);
    SheetExercise(uuid, now);
    ParseTwoRows([Cell("A", "Treino X")], [Cell("A", "1) Supino"), Cell(EmptyKey, "4X12")], uuid, now);
  }

  /** A two-row sheet parses as its first row's state stepped by its second row, committed. */
  lemma ParseTwoRows(first: Row, second: Row, uuid: nat -> string, now: int)
    requires Run([first], uuid, now).Success?
    ensures var r := Step(Run([first], uuid, now).value, second, uuid, now);
            Parse([first, second], uuid, now)
            == if r.Failure? then Failure(r.error) else Success(Commit(r.value.done, r.value.current, now))
  {
    assert [first, second][..1] == [first];
  }

  /** The title row alone opens the training "Treino X". */
  lemma SheetTitle(uuid: nat -> string, now: int)
    ensures Run([[Cell("A", "Treino X")]], uuid, now) == Success(ParseState([], Some(Draft(uuid(0), "Treino X", [])), 1))
  {
    var title := [Cell("A", "Treino X")];
    RemoveWhereAbsent(title, CellKey, RowNumKey);
    assert [title][..0] == [];
  }

  /** The exercise row adds "Supino" to the open training. */
  lemma SheetExercise(uuid: nat -> string, now: int)
    ensures var row := [Cell("A", "1) Supino"), Cell(EmptyKey, "4X12")];
            Step(ParseState([], Some(Draft(uuid(0), "Treino X", [])), 1), row, uuid, now)
            == Success(ParseState([], Some(Draft(uuid(0), "Treino X", [Exercise(uuid(1), "Supino", Weight, Int(4), Int(12), Some(Int(0)), None, Some("4X12"), Some([]))])), 2))
  {
    var row := [Cell("A", "1) Supino"), Cell(EmptyKey, "4X12")];
    SupinoRead(uuid(1));
    StepAppends(ParseState([], Some(Draft(uuid(0), "Treino X", [])), 1), row, uuid, now,
                Exercise(uuid(1), "Supino", Weight, Int(4), Int(12), Some(Int(0)), None, Some("4X12"), Some([])));
  }

  /** A two-cell row under an open training whose exercise reads as `x` appends `x`. */
  lemma StepAppends(st: ParseState, row: Row, uuid: nat -> string, now: int, x: Exercise)
    requires |Fields(row)| == 2 && st.current.Some? && RowExercise(uuid(st.calls), row) == Success(x)
    ensures var cur := st.current.value;
            Step(st, row, uuid, now) == Success(st.(current := Some(cur.(exercises := cur.exercises + [x])), calls := st.calls + 1))
  {
    StepAddsExercise(st, row, uuid, now);
    AddSucceeds(st, x);
  }

  lemma AddSucceeds(st: ParseState, x: Exercise)
    requires st.current.Some?
    ensures var cur := st.current.value;
            AddExercise(st, Success(x)) == Success(st.(current := Some(cur.(exercises := cur.exercises + [x])), calls := st.calls + 1))
  {
  }


  lemma SupinoCells()
    ensures Fields([Cell("A", "1) Supino"), Cell(EmptyKey, "4X12")]) == [Cell("A", "1) Supino"), Cell(EmptyKey, "4X12")]
  {
    RemoveWhereAbsent([Cell("A", "1) Supino"), Cell(EmptyKey, "4X12")], CellKey, RowNumKey);
  }

  /** The exercise row reads as "Supino", four sets of twelve. */
  lemma SupinoRead(id: string)
    ensures var row := [Cell("A", "1) Supino"), Cell(EmptyKey, "4X12")];
            |Fields(row)| == 2
            && RowExercise(id, row) == Success(Exercise(id, "Supino", Weight, Int(4), Int(12), Some(Int(0)), None, Some("4X12"), Some([])))
  {
    var row := [Cell("A", "1) Supino"), Cell(EmptyKey, "4X12")];
    SupinoCells();
    SupinoName();
    SupinoDescriptor();
    FourByTwelveJoined();
    SupinoNotCardio();
  }

  lemma SupinoName()
    ensures ExerciseName(MainText([Cell("A", "1) Supino"), Cell(EmptyKey, "4X12")])) == "Supino"
  {
    SupinoMainText();
    SupinoOrdinal();
    SupinoTrimmed();
  }

  lemma SupinoMainText()
    ensures MainText([Cell("A", "1) Supino"), Cell(EmptyKey, "4X12")]) == "1) Supino"
  {
    var row := [Cell("A", "1) Supino"), Cell(EmptyKey, "4X12")];
    assert MainKey("A", EmptyKey) == "A";
    assert row[0] == Cell("A", "1) Supino") && row[1].key != "A";
  }

  lemma SupinoOrdinal()
    ensures ExerciseName("1) Supino") == Trim(" Supino")
  {
    assert "1) Supino" == "1" + ")" + " Supino";
    ExerciseNameOfOrdinal("1", " Supino");
  }

  lemma SupinoTrimmed()
    ensures Trim(" Supino") == "Supino"
  {
    assert " Supino" == [' '] + "Supino";
    TrimLeadingBlank("Supino");
  }

  lemma SupinoDescriptor()
    ensures Lookup([Cell("A", "1) Supino"), Cell(EmptyKey, "4X12")], EmptyKey) == Some("4X12")
  {
    var row := [Cell("A", "1) Supino"), Cell(EmptyKey, "4X12")];
    assert row[1] == Cell(EmptyKey, "4X12") && row[0].key != EmptyKey;
  }

  lemma SupinoNotCardio()
    ensures !Includes(ToLowerAscii("Supino"), "cardio")
  {
    assert ToLowerAscii("Supino") == "supino";
    NotIncludes("supino", "cardio");
  }

  /** "4X12" is four sets of twelve. */
  lemma FourByTwelveJoined()
    ensures Classify("4X12") == Success(Counts(Int(4), Int(12), None))
  {
    JoinedXRule();
    FourText();
    JoinedTwelve();
    TwelveValue();
  }

  lemma JoinedXRule()
    ensures Classify("4X12") == Success(Counts(ParseInt(Trim("4")), ParseInt(TextBefore(Trim(TextBefore("12", 'X')), ' ')), None))
  {
    var d := "4X12";
    assert d == "4" + "X" + "12";
    NotIncludes(d, "min");
    XRuleOf("4", "12");
  }

  lemma JoinedTwelve()
    ensures TextBefore(Trim(TextBefore("12", 'X')), ' ') == "12"
  {
    TextBeforeAbsent("12", 'X');
    TrimKept("12");
    TwelveNoSpace();
  }

  // Descriptor examples and the round trip of the export's "sets X reps" text.

  /** Text without the separator is its own first piece. */
  lemma TextBeforeAbsent(s: string, sep: char)
    requires sep !in s
    ensures TextBefore(s, sep) == s
  {
  }

  /** The first "X" of `a + "X" + b` is the one after `a` when `a` has none. */
  lemma IndexOfX(a: string, b: string)
    requires 'X' !in a
    ensures Includes(a + "X" + b, "X") && IndexOf(a + "X" + b, "X") == |a|
  {
    var d := a + "X" + b;
    assert "X" <= d[|a|..];
    IncludesAt(d, "X", |a|);
    var i := IndexOf(d, "X");
    assert d[i] == 'X';
    assert i == |a| by {
      assert forall k | 0 <= k < |a| :: d[k] == a[k];
    }
  }

  /**
   * The "X" rule on `a + "X" + b` when `a` holds no "X": the sets are read from
   * `a`, the repetitions from the first word of the piece of `b` before its own
   * "X", if any.
   */
  lemma XRuleOf(a: string, b: string)
    requires 'X' !in a && !Includes(a + "X" + b, "min")
    ensures Classify(a + "X" + b) == Success(Counts(ParseInt(Trim(a)), ParseInt(TextBefore(Trim(TextBefore(b, 'X')), ' ')), None))
  {
    var d := a + "X" + b;
    IndexOfX(a, b);
    assert d[..|a|] == a && d[|a| + 1..] == b;
  }

  /** "4X 12" is four sets of twelve. */
  lemma FourByTwelve()
    ensures Classify("4X 12") == Success(Counts(Int(4), Int(12), None))
  {
    var d := "4X 12";
    assert d == "4" + "X" + " 12";
    NotIncludes(d, "min");
    XRuleOf("4", " 12");
    FourText();
    TwelveText();
  }

  /** "4X MÁXIMO" takes the "X" rule: four sets and NaN repetitions, never the 12 of the "MÁXIMO" rule. */
  lemma FourByMaximo()
    ensures Classify("4X MÁXIMO") == Success(Counts(Int(4), NaN, None))
  {
    var d := "4X MÁXIMO";
    assert d == "4" + "X" + " MÁXIMO";
    NotIncludes(d, "min");
    XRuleOf("4", " MÁXIMO");
    FourText();
    MaximoText();
  }

  // The literal texts of the examples, one small step each.

  lemma FourText()
    ensures Trim("4") == "4" && ParseInt("4") == Int(4)
  {
    TrimKept("4");
    FourValue();
  }

  lemma FourValue()
    ensures ParseInt("4") == Int(4)
  {
    assert NumToString(Int(4)) == "4";
    ParseIntOfNumToString(Int(4));
  }

  lemma TwelveText()
    ensures TextBefore(Trim(TextBefore(" 12", 'X')), ' ') == "12" && ParseInt("12") == Int(12)
  {
    TwelveNoX();
    TwelveTrimmed();
    TwelveNoSpace();
    TwelveValue();
  }

  lemma TwelveNoX()
    ensures TextBefore(" 12", 'X') == " 12"
  {
    TextBeforeAbsent(" 12", 'X');
  }

  lemma TwelveTrimmed()
    ensures Trim(" 12") == "12"
  {
    assert " 12" == [' '] + "12";
    TrimLeadingBlank("12");
  }

  lemma TwelveNoSpace()
    ensures TextBefore("12", ' ') == "12"
  {
    TextBeforeAbsent("12", ' ');
  }

  lemma TwelveValue()
    ensures ParseInt("12") == Int(12)
  {
    assert NumToString(Int(12)) == "12";
    ParseIntOfNumToString(Int(12));
  }

  lemma MaximoText()
    ensures TextBefore(Trim(TextBefore(" MÁXIMO", 'X')), ' ') == "MÁ" && ParseInt("MÁ") == NaN
  {
    MaximoBeforeX();
    MaximoTrimmed();
    MaximoNoSpace();
    MaximoValue();
  }

  lemma MaximoBeforeX()
    ensures TextBefore(" MÁXIMO", 'X') == " MÁ"
  {
    assert " MÁXIMO" == " MÁ" + "X" + "IMO";
    IndexOfX(" MÁ", "IMO");
  }

  lemma MaximoTrimmed()
    ensures Trim(" MÁ") == "MÁ"
  {
    assert " MÁ" == [' '] + "MÁ";
    TrimLeadingBlank("MÁ");
  }

  lemma MaximoNoSpace()
    ensures TextBefore("MÁ", ' ') == "MÁ"
  {
    TextBeforeAbsent("MÁ", ' ');
  }

  lemma MaximoValue()
    ensures ParseInt("MÁ") == NaN
  {
    assert TrimStart("MÁ") == "MÁ";
    assert LeadingDigits("MÁ", 10) == 0;
  }

  /** "15 - 12 - 10 - 8 - 6" is one set per dash-separated count, with the first count as repetitions. */
  lemma DashedCounts()
    ensures Classify("15 - 12 - 10 - 8 - 6") == Success(Counts(Int(5), Int(15), None))
  {
    DashRuleApplies();
    DashCount();
    FifteenText();
  }

  lemma DashRuleApplies()
    ensures var d := "15 - 12 - 10 - 8 - 6"; !Includes(d, "min") && !Includes(d, "X") && Includes(d, "-")
  {
    DashedNoMin();
    DashedNoX();
    DashIncluded();
  }

  lemma DashedNoMin()
    ensures !Includes("15 - 12 - 10 - 8 - 6", "min")
  {
    NotIncludes("15 - 12 - 10 - 8 - 6", "min");
  }

  lemma DashedNoX()
    ensures !Includes("15 - 12 - 10 - 8 - 6", "X")
  {
    NotIncludes("15 - 12 - 10 - 8 - 6", "X");
  }

  lemma DashIncluded()
    ensures Includes("15 - 12 - 10 - 8 - 6", "-")
  {
    var d := "15 - 12 - 10 - 8 - 6";
    assert "-" <= d[3..];
    IncludesAt(d, "-", 3);
  }

  lemma DashCount()
    ensures multiset("15 - 12 - 10 - 8 - 6")['-'] == 4
  {
    FirstDash();
    SecondDash();
    ThirdDash();
    LastDash();
  }

  /** A dash after a dash-free prefix adds one to the count of dashes. */
  lemma DashAfter(a: string, b: string, s: string)
    requires '-' !in a && s == a + ['-'] + b
    ensures multiset(s)['-'] == multiset(b)['-'] + 1
  {
    assert multiset(a)['-'] == 0;
  }

  lemma FirstDash()
    ensures multiset("15 - 12 - 10 - 8 - 6")['-'] == multiset(" 12 - 10 - 8 - 6")['-'] + 1
  {
    DashAfter("15 ", " 12 - 10 - 8 - 6", "15 - 12 - 10 - 8 - 6");
  }

  lemma SecondDash()
    ensures multiset(" 12 - 10 - 8 - 6")['-'] == multiset(" 10 - 8 - 6")['-'] + 1
  {
    DashAfter(" 12 ", " 10 - 8 - 6", " 12 - 10 - 8 - 6");
  }

  lemma ThirdDash()
    ensures multiset(" 10 - 8 - 6")['-'] == multiset(" 8 - 6")['-'] + 1
  {
    DashAfter(" 10 ", " 8 - 6", " 10 - 8 - 6");
  }

  lemma LastDash()
    ensures multiset(" 8 - 6")['-'] == 1
  {
    DashAfter(" 8 ", " 6", " 8 - 6");
    assert multiset(" 6")['-'] == 0;
  }

  lemma FifteenText()
    ensures Trim(TextBefore("15 - 12 - 10 - 8 - 6", '-')) == "15" && ParseInt("15") == Int(15)
  {
    FifteenFirstPiece();
    FifteenTrimmed();
    FifteenValue();
  }

  lemma FifteenFirstPiece()
    ensures TextBefore("15 - 12 - 10 - 8 - 6", '-') == "15 "
  {
    assert "15 - 12 - 10 - 8 - 6" == "15 " + ['-'] + " 12 - 10 - 8 - 6";
    TextBeforeSep("15 ", '-', " 12 - 10 - 8 - 6");
  }

  lemma FifteenTrimmed()
    ensures Trim("15 ") == "15"
  {
    assert "15 " == "15" + [' '];
    TrimTrailingBlank("15");
  }

  lemma FifteenValue()
    ensures ParseInt("15") == Int(15)
  {
    assert NumToString(Int(15)) == "15";
    ParseIntOfNumToString(Int(15));
  }

  /** "3 X 12 + 12" takes the "X" rule: three sets, and the repetitions stop at the first space. */
  lemma SpacedXWithPlus()
    ensures Classify("3 X 12 + 12") == Success(Counts(Int(3), Int(12), None))
  {
    var d := "3 X 12 + 12";
    assert d == "3 " + "X" + " 12 + 12";
    NotIncludes(d, "min");
    XRuleOf("3 ", " 12 + 12");
    ThreeText();
    TwelvePlusText();
    TwelveValue();
  }

  lemma ThreeText()
    ensures Trim("3 ") == "3" && ParseInt("3") == Int(3)
  {
    assert "3 " == "3" + [' '];
    TrimTrailingBlank("3");
    assert NumToString(Int(3)) == "3";
    ParseIntOfNumToString(Int(3));
  }

  lemma TwelvePlusText()
    ensures TextBefore(Trim(TextBefore(" 12 + 12", 'X')), ' ') == "12"
  {
    TwelvePlusNoX();
    TwelvePlusTrimmed();
    TwelvePlusFirstWord();
  }

  lemma TwelvePlusNoX()
    ensures TextBefore(" 12 + 12", 'X') == " 12 + 12"
  {
    TextBeforeAbsent(" 12 + 12", 'X');
  }

  lemma TwelvePlusTrimmed()
    ensures Trim(" 12 + 12") == "12 + 12"
  {
    assert " 12 + 12" == [' '] + "12 + 12";
    TrimLeadingBlank("12 + 12");
  }

  lemma TwelvePlusFirstWord()
    ensures TextBefore("12 + 12", ' ') == "12"
  {
    assert "12 + 12" == "12" + [' '] + "+ 12";
    TextBeforeSep("12", ' ', "+ 12");
  }

  /** A lower-case "x" matches no rule: "4x12" is one set of one. */
  lemma LowerCaseX()
    ensures Classify("4x12") == Success(Defaults)
  {
    var d := "4x12";
    NotIncludes(d, "min");
    NotIncludes(d, "X");
    NotIncludes(d, "-");
    NotIncludes(d, "+");
  }

  /** "30 min" is a time of thirty minutes. */
  lemma ThirtyMinutes()
    ensures Classify("30 min") == Success(Counts(Int(1), Int(1), Some(Int(30))))
  {
    ThirtyIncludesMin();
    ThirtyDigits();
    ThirtyValue();
  }

  lemma ThirtyIncludesMin()
    ensures Includes("30 min", "min")
  {
    var d := "30 min";
    assert "min" <= d[3..];
    IncludesAt(d, "min", 3);
  }

  lemma ThirtyDigits()
    ensures DigitsOnly("30 min") == "30"
  {
    var d := "30 min";
    assert d == "30" + " min";
    DigitsOnlyAppend("30", " min");
    DigitsOnlyOfNoDigits(" min");
  }

  lemma ThirtyValue()
    ensures ParseInt("30") == Int(30)
  {
    assert NumToString(Int(30)) == "30";
    ParseIntOfNumToString(Int(30));
  }

  /** "3 + 3" throws. */
  lemma PlusThrows()
    ensures Classify("3 + 3") == Failure(UndefinedSplit)
  {
    var d := "3 + 3";
    NotIncludes(d, "min");
    NotIncludes(d, "X");
    NotIncludes(d, "-");
    PlusIncluded();
  }

  lemma PlusIncluded()
    ensures Includes("3 + 3", "+")
  {
    var d := "3 + 3";
    assert "+" <= d[2..];
    IncludesAt(d, "+", 2);
  }

  /** The text of a number is made of a sign, digits and the letters of "NaN". */
  lemma NumTextChars(x: Num)
    ensures forall c | c in NumToString(x) :: c == '-' || c == 'N' || c == 'a' || IsDecimalDigit(c)
  {
  }

  /** The text of a number has no white space to trim. */
  lemma NumTextTrimmed(x: Num)
    ensures Trim(NumToString(x)) == NumToString(x)
  {
    var s := NumToString(x);
    NumTextChars(x);
    assert s[0] in s && s[|s| - 1] in s;
    TrimKept(s);
  }

  /**
   * The export's weight descriptor `${sets}X${reps}` reads back, by the "X"
   * rule, as the same sets and repetitions, for every integral number and NaN.
   */
  lemma WeightDescriptorRoundTrip(sets: Num, reps: Num)
    ensures Classify(NumToString(sets) + "X" + NumToString(reps)) == Success(Counts(sets, reps, None))
  {
    var s, r := NumToString(sets), NumToString(reps);
    assert 'X' !in s && 'X' !in r && ' ' !in r by {
      NumTextChars(sets);
      NumTextChars(reps);
    }
    assert !Includes(s + "X" + r, "min") by {
      NumTextChars(sets);
      NumTextChars(reps);
      assert 'm' !in s + "X" + r;
      NotIncludes(s + "X" + r, "min");
    }
    XRuleOf(s, r);
    assert TextBefore(Trim(TextBefore(r, 'X')), ' ') == r by {
      TextBeforeAbsent(r, 'X');
      NumTextTrimmed(reps);
      TextBeforeAbsent(r, ' ');
    }
    assert Trim(s) == s by {
      NumTextTrimmed(sets);
    }
    assert ParseInt(s) == sets && ParseInt(r) == reps by {
      ParseIntOfNumToString(sets);
      ParseIntOfNumToString(reps);
    }
  }

  /** The export's cardio descriptor `${time}min` reads back as the same time, for every natural time. */
  lemma CardioDescriptorRoundTrip(t: nat)
    ensures Classify(NatToString(t) + "min") == Success(Counts(Int(1), Int(1), Some(Int(t))))
  {
    var s := NatToString(t);
    MinTextIncludesMin(s);
    MinTextDigits(s);
    ParseIntOfNumToString(Int(t));
  }

  /** A text ending in "min" includes "min". */
  lemma MinTextIncludesMin(s: string)
    ensures Includes(s + "min", "min")
  {
    var d := s + "min";
    assert "min" <= d[|s|..];
    IncludesAt(d, "min", |s|);
  }

  /** The digits of a digit string followed by "min" are that string. */
  lemma MinTextDigits(s: string)
    requires forall i | 0 <= i < |s| :: IsDecimalDigit(s[i])
    ensures DigitsOnly(s + "min") == s
  {
    DigitsOnlyAppend(s, "min");
    MinHasNoDigits();
    assert s + "" == s;
  }

  lemma MinHasNoDigits()
    ensures DigitsOnly("min") == ""
  {
    DigitsOnlyOfNoDigits("min");
  }

  // The extension dispatch and the filter before storing.

  /** The two ways a file is read. */
  datatype Route = SpreadsheetPath | JsonPath

  /** `name.split('.').pop()?.toLowerCase()`: the lower-cased text after the last ".". */
  function Extension(name: string): (e: string)
    ensures '.' !in name ==> e == ToLowerAscii(name)
  {
    var parts := Split(name, '.');
    if '.' !in name then SplitWithoutSeparator(name, '.'); ToLowerAscii(parts[|parts| - 1])
    else ToLowerAscii(parts[|parts| - 1])
  }

  /** "xlsx", "xls" and "csv" files are read as spreadsheets, everything else as JSON. */
  function Dispatch(name: string): (r: Route)
    ensures r == SpreadsheetPath <==> Extension(name) in {"xlsx", "xls", "csv"}
    ensures r == JsonPath <==> Extension(name) !in {"xlsx", "xls", "csv"}
  {
    var e := Extension(name);
    if e == "xlsx" || e == "xls" || e == "csv" then SpreadsheetPath else JsonPath
  }

  /** Only the text after the last "." decides the path, in any letter case. */
  lemma DispatchByLastExtension(base: string, ext: string)
    requires '.' !in ext
    ensures var e := ToLowerAscii(ext);
            Dispatch(base + "." + ext) == if e == "xlsx" || e == "xls" || e == "csv" then SpreadsheetPath else JsonPath
  {
    assert base + "." + ext == base + ['.'] + ext;
    SplitLast(base, '.', ext);
  }

  /** A name without "." is its own extension. */
  lemma DispatchWithoutDot(name: string)
    requires '.' !in name
    ensures Dispatch(name) == if ToLowerAscii(name) in {"xlsx", "xls", "csv"} then SpreadsheetPath else JsonPath
  {
  }

  /** So a file named just "csv" is read as a spreadsheet. */
  lemma BareCsvName()
    ensures Dispatch("csv") == SpreadsheetPath
  {
    assert Extension("csv") == "csv" by {
      ToLowerAsciiOfLower("csv");
    }
  }

  /** `training.name && training.exercises`: a non-empty name and an exercise list (even an empty one). */
  predicate ShouldCreate(p: PartialTraining)
    ensures ShouldCreate(p) <==> p.name.Some? && p.name.value != [] && p.exercises.Some?
  {
    Truthy(p.name) && p.exercises.Some?
  }

  /** `training as Training`: the record as it is handed to the hook. */
  function AsTraining(p: PartialTraining): (t: Training)
    requires ShouldCreate(p)
    ensures t.name == p.name.value && t.exercises == p.exercises.value
    ensures t.date == p.date && t.notes == p.notes && t.duration == p.duration
  {
    Training(p.id.GetOr(""), p.name.value, p.date, p.exercises.value, p.notes, p.duration)
  }

  /** The records that pass the filter, as trainings, in order. */
  function Selected(records: seq<PartialTraining>): (ts: seq<Training>)
    ensures |ts| <= |records|
  {
    if records == [] then []
    else
      var last := records[|records| - 1];
      Selected(records[..|records| - 1]) + (if ShouldCreate(last) then [AsTraining(last)] else [])
  }

  /** The trainings as the service stores them: the k-th one under the k-th fresh id. */
  function Stamp(ts: seq<Training>, ids: nat -> string): (r: seq<Training>)
    ensures |r| == |ts|
    ensures forall k | 0 <= k < |ts| :: r[k] == ts[k].(id := ids(k))
  {
    seq(|ts|, k requires 0 <= k < |ts| => ts[k].(id := ids(k)))
  }

  /** The number of creates before the first one that fails; `n` when none of the first `n` fails. */
  function FirstFault(n: nat, faults: nat -> Option<Thrown>): (k: nat)
    ensures k <= n
    ensures forall j | 0 <= j < k :: faults(j).None?
    ensures k < n ==> faults(k).Some?
  {
    if n == 0 then 0
    else
      var k := FirstFault(n - 1, faults);
      if k < n - 1 then k else if faults(n - 1).Some? then n - 1 else n
  }

  /** The trainings an import stores: the selected ones, up to the first create that fails. */
  function Imported(records: seq<PartialTraining>, ids: nat -> string, faults: nat -> Option<Thrown>): seq<Training> {
    var selected := Selected(records);
    Stamp(selected[..FirstFault(|selected|, faults)], ids)
  }

  /** The records a spreadsheet import stores from: none when reading or parsing throws. */
  function SheetRecords(sheet: Result<seq<Row>, Thrown>, uuid: nat -> string, now: int): seq<PartialTraining> {
    if sheet.Failure? then []
    else
      match Parse(sheet.value, uuid, now)
      case Failure(_) => []
      case Success(records) => records
  }

  /** The records a JSON import stores from: none when parsing throws. */
  function JsonRecords(parsed: Result<seq<PartialTraining>, Thrown>): seq<PartialTraining> {
    if parsed.Failure? then [] else parsed.value
  }

  /** The state of the import dialog: the chosen file, by name. */
  class ImportDialogState {
    var file: Option<string>
    const hook: TrainingState

    constructor (hook: TrainingState)
      ensures this.hook == hook && file == None
    {
      this.hook := hook;
      file := None;
    }

    /** `handleFileChange`: keeps the first chosen file; no file chosen keeps the old one. */
    method HandleFileChange(chosen: Option<string>)
      modifies this
      ensures file == if chosen.Some? then chosen else old(file)
    {
      if chosen.Some? {
        file := chosen;
      }
    }

    /**
     * The loop of `handleCSV` and `handleJson`: creates, in order, every record
     * with a name and an exercise list; the first create that throws ends the
     * loop. The k-th create gets the fresh id `ids(k)` and fails with `faults(k)`.
     */
    method CreateAll(records: seq<PartialTraining>, ids: nat -> string, faults: nat -> Option<Thrown>)
      returns (created: nat, thrown: Option<Thrown>)
      modifies hook, hook.service
      ensures var selected := Selected(records);
              && created == FirstFault(|selected|, faults)
              && thrown == (if created < |selected| then faults(created) else None)
              && (created == 0 ==> hook.service.stored == old(hook.service.stored))
              && (created > 0 ==> hook.service.stored == Some(old(hook.service.Trainings()) + Imported(records, ids, faults)))
      ensures old(hook.Mirrors()) ==> hook.Mirrors()
    {
      created := 0;
      thrown := None;
      ghost var base := hook.service.Trainings();
      for j := 0 to |records|
        invariant created == |Selected(records[..j])|
        invariant forall k | 0 <= k < created :: faults(k).None?
        invariant created == 0 ==> hook.service.stored == old(hook.service.stored)
        invariant created > 0 ==> hook.service.stored == Some(base + Stamp(Selected(records[..j]), ids))
        invariant old(hook.Mirrors()) ==> hook.Mirrors()
      {
        ghost var sofar := Selected(records[..j]);
        SelectedSnoc(records, j);
        var training := records[j];
        if ShouldCreate(training) {
          assert hook.service.Trainings() == base + Stamp(sofar, ids) by {
            if created == 0 {
              assert Stamp(sofar, ids) == [];
            }
          }
          var r := hook.CreateTraining(AsTraining(training), ids(created), faults(created));
          if r.Failure? {
            thrown := Some(r.error);
            ImportedUpToFault(records, j, ids, faults);
            return;
          }
          assert hook.service.stored == Some(base + Stamp(sofar, ids) + [AsTraining(training).(id := ids(created))]);
          StampSnoc(sofar, AsTraining(training), ids);
          assert base + Stamp(sofar, ids) + [AsTraining(training).(id := ids(created))] == base + Stamp(sofar + [AsTraining(training)], ids);
          created := created + 1;
        } else {
          assert sofar + [] == sofar;
        }
      }
      assert records[..|records|] == records;
      ImportedAll(records, ids, faults);
    }

    /** `handleCSV`: reads the rows, then stores the selected trainings; returns whether it navigated. */
    method HandleCsv(sheet: Result<seq<Row>, Thrown>, uuid: nat -> string, now: int,
                     ids: nat -> string, faults: nat -> Option<Thrown>) returns (navigated: bool)
      modifies hook, hook.service
      ensures var records := SheetRecords(sheet, uuid, now);
              var added := Imported(records, ids, faults);
              && (added == [] ==> hook.service.stored == old(hook.service.stored))
              && (added != [] ==> hook.service.stored == Some(old(hook.service.Trainings()) + added))
      ensures navigated <==> sheet.Success? && Parse(sheet.value, uuid, now).Success?
                             && FirstFault(|Selected(SheetRecords(sheet, uuid, now))|, faults) == |Selected(SheetRecords(sheet, uuid, now))|
      ensures old(hook.Mirrors()) ==> hook.Mirrors()
    {
      navigated := false;
      if sheet.Failure? {
        return;
      }
      var trainings := ProcessExcelData(sheet.value, uuid, now);
      if trainings.Failure? {
        return;
      }
      var created, thrown := CreateAll(trainings.value, ids, faults);
      navigated := thrown.None?;
    }

    /** `handleJson`: stores the selected records of the parsed file; returns whether it navigated. */
    method HandleJson(parsed: Result<seq<PartialTraining>, Thrown>, ids: nat -> string, faults: nat -> Option<Thrown>)
      returns (navigated: bool)
      modifies hook, hook.service
      ensures var added := Imported(JsonRecords(parsed), ids, faults);
              && (added == [] ==> hook.service.stored == old(hook.service.stored))
              && (added != [] ==> hook.service.stored == Some(old(hook.service.Trainings()) + added))
      ensures navigated <==> parsed.Success? && FirstFault(|Selected(parsed.value)|, faults) == |Selected(parsed.value)|
      ensures old(hook.Mirrors()) ==> hook.Mirrors()
    {
      navigated := false;
      if parsed.Failure? {
        return;
      }
      var created, thrown := CreateAll(parsed.value, ids, faults);
      navigated := thrown.None?;
    }

    /**
     * `handleFileUpload`: with no file chosen, does nothing; otherwise reads the
     * file on the path its extension picks, clears the choice and returns to
     * the list. `sheet` and `parsed` are what the spreadsheet reader and
     * `JSON.parse` make of the file's content.
     */
    method HandleFileUpload(sheet: Result<seq<Row>, Thrown>, parsed: Result<seq<PartialTraining>, Thrown>,
                            uuid: nat -> string, now: int, ids: nat -> string, faults: nat -> Option<Thrown>)
      returns (navigated: bool)
      modifies this, hook, hook.service
      ensures navigated == old(file).Some?
      ensures old(file).None? ==> file == None && hook.service.stored == old(hook.service.stored)
      ensures old(file).Some? ==> file == None
      ensures old(file).Some? ==>
                var records := if Dispatch(old(file).value) == SpreadsheetPath then SheetRecords(sheet, uuid, now) else JsonRecords(parsed);
                var added := Imported(records, ids, faults);
                && (added == [] ==> hook.service.stored == old(hook.service.stored))
                && (added != [] ==> hook.service.stored == Some(old(hook.service.Trainings()) + added))
      ensures old(hook.Mirrors()) ==> hook.Mirrors()
    {
      if file.None? {
        return false;
      }
      if Dispatch(file.value) == SpreadsheetPath {
        var _ := HandleCsv(sheet, uuid, now, ids, faults);
      } else {
        var _ := HandleJson(parsed, ids, faults);
      }
      file := None;
      navigated := true;
    }
  }

  /** Filtering keeps the relative order: the selection of a whole is the selections of its parts. */
  lemma {:induction false} SelectedPrefix(records: seq<PartialTraining>, j: nat)
    requires j <= |records|
    ensures Selected(records) == Selected(records[..j]) + Selected(records[j..])
  {
    if j < |records| {
      var init := records[..|records| - 1];
      SelectedPrefix(init, j);
      assert init[..j] == records[..j];
      assert init[j..] == records[j..][..|records[j..]| - 1];
    } else {
      assert records[..j] == records;
      assert records[j..] == [];
    }
  }

  /** The records up to and including position `j` select one more training when that record passes the filter. */
  lemma SelectedSnoc(records: seq<PartialTraining>, j: nat)
    requires j < |records|
    ensures Selected(records[..j + 1]) == Selected(records[..j]) + (if ShouldCreate(records[j]) then [AsTraining(records[j])] else [])
  {
    assert records[..j + 1][..j] == records[..j];
  }

  /** Stamping one more training gives it the next fresh id. */
  lemma StampSnoc(ts: seq<Training>, t: Training, ids: nat -> string)
    ensures Stamp(ts + [t], ids) == Stamp(ts, ids) + [t.(id := ids(|ts|))]
  {
  }

  /** When the create for record `j` is the first to fail, the import stored what was selected before it. */
  lemma ImportedUpToFault(records: seq<PartialTraining>, j: nat, ids: nat -> string, faults: nat -> Option<Thrown>)
    requires j < |records| && ShouldCreate(records[j])
    requires var n := |Selected(records[..j])|; (forall k | 0 <= k < n :: faults(k).None?) && faults(n).Some?
    ensures var selected, n := Selected(records), |Selected(records[..j])|;
            && FirstFault(|selected|, faults) == n < |selected|
            && Imported(records, ids, faults) == Stamp(Selected(records[..j]), ids)
  {
    var sofar := Selected(records[..j]);
    var selected := Selected(records);
    SelectedSnoc(records, j);
    SelectedPrefix(records, j + 1);
    assert selected[..|sofar|] == sofar;
  }

  /** When no create fails, the import stores every selected training. */
  lemma ImportedAll(records: seq<PartialTraining>, ids: nat -> string, faults: nat -> Option<Thrown>)
    requires forall k | 0 <= k < |Selected(records)| :: faults(k).None?
    ensures FirstFault(|Selected(records)|, faults) == |Selected(records)|
    ensures Imported(records, ids, faults) == Stamp(Selected(records), ids)
  {
    var selected := Selected(records);
    assert selected[..|selected|] == selected;
  }
}
