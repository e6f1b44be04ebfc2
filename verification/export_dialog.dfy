/**
 * The spreadsheet export (src/components/header/ExportDialog.tsx): the rows
 * `exportToCSV` hands to the spreadsheet writer, one per training, each with
 * the training's name, its date as text and its exercises on one line.
 * `toLocaleDateString` depends on the locale and comes in as the parameter
 * `formatDate`; the rows reuse the import's cell type, so a row is its cells
 * in key order.
 */
module ExportDialog {
  import opened Wrappers
  import opened Js
  import opened TrainingTypes
  import opened ImportDialog

  const NameKey: string := "Nome do Treino"
  const DateKey: string := "Data"
  const ExercisesKey: string := "Exercícios"

  /** What `toLocaleDateString` gives a date built from `undefined`. */
  const InvalidDate: string := "Invalid Date"

  /** `${ex.time}min` for a cardio exercise, `${ex.sets}X${ex.reps}` for any other. */
  function Descriptor(e: Exercise): (d: string)
    ensures d != [] && ';' !in d
  {
    NumTextWithoutSemicolon(e.sets);
    NumTextWithoutSemicolon(e.reps);
    NumTextWithoutSemicolon(e.time.GetOr(NaN));
    if e.kind == Cardio then OptionalNumToString(e.time) + "min"
    else NumToString(e.sets) + "X" + NumToString(e.reps)
  }

  /** The text of a number holds no ";". */
  lemma NumTextWithoutSemicolon(x: Num)
    ensures ';' !in NumToString(x)
  {
    NumTextChars(x);
  }

  /** `${ex.name} (${reps})`: the name followed by the descriptor in brackets. */
  function Entry(e: Exercise): (s: string)
    ensures e.name <= s && s[|e.name|..] == " (" + Descriptor(e) + ")"
    ensures ';' in s <==> ';' in e.name
  {
    var tail := " (" + Descriptor(e) + ")";
    assert ';' !in tail;
    e.name + tail
  }

  /** The entries of a list of exercises, in order. */
  function Entries(exs: seq<Exercise>): (es: seq<string>)
    ensures |es| == |exs|
    ensures forall i | 0 <= i < |exs| :: es[i] == Entry(exs[i])
  {
    if exs == [] then [] else [Entry(exs[0])] + Entries(exs[1..])
  }

  /** The entries joined with "; "; a training without exercises gives "". */
  function ExercisesText(exs: seq<Exercise>): (text: string)
    ensures exs == [] <==> text == []
  {
    JoinHead(Entries(exs));
    Join(Entries(exs), "; ")
  }

  /** A join of one or more parts starts with the first part, so it is empty only when that part is. */
  lemma JoinHead(parts: seq<string>)
    ensures parts != [] && parts[0] != [] ==> Join(parts, "; ") != []
  {
    if parts != [] {
      assert parts[0] <= Join(parts, "; ");
    }
  }

  /**
   * Splitting the joined text on ";" gives the parts back, each after the
   * first with the blank the separator left in front of it.
   */
  lemma {:induction false} SplitJoined(parts: seq<string>)
    requires parts != []
    requires forall i | 0 <= i < |parts| :: ';' !in parts[i]
    ensures var pieces := Split(Join(parts, "; "), ';');
            && |pieces| == |parts| && pieces[0] == parts[0]
            && forall i | 1 <= i < |parts| :: pieces[i] == " " + parts[i]
  {
    if |parts| == 1 {
      SplitWithoutSeparator(parts[0], ';');
    } else {
      var rest := Join(parts[1..], "; ");
      SplitJoined(parts[1..]);
      var after := Split(rest, ';');
      assert Join(parts, "; ") == parts[0] + [';'] + (" " + rest);
      SplitAppend(parts[0], ';', " " + rest);
      assert (" " + rest)[1..] == rest;
      assert Split(" " + rest, ';') == [" " + after[0]] + after[1..];
    }
  }

  /**
   * When no exercise name holds a ";", the exercises column splits on ";"
   * into one piece per exercise, in order: the first entry, then each later
   * entry after a blank.
   */
  lemma ExercisesTextSplits(exs: seq<Exercise>)
    requires exs != []
    requires forall i | 0 <= i < |exs| :: ';' !in exs[i].name
    ensures var pieces := Split(ExercisesText(exs), ';');
            && |pieces| == |exs| && pieces[0] == Entry(exs[0])
            && forall i | 1 <= i < |exs| :: pieces[i] == " " + Entry(exs[i])
  {
    SplitJoined(Entries(exs));
  }

  /** `new Date(training.date).toLocaleDateString()`. */
  function DateText(date: Option<int>, formatDate: int -> string): (r: string)
    ensures date.None? ==> r == InvalidDate
    ensures date.Some? ==> r == formatDate(date.value)
  {
    match date
    case None => InvalidDate
    case Some(d) => formatDate(d)
  }

  /** The row of one training: its name, its date and its exercises, under these three keys in this order. */
  function ExportRow(t: Training, formatDate: int -> string): (row: Row)
    ensures |row| == 3 && row[0].key == NameKey && row[1].key == DateKey && row[2].key == ExercisesKey
    ensures Lookup(row, NameKey) == Some(t.name)
    ensures Lookup(row, DateKey) == Some(DateText(t.date, formatDate))
    ensures Lookup(row, ExercisesKey) == Some(ExercisesText(t.exercises))
  {
    [Cell(NameKey, t.name), Cell(DateKey, DateText(t.date, formatDate)), Cell(ExercisesKey, ExercisesText(t.exercises))]
  }

  /** The rows of `exportToCSV`: one per training, in the order of the list. */
  function ExportRows(ts: seq<Training>, formatDate: int -> string): (rows: seq<Row>)
    ensures |rows| == |ts|
    ensures forall i | 0 <= i < |ts| :: rows[i] == ExportRow(ts[i], formatDate)
  {
    if ts == [] then [] else [ExportRow(ts[0], formatDate)] + ExportRows(ts[1..], formatDate)
  }

  /**
   * A weight exercise's descriptor, read back by the import as the descriptor
   * of an exercise that is not cardio, gives back its sets and repetitions.
   */
  lemma WeightDescriptorReimports(e: Exercise, id: string)
    requires e.kind == Weight && !Includes(ToLowerAscii(e.name), "cardio")
    ensures var r := BuildExercise(id, e.name, Some(Descriptor(e)));
            && r.Success? && r.value.kind == Weight
            && r.value.sets == e.sets && r.value.reps == e.reps
  {
    var d := Descriptor(e);
    assert d == NumToString(e.sets) + "X" + NumToString(e.reps);
    assert Classify(d) == Success(Counts(e.sets, e.reps, None)) by {
      WeightDescriptorRoundTrip(e.sets, e.reps);
    }
  }

  /**
   * A cardio exercise with a positive whole number of minutes, read back by
   * the import as the descriptor of a cardio exercise, gives back its time.
   */
  lemma CardioDescriptorReimports(e: Exercise, id: string, t: nat)
    requires e.kind == Cardio && e.time == Some(Int(t)) && t > 0
    requires Includes(ToLowerAscii(e.name), "cardio")
    ensures var r := BuildExercise(id, e.name, Some(Descriptor(e)));
            && r.Success? && r.value.kind == Cardio && r.value.time == Some(Int(t))
  {
    var d := Descriptor(e);
    assert d == NatToString(t) + "min";
    assert Classify(d) == Success(Counts(Int(1), Int(1), Some(Int(t)))) by {
      CardioDescriptorRoundTrip(t);
    }
  }
}
