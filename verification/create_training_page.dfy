/**
 * The older page that creates a training set
 * (src/pages/create/create-training.page.tsx). The page keeps a list of
 * exercise entries that its buttons and inputs edit. On a valid submission it
 * merges one group into the map stored under the storage key `trainingData`,
 * replacing any group with the same reference. The map is modelled as a field:
 * `None` when the key is absent, otherwise the parsed map. Reading the chosen
 * image files as data URLs is the parameter `encode`, and a failed read is the
 * parameter `fault`.
 */
module CreateTrainingPage {
  import opened Wrappers
  import opened Js
  import opened SeqOps

  /** A value held by an exercise entry: typed text, a number, or `null`. */
  datatype Value = Text(text: string) | Number(n: int) | Null

  /** One entry of the page's exercise list: a record from field names to values. */
  type Entry = map<string, Value>

  /** The entry `addExercise` appends, which is also the page's first entry. */
  const NewExercise: Entry := map[
    "name" := Text(""),
    "example" := Null,
    "numberOfSets" := Number(1),
    "numberOfRepetitions" := Number(1),
    "weight" := Number(0),
    "restTime" := Number(0),
    "observations" := Text("")]

  /** `addExercise`: the list followed by one new entry. */
  function AddExercise(exercises: seq<Entry>): (r: seq<Entry>)
    ensures |r| == |exercises| + 1
    ensures r[..|exercises|] == exercises && r[|exercises|] == NewExercise
  {
    exercises + [NewExercise]
  }

  /**
   * `updateExercise`: the entry at `index` with `field` set to `value`. The
   * page only passes the index of an entry it shows.
   */
  function UpdateExercise(exercises: seq<Entry>, index: nat, field: string, value: Value): (r: seq<Entry>)
    requires index < |exercises|
    ensures |r| == |exercises|
    ensures forall i | 0 <= i < |exercises| && i != index :: r[i] == exercises[i]
    ensures r[index].Keys == exercises[index].Keys + {field}
    ensures r[index][field] == value
    ensures forall f | f in exercises[index] && f != field :: r[index][f] == exercises[index][f]
  {
    exercises[index := exercises[index][field := value]]
  }

  /**
   * `removeExercise`: the entries whose position differs from `index`, in
   * their order. An index past the end removes nothing.
   */
  function RemoveExercise(exercises: seq<Entry>, index: nat): (r: seq<Entry>)
    ensures index < |exercises| ==> |r| == |exercises| - 1
    ensures index < |exercises| ==> forall i | 0 <= i < |r| :: r[i] == exercises[if i < index then i else i + 1]
    ensures index >= |exercises| ==> r == exercises
  {
    var r := RemoveAt(exercises, index);
    assert index < |exercises| ==> forall i | index <= i < |r| :: r[i] == r[index..][i - index];
    r
  }

  /** Removing the entry just added gives the list back. */
  lemma RemoveUndoesAdd(exercises: seq<Entry>)
    ensures RemoveExercise(AddExercise(exercises), |exercises|) == exercises
  {
    var r := RemoveExercise(AddExercise(exercises), |exercises|);
    assert |r| == |exercises|;
    assert forall i | 0 <= i < |r| :: r[i] == AddExercise(exercises)[i];
  }

  /** A second change of the same field of the same entry overrides the first. */
  lemma UpdateOverrides(exercises: seq<Entry>, index: nat, field: string, first: Value, second: Value)
    requires index < |exercises|
    ensures UpdateExercise(UpdateExercise(exercises, index, field, first), index, field, second)
         == UpdateExercise(exercises, index, field, second)
  {
    var a := UpdateExercise(UpdateExercise(exercises, index, field, first), index, field, second);
    var b := UpdateExercise(exercises, index, field, second);
    assert a[index] == b[index];
  }

  /** An exercise as the form submits it: the typed texts and the chosen files. */
  datatype ExerciseInput = ExerciseInput(
    name: string,
    example: Option<string>,
    numberOfSets: string,
    numberOfRepetitions: string,
    weight: string,
    restTime: string,
    observations: string,
    image: seq<string>)

  /** What the form submits. */
  datatype FormData = FormData(groupName: string, groupReference: string, exercises: seq<ExerciseInput>)

  /** The rules the form checks before it submits. */
  datatype FormError =
    | GroupNameMissing
    | GroupReferenceInvalid
    | ExerciseIncomplete(index: nat)

  /**
   * An exercise passes its rules when the name, the image, the sets, the
   * repetitions, the weight and the rest time are given. The observations may
   * be left empty.
   */
  predicate ExerciseComplete(e: ExerciseInput) {
    e.name != "" && e.image != [] && e.numberOfSets != "" && e.numberOfRepetitions != ""
    && e.weight != "" && e.restTime != ""
  }

  /** The rules the form data breaks. */
  function FormErrors(form: FormData): (errors: set<FormError>)
    ensures GroupNameMissing in errors <==> form.groupName == ""
    ensures GroupReferenceInvalid in errors <==> |form.groupReference| != 1
    ensures forall i: nat :: ExerciseIncomplete(i) in errors <==> i < |form.exercises| && !ExerciseComplete(form.exercises[i])
  {
    (if form.groupName == "" then {GroupNameMissing} else {})
    + (if form.groupReference == "" || |form.groupReference| > 1 then {GroupReferenceInvalid} else {})
    + set i: nat | i < |form.exercises| && !ExerciseComplete(form.exercises[i]) :: ExerciseIncomplete(i)
  }

  /** An exercise as `onSubmit` stores it. */
  datatype SavedExercise = SavedExercise(
    name: string,
    example: Option<string>,
    numberOfSets: string,
    numberOfRepetitions: string,
    weight: string,
    restTime: string,
    observations: string,
    image: seq<string>)

  /** A stored group. */
  datatype Group = Group(groupName: string, groupReference: string, exercises: seq<SavedExercise>)

  /** The data URLs of the chosen files, in order. */
  function EncodeAll(files: seq<string>, encode: string -> string): (urls: seq<string>)
    ensures |urls| == |files|
    ensures forall i | 0 <= i < |files| :: urls[i] == encode(files[i])
  {
    if files == [] then [] else [encode(files[0])] + EncodeAll(files[1..], encode)
  }

  /** The submitted exercises as they are stored, in the submitted order. */
  function SaveExercises(inputs: seq<ExerciseInput>, encode: string -> string): (saved: seq<SavedExercise>)
    ensures |saved| == |inputs|
    ensures forall i | 0 <= i < |inputs| ::
              var e, s := inputs[i], saved[i];
              && s.name == e.name && s.example == e.example
              && s.numberOfSets == e.numberOfSets && s.numberOfRepetitions == e.numberOfRepetitions
              && s.weight == e.weight && s.restTime == e.restTime
              && s.observations == e.observations && s.image == EncodeAll(e.image, encode)
  {
    if inputs == [] then []
    else
      var e := inputs[0];
      [SavedExercise(e.name, e.example, e.numberOfSets, e.numberOfRepetitions, e.weight, e.restTime,
                     e.observations, EncodeAll(e.image, encode))]
      + SaveExercises(inputs[1..], encode)
  }

  /** The group a submission stores. */
  function SubmittedGroup(form: FormData, encode: string -> string): (g: Group)
    ensures g.groupName == form.groupName && g.groupReference == form.groupReference
    ensures g.exercises == SaveExercises(form.exercises, encode)
    ensures |g.exercises| == |form.exercises|
    ensures forall i | 0 <= i < |form.exercises| ::
              g.exercises[i].name == form.exercises[i].name
              && g.exercises[i].image == EncodeAll(form.exercises[i].image, encode)
  {
    Group(form.groupName, form.groupReference, SaveExercises(form.exercises, encode))
  }

  /**
   * `{ ...parsedData, [reference]: group }` over the stored map, an absent
   * map counting as empty. The group under `reference` is the new one; every
   * other group is kept as it was, and none is added.
   */
  function Merge(existing: Option<map<string, Group>>, reference: string, group: Group): (m: map<string, Group>)
    ensures reference in m && m[reference] == group
    ensures forall k | k != reference :: k in m <==> existing.Some? && k in existing.value
    ensures forall k | k != reference && k in m :: m[k] == existing.value[k]
    ensures existing.None? ==> m.Keys == {reference}
  {
    existing.GetOr(map[])[reference := group]
  }

  /** Submitting the same group twice stores what submitting it once does. */
  lemma MergeIdempotent(existing: Option<map<string, Group>>, reference: string, group: Group)
    ensures Merge(Some(Merge(existing, reference, group)), reference, group) == Merge(existing, reference, group)
  {
    var once := Merge(existing, reference, group);
    var twice := Merge(Some(once), reference, group);
    assert twice.Keys == once.Keys;
  }

  /** Groups under different references can be submitted in either order. */
  lemma MergeCommutes(existing: Option<map<string, Group>>, r1: string, g1: Group, r2: string, g2: Group)
    requires r1 != r2
    ensures Merge(Some(Merge(existing, r1, g1)), r2, g2) == Merge(Some(Merge(existing, r2, g2)), r1, g1)
  {
    var a := Merge(Some(Merge(existing, r1, g1)), r2, g2);
    var b := Merge(Some(Merge(existing, r2, g2)), r1, g1);
    assert a.Keys == b.Keys;
  }

  class CreateTrainingPageState {
    var exercises: seq<Entry>
    var trainingData: Option<map<string, Group>>

    /** The page opens with one new entry; the stored map is what it finds. */
    constructor (stored: Option<map<string, Group>>)
      ensures exercises == [NewExercise] && trainingData == stored
    {
      exercises := [NewExercise];
      trainingData := stored;
    }

    /** `addExercise`. */
    method HandleAddExercise()
      modifies this
      ensures exercises == AddExercise(old(exercises)) && trainingData == old(trainingData)
    {
      exercises := AddExercise(exercises);
    }

    /** `updateExercise`: the page only passes the index of an entry it shows. */
    method HandleUpdateExercise(index: nat, field: string, value: Value)
      requires index < |exercises|
      modifies this
      ensures exercises == UpdateExercise(old(exercises), index, field, value) && trainingData == old(trainingData)
    {
      exercises := UpdateExercise(exercises, index, field, value);
    }

    /** `removeExercise`. */
    method HandleRemoveExercise(index: nat)
      modifies this
      ensures exercises == RemoveExercise(old(exercises), index) && trainingData == old(trainingData)
    {
      exercises := RemoveExercise(exercises, index);
    }

    /**
     * `onSubmit`: stores the submitted group under its reference. A failed
     * read of an image throws before anything is written.
     */
    method OnSubmit(form: FormData, encode: string -> string, fault: Option<Thrown>) returns (thrown: Option<Thrown>)
      modifies this
      ensures thrown == fault && exercises == old(exercises)
      ensures fault.None? ==> trainingData == Some(Merge(old(trainingData), form.groupReference, SubmittedGroup(form, encode)))
      ensures fault.Some? ==> trainingData == old(trainingData)
    {
      var parsed := trainingData.GetOr(map[]);
      if fault.Some? {
        return fault;
      }
      var updated := SaveExercises(form.exercises, encode);
      trainingData := Some(parsed[form.groupReference := Group(form.groupName, form.groupReference, updated)]);
      thrown := None;
    }

    /** `handleSubmit(onSubmit)`: runs `onSubmit` only when the form breaks no rule, and reports the broken ones. */
    method HandleSubmit(form: FormData, encode: string -> string, fault: Option<Thrown>) returns (errors: set<FormError>, thrown: Option<Thrown>)
      modifies this
      ensures errors == FormErrors(form) && exercises == old(exercises)
      ensures errors != {} ==> thrown == None && trainingData == old(trainingData)
      ensures errors == {} ==> thrown == fault
      ensures errors == {} && fault.None? ==>
                && trainingData.Some? && |form.groupReference| == 1
                && trainingData.value == Merge(old(trainingData), form.groupReference, SubmittedGroup(form, encode))
    {
      errors := FormErrors(form);
      thrown := None;
      if errors == {} {
        thrown := OnSubmit(form, encode, fault);
      }
    }
  }
}
