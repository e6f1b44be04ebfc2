/**
 * The editing handlers of the training detail page
 * (src/pages/training/TrainingPage.tsx). Each handler computes a new training
 * from the loaded one with the pure functions below and stores it in the
 * page's state, next to the `isEditing` flag. With no training loaded every
 * handler does nothing.
 */
module TrainingPage {
  import opened Wrappers
  import opened Js
  import opened TrainingTypes
  import opened SeqOps
  import opened Service
  import opened UseTraining

  /**
   * An input of the page with the value its `onChange` passes on: the name
   * and notes as typed, the kind as chosen, sets and reps as typed (parsed
   * with `parseInt`), weight and time as the number `parseFloat` made of the
   * typed text.
   */
  datatype ExerciseField =
    | NameField(name: string)
    | TypeField(kind: ExerciseType)
    | SetsField(setsText: string)
    | RepsField(repsText: string)
    | WeightField(weight: Num)
    | TimeField(time: Num)
    | NotesField(notes: string)

  /** `n || 0`: NaN and zero become zero, every other number is kept. */
  function OrZero(n: Num): (r: Num)
    ensures r.Int?
    ensures n.Int? && n.value != 0 ==> r == n
    ensures n.NaN? || n == Int(0) ==> r == Int(0)
  {
    if n.NaN? || n == Int(0) then Int(0) else n
  }

  /** `{ ...exercise, [field]: value }`: the exercise with the one field set. */
  function WithField(e: Exercise, f: ExerciseField): (r: Exercise)
    ensures r.id == e.id && r.images == e.images
    ensures r.name == (if f.NameField? then f.name else e.name)
    ensures r.kind == (if f.TypeField? then f.kind else e.kind)
    ensures r.sets == (if f.SetsField? then ParseInt(f.setsText) else e.sets)
    ensures r.reps == (if f.RepsField? then ParseInt(f.repsText) else e.reps)
    ensures f.WeightField? ==> r.weight == Some(OrZero(f.weight)) && r.weight.value.Int?
    ensures f.TimeField? ==> r.time == Some(OrZero(f.time)) && r.time.value.Int?
    ensures !f.WeightField? ==> r.weight == e.weight
    ensures !f.TimeField? ==> r.time == e.time
    ensures r.notes == (if f.NotesField? then Some(f.notes) else e.notes)
  {
    match f
    case NameField(v) => e.(name := v)
    case TypeField(v) => e.(kind := v)
    case SetsField(v) => e.(sets := ParseInt(v))
    case RepsField(v) => e.(reps := ParseInt(v))
    case WeightField(v) => e.(weight := Some(OrZero(v)))
    case TimeField(v) => e.(time := Some(OrZero(v)))
    case NotesField(v) => e.(notes := Some(v))
  }

  /** Typing a number's own text into the sets input stores exactly that number. */
  lemma SetsInputRoundTrip(e: Exercise, n: Num)
    ensures WithField(e, SetsField(NumToString(n))).sets == n
  {
    ParseIntOfNumToString(n);
  }

  /** The exercise `handleAddExercise` appends. */
  function BlankExercise(id: string): (e: Exercise)
    ensures e.id == id && e.name == "" && e.kind == Weight
    ensures e.sets == Int(1) && e.reps == Int(1)
    ensures e.weight == Some(Int(0)) && e.time == None && e.notes == Some("") && e.images == Some([])
  {
    Exercise(id, "", Weight, Int(1), Int(1), Some(Int(0)), None, Some(""), Some([]))
  }

  /** The training without the exercises that have the id; nothing else changes. */
  function DeleteExercise(t: Training, exerciseId: string): (r: Training)
    ensures r == t.(exercises := r.exercises)
    ensures forall i | 0 <= i < |r.exercises| :: r.exercises[i].id != exerciseId
    ensures forall e | e in t.exercises && e.id != exerciseId :: e in r.exercises
    ensures forall e | e in r.exercises :: e in t.exercises
  {
    t.(exercises := RemoveWhere(t.exercises, ExerciseId, exerciseId))
  }

  /** The training with one field of the exercise at `index` set; every other exercise is kept. */
  function ChangeField(t: Training, index: nat, f: ExerciseField): (r: Training)
    requires index < |t.exercises|
    ensures r == t.(exercises := r.exercises)
    ensures |r.exercises| == |t.exercises|
    ensures r.exercises[index] == WithField(t.exercises[index], f)
    ensures forall i | 0 <= i < |t.exercises| && i != index :: r.exercises[i] == t.exercises[i]
  {
    var updated := t.exercises;
    t.(exercises := updated[index := WithField(updated[index], f)])
  }

  /**
   * The training with the image at `imageIndex` dropped from the exercise at
   * `exerciseIndex`; unchanged when that exercise has no image list.
   */
  function RemoveImage(t: Training, exerciseIndex: nat, imageIndex: nat): (r: Training)
    requires exerciseIndex < |t.exercises|
    ensures t.exercises[exerciseIndex].images.None? ==> r == t
    ensures r == t.(exercises := r.exercises) && |r.exercises| == |t.exercises|
    ensures forall i | 0 <= i < |t.exercises| && i != exerciseIndex :: r.exercises[i] == t.exercises[i]
    ensures var e := t.exercises[exerciseIndex];
            e.images.Some? ==> r.exercises[exerciseIndex] == e.(images := Some(RemoveAt(e.images.value, imageIndex)))
  {
    var e := t.exercises[exerciseIndex];
    match e.images
    case None => t
    case Some(images) =>
      t.(exercises := t.exercises[exerciseIndex := e.(images := Some(RemoveAt(images, imageIndex)))])
  }

  /** The training whose exercise at `index` shows the newly chosen images instead of its old ones. */
  function SetImages(t: Training, index: nat, images: seq<string>): (r: Training)
    requires index < |t.exercises|
    ensures r == t.(exercises := r.exercises) && |r.exercises| == |t.exercises|
    ensures r.exercises[index] == t.exercises[index].(images := Some(images))
    ensures forall i | 0 <= i < |t.exercises| && i != index :: r.exercises[i] == t.exercises[i]
  {
    t.(exercises := t.exercises[index := t.exercises[index].(images := Some(images))])
  }

  /** The training with a blank weight exercise appended. */
  function AddExercise(t: Training, freshId: string): (r: Training)
    ensures r == t.(exercises := r.exercises)
    ensures |r.exercises| == |t.exercises| + 1 && r.exercises[..|t.exercises|] == t.exercises
    ensures var e := r.exercises[|t.exercises|];
            && e.id == freshId && e.name == "" && e.kind == Weight
            && e.sets == Int(1) && e.reps == Int(1) && e.weight == Some(Int(0))
            && e.time == None && e.notes == Some("") && e.images == Some([])
  {
    t.(exercises := t.exercises + [BlankExercise(freshId)])
  }

  /** Dropping an image keeps the others in their order. */
  lemma RemoveImageKeepsOrder(images: seq<string>, k: nat)
    requires k < |images|
    ensures RemoveAt(images, k) == images[..k] + images[k + 1..]
  {
    var r, t := RemoveAt(images, k), images[..k] + images[k + 1..];
    assert |r| == |t|;
    forall i | 0 <= i < |r|
      ensures r[i] == t[i]
    {
      if i < k {
        assert r[i] == r[..k][i];
      } else {
        assert r[i] == r[k..][i - k];
      }
    }
  }


  /** Deleting an exercise twice is the same as deleting it once. */
  lemma DeleteExerciseIdempotent(t: Training, exerciseId: string)
    ensures DeleteExercise(DeleteExercise(t, exerciseId), exerciseId) == DeleteExercise(t, exerciseId)
  {
    RemoveWhereIdempotent(t.exercises, ExerciseId, exerciseId);
  }

  /** What the page shows. */
  datatype View = Loading | ErrorText(message: string) | NotFoundText | Details(training: Training)

  /** The page's early returns: loading first, then the error, then the missing training. */
  function Render(loading: bool, error: Option<string>, training: Option<Training>): (v: View)
    ensures v.Details? <==> !loading && !Truthy(error) && training.Some?
    ensures v.Details? ==> v.training == training.value
    ensures v.ErrorText? <==> !loading && Truthy(error)
    ensures v.ErrorText? ==> Some(v.message) == error
    ensures v.Loading? <==> loading
  {
    if loading then Loading
    else if Truthy(error) then ErrorText(error.value)
    else if training.None? then NotFoundText
    else Details(training.value)
  }

  class TrainingPageState {
    var training: Option<Training>
    var isEditing: bool
    const hook: TrainingState

    /** The page before anything is loaded. */
    constructor (hook: TrainingState)
      ensures this.hook == hook && training == None && !isEditing
    {
      this.hook := hook;
      training := None;
      isEditing := false;
    }

    /** The effect that loads the training named by the route's id, if there is one. */
    method Load(routeId: Option<string>, fault: Option<Thrown>)
      modifies this, hook
      ensures isEditing == old(isEditing)
      ensures routeId.None? ==> training == old(training)
      ensures routeId.Some? && fault.None? ==> training == FindFirst(hook.service.Trainings(), TrainingId, routeId.value)
      ensures routeId.Some? && fault.Some? ==> training == None
    {
      if routeId.Some? {
        var data := hook.GetTrainingById(routeId.value, fault);
        training := data;
      }
    }

    /** `handleDeleteExercise`. */
    method HandleDeleteExercise(exerciseId: string)
      modifies this
      ensures isEditing == old(isEditing)
      ensures training == if old(training).None? then None else Some(DeleteExercise(old(training).value, exerciseId))
    {
      if training.Some? {
        training := Some(DeleteExercise(training.value, exerciseId));
      }
    }

    /** `handleInputChange`: the page only passes the index of a displayed exercise. */
    method HandleInputChange(index: nat, f: ExerciseField)
      requires training.Some? ==> index < |training.value.exercises|
      modifies this
      ensures isEditing == old(isEditing)
      ensures training == if old(training).None? then None else Some(ChangeField(old(training).value, index, f))
    {
      if training.Some? {
        training := Some(ChangeField(training.value, index, f));
      }
    }

    /** `handleRemoveImage`: the page only passes the index of a displayed exercise. */
    method HandleRemoveImage(exerciseIndex: nat, imageIndex: nat)
      requires training.Some? ==> exerciseIndex < |training.value.exercises|
      modifies this
      ensures isEditing == old(isEditing)
      ensures training == if old(training).None? then None else Some(RemoveImage(old(training).value, exerciseIndex, imageIndex))
    {
      if training.Some? {
        training := Some(RemoveImage(training.value, exerciseIndex, imageIndex));
      }
    }

    /**
     * `handleImageChange`: `converted` is the outcome of reading the chosen
     * files as data URLs, or `None` when the input gives no file list; a
     * failed read changes nothing.
     */
    method HandleImageChange(index: nat, converted: Option<Result<seq<string>, Thrown>>)
      requires training.Some? ==> index < |training.value.exercises|
      modifies this
      ensures isEditing == old(isEditing)
      ensures old(training).Some? && converted.Some? && converted.value.Success? ==>
                training == Some(SetImages(old(training).value, index, converted.value.value))
      ensures old(training).None? || converted.None? || converted.value.Failure? ==> training == old(training)
    {
      if training.Some? && converted.Some? {
        match converted.value
        case Success(images) =>
          training := Some(SetImages(training.value, index, images));
        case Failure(_) =>
      }
    }

    /** `handleAddExercise`: appends a blank exercise and turns editing on. */
    method HandleAddExercise(freshId: string)
      modifies this
      ensures old(training).None? ==> training == None && isEditing == old(isEditing)
      ensures old(training).Some? ==> training == Some(AddExercise(old(training).value, freshId)) && isEditing
    {
      if training.Some? {
        training := Some(AddExercise(training.value, freshId));
        isEditing := true;
      }
    }

    /** `handleCancel`: leaves editing mode; the edits made so far stay in place. */
    method HandleCancel()
      modifies this
      ensures !isEditing && training == old(training)
    {
      isEditing := false;
    }

    /** `handleStartEditing`. */
    method HandleStartEditing()
      modifies this
      ensures isEditing && training == old(training)
    {
      isEditing := true;
    }

    /** `handleEdit`: saves the training through the hook and leaves editing mode only when that succeeds. */
    method HandleEdit(fault: Option<Thrown>) returns (saved: bool)
      modifies this, hook, hook.service
      ensures training == old(training)
      ensures old(training).None? ==> !saved && isEditing == old(isEditing) && hook.service.stored == old(hook.service.stored)
      ensures old(training).Some? ==> saved == (fault.None? && HasId(old(hook.service.Trainings()), old(training).value.id))
      ensures isEditing == (old(isEditing) && !saved)
      ensures saved ==> hook.service.stored == Some(old(hook.service.Trainings())[FindIndex(old(hook.service.Trainings()), TrainingId, old(training).value.id) := old(training).value])
      ensures !saved ==> hook.service.stored == old(hook.service.stored)
    {
      saved := false;
      if training.Some? {
        var t := training.value;
        var r := hook.UpdateTraining(t.id, t, fault);
        if r.Success? {
          isEditing := false;
          saved := true;
        }
      }
    }

    /** `handleDeleteTraining`: deletes the training; the page navigates to the list when that succeeds. */
    method HandleDeleteTraining(fault: Option<Thrown>) returns (navigate: bool)
      modifies hook, hook.service
      ensures navigate == (old(training).Some? && fault.None?)
      ensures navigate ==> hook.service.stored == Some(RemoveWhere(old(hook.service.Trainings()), TrainingId, training.value.id))
      ensures !navigate ==> hook.service.stored == old(hook.service.stored)
    {
      navigate := false;
      if training.Some? {
        var thrown := hook.DeleteTraining(training.value.id, fault);
        navigate := thrown.None?;
      }
    }
  }
}
