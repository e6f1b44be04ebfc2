/** The records of the application's data model (src/types/training.ts). */
module TrainingTypes {
  import opened Wrappers
  import opened Js

  /** The exercise kinds `'weight' | 'cardio'`. */
  datatype ExerciseType = Weight | Cardio

  /**
   * One exercise of a training. `kind` is the source's `type` field. Numbers
   * are integral or NaN; `weight`, `time`, `notes` and `images` may be absent.
   */
  datatype Exercise = Exercise(
    id: string,
    name: string,
    kind: ExerciseType,
    sets: Num,
    reps: Num,
    weight: Option<Num>,
    time: Option<Num>,
    notes: Option<string>,
    images: Option<seq<string>>)

  /**
   * One training session; `date` is a timestamp. It is absent only for a
   * record imported from JSON without one, which the application stores as it is.
   */
  datatype Training = Training(
    id: string,
    name: string,
    date: Option<int>,
    exercises: seq<Exercise>,
    notes: Option<string>,
    duration: Option<int>)

  /**
   * `Partial<Training>`: a training as an imported JSON file may give it,
   * with any field missing.
   */
  datatype PartialTraining = PartialTraining(
    id: Option<string>,
    name: Option<string>,
    date: Option<int>,
    exercises: Option<seq<Exercise>>,
    notes: Option<string>,
    duration: Option<int>)

  /** The key the application looks exercises up by. */
  function ExerciseId(e: Exercise): string {
    e.id
  }

  /** The key the application looks trainings up by. */
  function TrainingId(t: Training): string {
    t.id
  }

  /** Some training of the list carries the id. */
  predicate HasId(ts: seq<Training>, id: string) {
    exists i | 0 <= i < |ts| :: ts[i].id == id
  }

  /** No two trainings of the list share an id. */
  predicate UniqueIds(ts: seq<Training>) {
    forall i, j | 0 <= i < j < |ts| :: ts[i].id != ts[j].id
  }
}
