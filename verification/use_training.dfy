/**
 * The `useTraining` hook (src/hooks/useTraining.ts): an in-memory copy of the
 * training list with `loading` and `error` flags, kept in step with the storage
 * service. Each call is one atomic step. The service model above cannot fail
 * except for an update of a missing id, so the storage failures it leaves out
 * (unreadable stored text, a full storage) come in as the parameter `fault`:
 * when present, the service call throws that value before writing anything.
 */
module UseTraining {
  import opened Wrappers
  import opened Js
  import opened TrainingTypes
  import opened SeqOps
  import opened Service

  /** The text the hook records for a thrown value. */
  function Message(t: Thrown): (m: string)
    ensures t.ErrorObject? ==> m == t.message
    ensures t.OtherValue? ==> m == "An error occurred"
  {
    match t
    case ErrorObject(_, message) => message
    case OtherValue => "An error occurred"
  }

  class TrainingState {
    var trainings: seq<Training>
    var loading: bool
    var error: Option<string>
    const service: TrainingService

    /** The hook's initial state: no trainings, not loading, no error. */
    constructor (service: TrainingService)
      ensures this.service == service
      ensures trainings == [] && !loading && error == None
    {
      this.service := service;
      trainings := [];
      loading := false;
      error := None;
    }

    /** The in-memory list equals the stored one. */
    ghost predicate Mirrors()
      reads this, service
    {
      trainings == service.Trainings()
    }

    /** `fetchTrainings`: replaces the list with the stored one, or records the failure. */
    method FetchTrainings(fault: Option<Thrown>)
      modifies this
      ensures !loading
      ensures fault.None? ==> trainings == service.Trainings() && error == None
      ensures fault.Some? ==> trainings == old(trainings) && error == Some(Message(fault.value))
    {
      loading := true;
      error := None;
      if fault.Some? {
        error := Some(Message(fault.value));
      } else {
        var data := service.GetAllTrainings();
        trainings := data;
      }
      loading := false;
    }

    /** `getTrainingById`: the stored training with the id; on failure records it and gives `undefined`. */
    method GetTrainingById(id: string, fault: Option<Thrown>) returns (r: Option<Training>)
      modifies this
      ensures !loading && trainings == old(trainings)
      ensures fault.None? ==> r == FindFirst(service.Trainings(), TrainingId, id) && error == None
      ensures fault.Some? ==> r == None && error == Some(Message(fault.value))
    {
      loading := true;
      error := None;
      if fault.Some? {
        error := Some(Message(fault.value));
        r := None;
      } else {
        r := service.GetTrainingById(id);
      }
      loading := false;
    }

    /** `createTraining`: stores the record under the fresh id and appends it to the list; rethrows a failure. */
    method CreateTraining(data: Training, freshId: string, fault: Option<Thrown>) returns (r: Result<Training, Thrown>)
      modifies this, service
      ensures !loading
      ensures fault.None? ==> && r == Success(data.(id := freshId))
                              && trainings == old(trainings) + [r.value]
                              && service.stored == Some(old(service.Trainings()) + [r.value])
                              && error == None
      ensures fault.Some? ==> && r == Failure(fault.value)
                              && trainings == old(trainings)
                              && service.stored == old(service.stored)
                              && error == Some(Message(fault.value))
      ensures old(Mirrors()) ==> Mirrors()
    {
      loading := true;
      error := None;
      if fault.Some? {
        error := Some(Message(fault.value));
        r := Failure(fault.value);
      } else {
        var created := service.CreateTraining(data, freshId);
        trainings := trainings + [created];
        r := Success(created);
      }
      loading := false;
    }

    /**
     * `updateTraining`: overwrites the stored training with the id and every
     * listed training with the id; a missing id or a failure is recorded and
     * rethrown with the list unchanged.
     */
    method UpdateTraining(id: string, data: Training, fault: Option<Thrown>) returns (r: Result<Training, Thrown>)
      modifies this, service
      ensures !loading
      ensures r.Success? ==> && fault.None? && r.value == data.(id := id)
                             && trainings == ReplaceWhere(old(trainings), TrainingId, id, r.value)
                             && FindIndex(old(service.Trainings()), TrainingId, id) >= 0
                             && service.stored == Some(old(service.Trainings())[FindIndex(old(service.Trainings()), TrainingId, id) := r.value])
                             && error == None
      ensures r.Failure? ==> && trainings == old(trainings)
                             && service.stored == old(service.stored)
                             && error == Some(Message(r.error))
      ensures fault.Some? ==> r == Failure(fault.value)
      ensures fault.None? ==> (r.Success? <==> HasId(old(service.Trainings()), id))
      ensures fault.None? && !HasId(old(service.Trainings()), id) ==> r == Failure(NotFound)
      ensures old(Mirrors()) && UniqueIds(old(trainings)) ==> Mirrors() && UniqueIds(trainings)
    {
      loading := true;
      error := None;
      if fault.Some? {
        r := Failure(fault.value);
      } else {
        ghost var before := service.Trainings();
        r := service.UpdateTraining(id, data);
        if r.Success? {
          trainings := ReplaceWhere(trainings, TrainingId, id, r.value);
          if old(Mirrors()) && UniqueIds(before) {
            UpdateKeepsIdsUnique(before, id, data);
            ReplaceWhereIsUpdateAtFirst(before, id, r.value);
          }
        }
      }
      if r.Failure? {
        error := Some(Message(r.error));
      }
      loading := false;
    }

    /** `deleteTraining`: removes every training with the id from the storage and from the list. */
    method DeleteTraining(id: string, fault: Option<Thrown>) returns (thrown: Option<Thrown>)
      modifies this, service
      ensures !loading && thrown == fault
      ensures fault.None? ==> && trainings == RemoveWhere(old(trainings), TrainingId, id)
                              && service.stored == Some(RemoveWhere(old(service.Trainings()), TrainingId, id))
                              && error == None
      ensures fault.Some? ==> && trainings == old(trainings)
                              && service.stored == old(service.stored)
                              && error == Some(Message(fault.value))
      ensures old(Mirrors()) ==> Mirrors()
    {
      loading := true;
      error := None;
      thrown := fault;
      if fault.Some? {
        error := Some(Message(fault.value));
      } else {
        service.DeleteTraining(id);
        trainings := RemoveWhere(trainings, TrainingId, id);
      }
      loading := false;
    }
  }

  /**
   * With unique ids, replacing every training with the id (the hook's `map`)
   * is the same as overwriting the first one (the service's indexed write).
   */
  lemma ReplaceWhereIsUpdateAtFirst(ts: seq<Training>, id: string, t: Training)
    requires UniqueIds(ts)
    ensures var i := FindIndex(ts, TrainingId, id);
            i >= 0 ==> ReplaceWhere(ts, TrainingId, id, t) == ts[i := t]
  {
    var i := FindIndex(ts, TrainingId, id);
    if i >= 0 {
      var r := ReplaceWhere(ts, TrainingId, id, t);
      forall j | 0 <= j < |ts|
        ensures r[j] == ts[i := t][j]
      {
        assert ts[j].id == id ==> j == i;
      }
    }
  }
}
