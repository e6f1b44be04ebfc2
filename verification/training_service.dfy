/**
 * The storage service (src/services/training.service.ts): create, read,
 * update and delete over the one list of trainings kept under the storage key
 * "gym-app-trainings". The decoded value under that key is the field `stored`;
 * every change writes the whole list back to it.
 */
module Service {
  import opened Wrappers
  import opened Js
  import opened TrainingTypes
  import opened SeqOps

  /** The error `updateTraining` throws for an id that is not stored. */
  const NotFound: Thrown := ErrorObject("Error", "Training not found")

  class TrainingService {
    /** The list stored under the storage key; `None` while the key is absent. */
    var stored: Option<seq<Training>>

    /** The storage holds `initial` when the service is created. */
    constructor (initial: Option<seq<Training>>)
      ensures stored == initial
    {
      stored := initial;
    }

    /** `getTrainingsFromStorage`: the stored list, or the empty list when nothing is stored. */
    function Trainings(): (ts: seq<Training>)
      reads this
      ensures stored.None? ==> ts == []
      ensures stored.Some? ==> ts == stored.value
    {
      stored.GetOr([])
    }

    /** `getAllTrainings`. */
    method GetAllTrainings() returns (r: seq<Training>)
      ensures r == Trainings()
    {
      r := Trainings();
    }

    /** `getTrainingById`: the first stored training with the id, or nothing. */
    method GetTrainingById(id: string) returns (r: Option<Training>)
      ensures r == FindFirst(Trainings(), TrainingId, id)
    {
      var trainings := Trainings();
      r := FindFirst(trainings, TrainingId, id);
    }

    /** `createTraining`: appends the record under the fresh id and returns it. */
    method CreateTraining(data: Training, freshId: string) returns (r: Training)
      modifies this
      ensures r == data.(id := freshId)
      ensures stored == Some(old(Trainings()) + [r])
    {
      var trainings := Trainings();
      r := data.(id := freshId);
      trainings := trainings + [r];
      stored := Some(trainings);
    }

    /**
     * `updateTraining`: overwrites, in place, the first stored training with the
     * id, keeping that id; throws "Training not found" and writes nothing when
     * no training has it.
     */
    method UpdateTraining(id: string, data: Training) returns (r: Result<Training, Thrown>)
      modifies this
      ensures var i := FindIndex(old(Trainings()), TrainingId, id);
              if i < 0 then r == Failure(NotFound) && stored == old(stored)
              else r == Success(data.(id := id)) && stored == Some(old(Trainings())[i := data.(id := id)])
    {
      var trainings := Trainings();
      var index := FindIndex(trainings, TrainingId, id);
      if index == -1 {
        return Failure(NotFound);
      }
      var updated := data.(id := id);
      trainings := trainings[index := updated];
      stored := Some(trainings);
      r := Success(updated);
    }

    /** `deleteTraining`: writes back the list without the trainings that have the id. */
    method DeleteTraining(id: string)
      modifies this
      ensures stored == Some(RemoveWhere(old(Trainings()), TrainingId, id))
    {
      var trainings := Trainings();
      var filtered := RemoveWhere(trainings, TrainingId, id);
      stored := Some(filtered);
    }
  }

  /** The static field `TrainingService.instance` behind `getInstance`. */
  class InstanceSlot {
    var instance: TrainingService?

    constructor ()
      ensures instance == null
    {
      instance := null;
    }

    /**
     * `getInstance`: the first call creates the service over the storage as it
     * is then (`current`); every later call returns that same object.
     */
    method GetInstance(current: Option<seq<Training>>) returns (s: TrainingService)
      modifies this
      ensures old(instance) != null ==> s == old(instance)
      ensures old(instance) == null ==> fresh(s) && s.stored == current
      ensures instance == s
    {
      if instance == null {
        instance := new TrainingService(current);
      }
      s := instance;
    }
  }

  /** After a create under a fresh id, looking that id up finds the new training. */
  lemma CreateThenFind(ts: seq<Training>, t: Training)
    requires !HasId(ts, t.id)
    ensures FindFirst(ts + [t], TrainingId, t.id) == Some(t)
  {
    var s := ts + [t];
    var r := FindFirst(s, TrainingId, t.id);
    assert TrainingId(s[|ts|]) == t.id;
    var i :| 0 <= i < |s| && s[i] == r.value && TrainingId(s[i]) == t.id && forall j | 0 <= j < i :: TrainingId(s[j]) != t.id;
    if i < |ts| {
      assert ts[i].id == t.id;
    }
  }

  /** A create under an id not yet stored keeps the ids unique. */
  lemma CreateKeepsIdsUnique(ts: seq<Training>, data: Training, freshId: string)
    requires UniqueIds(ts) && !HasId(ts, freshId)
    ensures UniqueIds(ts + [data.(id := freshId)])
  {
  }

  /** An update keeps the id it overwrites, so the ids stay unique. */
  lemma UpdateKeepsIdsUnique(ts: seq<Training>, id: string, data: Training)
    requires UniqueIds(ts)
    ensures var i := FindIndex(ts, TrainingId, id);
            i >= 0 ==> UniqueIds(ts[i := data.(id := id)])
  {
  }

  /** Deleting keeps the ids unique. */
  lemma {:induction false} DeleteKeepsIdsUnique(ts: seq<Training>, id: string)
    requires UniqueIds(ts)
    ensures UniqueIds(RemoveWhere(ts, TrainingId, id))
  {
    if ts != [] {
      DeleteKeepsIdsUnique(ts[1..], id);
      var rest := RemoveWhere(ts[1..], TrainingId, id);
      assert forall x | x in rest :: x in ts[1..];
      assert forall x | x in ts[1..] :: x.id != ts[0].id;
    }
  }

  /** Deleting an id that is not stored leaves the list as it was. */
  lemma DeleteAbsentIsNoOp(ts: seq<Training>, id: string)
    requires !HasId(ts, id)
    ensures RemoveWhere(ts, TrainingId, id) == ts
  {
    RemoveWhereAbsent(ts, TrainingId, id);
  }
}
