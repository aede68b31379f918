/**
 * The kernel's application state (operations/src/app_state.rs): one
 * operation manager per open file, keyed by its path, and the one user id
 * of this kernel instance, under which every undo event is begun, undone and
 * redone. Every file operation answers NotFound for a path that was never
 * initialised.
 *
 * The user id (a fresh UUID in the source) and the entities' refresh
 * function are parameters. update_deps and update_all_deps hand their work
 * to the scheduler and return at once; the scheduler is a queue of jobs
 * here, its own object apart from every file's, run one at a time by
 * RunNextJob. The source panics on a failed job; the model drops the
 * error.
 */
module AppStates {
  import opened Base
  import opened GeometryKernel
  import opened DataModel
  import opened Objects
  import opened Database
  import opened Undo
  import opened Dependencies
  import opened Operations

  /** The edit set_ref performs: the entity's own set_ref; an entity without references reports ObjLacksTrait. */
  function SetRefEdit(index: nat, result: RefGeometry, other: GeometryId): (f: Edit)
    ensures forall o :: HasUpdateFromRefs(o) ==> f(o) == (SetRef(o, index, result, other), Success)
  {
    (o: Obj) => if HasUpdateFromRefs(o) then (SetRef(o, index, result, other), Success) else (o, Err(ObjLacksTrait))
  }

  /** A deferred refresh handed to the scheduler. */
  datatype Job =
    | UpdateDepsJob(file: string, id: RefID)
    | UpdateAllDepsJob(file: string, ids: seq<RefID>)

  /** The scheduler's queue: jobs spawned and not yet run, oldest first. */
  class Scheduler {
    var jobs: seq<Job>

    constructor ()
      ensures jobs == []
    {
      jobs := [];
    }
  }

  class AppState {
    var files: map<string, OperationManager>
    const userId: RefID
    const refresh: Refresh
    const scheduler: Scheduler

    /** The objects of one file's manager; nothing for an unknown path. */
    ghost function FileRepr(file: string): set<object>
      reads this
    {
      if file in files then {files[file]} + files[file].Repr else {}
    }

    /** Every manager is valid, and no two files share an object. */
    ghost predicate Valid()
      reads this, (set f | f in files :: files[f]), (set f, o | f in files && o in files[f].Repr :: o)
    {
      (forall f :: f in files ==> files[f].Valid()) &&
      (forall f, g :: f in files && g in files && f != g ==> FileRepr(f) !! FileRepr(g))
    }

    /** The scheduler and the state itself belong to no file. */
    lemma Apart(file: string)
      requires Valid()
      ensures scheduler !in FileRepr(file) && this !in FileRepr(file)
    {
      if file in files {
        assert files[file].Owns();
      }
    }

    lemma AllApart()
      requires Valid()
      ensures forall f :: scheduler !in FileRepr(f)
    {
      forall f {
        Apart(f);
      }
    }

    constructor (userId: RefID, refresh: Refresh)
      ensures Valid() && files == map[] && fresh(scheduler) && scheduler.jobs == []
      ensures this.userId == userId && this.refresh == refresh
    {
      files := map[];
      scheduler := new Scheduler();
      this.userId := userId;
      this.refresh := refresh;
    }

    /** init_file: a new, empty manager for the path, replacing any manager it had. */
    method InitFile(file: string)
      requires Valid()
      modifies this
      ensures Valid()
      ensures file in files && files == old(files)[file := files[file]]
      ensures fresh(files[file]) && fresh(files[file].Repr)
      ensures files[file].data.db.db == map[] && files[file].data.pending.events == map[]
      ensures files[file].data.undo.stack == [] && files[file].data.undo.redoStack == []
      ensures files[file].deps.pubSubs == map[] && files[file].updates == [[]]
    {
      var m := new OperationManager(refresh);
      assert forall g :: g in files ==> FileRepr(g) !! ({m} + m.Repr);
      files := files[file := m];
    }

    method BeginUndoEvent(file: string, desc: string, freshId: RefID) returns (r: Result<RefID>)
      requires Valid()
      modifies FileRepr(file)
      ensures Valid()
      ensures file !in files ==> r == Err(NotFound)
      ensures file in files ==> files[file].BeganEvent(userId, desc, freshId, r)
    {
      if file !in files {
        return Err(NotFound);
      }
      r := files[file].BeginUndoEvent(userId, desc, freshId);
      forall g | g in files && g != file
        ensures files[g].Valid()
      {
        assert FileRepr(g) !! FileRepr(file);
      }
    }

    method EndUndoEvent(file: string, eventId: RefID) returns (r: Status)
      requires Valid()
      modifies FileRepr(file)
      ensures Valid()
      ensures file !in files ==> r == Err(NotFound)
      ensures file in files ==> files[file].EndedEvent(eventId, r)
    {
      if file !in files {
        return Err(NotFound);
      }
      r := files[file].EndUndoEvent(eventId);
      forall g | g in files && g != file
        ensures files[g].Valid()
      {
        assert FileRepr(g) !! FileRepr(file);
      }
    }

    /** undo_latest: the latest event of this kernel's user. */
    method UndoLatest(file: string) returns (r: Status, ghost changedOrder: seq<RefID>, ghost depOrder: seq<RefID>)
      requires Valid()
      modifies FileRepr(file)
      ensures Valid()
      ensures file !in files ==> r == Err(NotFound)
      ensures file in files ==> files[file].UndidLatest(userId, r, changedOrder, depOrder)
    {
      changedOrder, depOrder := [], [];
      if file !in files {
        return Err(NotFound), [], [];
      }
      r, changedOrder, depOrder := files[file].UndoLatest(userId);
      forall g | g in files && g != file
        ensures files[g].Valid()
      {
        assert FileRepr(g) !! FileRepr(file);
      }
    }

    method RedoLatest(file: string) returns (r: Status, ghost changedOrder: seq<RefID>, ghost depOrder: seq<RefID>)
      requires Valid()
      modifies FileRepr(file)
      ensures Valid()
      ensures file !in files ==> r == Err(NotFound)
      ensures file in files ==> files[file].RedidLatest(userId, r, changedOrder, depOrder)
    {
      changedOrder, depOrder := [], [];
      if file !in files {
        return Err(NotFound), [], [];
      }
      r, changedOrder, depOrder := files[file].RedoLatest(userId);
      forall g | g in files && g != file
        ensures files[g].Valid()
      {
        assert FileRepr(g) !! FileRepr(file);
      }
    }

    method SuspendEvent(file: string, eventId: RefID) returns (r: Status)
      requires Valid()
      modifies FileRepr(file)
      ensures Valid()
      ensures file !in files ==> r == Err(NotFound)
      ensures file in files ==> files[file].SuspendedEvent(eventId, r)
    {
      if file !in files {
        return Err(NotFound);
      }
      r := files[file].SuspendEvent(eventId);
      forall g | g in files && g != file
        ensures files[g].Valid()
      {
        assert FileRepr(g) !! FileRepr(file);
      }
    }

    method ResumeEvent(file: string, eventId: RefID) returns (r: Status)
      requires Valid()
      modifies FileRepr(file)
      ensures Valid()
      ensures file !in files ==> r == Err(NotFound)
      ensures file in files ==> files[file].ResumedEvent(eventId, r)
    {
      if file !in files {
        return Err(NotFound);
      }
      r := files[file].ResumeEvent(eventId);
      forall g | g in files && g != file
        ensures files[g].Valid()
      {
        assert FileRepr(g) !! FileRepr(file);
      }
    }

    method TakeUndoSnapshot(file: string, eventId: RefID, key: RefID) returns (r: Status)
      requires Valid()
      modifies FileRepr(file)
      ensures Valid()
      ensures file !in files ==> r == Err(NotFound)
      ensures file in files ==> files[file].TookSnapshot(eventId, key, r)
    {
      if file !in files {
        return Err(NotFound);
      }
      r := files[file].TakeUndoSnapshot(eventId, key);
      forall g | g in files && g != file
        ensures files[g].Valid()
      {
        assert FileRepr(g) !! FileRepr(file);
      }
    }

    method AddObj(file: string, eventId: RefID, obj: Obj) returns (r: Status)
      requires Valid()
      modifies FileRepr(file)
      ensures Valid()
      ensures file !in files ==> r == Err(NotFound)
      ensures file in files ==> files[file].AddedObject(eventId, obj, r)
    {
      if file !in files {
        return Err(NotFound);
      }
      r := files[file].AddObject(eventId, obj);
      forall g | g in files && g != file
        ensures files[g].Valid()
      {
        assert FileRepr(g) !! FileRepr(file);
      }
    }

    method ModifyObj(file: string, eventId: RefID, id: RefID, callback: Edit) returns (r: Status)
      requires Valid()
      modifies FileRepr(file)
      ensures Valid()
      ensures file !in files ==> r == Err(NotFound)
      ensures files == old(files) && scheduler.jobs == old(scheduler.jobs)
      ensures file in files ==> files[file].ModifiedObject(eventId, id, callback, r)
      ensures file in files ==> files[file].deps.pubSubs == old(files[file].deps.pubSubs)
    {
      Apart(file);
      if file !in files {
        return Err(NotFound);
      }
      r := files[file].ModifyObj(eventId, id, callback);
      forall g | g in files && g != file
        ensures files[g].Valid()
      {
        assert FileRepr(g) !! FileRepr(file);
      }
    }

    method DeleteObj(file: string, eventId: RefID, id: RefID) returns (r: Result<Obj>, ghost order: seq<RefID>)
      requires Valid()
      modifies FileRepr(file)
      ensures Valid()
      ensures file !in files ==> r == Err(NotFound)
      ensures file in files ==> files[file].DeletedObject(eventId, id, r, order)
    {
      order := [];
      if file !in files {
        return Err(NotFound), [];
      }
      r, order := files[file].DeleteObj(eventId, id);
      forall g | g in files && g != file
        ensures files[g].Valid()
      {
        assert FileRepr(g) !! FileRepr(file);
      }
    }

    /**
     * get_obj, which the entity operations call: app_state.rs does not define
     * it, so it is routed like the other file operations, to the store of the
     * file's manager.
     */
    function GetObj(file: string, id: RefID): (r: Result<Obj>)
      reads this, if file in files then {files[file], files[file].data, files[file].data.db} else {}
      ensures file !in files ==> r == Err(NotFound)
      ensures file in files ==> (r.Ok? <==> id != NIL && id in files[file].data.db.db)
      ensures file in files && r.Ok? ==> r.value == files[file].data.db.db[id]
      ensures r.Err? ==> r.error == NotFound
    {
      if file !in files then Err(NotFound) else files[file].GetObj(id)
    }

    /** copy_obj, likewise missing from app_state.rs and routed to the manager's copy_obj. */
    method CopyObj(file: string, eventId: RefID, id: RefID, copyId: RefID) returns (r: Result<RefID>)
      requires Valid()
      modifies FileRepr(file)
      ensures Valid()
      ensures file !in files ==> r == Err(NotFound)
      ensures files == old(files) && scheduler.jobs == old(scheduler.jobs)
      ensures r.Ok? ==> r == Ok(copyId)
      ensures file in files ==> files[file].CopiedObject(eventId, id, copyId, r)
    {
      if file !in files {
        return Err(NotFound);
      }
      r := files[file].CopyObj(eventId, id, copyId);
      forall g | g in files && g != file
        ensures files[g].Valid()
      {
        assert FileRepr(g) !! FileRepr(file);
      }
    }

    /**
     * set_ref, likewise missing from app_state.rs: a modification of the
     * object under the event that points one of its references at the given
     * geometry of another object.
     */
    method SetRef(file: string, eventId: RefID, id: RefID, index: nat, result: RefGeometry, other: GeometryId) returns (r: Status)
      requires Valid()
      modifies FileRepr(file)
      ensures Valid()
      ensures file !in files ==> r == Err(NotFound)
      ensures files == old(files) && scheduler.jobs == old(scheduler.jobs)
      ensures file in files ==> files[file].ModifiedObject(eventId, id, SetRefEdit(index, result, other), r)
    {
      r := ModifyObj(file, eventId, id, SetRefEdit(index, result, other));
    }

    /** update_deps: the refresh is spawned, not run; the caller gets nothing back. */
    method UpdateDeps(file: string, id: RefID)
      requires Valid()
      modifies scheduler
      ensures Valid()
      ensures scheduler.jobs == old(scheduler.jobs) + [UpdateDepsJob(file, id)]
    {
      AllApart();
      scheduler.jobs := scheduler.jobs + [UpdateDepsJob(file, id)];
    }

    method UpdateAllDeps(file: string, ids: seq<RefID>)
      requires Valid()
      modifies scheduler
      ensures Valid()
      ensures scheduler.jobs == old(scheduler.jobs) + [UpdateAllDepsJob(file, ids)]
    {
      AllApart();
      scheduler.jobs := scheduler.jobs + [UpdateAllDepsJob(file, ids)];
    }

    /** The objects the oldest job may change. */
    ghost function NextJobRepr(): set<object>
      reads this, scheduler
    {
      if scheduler.jobs == [] then {} else FileRepr(scheduler.jobs[0].file)
    }

    /** One job as the scheduler runs it: the file's refresh when the path is known, nothing otherwise; its result is dropped. */
    method RunJob(job: Job) returns (ghost order: seq<RefID>)
      requires Valid()
      modifies FileRepr(job.file)
      ensures Valid() && files == old(files) && scheduler.jobs == old(scheduler.jobs)
      ensures job.file in files ==>
        match job
        case UpdateDepsJob(file, id) => files[file].UpdatedDeps(id, Success, order)
        case UpdateAllDepsJob(file, ids) => files[file].UpdatedAllDeps(ids, Success, order)
    {
      Apart(job.file);
      order := [];
      if job.file in files {
        var m := files[job.file];
        var dropped: Status;
        match job {
          case UpdateDepsJob(_, id) =>
            dropped, order := m.UpdateDeps(id);
          case UpdateAllDepsJob(_, ids) =>
            dropped, order := m.UpdateAllDeps(ids);
        }
        forall g | g in files && g != job.file
          ensures files[g].Valid()
        {
          assert FileRepr(g) !! FileRepr(job.file);
        }
      }
    }

    /** The scheduler takes the oldest job off the queue and runs it. */
    method RunNextJob() returns (ghost order: seq<RefID>)
      requires Valid()
      modifies scheduler, NextJobRepr()
      ensures Valid() && files == old(files)
      ensures old(scheduler.jobs) == [] ==> scheduler.jobs == []
      ensures old(scheduler.jobs) != [] ==> scheduler.jobs == old(scheduler.jobs)[1..]
      ensures old(scheduler.jobs) != [] && old(scheduler.jobs)[0].file in files ==>
        match old(scheduler.jobs)[0]
        case UpdateDepsJob(file, id) => files[file].UpdatedDeps(id, Success, order)
        case UpdateAllDepsJob(file, ids) => files[file].UpdatedAllDeps(ids, Success, order)
    {
      AllApart();
      order := [];
      if scheduler.jobs == [] {
        return [];
      }
      var job := scheduler.jobs[0];
      scheduler.jobs := scheduler.jobs[1..];
      order := RunJob(job);
    }

    /** add_dep: Ok whenever the path is known. */
    method AddDep(file: string, publisher: RefID, sub: RefID) returns (r: Status)
      requires Valid()
      modifies FileRepr(file)
      ensures Valid()
      ensures file !in files ==> r == Err(NotFound)
      ensures file in files ==> r == Success && files[file].deps.pubSubs == Registered(old(files[file].deps.pubSubs), publisher, sub)
      ensures files == old(files) && scheduler.jobs == old(scheduler.jobs)
      ensures file in files ==> files[file].data.db.db == old(files[file].data.db.db) && files[file].updates == old(files[file].updates)
      ensures file in files ==> files[file].data.pending.events == old(files[file].data.pending.events)
    {
      if file !in files {
        return Err(NotFound);
      }
      files[file].AddDep(publisher, sub);
      forall g | g in files && g != file
        ensures files[g].Valid()
      {
        assert FileRepr(g) !! FileRepr(file);
      }
      r := Success;
    }

    method RemoveDep(file: string, publisher: RefID, sub: RefID) returns (r: Status)
      requires Valid()
      modifies FileRepr(file)
      ensures Valid()
      ensures file !in files ==> r == Err(NotFound)
      ensures file in files ==> r == Success && files[file].deps.pubSubs == Unsubscribed(old(files[file].deps.pubSubs), publisher, sub)
    {
      if file !in files {
        return Err(NotFound);
      }
      files[file].RemoveDep(publisher, sub);
      forall g | g in files && g != file
        ensures files[g].Valid()
      {
        assert FileRepr(g) !! FileRepr(file);
      }
      r := Success;
    }
  }
}
