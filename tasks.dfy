/**
 * The in-memory task registry of the API: submitting a request queues a
 * pending task under a fresh id; processing marks it processing, runs the
 * service, and records a completed or failed result; the status query reads
 * one record and derives the duration; the health check counts the tasks in
 * processing. Ids are assumed fresh (they stand for random UUIDs) and time is
 * an abstract clock that only moves forward.
 */
module Tasks {
  import opened Wrappers
  import opened Schemas
  import opened Portal
  import Scraper
  import NotaCredito

  datatype Status = Pending | Processing | Completed | Failed

  /** The request a task was submitted with (`data`). */
  datatype Payload = Emision(emision: EmisionRequest) | NotaCreditoPayload(nota: NotaCreditoRequest)

  /** One registry record; timestamps are readings of the abstract clock. */
  datatype Task = Task(
    taskId: string,
    status: Status,
    data: Payload,
    createdAt: nat,
    startedAt: Option<nat>,
    completedAt: Option<nat>,
    result: Option<EmissionResult>)

  /** What a submission answers. */
  datatype TaskResponse = TaskResponse(taskId: string, status: Status, message: string, createdAt: nat)

  /** What a status query answers; the duration may be negative when a task was started again after it completed. */
  datatype StatusResponse = StatusResponse(
    taskId: string,
    status: Status,
    result: Option<EmissionResult>,
    startedAt: Option<nat>,
    completedAt: Option<nat>,
    durationSeconds: Option<int>)

  const EmisionQueued := "Comprobante en cola para procesamiento"
  const NotaQueued := "Nota de crédito en cola para procesamiento"
  const NotFound := "Tarea no encontrada"

  /** A freshly submitted record. */
  function NewTask(id: string, data: Payload, now: nat): Task {
    Task(id, Pending, data, now, None, None, None)
  }

  /** The fields a record holds in each state. */
  predicate Coherent(t: Task) {
    match t.status
    case Pending => t.startedAt.None? && t.completedAt.None? && t.result.None?
    case Processing => t.startedAt.Some?
    case Completed => t.startedAt.Some? && t.completedAt.Some? && t.result.Some? && t.result.value.Success()
    case Failed => t.startedAt.Some? && t.completedAt.Some? && t.result.Some? && !t.result.value.Success()
  }

  /** The lifecycle's timestamps in order: created, then started, then completed once settled. */
  predicate InOrder(t: Task) {
    && (t.startedAt.Some? ==> t.createdAt <= t.startedAt.value)
    && ((t.status.Completed? || t.status.Failed?) && t.startedAt.Some? && t.completedAt.Some? ==>
          t.startedAt.value <= t.completedAt.value)
  }

  /** The record once processing has begun at `now`; the completion time and result of an earlier run stay. */
  function Started(t: Task, now: nat): Task {
    t.(status := Processing, startedAt := Some(now))
  }

  /** The result stored for a service call: what it returned, or `{success: False, error}` for what escaped it. */
  function StoredResult(exec: Execution): (r: EmissionResult)
    ensures exec.Returned? ==> r == exec.result
    ensures exec.Raised? ==> r == EmissionResult.Failed(exec.fault)
  {
    match exec
    case Returned(result) => result
    case Raised(fault) => EmissionResult.Failed(fault)
  }

  /** The record once the service call `exec` has ended at `now`. */
  function Settled(t: Task, now: nat, exec: Execution): Task {
    t.(status := if StoredResult(exec).Success() then Completed else Status.Failed,
       result := Some(StoredResult(exec)),
       completedAt := Some(now))
  }

  /**
   * After processing, the record is completed exactly when the service
   * reported success and failed otherwise, both timestamps and a result are
   * set, an exception becomes `Failed(fault)`, and the identity, request and
   * creation time are kept.
   */
  lemma SettledAfterStart(t: Task, start: nat, now: nat, exec: Execution)
    ensures var s := Settled(Started(t, start), now, exec);
      && Coherent(s)
      && (s.status == Completed <==> exec.Returned? && exec.result.Success())
      && (s.status == Status.Failed <==> !(exec.Returned? && exec.result.Success()))
      && s.startedAt == Some(start) && s.completedAt == Some(now) && s.result.Some?
      && (exec.Raised? ==> s.status == Status.Failed && s.result == Some(EmissionResult.Failed(exec.fault)))
      && (exec.Returned? ==> s.result == Some(exec.result))
      && s.taskId == t.taskId && s.data == t.data && s.createdAt == t.createdAt
  {
  }

  /**
   * One run keeps the timestamps in order exactly when the clock does not go
   * back: started no earlier than created, settled no earlier than started.
   */
  lemma LifecycleInOrder(t: Task, start: nat, now: nat, exec: Execution)
    ensures InOrder(Started(t, start)) <==> t.createdAt <= start
    ensures InOrder(Settled(Started(t, start), now, exec)) <==> t.createdAt <= start <= now
  {
  }

  /** The answer to a status query about record `t`. */
  function StatusOf(t: Task): (r: StatusResponse)
    ensures r.taskId == t.taskId && r.status == t.status && r.result == t.result
    ensures r.startedAt == t.startedAt && r.completedAt == t.completedAt
    ensures r.durationSeconds.Some? <==> t.startedAt.Some? && t.completedAt.Some?
    ensures r.durationSeconds.Some? ==> r.durationSeconds.value == t.completedAt.value - t.startedAt.value
  {
    var duration := if t.startedAt.Some? && t.completedAt.Some? then Some(t.completedAt.value - t.startedAt.value) else None;
    StatusResponse(t.taskId, t.status, t.result, t.startedAt, t.completedAt, duration)
  }

  /** A task processed once reports as duration the time the service call took. */
  lemma DurationOfProcessing(t: Task, start: nat, elapsed: nat, exec: Execution)
    ensures StatusOf(Settled(Started(t, start), start + elapsed, exec)).durationSeconds == Some(elapsed)
    ensures StatusOf(NewTask(t.taskId, t.data, start)).durationSeconds.None?
  {
  }

  /** The ids of the records in processing. */
  function ActiveIds(tasks: map<string, Task>): set<string> {
    set id | id in tasks && tasks[id].status == Processing
  }

  /** The health check's `active_tasks`: how many records are in processing. */
  function ActiveCount(tasks: map<string, Task>): (n: nat)
    ensures n <= |tasks|
  {
    ActiveIdsWithin(tasks);
    |ActiveIds(tasks)|
  }

  lemma ActiveIdsWithin(tasks: map<string, Task>)
    ensures ActiveIds(tasks) <= tasks.Keys && |ActiveIds(tasks)| <= |tasks|
  {
    assert ActiveIds(tasks) <= tasks.Keys;
    SubsetCardinality(ActiveIds(tasks), tasks.Keys);
  }

  lemma {:induction false} SubsetCardinality(a: set<string>, b: set<string>)
    requires a <= b
    ensures |a| <= |b|
  {
    if a != {} {
      var x :| x in a;
      SubsetCardinality(a - {x}, b - {x});
    }
  }

  /**
   * Writing one record changes the count by what that record contributes:
   * it loses the old record's share and gains the new one's.
   */
  lemma ActiveCountUpdate(tasks: map<string, Task>, id: string, t: Task)
    ensures ActiveCount(tasks[id := t]) ==
            ActiveCount(tasks)
            - (if id in tasks && tasks[id].status == Processing then 1 else 0)
            + (if t.status == Processing then 1 else 0)
  {
    var before, after := ActiveIds(tasks), ActiveIds(tasks[id := t]);
    assert after - {id} == before - {id};
    assert id in before <==> id in tasks && tasks[id].status == Processing;
    assert id in after <==> t.status == Processing;
    RemoveOne(before, id);
    RemoveOne(after, id);
  }

  lemma RemoveOne(s: set<string>, x: string)
    ensures |s| == |s - {x}| + (if x in s then 1 else 0)
  {
    if x in s {
      assert s == (s - {x}) + {x};
    } else {
      assert s - {x} == s;
    }
  }

  /** Submitting does not change the count; beginning a pending task raises it by one; settling a processing task lowers it by one. */
  lemma ActiveCountLifecycle(tasks: map<string, Task>, id: string, data: Payload, now: nat, exec: Execution)
    ensures id !in tasks ==> ActiveCount(tasks[id := NewTask(id, data, now)]) == ActiveCount(tasks)
    ensures id in tasks && tasks[id].status == Pending ==>
              ActiveCount(tasks[id := Started(tasks[id], now)]) == ActiveCount(tasks) + 1
    ensures id in tasks && tasks[id].status == Processing ==>
              ActiveCount(tasks[id := Settled(tasks[id], now, exec)]) == ActiveCount(tasks) - 1
  {
    ActiveCountUpdate(tasks, id, NewTask(id, data, now));
    if id in tasks {
      ActiveCountUpdate(tasks, id, Started(tasks[id], now));
      ActiveCountUpdate(tasks, id, Settled(tasks[id], now, exec));
    }
  }

  /** Writing a record twice leaves the second write. */
  lemma OverwriteRecord(tasks: map<string, Task>, id: string, first: Task, second: Task)
    ensures tasks[id := first][id := second] == tasks[id := second]
  {
  }

  /** `send_billing_sunat`, seen from the registry: what it hands back, and when it reports success. */
  method RunBilling(launched: Result<Driver, Fault>, request: EmisionRequest) returns (exec: Execution)
    modifies if launched.Ok? then {launched.value} else {}
    ensures launched.Err? ==> exec == Returned(EmissionResult.Failed(launched.error))
    ensures launched.Ok? && exec.Returned? ==>
              (exec.result.Success() <==> Scraper.BillingGoesThrough(launched.value, old(launched.value.trace), request))
  {
    ghost var n;
    exec, n := Scraper.SendBillingSunat(launched, request);
  }

  /** `send_nota_credito_sunat`, seen from the registry. */
  method RunNotaCredito(launched: Result<Driver, Fault>, request: NotaCreditoRequest) returns (exec: Execution)
    modifies if launched.Ok? then {launched.value} else {}
    ensures launched.Err? ==> exec == Returned(EmissionResult.Failed(launched.error))
    ensures launched.Ok? && exec.Returned? ==>
              (exec.result.Success() <==> NotaCredito.NotaGoesThrough(launched.value, old(launched.value.trace), request))
  {
    ghost var n;
    exec, n := NotaCredito.SendNotaCreditoSunat(launched, request);
  }

  class TaskStore {
    /** `tasks_storage`: every submitted task, by id. */
    var tasks: map<string, Task>
    /** The abstract clock: a reading of the current time. */
    var clock: nat

    /**
     * Every record is filed under its own id, holds the fields of its state,
     * has its timestamps in lifecycle order, and was stamped no later than now.
     */
    ghost predicate Valid()
      reads this
    {
      forall id :: id in tasks ==>
        && tasks[id].taskId == id
        && Coherent(tasks[id])
        && InOrder(tasks[id])
        && tasks[id].createdAt <= clock
        && (tasks[id].startedAt.Some? ==> tasks[id].startedAt.value <= clock)
        && (tasks[id].completedAt.Some? ==> tasks[id].completedAt.value <= clock)
    }

    constructor (now: nat)
      ensures Valid() && tasks == map[] && clock == now
    {
      tasks := map[];
      clock := now;
    }

    /** Time passes. */
    method Advance(dt: nat)
      requires Valid()
      modifies this
      ensures Valid() && tasks == old(tasks) && clock == old(clock) + dt
    {
      clock := clock + dt;
    }

    /** `get_task_status`: the record's fields and duration, or "Tarea no encontrada" for an unknown id. */
    function GetTaskStatus(id: string): (r: Result<StatusResponse, string>)
      reads this
      ensures r.Err? <==> id !in tasks
      ensures r.Err? ==> r.error == NotFound
      ensures r.Ok? ==> r.value == StatusOf(tasks[id]) && r.value.taskId == tasks[id].taskId
    {
      if id in tasks then Ok(StatusOf(tasks[id])) else Err(NotFound)
    }

    /** The health check's `active_tasks`. */
    function ActiveTasks(): (n: nat)
      reads this
      ensures n <= |tasks|
    {
      ActiveCount(tasks)
    }

    /** Queue a request under the fresh id `id`: a pending record, and nothing else changes. */
    method Submit(id: string, data: Payload, message: string) returns (response: TaskResponse)
      requires Valid() && id !in tasks
      modifies this
      ensures Valid()
      ensures tasks == old(tasks)[id := NewTask(id, data, old(clock))] && clock == old(clock)
      ensures response == TaskResponse(id, Pending, message, old(clock))
      ensures ActiveTasks() == old(ActiveTasks())
    {
      ActiveCountUpdate(tasks, id, NewTask(id, data, clock));
      tasks := tasks[id := NewTask(id, data, clock)];
      response := TaskResponse(id, Pending, message, clock);
    }

    /** `emitir_comprobante`: queue an emission. */
    method SubmitEmision(id: string, request: EmisionRequest) returns (response: TaskResponse)
      requires Valid() && id !in tasks
      modifies this
      ensures Valid()
      ensures tasks == old(tasks)[id := NewTask(id, Emision(request), old(clock))] && clock == old(clock)
      ensures response == TaskResponse(id, Pending, EmisionQueued, old(clock))
    {
      response := Submit(id, Emision(request), EmisionQueued);
    }

    /** `emitir_nota_credito`: queue a credit note. */
    method SubmitNotaCredito(id: string, request: NotaCreditoRequest) returns (response: TaskResponse)
      requires Valid() && id !in tasks
      modifies this
      ensures Valid()
      ensures tasks == old(tasks)[id := NewTask(id, NotaCreditoPayload(request), old(clock))] && clock == old(clock)
      ensures response == TaskResponse(id, Pending, NotaQueued, old(clock))
    {
      response := Submit(id, NotaCreditoPayload(request), NotaQueued);
    }

    /** The first half of processing: status "processing" and the start time; only that record changes. */
    method BeginProcessing(id: string)
      requires Valid() && id in tasks
      modifies this
      ensures Valid()
      ensures tasks == old(tasks)[id := Started(old(tasks)[id], old(clock))] && clock == old(clock)
    {
      tasks := tasks[id := Started(tasks[id], clock)];
    }

    /** The second half: the stored status and result follow what the service call did, then the completion time. */
    method FinishProcessing(id: string, exec: Execution)
      requires Valid() && id in tasks && tasks[id].status == Processing
      modifies this
      ensures Valid()
      ensures tasks == old(tasks)[id := Settled(old(tasks)[id], old(clock), exec)] && clock == old(clock)
    {
      var t := tasks[id];
      var result := StoredResult(exec);
      t := t.(status := if result.Success() then Completed else Status.Failed, result := Some(result));
      t := t.(completedAt := Some(clock));
      tasks := tasks[id := t];
    }

    /**
     * `process_emission`: for a known id, begin, run `send_billing_sunat`
     * on the browser it opens (`launched`), let `elapsed` pass, and settle
     * the record. `request` is the one stored with the task. For an unknown
     * id the first write raises a KeyError and so does the handler's:
     * nothing runs and nothing changes.
     */
    method ProcessEmission(id: string, request: EmisionRequest, launched: Result<Driver, Fault>, elapsed: nat)
      returns (ran: Option<Execution>)
      requires Valid()
      requires id in tasks ==> tasks[id].data == Emision(request)
      modifies this, if launched.Ok? then {launched.value} else {}
      ensures Valid()
      ensures id !in old(tasks) ==> ran.None? && tasks == old(tasks) && clock == old(clock)
      ensures id !in old(tasks) && launched.Ok? ==> launched.value.trace == old(launched.value.trace)
      ensures id in old(tasks) ==>
                && ran.Some? && clock == old(clock) + elapsed
                && tasks == old(tasks)[id := Settled(Started(old(tasks)[id], old(clock)), old(clock) + elapsed, ran.value)]
      ensures id in old(tasks) && launched.Err? ==> ran == Some(Returned(EmissionResult.Failed(launched.error)))
      ensures id in old(tasks) && launched.Ok? && ran.value.Returned? ==>
                (ran.value.result.Success() <==> Scraper.BillingGoesThrough(launched.value, old(launched.value.trace), request))
    {
      if id !in tasks {
        return None;
      }
      ghost var before := tasks;
      BeginProcessing(id);
      var exec := RunBilling(launched, request);
      Advance(elapsed);
      FinishProcessing(id, exec);
      OverwriteRecord(before, id, Started(before[id], old(clock)), Settled(Started(before[id], old(clock)), clock, exec));
      ran := Some(exec);
    }

    /** `process_nota_credito`: the same lifecycle around `send_nota_credito_sunat`. */
    method ProcessNotaCredito(id: string, request: NotaCreditoRequest, launched: Result<Driver, Fault>, elapsed: nat)
      returns (ran: Option<Execution>)
      requires Valid()
      requires id in tasks ==> tasks[id].data == NotaCreditoPayload(request)
      modifies this, if launched.Ok? then {launched.value} else {}
      ensures Valid()
      ensures id !in old(tasks) ==> ran.None? && tasks == old(tasks) && clock == old(clock)
      ensures id !in old(tasks) && launched.Ok? ==> launched.value.trace == old(launched.value.trace)
      ensures id in old(tasks) ==>
                && ran.Some? && clock == old(clock) + elapsed
                && tasks == old(tasks)[id := Settled(Started(old(tasks)[id], old(clock)), old(clock) + elapsed, ran.value)]
      ensures id in old(tasks) && launched.Err? ==> ran == Some(Returned(EmissionResult.Failed(launched.error)))
      ensures id in old(tasks) && launched.Ok? && ran.value.Returned? ==>
                (ran.value.result.Success() <==> NotaCredito.NotaGoesThrough(launched.value, old(launched.value.trace), request))
    {
      if id !in tasks {
        return None;
      }
      ghost var before := tasks;
      BeginProcessing(id);
      var exec := RunNotaCredito(launched, request);
      Advance(elapsed);
      FinishProcessing(id, exec);
      OverwriteRecord(before, id, Started(before[id], old(clock)), Settled(Started(before[id], old(clock)), clock, exec));
      ran := Some(exec);
    }
  }
}
