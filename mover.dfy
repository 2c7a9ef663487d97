/** The crane mover (asrs_lib/asrs_mover.py, class AsrsMover): one blocking
    job handshake with the PLC (send_job_blocking), one tick of the
    clear-request reactor (_monitor_clear_request) and one iteration of the
    main loop. The PLC and the database's failures are inputs: a Device value
    says what every read and wait of one job sees. */
module Mover {
  import opened Wrappers
  import opened Text
  import opened BasketId
  import opened Store
  import opened Command
  import opened Scheduler
  import opened App

  /** What the mover does to the PLC registers and the database, in order. */
  datatype Event =
    | CommandWritten(cmd: string)  // the command register takes cmd
    | SendSet(high: bool)          // the send strobe is set or reset
    | RegistersCleared             // _clear_cmd_exact: command and QR registers reset, strobes low
    | CompleteReply                // one pulse on the complete-reply line
    | ClearReply                   // one pulse on the clear-reply line
    | RowDeleted(id: int)          // delete_queue_row of the job's row
    | Committed(ok: bool)          // the occupancy update after ACK, and whether it went through

  /** What one job sees: the readiness check, for each attempt to find the
      previous command cleared whether ACK and completion were both seen low,
      whether the command write, the send strobe write, the strobe reset
      after a failed write and the ACK go through, whether the row delete
      raises, whether the strobe reset after ACK goes through (it is not
      guarded: when it raises, the exception leaves send_job_blocking),
      whether the occupancy update raises, the successive reads of the completion
      line before the 120 s timeout (None: the read raised), and the
      measured duration. */
  datatype Device = Device(
    ready: bool,
    priorClear: seq<bool>,
    cmdWriteOk: bool,
    sendWriteOk: bool,
    resetWriteOk: bool,
    acked: bool,
    deleteFails: bool,
    ackResetOk: bool,
    commitFails: bool,
    completePolls: seq<Option<bool>>,
    seconds: real)

  const MaxClearAttempts: nat := 3

  /** Attempt i finds ACK and completion low (unlisted attempts do not). */
  predicate PriorClear(d: Device, i: nat) {
    i < |d.priorClear| && d.priorClear[i]
  }

  /** The number of failed clear attempts before one succeeds, at most 3. */
  function FailedClears(d: Device): (n: nat)
    ensures n <= MaxClearAttempts
    ensures forall i | 0 <= i < n :: !PriorClear(d, i)
    ensures n < MaxClearAttempts ==> PriorClear(d, n)
  {
    if PriorClear(d, 0) then 0 else if PriorClear(d, 1) then 1 else if PriorClear(d, 2) then 2 else 3
  }

  /** The job got past the readiness check, the clearing of the previous
      command, the write and the ACK wait. */
  predicate Acked(d: Device) {
    d.ready && FailedClears(d) < MaxClearAttempts && d.cmdWriteOk && d.sendWriteOk && d.acked
  }

  /** The job got past the strobe reset after ACK, so it reaches the
      occupancy update, the completion wait and the bookkeeping. */
  predicate Finished(d: Device) {
    Acked(d) && d.ackResetOk
  }

  /** (row.get("basket") or "").strip() */
  function JobBasket(row: Row): string {
    if row.basket.None? then "" else Strip(row.basket.value)
  }

  /** The occupancy update after ACK goes through: the database does not
      raise, and for PUT move_put (without overwriting) succeeds. */
  predicate CommitOk(d: Device, shelves: Shelves, m: Method, shelfId: int, basket: string) {
    !d.commitFails && (m == Put ==> MovePutResult(shelves, shelfId, basket, false).Success?)
  }

  /** The shelf table after the occupancy update: move_put for PUT, mark_pick
      otherwise; a failed update changes nothing. */
  function CommitShelves(d: Device, shelves: Shelves, m: Method, shelfId: int, basket: string): Shelves {
    if d.commitFails then shelves
    else if m == Put then
      match MovePutResult(shelves, shelfId, basket, false)
      case Success(p) => p.0
      case Failure(_) => shelves
    else Vacate(shelves, shelfId)
  }

  /** n failed clear attempts: each clears the registers and pulses the
      complete reply. */
  function Retries(n: nat): (r: seq<Event>)
    ensures |r| == 2 * n
  {
    if n == 0 then [] else Retries(n - 1) + [RegistersCleared, CompleteReply]
  }

  /** The completion line reads high at some poll before the timeout. */
  predicate Completes(polls: seq<Option<bool>>) {
    exists i | 0 <= i < |polls| :: polls[i] == Some(true)
  }

  /** Reply and clear when completion was seen; nothing on a timeout. */
  function Completion(polls: seq<Option<bool>>): seq<Event> {
    if Completes(polls) then [CompleteReply, RegistersCleared] else []
  }

  /** The cleanup that runs whether the job completed or timed out. */
  const Cleanup: seq<Event> := [CompleteReply, RegistersCleared, CompleteReply]

  /** Everything send_job_blocking writes, in order, given whether the
      occupancy update went through. */
  function JobTrace(d: Device, cmd: string, rowId: int, committed: bool): (t: seq<Event>)
    ensures CommandWritten(cmd) in t <==> d.ready && FailedClears(d) < MaxClearAttempts && d.cmdWriteOk
    ensures RowDeleted(rowId) in t <==> Acked(d) && !d.deleteFails
    ensures Committed(committed) in t <==> Finished(d)
  {
    var retries := Retries(FailedClears(d));
    RetriesOnly(FailedClears(d));
    if !d.ready then []
    else if FailedClears(d) == MaxClearAttempts then retries
    else if !d.cmdWriteOk then retries + StrobeReset(d)
    else if !d.sendWriteOk then retries + [CommandWritten(cmd)] + StrobeReset(d)
    else if !d.acked then retries + [CommandWritten(cmd), SendSet(true), SendSet(false)]
    else retries + [CommandWritten(cmd), SendSet(true)] + AfterAck(d, rowId, committed)
  }

  /** The strobe reset after a command or strobe write that raised; its own
      failure is caught. */
  function StrobeReset(d: Device): seq<Event> {
    if d.resetWriteOk then [SendSet(false)] else []
  }

  /** What follows the ACK: the row delete, the strobe reset, the commit,
      the completion wait and the cleanup; a strobe reset that raises ends
      the job right after the delete. */
  function AfterAck(d: Device, rowId: int, committed: bool): seq<Event> {
    if d.ackResetOk then Deletion(d, rowId) + [Committed(committed)] + (Completion(d.completePolls) + Cleanup)
    else Deletion(d, rowId)
  }

  /** The row delete, unless it raises, then the strobe reset, unless it
      raises. */
  function Deletion(d: Device, rowId: int): seq<Event> {
    (if d.deleteFails then [] else [RowDeleted(rowId)]) + (if d.ackResetOk then [SendSet(false)] else [])
  }

  /** The queues (pick, put) after a job: its row leaves the queue of its
      method once the ACK came and the delete did not raise. */
  function JobQueues(d: Device, m: Method, rowId: int, pick: seq<Row>, put: seq<Row>): (seq<Row>, seq<Row>) {
    if !Acked(d) || d.deleteFails then (pick, put)
    else if m == Pick then (WithoutId(pick, rowId), put)
    else (pick, WithoutId(put, rowId))
  }

  /** The report handed to on_cycle_done. */
  function Report(m: Method, row: Row, seconds: real, ok: bool): CycleInfo {
    CycleInfo(Some(Lower(MethodName(m))), Some(JobBasket(row)), Some(seconds), ok)
  }

  /** last_durations after a job: the entry of the job's kind, if present,
      takes the duration. */
  function Durations(durations: Times, m: Method, seconds: real): Times {
    var kind := Lower(MethodName(m));
    if kind in durations then durations[kind := Some(seconds)] else durations
  }

  /** The command the last successful job sent. */
  datatype LastCmd = LastCmd(id: int, m: Method, basket: Option<string>, x: int, y: int, z: int, shelfId: int)

  /** One reactor tick's inputs: whether both clear nodes were configured,
      the read of the clear request (None: the read raised), whether the
      non-blocking lock acquire succeeded. */
  datatype Tick = Tick(nodesPresent: bool, req: Option<bool>, acquired: bool)

  /** One tick of _monitor_clear_request: the new _pending_clear and what
      the tick writes. */
  function ClearTick(pending: bool, t: Tick): (r: (bool, seq<Event>))
    ensures !t.nodesPresent ==> r == (pending, [])
    ensures ClearReply in r.1 <==> t.nodesPresent && t.req == Some(true)
    ensures RegistersCleared in r.1 <==> t.nodesPresent && t.acquired && (pending || t.req == Some(true))
    ensures r.0 ==> pending || t.req == Some(true)
    ensures t.nodesPresent && t.acquired ==> !r.0
  {
    if !t.nodesPresent then (pending, [])
    else if t.req == Some(true) then
      if t.acquired then (false, [ClearReply, RegistersCleared]) else (true, [ClearReply])
    else if pending && t.acquired then (false, [RegistersCleared])
    else (pending, [])
  }

  /** A series of ticks from the given _pending_clear. */
  function RunTicks(pending: bool, ticks: seq<Tick>): (r: (bool, seq<Event>))
    ensures r.0 ==> pending || exists i | 0 <= i < |ticks| :: ticks[i].req == Some(true)
    ensures ticks != [] && ticks[|ticks| - 1].nodesPresent && ticks[|ticks| - 1].acquired ==> !r.0
    ensures (forall i | 0 <= i < |ticks| :: !ticks[i].nodesPresent) ==> r == (pending, [])
    decreases |ticks|
  {
    if ticks == [] then (pending, [])
    else
      assert forall i | 1 <= i < |ticks| :: ticks[i] == ticks[1..][i - 1];
      assert (forall i | 0 <= i < |ticks| :: !ticks[i].nodesPresent) ==>
               !ticks[0].nodesPresent && forall i | 0 <= i < |ticks[1..]| :: !ticks[1..][i].nodesPresent;
      var (p1, e1) := ClearTick(pending, ticks[0]);
      var (p2, e2) := RunTicks(p1, ticks[1..]);
      assert e1 == [] && e2 == [] ==> e1 + e2 == [];
      (p2, e1 + e2)
  }

  class AsrsMover {
    const db: Pg
    var pendingClear: bool
    var lastDurations: Times
    var onCycleDone: ServiceApp?
    var lastCmd: Option<LastCmd>
    /** The loop's current_id, the sequence number of the next command. */
    var currentId: int
    /** What has been written to the PLC and the database so far. */
    var events: seq<Event>

    ghost predicate Valid()
      reads db
    {
      db.Valid()
    }

    constructor (db: Pg)
      requires db.Valid()
      ensures Valid() && this.db == db
      ensures !pendingClear && lastDurations == InitialTimes && onCycleDone == null
      ensures lastCmd == None && currentId == 0 && events == []
    {
      this.db := db;
      pendingClear := false;
      lastDurations := InitialTimes;
      onCycleDone := null;
      lastCmd := None;
      currentId := 0;
      events := [];
    }

    /** send_job_blocking: run one job through the PLC handshake. The queue
        row is deleted only after ACK, and occupancy committed only after
        the strobe reset that follows it; the result is whether that commit
        went through; durations and the callback are updated only for jobs
        that got that far. When the strobe reset after ACK raises, the
        source's exception is modelled as the result false: loop treats a
        raise and a false result alike (neither advances current_id). */
    method SendJobBlocking(cmd: string, m: Method, row: Row, shelfId: int, d: Device) returns (ok: bool)
      requires Valid()
      modifies this`events, this`lastDurations, db`shelves, db`queuePick, db`queuePut, onCycleDone
      ensures Valid()
      ensures ok == (Finished(d) && CommitOk(d, old(db.shelves), m, shelfId, JobBasket(row)))
      ensures events == old(events) + JobTrace(d, cmd, row.id, ok)
      ensures db.shelves == if Finished(d) then CommitShelves(d, old(db.shelves), m, shelfId, JobBasket(row)) else old(db.shelves)
      ensures (db.queuePick, db.queuePut) == JobQueues(d, m, row.id, old(db.queuePick), old(db.queuePut))
      ensures lastDurations == if Finished(d) then Durations(old(lastDurations), m, d.seconds) else old(lastDurations)
      ensures onCycleDone != null ==>
                onCycleDone.lastTimes == if Finished(d) then RecordCycle(old(onCycleDone.lastTimes), Report(m, row, d.seconds, ok))
                                         else old(onCycleDone.lastTimes)
    {
      ok := false;
      var acked := Handshake(cmd, d);
      if !acked {
        return;
      }
      ghost var e1 := events;
      DeleteRow(m, row.id, d);
      if !d.ackResetOk {
        // the strobe reset raised: the exception leaves the job here
        Concat(old(events), Retries(FailedClears(d)), [CommandWritten(cmd), SendSet(true)], AfterAck(d, row.id, ok));
        return;
      }
      ok := FinishJob(m, row, shelfId, d);
      Concat(e1, Deletion(d, row.id), [Committed(ok)], Completion(d.completePolls) + Cleanup);
      Concat(old(events), Retries(FailedClears(d)), [CommandWritten(cmd), SendSet(true)], AfterAck(d, row.id, ok));
    }

    /** The part of send_job_blocking up to ACK: the readiness check, the
        clear retries, the command write and the ACK wait. */
    method Handshake(cmd: string, d: Device) returns (acked: bool)
      modifies this`events
      ensures acked == Acked(d)
      ensures acked ==> events == old(events) + Retries(FailedClears(d)) + [CommandWritten(cmd), SendSet(true)]
      ensures !acked ==> forall rowId, committed :: events == old(events) + JobTrace(d, cmd, rowId, committed)
    {
      acked := false;
      if !d.ready {
        return;
      }
      var clear := ClearPrevious(d);
      if !clear {
        return;
      }
      if d.cmdWriteOk {
        events := events + [CommandWritten(cmd)];
      }
      if !d.cmdWriteOk || !d.sendWriteOk {
        // one of the two writes raised: try to reset the strobe
        if d.resetWriteOk {
          events := events + [SendSet(false)];
        }
        return;
      }
      events := events + [SendSet(true)];
      if !d.acked {
        events := events + [SendSet(false)];
        return;
      }
      acked := true;
    }

    /** The part of send_job_blocking after the strobe reset that follows
        the delete: the commit, the completion wait with its cleanup, and
        the bookkeeping. */
    method FinishJob(m: Method, row: Row, shelfId: int, d: Device) returns (ok: bool)
      requires Valid()
      modifies this`events, this`lastDurations, db`shelves, onCycleDone
      ensures Valid()
      ensures ok == CommitOk(d, old(db.shelves), m, shelfId, JobBasket(row))
      ensures events == old(events) + [Committed(ok)] + (Completion(d.completePolls) + Cleanup)
      ensures db.shelves == CommitShelves(d, old(db.shelves), m, shelfId, JobBasket(row))
      ensures lastDurations == Durations(old(lastDurations), m, d.seconds)
      ensures onCycleDone != null ==> onCycleDone.lastTimes == RecordCycle(old(onCycleDone.lastTimes), Report(m, row, d.seconds, ok))
    {
      ok := Commit(m, shelfId, JobBasket(row), d);
      AwaitCompletion(d.completePolls);
      RecordJob(m, row, d.seconds, ok);
    }

    /** The clear-retry loop before a job: up to three attempts, each failed
        one clearing the registers and pulsing the complete reply. */
    method ClearPrevious(d: Device) returns (clear: bool)
      modifies this`events
      ensures clear == (FailedClears(d) < MaxClearAttempts)
      ensures events == old(events) + Retries(FailedClears(d))
    {
      var attempt := 0;
      clear := false;
      while attempt < MaxClearAttempts && !clear
        invariant 0 <= attempt <= MaxClearAttempts
        invariant clear ==> attempt >= 1 && attempt - 1 == FailedClears(d)
        invariant !clear ==> attempt <= FailedClears(d)
        invariant events == old(events) + Retries(if clear then attempt - 1 else attempt)
      {
        clear := PriorClear(d, attempt);
        if !clear {
          events := events + [RegistersCleared, CompleteReply];
        }
        attempt := attempt + 1;
      }
    }

    /** The row delete right after ACK (its failure is caught), then the
        strobe reset (its failure is not). */
    method DeleteRow(m: Method, rowId: int, d: Device)
      requires Valid()
      modifies this`events, db`queuePick, db`queuePut
      ensures Valid()
      ensures events == old(events) + Deletion(d, rowId)
      ensures d.deleteFails ==> db.queuePick == old(db.queuePick) && db.queuePut == old(db.queuePut)
      ensures !d.deleteFails && m == Pick ==>
                db.queuePick == WithoutId(old(db.queuePick), rowId) && db.queuePut == old(db.queuePut)
      ensures !d.deleteFails && m == Put ==>
                db.queuePut == WithoutId(old(db.queuePut), rowId) && db.queuePick == old(db.queuePick)
    {
      if !d.deleteFails {
        db.DeleteQueueRow(MethodName(m), rowId);
        events := events + [RowDeleted(rowId)];
      }
      if d.ackResetOk {
        events := events + [SendSet(false)];
      }
    }

    /** The occupancy update right after ACK: move_put without overwriting
        for PUT, mark_pick otherwise; ok is whether it did not raise. */
    method Commit(m: Method, shelfId: int, basket: string, d: Device) returns (ok: bool)
      requires Valid()
      modifies this`events, db`shelves
      ensures Valid()
      ensures events == old(events) + [Committed(ok)]
      ensures ok == CommitOk(d, old(db.shelves), m, shelfId, basket)
      ensures db.shelves == CommitShelves(d, old(db.shelves), m, shelfId, basket)
    {
      ok := false;
      if !d.commitFails {
        if m == Put {
          var info := db.MovePut(shelfId, basket, false);
          ok := info.Success?;
        } else {
          db.MarkPick(shelfId);
          ok := true;
        }
      }
      events := events + [Committed(ok)];
    }

    /** The completion wait: poll until the line reads high (then reply and
        clear) or the polls run out (the timeout). */
    method AwaitCompletion(polls: seq<Option<bool>>)
      modifies this`events
      ensures events == old(events) + (Completion(polls) + Cleanup)
    {
      var k := 0;
      var done := false;
      while k < |polls| && !done
        invariant 0 <= k <= |polls|
        invariant done <==> exists i | 0 <= i < k :: polls[i] == Some(true)
        invariant events == old(events) + (if done then [CompleteReply, RegistersCleared] else [])
      {
        if polls[k] == Some(true) {
          events := events + [CompleteReply, RegistersCleared];
          done := true;
        }
        k := k + 1;
      }
      // the cleanup runs whether the job completed or timed out
      events := events + Cleanup;
    }

    /** The end of a job that got an ACK: the duration is stored under the
        job's kind and the callback, if any, gets the report. */
    method RecordJob(m: Method, row: Row, seconds: real, ok: bool)
      modifies this`lastDurations, onCycleDone
      ensures events == old(events)
      ensures lastDurations == Durations(old(lastDurations), m, seconds)
      ensures onCycleDone != null ==> onCycleDone.lastTimes == RecordCycle(old(onCycleDone.lastTimes), Report(m, row, seconds, ok))
    {
      var kind := Lower(MethodName(m));
      if kind in lastDurations {
        lastDurations := lastDurations[kind := Some(seconds)];
      }
      if onCycleDone != null {
        onCycleDone.OnCycleDone(Report(m, row, seconds, ok));
      }
    }

    /** One tick of _monitor_clear_request. */
    method MonitorTick(t: Tick)
      modifies this`pendingClear, this`events
      ensures pendingClear == ClearTick(old(pendingClear), t).0
      ensures events == old(events) + ClearTick(old(pendingClear), t).1
    {
      if !t.nodesPresent {
        return;
      }
      if t.req == Some(true) {
        events := events + [ClearReply];
        if t.acquired {
          events := events + [RegistersCleared];
          pendingClear := false;
        } else {
          pendingClear := true;
        }
      } else if pendingClear && t.acquired {
        events := events + [RegistersCleared];
        pendingClear := false;
      }
    }

    /** One iteration of loop: pick the next job, build its command, send it
        if it has 20 characters, and advance current_id on success. */
    method Iterate(pickFaults: Faults, putFaults: Faults, compareFails: bool, d: Device)
      returns (job: Option<Choice>, ghost pick1: seq<Row>, ghost put1: seq<Row>, sent: bool, ok: bool)
      requires Valid()
      modifies this`events, this`lastDurations, this`lastCmd, this`currentId
      modifies db`shelves, db`queuePick, db`queuePut, onCycleDone
      ensures Valid()
      ensures job == Selection(old(db.queuePick), old(db.queuePut), old(db.shelves), old(db.assignment), WindowEach, pickFaults, putFaults, compareFails)
      ensures pick1 == AfterScan(old(db.queuePick), old(db.shelves), old(db.assignment), pickFaults)
      ensures put1 == AfterScan(old(db.queuePut), old(db.shelves), old(db.assignment), putFaults)
      ensures sent <==> job.Some? && |CommandFor(old(currentId), job.value)| == 20
      ensures !sent ==> !ok
      ensures sent ==> ok == (Finished(d) && CommitOk(d, old(db.shelves), job.value.m, job.value.mapping.shelfId, JobBasket(job.value.row)))
      ensures events == old(events) + if sent then JobTrace(d, CommandFor(old(currentId), job.value), job.value.row.id, ok) else []
      ensures (db.queuePick, db.queuePut) == if sent then JobQueues(d, job.value.m, job.value.row.id, pick1, put1) else (pick1, put1)
      ensures db.shelves == if sent && Finished(d) then CommitShelves(d, old(db.shelves), job.value.m, job.value.mapping.shelfId, JobBasket(job.value.row))
                            else old(db.shelves)
      ensures lastDurations == if sent && Finished(d) then Durations(old(lastDurations), job.value.m, d.seconds) else old(lastDurations)
      ensures onCycleDone != null ==>
                onCycleDone.lastTimes == if sent && Finished(d) then RecordCycle(old(onCycleDone.lastTimes), Report(job.value.m, job.value.row, d.seconds, ok))
                                         else old(onCycleDone.lastTimes)
      ensures currentId == if ok then old(currentId) + 1 else old(currentId)
      ensures lastCmd == if ok then Some(LastCmd(old(currentId), job.value.m, job.value.row.basket, job.value.mapping.x, job.value.mapping.y,
                                                 job.value.mapping.z, job.value.mapping.shelfId))
                         else old(lastCmd)
    {
      job := SelectNext(db, WindowEach, pickFaults, putFaults, compareFails);
      pick1, put1 := db.queuePick, db.queuePut;
      sent, ok := DispatchSelection(job, d);
    }

    /** Dispatch of whatever _select_next returned: nothing happens when no
        job was selected. */
    method DispatchSelection(job: Option<Choice>, d: Device) returns (sent: bool, ok: bool)
      requires Valid()
      modifies this`events, this`lastDurations, this`lastCmd, this`currentId
      modifies db`shelves, db`queuePick, db`queuePut, onCycleDone
      ensures Valid()
      ensures sent <==> job.Some? && |CommandFor(old(currentId), job.value)| == 20
      ensures !sent ==> !ok
      ensures sent ==> ok == (Finished(d) && CommitOk(d, old(db.shelves), job.value.m, job.value.mapping.shelfId, JobBasket(job.value.row)))
      ensures events == old(events) + if sent then JobTrace(d, CommandFor(old(currentId), job.value), job.value.row.id, ok) else []
      ensures (db.queuePick, db.queuePut) == if sent then JobQueues(d, job.value.m, job.value.row.id, old(db.queuePick), old(db.queuePut))
                                            else (old(db.queuePick), old(db.queuePut))
      ensures db.shelves == if sent && Finished(d) then CommitShelves(d, old(db.shelves), job.value.m, job.value.mapping.shelfId, JobBasket(job.value.row))
                            else old(db.shelves)
      ensures lastDurations == if sent && Finished(d) then Durations(old(lastDurations), job.value.m, d.seconds) else old(lastDurations)
      ensures onCycleDone != null ==>
                onCycleDone.lastTimes == if sent && Finished(d) then RecordCycle(old(onCycleDone.lastTimes), Report(job.value.m, job.value.row, d.seconds, ok))
                                         else old(onCycleDone.lastTimes)
      ensures currentId == if ok then old(currentId) + 1 else old(currentId)
      ensures lastCmd == if ok then Some(LastCmd(old(currentId), job.value.m, job.value.row.basket, job.value.mapping.x, job.value.mapping.y,
                                                 job.value.mapping.z, job.value.mapping.shelfId))
                         else old(lastCmd)
    {
      if job.None? {
        return false, false;
      }
      sent, ok := Dispatch(job.value, d);
    }

    /** The rest of one iteration for a selected job: the command is built,
        refused unless it has 20 characters, sent, and on success recorded
        as the last command with current_id advanced. */
    method Dispatch(choice: Choice, d: Device) returns (sent: bool, ok: bool)
      requires Valid()
      modifies this`events, this`lastDurations, this`lastCmd, this`currentId
      modifies db`shelves, db`queuePick, db`queuePut, onCycleDone
      ensures Valid()
      ensures sent == (|CommandFor(old(currentId), choice)| == 20)
      ensures !sent ==> !ok
      ensures sent ==> ok == (Finished(d) && CommitOk(d, old(db.shelves), choice.m, choice.mapping.shelfId, JobBasket(choice.row)))
      ensures events == old(events) + if sent then JobTrace(d, CommandFor(old(currentId), choice), choice.row.id, ok) else []
      ensures (db.queuePick, db.queuePut) == if sent then JobQueues(d, choice.m, choice.row.id, old(db.queuePick), old(db.queuePut))
                                            else (old(db.queuePick), old(db.queuePut))
      ensures db.shelves == if sent && Finished(d) then CommitShelves(d, old(db.shelves), choice.m, choice.mapping.shelfId, JobBasket(choice.row))
                            else old(db.shelves)
      ensures lastDurations == if sent && Finished(d) then Durations(old(lastDurations), choice.m, d.seconds) else old(lastDurations)
      ensures onCycleDone != null ==>
                onCycleDone.lastTimes == if sent && Finished(d) then RecordCycle(old(onCycleDone.lastTimes), Report(choice.m, choice.row, d.seconds, ok))
                                         else old(onCycleDone.lastTimes)
      ensures currentId == if ok then old(currentId) + 1 else old(currentId)
      ensures lastCmd == if ok then Some(LastCmd(old(currentId), choice.m, choice.row.basket, choice.mapping.x, choice.mapping.y,
                                                 choice.mapping.z, choice.mapping.shelfId))
                         else old(lastCmd)
    {
      var cmd := CommandFor(currentId, choice);
      if |cmd| != 20 {
        return false, false;
      }
      ok := SendJobBlocking(cmd, choice.m, choice.row, choice.mapping.shelfId, d);
      sent := true;
      NoteResult(choice, ok);
    }

    /** The end of one iteration: a successful job becomes _last_cmd_info
        and advances current_id; a failed one changes neither. */
    method NoteResult(choice: Choice, ok: bool)
      modifies this`lastCmd, this`currentId
      ensures currentId == if ok then old(currentId) + 1 else old(currentId)
      ensures lastCmd == if ok then Some(LastCmd(old(currentId), choice.m, choice.row.basket, choice.mapping.x, choice.mapping.y,
                                                 choice.mapping.z, choice.mapping.shelfId))
                         else old(lastCmd)
    {
      if ok {
        var mp := choice.mapping;
        lastCmd := Some(LastCmd(currentId, choice.m, choice.row.basket, mp.x, mp.y, mp.z, mp.shelfId));
        currentId := currentId + 1;
      }
    }
  }

  /** The window loop asks _select_next for. */
  const WindowEach: nat := 20

  /** A queue after _select_next's scan of its window: the rows met before
      the first usable one that have no mapping are deleted. */
  function AfterScan(q: seq<Row>, shelves: Shelves, assign: Assignment, f: Faults): seq<Row> {
    RemoveIds(q, FirstUsable(Window(q, WindowEach), shelves, assign, f).pruned)
  }

  /** The command loop builds for a choice. */
  function CommandFor(id: int, c: Choice): string {
    Encode(id, c.m, c.mapping.x, c.mapping.y, c.mapping.z, Show(c.row.basket))
  }

  // ---- what a job guarantees ----------------------------------------------

  lemma Concat(a: seq<Event>, b: seq<Event>, c: seq<Event>, d: seq<Event>)
    ensures a + b + c + d == a + (b + c + d)
  {
  }

  /** Failed clear attempts only clear registers and pulse the reply. */
  lemma {:induction false} RetriesOnly(n: nat)
    ensures forall e | e in Retries(n) :: e == RegistersCleared || e == CompleteReply
  {
    if n > 0 {
      RetriesOnly(n - 1);
    }
  }

  /** A job that gets no ACK deletes no row and commits nothing. */
  lemma NoAckNoEffect(d: Device, cmd: string, rowId: int, committed: bool)
    requires !Acked(d)
    ensures forall e | e in JobTrace(d, cmd, rowId, committed) :: !e.RowDeleted? && !e.Committed?
  {
    RetriesOnly(FailedClears(d));
  }

  /** The send strobe goes high only right after the command was written. */
  lemma StrobeAfterCommand(d: Device, cmd: string, rowId: int, committed: bool)
    ensures var t := JobTrace(d, cmd, rowId, committed);
            forall j | 0 <= j < |t| && t[j] == SendSet(true) :: 0 < j && t[j - 1] == CommandWritten(cmd)
  {
    var r := Retries(FailedClears(d));
    RetriesOnly(FailedClears(d));
    var t := JobTrace(d, cmd, rowId, committed);
    if !d.ready || FailedClears(d) == MaxClearAttempts {
      assert t == [] || t == r + [];
      StrobeAfterRetries(r, [], cmd);
    } else if !d.cmdWriteOk {
      StrobeAfterRetries(r, StrobeReset(d), cmd);
    } else if !d.sendWriteOk {
      Assoc(r, [CommandWritten(cmd)], StrobeReset(d));
      StrobeAfterRetries(r, [CommandWritten(cmd)] + StrobeReset(d), cmd);
    } else if !d.acked {
      StrobeAfterRetries(r, [CommandWritten(cmd), SendSet(true), SendSet(false)], cmd);
    } else {
      Assoc(r, [CommandWritten(cmd), SendSet(true)], AfterAck(d, rowId, committed));
      StrobeAfterAck(d, cmd, rowId, committed);
      StrobeAfterRetries(r, [CommandWritten(cmd), SendSet(true)] + AfterAck(d, rowId, committed), cmd);
    }
  }

  lemma Assoc(r: seq<Event>, a: seq<Event>, b: seq<Event>)
    ensures r + a + b == r + (a + b)
  {
  }

  /** Nothing after the ACK puts the strobe high again. */
  lemma StrobeAfterAck(d: Device, cmd: string, rowId: int, committed: bool)
    ensures var u := [CommandWritten(cmd), SendSet(true)] + AfterAck(d, rowId, committed);
            forall j | 0 <= j < |u| && u[j] == SendSet(true) :: 0 < j && u[j - 1] == CommandWritten(cmd)
  {
    var a := AfterAck(d, rowId, committed);
    assert forall k | 0 <= k < |a| :: a[k] != SendSet(true);
  }

  /** Retries put no strobe high, so a trace of retries followed by u keeps
      the strobe-after-command order of u. */
  lemma StrobeAfterRetries(r: seq<Event>, u: seq<Event>, cmd: string)
    requires forall e | e in r :: e == RegistersCleared || e == CompleteReply
    requires forall j | 0 <= j < |u| && u[j] == SendSet(true) :: 0 < j && u[j - 1] == CommandWritten(cmd)
    ensures var t := r + u;
            forall j | 0 <= j < |t| && t[j] == SendSet(true) :: 0 < j && t[j - 1] == CommandWritten(cmd)
  {
    var t := r + u;
    assert forall k | 0 <= k < |r| :: r[k] in r;
    forall j | 0 <= j < |t| && t[j] == SendSet(true)
      ensures 0 < j && t[j - 1] == CommandWritten(cmd)
    {
      if j >= |r| {
        assert t[j] == u[j - |r|];
        if j > |r| {
          assert t[j - 1] == u[j - 1 - |r|];
        }
      }
    }
  }

  /** After ACK the trace is: the retries, the command and the strobe, the
      row delete, the strobe reset, the commit, and it ends with the
      cleanup; so the delete comes after the command was acknowledged and
      the commit right after the reset. A reset that raises ends the trace
      with the delete. */
  lemma AckedOrder(d: Device, cmd: string, rowId: int, committed: bool)
    requires Acked(d) && !d.deleteFails
    ensures var t := JobTrace(d, cmd, rowId, committed);
            var i := 2 * FailedClears(d);
            && t[i] == CommandWritten(cmd) && t[i + 1] == SendSet(true) && t[i + 2] == RowDeleted(rowId)
            && (d.ackResetOk ==> t[i + 3] == SendSet(false) && t[i + 4] == Committed(committed) && t[|t| - 3..] == Cleanup)
            && (!d.ackResetOk ==> |t| == i + 3)
            && (forall j | 0 <= j < i + 2 :: !t[j].RowDeleted? && !t[j].Committed?)
  {
    RetriesOnly(FailedClears(d));
    var r := Retries(FailedClears(d));
    var t := JobTrace(d, cmd, rowId, committed);
    var a := AfterAck(d, rowId, committed);
    var u := [CommandWritten(cmd), SendSet(true)] + a;
    Assoc(r, [CommandWritten(cmd), SendSet(true)], a);
    assert t == r + u;
    AfterAckShape(d, rowId, committed);
    assert t[|r| + 2] == a[0];
    if d.ackResetOk {
      assert t[|r| + 3] == a[1] && t[|r| + 4] == a[2];
      assert t[|t| - 3..] == a[|a| - 3..];
    }
    assert forall j | 0 <= j < |r| :: t[j] == r[j] && t[j] in r;
  }

  /** The events after an ACK whose row delete went through: the delete,
      then either the strobe reset, the commit and a trace ending in the
      cleanup, or nothing more. */
  lemma AfterAckShape(d: Device, rowId: int, committed: bool)
    requires !d.deleteFails
    ensures var a := AfterAck(d, rowId, committed);
            && |a| >= 1 && a[0] == RowDeleted(rowId)
            && (d.ackResetOk ==> |a| >= 6 && a[1] == SendSet(false) && a[2] == Committed(committed) && a[|a| - 3..] == Cleanup)
            && (!d.ackResetOk ==> |a| == 1)
  {
    var a := AfterAck(d, rowId, committed);
    if d.ackResetOk {
      var head := Deletion(d, rowId) + [Committed(committed)];
      var tail := Completion(d.completePolls) + Cleanup;
      assert head == [RowDeleted(rowId), SendSet(false), Committed(committed)];
      assert a == head + tail;
      assert a[|a| - 3..] == tail[|tail| - 3..];
    }
  }

  /** A strobe reset that raises after ACK loses the job: the row is
      deleted (unless that raised too), nothing is committed and the trace
      stops there. */
  lemma LostAfterAck(d: Device, cmd: string, rowId: int, committed: bool)
    requires Acked(d) && !d.ackResetOk
    ensures var t := JobTrace(d, cmd, rowId, committed);
            && Committed(committed) !in t
            && t[|t| - 1] == if d.deleteFails then SendSet(true) else RowDeleted(rowId)
  {
  }

  /** The result does not depend on whether completion was seen in time. */
  lemma ResultIgnoresCompletion(d: Device, polls: seq<Option<bool>>, shelves: Shelves, m: Method, shelfId: int, basket: string)
    ensures Acked(d.(completePolls := polls)) == Acked(d)
    ensures Finished(d.(completePolls := polls)) == Finished(d)
    ensures CommitOk(d.(completePolls := polls), shelves, m, shelfId, basket) == CommitOk(d, shelves, m, shelfId, basket)
  {
  }

  /** A PUT job that was acknowledged stores the basket on the shelf exactly
      when it succeeds, and an occupied destination makes it fail. */
  lemma PutJobPlaces(d: Device, shelves: Shelves, shelfId: int, row: Row)
    requires Acked(d) && CommitOk(d, shelves, Put, shelfId, JobBasket(row))
    ensures var after := CommitShelves(d, shelves, Put, shelfId, JobBasket(row));
            var bid := Normalize(StrValue(JobBasket(row))).value;
            && Normalize(StrValue(JobBasket(row))).Success?
            && shelfId in after && after[shelfId].basket == Some(bid) && after[shelfId].active
            && Holders(after, bid) == {shelfId}
  {
    var basket := JobBasket(row);
    MovePutOutcome(shelves, shelfId, basket, false);
    MovePutPlaces(shelves, shelfId, basket, false);
  }

  /** The app files each acknowledged job's duration under its kind. */
  lemma ReportRecorded(times: Times, m: Method, row: Row, seconds: real, ok: bool)
    ensures var after := RecordCycle(times, Report(m, row, seconds, ok));
            var kind := if m == Put then "put" else "pick";
            kind in after && after[kind] == Some(seconds)
            && forall k | k in times && k != kind :: k in after && after[k] == times[k]
  {
    assert Lower("PUT") == "put" && Lower("put") == "put";
    assert Lower("PICK") == "pick" && Lower("pick") == "pick";
  }

  /** A job without a basket always fails a PUT commit. */
  lemma PutWithoutBasketFails(d: Device, shelves: Shelves, shelfId: int, row: Row)
    requires row.basket.None?
    ensures !CommitOk(d, shelves, Put, shelfId, JobBasket(row))
  {
  }

  // ---- the clear reactor --------------------------------------------------

  /** A request is always answered with a reply pulse, and the registers are
      cleared in the same tick exactly when the lock was free; otherwise the
      clear is left pending. */
  lemma RequestTick(pending: bool, t: Tick)
    requires t.nodesPresent && t.req == Some(true)
    ensures var (p, e) := ClearTick(pending, t);
            && e[0] == ClearReply
            && (RegistersCleared in e <==> t.acquired)
            && p == !t.acquired
  {
  }

  /** Once a clear is pending, the first later tick that finds both nodes
      and the lock free clears the registers. */
  lemma {:induction false} PendingServed(ticks: seq<Tick>, j: nat)
    requires j < |ticks| && ticks[j].nodesPresent && ticks[j].acquired
    ensures RegistersCleared in RunTicks(true, ticks).1
  {
    var (p1, e1) := ClearTick(true, ticks[0]);
    var (p2, e2) := RunTicks(p1, ticks[1..]);
    if RegistersCleared !in e1 {
      assert p1;
      PendingServed(ticks[1..], j - 1);
    }
    assert RunTicks(true, ticks).1 == e1 + e2;
  }

  /** A clear request is eventually honoured: if some tick at or after the
      request finds both nodes and a free lock, the registers get cleared. */
  lemma RequestServed(pending: bool, ticks: seq<Tick>, j: nat)
    requires ticks != [] && ticks[0].nodesPresent && ticks[0].req == Some(true)
    requires j < |ticks| && ticks[j].nodesPresent && ticks[j].acquired
    ensures RegistersCleared in RunTicks(pending, ticks).1
  {
    var (p1, e1) := ClearTick(pending, ticks[0]);
    var (p2, e2) := RunTicks(p1, ticks[1..]);
    if !ticks[0].acquired {
      PendingServed(ticks[1..], j - 1);
    }
    assert RunTicks(pending, ticks).1 == e1 + e2;
  }

  /** Without the nodes the reactor never writes anything and keeps its
      state. */
  lemma {:induction false} NoNodesNoEffect(pending: bool, ticks: seq<Tick>)
    requires forall i | 0 <= i < |ticks| :: !ticks[i].nodesPresent
    ensures RunTicks(pending, ticks).0 == pending && RunTicks(pending, ticks).1 == []
  {
    if ticks != [] {
      assert forall i | 0 <= i < |ticks| - 1 :: ticks[1..][i] == ticks[i + 1];
      NoNodesNoEffect(pending, ticks[1..]);
    }
  }

  // ---- the loop -----------------------------------------------------------

  /** The command loop builds for a mapped shelf in columns and rows below
      100 and depth below 10 with a canonical basket id passes the length
      guard and decodes to the job. */
  lemma CommandForWellFormed(id: nat, c: Choice)
    requires 0 <= c.mapping.x < 100 && 0 <= c.mapping.y < 100 && 0 <= c.mapping.z < 10
    requires c.row.basket.Some? && |c.row.basket.value| == 10
    ensures |CommandFor(id, c)| == 20
    ensures Decode(CommandFor(id, c)) == Some(Fields(id % 10000, c.m, c.mapping.x, c.mapping.y, c.mapping.z, c.row.basket.value))
  {
    EncodeLengthTwenty(id, c.m, c.mapping.x, c.mapping.y, c.mapping.z, c.row.basket.value);
    DecodeEncode(id, c.m, c.mapping.x, c.mapping.y, c.mapping.z, c.row.basket.value);
  }

  /** A column of 100 or more makes the command too long: nothing is sent. */
  lemma WideColumnNotSent(id: int, c: Choice)
    requires c.mapping.x >= 100 && 0 <= c.mapping.y && 0 <= c.mapping.z
    requires c.row.basket.Some? && |c.row.basket.value| == 10
    ensures |CommandFor(id, c)| != 20
  {
    EncodeLengthTwenty(id, c.m, c.mapping.x, c.mapping.y, c.mapping.z, c.row.basket.value);
  }
}
