/** The QR listener (asrs_lib/qr_listener.py, class QrListener): it watches
    the PLC's "basket QR sent" flag, reads the scanned code while the flag is
    high, suppresses repeats of the same code, and runs the guard chain that
    decides whether a PUT job is queued for the basket. */
module Qr {
  import opened Wrappers
  import opened Text
  import opened Store

  // ---- the guard chain of _process_qr_code ----------------------------------

  /** What the guard chain's lookups see: which of them raise, and the ASRS
      ready flag (None: no ready node, or its read raised, both of which
      count as ready). */
  datatype Env = Env(
    mappingFails: bool,     // get_mapping_for_basket raises
    occupancyFails: bool,   // get_shelf_of_basket raises (treated as "not stored")
    shelfQueryFails: bool,  // the shelf_data query raises
    canUseFails: bool,      // shelf_can_use raises
    cursorFails: bool,      // opening the cursor for the insert raises (not caught)
    selectFails: bool,      // the duplicate query raises (caught)
    insertFails: bool,      // the INSERT raises (caught)
    ready: Option<bool>,
    now: int)               // the row's created_at

  /** Where the guard chain stops. */
  datatype Outcome =
    | Unregistered      // no mapping, or its lookup raised: error acknowledgement
    | AlreadyStored     // some shelf already holds the basket
    | ShelfCheckFailed  // the shelf query raised
    | ShelfMissing      // the mapped shelf has no row
    | ShelfBusy         // the mapped shelf is active
    | ShelfTaken        // the mapped shelf holds a basket
    | Unusable          // the shelf cannot be used, or the check raised
    | Raised            // the exception leaves _process_qr_code
    | PutFailed         // the duplicate query or the insert raised
    | Duplicate         // a PUT for the code is already queued
    | Busy              // the ASRS reports not ready
    | Enqueued(m: Mapping)

  /** Python truthiness of a basket column: not NULL and not empty. */
  predicate Truthy(b: Option<string>) {
    b.Some? && b.value != ""
  }

  /** Some shelf holds the basket (get_shelf_of_basket finds a row). */
  predicate Stored(shelves: Shelves, bid: string) {
    exists k | k in shelves :: shelves[k].basket == Some(bid)
  }

  /** SELECT 1 FROM queue_put WHERE basket = qr: the code as given. */
  predicate Queued(q: seq<Row>, qr: string) {
    exists i | 0 <= i < |q| :: q[i].basket == Some(qr)
  }

  /** _process_qr_code's decision for a scanned code. */
  function Decide(shelves: Shelves, assign: Assignment, queuePut: seq<Row>, qr: string, env: Env): (o: Outcome)
    ensures o.Enqueued? ==> && o.m.shelfId in shelves && !shelves[o.m.shelfId].active && !Truthy(shelves[o.m.shelfId].basket)
                            && CanUse(shelves, o.m.shelfId) && !Queued(queuePut, qr)
  {
    if env.mappingFails then Unregistered
    else
      match MappingFor(shelves, assign, qr)
      case None => Unregistered
      case Some(m) =>
        if !env.occupancyFails && Stored(shelves, Strip(qr)) then AlreadyStored
        else if env.shelfQueryFails then ShelfCheckFailed
        else if m.shelfId !in shelves then ShelfMissing
        else if shelves[m.shelfId].active then ShelfBusy
        else if Truthy(shelves[m.shelfId].basket) then ShelfTaken
        else if env.canUseFails || !CanUse(shelves, m.shelfId) then Unusable
        else if env.cursorFails then Raised
        else if env.selectFails then PutFailed
        else if Queued(queuePut, qr) then Duplicate
        else if env.ready == Some(false) then Busy
        else if env.insertFails then PutFailed
        else Enqueued(m)
  }

  /** A PUT job is queued exactly when the code has a home shelf, no shelf
      holds it yet (or that lookup failed), the home shelf is inactive, empty
      and usable, no PUT for the code is queued, the ASRS is not known to be
      busy and no database step fails; the job goes to the home shelf. */
  lemma EnqueueGuard(shelves: Shelves, assign: Assignment, queuePut: seq<Row>, qr: string, env: Env)
    ensures var o := Decide(shelves, assign, queuePut, qr, env);
            var m := MappingFor(shelves, assign, qr);
            o.Enqueued? <==>
              && !env.mappingFails && m.Some?
              && (env.occupancyFails || !Stored(shelves, Strip(qr)))
              && m.value.shelfId in shelves && !shelves[m.value.shelfId].active
              && !Truthy(shelves[m.value.shelfId].basket) && CanUse(shelves, m.value.shelfId)
              && !Queued(queuePut, qr) && env.ready != Some(false)
              && !env.shelfQueryFails && !env.canUseFails && !env.cursorFails && !env.selectFails && !env.insertFails
    ensures var o := Decide(shelves, assign, queuePut, qr, env);
            o.Enqueued? ==> Some(o.m) == MappingFor(shelves, assign, qr)
  {
  }

  /** A code without a home shelf (or whose lookup raised) is answered with
      the error acknowledgement, and nothing else is looked at. */
  lemma UnmappedRejected(shelves: Shelves, assign: Assignment, queuePut: seq<Row>, qr: string, env: Env)
    ensures Decide(shelves, assign, queuePut, qr, env) == Unregistered
        <==> env.mappingFails || MappingFor(shelves, assign, qr).None?
  {
  }

  /** Once a PUT for a code is queued, scanning the code again queues
      nothing: the chain stops at the duplicate check or earlier. */
  lemma {:induction false} EnqueueOnce(shelves: Shelves, assign: Assignment, queuePut: seq<Row>, qr: string, env: Env, env2: Env, id: int)
    requires Sorted(queuePut) && Decide(shelves, assign, queuePut, qr, env).Enqueued?
    ensures var m := Decide(shelves, assign, queuePut, qr, env).m;
            !Decide(shelves, assign, InsertByTime(queuePut, Row(id, Some(qr), m.x, m.y, m.z, env.now)), qr, env2).Enqueued?
  {
    var m := Decide(shelves, assign, queuePut, qr, env).m;
    var row := Row(id, Some(qr), m.x, m.y, m.z, env.now);
    var q := InsertByTime(queuePut, row);
    assert row in multiset(q);
    var i :| 0 <= i < |q| && q[i] == row;
    assert q[i].basket == Some(qr);
    QueuedNotEnqueued(shelves, assign, q, qr, env2);
  }

  /** A code with a queued PUT is never queued again. */
  lemma QueuedNotEnqueued(shelves: Shelves, assign: Assignment, queuePut: seq<Row>, qr: string, env: Env)
    requires Queued(queuePut, qr)
    ensures !Decide(shelves, assign, queuePut, qr, env).Enqueued?
  {
  }

  // ---- the flag and duplicate state machine of loop ----------------------

  /** The listener's memory: _last_flag, _last_qr and the loop's current_qr. */
  datatype State = State(lastFlag: Option<bool>, lastQr: Option<string>, currentQr: Option<string>)

  /** One poll: the flag read and the code read (None: the read raised; a
      NULL register value reads as ""). */
  datatype Read = Read(flag: Option<bool>, code: Option<string>)

  /** The format check: with validate, 10 characters starting with 'B'; an
      empty code is never acted on. */
  predicate Accepts(qr: string, validate: bool) {
    qr != "" && (!validate || (|qr| == 10 && qr[0] == 'B'))
  }

  /** One loop iteration when _process_qr_code does not raise: the new state
      and the (stripped) code it processes, if any. */
  function Listen(s: State, r: Read, validate: bool): (res: (State, Option<string>))
    ensures r.flag.None? ==> res == (s, None)
    ensures r.flag == Some(false) || (r.flag.Some? && r.code.Some?) ==> res.0.lastFlag == r.flag
    ensures res.1.Some? ==> && r.flag == Some(true) && r.code.Some? && res.1.value == Strip(r.code.value)
                            && Accepts(res.1.value, validate) && s.currentQr != res.1 && res.0.currentQr == res.1
  {
    if r.flag.None? then (s, None)
    else
      var flag := r.flag.value;
      var s1 := if !flag && s.lastFlag == Some(true) then s.(lastQr := None, currentQr := None) else s;
      if !flag then (s1.(lastFlag := Some(false)), None)
      else if r.code.None? then (s1, None)
      else
        var qr := Strip(r.code.value);
        if Accepts(qr, validate) && s1.currentQr != Some(qr) then (State(Some(true), Some(qr), Some(qr)), Some(qr))
        else (s1.(lastFlag := Some(true)), None)
  }

  /** A series of polls: the final state and the codes processed, in order. */
  function Run(s: State, polls: seq<Read>, validate: bool): (r: (State, seq<string>))
    ensures |r.1| <= |polls|
    ensures forall i | 0 <= i < |r.1| :: Accepts(r.1[i], validate)
    decreases |polls|
  {
    if polls == [] then (s, [])
    else
      var (s1, p) := Listen(s, polls[0], validate);
      var (s2, ps) := Run(s1, polls[1..], validate);
      (s2, (if p.Some? then [p.value] else []) + ps)
  }

  /** reset_state: forget the last code and the last flag; the loop's
      current_qr is a local of loop and is not touched. */
  function Reset(s: State): (r: State)
    ensures r.lastQr.None? && r.lastFlag.None? && r.currentQr == s.currentQr
  {
    s.(lastQr := None, lastFlag := None)
  }

  /** A failed flag read changes nothing, _last_flag included; a failed code
      read with the flag high keeps _last_flag as well. */
  lemma FailedReadsKeepState(s: State, r: Read, validate: bool)
    requires r.flag.None? || (r.flag == Some(true) && r.code.None?)
    ensures Listen(s, r, validate) == (s, None)
  {
  }

  /** Every other poll records the flag it read. */
  lemma FlagRecorded(s: State, r: Read, validate: bool)
    requires r.flag.Some? && (r.flag == Some(false) || r.code.Some?)
    ensures Listen(s, r, validate).0.lastFlag == r.flag
  {
  }

  /** A falling edge forgets the current code and the last code. */
  lemma FallingEdgeResets(s: State, r: Read, validate: bool)
    requires s.lastFlag == Some(true) && r.flag == Some(false)
    ensures Listen(s, r, validate) == (State(Some(false), None, None), None)
  {
  }

  /** Processed codes pass the format check. */
  lemma ProcessedAccepted(s: State, r: Read, validate: bool)
    requires Listen(s, r, validate).1.Some?
    ensures var qr := Listen(s, r, validate).1.value;
            Accepts(qr, validate) && r.code.Some? && qr == Strip(r.code.value)
            && Listen(s, r, validate).0.currentQr == Some(qr)
  {
  }

  /** While the flag stays high, a poll either leaves current_qr alone or
      sets it to the code it processes. */
  lemma HighPoll(s: State, r: Read, c: string, validate: bool)
    requires r.flag == Some(true) && (r.code.None? || Strip(r.code.value) == c)
    ensures var (s1, p) := Listen(s, r, validate);
            && (p.None? ==> s1.currentQr == s.currentQr)
            && (p.Some? ==> p.value == c && s1.currentQr == Some(c) && s.currentQr != Some(c))
  {
  }

  /** While the flag stays high and the register keeps showing the same
      code, that code is processed at most once, and not at all if it is
      already the current code. */
  lemma {:induction false} ProcessedOnceWhileHigh(s: State, polls: seq<Read>, c: string, validate: bool)
    requires forall i | 0 <= i < |polls| :: polls[i].flag == Some(true) && (polls[i].code.None? || Strip(polls[i].code.value) == c)
    ensures |Run(s, polls, validate).1| <= 1
    ensures s.currentQr == Some(c) ==> Run(s, polls, validate).1 == []
    ensures Run(s, polls, validate).0.currentQr == Some(c) || Run(s, polls, validate).0.currentQr == s.currentQr
    decreases |polls|
  {
    if polls != [] {
      var (s1, p) := Listen(s, polls[0], validate);
      HighPoll(s, polls[0], c, validate);
      assert forall i | 0 <= i < |polls| - 1 :: polls[1..][i] == polls[i + 1];
      ProcessedOnceWhileHigh(s1, polls[1..], c, validate);
      var rest := Run(s1, polls[1..], validate);
      assert Run(s, polls, validate).1 == (if p.Some? then [p.value] else []) + rest.1;
    }
  }

  /** After the flag drops, the same code can be processed again. */
  lemma ReprocessAfterDrop(s: State, code: string, validate: bool)
    requires s.lastFlag == Some(true) && Accepts(Strip(code), validate)
    ensures Run(s, [Read(Some(false), None), Read(Some(true), Some(code))], validate).1 == [Strip(code)]
  {
    var polls := [Read(Some(false), None), Read(Some(true), Some(code))];
    var s1 := Listen(s, polls[0], validate).0;
    assert s1 == State(Some(false), None, None);
    assert polls[1..] == [Read(Some(true), Some(code))];
    assert polls[1..][1..] == [];
    var (s2, p2) := Listen(s1, polls[1], validate);
    assert p2 == Some(Strip(code));
    assert Run(s1, polls[1..], validate).1 == [Strip(code)] + Run(s2, [], validate).1;
  }

  /** reset_state does not clear the loop's current code, and it forgets the
      last flag, so the next low reading is no falling edge: the same code is
      still ignored until the flag has gone high and low again. */
  lemma ResetKeepsCurrent(s: State, code: string, validate: bool)
    requires s.currentQr == Some(Strip(code))
    ensures Run(Reset(s), [Read(Some(false), None), Read(Some(true), Some(code))], validate).1 == []
  {
    var polls := [Read(Some(false), None), Read(Some(true), Some(code))];
    var s1 := Listen(Reset(s), polls[0], validate).0;
    assert s1.currentQr == s.currentQr;
    assert polls[1..] == [Read(Some(true), Some(code))];
    assert polls[1..][1..] == [];
    var (s2, p2) := Listen(s1, polls[1], validate);
    assert p2 == None;
    assert Run(s1, polls[1..], validate).1 == Run(s2, [], validate).1;
  }

  /** With validation on, a code that is not 'B' and nine more characters
      after stripping is never processed. */
  lemma ValidationRejects(s: State, r: Read)
    requires r.code.Some?
    requires var qr := Strip(r.code.value); |qr| != 10 || qr[0] != 'B'
    ensures Listen(s, r, true).1 == None
  {
  }

  /** The acknowledgement pulses the listener sends. */
  datatype Ack = ErrorAck | CodeAck(qr: string)

  /** The PUT queue and its next id after the guard chain: the row with the
      code and the home shelf's x, y, z is queued, under the next id, exactly
      when the chain ends in Enqueued. */
  function AfterPut(o: Outcome, q: seq<Row>, nextId: int, qr: string, now: int): (seq<Row>, int)
    requires Sorted(q)
  {
    if o.Enqueued? then (InsertByTime(q, Row(nextId, Some(qr), o.m.x, o.m.y, o.m.z, now)), nextId + 1) else (q, nextId)
  }

  /** The acknowledgements for one served code: the error pulse for an
      unregistered code, then the code's own pulse unless processing raised. */
  function ServeAcks(o: Outcome, qr: string, hasAckNode: bool): seq<Ack> {
    (if o == Unregistered && hasAckNode then [ErrorAck] else []) + (if o != Raised && hasAckNode then [CodeAck(qr)] else [])
  }

  class QrListener {
    const db: Pg
    /** loop's validate argument. */
    const validate: bool
    /** Whether the acknowledgement node is configured. */
    const hasAckNode: bool
    var lastFlag: Option<bool>
    var lastQr: Option<string>
    /** loop's local current_qr. */
    var currentQr: Option<string>
    var acks: seq<Ack>

    ghost predicate Valid()
      reads this, db
    {
      db.Valid()
    }

    function Memory(): State
      reads this
    {
      State(lastFlag, lastQr, currentQr)
    }

    constructor (db: Pg, validate: bool, hasAckNode: bool)
      requires db.Valid()
      ensures Valid() && this.db == db && this.validate == validate && this.hasAckNode == hasAckNode
      ensures Memory() == State(None, None, None) && acks == []
    {
      this.db := db;
      this.validate := validate;
      this.hasAckNode := hasAckNode;
      lastFlag, lastQr, currentQr := None, None, None;
      acks := [];
    }

    /** reset_state */
    method ResetState()
      modifies this`lastQr, this`lastFlag
      ensures Memory() == Reset(old(Memory()))
    {
      lastQr := None;
      lastFlag := None;
    }

    /** _process_qr_code: the guard chain, then the insert; raised tells
        whether the exception escaped. */
    method ProcessQrCode(qr: string, env: Env) returns (raised: bool)
      requires Valid()
      modifies db`queuePut, db`nextPutId, this`acks
      ensures Valid()
      ensures var o := Decide(db.shelves, db.assignment, old(db.queuePut), qr, env);
              && raised == (o == Raised)
              && (o.Enqueued? ==>
                    && db.queuePut == InsertByTime(old(db.queuePut), Row(old(db.nextPutId), Some(qr), o.m.x, o.m.y, o.m.z, env.now))
                    && db.nextPutId == old(db.nextPutId) + 1)
              && (!o.Enqueued? ==> db.queuePut == old(db.queuePut) && db.nextPutId == old(db.nextPutId))
              && acks == old(acks) + (if o == Unregistered && hasAckNode then [ErrorAck] else [])
    {
      ghost var o := Decide(db.shelves, db.assignment, db.queuePut, qr, env);
      raised := false;
      var mapping := if env.mappingFails then None else MappingFor(db.shelves, db.assignment, qr);
      if mapping.None? {
        assert o == Unregistered;
        if hasAckNode {
          acks := acks + [ErrorAck];
        }
        return;
      }
      var m := mapping.value;
      var occupied: Option<int> := None;
      if !env.occupancyFails {
        occupied := db.GetShelfOfBasket(qr);
      }
      if occupied.Some? {
        assert Stored(db.shelves, Strip(qr)) && o == AlreadyStored;
        return;
      }
      assert env.occupancyFails || !Stored(db.shelves, Strip(qr));
      if env.shelfQueryFails || m.shelfId !in db.shelves {
        assert o == ShelfCheckFailed || o == ShelfMissing;
        return;
      }
      var shelf := db.shelves[m.shelfId];
      if shelf.active || Truthy(shelf.basket) {
        assert o == ShelfBusy || o == ShelfTaken;
        return;
      }
      if env.canUseFails || !CanUse(db.shelves, m.shelfId) {
        assert o == Unusable;
        return;
      }
      if env.cursorFails {
        assert o == Raised;
        return true;
      }
      if env.selectFails || Queued(db.queuePut, qr) || env.ready == Some(false) || env.insertFails {
        assert o == PutFailed || o == Duplicate || o == Busy;
        return;
      }
      assert o == Enqueued(m);
      db.InsertPut(Some(qr), m.x, m.y, m.z, env.now);
    }

    /** The part of loop that follows a new acceptable code: process it
        and, unless that raised, acknowledge it. */
    method Serve(qr: string, env: Env) returns (raised: bool)
      requires Valid()
      modifies this`acks, db`queuePut, db`nextPutId
      ensures Valid()
      ensures var o := Decide(db.shelves, db.assignment, old(db.queuePut), qr, env);
              && raised == (o == Raised)
              && acks == old(acks) + ServeAcks(o, qr, hasAckNode)
              && (db.queuePut, db.nextPutId) == AfterPut(o, old(db.queuePut), old(db.nextPutId), qr, env.now)
    {
      ghost var o := Decide(db.shelves, db.assignment, db.queuePut, qr, env);
      ghost var acks0 := acks;
      raised := ProcessQrCode(qr, env);
      assert (db.queuePut, db.nextPutId) == AfterPut(o, old(db.queuePut), old(db.nextPutId), qr, env.now);
      ghost var acks1 := acks;
      if !raised && hasAckNode {
        acks := acks + [CodeAck(qr)];
      }
      assert acks == acks0 + ServeAcks(o, qr, hasAckNode) by {
        assert acks1 == acks0 + (if o == Unregistered && hasAckNode then [ErrorAck] else []);
      }
    }

    /** One iteration of loop: read the flag and the code, reset on a
        falling edge, process a new acceptable code and acknowledge it. */
    method Poll(r: Read, env: Env)
      requires Valid()
      modifies this`lastFlag, this`lastQr, this`currentQr, this`acks, db`queuePut, db`nextPutId
      ensures Valid()
      ensures Listen(old(Memory()), r, validate).1.None? ==>
                && Memory() == Listen(old(Memory()), r, validate).0 && acks == old(acks)
                && db.queuePut == old(db.queuePut) && db.nextPutId == old(db.nextPutId)
      ensures Listen(old(Memory()), r, validate).1.Some? ==>
                var s1 := Listen(old(Memory()), r, validate).0;
                var qr := Listen(old(Memory()), r, validate).1.value;
                var o := Decide(db.shelves, db.assignment, old(db.queuePut), qr, env);
                && Memory() == (if o == Raised then s1.(lastFlag := old(lastFlag)) else s1)
                && acks == old(acks) + ServeAcks(o, qr, hasAckNode)
                && (db.queuePut, db.nextPutId) == AfterPut(o, old(db.queuePut), old(db.nextPutId), qr, env.now)
    {
      ghost var s0 := Memory();
      if r.flag.None? {
        return;
      }
      var flag := r.flag.value;
      if !flag && lastFlag == Some(true) {
        lastQr := None;
        currentQr := None;
      }
      ghost var s1 := Memory();
      assert s1 == if !flag && s0.lastFlag == Some(true) then s0.(lastQr := None, currentQr := None) else s0;
      if flag {
        if r.code.None? {
          assert Listen(s0, r, validate) == (s1, None);
          return;
        }
        var qr := Strip(r.code.value);
        var ok := !validate || (|qr| == 10 && qr[0] == 'B');
        if ok && qr != "" && currentQr != Some(qr) {
          assert Listen(s0, r, validate) == (State(Some(true), Some(qr), Some(qr)), Some(qr));
          currentQr := Some(qr);
          lastQr := Some(qr);
          var raised := Serve(qr, env);
          if raised {
            assert Memory() == State(s0.lastFlag, Some(qr), Some(qr));
            return;
          }
        } else {
          assert Listen(s0, r, validate) == (s1.(lastFlag := Some(true)), None);
        }
      } else {
        assert Listen(s0, r, validate) == (s1.(lastFlag := Some(false)), None);
      }
      lastFlag := Some(flag);
    }
  }
}
