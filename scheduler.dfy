/** The job scheduler of the mover (asrs_lib/asrs_mover.py, _select_next and
    its inner first_usable): FIFO within each queue over the rows whose
    basket has a usable home shelf, pruning rows with no mapping, and the
    earlier of the two candidates across queues with ties going to PICK. */
module Scheduler {
  import opened Wrappers
  import opened Store
  import opened Command

  /** The lookups first_usable makes that raise, by queue row id: the mapping
      lookup, the delete of an unmapped row, the usability check. */
  datatype Faults = Faults(mappingFails: set<int>, deleteFails: set<int>, canUseFails: set<int>)

  /** What first_usable makes of one row. */
  datatype Verdict =
    | Usable(m: Mapping)   // returned as the candidate
    | Unmapped             // deleted from its queue and passed over
    | Skipped              // passed over and left in place

  function Classify(shelves: Shelves, assign: Assignment, row: Row, f: Faults): (v: Verdict)
    ensures v.Usable? ==> row.basket.Some? && MappingFor(shelves, assign, row.basket.value) == Some(v.m) && CanUse(shelves, v.m.shelfId)
    ensures v.Unmapped? <==> row.basket.Some? && row.id !in f.mappingFails && MappingFor(shelves, assign, row.basket.value).None?
  {
    // a NULL basket makes the lookup raise as well (None has no strip())
    if row.basket.None? || row.id in f.mappingFails then Skipped
    else
      match MappingFor(shelves, assign, row.basket.value)
      case None => Unmapped
      case Some(m) => if row.id !in f.canUseFails && CanUse(shelves, m.shelfId) then Usable(m) else Skipped
  }

  /** The candidate first_usable returns and the ids it deleted, in order. */
  datatype Scan = Scan(found: Option<(Row, Mapping)>, pruned: seq<int>)

  function FirstUsable(rows: seq<Row>, shelves: Shelves, assign: Assignment, f: Faults): (s: Scan)
    ensures s.found.Some? ==> s.found.value.0 in rows && Classify(shelves, assign, s.found.value.0, f) == Usable(s.found.value.1)
    ensures s.found.None? ==> forall i | 0 <= i < |rows| :: !Classify(shelves, assign, rows[i], f).Usable?
  {
    if rows == [] then Scan(None, [])
    else
      assert forall i | 1 <= i < |rows| :: rows[i] == rows[1..][i - 1];
      Step(Classify(shelves, assign, rows[0], f), rows[0], FirstUsable(rows[1..], shelves, assign, f), f)
  }

  /** What first_usable does with one row, given the scan of the rows after
      it. */
  function Step(v: Verdict, row: Row, rest: Scan, f: Faults): Scan {
    match v
    case Usable(m) => Scan(Some((row, m)), [])
    case Skipped => rest
    case Unmapped => Then(Pruned(v, row, f), rest)
  }

  /** The position of the first usable row, or |rows| when there is none. */
  function FirstIndex(rows: seq<Row>, shelves: Shelves, assign: Assignment, f: Faults): (k: nat)
    ensures k <= |rows|
    ensures forall i | 0 <= i < k :: !Classify(shelves, assign, rows[i], f).Usable?
    ensures k < |rows| ==> Classify(shelves, assign, rows[k], f).Usable?
  {
    if rows == [] then 0
    else if Classify(shelves, assign, rows[0], f).Usable? then 0
    else
      var k := FirstIndex(rows[1..], shelves, assign, f);
      assert forall i | 1 <= i < |rows| :: rows[i] == rows[1..][i - 1];
      1 + k
  }

  /** The ids of the unmapped rows whose delete goes through, in order. */
  function Unmappeds(rows: seq<Row>, shelves: Shelves, assign: Assignment, f: Faults): seq<int> {
    if rows == [] then []
    else Pruned(Classify(shelves, assign, rows[0], f), rows[0], f) + Unmappeds(rows[1..], shelves, assign, f)
  }

  /** The ids first_usable deletes for one row it passes over. */
  function Pruned(v: Verdict, row: Row, f: Faults): seq<int> {
    if v.Unmapped? && row.id !in f.deleteFails then [row.id] else []
  }

  /** An id is pruned exactly when some row of the window carries it, has no
      mapping, and its delete goes through. */
  lemma {:induction false} UnmappedsExactly(rows: seq<Row>, shelves: Shelves, assign: Assignment, f: Faults, id: int)
    ensures id in Unmappeds(rows, shelves, assign, f) <==>
              exists i | 0 <= i < |rows| :: rows[i].id == id && id !in f.deleteFails && Classify(shelves, assign, rows[i], f).Unmapped?
  {
    if rows != [] {
      var rest := rows[1..];
      UnmappedsExactly(rest, shelves, assign, f, id);
      var head := Pruned(Classify(shelves, assign, rows[0], f), rows[0], f);
      if id in Unmappeds(rows, shelves, assign, f) {
        if id in head {
          assert rows[0].id == id && id !in f.deleteFails && Classify(shelves, assign, rows[0], f).Unmapped?;
        } else {
          var j :| 0 <= j < |rest| && rest[j].id == id && id !in f.deleteFails && Classify(shelves, assign, rest[j], f).Unmapped?;
          assert rows[j + 1] == rest[j];
        }
      }
      if exists i | 0 <= i < |rows| :: rows[i].id == id && id !in f.deleteFails && Classify(shelves, assign, rows[i], f).Unmapped? {
        var i :| 0 <= i < |rows| && rows[i].id == id && id !in f.deleteFails && Classify(shelves, assign, rows[i], f).Unmapped?;
        if i == 0 {
          assert id in head;
        } else {
          assert rest[i - 1] == rows[i];
        }
      }
    }
  }

  /** first_usable returns the first usable row of the window with its
      mapping, or nothing when no row is usable, and deletes exactly the
      unmapped rows before that candidate. */
  lemma {:induction false} FirstUsableIsFirst(rows: seq<Row>, shelves: Shelves, assign: Assignment, f: Faults)
    ensures var k := FirstIndex(rows, shelves, assign, f);
            var s := FirstUsable(rows, shelves, assign, f);
            && (s.found.None? <==> k == |rows|)
            && (s.found.Some? ==> s.found.value == (rows[k], Classify(shelves, assign, rows[k], f).m))
            && s.pruned == Unmappeds(rows[..k], shelves, assign, f)
  {
    if rows != [] {
      var k := FirstIndex(rows, shelves, assign, f);
      var v := Classify(shelves, assign, rows[0], f);
      var tail := rows[1..];
      var rest := FirstUsable(tail, shelves, assign, f);
      assert FirstUsable(rows, shelves, assign, f) == Step(v, rows[0], rest, f);
      if v.Usable? {
        assert k == 0 && rows[..k] == [];
      } else {
        FirstUsableIsFirst(tail, shelves, assign, f);
        var k' := FirstIndex(tail, shelves, assign, f);
        assert k == k' + 1;
        assert rows[..k][0] == rows[0] && rows[..k][1..] == tail[..k'];
        assert Unmappeds(rows[..k], shelves, assign, f) == Pruned(v, rows[0], f) + Unmappeds(tail[..k'], shelves, assign, f);
        if k' < |tail| {
          assert tail[k'] == rows[k];
        }
      }
    }
  }

  /** A row whose basket has no mapping is never the candidate. */
  lemma UnmappedNeverChosen(rows: seq<Row>, shelves: Shelves, assign: Assignment, f: Faults, i: nat)
    requires i < |rows| && Classify(shelves, assign, rows[i], f).Unmapped?
    requires FirstUsable(rows, shelves, assign, f).found.Some?
    ensures FirstUsable(rows, shelves, assign, f).found.value.0 != rows[i]
  {
    FirstUsableIsFirst(rows, shelves, assign, f);
  }

  /** The scan of one queue's window: rows with no mapping are deleted from
      the queue the methode names as they are met. */
  method FirstUsableScan(db: Pg, methode: string, rows: seq<Row>, f: Faults) returns (found: Option<(Row, Mapping)>)
    requires db.Valid()
    modifies db`queuePick, db`queuePut
    ensures db.Valid()
    ensures found == FirstUsable(rows, db.shelves, db.assignment, f).found
    ensures Deleted(methode, db.queuePick, db.queuePut, old(db.queuePick), old(db.queuePut), FirstUsable(rows, db.shelves, db.assignment, f).pruned)
  {
    ghost var sh, asg := db.shelves, db.assignment;
    ghost var pick0, put0 := db.queuePick, db.queuePut;
    ghost var target := FirstUsable(rows, sh, asg, f);
    var i := 0;
    ghost var pruned: seq<int> := [];
    DeletedNothing(methode, pick0, put0);
    assert rows[0..] == rows;
    ThenNothing(target);
    while i < |rows|
      invariant 0 <= i <= |rows|
      invariant db.Valid() && db.shelves == sh && db.assignment == asg
      invariant target == Then(pruned, FirstUsable(rows[i..], sh, asg, f))
      invariant Deleted(methode, db.queuePick, db.queuePut, pick0, put0, pruned)
    {
      ghost var pick1, put1 := db.queuePick, db.queuePut;
      var v := ScanRow(db, methode, rows[i], f);
      ScanStep(rows, i, sh, asg, f);
      ThenStep(pruned, v, rows[i], FirstUsable(rows[i + 1..], sh, asg, f), f);
      if v.Usable? {
        return Some((rows[i], v.m));
      }
      DeletedThen(methode, pick0, put0, pick1, put1, db.queuePick, db.queuePut, pruned, Pruned(v, rows[i], f));
      pruned := pruned + Pruned(v, rows[i], f);
      i := i + 1;
    }
    assert rows[i..] == [] && pruned + [] == pruned;
    assert target == Scan(None, pruned);
    found := None;
  }

  /** One row of first_usable's loop: the mapping lookup, the delete of a
      row with no mapping, the usability check. */
  method ScanRow(db: Pg, methode: string, r: Row, f: Faults) returns (v: Verdict)
    requires db.Valid()
    modifies db`queuePick, db`queuePut
    ensures db.Valid()
    ensures v == Classify(db.shelves, db.assignment, r, f)
    ensures Deleted(methode, db.queuePick, db.queuePut, old(db.queuePick), old(db.queuePut), Pruned(v, r, f))
  {
    DeletedNothing(methode, db.queuePick, db.queuePut);
    if r.basket.None? || r.id in f.mappingFails {
      // the lookup raised: skip the row
      return Skipped;
    }
    var mapping := MappingFor(db.shelves, db.assignment, r.basket.value);
    if mapping.None? {
      if r.id !in f.deleteFails {
        RemoveIdsSnoc(db.queuePick, [], r.id);
        RemoveIdsSnoc(db.queuePut, [], r.id);
        assert [] + [r.id] == [r.id];
        db.DeleteQueueRow(methode, r.id);
      }
      return Unmapped;
    }
    if r.id !in f.canUseFails && CanUse(db.shelves, mapping.value.shelfId) {
      return Usable(mapping.value);
    }
    return Skipped;
  }

  /** The queues (pick, put) are (pick0, put0) with the given ids deleted
      from the one the methode names. */
  predicate Deleted(methode: string, pick: seq<Row>, put: seq<Row>, pick0: seq<Row>, put0: seq<Row>, ids: seq<int>) {
    if methode == "PICK" then pick == RemoveIds(pick0, ids) && put == put0
    else put == RemoveIds(put0, ids) && pick == pick0
  }

  lemma DeletedNothing(methode: string, pick: seq<Row>, put: seq<Row>)
    ensures Deleted(methode, pick, put, pick, put, [])
  {
  }

  /** Two rounds of deletes, the second of at most one id, are one round. */
  lemma DeletedThen(methode: string, pick0: seq<Row>, put0: seq<Row>, pick1: seq<Row>, put1: seq<Row>,
                    pick2: seq<Row>, put2: seq<Row>, ids: seq<int>, more: seq<int>)
    requires |more| <= 1
    requires Deleted(methode, pick1, put1, pick0, put0, ids)
    requires Deleted(methode, pick2, put2, pick1, put1, more)
    ensures Deleted(methode, pick2, put2, pick0, put0, ids + more)
  {
    RemoveIdsThen(pick0, ids, more);
    RemoveIdsThen(put0, ids, more);
  }

  lemma RemoveIdsSnoc(q: seq<Row>, ids: seq<int>, id: int)
    ensures RemoveIds(q, ids + [id]) == WithoutId(RemoveIds(q, ids), id)
  {
    assert (ids + [id])[..|ids|] == ids;
  }

  /** Deleting at most one more id after a run of deletes. */
  lemma RemoveIdsThen(q: seq<Row>, ids: seq<int>, more: seq<int>)
    requires |more| <= 1
    ensures RemoveIds(RemoveIds(q, ids), more) == RemoveIds(q, ids + more)
  {
    if more == [] {
      assert ids + more == ids;
    } else {
      RemoveIdsSnoc(q, ids, more[0]);
      RemoveIdsSnoc(RemoveIds(q, ids), [], more[0]);
      assert [] + [more[0]] == more;
    }
  }

  /** A scan with nothing deleted before it. */
  lemma ThenNothing(s: Scan)
    ensures Then([], s) == s
  {
    assert [] + s.pruned == s.pruned;
  }

  /** One step of the loop in terms of Then: a usable row ends the scan with
      the ids deleted so far; any other row adds its own deletes. */
  lemma ThenStep(pruned: seq<int>, v: Verdict, row: Row, rest: Scan, f: Faults)
    ensures Then(pruned, Step(v, row, rest, f))
         == if v.Usable? then Scan(Some((row, v.m)), pruned) else Then(pruned + Pruned(v, row, f), rest)
  {
    assert pruned + [] == pruned;
    assert pruned + (Pruned(v, row, f) + rest.pruned) == (pruned + Pruned(v, row, f)) + rest.pruned;
  }

  /** One step of first_usable at position i. */
  lemma ScanStep(rows: seq<Row>, i: nat, shelves: Shelves, assign: Assignment, f: Faults)
    requires i < |rows|
    ensures FirstUsable(rows[i..], shelves, assign, f)
         == Step(Classify(shelves, assign, rows[i], f), rows[i], FirstUsable(rows[i + 1..], shelves, assign, f), f)
  {
    assert rows[i..][1..] == rows[i + 1..];
  }

  /** A scan result after the given ids were already deleted. */
  function Then(pruned: seq<int>, s: Scan): Scan {
    Scan(s.found, pruned + s.pruned)
  }

  /** The job the mover runs next. */
  datatype Choice = Choice(m: Method, row: Row, mapping: Mapping)

  /** The choice between the two candidates; compareFails stands for a
      created_at comparison that raises. */
  function Choose(p: Option<(Row, Mapping)>, q: Option<(Row, Mapping)>, compareFails: bool): (c: Option<Choice>)
    ensures c.None? <==> p.None? && q.None?
    ensures c.Some? ==> || (c.value.m == Pick && p == Some((c.value.row, c.value.mapping)))
                        || (c.value.m == Put && q == Some((c.value.row, c.value.mapping)))
  {
    if p.Some? && q.None? then Some(Choice(Pick, p.value.0, p.value.1))
    else if q.Some? && p.None? then Some(Choice(Put, q.value.0, q.value.1))
    else if p.Some? && q.Some? then
      if compareFails || p.value.0.createdAt <= q.value.0.createdAt then Some(Choice(Pick, p.value.0, p.value.1))
      else Some(Choice(Put, q.value.0, q.value.1))
    else None
  }

  /** A job is chosen exactly when one queue has a candidate; it is a
      candidate of the queue its method names; with both present and a
      working comparison it is the one created first, PICK on a tie. */
  lemma ChooseFifo(p: Option<(Row, Mapping)>, q: Option<(Row, Mapping)>, compareFails: bool)
    ensures var c := Choose(p, q, compareFails);
            && (c.None? <==> p.None? && q.None?)
            && (c.Some? && c.value.m == Pick ==> p == Some((c.value.row, c.value.mapping)))
            && (c.Some? && c.value.m == Put ==> q == Some((c.value.row, c.value.mapping)))
            && (c.Some? && p.Some? && q.Some? && !compareFails ==>
                  c.value.row.createdAt <= p.value.0.createdAt && c.value.row.createdAt <= q.value.0.createdAt
                  && (p.value.0.createdAt == q.value.0.createdAt ==> c.value.m == Pick))
            && (p.Some? && q.Some? && compareFails ==> c.value.m == Pick)
  {
  }

  /** _select_next as a function of the queues before the call. */
  function Selection(queuePick: seq<Row>, queuePut: seq<Row>, shelves: Shelves, assign: Assignment, window: nat,
                     pickFaults: Faults, putFaults: Faults, compareFails: bool): (c: Option<Choice>)
    ensures c.Some? && c.value.m == Pick ==>
              c.value.row in queuePick && Classify(shelves, assign, c.value.row, pickFaults) == Usable(c.value.mapping)
    ensures c.Some? && c.value.m == Put ==>
              c.value.row in queuePut && Classify(shelves, assign, c.value.row, putFaults) == Usable(c.value.mapping)
  {
    Choose(FirstUsable(Window(queuePick, window), shelves, assign, pickFaults).found,
           FirstUsable(Window(queuePut, window), shelves, assign, putFaults).found, compareFails)
  }

  /** _select_next: read both windows, scan each, choose. */
  method SelectNext(db: Pg, window: nat, pickFaults: Faults, putFaults: Faults, compareFails: bool) returns (c: Option<Choice>)
    requires db.Valid()
    modifies db`queuePick, db`queuePut
    ensures db.Valid()
    ensures c == Selection(old(db.queuePick), old(db.queuePut), db.shelves, db.assignment, window, pickFaults, putFaults, compareFails)
    ensures db.queuePick == RemoveIds(old(db.queuePick), FirstUsable(Window(old(db.queuePick), window), db.shelves, db.assignment, pickFaults).pruned)
    ensures db.queuePut == RemoveIds(old(db.queuePut), FirstUsable(Window(old(db.queuePut), window), db.shelves, db.assignment, putFaults).pruned)
  {
    var picks, puts := db.NextCommandWindow(window);
    var p := FirstUsableScan(db, "PICK", picks, pickFaults);
    var q := FirstUsableScan(db, "PUT", puts, putFaults);
    c := Choose(p, q, compareFails);
  }

  /** A pick row created at t=1 and a put row created at t=2, both usable:
      the pick row is chosen; with equal times as well. */
  lemma PickFirstExample(p: Row, q: Row, pm: Mapping, qm: Mapping)
    requires p.createdAt <= q.createdAt
    ensures Choose(Some((p, pm)), Some((q, qm)), false) == Some(Choice(Pick, p, pm))
  {
  }
}
