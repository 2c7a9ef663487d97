/** The occupancy store and the two job queues (asrs_lib/db.py, class Pg).
    shelf_data becomes a map from shelf id to a Shelf, basket_data a map from
    basket id to its home shelf, queue_pick and queue_put sequences of rows kept
    in created_at order, and operation_history an append-only sequence. A
    transaction is an all-or-nothing update of these values. */
module Store {
  import opened Wrappers
  import opened Text
  import opened BasketId

  /** One row of shelf_data: the nullable occupant, the occupied flag, the
      nullable availability flag and the grid position. */
  datatype Shelf = Shelf(basket: Option<string>, active: bool, canUse: Option<bool>, x: int, y: int, z: int)

  type Shelves = map<int, Shelf>

  /** basket_data: the static home shelf of each basket id. */
  type Assignment = map<string, int>

  /** A (shelf_id, x, y, z) tuple returned by get_mapping_for_basket. */
  datatype Mapping = Mapping(shelfId: int, x: int, y: int, z: int)

  /** A row of queue_pick or queue_put. */
  datatype Row = Row(id: int, basket: Option<string>, x: int, y: int, z: int, createdAt: int)

  datatype Op = PutOp | PickOp

  /** A row of operation_history (its status is always 'success'). */
  datatype HistoryRow = HistoryRow(shelfId: int, basket: Option<string>, op: Op)

  /** The ValueErrors move_put raises. */
  datatype MoveError =
    | MissingBasket             // "basket_id is required for move_put"
    | BadBasket(reason: NormError)
    | NoSuchShelf               // the destination row does not exist
    | Occupied(other: string)   // the destination holds another basket

  /** {"cleared_from": [...], "placed_to": shelf_id}; the order of array_agg
      is unspecified, so the cleared shelves are a set. */
  datatype MoveInfo = MoveInfo(clearedFrom: set<int>, placedTo: int)

  // ---- queries -------------------------------------------------------------

  /** get_mapping_for_basket: the home shelf of the stripped basket id with
      that shelf's coordinates; the join drops an assignment whose shelf row
      is missing. */
  function MappingFor(shelves: Shelves, assign: Assignment, basket: string): (r: Option<Mapping>)
    ensures r.Some? ==> Strip(basket) in assign && r.value.shelfId == assign[Strip(basket)] && r.value.shelfId in shelves
    ensures r.Some? ==> var s := shelves[r.value.shelfId]; r.value.x == s.x && r.value.y == s.y && r.value.z == s.z
    ensures Strip(basket) !in assign ==> r.None?
  {
    var key := Strip(basket);
    if key in assign && assign[key] in shelves then
      var s := shelves[assign[key]];
      Some(Mapping(assign[key], s.x, s.y, s.z))
    else
      None
  }

  /** The converse of MappingFor's contract: an assigned id whose shelf
      row exists is found. */
  lemma MappingForFound(shelves: Shelves, assign: Assignment, basket: string)
    requires Strip(basket) in assign && assign[Strip(basket)] in shelves
    ensures MappingFor(shelves, assign, basket).Some?
  {
  }

  /** shelf_can_use: false for a missing shelf and for a NULL flag. */
  predicate CanUse(shelves: Shelves, shelfId: int)
    ensures shelfId !in shelves ==> !CanUse(shelves, shelfId)
    ensures shelfId in shelves && shelves[shelfId].canUse.None? ==> !CanUse(shelves, shelfId)
    ensures CanUse(shelves, shelfId) ==> shelves[shelfId].canUse == Some(true)
  {
    shelfId in shelves && shelves[shelfId].canUse == Some(true)
  }

  /** A shelf whose can_use is set reads as that flag's truth value. */
  lemma CanUseFlag(shelves: Shelves, shelfId: int)
    requires shelfId in shelves && shelves[shelfId].canUse.Some?
    ensures CanUse(shelves, shelfId) == shelves[shelfId].canUse.value
  {
  }

  /** The shelves whose occupant is bid. */
  function Holders(shelves: Shelves, bid: string): set<int> {
    set k | k in shelves && shelves[k].basket == Some(bid)
  }

  /** The shelf layout (ids, positions, availability) two tables share. */
  predicate SameLayout(a: Shelves, b: Shelves) {
    a.Keys == b.Keys
    && forall k | k in a :: b[k].canUse == a[k].canUse && b[k].x == a[k].x && b[k].y == a[k].y && b[k].z == a[k].z
  }

  /** A shelf is active exactly when it holds a basket. */
  predicate Consistent(shelves: Shelves) {
    forall k | k in shelves :: shelves[k].active <==> shelves[k].basket.Some?
  }

  /** No basket occupies two shelves. */
  predicate OneShelfEach(shelves: Shelves) {
    forall j, k | j in shelves && k in shelves && shelves[j].basket.Some? && shelves[j].basket == shelves[k].basket :: j == k
  }

  // ---- occupancy updates ---------------------------------------------------

  /** SET basket_id = NULL, active = FALSE WHERE shelf_id = id (no row: no
      change). */
  function Vacate(shelves: Shelves, shelfId: int): (r: Shelves)
    ensures SameLayout(shelves, r)
    ensures shelfId in r ==> r[shelfId].basket.None? && !r[shelfId].active
    ensures forall k | k in shelves && k != shelfId :: r[k] == shelves[k]
  {
    if shelfId in shelves then shelves[shelfId := shelves[shelfId].(basket := None, active := false)] else shelves
  }

  /** Step 1 of move_put: every shelf holding bid is vacated. */
  function ClearBasket(shelves: Shelves, bid: string): Shelves {
    map k | k in shelves :: if shelves[k].basket == Some(bid) then shelves[k].(basket := None, active := false) else shelves[k]
  }

  /** The destination holds a basket other than bid (dest_has_other). */
  predicate HoldsOther(s: Shelf, bid: string) {
    s.basket.Some? && s.basket.value != bid
  }

  /** move_put as one transaction: the new shelf table and the returned info,
      or the error, in which case the whole table is left as it was. */
  function MovePutResult(shelves: Shelves, shelfId: int, basket: string, allowOverwrite: bool)
    : (r: Result<(Shelves, MoveInfo), MoveError>)
    ensures r.Success? ==> Normalize(StrValue(basket)).Success? && shelfId in shelves
    ensures r.Success? ==> var after := r.value.0;
                           && after.Keys == shelves.Keys && r.value.1.placedTo == shelfId
                           && after[shelfId] == shelves[shelfId].(basket := Some(Normalize(StrValue(basket)).value), active := true)
  {
    if basket == "" then Failure(MissingBasket)
    else
      match Normalize(StrValue(basket))
      case Failure(e) => Failure(BadBasket(e))
      case Success(bid) =>
        var p := Place(shelves, shelfId, bid, allowOverwrite);
        if p.Success? then PlacePlaces(shelves, shelfId, bid, allowOverwrite); p else p
  }

  /** The three steps of move_put for the normalised basket id bid. */
  function Place(shelves: Shelves, shelfId: int, bid: string, allowOverwrite: bool)
    : Result<(Shelves, MoveInfo), MoveError>
  {
    var cleared := ClearBasket(shelves, bid);
    if shelfId !in cleared then Failure(NoSuchShelf)
    else if HoldsOther(cleared[shelfId], bid) && !allowOverwrite then Failure(Occupied(cleared[shelfId].basket.value))
    else
      var freed := if HoldsOther(cleared[shelfId], bid) then Vacate(cleared, shelfId) else cleared;
      Success((freed[shelfId := freed[shelfId].(basket := Some(bid), active := true)], MoveInfo(Holders(shelves, bid), shelfId)))
  }

  /** The occupant mark_shelf_occupied writes: the stripped text of a
      non-empty basket, NULL otherwise. */
  function OccupantOf(basket: Option<string>): Option<string> {
    if basket.Some? && basket.value != "" then Some(Strip(basket.value)) else None
  }

  /** The shelf change of mark_shelf_occupied. */
  function Occupy(shelves: Shelves, shelfId: int, basket: Option<string>): (r: Shelves)
    ensures SameLayout(shelves, r)
    ensures shelfId in r ==> r[shelfId].basket == OccupantOf(basket) && r[shelfId].active
    ensures forall k | k in shelves && k != shelfId :: r[k] == shelves[k]
  {
    if shelfId in shelves then shelves[shelfId := shelves[shelfId].(basket := OccupantOf(basket), active := true)] else shelves
  }

  // ---- queues --------------------------------------------------------------

  /** Rows in ascending created_at order. */
  predicate Sorted(q: seq<Row>) {
    forall i, j | 0 <= i < j < |q| :: q[i].createdAt <= q[j].createdAt
  }

  /** Where an inserted row lands in a queue read in created_at order: after
      every row created no later than it. */
  function InsertByTime(q: seq<Row>, row: Row): (r: seq<Row>)
    requires Sorted(q)
    ensures Sorted(r)
    ensures multiset(r) == multiset(q) + multiset{row}
    ensures forall x | x in r :: x in q || x == row
  {
    if q == [] || q[|q| - 1].createdAt <= row.createdAt then
      AppendSorted(q, row);
      q + [row]
    else
      var init, last := q[..|q| - 1], q[|q| - 1];
      assert q == init + [last];
      var r0 := InsertByTime(init, row);
      assert forall i | 0 <= i < |r0| :: r0[i] in init || r0[i] == row;
      AppendSorted(r0, last);
      r0 + [last]
  }

  lemma AppendSorted(q: seq<Row>, row: Row)
    requires Sorted(q)
    requires forall i | 0 <= i < |q| :: q[i].createdAt <= row.createdAt
    ensures Sorted(q + [row])
  {
  }

  /** SELECT ... ORDER BY created_at ASC LIMIT limit. */
  function Window(q: seq<Row>, limit: nat): (r: seq<Row>)
    ensures |r| <= limit && r <= q && (|r| < limit ==> r == q)
    ensures forall x | x in r :: x in q
    ensures Sorted(q) ==> Sorted(r)
  {
    q[..if limit < |q| then limit else |q|]
  }

  /** DELETE FROM queue WHERE id = id. */
  function WithoutId(q: seq<Row>, id: int): (r: seq<Row>)
    ensures forall x :: x in r <==> x in q && x.id != id
    ensures Sorted(q) ==> Sorted(r)
  {
    if q == [] then []
    else
      var init, last := q[..|q| - 1], q[|q| - 1];
      assert q == init + [last];
      if last.id == id then WithoutId(init, id) else WithoutId(init, id) + [last]
  }

  /** The rows left after deleting the given ids one after another. */
  function RemoveIds(q: seq<Row>, ids: seq<int>): (r: seq<Row>)
    ensures forall x :: x in r <==> x in q && x.id !in ids
    ensures Sorted(q) ==> Sorted(r)
  {
    if ids == [] then q
    else
      var init := ids[..|ids| - 1];
      assert ids == init + [ids[|ids| - 1]];
      WithoutId(RemoveIds(q, init), ids[|ids| - 1])
  }

  /** has_pending_put: some queue_put row carries the stripped basket id. */
  predicate HasPendingPut(q: seq<Row>, basket: string) {
    exists i | 0 <= i < |q| :: q[i].basket == Some(Strip(basket))
  }

  /** The database: the tables the core reads and writes. */
  class Pg {
    var shelves: Shelves
    var assignment: Assignment
    var queuePick: seq<Row>
    var queuePut: seq<Row>
    var history: seq<HistoryRow>
    var nextPickId: int   // the SERIAL sequence of queue_pick.id
    var nextPutId: int    // the SERIAL sequence of queue_put.id

    ghost predicate Valid()
      reads this
    {
      && Sorted(queuePick) && Sorted(queuePut)
      && (forall r | r in queuePick :: r.id < nextPickId)
      && (forall r | r in queuePut :: r.id < nextPutId)
    }

    constructor (shelves: Shelves, assignment: Assignment)
      ensures Valid()
      ensures this.shelves == shelves && this.assignment == assignment
      ensures queuePick == [] && queuePut == [] && history == []
    {
      this.shelves := shelves;
      this.assignment := assignment;
      queuePick, queuePut, history := [], [], [];
      nextPickId, nextPutId := 1, 1;
    }

    /** move_put: vacate the basket's old shelves, check the destination,
        place the basket; any error rolls all three steps back. */
    method MovePut(shelfId: int, basket: string, allowOverwrite: bool) returns (r: Result<MoveInfo, MoveError>)
      requires Valid()
      modifies this`shelves
      ensures Valid()
      ensures match MovePutResult(old(shelves), shelfId, basket, allowOverwrite)
              case Success(p) => r == Success(p.1) && shelves == p.0
              case Failure(e) => r == Failure(e) && shelves == old(shelves)
    {
      if basket == "" {
        return Failure(MissingBasket);
      }
      var n := Normalize(StrValue(basket));
      if n.Failure? {
        return Failure(BadBasket(n.error));
      }
      var bid := n.value;
      var snapshot := shelves;
      // 1) clear the basket's previous shelves
      var clearedFrom := Holders(shelves, bid);
      shelves := ClearBasket(shelves, bid);
      // 2) check the destination
      if shelfId !in shelves {
        shelves := snapshot;
        return Failure(NoSuchShelf);
      }
      var destHasOther := HoldsOther(shelves[shelfId], bid);
      if destHasOther && !allowOverwrite {
        var other := shelves[shelfId].basket.value;
        shelves := snapshot;
        return Failure(Occupied(other));
      }
      if destHasOther && allowOverwrite {
        shelves := Vacate(shelves, shelfId);
      }
      // 3) place the basket
      shelves := shelves[shelfId := shelves[shelfId].(basket := Some(bid), active := true)];
      r := Success(MoveInfo(clearedFrom, shelfId));
    }

    /** mark_pick */
    method MarkPick(shelfId: int)
      requires Valid()
      modifies this`shelves
      ensures Valid()
      ensures shelves == Vacate(old(shelves), shelfId)
    {
      if shelfId in shelves {
        shelves := shelves[shelfId := shelves[shelfId].(basket := None, active := false)];
      }
    }

    /** mark_shelf_occupied: the UPDATE, then a PUT history row. The
        history table's shelf_id references shelf_data, so for a shelf that
        does not exist the UPDATE changes nothing and the INSERT raises
        (ok is false); under autocommit nothing is rolled back. */
    method MarkShelfOccupied(shelfId: int, basket: Option<string>) returns (ok: bool)
      requires Valid()
      modifies this`shelves, this`history
      ensures Valid()
      ensures ok == (shelfId in old(shelves))
      ensures shelves == Occupy(old(shelves), shelfId, basket)
      ensures history == if ok then old(history) + [HistoryRow(shelfId, OccupantOf(basket), PutOp)] else old(history)
    {
      var occupant := OccupantOf(basket);
      ok := shelfId in shelves;
      if ok {
        shelves := shelves[shelfId := shelves[shelfId].(basket := occupant, active := true)];
        history := history + [HistoryRow(shelfId, occupant, PutOp)];
      }
    }

    /** mark_shelf_empty: appends a PICK history row only when the shelf held
        a (non-empty) basket before. */
    method MarkShelfEmpty(shelfId: int)
      requires Valid()
      modifies this`shelves, this`history
      ensures Valid()
      ensures shelves == Vacate(old(shelves), shelfId)
      ensures var was := if shelfId in old(shelves) then old(shelves)[shelfId].basket else None;
              history == if was.Some? && was.value != "" then old(history) + [HistoryRow(shelfId, was, PickOp)] else old(history)
    {
      var oldBasket := if shelfId in shelves then shelves[shelfId].basket else None;
      if shelfId in shelves {
        shelves := shelves[shelfId := shelves[shelfId].(basket := None, active := false)];
      }
      if oldBasket.Some? && oldBasket.value != "" {
        history := history + [HistoryRow(shelfId, oldBasket, PickOp)];
      }
    }

    /** get_shelf_of_basket: some shelf holding the stripped basket id (the
        query has no ORDER BY, so which one is left open), or None. */
    method GetShelfOfBasket(basket: string) returns (r: Option<int>)
      ensures r.None? <==> forall k | k in shelves :: shelves[k].basket != Some(Strip(basket))
      ensures r.Some? ==> r.value in shelves && shelves[r.value].basket == Some(Strip(basket))
    {
      var key := Strip(basket);
      if k :| k in shelves && shelves[k].basket == Some(key) {
        r := Some(k);
      } else {
        r := None;
      }
    }

    /** next_command_window: the limit oldest rows of each queue. */
    method NextCommandWindow(limit: nat) returns (picks: seq<Row>, puts: seq<Row>)
      requires Valid()
      ensures picks == Window(queuePick, limit) && puts == Window(queuePut, limit)
      ensures Oldest(picks, queuePick, limit) && Oldest(puts, queuePut, limit)
    {
      picks := Window(queuePick, limit);
      puts := Window(queuePut, limit);
      WindowOldest(queuePick, limit);
      WindowOldest(queuePut, limit);
    }

    /** delete_queue_row: queue_pick for "PICK", queue_put for anything else. */
    method DeleteQueueRow(methode: string, rowId: int)
      requires Valid()
      modifies this`queuePick, this`queuePut
      ensures Valid()
      ensures methode == "PICK" ==> queuePick == WithoutId(old(queuePick), rowId) && queuePut == old(queuePut)
      ensures methode != "PICK" ==> queuePut == WithoutId(old(queuePut), rowId) && queuePick == old(queuePick)
    {
      if methode == "PICK" {
        queuePick := WithoutId(queuePick, rowId);
      } else {
        queuePut := WithoutId(queuePut, rowId);
      }
    }

    /** clear_all_queues: two DELETEs on an autocommit connection, so a
        failure of the second leaves the first in effect; pickFails covers
        the connection and the first DELETE, putFails the second. */
    method ClearAllQueues(pickFails: bool, putFails: bool) returns (ok: bool)
      requires Valid()
      modifies this`queuePick, this`queuePut
      ensures Valid()
      ensures ok == (!pickFails && !putFails)
      ensures queuePick == (if pickFails then old(queuePick) else [])
      ensures queuePut == (if pickFails || putFails then old(queuePut) else [])
    {
      if pickFails {
        return false;
      }
      queuePick := [];
      if putFails {
        return false;
      }
      queuePut := [];
      ok := true;
    }

    /** enqueue_put: a non-empty basket is normalised first (its ValueError
        propagates and nothing is inserted); an empty one is stored as NULL.
        The Python method returns nothing; err is the ValueError, if any. */
    method EnqueuePut(basket: Option<string>, x: int, y: int, z: int, now: int) returns (err: Option<NormError>)
      requires Valid()
      modifies this`queuePut, this`nextPutId
      ensures Valid()
      ensures match EnqueuedBasket(basket)
              case Failure(e) => err == Some(e) && queuePut == old(queuePut) && nextPutId == old(nextPutId)
              case Success(b) =>
                && err == None && nextPutId == old(nextPutId) + 1
                && queuePut == InsertByTime(old(queuePut), Row(old(nextPutId), b, x, y, z, now))
    {
      var b := EnqueuedBasket(basket);
      if b.Failure? {
        return Some(b.error);
      }
      InsertPut(b.value, x, y, z, now);
      err := None;
    }

    /** The INSERT INTO queue_put the QR listener runs itself, with the
        scanned code as it was read; the new row takes the next id. */
    method InsertPut(basket: Option<string>, x: int, y: int, z: int, now: int)
      requires Valid()
      modifies this`queuePut, this`nextPutId
      ensures Valid()
      ensures nextPutId == old(nextPutId) + 1
      ensures queuePut == InsertByTime(old(queuePut), Row(old(nextPutId), basket, x, y, z, now))
    {
      queuePut := InsertByTime(queuePut, Row(nextPutId, basket, x, y, z, now));
      nextPutId := nextPutId + 1;
    }

    /** enqueue_pick: as enqueue_put, returning the new row's id. */
    method EnqueuePick(basket: Option<string>, x: int, y: int, z: int, now: int) returns (r: Result<int, NormError>)
      requires Valid()
      modifies this`queuePick, this`nextPickId
      ensures Valid()
      ensures match EnqueuedBasket(basket)
              case Failure(e) => r == Failure(e) && queuePick == old(queuePick) && nextPickId == old(nextPickId)
              case Success(b) =>
                && r == Success(old(nextPickId)) && nextPickId == old(nextPickId) + 1
                && queuePick == InsertByTime(old(queuePick), Row(old(nextPickId), b, x, y, z, now))
    {
      var b := EnqueuedBasket(basket);
      if b.Failure? {
        return Failure(b.error);
      }
      queuePick := InsertByTime(queuePick, Row(nextPickId, b.value, x, y, z, now));
      r := Success(nextPickId);
      nextPickId := nextPickId + 1;
    }
  }

  /** The basket value enqueue_put and enqueue_pick store. */
  function EnqueuedBasket(basket: Option<string>): (r: Result<Option<string>, NormError>)
    ensures basket.None? || basket.value == "" ==> r == Success(None)
    ensures r.Success? && r.value.Some? ==> IsCanonical(r.value.value)
    ensures basket.Some? && basket.value != "" && Normalize(StrValue(basket.value)).Failure? ==> r.Failure?
  {
    if basket.None? || basket.value == "" then Success(None)
    else
      match Normalize(StrValue(basket.value))
      case Success(b) => Success(Some(b))
      case Failure(e) => Failure(e)
  }

  /** w holds the oldest min(limit, |q|) rows of q, in order. */
  predicate Oldest(w: seq<Row>, q: seq<Row>, limit: nat) {
    && |w| == (if limit < |q| then limit else |q|)
    && w == q[..|w|]
    && Sorted(w)
    && forall i, j | 0 <= i < |w| <= j < |q| :: w[i].createdAt <= q[j].createdAt
  }

  lemma WindowOldest(q: seq<Row>, limit: nat)
    requires Sorted(q)
    ensures Oldest(Window(q, limit), q, limit)
  {
  }

  // ---- what move_put guarantees --------------------------------------------

  /** move_put fails exactly for an empty basket id, a basket id that does not
      normalise, a missing destination, and a destination holding another
      basket when overwriting is not allowed; the conflict names that basket. */
  lemma MovePutOutcome(shelves: Shelves, shelfId: int, basket: string, allowOverwrite: bool)
    ensures var r := MovePutResult(shelves, shelfId, basket, allowOverwrite);
            var n := Normalize(StrValue(basket));
            && (r == Failure(MissingBasket) <==> basket == "")
            && (r.Failure? && r.error.BadBasket? <==> basket != "" && n.Failure?)
            && (r == Failure(NoSuchShelf) <==> basket != "" && n.Success? && shelfId !in shelves)
            && (r.Failure? && r.error.Occupied? <==>
                  basket != "" && n.Success? && shelfId in shelves && !allowOverwrite && HoldsOther(shelves[shelfId], n.value))
            && (r.Failure? && r.error.Occupied? ==> r.error == Occupied(shelves[shelfId].basket.value))
            && (r.Success? <==> basket != "" && n.Success? && shelfId in shelves && (allowOverwrite || !HoldsOther(shelves[shelfId], n.value)))
  {
    var n := Normalize(StrValue(basket));
    if basket != "" && n.Success? {
      PlaceOutcome(shelves, shelfId, n.value, allowOverwrite);
    }
  }

  lemma PlaceOutcome(shelves: Shelves, shelfId: int, bid: string, allowOverwrite: bool)
    ensures var r := Place(shelves, shelfId, bid, allowOverwrite);
            && (r == Failure(NoSuchShelf) <==> shelfId !in shelves)
            && (r.Failure? && r.error.Occupied? <==> shelfId in shelves && !allowOverwrite && HoldsOther(shelves[shelfId], bid))
            && (r.Failure? && r.error.Occupied? ==> r.error == Occupied(shelves[shelfId].basket.value))
            && (r.Success? <==> shelfId in shelves && (allowOverwrite || !HoldsOther(shelves[shelfId], bid)))
  {
    if shelfId in shelves {
      ClearBasketAt(shelves, bid, shelfId);
    }
  }

  lemma ClearBasketAt(shelves: Shelves, bid: string, k: int)
    requires k in shelves
    ensures var c := ClearBasket(shelves, bid);
            && k in c
            && c[k] == (if shelves[k].basket == Some(bid) then shelves[k].(basket := None, active := false) else shelves[k])
            && (HoldsOther(c[k], bid) <==> HoldsOther(shelves[k], bid))
  {
  }

  /** After a successful placement the destination holds bid and is active,
      the shelves that held bid are vacated and reported, and every other
      shelf is unchanged. */
  lemma PlacePlaces(shelves: Shelves, shelfId: int, bid: string, allowOverwrite: bool)
    requires Place(shelves, shelfId, bid, allowOverwrite).Success?
    ensures var after := Place(shelves, shelfId, bid, allowOverwrite).value.0;
            && after.Keys == shelves.Keys
            && after[shelfId] == shelves[shelfId].(basket := Some(bid), active := true)
            && Place(shelves, shelfId, bid, allowOverwrite).value.1 == MoveInfo(Holders(shelves, bid), shelfId)
            && forall k | k in shelves && k != shelfId :: after[k] == Cleared(shelves[k], bid)
  {
    ClearBasketAt(shelves, bid, shelfId);
    var after := Place(shelves, shelfId, bid, allowOverwrite).value.0;
    forall k | k in shelves && k != shelfId
      ensures after[k] == Cleared(shelves[k], bid)
    {
      ClearBasketAt(shelves, bid, k);
    }
  }

  /** A shelf as step 1 of move_put leaves it. */
  function Cleared(s: Shelf, bid: string): Shelf {
    if s.basket == Some(bid) then s.(basket := None, active := false) else s
  }

  /** After a successful placement no shelf but the destination holds bid. */
  lemma PlaceUnique(shelves: Shelves, shelfId: int, bid: string, allowOverwrite: bool)
    requires Place(shelves, shelfId, bid, allowOverwrite).Success?
    ensures Holders(Place(shelves, shelfId, bid, allowOverwrite).value.0, bid) == {shelfId}
  {
    PlacePlaces(shelves, shelfId, bid, allowOverwrite);
  }

  /** After a successful move_put the destination holds the normalised basket
      and is active, no other shelf holds that basket, the shelves that held it
      are vacated and reported, and every other shelf is unchanged. */
  lemma MovePutPlaces(shelves: Shelves, shelfId: int, basket: string, allowOverwrite: bool)
    requires MovePutResult(shelves, shelfId, basket, allowOverwrite).Success?
    ensures var after := MovePutResult(shelves, shelfId, basket, allowOverwrite).value.0;
            var info := MovePutResult(shelves, shelfId, basket, allowOverwrite).value.1;
            var bid := Normalize(StrValue(basket)).value;
            && after.Keys == shelves.Keys
            && after[shelfId] == shelves[shelfId].(basket := Some(bid), active := true)
            && Holders(after, bid) == {shelfId}
            && info == MoveInfo(Holders(shelves, bid), shelfId)
            && forall k | k in shelves && k != shelfId :: after[k] == Cleared(shelves[k], bid)
  {
    var bid := Normalize(StrValue(basket)).value;
    PlacePlaces(shelves, shelfId, bid, allowOverwrite);
    PlaceUnique(shelves, shelfId, bid, allowOverwrite);
  }

  /** Placing bid again where it already is succeeds, reports the
      destination as cleared and leaves the table as it is. */
  lemma PlaceRepeat(shelves: Shelves, shelfId: int, bid: string, allowOverwrite: bool)
    requires Place(shelves, shelfId, bid, allowOverwrite).Success?
    ensures var after := Place(shelves, shelfId, bid, allowOverwrite).value.0;
            Place(after, shelfId, bid, false) == Success((after, MoveInfo({shelfId}, shelfId)))
  {
    var after := Place(shelves, shelfId, bid, allowOverwrite).value.0;
    PlacePlaces(shelves, shelfId, bid, allowOverwrite);
    PlaceUnique(shelves, shelfId, bid, allowOverwrite);
    var cleared := ClearBasket(after, bid);
    ClearBasketAt(after, bid, shelfId);
    forall k | k in after && k != shelfId
      ensures cleared[k] == after[k]
    {
      ClearBasketAt(after, bid, k);
    }
    assert cleared[shelfId := cleared[shelfId].(basket := Some(bid), active := true)] == after;
  }

  /** Repeating a successful move_put (without overwrite) succeeds: step 1
      empties the destination itself, which is then reported as cleared, and
      the table is the same as after the first call. */
  lemma MovePutRepeat(shelves: Shelves, shelfId: int, basket: string, allowOverwrite: bool)
    requires MovePutResult(shelves, shelfId, basket, allowOverwrite).Success?
    ensures var after := MovePutResult(shelves, shelfId, basket, allowOverwrite).value.0;
            MovePutResult(after, shelfId, basket, false) == Success((after, MoveInfo({shelfId}, shelfId)))
  {
    PlaceRepeat(shelves, shelfId, Normalize(StrValue(basket)).value, allowOverwrite);
  }

  /** Placing basket a and then, without overwrite, a different basket b on
      the same shelf fails with a conflict naming a. */
  lemma MovePutConflict(shelves: Shelves, shelfId: int, a: string, b: string, allowOverwrite: bool)
    requires MovePutResult(shelves, shelfId, a, allowOverwrite).Success?
    requires b != "" && Normalize(StrValue(b)).Success?
    requires Normalize(StrValue(b)).value != Normalize(StrValue(a)).value
    ensures var after := MovePutResult(shelves, shelfId, a, allowOverwrite).value.0;
            MovePutResult(after, shelfId, b, false) == Failure(Occupied(Normalize(StrValue(a)).value))
  {
    var after := MovePutResult(shelves, shelfId, a, allowOverwrite).value.0;
    PlacePlaces(shelves, shelfId, Normalize(StrValue(a)).value, allowOverwrite);
    PlaceOutcome(after, shelfId, Normalize(StrValue(b)).value, false);
  }

  /** The same sequence with overwrite allowed succeeds and leaves b on the
      shelf, reporting the shelves b held before. */
  lemma MovePutOverwrite(shelves: Shelves, shelfId: int, a: string, b: string, allowOverwrite: bool)
    requires MovePutResult(shelves, shelfId, a, allowOverwrite).Success?
    requires b != "" && Normalize(StrValue(b)).Success?
    ensures var after := MovePutResult(shelves, shelfId, a, allowOverwrite).value.0;
            var r := MovePutResult(after, shelfId, b, true);
            && r.Success?
            && r.value.0[shelfId].basket == Some(Normalize(StrValue(b)).value)
            && r.value.1.clearedFrom == Holders(after, Normalize(StrValue(b)).value)
  {
    var after := MovePutResult(shelves, shelfId, a, allowOverwrite).value.0;
    var bidB := Normalize(StrValue(b)).value;
    PlacePlaces(shelves, shelfId, Normalize(StrValue(a)).value, allowOverwrite);
    PlaceOutcome(after, shelfId, bidB, true);
    PlacePlaces(after, shelfId, bidB, true);
  }

  /** A placement changes occupancy only: the layout stays, and a consistent
      table with one shelf per basket stays so. */
  lemma PlaceKeepsInvariants(shelves: Shelves, shelfId: int, bid: string, allowOverwrite: bool)
    requires Place(shelves, shelfId, bid, allowOverwrite).Success?
    ensures var after := Place(shelves, shelfId, bid, allowOverwrite).value.0;
            && SameLayout(shelves, after)
            && (Consistent(shelves) ==> Consistent(after))
            && (OneShelfEach(shelves) ==> OneShelfEach(after))
  {
    var after := Place(shelves, shelfId, bid, allowOverwrite).value.0;
    PlacePlaces(shelves, shelfId, bid, allowOverwrite);
    PlaceUnique(shelves, shelfId, bid, allowOverwrite);
    if OneShelfEach(shelves) {
      forall j, k | j in after && k in after && after[j].basket.Some? && after[j].basket == after[k].basket
        ensures j == k
      {
        if after[j].basket == Some(bid) {
          assert j in Holders(after, bid) && k in Holders(after, bid);
        } else {
          assert j != shelfId && k != shelfId;
        }
      }
    }
  }

  lemma MovePutKeepsInvariants(shelves: Shelves, shelfId: int, basket: string, allowOverwrite: bool)
    requires MovePutResult(shelves, shelfId, basket, allowOverwrite).Success?
    ensures var after := MovePutResult(shelves, shelfId, basket, allowOverwrite).value.0;
            && SameLayout(shelves, after)
            && (Consistent(shelves) ==> Consistent(after))
            && (OneShelfEach(shelves) ==> OneShelfEach(after))
  {
    PlaceKeepsInvariants(shelves, shelfId, Normalize(StrValue(basket)).value, allowOverwrite);
  }

  // ---- the other occupancy updates -----------------------------------------

  /** mark_pick empties one shelf, keeps the layout and both invariants, and
      leaves every other shelf as it was. */
  lemma VacateKeepsInvariants(shelves: Shelves, shelfId: int)
    ensures var after := Vacate(shelves, shelfId);
            && SameLayout(shelves, after)
            && (shelfId in shelves ==> after[shelfId].basket.None? && !after[shelfId].active)
            && (forall k | k in shelves && k != shelfId :: after[k] == shelves[k])
            && (Consistent(shelves) ==> Consistent(after))
            && (OneShelfEach(shelves) ==> OneShelfEach(after))
  {
  }

  /** mark_shelf_occupied with an empty or missing basket id leaves an active
      shelf without a basket. */
  lemma OccupyWithoutBasket(shelves: Shelves, shelfId: int, basket: Option<string>)
    requires shelfId in shelves && (basket.None? || basket.value == "")
    ensures !Consistent(Occupy(shelves, shelfId, basket))
  {
    var after := Occupy(shelves, shelfId, basket);
    assert after[shelfId].active && after[shelfId].basket.None?;
  }

  /** Unlike move_put, mark_shelf_occupied does not vacate the basket's other
      shelf, so the basket then occupies two shelves. */
  lemma OccupyDuplicates(shelves: Shelves, j: int, k: int, basket: string)
    requires j in shelves && k in shelves && j != k
    requires basket != "" && shelves[k].basket == Some(Strip(basket))
    ensures !OneShelfEach(Occupy(shelves, j, Some(basket)))
  {
    var after := Occupy(shelves, j, Some(basket));
    assert after[j].basket == after[k].basket;
  }

  /** The mapping lookup and the availability check read only the layout, so
      occupancy updates never change them. */
  lemma LayoutDecidesLookups(a: Shelves, b: Shelves, assign: Assignment, basket: string, shelfId: int)
    requires SameLayout(a, b)
    ensures MappingFor(a, assign, basket) == MappingFor(b, assign, basket)
    ensures CanUse(a, shelfId) == CanUse(b, shelfId)
  {
  }

  /** The lookup strips its key, so surrounding whitespace does not matter. */
  lemma MappingForStripped(shelves: Shelves, assign: Assignment, basket: string)
    ensures MappingFor(shelves, assign, Strip(basket)) == MappingFor(shelves, assign, basket)
  {
    StripIdempotent(basket);
  }

  // ---- queue facts ---------------------------------------------------------

  /** With a clock that does not go back, a new row is the newest one. */
  lemma {:induction false} InsertNewest(q: seq<Row>, row: Row)
    requires Sorted(q)
    requires forall i | 0 <= i < |q| :: q[i].createdAt <= row.createdAt
    ensures InsertByTime(q, row) == q + [row]
  {
  }

  /** After an insert the basket has a pending row; a delete by id removes
      exactly the rows with that id. */
  lemma InsertThenPending(q: seq<Row>, row: Row, basket: string)
    requires Sorted(q) && row.basket == Some(Strip(basket))
    ensures HasPendingPut(InsertByTime(q, row), basket)
  {
    var r := InsertByTime(q, row);
    assert row in multiset(r);
    var i :| 0 <= i < |r| && r[i] == row;
  }

  /** After a delete by id the basket is pending exactly when a row with
      another id carries it; so deleting the only row that carries it
      leaves nothing pending. */
  lemma DeleteThenPending(q: seq<Row>, id: int, basket: string)
    ensures HasPendingPut(WithoutId(q, id), basket) <==> exists i | 0 <= i < |q| :: q[i].id != id && q[i].basket == Some(Strip(basket))
  {
    var r := WithoutId(q, id);
    if HasPendingPut(r, basket) {
      var j :| 0 <= j < |r| && r[j].basket == Some(Strip(basket));
      assert r[j] in r;
      var i :| 0 <= i < |q| && q[i] == r[j];
    }
    if exists i | 0 <= i < |q| :: q[i].id != id && q[i].basket == Some(Strip(basket)) {
      var i :| 0 <= i < |q| && q[i].id != id && q[i].basket == Some(Strip(basket));
      assert q[i] in q;
      var j :| 0 <= j < |r| && r[j] == q[i];
    }
  }

  /** An emptied queue has nothing pending (clear_all_queues). */
  lemma ClearedNotPending(basket: string)
    ensures !HasPendingPut([], basket)
  {
  }
}
