/** The WMS HTTP endpoints (asrs_lib/api.py): resolving the basket id of a
    pick request, validating and enqueuing a pick, the basket status query
    and the system reset. */
module Api {
  import opened Wrappers
  import opened Text
  import opened BasketId
  import opened Store
  import Qr

  /** The JSON body of a pick request. */
  datatype PickRequest = PickRequest(number: Option<int>, basketId: Option<string>)

  /** How a request fails: an HTTPException with its status, or a ValueError
      that no handler turns into one (the framework then answers 500). The
      exception messages are not modelled. */
  datatype ApiError = Http(status: int) | Uncaught(e: NormError)

  /** A ValueError from a normalisation inside the try becomes a 400. */
  function AsBadRequest(r: Result<string, NormError>): Result<string, ApiError> {
    match r
    case Success(b) => Success(b)
    case Failure(_) => Failure(Http(400))
  }

  /** _resolve_basket_id: the path number first, unguarded; then the body's
      number, then its basket_id, whose ValueErrors become 400. */
  function ResolveBasketId(req: Option<PickRequest>, pathNumber: Option<int>): (r: Result<string, ApiError>)
    ensures r.Success? ==> IsCanonical(r.value)
  {
    if pathNumber.Some? then
      match Normalize(IntValue(pathNumber.value))
      case Success(b) => Success(b)
      case Failure(e) => Failure(Uncaught(e))
    else if req.None? then Failure(Http(400))
    else if req.value.number.Some? then AsBadRequest(Normalize(IntValue(req.value.number.value)))
    else if req.value.basketId.Some? then AsBadRequest(Normalize(StrValue(req.value.basketId.value)))
    else Failure(Http(400))
  }

  /** The path number wins over any body, and the body's number over its
      basket_id; a request with neither is a 400. */
  lemma ResolvePrecedence(req: Option<PickRequest>, pathNumber: Option<int>, other: Option<PickRequest>, bid: Option<string>)
    ensures pathNumber.Some? ==> ResolveBasketId(req, pathNumber) == ResolveBasketId(other, pathNumber)
    ensures req.Some? && req.value.number.Some? ==>
              ResolveBasketId(req, None) == ResolveBasketId(Some(req.value.(basketId := bid)), None)
    ensures req.Some? && req.value.number.None? && req.value.basketId.None? ==> ResolveBasketId(req, None) == Failure(Http(400))
  {
  }

  /** A ValueError from the body's fields is a 400, and only from there: the
      path number's ValueError escapes unconverted. */
  lemma ResolveErrors(req: Option<PickRequest>, pathNumber: Option<int>)
    ensures pathNumber.Some? ==>
              (ResolveBasketId(req, pathNumber).Failure? <==> Normalize(IntValue(pathNumber.value)).Failure?)
              && (ResolveBasketId(req, pathNumber).Failure? ==> ResolveBasketId(req, pathNumber).error.Uncaught?)
    ensures pathNumber.None? && req.Some? && req.value.number.Some? ==>
              (ResolveBasketId(req, pathNumber) == Failure(Http(400)) <==> Normalize(IntValue(req.value.number.value)).Failure?)
    ensures pathNumber.None? && req.Some? && req.value.number.None? && req.value.basketId.Some? ==>
              (ResolveBasketId(req, pathNumber) == Failure(Http(400)) <==> Normalize(StrValue(req.value.basketId.value)).Failure?)
    ensures pathNumber.None? ==> ResolveBasketId(req, pathNumber).Failure? ==> ResolveBasketId(req, pathNumber) == Failure(Http(400))
  {
  }

  /** /wms/pick/{number} for a number in range picks the canonical id of the
      number; a negative number escapes as an invalid-format ValueError, a
      number of more than 4300 digits as str()'s ValueError. */
  lemma PathNumberResolves(n: int)
    ensures 0 <= n <= MaxBasket ==> ResolveBasketId(None, Some(n)) == Success(Canonical(n))
    ensures n > MaxBasket && |IntDigits(n)| <= MaxIntDigits ==> ResolveBasketId(None, Some(n)) == Failure(Uncaught(OutOfRange))
    ensures n < 0 && |IntDigits(n)| <= MaxIntDigits ==> ResolveBasketId(None, Some(n)) == Failure(Uncaught(InvalidFormat))
    ensures |IntDigits(n)| > MaxIntDigits ==> ResolveBasketId(None, Some(n)) == Failure(Uncaught(DigitLimit))
  {
    NormalizeInt(n);
  }

  /** What a pick endpoint does with a resolved id: refuse with an error, or
      enqueue a pick of the basket at its mapped shelf. */
  datatype PickPlan = Refuse(err: ApiError) | Enqueue(basket: string, m: Mapping)

  /** The checks of wms_pick after the database check: resolution, the
      mapping (404), then usability, where the 400 raised inside the try is
      caught and re-raised as 500, like a failing check. */
  function PlanPick(resolved: Result<string, ApiError>, shelves: Shelves, assign: Assignment, canUseFails: bool): (p: PickPlan)
    ensures p.Enqueue? ==> resolved == Success(p.basket) && MappingFor(shelves, assign, p.basket) == Some(p.m)
  {
    match resolved
    case Failure(e) => Refuse(e)
    case Success(b) =>
      match MappingFor(shelves, assign, b)
      case None => Refuse(Http(404))
      case Some(m) =>
        if canUseFails || !CanUse(shelves, m.shelfId) then Refuse(Http(500)) else Enqueue(b, m)
  }

  /** A pick is enqueued exactly when the id resolves, has a home shelf, and
      that shelf is usable; an unmapped id is 404 and an unusable shelf 500. */
  lemma PlanPickCases(resolved: Result<string, ApiError>, shelves: Shelves, assign: Assignment, canUseFails: bool)
    ensures var p := PlanPick(resolved, shelves, assign, canUseFails);
            && (p.Enqueue? <==>
                  resolved.Success? && MappingFor(shelves, assign, resolved.value).Some?
                  && !canUseFails && CanUse(shelves, MappingFor(shelves, assign, resolved.value).value.shelfId))
            && (resolved.Success? && MappingFor(shelves, assign, resolved.value).None? ==> p == Refuse(Http(404)))
            && ((resolved.Success? && MappingFor(shelves, assign, resolved.value).Some?
                 && !CanUse(shelves, MappingFor(shelves, assign, resolved.value).value.shelfId)) ==> p == Refuse(Http(500)))
  {
  }

  /** enqueue_pick stores a canonical id unchanged: normalising it again is
      the identity, so the queued basket is the id the response echoes. */
  lemma CanonicalEnqueued(b: string)
    requires IsCanonical(b)
    ensures EnqueuedBasket(Some(b)) == Success(Some(b))
  {
    CanonicalIsFixedPoint(b);
  }

  /** The PickResponse body; message is always "enqueued". */
  datatype PickResponse = PickResponse(basketId: string, shelfId: int, x: int, y: int, z: int, queueId: int)

  /** Enqueue a planned pick and answer with the queue id. */
  method EnqueuePlanned(pg: Pg, p: PickPlan, now: int) returns (r: Result<PickResponse, ApiError>)
    requires pg.Valid()
    requires p.Enqueue? ==> IsCanonical(p.basket)
    modifies pg`queuePick, pg`nextPickId
    ensures pg.Valid()
    ensures p.Refuse? ==> r == Failure(p.err) && pg.queuePick == old(pg.queuePick) && pg.nextPickId == old(pg.nextPickId)
    ensures p.Enqueue? ==>
              && r == Success(PickResponse(p.basket, p.m.shelfId, p.m.x, p.m.y, p.m.z, old(pg.nextPickId)))
              && pg.queuePick == InsertByTime(old(pg.queuePick), Row(old(pg.nextPickId), Some(p.basket), p.m.x, p.m.y, p.m.z, now))
              && pg.nextPickId == old(pg.nextPickId) + 1
  {
    if p.Refuse? {
      return Failure(p.err);
    }
    CanonicalEnqueued(p.basket);
    var qid := pg.EnqueuePick(Some(p.basket), p.m.x, p.m.y, p.m.z, now);
    r := Success(PickResponse(p.basket, p.m.shelfId, p.m.x, p.m.y, p.m.z, qid.value));
  }

  /** wms_pick (pathNumber None) and wms_pick_number (body None): no
      database is a 500 before anything else; otherwise the plan above is
      carried out. */
  method WmsPick(pg: Pg?, req: Option<PickRequest>, pathNumber: Option<int>, canUseFails: bool, now: int)
    returns (r: Result<PickResponse, ApiError>, p: PickPlan)
    requires pg != null ==> pg.Valid()
    modifies {pg}`queuePick, {pg}`nextPickId
    ensures pg == null ==> r == Failure(Http(500))
    ensures pg != null ==> p == PlanPick(ResolveBasketId(req, pathNumber), old(pg.shelves), old(pg.assignment), canUseFails)
    ensures pg != null ==> pg.Valid() && unchanged(pg`shelves, pg`assignment, pg`queuePut, pg`nextPutId, pg`history)
    ensures pg != null && p.Refuse? ==> r == Failure(p.err) && pg.queuePick == old(pg.queuePick) && pg.nextPickId == old(pg.nextPickId)
    ensures pg != null && p.Enqueue? ==>
              && r == Success(PickResponse(p.basket, p.m.shelfId, p.m.x, p.m.y, p.m.z, old(pg.nextPickId)))
              && pg.queuePick == InsertByTime(old(pg.queuePick), Row(old(pg.nextPickId), Some(p.basket), p.m.x, p.m.y, p.m.z, now))
              && pg.nextPickId == old(pg.nextPickId) + 1
  {
    if pg == null {
      return Failure(Http(500)), Refuse(Http(500));
    }
    r, p := PickWith(pg, req, pathNumber, canUseFails, now);
  }

  /** The part of the pick endpoints that runs once a database is there. */
  method PickWith(pg: Pg, req: Option<PickRequest>, pathNumber: Option<int>, canUseFails: bool, now: int)
    returns (r: Result<PickResponse, ApiError>, p: PickPlan)
    requires pg.Valid()
    modifies pg`queuePick, pg`nextPickId
    ensures p == PlanPick(ResolveBasketId(req, pathNumber), old(pg.shelves), old(pg.assignment), canUseFails)
    ensures pg.Valid()
    ensures p.Refuse? ==> r == Failure(p.err) && pg.queuePick == old(pg.queuePick) && pg.nextPickId == old(pg.nextPickId)
    ensures p.Enqueue? ==>
              && r == Success(PickResponse(p.basket, p.m.shelfId, p.m.x, p.m.y, p.m.z, old(pg.nextPickId)))
              && pg.queuePick == InsertByTime(old(pg.queuePick), Row(old(pg.nextPickId), Some(p.basket), p.m.x, p.m.y, p.m.z, now))
              && pg.nextPickId == old(pg.nextPickId) + 1
  {
    p := PlanPick(ResolveBasketId(req, pathNumber), pg.shelves, pg.assignment, canUseFails);
    r := EnqueuePlanned(pg, p, now);
  }

  /** The BasketStatus body. */
  datatype Status = Status(basketId: string, mappedShelf: Option<int>, mappedXyz: Option<(int, int, int)>, occupiedShelf: Option<int>)

  /** basket_status: an invalid id is a 400; otherwise the mapping's fields
      are present exactly when a mapping exists, and the occupied shelf is
      one holding the id. */
  method BasketStatus(pg: Pg?, basket: string) returns (r: Result<Status, ApiError>)
    ensures pg == null ==> r == Failure(Http(500))
    ensures pg != null && Normalize(StrValue(basket)).Failure? ==> r == Failure(Http(400))
    ensures pg != null && Normalize(StrValue(basket)).Success? ==>
              var id := Normalize(StrValue(basket)).value;
              var m := MappingFor(pg.shelves, pg.assignment, id);
              && r.Success? && r.value.basketId == id
              && (r.value.mappedShelf.None? <==> m.None?) && (r.value.mappedXyz.None? <==> m.None?)
              && (m.Some? ==> r.value.mappedShelf == Some(m.value.shelfId) && r.value.mappedXyz == Some((m.value.x, m.value.y, m.value.z)))
              && (r.value.occupiedShelf.None? <==> forall k | k in pg.shelves :: pg.shelves[k].basket != Some(id))
              && (r.value.occupiedShelf.Some? ==> r.value.occupiedShelf.value in pg.shelves
                                                  && pg.shelves[r.value.occupiedShelf.value].basket == Some(id))
  {
    if pg == null {
      return Failure(Http(500));
    }
    var norm := Normalize(StrValue(basket));
    if norm.Failure? {
      return Failure(Http(400));
    }
    var id := norm.value;
    CanonicalUnpadded(id);
    var m := MappingFor(pg.shelves, pg.assignment, id);
    var occ := pg.GetShelfOfBasket(id);
    r := Success(Status(id,
                        if m.Some? then Some(m.value.shelfId) else None,
                        if m.Some? then Some((m.value.x, m.value.y, m.value.z)) else None,
                        occ));
  }

  /** The three parts of a system reset; each attempted part is reported
      exactly once, as a success or as an error. */
  datatype Part = Queues | Mover | QrState

  /** The reset_system answer; errors is reported only with "partial". */
  datatype ResetReport = ResetReport(status: string, success: seq<Part>, errors: seq<Part>)

  /** The answer of reset_system after its three attempts, each appending
      to the success or the error list in turn. */
  function ResetOutcome(queuesCleared: bool, moverPresent: bool, moverFails: bool, qrPresent: bool): (r: ResetReport)
    ensures r.status == "success" <==> r.errors == []
    ensures |r.success| + |r.errors| == 1 + (if moverPresent then 1 else 0) + (if qrPresent then 1 else 0)
  {
    var s0, e0 := if queuesCleared then [Queues] else [], if queuesCleared then [] else [Queues];
    var s1 := if moverPresent && !moverFails then s0 + [Mover] else s0;
    var e1 := if moverPresent && moverFails then e0 + [Mover] else e0;
    var s2 := if qrPresent then s1 + [QrState] else s1;
    assert "partial"[0] != "success"[0];
    ResetReport(if e1 != [] then "partial" else "success", s2, e1)
  }

  /** The status is "partial" exactly when some part failed, and "success"
      exactly when none did. */
  lemma ResetStatus(queuesCleared: bool, moverPresent: bool, moverFails: bool, qrPresent: bool)
    ensures var r := ResetOutcome(queuesCleared, moverPresent, moverFails, qrPresent);
            && (r.status == "partial" <==> r.errors != [])
            && (r.status == "success" <==> r.errors == [])
            && (r.errors == [] <==> queuesCleared && !(moverPresent && moverFails))
  {
    var r := ResetOutcome(queuesCleared, moverPresent, moverFails, qrPresent);
    assert "partial" != "success" by {
      assert "partial"[0] != "success"[0];
    }
  }

  /** Each attempted part is reported as a success or an error according
      to its own outcome only, whatever happened to the others. */
  lemma ResetParts(queuesCleared: bool, moverPresent: bool, moverFails: bool, qrPresent: bool)
    ensures var r := ResetOutcome(queuesCleared, moverPresent, moverFails, qrPresent);
            && (Queues in r.success <==> queuesCleared) && (Queues in r.errors <==> !queuesCleared)
            && (Mover in r.success <==> moverPresent && !moverFails)
            && (Mover in r.errors <==> moverPresent && moverFails)
            && (QrState in r.success <==> qrPresent) && QrState !in r.errors
  {
  }

  /** Nothing is reported twice and nothing unattempted is reported. */
  lemma ResetAttempted(queuesCleared: bool, moverPresent: bool, moverFails: bool, qrPresent: bool)
    ensures var r := ResetOutcome(queuesCleared, moverPresent, moverFails, qrPresent);
            |r.success| + |r.errors| == 1 + (if moverPresent then 1 else 0) + (if qrPresent then 1 else 0)
  {
  }

  /** reset_system. The mover's reset_current_command is not part of this
      model: whether a mover is configured and whether its reset raises are
      parameters. The QR listener's reset_state cannot raise. */
  method ResetSystem(pg: Pg?, moverPresent: bool, moverFails: bool, qr: Qr.QrListener?, pickFails: bool, putFails: bool)
    returns (r: Result<ResetReport, ApiError>)
    requires pg != null ==> pg.Valid()
    modifies {pg}`queuePick, {pg}`queuePut, {qr}`lastQr, {qr}`lastFlag
    ensures pg == null ==> r == Failure(Http(500)) && (qr != null ==> qr.Memory() == old(qr.Memory()))
    ensures pg != null ==>
              && r == Success(ResetOutcome(!pickFails && !putFails, moverPresent, moverFails, qr != null))
              && pg.Valid()
              && pg.queuePick == (if pickFails then old(pg.queuePick) else [])
              && pg.queuePut == (if pickFails || putFails then old(pg.queuePut) else [])
              && (qr != null ==> qr.Memory() == Qr.Reset(old(qr.Memory())))
              && unchanged(pg`shelves, pg`assignment, pg`history, pg`nextPickId, pg`nextPutId)
    ensures qr != null ==> qr.acks == old(qr.acks)
  {
    if pg == null {
      return Failure(Http(500));
    }
    var ok := pg.ClearAllQueues(pickFails, putFails);
    if qr != null {
      qr.ResetState();
    }
    var report := TallyReset(ok, moverPresent, moverFails, qr != null);
    r := Success(report);
  }

  /** The success and error lists of reset_system, appended to part by part
      in the order the parts are attempted. */
  method TallyReset(queuesCleared: bool, moverPresent: bool, moverFails: bool, qrPresent: bool) returns (report: ResetReport)
    ensures report == ResetOutcome(queuesCleared, moverPresent, moverFails, qrPresent)
  {
    var success: seq<Part> := [];
    var errors: seq<Part> := [];
    if queuesCleared {
      success := success + [Queues];
    } else {
      errors := errors + [Queues];
    }
    if moverPresent {
      if moverFails {
        errors := errors + [Mover];
      } else {
        success := success + [Mover];
      }
    }
    if qrPresent {
      success := success + [QrState];
    }
    report := ResetReport(if errors != [] then "partial" else "success", success, errors);
  }
}
