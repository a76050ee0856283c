/** The check builder (`PermissionChecker`): accumulates checks with `Can`/`Has`
    and evaluates them with one of three combinators, each a single engine
    call: only the first check (`ValidateSingle`), or one batch of all checks
    combined by AND (`ValidateAll`) or OR (`ValidateAny`).

    The validate functions take the checker and return only a result: no
    `Validate*` call changes the accumulated checks, so validating again sends
    the same checks again. */
module Checker {
  import opened Wrappers
  import opened Naming
  import opened Engine

  /** An entry of `_checks`. */
  datatype PendingCheck = PendingCheck(obj: string, relation: string, user: string)

  datatype PermissionChecker = PermissionChecker(client: Option<Client>, checks: seq<PendingCheck>)

  /** The primary constructor `PermissionChecker(client)`. */
  function NewChecker(client: Option<Client>): (c: PermissionChecker)
    ensures c.checks == [] && c.client == client
  {
    PermissionChecker(client, [])
  }

  /** `Can<TRes, TUser>(objectId, relation, userId)`: one more check at the end,
      its object and user qualified by plain lower-casing of the type names. */
  function Can(
    c: PermissionChecker, tRes: EntityType, tUser: EntityType,
    objectId: string, relation: string, userId: string): (r: PermissionChecker)
    requires tRes.isResource && tUser.isAccessor
    ensures r.client == c.client
    ensures |r.checks| == |c.checks| + 1 && r.checks[..|c.checks|] == c.checks
    ensures r.checks[|c.checks|] == PendingCheck(CheckerEntityName(tRes, objectId), relation, CheckerEntityName(tUser, userId))
  {
    var resourceType := Lower(tRes.name);
    var userType := Lower(tUser.name);
    c.(checks := c.checks + [PendingCheck(resourceType + ":" + objectId, relation, userType + ":" + userId)])
  }

  /** `Has`, an alias of `Can`. */
  function Has(
    c: PermissionChecker, tRes: EntityType, tUser: EntityType,
    objectId: string, relation: string, userId: string): (r: PermissionChecker)
    requires tRes.isResource && tUser.isAccessor
    ensures |r.checks| == |c.checks| + 1 && r.checks[..|c.checks|] == c.checks
    ensures r.checks[|c.checks|] == PendingCheck(CheckerEntityName(tRes, objectId), relation, CheckerEntityName(tUser, userId))
    ensures r.client == c.client
    ensures r == Can(c, tRes, tUser, objectId, relation, userId)
  {
    Can(c, tRes, tUser, objectId, relation, userId)
  }

  lemma HasIsCan(
    c: PermissionChecker, tRes: EntityType, tUser: EntityType,
    objectId: string, relation: string, userId: string)
    requires tRes.isResource && tUser.isAccessor
    ensures Has(c, tRes, tUser, objectId, relation, userId) == Can(c, tRes, tUser, objectId, relation, userId)
  {
  }

  function ToCheckRequest(p: PendingCheck): CheckRequest {
    CheckRequest(p.user, p.relation, p.obj)
  }

  /** The batch `ValidateAsync` sends: every check, in accumulation order. */
  function BatchRequest(c: PermissionChecker): (requests: seq<CheckRequest>)
    ensures |requests| == |c.checks|
    ensures forall i :: 0 <= i < |c.checks| ==> requests[i] == ToCheckRequest(c.checks[i])
  {
    seq(|c.checks|, i requires 0 <= i < |c.checks| => ToCheckRequest(c.checks[i]))
  }

  // ---------------------------------------------------------------------------
  // Single
  // ---------------------------------------------------------------------------

  /** `ValidateSingleAsync`, with the engine's `Check` as the parameter `check`:
      false without a call when nothing was added; otherwise the first check
      alone is sent, and a null `Allowed` reads as false. */
  function ValidateSingle(c: PermissionChecker, check: CheckRequest -> Reply<CheckResponse>): (r: Result<bool, Error>)
    ensures c.checks == [] ==> r == Success(false)
    ensures c.checks != [] && check(ToCheckRequest(c.checks[0])).Threw? ==>
      r == Failure(EngineFault(check(ToCheckRequest(c.checks[0])).fault))
    ensures c.checks != [] && check(ToCheckRequest(c.checks[0])).Replied? ==>
      r == Success(check(ToCheckRequest(c.checks[0])).response.allowed == Some(true))
  {
    if |c.checks| == 0 then Success(false)
    else
      match check(ToCheckRequest(c.checks[0]))
      case Threw(fault) => Failure(EngineFault(fault))
      case Replied(response) =>
        // `response.Allowed ?? false`
        Success(match response.allowed case Some(allowed) => allowed case None => false)
  }

  /** Checks added after the first never influence `ValidateSingle`. */
  lemma ValidateSingleIgnoresLaterChecks(
    c: PermissionChecker, later: seq<PendingCheck>, check: CheckRequest -> Reply<CheckResponse>)
    requires c.checks != []
    ensures ValidateSingle(c.(checks := c.checks + later), check) == ValidateSingle(c, check)
  {
    assert (c.checks + later)[0] == c.checks[0];
  }

  // ---------------------------------------------------------------------------
  // Batch
  // ---------------------------------------------------------------------------

  /** One element of `ValidateAsync`'s result. */
  datatype Validation = Validation(allowed: bool, details: TupleKey)

  /** The details tuple for a batch response, user, relation and object in
      their own places. */
  function Details(request: CheckRequest): (t: TupleKey)
    ensures t.user == request.user && t.relation == request.relation && t.obj == request.obj
    ensures t.condition.None?
  {
    TupleKey(request.user, request.relation, request.obj, None)
  }

  /** The details tuple as written: `new TupleKey(Relation, User, Object)` fills
      the SDK constructor's (user, relation, object) parameters by position. */
  function DetailsAsWritten(request: CheckRequest): (t: TupleKey)
    ensures t.user == request.relation && t.relation == request.user && t.obj == request.obj
  {
    TupleKey(request.relation, request.user, request.obj, None)
  }

  /** `ValidateAsync`, with the engine's `BatchCheck` as the parameter `batch`:
      one request for all checks, one result per response, in response order. */
  function Validate(c: PermissionChecker, batch: seq<CheckRequest> -> Reply<BatchCheckResponse>): (r: Result<seq<Validation>, Error>)
    ensures batch(BatchRequest(c)).Threw? ==> r == Failure(EngineFault(batch(BatchRequest(c)).fault))
    ensures batch(BatchRequest(c)).Replied? ==>
      && r.Success?
      && var responses := batch(BatchRequest(c)).response.responses;
         && |r.value| == |responses|
         && forall i :: 0 <= i < |responses| ==>
              r.value[i] == Validation(responses[i].allowed, Details(responses[i].request))
  {
    match batch(BatchRequest(c))
    case Threw(fault) => Failure(EngineFault(fault))
    case Replied(response) =>
      var rs := response.responses;
      Success(seq(|rs|, i requires 0 <= i < |rs| => Validation(rs[i].allowed, Details(rs[i].request))))
  }

  /** `ValidateAsync` as written, with the details' user and relation swapped;
      faults, the `allowed` flags and the details' object are as in `Validate`. */
  function ValidateAsWritten(c: PermissionChecker, batch: seq<CheckRequest> -> Reply<BatchCheckResponse>): (r: Result<seq<Validation>, Error>)
    ensures batch(BatchRequest(c)).Threw? ==> r == Failure(EngineFault(batch(BatchRequest(c)).fault))
    ensures r.Success? <==> Validate(c, batch).Success?
    ensures r.Success? ==>
      && |r.value| == |Validate(c, batch).value|
      && forall i :: 0 <= i < |r.value| ==>
           && r.value[i].allowed == Validate(c, batch).value[i].allowed
           && r.value[i].details.obj == Validate(c, batch).value[i].details.obj
           && r.value[i].details.condition == Validate(c, batch).value[i].details.condition
    ensures batch(BatchRequest(c)).Replied? ==>
      && r.Success?
      && var responses := batch(BatchRequest(c)).response.responses;
         && |r.value| == |responses|
         && forall i :: 0 <= i < |responses| ==>
              && r.value[i].details.user == responses[i].request.relation
              && r.value[i].details.relation == responses[i].request.user
  {
    match batch(BatchRequest(c))
    case Threw(fault) => Failure(EngineFault(fault))
    case Replied(response) =>
      var rs := response.responses;
      Success(seq(|rs|, i requires 0 <= i < |rs| => Validation(rs[i].allowed, DetailsAsWritten(rs[i].request))))
  }

  /** `results.All(r => r.Allowed)`. */
  function AllAllowed(results: seq<Validation>): (b: bool)
    ensures b <==> forall i :: 0 <= i < |results| ==> results[i].allowed
  {
    if results == [] then true else results[0].allowed && AllAllowed(results[1..])
  }

  /** `results.Any(r => r.Allowed)`. */
  function AnyAllowed(results: seq<Validation>): (b: bool)
    ensures b <==> exists i :: 0 <= i < |results| && results[i].allowed
  {
    if results == [] then false
    else
      assert forall i :: 0 < i < |results| ==> results[i] == results[1..][i - 1];
      results[0].allowed || AnyAllowed(results[1..])
  }

  /** `ValidateAllAsync`: the conjunction of the batch results (true for none). */
  function ValidateAll(c: PermissionChecker, batch: seq<CheckRequest> -> Reply<BatchCheckResponse>): (r: Result<bool, Error>)
    ensures r.Success? <==> batch(BatchRequest(c)).Replied?
    ensures batch(BatchRequest(c)).Threw? ==> r == Failure(EngineFault(batch(BatchRequest(c)).fault))
    ensures r.Success? ==>
      var responses := batch(BatchRequest(c)).response.responses;
      (r.value <==> forall i :: 0 <= i < |responses| ==> responses[i].allowed)
  {
    match Validate(c, batch)
    case Failure(e) => Failure(e)
    case Success(results) => Success(AllAllowed(results))
  }

  /** `ValidateAnyAsync`: the disjunction of the batch results (false for none). */
  function ValidateAny(c: PermissionChecker, batch: seq<CheckRequest> -> Reply<BatchCheckResponse>): (r: Result<bool, Error>)
    ensures r.Success? <==> batch(BatchRequest(c)).Replied?
    ensures batch(BatchRequest(c)).Threw? ==> r == Failure(EngineFault(batch(BatchRequest(c)).fault))
    ensures r.Success? ==>
      var responses := batch(BatchRequest(c)).response.responses;
      (r.value <==> exists i :: 0 <= i < |responses| && responses[i].allowed)
  {
    match Validate(c, batch)
    case Failure(e) => Failure(e)
    case Success(results) =>
      var responses := batch(BatchRequest(c)).response.responses;
      assert forall i :: 0 <= i < |responses| ==> results[i].allowed == responses[i].allowed;
      Success(AnyAllowed(results))
  }

  /** The combinators read only the `allowed` flags, so building them on the
      as-written `ValidateAsync` (swapped details) gives the same answers. */
  lemma CombinatorsIgnoreSwappedDetails(c: PermissionChecker, batch: seq<CheckRequest> -> Reply<BatchCheckResponse>)
    ensures ValidateAll(c, batch) ==
      match ValidateAsWritten(c, batch)
      case Failure(e) => Failure(e)
      case Success(rs) => Success(AllAllowed(rs))
    ensures ValidateAny(c, batch) ==
      match ValidateAsWritten(c, batch)
      case Failure(e) => Failure(e)
      case Success(rs) => Success(AnyAllowed(rs))
  {
  }

  // ---------------------------------------------------------------------------
  // Meaning of the combinators against a faithful engine
  // ---------------------------------------------------------------------------

  /** The batch response of an engine that answers every request, in request
      order, by the relation `truth`. */
  function FaithfulBatch(truth: CheckRequest -> bool, requests: seq<CheckRequest>): (response: BatchCheckResponse)
    ensures |response.responses| == |requests|
  {
    BatchCheckResponse(seq(|requests|, i requires 0 <= i < |requests| => BatchCheckItem(truth(requests[i]), requests[i])))
  }

  /** Against a faithful engine `ValidateAll` holds exactly when every
      accumulated check holds. */
  lemma ValidateAllMeansEveryCheck(
    c: PermissionChecker, batch: seq<CheckRequest> -> Reply<BatchCheckResponse>, truth: CheckRequest -> bool)
    requires batch(BatchRequest(c)) == Replied(FaithfulBatch(truth, BatchRequest(c)))
    ensures ValidateAll(c, batch) == Success(forall i :: 0 <= i < |c.checks| ==> truth(ToCheckRequest(c.checks[i])))
  {
    var responses := FaithfulBatch(truth, BatchRequest(c)).responses;
    assert forall i :: 0 <= i < |c.checks| ==> responses[i].allowed == truth(ToCheckRequest(c.checks[i]));
  }

  /** Against a faithful engine `ValidateAny` holds exactly when some
      accumulated check holds. */
  lemma ValidateAnyMeansSomeCheck(
    c: PermissionChecker, batch: seq<CheckRequest> -> Reply<BatchCheckResponse>, truth: CheckRequest -> bool)
    requires batch(BatchRequest(c)) == Replied(FaithfulBatch(truth, BatchRequest(c)))
    ensures ValidateAny(c, batch) == Success(exists i :: 0 <= i < |c.checks| && truth(ToCheckRequest(c.checks[i])))
  {
    var responses := FaithfulBatch(truth, BatchRequest(c)).responses;
    assert forall i :: 0 <= i < |c.checks| ==> responses[i].allowed == truth(ToCheckRequest(c.checks[i]));
  }

  /** Against a faithful engine the i-th result describes the i-th check. */
  lemma ValidatePreservesCheckOrder(
    c: PermissionChecker, batch: seq<CheckRequest> -> Reply<BatchCheckResponse>, truth: CheckRequest -> bool)
    requires batch(BatchRequest(c)) == Replied(FaithfulBatch(truth, BatchRequest(c)))
    ensures Validate(c, batch).Success?
    ensures |Validate(c, batch).value| == |c.checks|
    ensures forall i :: 0 <= i < |c.checks| ==>
      Validate(c, batch).value[i] == Validation(truth(ToCheckRequest(c.checks[i])),
        TupleKey(c.checks[i].user, c.checks[i].relation, c.checks[i].obj, None))
  {
  }

  /** As written, against a faithful engine the details of each result carry the
      check's relation as its user and its user as its relation. */
  lemma ValidateAsWrittenSwapsDetails(
    c: PermissionChecker, batch: seq<CheckRequest> -> Reply<BatchCheckResponse>, truth: CheckRequest -> bool)
    requires batch(BatchRequest(c)) == Replied(FaithfulBatch(truth, BatchRequest(c)))
    ensures ValidateAsWritten(c, batch).Success?
    ensures forall i :: 0 <= i < |c.checks| ==>
      && ValidateAsWritten(c, batch).value[i].details.user == c.checks[i].relation
      && ValidateAsWritten(c, batch).value[i].details.relation == c.checks[i].user
  {
  }

  /** One concrete check where the two differ: `form:1#editor@user:alice`. */
  lemma SwappedDetailsExample(batch: seq<CheckRequest> -> Reply<BatchCheckResponse>, truth: CheckRequest -> bool)
    requires
      var c := PermissionChecker(None, [PendingCheck("form:1", "editor", "user:alice")]);
      batch(BatchRequest(c)) == Replied(FaithfulBatch(truth, BatchRequest(c)))
    ensures
      var c := PermissionChecker(None, [PendingCheck("form:1", "editor", "user:alice")]);
      && ValidateAsWritten(c, batch).value[0].details.user == "editor"
      && Validate(c, batch).value[0].details.user == "user:alice"
  {
    var c := PermissionChecker(None, [PendingCheck("form:1", "editor", "user:alice")]);
    ValidateAsWrittenSwapsDetails(c, batch, truth);
    ValidatePreservesCheckOrder(c, batch, truth);
  }

  /** With exactly one check and a faithful engine, the three combinators agree. */
  lemma SingleCheckCombinatorsAgree(
    c: PermissionChecker, check: CheckRequest -> Reply<CheckResponse>,
    batch: seq<CheckRequest> -> Reply<BatchCheckResponse>, truth: CheckRequest -> bool)
    requires |c.checks| == 1
    requires check(ToCheckRequest(c.checks[0])) == Replied(CheckResponse(Some(truth(ToCheckRequest(c.checks[0])))))
    requires batch(BatchRequest(c)) == Replied(FaithfulBatch(truth, BatchRequest(c)))
    ensures ValidateSingle(c, check) == ValidateAll(c, batch) == ValidateAny(c, batch)
  {
    ValidateAllMeansEveryCheck(c, batch, truth);
    ValidateAnyMeansSomeCheck(c, batch, truth);
  }

  /** With nothing accumulated and a faithful engine: single and any are false,
      all is vacuously true. */
  lemma EmptyCheckerCombinators(
    c: PermissionChecker, check: CheckRequest -> Reply<CheckResponse>,
    batch: seq<CheckRequest> -> Reply<BatchCheckResponse>, truth: CheckRequest -> bool)
    requires c.checks == []
    requires batch(BatchRequest(c)) == Replied(FaithfulBatch(truth, BatchRequest(c)))
    ensures ValidateSingle(c, check) == Success(false)
    ensures ValidateAll(c, batch) == Success(true)
    ensures ValidateAny(c, batch) == Success(false)
  {
  }

  /** Whenever the engine answers at least one check, all-allowed implies
      some-allowed. */
  lemma ValidateAllImpliesAny(c: PermissionChecker, batch: seq<CheckRequest> -> Reply<BatchCheckResponse>)
    requires batch(BatchRequest(c)).Replied?
    requires batch(BatchRequest(c)).response.responses != []
    requires ValidateAll(c, batch) == Success(true)
    ensures ValidateAny(c, batch) == Success(true)
  {
    var responses := batch(BatchRequest(c)).response.responses;
    assert responses[0].allowed;
  }
}
