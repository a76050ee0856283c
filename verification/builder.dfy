/** The mutation builder (`PermissionBuilder`, both partial class files): a
    single-owner state machine that accumulates pending grants and revokes,
    remembers the last accessor id for continuation calls, and on save turns
    the accumulation into one write request.

    Each fluent call is a pure function from builder to builder; a call that
    can throw returns a `Result`. */
module Builder {
  import opened Wrappers
  import opened Naming
  import opened Expressions
  import opened Engine

  const NoPreviousUser := "No previous user to add relation for."
  const NoChanges := "No changes to save."
  const ClientRequired := "OpenFgaClient instance is required to grant permissions."

  /** An entry of `_newGrants`. */
  datatype PendingGrant = PendingGrant(obj: string, relation: string, user: string, condition: Option<Condition>)

  /** An entry of `_removedGrants`; deletes carry no condition. */
  datatype PendingRevoke = PendingRevoke(obj: string, relation: string, user: string)

  datatype PermissionBuilder = PermissionBuilder(
    client: Option<Client>,
    disableTransactions: bool,
    newGrants: seq<PendingGrant>,
    removedGrants: seq<PendingRevoke>,
    lastUserId: Option<string>)
  {
    /** Nothing pending and no remembered accessor. */
    predicate IsClear() {
      newGrants == [] && removedGrants == [] && lastUserId.None?
    }
  }

  /** The primary constructor `PermissionBuilder(client, disableTransactions = false)`. */
  function NewBuilder(client: Option<Client>, disableTransactions: bool := false): (b: PermissionBuilder)
    ensures b.IsClear()
    ensures b.client == client && b.disableTransactions == disableTransactions
  {
    PermissionBuilder(client, disableTransactions, [], [], None)
  }

  /** The constructor arguments survive every call. */
  predicate SameConfig(a: PermissionBuilder, b: PermissionBuilder) {
    a.client == b.client && a.disableTransactions == b.disableTransactions
  }

  /** `s` is `prefix` followed by exactly `e`. */
  predicate AppendedOne<T(==)>(prefix: seq<T>, s: seq<T>, e: T) {
    |s| == |prefix| + 1 && s[..|prefix|] == prefix && s[|prefix|] == e
  }

  // ---------------------------------------------------------------------------
  // Grants
  // ---------------------------------------------------------------------------

  /** `Add<TUser, TRes>(userId, relation, objectId, conditionSelector)`: one more
      pending grant of `relation` on the qualified object to the qualified
      accessor, remembered as the last accessor. Pending revokes are untouched. */
  function Add(
    b: PermissionBuilder, tUser: EntityType, tRes: EntityType,
    userId: string, relation: string, objectId: string,
    condition: Option<Condition> := None): (r: PermissionBuilder)
    requires tUser.isAccessor && tRes.isResource
    ensures SameConfig(r, b)
    ensures AppendedOne(b.newGrants, r.newGrants,
      PendingGrant(MakeEntityName(tRes, Some(objectId)), relation, MakeEntityName(tUser, Some(userId)), condition))
    ensures r.removedGrants == b.removedGrants
    ensures r.lastUserId == Some(userId)
  {
    var user := MakeEntityName(tUser, Some(userId));
    var resource := MakeEntityName(tRes, Some(objectId));
    b.(lastUserId := Some(userId),
       newGrants := b.newGrants + [PendingGrant(resource, relation, user, condition)])
  }

  /** The selector overload of `Add`, with the relation resolved as intended
      (see `Expressions.SelectorRelation`). */
  function AddBySelector(
    b: PermissionBuilder, tUser: EntityType, tRes: EntityType,
    userId: string, selector: Expr, objectId: string,
    condition: Option<Condition> := None): (r: PermissionBuilder)
    requires tUser.isAccessor && tRes.isResource
    ensures r == Add(b, tUser, tRes, userId, SelectorRelation(selector), objectId, condition)
    ensures r.newGrants[|b.newGrants|].relation == SelectorRelation(selector)
    ensures selector.Lambda? ==> r.newGrants[|b.newGrants|].relation == Underscore(ResolveName(selector.body))
  {
    Add(b, tUser, tRes, userId, SelectorRelation(selector), objectId, condition)
  }

  /** The selector overload of `Add` as written: `ResolveName` is applied to the
      lambda itself, so the pending grant's relation is empty. */
  function AddBySelectorAsWritten(
    b: PermissionBuilder, tUser: EntityType, tRes: EntityType,
    userId: string, selector: Expr, objectId: string,
    condition: Option<Condition> := None): (r: PermissionBuilder)
    requires tUser.isAccessor && tRes.isResource
    ensures |r.newGrants| == |b.newGrants| + 1
    ensures selector.Lambda? ==> r.newGrants[|b.newGrants|].relation == ""
    ensures selector.Lambda? ==> r == Add(b, tUser, tRes, userId, "", objectId, condition)
  {
    Add(b, tUser, tRes, userId, ResolveName(selector), objectId, condition)
  }

  /** `AddAlso<TUser, TRes>(relation, objectId, conditionSelector)`: a grant for
      the remembered accessor id, qualified with this call's `TUser`; throws
      when no accessor is remembered, and then nothing changes. */
  function AddAlso(
    b: PermissionBuilder, tUser: EntityType, tRes: EntityType,
    relation: string, objectId: string,
    condition: Option<Condition> := None): (r: Result<PermissionBuilder, Error>)
    requires tUser.isAccessor && tRes.isResource
    ensures r.Failure? <==> b.lastUserId.None?
    ensures r.Failure? ==> r.error == InvalidOperation(NoPreviousUser)
    ensures r.Success? ==> SameConfig(r.value, b) && r.value.removedGrants == b.removedGrants
    ensures r.Success? ==> AppendedOne(b.newGrants, r.value.newGrants,
      PendingGrant(MakeEntityName(tRes, Some(objectId)), relation, MakeEntityName(tUser, b.lastUserId), condition))
    ensures r.Success? ==> r.value.lastUserId == b.lastUserId
  {
    if b.lastUserId.None? then Failure(InvalidOperation(NoPreviousUser))
    else Success(Add(b, tUser, tRes, b.lastUserId.value, relation, objectId, condition))
  }

  /** The selector overload of `AddAlso`. */
  function AddAlsoBySelector(
    b: PermissionBuilder, tUser: EntityType, tRes: EntityType,
    selector: Expr, objectId: string,
    condition: Option<Condition> := None): (r: Result<PermissionBuilder, Error>)
    requires tUser.isAccessor && tRes.isResource
    ensures r.Failure? <==> b.lastUserId.None?
    ensures r.Failure? ==> r.error == InvalidOperation(NoPreviousUser)
    ensures r.Success? ==> AppendedOne(b.newGrants, r.value.newGrants,
      PendingGrant(MakeEntityName(tRes, Some(objectId)), SelectorRelation(selector), MakeEntityName(tUser, b.lastUserId), condition))
    ensures r.Success? ==> r.value.lastUserId == b.lastUserId && r.value.removedGrants == b.removedGrants
    ensures r.Success? ==> SameConfig(r.value, b)
    ensures r == AddAlso(b, tUser, tRes, SelectorRelation(selector), objectId, condition)
  {
    if b.lastUserId.None? then Failure(InvalidOperation(NoPreviousUser))
    else Success(Add(b, tUser, tRes, b.lastUserId.value, SelectorRelation(selector), objectId, condition))
  }

  /** The selector overload of `AddAlso` as written: the lambda itself goes to
      `ResolveName`, so the continuation queues the empty relation. */
  function AddAlsoBySelectorAsWritten(
    b: PermissionBuilder, tUser: EntityType, tRes: EntityType,
    selector: Expr, objectId: string,
    condition: Option<Condition> := None): (r: Result<PermissionBuilder, Error>)
    requires tUser.isAccessor && tRes.isResource
    ensures r.Failure? <==> b.lastUserId.None?
    ensures selector.Lambda? ==> r == AddAlso(b, tUser, tRes, "", objectId, condition)
    ensures selector.Lambda? && r.Success? ==> r.value.newGrants[|b.newGrants|].relation == ""
  {
    if b.lastUserId.None? then Failure(InvalidOperation(NoPreviousUser))
    else Success(Add(b, tUser, tRes, b.lastUserId.value, ResolveName(selector), objectId, condition))
  }

  /** The grant `AddMany` queues for one accessor id. */
  function ManyGrant(tUser: EntityType, tRes: EntityType, relation: string, objectId: string, userId: string): PendingGrant {
    PendingGrant(MakeEntityName(tRes, Some(objectId)), relation, MakeEntityName(tUser, Some(userId)), None)
  }

  /** `AddMany<TUser, TRes>(relation, objectId, userIds)`: one unconditional grant
      per id, in id order, all on the same object and relation. The last id is
      remembered; with no ids nothing changes at all. */
  function AddMany(
    b: PermissionBuilder, tUser: EntityType, tRes: EntityType,
    relation: string, objectId: string, userIds: seq<string>): (r: PermissionBuilder)
    requires tUser.isAccessor && tRes.isResource
    ensures SameConfig(r, b) && r.removedGrants == b.removedGrants
    ensures |r.newGrants| == |b.newGrants| + |userIds|
    ensures r.newGrants[..|b.newGrants|] == b.newGrants
    ensures forall i :: 0 <= i < |userIds| ==>
      r.newGrants[|b.newGrants| + i] == ManyGrant(tUser, tRes, relation, objectId, userIds[i])
    ensures r.lastUserId == if userIds == [] then b.lastUserId else Some(userIds[|userIds| - 1])
    decreases |userIds|
  {
    if userIds == [] then b
    else AddMany(Add(b, tUser, tRes, userIds[0], relation, objectId), tUser, tRes, relation, objectId, userIds[1..])
  }

  /** The overload of `AddMany` that also takes a selector ignores it: the
      relation comes from the string argument. */
  function AddManyBySelector(
    b: PermissionBuilder, tUser: EntityType, tRes: EntityType,
    relation: string, selector: Expr, objectId: string, userIds: seq<string>): (r: PermissionBuilder)
    requires tUser.isAccessor && tRes.isResource
    ensures |r.newGrants| == |b.newGrants| + |userIds|
    ensures forall g :: g in r.newGrants[|b.newGrants|..] ==> g.relation == relation && g.condition.None?
  {
    var r := AddMany(b, tUser, tRes, relation, objectId, userIds);
    assert forall g :: g in r.newGrants[|b.newGrants|..] ==> g.relation == relation && g.condition.None? by {
      forall g | g in r.newGrants[|b.newGrants|..]
        ensures g.relation == relation && g.condition.None?
      {
        var k :| 0 <= k < |userIds| && r.newGrants[|b.newGrants|..][k] == g;
        assert g == ManyGrant(tUser, tRes, relation, objectId, userIds[k]);
      }
    }
    r
  }

  // ---------------------------------------------------------------------------
  // Revokes
  // ---------------------------------------------------------------------------

  /** `Revoke<TUser, TRes>(userId, relation, objectId)`: one more pending delete.
      Pending grants and the remembered accessor are untouched. */
  function Revoke(
    b: PermissionBuilder, tUser: EntityType, tRes: EntityType,
    userId: string, relation: string, objectId: string): (r: PermissionBuilder)
    requires tUser.isAccessor && tRes.isResource
    ensures SameConfig(r, b)
    ensures AppendedOne(b.removedGrants, r.removedGrants,
      PendingRevoke(MakeEntityName(tRes, Some(objectId)), relation, MakeEntityName(tUser, Some(userId))))
    ensures r.newGrants == b.newGrants && r.lastUserId == b.lastUserId
  {
    var user := MakeEntityName(tUser, Some(userId));
    var resource := MakeEntityName(tRes, Some(objectId));
    b.(removedGrants := b.removedGrants + [PendingRevoke(resource, relation, user)])
  }

  /** `RevokeMany<TUser, TRes>(relation, objectId, userIds)`: one pending delete
      per id, in id order. */
  function RevokeMany(
    b: PermissionBuilder, tUser: EntityType, tRes: EntityType,
    relation: string, objectId: string, userIds: seq<string>): (r: PermissionBuilder)
    requires tUser.isAccessor && tRes.isResource
    ensures SameConfig(r, b)
    ensures r.newGrants == b.newGrants && r.lastUserId == b.lastUserId
    ensures |r.removedGrants| == |b.removedGrants| + |userIds|
    ensures r.removedGrants[..|b.removedGrants|] == b.removedGrants
    ensures forall i :: 0 <= i < |userIds| ==>
      r.removedGrants[|b.removedGrants| + i]
        == PendingRevoke(MakeEntityName(tRes, Some(objectId)), relation, MakeEntityName(tUser, Some(userIds[i])))
    decreases |userIds|
  {
    if userIds == [] then b
    else RevokeMany(Revoke(b, tUser, tRes, userIds[0], relation, objectId), tUser, tRes, relation, objectId, userIds[1..])
  }

  // ---------------------------------------------------------------------------
  // Assign (accessor-to-accessor relations, `PermissionBuilder.Assign.cs`)
  // ---------------------------------------------------------------------------

  /** `Assign<TGroup, TTarget>(userId, relation, targetId, conditionSelector)`:
      like `Add`, but both type arguments need only be resources. */
  function Assign(
    b: PermissionBuilder, tGroup: EntityType, tTarget: EntityType,
    userId: string, relation: string, targetId: string,
    condition: Option<Condition> := None): (r: PermissionBuilder)
    requires tGroup.isResource && tTarget.isResource
    ensures SameConfig(r, b)
    ensures AppendedOne(b.newGrants, r.newGrants,
      PendingGrant(MakeEntityName(tTarget, Some(targetId)), relation, MakeEntityName(tGroup, Some(userId)), condition))
    ensures r.removedGrants == b.removedGrants
    ensures r.lastUserId == Some(userId)
  {
    var user := MakeEntityName(tGroup, Some(userId));
    var target := MakeEntityName(tTarget, Some(targetId));
    b.(lastUserId := Some(userId),
       newGrants := b.newGrants + [PendingGrant(target, relation, user, condition)])
  }

  /** The selector overload of `Assign`. */
  function AssignBySelector(
    b: PermissionBuilder, tGroup: EntityType, tTarget: EntityType,
    userId: string, selector: Expr, targetId: string,
    condition: Option<Condition> := None): (r: PermissionBuilder)
    requires tGroup.isResource && tTarget.isResource
    ensures AppendedOne(b.newGrants, r.newGrants,
      PendingGrant(MakeEntityName(tTarget, Some(targetId)), SelectorRelation(selector), MakeEntityName(tGroup, Some(userId)), condition))
    ensures r.removedGrants == b.removedGrants && r.lastUserId == Some(userId)
    ensures SameConfig(r, b)
    ensures r == Assign(b, tGroup, tTarget, userId, SelectorRelation(selector), targetId, condition)
  {
    Assign(b, tGroup, tTarget, userId, SelectorRelation(selector), targetId, condition)
  }

  /** The selector overload of `Assign` as written: the relation is empty. */
  function AssignBySelectorAsWritten(
    b: PermissionBuilder, tGroup: EntityType, tTarget: EntityType,
    userId: string, selector: Expr, targetId: string,
    condition: Option<Condition> := None): (r: PermissionBuilder)
    requires tGroup.isResource && tTarget.isResource
    ensures |r.newGrants| == |b.newGrants| + 1
    ensures selector.Lambda? ==> r.newGrants[|b.newGrants|].relation == ""
    ensures selector.Lambda? ==> r == Assign(b, tGroup, tTarget, userId, "", targetId, condition)
  {
    Assign(b, tGroup, tTarget, userId, ResolveName(selector), targetId, condition)
  }

  /** `AssignAlso<TGroup, TTarget>(userId, relation, targetId, ...)`: throws when no
      accessor is remembered; otherwise it is `Assign` with the id passed in,
      not the remembered one, which it replaces. */
  function AssignAlso(
    b: PermissionBuilder, tGroup: EntityType, tTarget: EntityType,
    userId: string, relation: string, targetId: string,
    condition: Option<Condition> := None): (r: Result<PermissionBuilder, Error>)
    requires tGroup.isResource && tTarget.isResource
    ensures r.Failure? <==> b.lastUserId.None?
    ensures r.Failure? ==> r.error == InvalidOperation(NoPreviousUser)
    ensures r.Success? ==> AppendedOne(b.newGrants, r.value.newGrants,
      PendingGrant(MakeEntityName(tTarget, Some(targetId)), relation, MakeEntityName(tGroup, Some(userId)), condition))
    ensures r.Success? ==> r.value.lastUserId == Some(userId) && r.value.removedGrants == b.removedGrants
    ensures r.Success? ==> SameConfig(r.value, b)
    ensures b.lastUserId.Some? ==> r == Success(Assign(b, tGroup, tTarget, userId, relation, targetId, condition))
  {
    if b.lastUserId.None? then Failure(InvalidOperation(NoPreviousUser))
    else Success(Assign(b, tGroup, tTarget, userId, relation, targetId, condition))
  }

  /** The selector overload of `AssignAlso`. */
  function AssignAlsoBySelector(
    b: PermissionBuilder, tGroup: EntityType, tTarget: EntityType,
    userId: string, selector: Expr, targetId: string,
    condition: Option<Condition> := None): (r: Result<PermissionBuilder, Error>)
    requires tGroup.isResource && tTarget.isResource
    ensures r.Failure? <==> b.lastUserId.None?
    ensures r.Failure? ==> r.error == InvalidOperation(NoPreviousUser)
    ensures r.Success? ==> AppendedOne(b.newGrants, r.value.newGrants,
      PendingGrant(MakeEntityName(tTarget, Some(targetId)), SelectorRelation(selector), MakeEntityName(tGroup, Some(userId)), condition))
    ensures r.Success? ==> r.value.lastUserId == Some(userId)
    ensures r.Success? ==> r.value.removedGrants == b.removedGrants && SameConfig(r.value, b)
    ensures b.lastUserId.Some? ==> r == Success(AssignBySelector(b, tGroup, tTarget, userId, selector, targetId, condition))
  {
    if b.lastUserId.None? then Failure(InvalidOperation(NoPreviousUser))
    else Success(Assign(b, tGroup, tTarget, userId, SelectorRelation(selector), targetId, condition))
  }

  /** The selector overload of `AssignAlso` as written: the relation is empty. */
  function AssignAlsoBySelectorAsWritten(
    b: PermissionBuilder, tGroup: EntityType, tTarget: EntityType,
    userId: string, selector: Expr, targetId: string,
    condition: Option<Condition> := None): (r: Result<PermissionBuilder, Error>)
    requires tGroup.isResource && tTarget.isResource
    ensures r.Failure? <==> b.lastUserId.None?
    ensures selector.Lambda? ==> r == AssignAlso(b, tGroup, tTarget, userId, "", targetId, condition)
    ensures selector.Lambda? && r.Success? ==> r.value.newGrants[|b.newGrants|].relation == ""
  {
    if b.lastUserId.None? then Failure(InvalidOperation(NoPreviousUser))
    else Success(Assign(b, tGroup, tTarget, userId, ResolveName(selector), targetId, condition))
  }

  // ---------------------------------------------------------------------------
  // Save
  // ---------------------------------------------------------------------------

  function ToTupleKey(g: PendingGrant): TupleKey {
    TupleKey(g.user, g.relation, g.obj, g.condition)
  }

  function ToDeleteKey(v: PendingRevoke): DeleteKey {
    DeleteKey(v.user, v.relation, v.obj)
  }

  /** The `ClientTupleKey` list built from the pending grants, in order. */
  function WriteKeys(grants: seq<PendingGrant>): (keys: seq<TupleKey>)
    ensures |keys| == |grants|
    ensures forall i :: 0 <= i < |grants| ==> keys[i] == ToTupleKey(grants[i])
  {
    seq(|grants|, i requires 0 <= i < |grants| => ToTupleKey(grants[i]))
  }

  /** The `ClientTupleKeyWithoutCondition` list built from the pending revokes, in order. */
  function DeleteKeys(revokes: seq<PendingRevoke>): (keys: seq<DeleteKey>)
    ensures |keys| == |revokes|
    ensures forall i :: 0 <= i < |revokes| ==> keys[i] == ToDeleteKey(revokes[i])
  {
    seq(|revokes|, i requires 0 <= i < |revokes| => ToDeleteKey(revokes[i]))
  }

  /** The request `SaveChangesAsync` sends, or the exception it throws first: a
      missing client is a security error; with a client, the request shape is
      chosen by which pending lists are non-empty, and both empty is an
      invalid operation. */
  function WriteRequestFor(b: PermissionBuilder): (r: Result<WriteRequest, Error>)
    ensures b.client.None? ==> r == Failure(Security(ClientRequired))
    ensures b.client.Some? ==> (r.Failure? <==> b.newGrants == [] && b.removedGrants == [])
    ensures b.client.Some? && r.Failure? ==> r.error == InvalidOperation(NoChanges)
    ensures r.Success? ==> (r.value.writes.Some? <==> b.newGrants != [])
    ensures r.Success? ==> (r.value.deletes.Some? <==> b.removedGrants != [])
    ensures r.Success? && r.value.writes.Some? ==> r.value.writes.value == WriteKeys(b.newGrants)
    ensures r.Success? && r.value.deletes.Some? ==> r.value.deletes.value == DeleteKeys(b.removedGrants)
    ensures r.Success? ==> r.value.disableTransactions == b.disableTransactions
  {
    if b.client.None? then Failure(Security(ClientRequired))
    else
      var tuples := WriteKeys(b.newGrants);
      var removedTuples := DeleteKeys(b.removedGrants);
      var d := b.disableTransactions;
      if |tuples| == 0 && |removedTuples| == 0 then Failure(InvalidOperation(NoChanges))
      else if |tuples| == 0 then Success(WriteRequest(None, Some(removedTuples), d))
      else if |removedTuples| == 0 then Success(WriteRequest(Some(tuples), None, d))
      else Success(WriteRequest(Some(tuples), Some(removedTuples), d))
  }

  /** What `SaveChangesAsync` returns: the tuple keys the engine reports. */
  datatype Saved = Saved(added: seq<TupleKey>, revoked: seq<TupleKey>)

  /** The result of a save together with the builder after it. */
  datatype SaveOutcome = SaveOutcome(result: Result<Saved, Error>, builder: PermissionBuilder)

  /** `SaveChangesAsync`, with the engine's `Write` as the parameter `write`.
      Local errors are raised before the engine is reached; an engine fault is
      passed on unchanged. The builder is cleared only once the write has
      returned, so it is unchanged exactly when the save fails. */
  function SaveChanges(b: PermissionBuilder, write: WriteRequest -> Reply<WriteResponse>): (o: SaveOutcome)
    ensures WriteRequestFor(b).Failure? ==> o == SaveOutcome(Failure(WriteRequestFor(b).error), b)
    ensures WriteRequestFor(b).Success? && write(WriteRequestFor(b).value).Threw? ==>
      o == SaveOutcome(Failure(EngineFault(write(WriteRequestFor(b).value).fault)), b)
    ensures o.result.Success? ==>
      && WriteRequestFor(b).Success?
      && write(WriteRequestFor(b).value).Replied?
      && var response := write(WriteRequestFor(b).value).response;
         o.result.value == Saved(KeysOrEmpty(response.writes), KeysOrEmpty(response.deletes))
    ensures o.result.Success? ==> o.builder.IsClear() && SameConfig(o.builder, b)
    ensures WriteRequestFor(b).Success? && write(WriteRequestFor(b).value).Replied? ==> o.result.Success?
    ensures o.result.Failure? <==> o.builder == b
  {
    match WriteRequestFor(b)
    case Failure(e) => SaveOutcome(Failure(e), b)
    case Success(request) =>
      match write(request)
      case Threw(fault) => SaveOutcome(Failure(EngineFault(fault)), b)
      case Replied(response) =>
        SaveOutcome(
          Success(Saved(KeysOrEmpty(response.writes), KeysOrEmpty(response.deletes))),
          NewBuilder(b.client, b.disableTransactions))
  }

  // ---------------------------------------------------------------------------
  // Properties relating several calls
  // ---------------------------------------------------------------------------

  /** Grants and revokes live in separate lists, so the order of an `Add` and a
      `Revoke` does not matter. */
  lemma AddRevokeCommute(
    b: PermissionBuilder, tUser: EntityType, tRes: EntityType,
    userId: string, relation: string, objectId: string,
    revokedUserId: string, revokedRelation: string, revokedObjectId: string)
    requires tUser.isAccessor && tRes.isResource
    ensures Revoke(Add(b, tUser, tRes, userId, relation, objectId), tUser, tRes, revokedUserId, revokedRelation, revokedObjectId)
         == Add(Revoke(b, tUser, tRes, revokedUserId, revokedRelation, revokedObjectId), tUser, tRes, userId, relation, objectId)
  {
  }

  /** A continuation right after `Add` is an `Add` for the same accessor id. */
  lemma AddAlsoContinuesAdd(
    b: PermissionBuilder, tUser: EntityType, tRes: EntityType,
    userId: string, relation: string, objectId: string,
    tRes2: EntityType, relation2: string, objectId2: string)
    requires tUser.isAccessor && tRes.isResource && tRes2.isResource
    ensures var b1 := Add(b, tUser, tRes, userId, relation, objectId);
      AddAlso(b1, tUser, tRes2, relation2, objectId2) == Success(Add(b1, tUser, tRes2, userId, relation2, objectId2))
  {
  }

  /** `AddMany` over a concatenation is `AddMany` over each part in turn. */
  lemma {:induction false} AddManyConcat(
    b: PermissionBuilder, tUser: EntityType, tRes: EntityType,
    relation: string, objectId: string, ids1: seq<string>, ids2: seq<string>)
    requires tUser.isAccessor && tRes.isResource
    ensures AddMany(b, tUser, tRes, relation, objectId, ids1 + ids2)
         == AddMany(AddMany(b, tUser, tRes, relation, objectId, ids1), tUser, tRes, relation, objectId, ids2)
    decreases |ids1|
  {
    if ids1 == [] {
      assert ids1 + ids2 == ids2;
    } else {
      assert (ids1 + ids2)[0] == ids1[0];
      assert (ids1 + ids2)[1..] == ids1[1..] + ids2;
      AddManyConcat(Add(b, tUser, tRes, ids1[0], relation, objectId), tUser, tRes, relation, objectId, ids1[1..], ids2);
    }
  }

  /** Distinct ids given to `AddMany` become distinct accessors: the grants it
      queues differ pairwise in their user and share object and relation. */
  lemma AddManyDistinctAccessors(
    b: PermissionBuilder, tUser: EntityType, tRes: EntityType,
    relation: string, objectId: string, userIds: seq<string>)
    requires tUser.isAccessor && tRes.isResource && IsTypeName(tUser.name)
    requires forall i, j :: 0 <= i < j < |userIds| ==> userIds[i] != userIds[j]
    ensures var added := AddMany(b, tUser, tRes, relation, objectId, userIds).newGrants[|b.newGrants|..];
      && |added| == |userIds|
      && forall i, j :: 0 <= i < j < |added| ==>
           && added[i].user != added[j].user
           && added[i].obj == added[j].obj
           && added[i].relation == added[j].relation
  {
    var added := AddMany(b, tUser, tRes, relation, objectId, userIds).newGrants[|b.newGrants|..];
    forall i, j | 0 <= i < j < |added|
      ensures added[i].user != added[j].user
      ensures added[i].obj == added[j].obj && added[i].relation == added[j].relation
    {
      assert added[i] == ManyGrant(tUser, tRes, relation, objectId, userIds[i]);
      assert added[j] == ManyGrant(tUser, tRes, relation, objectId, userIds[j]);
      if added[i].user == added[j].user {
        EntityNameInjective(tUser, Some(userIds[i]), tUser, Some(userIds[j]));
      }
    }
  }

  /** Which selector the `AddMany` overload is given makes no difference. */
  lemma AddManyIgnoresSelector(
    b: PermissionBuilder, tUser: EntityType, tRes: EntityType,
    relation: string, selector1: Expr, selector2: Expr, objectId: string, userIds: seq<string>)
    requires tUser.isAccessor && tRes.isResource
    ensures AddManyBySelector(b, tUser, tRes, relation, selector1, objectId, userIds)
         == AddManyBySelector(b, tUser, tRes, relation, selector2, objectId, userIds)
    ensures AddManyBySelector(b, tUser, tRes, relation, selector1, objectId, userIds)
         == AddMany(b, tUser, tRes, relation, objectId, userIds)
  {
  }

  /** `Assign` and `Add` queue the same grant when a type qualifies for both. */
  lemma AssignIsAdd(
    b: PermissionBuilder, tUser: EntityType, tRes: EntityType,
    userId: string, relation: string, objectId: string, condition: Option<Condition>)
    requires tUser.isAccessor && tUser.isResource && tRes.isResource
    ensures Assign(b, tUser, tRes, userId, relation, objectId, condition)
         == Add(b, tUser, tRes, userId, relation, objectId, condition)
  {
  }

  /** After a failed save the builder still holds the same request, so a retry
      sends exactly what the failed attempt sent. */
  lemma RetryResendsSameRequest(b: PermissionBuilder, write: WriteRequest -> Reply<WriteResponse>)
    requires SaveChanges(b, write).result.Failure?
    ensures WriteRequestFor(SaveChanges(b, write).builder) == WriteRequestFor(b)
  {
  }

  /** An engine that writes everything it is sent and reports it back. */
  function EchoWrite(request: WriteRequest): Reply<WriteResponse> {
    var writes := match request.writes
      case None => None
      case Some(ks) => Some(seq(|ks|, i requires 0 <= i < |ks| => WriteResult(ks[i], Written)));
    var deletes := match request.deletes
      case None => None
      case Some(ks) => Some(seq(|ks|, i requires 0 <= i < |ks| =>
        WriteResult(TupleKey(ks[i].user, ks[i].relation, ks[i].obj, None), Written)));
    Replied(WriteResponse(writes, deletes))
  }

  /** Against an engine that writes what it is sent, a save reports back exactly
      the pending grants and revokes, in accumulation order, and an empty
      `added` list when only revokes were pending. */
  lemma SaveReportsPendingInOrder(b: PermissionBuilder)
    requires b.client.Some?
    requires b.newGrants != [] || b.removedGrants != []
    ensures var o := SaveChanges(b, EchoWrite);
      && o.result.Success?
      && o.result.value.added == WriteKeys(b.newGrants)
      && |o.result.value.revoked| == |b.removedGrants|
      && (forall i :: 0 <= i < |b.removedGrants| ==>
            o.result.value.revoked[i] == TupleKey(b.removedGrants[i].user, b.removedGrants[i].relation, b.removedGrants[i].obj, None))
  {
    var request := WriteRequestFor(b).value;
    var response := EchoWrite(request).response;
    assert KeysOrEmpty(response.writes) == WriteKeys(b.newGrants);
  }

  /** The first example of the integration tests: two single grants and three
      grants via `AddMany` make one write of five tuples and no deletes. */
  lemma FiveGrantsScenario(client: Client, form: EntityType, user: EntityType)
    requires form.isResource && user.isAccessor
    ensures
      var b0 := NewBuilder(Some(client));
      var b1 := Add(b0, user, form, "alice", "editor", "223");
      var b2 := Add(b1, user, form, "bob", "editor", "223");
      var b3 := AddMany(b2, user, form, "reader", "223", ["carol", "dave", "eve"]);
      && WriteRequestFor(b3).Success?
      && WriteRequestFor(b3).value.deletes.None?
      && |WriteRequestFor(b3).value.writes.value| == 5
      && b3.lastUserId == Some("eve")
  {
  }
}
