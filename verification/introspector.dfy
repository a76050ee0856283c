/** The introspector (`PermissionsIntrospector`): a read-only query listing the
    objects of one resource type that an accessor reaches through a relation.
    Each call is independent; the engine's `ListObjects` is the parameter
    `listObjects`. */
module Introspector {
  import opened Wrappers
  import opened Naming
  import opened Engine

  datatype PermissionsIntrospector = PermissionsIntrospector(client: Option<Client>)

  /** The request `ListObjectsForUserAsync<TRes, TUser>(userId, relationName)`
      sends: the qualified accessor, the relation as given, and the resource
      type's bare token. */
  function ListObjectsRequestFor(tRes: EntityType, tUser: EntityType, userId: string, relationName: string): (r: ListObjectsRequest)
    requires tRes.isResource && tUser.isAccessor
    ensures r.user == MakeEntityName(tUser, Some(userId))
    ensures r.relation == relationName
    ensures r.objectType == Underscore(tRes.name)
    ensures IsTypeName(tRes.name) ==> ':' !in r.objectType
  {
    var user := MakeEntityName(tUser, Some(userId));
    var resource := MakeEntityName(tRes);
    ListObjectsRequest(user, relationName, resource)
  }

  /** `ListObjectsForUserAsync`: the engine's `Objects`, unfiltered and in the
      engine's order, or the engine's fault. */
  function ListObjectsForUser(
    tRes: EntityType, tUser: EntityType, userId: string, relationName: string,
    listObjects: ListObjectsRequest -> Reply<ListObjectsResponse>): (r: Result<seq<string>, Error>)
    requires tRes.isResource && tUser.isAccessor
    ensures var reply := listObjects(ListObjectsRequestFor(tRes, tUser, userId, relationName));
      && (reply.Replied? ==> r == Success(reply.response.objects))
      && (reply.Threw? ==> r == Failure(EngineFault(reply.fault)))
  {
    match listObjects(ListObjectsRequestFor(tRes, tUser, userId, relationName))
    case Threw(fault) => Failure(EngineFault(fault))
    case Replied(response) => Success(response.objects)
  }

  /** The type token of the request is exactly the type part of every entity
      name the builder writes for that resource type, and the request's user
      splits back into the accessor's type token and id. */
  lemma ListObjectsRequestMatchesEntityNames(
    tRes: EntityType, tUser: EntityType, userId: string, relationName: string, objectId: string)
    requires tRes.isResource && tUser.isAccessor
    requires IsTypeName(tRes.name) && IsTypeName(tUser.name)
    ensures var request := ListObjectsRequestFor(tRes, tUser, userId, relationName);
      && SplitEntityName(MakeEntityName(tRes, Some(objectId))).0 == request.objectType
      && SplitEntityName(request.objectType) == (request.objectType, None)
      && SplitEntityName(request.user) == (Underscore(tUser.name), Some(userId))
  {
    EntityNameRoundTrip(tRes, Some(objectId));
    EntityNameRoundTrip(tRes, None);
    EntityNameRoundTrip(tUser, Some(userId));
  }
}
