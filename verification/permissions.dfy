/** The static entry point `Permissions`: factories sharing one client among a
    builder, a checker and an introspector. Because the model is functional,
    "each call makes a fresh instance" reads as "each instance starts empty". */
module Permissions {
  import opened Wrappers
  import opened Engine
  import Naming
  import Builder
  import Checker
  import Introspector

  datatype Factories = Factories(
    mutate: Builder.PermissionBuilder,
    validate: Checker.PermissionChecker,
    introspect: Introspector.PermissionsIntrospector)

  /** The three instances start empty and share `client`. */
  predicate FreshOver(f: Factories, client: Option<Client>) {
    && f.mutate.IsClear() && f.mutate.client == client
    && f.validate.checks == [] && f.validate.client == client
    && f.introspect.client == client
  }

  /** `WithClient(client, disableTransactions = false)`. */
  function WithClient(client: Option<Client>, disableTransactions: bool := false): (f: Factories)
    ensures FreshOver(f, client)
    ensures f.mutate.disableTransactions == disableTransactions
  {
    Factories(
      Builder.NewBuilder(client, disableTransactions),
      Checker.NewChecker(client),
      Introspector.PermissionsIntrospector(client))
  }

  /** `WithClientNoTx(client)`: always non-transactional writes. */
  function WithClientNoTx(client: Option<Client>): (f: Factories)
    ensures FreshOver(f, client)
    ensures f.mutate.disableTransactions
  {
    Factories(
      Builder.NewBuilder(client, true),
      Checker.NewChecker(client),
      Introspector.PermissionsIntrospector(client))
  }

  /** The default of `WithClient` is a transactional write, and `WithClientNoTx`
      is `WithClient` with transactions disabled. */
  lemma FactoryTransactionFlags(client: Option<Client>)
    ensures WithClient(client).mutate.disableTransactions == false
    ensures WithClientNoTx(client) == WithClient(client, true)
  {
  }

  /** The write request a factory's builder eventually sends carries the
      factory's transaction flag, however the builder was used before saving. */
  lemma SaveUsesFactoryFlag(client: Client, disableTransactions: bool, b: Builder.PermissionBuilder)
    requires Builder.SameConfig(b, WithClient(Some(client), disableTransactions).mutate)
    requires Builder.WriteRequestFor(b).Success?
    ensures Builder.WriteRequestFor(b).value.disableTransactions == disableTransactions
  {
  }

  /** A successful save leaves the builder exactly as the factory made it, so
      the same builder can start a new unit of work. */
  lemma SaveRestoresFactoryState(
    client: Option<Client>, disableTransactions: bool,
    b: Builder.PermissionBuilder, write: WriteRequest -> Reply<WriteResponse>)
    requires Builder.SameConfig(b, WithClient(client, disableTransactions).mutate)
    requires Builder.SaveChanges(b, write).result.Success?
    ensures Builder.SaveChanges(b, write).builder == WithClient(client, disableTransactions).mutate
  {
  }

  /** A continuation on a freshly made builder always fails. */
  lemma ContinuationNeedsPriorAdd(
    client: Option<Client>, tUser: Naming.EntityType, tRes: Naming.EntityType, relation: string, objectId: string)
    requires tUser.isAccessor && tRes.isResource
    ensures Builder.AddAlso(WithClient(client).mutate, tUser, tRes, relation, objectId)
         == Failure(InvalidOperation(Builder.NoPreviousUser))
  {
  }

  /** Saving a freshly made builder is rejected before the engine is reached. */
  lemma EmptySaveRejected(client: Client, write: WriteRequest -> Reply<WriteResponse>)
    ensures Builder.SaveChanges(WithClient(Some(client)).mutate, write).result
         == Failure(InvalidOperation(Builder.NoChanges))
  {
  }
}
