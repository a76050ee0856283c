# Typed relationship-tuple DSL for OpenFGA, modelled in Dafny

This project models the typed tuple DSL of `dn-openfga`. The DSL turns fluent, generically typed C# calls into OpenFGA relationship-tuple requests. It also interprets the engine's answers. Five parts are modelled:

- **Entity naming** (`Naming`). `Permissions.MakeEntityName<T>(id)` qualifies an id as `type:id`, where the type is the snake_case form of the C# type name. Without an id it gives the bare type token. The checker uses a different qualifier: it only lower-cases the type name. The model keeps the two apart and proves where they agree and where they differ. A split at the first colon is defined as the inverse, and both qualifiers are proved to round-trip through it.
- **Relation selectors** (`Expressions`). This part covers `ExpressionExtension.ResolveName` over the expression-node shapes it distinguishes: member access, unary conversion, lambda, parameter, and any other node.
- **Mutation builder** (`Builder`). `PermissionBuilder` is a pure state machine. Its state is the pending grants, the pending revokes and the remembered last accessor id. The model covers `Add`, `AddAlso`, `AddMany`, `Revoke`, `RevokeMany`, `Assign` and `AssignAlso`, including their selector overloads. It also covers `SaveChangesAsync`: the choice among four request shapes, the local errors, the transaction flag, and clearing the state only after the engine has replied.
- **Check builder** (`Checker`). `PermissionChecker` offers `Can`/`Has` and the single/all/any combinators.
- **Introspector** (`Introspector`) and the **factories** `WithClient`/`WithClientNoTx` (`Permissions`).

The engine is never modelled. Each call into it (`Write`, `Check`, `BatchCheck`, `ListObjects`) is a function parameter from request to `Reply`, where a reply either carries a response or is a fault. So every property holds whatever the engine answers. A few lemmas also assume a *faithful* engine: one that answers each request in order from a truth relation, or that writes what it is sent. Those lemmas state what the combinators and the save *mean*.

A C# type argument becomes an `EntityType`: the runtime type name plus the tags for the marker interfaces it implements. The generic constraints (`where TUser : IAccessor`, …) become `requires` clauses on those tags. Signatures follow the declarations, for example `Add<TUser, TRes>(userId, relation, objectId)` and `Can<TRes, TUser>(objectId, relation, userId)`.

## Model

| member | source | states |
|---|---|---|
| `Naming.Lower` | tests/Models/PermissionsChecker.cs:24-25 | `ToLower` keeps the length, maps each character to its lower-case form, and leaves no capital |
| `Naming.LowerIdempotent` | tests/Models/PermissionsChecker.cs:24-25 | lower-casing an already lower-cased type name changes nothing |
| `Naming.Underscore` | tests/Models/Permissions.cs:51 | the snake_case type token has no capitals and never grows shorter; an identifier stays an identifier, so the token contains no colon |
| `Naming.UnderscoreOnlyInsertsSeparators` | tests/Models/Permissions.cs:51 | with underscores removed, snake_case and plain lower-casing give the same string: snake_case only adds word separators |
| `Naming.SingleWordQualifiersAgree` | tests/Models/PermissionsChecker.cs:24-25 | for one-word type names such as `Form` or `User`, the checker's qualifier and the builder's qualifier produce the same type token |
| `Naming.CompoundNamesDiffer` | tests/Models/Permissions.cs:51 | for any type name with a word boundary and no underscore of its own, such as `CrmCompany`, the builder's token contains a separator and the checker's does not, so the two qualifiers name different types |
| `Naming.MakeEntityName` | tests/Models/Permissions.cs:49-53 | the name starts with the snake_case type token; with an id, the token is followed by `:` and the id verbatim; without one, it is the bare token; for a valid type name it has a colon exactly when an id is given |
| `Naming.EntityNameRoundTrip` | tests/Models/Permissions.cs:49-53 | splitting an entity name at its first colon gives back the type token and the (optional) id, so no information is lost |
| `Naming.EntityNameInjective` | tests/Models/Permissions.cs:49-53 | two equal entity names come from the same id and the same type token |
| `Naming.CheckerEntityName` | tests/Models/PermissionsChecker.cs:24-27 | the checker's name is the lower-cased type name, then `:`, then the id verbatim |
| `Naming.CheckerEntityNameRoundTrip` | tests/Models/PermissionsChecker.cs:24-27 | a checker entity name splits back into the lower-cased type and the id |
| `Expressions.ResolveName` | tests/Models/ExpressionExtension.cs:13-28 | a member access gives its member name verbatim, and so does a member access under one conversion; every other node gives `""`, including a lambda and a conversion of a non-member; it never fails |
| `Expressions.NestedSelectorUsesLastMember` | tests/Models/ExpressionExtension.cs:15-18 | for a chained access the name resolved is the outermost member's (`ResolveName` of the body is the element name); the receiver it is read from plays no part |
| `Expressions.ResolveNameOfSelectorIsEmpty` | tests/Models/PermissionsBuilder.cs:73 | applied to a selector lambda itself, `ResolveName` yields the empty relation, while the corrected resolution of a named field is non-empty |
| `Expressions.ResolveNameKeepsMemberCase` | tests/Models/ExpressionExtension.cs:15-18 | on a selector body reading a capitalised member (`r.Editor`), the resolved name is that member verbatim, and it is never the relation name, which has no capitals |
| `Expressions.SelectorRelation` | tests/Models/ExpressionExtension.cs:13-28 | the intended resolution: the snake_case name of the lambda body's member, which never contains a capital |
| `Expressions.SelectorRelationOfField` | tests/Models/ExpressionExtension.cs:15-25 | a field selector resolves to the field's snake_case name, whether or not it is wrapped in a conversion |
| `Engine.KeysOrEmpty` | tests/Models/PermissionsBuilder.cs:280-283 | a null list in the write response reads as empty; otherwise the result holds the tuple keys of the entries, in order |
| `Builder.NewBuilder` | tests/Models/PermissionsBuilder.cs:11-20 | a new builder has nothing pending and no remembered accessor, and keeps its client and transaction flag |
| `Builder.Add` | tests/Models/PermissionsBuilder.cs:35-52 | appends exactly one grant (qualified object, relation, qualified user, condition) at the end; remembers the id; leaves the revokes and the configuration unchanged |
| `Builder.AddBySelector` | tests/Models/PermissionsBuilder.cs:65-73 | equals the string `Add` on the selector's resolved relation (corrected resolution): one grant with the qualified object and user and the condition is appended, the id is remembered, and revokes and configuration are unchanged |
| `Builder.AddBySelectorAsWritten` | tests/Models/PermissionsBuilder.cs:65-73 | as written, a selector lambda makes the overload exactly the string `Add` with relation `""`: the same object, user, condition, remembered id and revokes |
| `Builder.AddAlso` | tests/Models/PermissionsBuilder.cs:84-98 | fails with the invalid-operation error exactly when no id is remembered; otherwise appends a grant for the remembered id, qualified with this call's accessor type, and keeps that id |
| `Builder.AddAlsoBySelector` | tests/Models/PermissionsBuilder.cs:109-128 | the same failure rule as `AddAlso`; otherwise it appends a grant for the remembered id with the selector's relation, keeping revokes and configuration; it equals the string `AddAlso` on the resolved relation |
| `Builder.AddAlsoBySelectorAsWritten` | tests/Models/PermissionsBuilder.cs:109-128 | as written, a selector lambda makes the overload exactly the string `AddAlso` with relation `""`, failing on the same builders |
| `Builder.AddMany` | tests/Models/PermissionsBuilder.cs:139-153 | appends one unconditional grant per id, in id order, all on the same object and relation; the last id is remembered, and nothing changes for no ids |
| `Builder.AddManyConcat` | tests/Models/PermissionsBuilder.cs:147-150 | `AddMany` over `ids1 + ids2` is `AddMany` over `ids1` followed by `AddMany` over `ids2` |
| `Builder.AddManyDistinctAccessors` | tests/Models/PermissionsBuilder.cs:139-153 | distinct ids give grants with pairwise distinct users that share object and relation |
| `Builder.AddManyBySelector` | tests/Models/PermissionsBuilder.cs:164-171 | every grant this overload appends has the string relation and no condition |
| `Builder.AddManyIgnoresSelector` | tests/Models/PermissionsBuilder.cs:164-171 | the selector argument makes no difference: the overload equals the string `AddMany` |
| `Builder.Revoke` | tests/Models/PermissionsBuilder.cs:183-192 | appends exactly one pending delete; never touches the grants or the remembered id |
| `Builder.RevokeMany` | tests/Models/PermissionsBuilder.cs:204-218 | appends one pending delete per id, in id order; grants and remembered id are unchanged |
| `Builder.AddRevokeCommute` | tests/Models/PermissionsBuilder.cs:183-191 | an `Add` and a `Revoke` give the same builder in either order |
| `Builder.AddAlsoContinuesAdd` | tests/Models/PermissionsBuilder.cs:92-97 | right after `Add`, `AddAlso` succeeds and equals an `Add` for the same id |
| `Builder.Assign` | tests/Models/PermissionBuilder.Assign.cs:18-33 | appends one grant (qualified target, relation, qualified user, condition) and remembers the id; revokes are never modified |
| `Builder.AssignIsAdd` | tests/Models/PermissionBuilder.Assign.cs:27-32 | when a type is both accessor and resource, `Assign` and `Add` queue the same grant |
| `Builder.AssignBySelector` | tests/Models/PermissionBuilder.Assign.cs:44-57 | equals the string `Assign` on the selector's resolved relation: one grant appended, id remembered, revokes and configuration unchanged |
| `Builder.AssignBySelectorAsWritten` | tests/Models/PermissionBuilder.Assign.cs:44-57 | as written, a selector lambda makes the overload exactly the string `Assign` with relation `""` |
| `Builder.AssignAlso` | tests/Models/PermissionBuilder.Assign.cs:68-83 | fails exactly when no id is remembered, with no change; otherwise it equals `Assign` with the same arguments, using the id passed in and not the remembered one, and keeping revokes and configuration |
| `Builder.AssignAlsoBySelector` | tests/Models/PermissionBuilder.Assign.cs:94-114 | the same failure rule; otherwise it equals the selector overload of `Assign` with the same arguments, keeping revokes and configuration |
| `Builder.AssignAlsoBySelectorAsWritten` | tests/Models/PermissionBuilder.Assign.cs:94-114 | as written, a selector lambda makes the overload exactly the string `AssignAlso` with relation `""`, failing on the same builders |
| `Builder.WriteKeys` | tests/Models/PermissionsBuilder.cs:236-244 | one write tuple per pending grant, in accumulation order, with the condition carried through |
| `Builder.DeleteKeys` | tests/Models/PermissionsBuilder.cs:246-253 | one delete tuple per pending revoke, in accumulation order |
| `Builder.WriteRequestFor` | tests/Models/PermissionsBuilder.cs:229-261 | no client gives the security error before anything else; with a client, failure happens exactly when both lists are empty ("No changes to save."); writes are present iff grants are pending, deletes iff revokes are; both keep order; the transaction flag is the builder's |
| `Builder.SaveChanges` | tests/Models/PermissionsBuilder.cs:225-284 | local errors arise before the engine is reached; an engine fault is passed on unchanged; once the engine replies, the save succeeds, returns the response's keys (null lists read as empty) and clears the builder, keeping its configuration; the builder is unchanged exactly when the save fails |
| `Builder.RetryResendsSameRequest` | tests/Models/PermissionsBuilder.cs:265-278 | after a failed save the builder would send exactly the same request again |
| `Builder.SaveReportsPendingInOrder` | tests/Models/PermissionsBuilder.cs:236-283 | against an engine that writes what it is sent, the save reports exactly the pending grants and revokes, in order; with only revokes pending, `added` is empty |
| `Builder.FiveGrantsScenario` | tests/FluentPermissionsTest.cs:20-28 | two `Add`s and an `AddMany` of three ids give one write of five tuples and no deletes |
| `Checker.NewChecker` | tests/Models/PermissionsChecker.cs:8-10 | a new checker holds no checks |
| `Checker.Can` | tests/Models/PermissionsChecker.cs:20-30 | appends exactly one check at the end: lower-cased resource type, `:`, object id; the relation; lower-cased user type, `:`, user id |
| `Checker.Has` | tests/Models/PermissionsChecker.cs:40-42 | equals `Can` with the same arguments: the same single check appended, the client kept |
| `Checker.HasIsCan` | tests/Models/PermissionsChecker.cs:40-42 | `Has` and `Can` give the same checker |
| `Checker.BatchRequest` | tests/Models/PermissionsChecker.cs:81-91 | the batch holds one request per accumulated check, in accumulation order |
| `Checker.ValidateSingle` | tests/Models/PermissionsChecker.cs:49-69 | with no checks the result is false and the engine is not called; otherwise only the first check is sent; a null `Allowed` reads as false; a fault is passed on |
| `Checker.ValidateSingleIgnoresLaterChecks` | tests/Models/PermissionsChecker.cs:56 | checks added after the first never change the single result |
| `Checker.Details` | tests/Models/PermissionsChecker.cs:98 | the intended details tuple puts user, relation and object each in its own field |
| `Checker.DetailsAsWritten` | tests/Models/PermissionsChecker.cs:98 | as written, the details tuple has the request's relation as its user and its user as its relation |
| `Checker.Validate` | tests/Models/PermissionsChecker.cs:77-101 | one batch for all checks; one (allowed, details) pair per response, in response order; a fault is passed on |
| `Checker.ValidateAsWritten` | tests/Models/PermissionsChecker.cs:77-101 | as written, faults are passed on, and a reply gives one result per response; the `allowed` flags, objects and conditions are those of `Validate`, but every result's details swap user and relation |
| `Checker.AllAllowed` | tests/Models/PermissionsChecker.cs:112 | `All(r => r.Allowed)` holds exactly when every result is allowed |
| `Checker.AnyAllowed` | tests/Models/PermissionsChecker.cs:125 | `Any(r => r.Allowed)` holds exactly when some result is allowed |
| `Checker.ValidateAll` | tests/Models/PermissionsChecker.cs:109-114 | succeeds iff the batch call replies; is then the conjunction over all responses, so true for none; an engine fault comes back unchanged as `EngineFault` |
| `Checker.CombinatorsIgnoreSwappedDetails` | tests/Models/PermissionsChecker.cs:109-127 | `ValidateAll` and `ValidateAny` give the same outcome whether built on the corrected or the as-written batch validation, so the swapped details never change their boolean results |
| `Checker.ValidateAny` | tests/Models/PermissionsChecker.cs:122-127 | succeeds iff the batch call replies; is then the disjunction over all responses, so false for none; an engine fault comes back unchanged as `EngineFault` |
| `Checker.ValidateAllMeansEveryCheck` | tests/Models/PermissionsChecker.cs:109-114 | against a faithful engine, `ValidateAll` is true exactly when every accumulated check holds |
| `Checker.ValidateAnyMeansSomeCheck` | tests/Models/PermissionsChecker.cs:122-127 | against a faithful engine, `ValidateAny` is true exactly when some accumulated check holds |
| `Checker.ValidatePreservesCheckOrder` | tests/Models/PermissionsChecker.cs:81-100 | against a faithful engine, result i is about check i, with its truth value and its own user, relation and object |
| `Checker.ValidateAsWrittenSwapsDetails` | tests/Models/PermissionsChecker.cs:95-100 | as written, against a faithful engine, result i's details carry check i's relation as the user and its user as the relation |
| `Checker.SwappedDetailsExample` | tests/Models/PermissionsChecker.cs:98 | for the check `form:1#editor@user:alice` the written details name `editor` as the user; the corrected details name `user:alice` |
| `Checker.SingleCheckCombinatorsAgree` | tests/Models/PermissionsChecker.cs:49-127 | with one check and a faithful engine, single, all and any give the same answer |
| `Checker.EmptyCheckerCombinators` | tests/Models/PermissionsChecker.cs:49-127 | with no checks and a faithful engine: single is false, all is true, any is false |
| `Checker.ValidateAllImpliesAny` | tests/Models/PermissionsChecker.cs:109-127 | when at least one response comes back, all-allowed implies some-allowed |
| `Introspector.ListObjectsRequestFor` | tests/Models/PermissionsIntrospector.cs:25-33 | the request's user is the qualified `type:id` accessor; its relation is passed through; its type is the bare snake_case token, with no colon |
| `Introspector.ListObjectsForUser` | tests/Models/PermissionsIntrospector.cs:17-38 | the result is exactly the engine's `Objects`, with no filtering or reordering; a fault is passed on |
| `Introspector.ListObjectsRequestMatchesEntityNames` | tests/Models/PermissionsIntrospector.cs:25-32 | the request's type token is the type part of every entity name the builder writes for that resource type; the request's user splits back into the accessor's token and id |
| `Permissions.WithClient` | tests/Models/Permissions.cs:13-24 | the builder, checker and introspector share the client and start empty; the builder's transaction flag is the argument, false by default |
| `Permissions.WithClientNoTx` | tests/Models/Permissions.cs:30-41 | the same, but the builder always has transactions disabled |
| `Permissions.FactoryTransactionFlags` | tests/Models/Permissions.cs:13-41 | `WithClient`'s default is transactional, and `WithClientNoTx` equals `WithClient` with transactions disabled |
| `Permissions.SaveUsesFactoryFlag` | tests/Models/PermissionsBuilder.cs:271 | whatever was accumulated, the write request carries the factory's transaction flag |
| `Permissions.SaveRestoresFactoryState` | tests/Models/PermissionsBuilder.cs:276-278 | after a successful save the builder equals a freshly made one |
| `Permissions.ContinuationNeedsPriorAdd` | tests/Models/PermissionsBuilder.cs:92-95 | `AddAlso` on a fresh builder fails with "No previous user to add relation for." |
| `Permissions.EmptySaveRejected` | tests/Models/PermissionsBuilder.cs:255-257 | saving a fresh builder fails with "No changes to save.", whatever the engine would answer |

## Findings

| source | as written | input that shows it | evidently intended | confidence | as-written member | corrected member |
|---|---|---|---|---|---|---|
| tests/Models/PermissionsBuilder.cs:73 | the selector overload of `Add` calls `ResolveName` on the `Expression<Func<TRes, object>>` itself. That is a lambda node, neither a member access nor a unary node, so it resolves to `""` | `Add<User, Form>("alice", r => r.Editor, "1")` queues a grant with relation `""` | resolve the lambda's body | high; not executed | `Builder.AddBySelectorAsWritten` | `Builder.AddBySelector` |
| tests/Models/PermissionsBuilder.cs:124 | the selector overload of `AddAlso` resolves the lambda itself in the same way | `AddAlso<User, Form>(r => r.Editor, "2")` after an `Add` queues relation `""` | resolve the lambda's body | high; not executed | `Builder.AddAlsoBySelectorAsWritten` | `Builder.AddAlsoBySelector` |
| tests/Models/PermissionBuilder.Assign.cs:54 | the selector overload of `Assign` resolves the lambda itself in the same way | `Assign<Group, Group>("g1", r => r.Member, "g2")` queues relation `""` | resolve the lambda's body | high; not executed | `Builder.AssignBySelectorAsWritten` | `Builder.AssignBySelector` |
| tests/Models/PermissionBuilder.Assign.cs:110 | the selector overload of `AssignAlso` resolves the lambda itself in the same way | `AssignAlso<Group, Group>("g3", r => r.Member, "g2")` after an `Assign` queues relation `""` | resolve the lambda's body | high; not executed | `Builder.AssignAlsoBySelectorAsWritten` | `Builder.AssignAlsoBySelector` |
| tests/Models/ExpressionExtension.cs:15-18 | the member name is returned verbatim, so the relation would be `Editor` | the body `r.Editor` of a selector for the relation `editor` resolves to `Editor` | the schema's snake_case relation name (`editor`, `free_trial`) | medium; not executed | `Expressions.ResolveNameKeepsMemberCase` | `Expressions.SelectorRelationOfField` |
| tests/Models/PermissionsChecker.cs:98 | `new TupleKey(r.Request.Relation, r.Request.User, r.Request.Object)` fills the SDK constructor's (user, relation, object) parameters by position | the check `form:1#editor@user:alice` comes back with details user `editor` and relation `user:alice` | user and relation in their own fields | medium (the `TupleKey` constructor is defined in the OpenFGA .NET SDK, not in this repository); not executed | `Checker.ValidateAsWrittenSwapsDetails` | `Checker.ValidatePreservesCheckOrder` |

The builder's selector overloads (`AddBySelector`, `AddAlsoBySelector`, `AssignBySelector`, `AssignAlsoBySelector`) use the corrected `Expressions.SelectorRelation`. `Checker.ValidateAll` and `Checker.ValidateAny` build on the corrected `Checker.Validate`. The swapped details do not change their boolean results (`Checker.CombinatorsIgnoreSwappedDetails`).

## Behaviour of the code worth knowing

- `PermissionChecker` never clears `_checks`, so validating again resends the same checks.
- `SaveChangesAsync` returns every tuple key the engine lists in its write response, whatever the per-tuple status.

## Left out

- The engine (`Write`, `Check`, `BatchCheck`, `ListObjects`), async/await and cancellation tokens are function parameters. A cancelled call is a `Reply` that threw. Nothing about the engine's own behaviour is verified.
- `Naming.Underscore`: this is Humanizer's `Underscore()` restricted to ASCII letter/digit/underscore identifiers, which is what C# type names are here. Hyphen and space replacement and Unicode letter classes are not modelled, because Humanizer is a foreign library and type names never contain them.
- `Naming.Lower`: only ASCII capitals are lower-cased. The culture-sensitive Unicode `ToLower` is not modelled, for the same reason as above.
- Condition selectors and `Conditions`/`RelationshipCondition` are modelled as an opaque `Condition` value, already applied, that is carried to the write. The class is not part of this model, and its timestamp/duration serialisation is outside the DSL.
- The checker and introspector do not check for a null client. With a null client, the `NullReferenceException` is raised at the call on `client` itself (tests/Models/PermissionsChecker.cs:58 and :93, tests/Models/PermissionsIntrospector.cs:35), before any SDK code runs. This crash is not modelled: `ValidateSingle`, `Validate*` and `ListObjectsForUser` ignore the client and behave as if one were present.
- `ClientWriteRequest.ToJson()` (an unused local) and the write response's per-tuple status are not interpreted beyond being carried along.
- The schema-to-type generator, `targets/Program.cs`, the test fixture's lock-guarded client initialisation, and the wrappers in `Resources.cs`, `Users.cs` and `Groups.cs` are not part of this model. They are I/O, concurrency, or thin chaining over the modelled calls.
- `Expressions.SelectorRelation`: the corrected resolution recovers the relation for direct-field selectors only. For a grouped value-tuple element such as `r => r.Perform.Edit`, the runtime member name is the tuple field `Item2`. `ResolveName` returns that name, and the correction gives `item2`, not `edit`. Mapping tuple fields back to their declared aliases needs type information that expression nodes do not carry here.
- The generated entity records (`PermissionScopes.g.cs`) are represented only through `EntityType` names and tags, and through the selector shapes in `Expressions`.
