# Ducks: a verified model

This project models the concurrent and relational core of reconcilerio/ducks, a library that lets Kubernetes
controllers treat many resource kinds as one "duck type", and proves what that core keeps over every run.

- **Broker** (`BrokerModel`, `BrokerReduction`, `BrokerDelivery`, `BrokerIsolation`, `BrokerLoop`). The publish/subscribe loop as a
  labelled transition system: one action per step a goroutine can take by itself, actions carry the data they
  move, a run is a sequence of actions. `BrokerLoop` holds the loop's own code, tied to those steps.
- **Registry** (`Registry`). Which duck kinds the broker listens to, under every pattern of library failures.
- **Sub-managers** (`SubManager`, `FinalizerProtocol`). The lifecycle of the goroutines keyed by UID, and its
  composition with the finalizer wrapper, the API server and a stale cache.
- **Ducks and roles** (`GroupResources`, `Availability`, `RoleNames`, `Roles`, `Webhook`). When a duck is available,
  which roles are derived from it, and what the cluster aggregates.
- **Client** (`Client`, `Permissions`). The fan-out query layer, its laws over any store, and that the derived roles
  cover what it reads.
- **Cache** (`SplitCache`). Two caches that stand for one.

State machines are written as `Step`/`Exec` functions returning `None` for a step that is not enabled; code that
updates fields or runs loops is a class or method whose `ensures` equates the new state with those functions.

## Assumptions about libraries

- Go channels: a send completes when there is room, `select` picks any ready case, `range` over a map visits every
  element once in any order.
- `schema.ParseGroupResource` splits at the first dot; `GroupResource.String` prints `resource.group`, or only
  `resource` for the empty group; `GroupKind.Empty` means both fields are empty.
- Ready is True exactly when RBAC and Available are. Where a lemma asks for truthful conditions, RBAC being True means
  that both roles of that duck exist, and Available being True that discovery still serves it; nothing is asked of a
  duck whose condition is not True.
- Nobody but the two reconcilers puts the `ducks.reconciler.io/type` label on a ClusterRole, and duck types, which are
  named uniquely, passed the webhook (`Roles.Labelled`). Roles may be missing, late or lost to a name collision.
- `WithFinalizer` adds the finalizer before running its child on a live object and removes it after the child
  succeeded on a deleting one; the adding patch lands only on the same, non-deleting object. Reconciles are serialised.
- A manager's `Start` returns once its context is cancelled. This is only used to say that a blocked shutdown ends.
- A failed `GetInformer`, `AddEventHandler`, `RemoveEventHandler` or `DeleteAllOf` call has no effect.
- A cache answers a request from the slot of the object kind alone, and reads a list kind as the kind without its
  trailing `List`. The REST mapper resolves a kind only to a top-level resource (no `/` in its name) that discovery
  serves as that kind.
- Object names contain no `/`, as the API server enforces. Where a lemma asks for discovery to be one-to-one, it speaks
  of top-level resources only, so subresources such as `foos/status` may repeat a kind.

## What the code does not do

Each of these is stated exactly, with the condition that decides it.

- An unsubscribe can be taken before its own subscribe, and then the cancelled channel stays subscribed for good. This
  happens exactly when the channel is the one element of `subCh` at that moment
  (`BrokerDelivery.UnsubscribeDecidesForGood`, `BrokerDelivery.UnsubscribeCanOvertakeSubscribe`).
- The registry follows neither spec edits nor a loss of readiness (`Registry.RegistryIsItsHistory`,
  `Registry.EditsAndLostReadinessAreIgnored`).
- The comment "already running" in `reconcilers/submanager.go:141` is not what the entry means: a sub-manager that
  exited by itself keeps its entry and is not restarted. An entry's sub-manager runs exactly as long as its manager's
  `Start` has not returned (`FinalizerProtocol.EntryRunsUntilItReturns`,
  `FinalizerProtocol.ExitedSubManagerIsNotRestarted`, `FinalizerProtocol.ReconcileLeavesExitedSubManager`).
- A `LocalTypes` error is reported as success; it is the only way a successful reconcile leaves a live resource
  without a sub-manager (`SubManager.CallOutcome`).
- A core-group duck never becomes available (`Availability.CoreGroupIsNeverAvailable`).
- A sub-manager's DuckType lacks the finalizer, and may be gone, exactly while somebody else's removal of the finalizer
  has not been made good (`FinalizerProtocol.NoSubManagerOutlivesItsDuckType`,
  `FinalizerProtocol.StrippedFinalizerLeaksSubManager`).
- A Get on a duck's list kind resolves to the duck but reads the list kind, which the roles cover exactly when some duck
  of the type names the resource it maps to (`Permissions.GetIsPermittedExactly`,
  `Permissions.GetThroughListKindIsNotGranted`).
- Before any duck is read, a request reads the DuckType (`client/client.go:69`) and lists its ducks
  (`client/client.go:93`). The derived roles cover these two exactly when some duck of the type names `ducktypes` or the
  type's own resource (`Permissions.LookupIsPermittedExactly`, `Permissions.LookupIsNotGranted`).
- The client's `DeleteAllOf` is never covered by the derived roles (`Roles.NoRoleAllowsDeleting`).
- Role names collide when a hyphen can serve as the boundary between type and duck
  (`RoleNames.DuckRoleNamesCoincide`, `RoleNames.TypeAndDuckRoleNamesCoincide`). Valid types meet it, and ducks that
  collide are never ready together (`Roles.RoleNamesCollide`, `Permissions.CollidingDucksAreNotBothReady`).
- The split cache routes a kind and its listing alike exactly when the duck type keeps the default list kind, that list
  kind is not an object kind itself, and the duck type's kind is not another object kind of the group with `List`
  appended (`SplitCache.SensibleIsCoherent`, `SplitCache.ListKindThatIsAKindIsIncoherent`,
  `SplitCache.KindEndingInListIsIncoherent`).

## Model

| member | source | states |
|---|---|---|
| BrokerModel.StepKeepsInv | client/broker.go:189-225 | every step of any goroutine keeps the capacities, one phase per buffered channel, subs only from taken subscribes, and the taken publications a prefix of the completed ones |
| BrokerModel.RunKeepsInv | client/broker.go:189-225 | the invariant holds after every run |
| BrokerReduction.SparedInboxIsFramed | client/broker.go:199-206 | steps of other goroutines commute with any change to a channel they do not receive from |
| BrokerReduction.Reduce | client/broker.go:199-206 | every interleaved run, also in the middle of a fan-out, is matched by a run whose fan-outs are single steps |
| BrokerReduction.AnyOrderIsWhole | client/broker.go:199-206 | taking a publication and ranging over the subscribers in any order equals the one atomic step |
| BrokerReduction.FanOutIsAtomic | client/broker.go:199-206 | outside a fan-out the interleaved and the atomic broker reach exactly the same states, received histories included |
| BrokerReduction.UnfinishedFanOutSettles | client/broker.go:199-206 | inside a fan-out, finishing it now is reachable atomically |
| BrokerDelivery.SubsAreTheSubscribed | client/broker.go:195-198 | a channel is in subs if and only if the last thing the loop took about it was its subscribe |
| BrokerDelivery.MembershipAfterUnsubscribe | client/broker.go:195-198 | after its unsubscribe was taken, a channel is subscribed if and only if its subscribe is taken later, and nothing removes it then |
| BrokerDelivery.UnsubscribeDecidesForGood | client/broker.go:195-225 | at the moment an unsubscribe is taken, the channel is absent from subs exactly when it is the single element of subCh, and that decides membership in every continuation |
| BrokerDelivery.UnsubscribeCanOvertakeSubscribe | client/broker.go:195-225 | the overtaking run exists |
| BrokerDelivery.ClientIsItsHistory | client/broker.go:215-225 | in every run a subscriber's record says exactly which of its actions were taken |
| BrokerDelivery.SubscribedUntilCancelled | client/broker.go:215-225 | a subscriber whose context is not done is never dropped, and an unsubscribe is sent only after its subscribe and the end of its context |
| BrokerDelivery.SubscriberCanCatchUp | client/broker.go:218-225 | whatever the loop does, a subscriber can take all its channel accepted, in order |
| BrokerDelivery.EveryAddressedEventIsAttempted | client/broker.go:199-206 | the send attempts at a channel are, in order, exactly the publications taken while it was subscribed, less the one in flight |
| BrokerDelivery.StreamIsAccepted | client/broker.go:199-206 | received plus buffered is what a five-slot queue accepts of the channel's own attempts and takes |
| BrokerDelivery.ExactDelivery | client/broker.go:189-225 | in every run: at most five buffered, the stream is the accepted attempts, the attempts are the addressed publications, the stream an in-order subsequence of these and of the completed Publish calls |
| BrokerDelivery.MissingExactlyWhenFull | client/broker.go:202-205 | over a whole run the stream holds the events of exactly those attempts made while the buffer had room; an attempt is missing if and only if the buffer held five at that moment |
| BrokerDelivery.VisitsDecideInbox | client/broker.go:199-206 | what a channel holds is decided by its own attempts and takes |
| BrokerIsolation.OthersCannotDisturb | client/broker.go:189-225 | erasing any channels with all their actions from any run leaves an enabled run that ends in the same state without them |
| BrokerIsolation.FanOutNeverBlocks | client/broker.go:200-206 | inside a fan-out the remaining sends are enabled in every order whatever the buffers hold, and finish it |
| BrokerDelivery.CallersBlockAfterStop | client/broker.go:193-225 | after the loop stops, subscribers and taken events are frozen, every completed send stays in its channel, and so at most one more Publish, Subscribe and unsubscribe each complete |
| BrokerLoop.Broker.Publish | client/broker.go:211-213 | the call is the publish step |
| BrokerLoop.Broker.Subscribe | client/broker.go:215-225 | the call is the open and the subscribe step |
| BrokerLoop.Broker.Unsubscribe | client/broker.go:220-223 | the goroutine's send is the unsubscribe step |
| BrokerLoop.Broker.FanOut | client/broker.go:200-206 | the loop, in any order, offers the message once to every subscriber and touches no other channel |
| BrokerLoop.Broker.Select | client/broker.go:192-207 | one turn of the loop is the step of the case that fired and keeps the invariant |
| BrokerLoop.Broker.Start | client/broker.go:189-209 | from a new broker, any schedule of loop turns and steps of other goroutines ends where taking every enabled turn leads, within the states the interleaved broker reaches, and a done context ends the loop if and only if it is scheduled |
| BrokerLoop.Broker.Play | client/broker.go:191-207 | one turn of a schedule is taken if enabled, passed over if not, and does nothing once the loop has ended |
| BrokerLoop.TurnTakesTheHead | client/broker.go:192-207 | each case takes the head of its channel whenever there is one: adds or removes that subscriber, or offers the event to every subscriber with fewer than five waiting, and touches nothing else |
| BrokerLoop.LoopKeepsUp | client/broker.go:191-207 | once every case has had a turn, in any order, the three channels are empty and every completed Publish is taken |
| BrokerLoop.PlayedIsReachable | client/broker.go:189-209 | every schedule leads to a state both the interleaved and the atomic broker reach |
| Registry.RegistryAgreesWithReality | client/broker.go:70-151 | after every event sequence and failure pattern both maps have the same keys and the live handlers are exactly the recorded ones, one per name |
| Registry.RegistryIsItsHistory | client/broker.go:80-150 | a name is registered if and only if a ready event registered it successfully and no removal succeeded since, and its informer has the group, version and kind of that first event |
| Registry.EditsAndLostReadinessAreIgnored | client/broker.go:80-87 | after a registration, an update with another kind or without readiness leaves the first informer, of the group, version and kind first seen |
| Registry.Informing.InformOn | client/broker.go:74-115 | the add and update handler is the registry step |
| Registry.Informing.Forget | client/broker.go:134-151 | the delete handler is the registry step |
| Registry.Informing.RemoveAll | client/broker.go:169-173 | the removal loop in any order succeeds exactly when no registered name fails, and removes exactly the handlers it reports |
| Registry.Informing.Shutdown | client/broker.go:160-175 | a shutdown without failures leaves nothing live, a failing one exactly the handlers not removed |
| SubManager.GoroutinesAreConserved | reconcilers/submanager.go:129-196 | over any calls, failing starts and spontaneous exits, goroutines spawned equal entries plus removing shutdowns, and no UID has two unreported ones |
| SubManager.CallOutcome | reconcilers/submanager.go:129-196 | failed starts leave no trace, when a call errs, and that success leaves a live resource without an entry exactly when LocalTypes failed, exactly when a goroutine is spawned, and that a shutdown cancels and collects its own goroutine and changes no other |
| SubManager.CancelledAreCollected | reconcilers/submanager.go:184-196 | over any calls a goroutine is cancelled if and only if it was collected, and then its own resource was seen deleting |
| SubManager.SubManagerReconciler.Reconcile | reconcilers/submanager.go:129-146 | the method computes the specified lifecycle and result |
| SubManager.SubManagerReconciler.Start | reconcilers/submanager.go:148-182 | one goroutine and one entry exactly when every call succeeds |
| SubManager.SubManagerReconciler.Shutdown | reconcilers/submanager.go:184-196 | cancels, collects the report and deletes the entry, or does nothing |
| FinalizerProtocol.StepKeepsInv | reconcilers/submanager.go:129-196 | every step of server, cache, goroutines and reconciler keeps the protocol invariant |
| FinalizerProtocol.NoSubManagerOutlivesItsDuckType | internal/controller/ducktype_controller.go:46-60 | in every run each entry and unreported goroutine belongs to an existing object that carries the finalizer if and only if nobody else took it off without it being put back, and no name has two |
| FinalizerProtocol.StrippedFinalizerLeaksSubManager | internal/controller/ducktype_controller.go:46-60 | stripping the finalizer from a deleted object leaves its sub-manager running |
| FinalizerProtocol.RecreatedObjectStartsClean | reconcilers/submanager.go:140-145 | when a name can be created again, every sub-manager of a former object of that name has reported |
| FinalizerProtocol.LiveObjectGetsItsOwn | reconcilers/submanager.go:136-182 | a starting call on a live object leaves it with its own goroutine, a new one unless it had an entry, and then the first that UID ever had |
| FinalizerProtocol.AtMostOneSubManagerEver | reconcilers/submanager.go:136-196 | in every run two goroutines of the same UID are the same goroutine, reported ones included |
| FinalizerProtocol.OnlyDeletedAreCancelled | reconcilers/submanager.go:184-196 | in every run a goroutine is cancelled exactly while the shutdown of its own object waits for it or after that, and then everybody sees that object deleting |
| FinalizerProtocol.DeletionCanComplete | internal/controller/ducktype_controller.go:46-60 | from every reachable state the reconciler alone can shut down the sub-manager of a deleting object and remove its finalizer, after which the object is gone if and only if nobody else holds it |
| FinalizerProtocol.ShutdownCannotGetStuck | reconcilers/submanager.go:184-193 | a blocked shutdown waits for a cancelled running goroutine or a parked one, whose next step is enabled and lowers the rank; no other step raises it |
| FinalizerProtocol.UndisturbedCallIsReconcile | reconcilers/submanager.go:129-196 | the protocol's steps of a child call compose to the reconciler's Reconcile, change nothing else, and it ends |
| FinalizerProtocol.ExitedSubManagerIsNotRestarted | reconcilers/submanager.go:140-143 | an exited sub-manager keeps its entry and goroutine through every continuation until a report of it is collected |
| FinalizerProtocol.RunsUntilItReturns | reconcilers/submanager.go:174-179 | in every run a goroutine is running if and only if its manager's Start has not returned in that run |
| FinalizerProtocol.EntryRunsUntilItReturns | reconcilers/submanager.go:140-143 | the sub-manager of an entry is running if and only if its Start has not returned |
| FinalizerProtocol.ReconcileLeavesExitedSubManager | reconcilers/submanager.go:140-143 | the run exists: after a start, an exit and a successful reconcile the entry is kept and nothing runs |
| GroupResources.PrintUndoesParse | api/v1/duck_lifecycle.go:63-65 | printing a parsed name gives it back if and only if its first dot does not end it |
| GroupResources.ParseUndoesPrint | api/v1/duck_lifecycle.go:63-65 | parsing a printed name gives it back if and only if the resource has no dot |
| Availability.Scan | internal/controller/ducktype_controller.go:539-556 | Available is True if and only if the name is `resource.group` with the spec's non-empty group and the first discovery entry for the resource has the spec's kind; NotFound exactly when no entry matches |
| Availability.CoreGroupIsNeverAvailable | internal/controller/ducktype_controller.go:540-544 | a core-group duck is unavailable whatever discovery says |
| Availability.AvailableKindsAreDistinct | internal/controller/ducktype_controller.go:539-552 | where discovery serves each kind of a group as one top-level resource, available ducks of one group and kind have one name |
| Availability.DuckResource.Sync | internal/controller/ducktype_controller.go:522-557 | a failed lookup keeps the condition, any other answer makes it True exactly when available, and False with NotFound exactly when the API is not served or lists no such resource |
| Availability.DuckResource.Reconcile | internal/controller/ducktype_controller.go:397-557 | after a completed reconcile the duck is ready if and only if its roles are defined and it is available; RBAC follows the roles in every case |
| Webhook.DuckTypeObject.Validate | api/v1/ducktype_webhook.go:81-120 | the list of field errors in order |
| Webhook.ErrorsAreExact | api/v1/ducktype_webhook.go:81-120 | a field is reported as required if and only if it is missing, and as invalid if and only if it has capitals, or is a name other than `plural.group` |
| Webhook.ErrorsAreOrdered | api/v1/ducktype_webhook.go:81-120 | errors come in the order of the fields, at most one for each |
| Webhook.DuckTypeObject.Admit | api/v1/ducktype_webhook.go:61-75 | defaulting and validating accepts exactly the admissible types |
| Webhook.DefaultingSettles | api/v1/ducktype_webhook.go:48-57 | defaulting is idempotent and does not change admissibility; a missing singular becomes the kind letter by letter without capitals, a missing list kind the kind with List, and nothing else changes |
| RoleNames.DuckRoleNamesCoincide | internal/controller/ducktype_controller.go:427-446 | two duck role names coincide if and only if role and pair agree up to moving the boundary to another hyphen |
| RoleNames.TypeAndDuckRoleNamesCoincide | internal/controller/ducktype_controller.go:70-89 | a duck role has the name of a type role if and only if that type is named after the pair |
| RoleNames.HyphenFreeNamesAreInjective | internal/controller/ducktype_controller.go:70-89 | over hyphen-free type names all role names are distinct |
| Roles.SelectorsAreApart | internal/controller/ducktype_controller.go:76-105 | a selector picks exactly the duck roles of its type and access, never an aggregating role |
| Roles.AggregationIsExact | internal/controller/ducktype_controller.go:424-463 | the aggregated rules of a type are precisely those of its own ducks that have their role, whatever roles are missing or lost to a collision |
| Roles.DuckRuleIsAggregated | internal/controller/ducktype_controller.go:424-463 | a duck's role alone is enough for its rule to be aggregated into its type's |
| Roles.AccessIsExact | internal/controller/ducktype_controller.go:424-463 | a type's role allows a verb on a resource if and only if one of its ducks that has its role names that resource and the verb is a reading one, or patch for edit |
| Roles.EditCoversView | internal/controller/ducktype_controller.go:436-462 | what the view role of a type allows, its edit role allows exactly where a duck naming the resource has its edit role, and all of it once no duck has only the view role |
| Roles.NoRoleAllowsDeleting | internal/controller/ducktype_controller.go:436-462 | neither role of a type allows deleting anything |
| Roles.CollidingDucksShareNoRole | internal/controller/ducktype_controller.go:427-446 | two ducks of different types whose role names coincide never both have that role |
| Roles.RoleNamesCollide | internal/controller/ducktype_controller.go:427-446 | validated types `ts.d` and `ts.d-x` collide on their ducks `x-foos.g` and `foos.g`, under the spelled-out name, so they cannot both have their roles |
| Roles.UpdatesPreserveAggregatedRules | internal/controller/ducktype_controller.go:113-125 | through any sequence of updates and aggregations the rules are the last aggregated ones, labels and selector the type's |
| Roles.NothingIsGrantedBeforeAggregation | internal/controller/ducktype_controller.go:70-125 | from its creation to the first aggregation a type's role has its name, label and selector and no rules |
| Roles.UpdatesRestoreDuckRole | internal/controller/ducktype_controller.go:424-488 | whatever a duck's own role held before, through any sequence with an update it ends with exactly the duck's rule and labels and no selector |
| Roles.Update | internal/controller/ducktype_controller.go:113-125 | harmonise then merge is the specified update |
| Client.SelectDucks | client/client.go:67-118 | the loop returns the ready ducks of the kind in order, or the error the type, the list or an empty selection calls for |
| Client.SelectionIsExact | client/client.go:67-118 | which ducks are selected and which error is returned, each as an equivalence over the type, the list and the kind |
| Client.TheDuckIsExact | client/client.go:120-129 | a request is about one duck if and only if exactly one is selected; otherwise it fails as the selection does, or with ErrUnknownDuck |
| Client.TypedObject.SetDuckVersion | client/client.go:120-141 | only the version changes, to the one duck's, and nothing on failure |
| Client.TypedObject.Get | client/client.go:143-148 | reads at the duck's version, or fails as resolution does |
| Client.TypedObject.GroupVersionKindFor | client/client.go:258-264 | the same answer with the caller's object untouched |
| Client.ResolvesUniquely | client/client.go:98-129 | with distinct ready kinds in its group a request resolves if and only if a ready duck has the kind or has it as list kind, not both |
| Client.List | client/client.go:157-197 | the aggregate over the selected ducks in order, or the first failure |
| Client.ListIsExact | client/client.go:157-176 | over any store, an object is listed if and only if it is selected and stored under the kind of a ready duck that answers the request |
| Client.ListHoldsEveryRead | client/client.go:163-174 | a successful list is the reads of the ducks at their own group, version and list kind, one after the other, complete and in order |
| Client.ListFailsWithFirstRead | client/client.go:163-172 | a list fails if and only if a read fails, with the error of the first that does |
| Client.ListByKindIsFilteredListAll | client/client.go:98-176 | listing a kind is the order-preserving filter of listing everything, and ErrUnknownDuck when no ready duck has it |
| Client.Store.DeleteAllOf | client/client.go:223-240 | deletes, at each duck's group, version and kind, exactly the matches of the ducks before the first failure, all of them on success, and leaves the caller's object alone |
| Client.DeleteAllThenListIsEmpty | client/client.go:157-240 | after success a List with the same kind and options is empty |
| Client.DeleteAllDeletesNothingElse | client/client.go:223-240 | an object is gone if and only if it was selected and of the kind of one of the ducks |
| Client.ReadingIsFaithful | client/client.go:157-176 | listing from a store that keeps objects under their own kind returns objects of the listed kind |
| Permissions.ReadyDuckIsReadable | internal/controller/ducktype_controller.go:424-463 | the type's aggregated view role allows get, list and watch on the resource a ready duck's kind maps to, whatever the state of other ducks |
| Permissions.ListReadsArePermitted | client/client.go:163-174 | each per-duck read a List issues is covered by the type's aggregated view role |
| Permissions.GetIsPermittedExactly | client/client.go:120-148 | the read of a Get is covered if and only if some duck of the type with its role names the resource it maps to, always so when the request names the duck's kind |
| Permissions.LookupIsPermittedExactly | client/client.go:67-96 | reading the type and listing its ducks are covered if and only if a duck of the type with its role names those resources |
| Permissions.LookupIsNotGranted | client/client.go:67-96 | a cluster in which both are refused |
| Permissions.CollidingDucksAreNotBothReady | internal/controller/ducktype_controller.go:427-446 | ducks of different types whose role names coincide are never ready together |
| Permissions.GetThroughListKindIsNotGranted | client/client.go:108-148 | a Get that resolves through the list kind can read a resource no role grants |
| Permissions.ReadyKindsResolveUniquely | client/client.go:98-129 | a kind resolves exactly when a ready duck has the kind or has it as list kind, not both, if discovery is one-to-one in its group |
| SplitCache.SplitRefinesOne | internal/submanager/submanager.go:71-130 | any sequence of well-routed requests gets the answers of one cache |
| SplitCache.LocalRequestsDoNotDisturbUpstream | internal/submanager/submanager.go:82-130 | upstream answers and contents are those of the run without its local requests |
| SplitCache.UpstreamRequestsDoNotDisturbLocal | internal/submanager/submanager.go:82-130 | local answers and contents are those of the run without its upstream requests |
| SplitCache.SensibleIsCoherent | internal/controller/ducktype_controller.go:362-367 | kinds and their list kinds are routed alike if and only if the list kind is the default one, is no object kind, and the kind is not another object kind's list kind |
| SplitCache.ListKindThatIsAKindIsIncoherent | internal/controller/ducktype_controller.go:362-367 | a list kind that is itself an object kind is routed apart from its own listing |
| SplitCache.KindEndingInListIsIncoherent | internal/controller/ducktype_controller.go:362-367 | a kind that is another object kind with List appended misroutes the listing of that kind |
| SplitCache.SubManagerCacheIsOneCache | internal/submanager/submanager.go:71-130 | for such a duck type the sub-manager's cache answers every request sequence as one cache |
| SplitCache.CoherenceIsExact | internal/submanager/submanager.go:71-80 | coherent routing is necessary and sufficient for answering as one cache |
| SplitCache.Cache.Handle | internal/submanager/submanager.go:82-130 | the dispatch passes the call to the side of the named kind and changes no other |

## Left out

- Manager start-up, flags, TLS, metrics, leader election and logging: no logic of their own.
- The CRD child reconciler and the condition it reflects: a static schema and one case distinction.
- Generated code and the die helpers: test-building support.
- The Duck webhook: three required fields and a suffix test.
- Client methods that only pass on or panic, and object conversion (`duck.Convert`).
- `TrackAndGet` and `TrackAndList`: the same code as `Get` and `List` with tracking, which is not modelled.
- Tombstones, panics on malformed objects, and handlers still queued on the mutex when the broker's shutdown releases it.
- Restarts of the controller process: the protocol runs within one process, whose cache never goes back.
- `Cache.Start`, `Cache.WaitForCacheSync` and the panic in `isLocal`: two calls combined, and an unknown kind.
- Non-ASCII case folding: `ToLower` lowers the letters A to Z only.
- Client.Store.DeleteAllOf: deletes at once; objects that linger on their own finalizers are not modelled.
- Registry.Informing.Shutdown: the state at the end of the removal loop; the maps are abandoned with the runnable.
- SubManager.SubManagerReconciler.Shutdown: the wait on the report is one step here; its interleavings are in FinalizerProtocol.
