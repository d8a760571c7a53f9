# Models of five n8n services

This project models five stateful services of `packages/cli/src` in n8n and proves what they keep
over their runs. A class stands for each service and holds its fields; every method that changes them
is proved equal to a function on the state, and the properties are lemmas about those functions.
`dafny verify dfyconfig.toml` checks all of it.

## What is modelled

**Credential inheritance** (`ExtendsGraph`, `CredentialTypes`, `OverwriteResolution`, `OverwriteChains`,
`OverwriteOrders`, `CredentialsOverwrites`). The lookup of parent types appends to the lists it reads. The resolution of
overwrites is memoised, marks a type as resolved before its value is stored, and visits the types in any
order. A lookup merges the stored values along the ancestors again. For types whose ancestors form a chain
that second merge hides the order and the history: the lookup is the merge from the root down to the type.
This holds exactly as long as no list that the resolution reads names two recognised types. It fails for
credential classes whose `extends` array is shared with the table that lookups grow: after one lookup, setting
the data again lets a grandparent override a parent. A run of the service shows it.
In any acyclic graph each entry looked up is the raw entry of a nearest type that has the key, along some path. So
where the nearest types agree, no order matters. Where they need not, consider a type that another one extends, or that
comes along single parents to one that another extends: its lookup is independent of the order exactly when no list
read for it or above it names two types.

**Active executions** (`ConcurrencyControl`, `ExecutionRuns`, `ExecutionSafety`, `ExecutionShutdown`,
`ExecutionLimits`, `ActiveExecutions`). Each addition is a ticket that moves through throttle, database call, run,
settled promise and cleanup. Permits add up in every reachable state: capacity plus waiters plus permits held is the
limit. A failed database call is a permit held for ever, and is counted as such. The limit on running executions is
exceeded exactly when a waiter is removed while another one waits: the removal hands on a place that the removed
waiter never had. An execution is lost from the table exactly when its id is inserted again while active. A shutdown
drains exactly the executions whose cleanup runs; one whose database call was under way when it began is inserted
meanwhile, and is waited for too.

**Workflow activation** (`Webhooks`, `ActivationState`, `ActivationRuns`, `ActivationStores`, `ActivationTriggers`,
`ActivationOutcomes`, `ActiveWorkflowManager`). The retry queue with its timers, the activation errors, the triggers
in memory and the webhook rows of a single main instance. A timer is a token that may fire; a retry in flight awaits
its activation. The invariants come with exactly the steps that break them. A timer is left in no entry exactly when a
retry fails early beside a pending retry of the same workflow. A workflow is queued without an error exactly when its
failure, on startup or in a running trigger, cannot be registered. A workflow removed comes back exactly when a retry
of it was in flight or a timer of it pending in no entry. The stored delay counts the failed retries since the
workflow was queued, whatever happens in between. A removal that completes stops every trigger and cron job exactly
when none ran without a record in memory, which some failed and some repeated activations leave behind.

**Registry of nodes** (`NodeDescriptions`, `NodeInjection`, `NodeRegistry`, `NodeRebuild`, `NodeRebuildAgain`,
`NodeRebuildLookups`, `NodeTools`, `NodeNames`, `LoadNodesAndCredentials`). Option arrays are referred to, shared
between parameters, nodes and loaders, and pushed to in place. A rebuild is proved to show what a simple form without
sharing shows. Rebuilding twice shows the same as once exactly when no node made into a tool shares an array, beside
its own resource and operation parameters, with a node that has the option pushed into it; from the second rebuild on
nothing changes, as long as no parent types are looked up in between. Lookups grow the lists of credential classes
that were loaded eagerly, and a node may come to qualify by an authorization type among the ancestors; when a rebuild
after them still completes and shows the same is characterised too. Under which names and in which places it shows
what the loaders hold is said without the functions that gather it.

## Where the code and its comments disagree

The model follows the code.

- Storing a webhook is described as an insert that fails on a taken path
  (`packages/cli/src/active-workflow-manager.ts:208-212`), but the service upserts
  (`packages/cli/src/webhooks/webhook.service.ts:110-114`): a workflow takes over the row of another.
- A workflow in the activation queue is said to be tried again indefinitely
  (`packages/cli/src/active-workflow-manager.ts:655-657`), but an activation that fails after the entry was removed
  leaves the retry nothing to reschedule, and it ends.
- Removing everyone who waits is said to release their capacity
  (`packages/cli/src/concurrency/concurrency-control.service.ts:138-142`), but the shutdown disables the control
  first, so nothing is removed.

## Assumptions

- The `extends` graph is acyclic, witnessed by a rank, and no two types share one list. A list at class level is
  the list of the table or a copy of it.
- Stretches of code between two awaits are atomic; activation and deactivation are atomic except for the await of
  a retry. Deleting the rows of a workflow happens entirely or not at all, and after everything else in clearing.
- The database, the cache, external webhook services, triggers and clocks are parameters that say how each call ends.
  What is thrown is an error object with a message. Activation errors do not expire from the cache.
- Storing a webhook sets the whole row. Columns that the new webhook leaves undefined are overwritten too.
- At the start the live `extends` array of a credential class is the list of its type in the table.

## Model

| member | source | states |
|---|---|---|
| `ExtendsGraph.OrderListsTheAncestors` | packages/cli/src/credential-types.ts:26-34 | the order of first occurrences lists exactly the types reachable by `extends` paths, each once |
| `ExtendsGraph.GrowKeepsSettled` | packages/cli/src/credential-types.ts:26-34 | one lookup keeps every list either untouched or grown to the fixed order, whatever was looked up before |
| `ExtendsGraph.LookupIgnoresHistory` | packages/cli/src/credential-types.ts:26-34 | after any sequence of lookups the types returned are exactly the ancestors and their first-occurrence order is a function of the initial table |
| `CredentialTypesModel.CredentialTypes.GetParentTypes` | packages/cli/src/credential-types.ts:26-34 | terminates, visits only the entries present at the start, appends each result, and returns the ancestors |
| `CredentialTypesModel.CredentialTypes.ClassListsAreDeclared` | packages/cli/src/load-nodes-and-credentials.ts:376-391 | the lists at class level, shared with the table or not, are always the initial lists or what lookups made of them |
| `CredentialTypesModel.CredentialTypes.SharedListsAreLive` | packages/cli/src/credentials-overwrites.ts:67-82 | where the array of a class is shared with the table the service reads the list that lookups have grown, and for any other class the list as declared |
| `OverwriteResolution.MergeIsFirstMatch` | packages/cli/src/credentials-overwrites.ts:95-102 | reversing and assigning finds, for each key, the first type of the forward list that has it |
| `OverwriteResolution.MergeIgnoresRepetition` | packages/cli/src/credentials-overwrites.ts:95-102 | lists with the same first occurrences merge to the same entries |
| `OverwriteResolution.ResolveIsSound` | packages/cli/src/credentials-overwrites.ts:63-93 | with any memo, a value found keeps the raw entries of its type and takes every other entry from a nearest ancestor that has the key |
| `OverwriteResolution.LookupHasTheKeysOfAllAncestors` | packages/cli/src/credentials-overwrites.ts:29-102 | for every acyclic graph and order, the keys of a lookup are the raw keys of the type and all its ancestors, and its own raw entries win |
| `OverwriteResolution.LookupTakesTheNearest` | packages/cli/src/credentials-overwrites.ts:29-102 | for every acyclic graph and order, each entry looked up is the raw entry of an ancestor that is the first on some path to have the key |
| `OverwriteChains.ResolveAllAgrees` | packages/cli/src/credentials-overwrites.ts:29-93 | on chains each stored value contains its raw entries and agrees with the root-to-type merge at every step, including parents resolved but not stored |
| `OverwriteChains.LookupAfterSetting` | packages/cli/src/credentials-overwrites.ts:29-102 | on chains the lookup after setting the data in any order is the merge from the root ancestor down |
| `OverwriteChains.LookupAfterSettingAgain` | packages/cli/src/credentials-overwrites.ts:29-106 | setting the data to what is already stored, in any other order and after lookups that grew the lists, changes no lookup on a chain as long as neither setting reads two recognised types in a list |
| `OverwriteChains.LookupIsTheMergeExactlyWhen` | packages/cli/src/credentials-overwrites.ts:81-102 | on a chain the lookup is the root merge for all data and orders if and only if no list read names two recognised types |
| `OverwriteChains.OneLookupGrowsASharedList` | packages/cli/src/credential-types.ts:27-33 | one lookup makes a list shared with the class name two recognised types once there is a grandparent |
| `OverwriteOrders.StoredTableDependsOnOrder` | packages/cli/src/credentials-overwrites.ts:35-41 | the same data visited in two orders is stored differently |
| `OverwriteOrders.LookupIsTheNearest` | packages/cli/src/credentials-overwrites.ts:29-102 | for every acyclic graph and order, where the nearest types that have a key agree on it the lookup is their value, and there is none only if no ancestor has the key |
| `OverwriteOrders.GuardIsLookedUp` | packages/cli/src/credentials-overwrites.ts:29-102 | the value of a type that lies on every path to a type with the key is looked up after every order |
| `OverwriteOrders.OrderIsIrrelevantExactlyWhen` | packages/cli/src/credentials-overwrites.ts:35-41 | for a type that another one extends, or that comes along single parents to one that another extends, every order gives the same lookup of all data if and only if no list read for it or an ancestor names two types |
| `OverwriteOrders.LookupDependsOnOrder` | packages/cli/src/credentials-overwrites.ts:35-41 | in every such graph with a list of two types above, two orders: visited first the type gets the value of the last of them, after the other type that of the first |
| `OverwriteOrders.StoredEntriesStay` | packages/cli/src/credentials-overwrites.ts:29-106 | whatever lists a second setting reads, an entry that the first one stored for the type itself stays what the lookup returns |
| `OverwriteOrders.SettingAgainIsHarmlessExactlyWhen` | packages/cli/src/credentials-overwrites.ts:29-106 | for a type that another one extends, set on a chain, setting the data again changes no lookup of any data in any orders if and only if no list read then for it or an ancestor names two types |
| `OverwriteOrders.SettingAgainChanges` | packages/cli/src/credentials-overwrites.ts:81-93 | otherwise: a first setting that leaves the type raw and a second one that gives it a value from farther up |
| `OverwriteOrders.EndsDifferWhen` | packages/cli/src/credential-types.ts:27-33 | a list no lookup has grown, or one grown from a single parent, does not begin and end with the same of several types |
| `OverwriteOrders.UnextendedTakesTheLast` | packages/cli/src/credentials-overwrites.ts:81-93 | a type that no list names is looked up, after every order, with what the last type of its own list has for a key it has not |
| `CredentialsOverwritesModel.CredentialsOverwrites.constructor` | packages/cli/src/credentials-overwrites.ts:16-27 | the service starts with the configured data resolved |
| `CredentialsOverwritesModel.CredentialsOverwrites.SetData` | packages/cli/src/credentials-overwrites.ts:29-42 | resets the memo, resolves every type of the data in some order against the lists of the classes as they are now, and stores each non-empty result |
| `CredentialsOverwritesModel.CredentialsOverwrites.GetOverwrites` | packages/cli/src/credentials-overwrites.ts:63-93 | the value and the memo are those of the resolution function; the data is not touched |
| `CredentialsOverwritesModel.CredentialsOverwrites.Get` | packages/cli/src/credentials-overwrites.ts:95-102 | between any earlier calls: exactly the keys of all ancestors, own raw entries first, each entry from a nearest type, and the root merge on chains |
| `CredentialsOverwritesModel.CredentialsOverwrites.ApplyOverwrite` | packages/cli/src/credentials-overwrites.ts:44-61 | the result is the data with its blank overwritten keys filled from the lookup; stored overwrites stay |
| `CredentialsOverwritesModel.Fill` | packages/cli/src/credentials-overwrites.ts:51-60 | keys are the union, no non-blank value changes, each blank or missing overwritten key gets the overwrite |
| `CredentialsOverwritesModel.FilledTwice` | packages/cli/src/credentials-overwrites.ts:51-60 | filling is idempotent, even with blank overwrites |
| `CredentialsOverwritesModel.MergeBackwards` | packages/cli/src/credentials-overwrites.ts:97-101 | the loop from the last type to the first is the nearest-first merge |
| `CredentialsOverwritesModel.LookUpThenSet` | packages/cli/src/credentials-overwrites.ts:29-42 | after one lookup of a type that shares its list, with a parent and a grandparent, the next setting reads two recognised types in its list |
| `CredentialsOverwritesModel.SetLookUpSet` | packages/cli/src/credentials-overwrites.ts:29-102 | for any table of three types in a row, the list of the first one shared: set, look up, set the same data again, look up; first the entry of the parent is found, then that of the grandparent |
| `CredentialsOverwritesModel.ChildParentGrandparent` | packages/cli/src/credentials-overwrites.ts:29-102 | such a run from a new service |
| `ConcurrencyControlModel.CreateConcurrencyControl` | packages/cli/src/concurrency/concurrency-control.service.ts:33-73 | a limit of 0 is an error; otherwise a queue for each positive limit, enabled exactly in the regular mode with a limit above 0 |
| `ConcurrencyControlModel.ConcurrencyQueue.Enqueue` | packages/cli/src/concurrency/concurrency-queue.ts:22-33 | takes a place, and waits at the end of the queue if there was none |
| `ConcurrencyControlModel.ConcurrencyQueue.Dequeue` | packages/cli/src/concurrency/concurrency-queue.ts:39-43 | gives a place back and resolves the head of the queue |
| `ConcurrencyControlModel.ConcurrencyQueue.Remove` | packages/cli/src/concurrency/concurrency-queue.ts:45-55 | removes the first waiter with the id, gives a place back and resolves the next waiter; nothing if there is none |
| `ConcurrencyControlModel.ConcurrencyControl.Throttle` | packages/cli/src/concurrency/concurrency-control.service.ts:114-118 | webhook and trigger executions take a place of production and evaluations one of theirs if there is such a limit and the control is enabled; any other passes at once; the other queue stays |
| `ConcurrencyControlModel.ConcurrencyControl.Release` | packages/cli/src/concurrency/concurrency-control.service.ts:123-127 | gives back a place of the queue of the mode, and nothing once disabled |
| `ConcurrencyControlModel.ConcurrencyControl.RemoveAll` | packages/cli/src/concurrency/concurrency-control.service.ts:143-152 | does nothing once the control is disabled |
| `ExecutionRuns.StepKeepsGood` | packages/cli/src/active-executions.ts:49-161 | every step keeps waiters distinct and queued and, while the control is enabled, capacity + waiters + permits held equal to the limit and nobody waiting while a place is free |
| `ExecutionRuns.PermitsAreConservedFromTheStart` | packages/cli/src/active-executions.ts:49-161 | the same in every state reachable under any interleaving, failed database calls included; the equation as long as the control is enabled |
| `ExecutionSafety.StepFollowsLifeCycle` | packages/cli/src/active-executions.ts:97-161 | each step leaves a call alone or moves it one stage on; the first outcome of a promise stays; only its own cleanup ends it |
| `ExecutionSafety.ReleasedExactlyOnce` | packages/cli/src/active-executions.ts:106-116 | a call releases exactly once if it was cleaned up and never otherwise, under repeated stops and finalizations |
| `ExecutionSafety.FirstComeFirstServed` | packages/cli/src/concurrency/concurrency-queue.ts:65-75 | while anyone of a kind waits, a release resolves the one of them who called first |
| `ExecutionSafety.LimitExceededExactlyWhen` | packages/cli/src/concurrency/concurrency-queue.ts:45-55 | a step exceeds the limit if and only if it removes a waiter from a queue where another waits |
| `ExecutionSafety.LimitHoldsOverRuns` | packages/cli/src/concurrency/concurrency-queue.ts:22-55 | as long as the control is enabled, a run stays within the limit all along if and only if it contains no such removal |
| `ExecutionSafety.RemovalLetsTwoRunWithLimitOne` | packages/cli/src/concurrency/concurrency-queue.ts:45-55 | with a limit of one, a run of four steps after which two executions hold a permit |
| `ExecutionShutdown.TrackedExactlyWhen` | packages/cli/src/active-executions.ts:97-116 | the table stays exactly the calls that are open if and only if no id is inserted while active |
| `ExecutionShutdown.TrackedOverRuns` | packages/cli/src/active-executions.ts:97-116 | the same all along a run |
| `ExecutionShutdown.OpenExactlyWhen` | packages/cli/src/active-executions.ts:97-161 | after any run a call is open if and only if it was before or was inserted during the run, and its cleanup has not run |
| `ExecutionShutdown.CancelAllSettlesEverything` | packages/cli/src/active-executions.ts:202-217 | before the wait every active execution has a settled promise |
| `ExecutionShutdown.DrainsExactlyTheCleanedUp` | packages/cli/src/active-executions.ts:106-116 | while draining, with insertions or without, an execution active before is still so exactly if its cleanup has not run, and any other active one was inserted meanwhile and not cleaned up |
| `ExecutionShutdown.DrainProgress` | packages/cli/src/active-executions.ts:219-227 | while something is active a cleanup is due, and it leaves one execution fewer |
| `ExecutionShutdown.DisabledQueuesAreFrozen` | packages/cli/src/active-executions.ts:205-209 | once disabled, whoever waits never resumes and capacity never changes |
| `ExecutionShutdown.SettledThenCleanedUp` | packages/cli/src/active-executions.ts:106-161 | finalizing an active running execution and then cleaning it up makes it inactive and gives its place to the one who waits longest, or back |
| `ExecutionLimits.AtMostTheLimitRun` | packages/cli/src/concurrency/concurrency-control.service.ts:33-118 | with a production limit L at most L executions of mode webhook or trigger hold a place in any run without a removal, and with an evaluation limit E at most E evaluations |
| `ExecutionLimits.OnlyLimitedModesWait` | packages/cli/src/concurrency/concurrency-control.service.ts:186-214 | nobody waits outside the regular mode, nor in a mode other than webhook, trigger and evaluation, nor in one without a limit |
| `ExecutionLimits.WaitsExactlyWhen` | packages/cli/src/concurrency/concurrency-control.service.ts:114-118 | in every reachable state a new webhook or trigger execution waits if and only if L of them hold a place, an evaluation if and only if E do, and no other does |
| `ExecutionLimits.DisabledLetsEveryonePass` | packages/cli/src/concurrency/concurrency-control.service.ts:165-167 | after the control is disabled every new execution passes and no place is taken |
| `ActiveExecutionsModel.ShutdownDrainsExactlyWhen` | packages/cli/src/active-executions.ts:202-228 | after a cancelling shutdown nothing is active if and only if the cleanup of every execution active at its start or inserted since has run, and no throttled execution resumed |
| `ActiveExecutionsModel.ActiveExecutions.Add` | packages/cli/src/active-executions.ts:49-95 | throttles a new execution in the regular mode and a resumed one always |
| `ActiveExecutionsModel.ActiveExecutions.DatabaseUpdated` | packages/cli/src/active-executions.ts:97-104 | the execution becomes active under its id, or the addition fails with its permit held |
| `ActiveExecutionsModel.ActiveExecutions.StopExecution` | packages/cli/src/active-executions.ts:144-153 | settles a pending promise of the active id as cancelled, and nothing else |
| `ActiveExecutionsModel.ActiveExecutions.FinalizeExecution` | packages/cli/src/active-executions.ts:156-161 | settles a pending promise of the active id as finished, and nothing else |
| `ActiveExecutionsModel.ActiveExecutions.CleanUp` | packages/cli/src/active-executions.ts:107-116 | releases the permit of the mode, resolves the next waiter and deletes the entry by id |
| `ActiveExecutionsModel.ActiveExecutions.BeginShutdown` | packages/cli/src/active-executions.ts:202-217 | disables the control in the regular mode, withdraws nobody, and stops everything active if asked |
| `ActiveExecutionsModel.ActiveExecutions.Shutdown` | packages/cli/src/active-executions.ts:202-228 | polls until the table is empty, and stops at the first poll that finds it so |
| `ActiveExecutionsModel.ActiveExecutions.WaitFor` | packages/cli/src/active-executions.ts:219-227 | the loop of the polls, the process going on in between |
| `Webhooks.NormalPathInContext` | packages/cli/src/active-workflow-manager.ts:173-178 | at most one slash is removed at each end, the leading one first |
| `Webhooks.RequestSegments` | packages/cli/src/webhooks/webhook.service.ts:70-77 | the path length recorded for a webhook with parameters is the one a request under its id is looked up by |
| `Webhooks.RowHolds` | packages/cli/src/active-workflow-manager.ts:162-183 | a webhook stands under its HTTP method and trimmed path in a row of its workflow and node, with an id and a length exactly for a path with parameters of a node with an id |
| `Webhooks.StoredHasItsRow` | packages/cli/src/webhooks/webhook.service.ts:110-114 | each stored webhook has a row of its workflow, as the last webhook with its key sets it |
| `Webhooks.OthersKeptExactlyWhen` | packages/cli/src/webhooks/webhook.service.ts:110-128 | storing keeps the rows of other workflows if and only if no key is held by one of them; clearing does not give them back |
| `Webhooks.AdditionIsAllOrNothing` | packages/cli/src/active-workflow-manager.ts:147-225 | outside initialization: no error and every webhook stored, or a failed webhook and, if clearing succeeds, no row of the workflow |
| `Webhooks.LateErrorKeepsTheRows` | packages/cli/src/active-workflow-manager.ts:222-224 | an error after the last webhook is not compensated: every row stays |
| `Webhooks.AdditionKeepsOthersExactlyWhen` | packages/cli/src/active-workflow-manager.ts:160-221 | for every outcome, rows of other workflows are kept if and only if no stored webhook has a key of theirs |
| `Webhooks.TakenRowsAreLost` | packages/cli/src/active-workflow-manager.ts:185-200 | an addition that fails and clears leaves exactly the rows of others at keys it did not store: a row it took is not given back |
| `ActiveWorkflowManagerModel.ActiveWorkflowManager.AddWebhooks` | packages/cli/src/active-workflow-manager.ts:147-225 | the loop with its compensation ends as the closed form says: rows up to the first fatal failure, cleared or not, and the error |
| `ActiveWorkflowManagerModel.ActiveWorkflowManager.ClearWebhooks` | packages/cli/src/active-workflow-manager.ts:231-264 | deletes exactly the rows of the workflow, or none if anything before fails |
| `ActiveWorkflowManagerModel.ActiveWorkflowManager.Add` | packages/cli/src/active-workflow-manager.ts:502-596 | the stores and the error after each of its ways to end, a rejected registration of the error included |
| `ActiveWorkflowManagerModel.ActiveWorkflowManager.AddTriggersAndPollers` | packages/core/src/execution-engine/active-workflows.ts:67-133 | a trigger that fails leaves memory alone and those before it running; a new record replaces the old one; a failed poll deletes it unless a trigger runs |
| `ActiveWorkflowManagerModel.ActiveWorkflowManager.RemoveWorkflowTriggersAndPollers` | packages/cli/src/active-workflow-manager.ts:783-793 | closes the cron jobs and triggers of a workflow in memory, and nothing of one that is not |
| `ActiveWorkflowManagerModel.ActiveWorkflowManager.AddQueuedWorkflowActivation` | packages/cli/src/active-workflow-manager.ts:659-713 | clears the entry and its timer, then queues with the initial delay and a new timer |
| `ActiveWorkflowManagerModel.ActiveWorkflowManager.RemoveAllQueuedWorkflowActivations` | packages/cli/src/active-workflow-manager.ts:728-732 | empties the queue and clears exactly the timers of its entries |
| `ActiveWorkflowManagerModel.ActiveWorkflowManager.RetryReturns` | packages/cli/src/active-workflow-manager.ts:666-701 | a failed retry doubles the delay up to the cap and sets a new timer if its entry is there |
| `ActiveWorkflowManagerModel.ActiveWorkflowManager.EmitError` | packages/cli/src/active-workflow-manager.ts:356-380 | leaves memory, registers the error and queues; the first two may fail |
| `ActiveWorkflowManagerModel.ActiveWorkflowManager.AddActiveWorkflows` | packages/cli/src/active-workflow-manager.ts:411-462 | starts each stored workflow and queues those that fail, unless the message names an authorization failure |
| `ActiveWorkflowManagerModel.ActiveWorkflowManager.Remove` | packages/cli/src/active-workflow-manager.ts:741-793 | clears the rows if possible, then the error, the queue entry and the triggers in memory, up to the first failure |
| `ActiveWorkflowManagerModel.ActiveWorkflowManager.RemoveAll` | packages/cli/src/active-workflow-manager.ts:103-120 | each workflow in memory or stored as active is removed once and left as its own removal ends; if all complete, memory is empty |
| `ActivationRuns.TimersInEntriesExactlyWhen` | packages/cli/src/active-workflow-manager.ts:659-732 | a step leaves a pending timer outside the entry of its workflow if and only if a retry fails early while another retry of it is pending |
| `ActivationRuns.TimersInEntriesFromTheStart` | packages/cli/src/active-workflow-manager.ts:659-732 | from the start, every pending timer is the one in its entry all along a run if and only if the run has no such step |
| `ActivationRuns.ScheduledExactlyWhen` | packages/cli/src/active-workflow-manager.ts:659-732 | a step gives a queued workflow a second retry, pending beside one in flight, if and only if it queues a workflow whose retry is in flight |
| `ActivationRuns.ScheduledFromTheStart` | packages/cli/src/active-workflow-manager.ts:659-732 | from the start, each queued workflow has exactly one retry all along a run if and only if the run has no such step |
| `ActivationRuns.OrphanedTimer` | packages/cli/src/active-workflow-manager.ts:690-691 | a run with a trigger error during a retry that fails ends with two pending timers, one of them in no entry, and nothing in flight |
| `ActivationRuns.DelayDoublesUpToTheCap` | packages/cli/src/active-workflow-manager.ts:675-678 | after n failures the delay is min(initial · 2^n, max), within its bounds and never decreasing |
| `ActivationRuns.DelayReachesTheCap` | packages/cli/src/constants.ts:69-70 | the cap is reached exactly from the 17th failure on |
| `ActivationRuns.FailedRetriesBackOff` | packages/cli/src/active-workflow-manager.ts:666-713 | over every run, other workflows and further retries included: while a workflow is queued, its stored delay is min(initial · 2^n, max) for the n retries that failed since it was queued |
| `ActivationRuns.FailedRetriesBackOffFromTheStart` | packages/cli/src/active-workflow-manager.ts:666-713 | the same in every reachable state |
| `ActivationRuns.RunKeepsWellTimed` | packages/cli/src/active-workflow-manager.ts:659-732 | in every reachable state a pending timer in an entry is of its own workflow, and new timers are fresh |
| `ActivationStores.QueuedHaveErrorsExactlyWhen` | packages/cli/src/active-workflow-manager.ts:356-462 | a step leaves a queued workflow without an error if and only if it queues one, on startup or after a trigger error, whose error cannot be registered and is not there already |
| `ActivationStores.QueuedHaveErrorsOverRuns` | packages/cli/src/active-workflow-manager.ts:356-462 | the same all along a run |
| `ActivationStores.QueuedHaveErrorsIfTheyRegister` | packages/cli/src/active-workflow-manager.ts:584-588 | as long as errors can be registered, every queued workflow has one in every reachable state |
| `ActivationStores.QueuedWithoutError` | packages/cli/src/active-workflow-manager.ts:584-588 | a startup whose error the cache refuses leaves the workflow queued without one |
| `ActivationStores.FailedRetryGoesOnExactlyWhen` | packages/cli/src/active-workflow-manager.ts:673-692 | in any state, a retry that fails is scheduled again if and only if its entry is still queued and the activation did not fail after removing it; otherwise no entry is left |
| `ActivationStores.ActivationLeavesOthers` | packages/cli/src/active-workflow-manager.ts:502-596 | however an activation ends, the entries, errors, triggers and pending timers of other workflows stay |
| `ActivationStores.SuccessfulActivation` | packages/cli/src/active-workflow-manager.ts:563-596 | leaves the workflow neither queued nor in error, its triggers and webhooks in place, on initialization but for those refused, and others untouched but for keys taken |
| `ActivationOutcomes.AdditionFailsExactlyWhen` | packages/cli/src/active-workflow-manager.ts:185-224 | adding webhooks fails if and only if one is not accepted, refusals of the database being ignored on initialization, or the cache is not filled; the message is that of the first one |
| `ActivationOutcomes.SuccessRegisters` | packages/cli/src/active-workflow-manager.ts:563-567 | without an error, activations of mode create, update, activate and manual leave a row of every webhook, one on initialization a row of every one not refused, one on a change of leadership the rows as they were |
| `ActivationOutcomes.SucceedsExactlyWhen` | packages/cli/src/active-workflow-manager.ts:563-596 | an activation succeeds if and only if it was prepared, its webhooks went well where its mode adds them, its triggers and pollers started and its bookkeeping worked |
| `ActivationOutcomes.ThrowsTheFirst` | packages/cli/src/active-workflow-manager.ts:584-589 | one that fails throws, and registers, the first thing that failed, unless that cannot be registered |
| `ActivationOutcomes.StartupQueuesExactlyWhen` | packages/cli/src/active-workflow-manager.ts:435-458 | a failed startup queues the workflow, to be initialized again after a second, if and only if the message does not contain the word Authorization |
| `ActivationStores.Removal` | packages/cli/src/active-workflow-manager.ts:741-793 | however far it comes, it leaves of the workflow what it could not clear, deregister or close, and a pending timer exactly if one was in no entry; every other workflow is as it was, timers and rows included |
| `ActivationStores.AllAreRemoved` | packages/cli/src/active-workflow-manager.ts:103-120 | removing several workflows leaves each as its own removal ends |
| `ActivationStores.RemovedForGoodExactlyWhen` | packages/cli/src/active-workflow-manager.ts:666-723 | in every reachable state, a workflow removed completely stays so over every run in which nobody activates it if and only if no retry of it was in flight and no timer of it pending in no entry |
| `ActivationStores.OrphanOutlivesRemoval` | packages/cli/src/active-workflow-manager.ts:718-723 | a run after which a complete removal leaves a pending timer of the workflow, with nothing in flight |
| `ActivationTriggers.RemovalStopsExactlyWhen` | packages/core/src/execution-engine/active-workflows.ts:193-213 | a removal that completes stops every trigger and cron job of the workflow if and only if none of them ran without a record in memory |
| `ActivationTriggers.UnrecordedExactlyWhen` | packages/core/src/execution-engine/active-workflows.ts:75-133 | a step leaves one running without a record if and only if it starts triggers and one fails after another started, or replaces a record that holds a trigger, or a poll fails with cron jobs set and no trigger |
| `ActivationTriggers.RecordedOverRuns` | packages/core/src/execution-engine/active-workflows.ts:75-133 | the same all along a run |
| `ActivationTriggers.StraysRunOn` | packages/core/src/execution-engine/active-workflows.ts:75-93 | a trigger without a record is stopped by no later step |
| `NodeDescriptions.ToolQualifies` | packages/cli/src/load-nodes-and-credentials.ts:237-269 | a tool qualifies for the injection exactly if its node does |
| `NodeDescriptions.QualifiesExactlyWhen` | packages/cli/src/load-nodes-and-credentials.ts:237-269 | a node qualifies if and only if it has no default version or its one version is that, and the first credential type of a name it uses authenticates or extends one of the three authorization types |
| `NodeDescriptions.ToolReads` | packages/cli/src/load-nodes-and-credentials.ts:444-524 | what a tool is: the names, inputs, outputs, flag, codex, and the parameters put before those of its node |
| `NodeDescriptions.BaseToolReads` | packages/cli/src/load-nodes-and-credentials.ts:513-524 | a description without parameters keeps all but its codex |
| `NodeDescriptions.ToolIsComplete` | packages/cli/src/load-nodes-and-credentials.ts:444-510 | a tool has a description parameter, ends with the parameters of its node, is not usable as a tool, and would get nothing more from a second conversion |
| `NodeDescriptions.ReadOfTool` | packages/cli/src/load-nodes-and-credentials.ts:436-524 | making a tool and reading its options commute |
| `NodeInjection.InjectNodesIs` | packages/cli/src/load-nodes-and-credentials.ts:263-285 | the injection completes exactly when nothing makes it throw, and then each array reached has the option once and all others are as they were, whatever is shared |
| `NodeInjection.InjectionPushes` | packages/cli/src/load-nodes-and-credentials.ts:268-283 | what one array holds after a completed injection: the option appended if a resource or operation parameter of a qualifying node refers to it and its last option is not that one, and otherwise what it held |
| `NodeRegistry.QualifiedKeysHold` | packages/cli/src/load-nodes-and-credentials.ts:360-374 | each entry of a loader stands under its qualified name, and nothing else does |
| `NodeRegistry.UsableInOrder` | packages/cli/src/load-nodes-and-credentials.ts:313-315 | the nodes made into tools are those marked so, in their order |
| `NodeRegistry.ToolsAreHeld` | packages/cli/src/load-nodes-and-credentials.ts:313-333 | every tool refers to its own copies, which hold what the arrays of its node held; nothing before changes |
| `NodeRebuild.RebuildShows` | packages/cli/src/load-nodes-and-credentials.ts:335-397 | a rebuild with shared arrays shows what the simple form without sharing shows |
| `NodeRebuild.RebuildLeaves` | packages/cli/src/load-nodes-and-credentials.ts:263-285 | the arrays of the loaders have the option pushed once where a qualifying node reaches them, and are otherwise as they were |
| `NodeRebuildAgain.RebuildCompletesExactlyWhen` | packages/cli/src/load-nodes-and-credentials.ts:271-276 | a rebuild completes if and only if no qualifying node lacks parameters or has an empty options array to look at |
| `NodeRebuildAgain.RebuildingTwiceIsOnceExactlyWhen` | packages/cli/src/load-nodes-and-credentials.ts:335-397 | rebuilding twice shows the same tables and descriptions as once if and only if nothing leaks into a tool through a shared array |
| `NodeRebuildAgain.OptionIsPushedOnce` | packages/cli/src/load-nodes-and-credentials.ts:268-283 | after any number of rebuilds each reached array is its original options followed by the option once |
| `NodeRebuildAgain.SharedArrayLeaks` | packages/cli/src/load-nodes-and-credentials.ts:335-397 | with an array shared between a qualifying node and another parameter of a node made into a tool, the second rebuild shows otherwise than the first |
| `NodeRebuildAgain.SharingLoaderGives` | packages/cli/src/load-nodes-and-credentials.ts:340-345 | a loader that gives such nodes |
| `NodeRebuildAgain.StableFromTheSecondRebuild` | packages/cli/src/load-nodes-and-credentials.ts:335-397 | without lookups in between, from the second rebuild on every rebuild shows the same |
| `NodeRebuildLookups.ComesToQualifyExactlyWhen` | packages/cli/src/load-nodes-and-credentials.ts:237-257 | some lookups make a node qualify if and only if it does not, is of the latest version and uses a live credential type with one of the three authorization types as an ancestor |
| `NodeRebuildLookups.LookupsShowNothingNewExactlyWhen` | packages/cli/src/load-nodes-and-credentials.ts:237-285 | a rebuild shows the same nodes after any lookups if and only if each array of a node that may come to qualify has the option already, or gets it through another node and no tool is made of this one |
| `NodeRebuildLookups.RebuildAfterLookupsCompletesExactlyWhen` | packages/cli/src/load-nodes-and-credentials.ts:263-285 | a rebuild completes after all lookups if and only if no node that may come to qualify lacks parameters or has an empty options array to look at |
| `NodeRebuildLookups.SameAfterIs` | packages/cli/src/load-nodes-and-credentials.ts:335-397 | completing and showing the same, as used in the next row, is what the two registries say |
| `NodeRebuildLookups.RebuildingAfterLookupsIsOnceExactlyWhen` | packages/cli/src/load-nodes-and-credentials.ts:335-397 | rebuilding again after any lookups completes and shows the same nodes as once if and only if nothing leaks through a shared array and the nodes that may come to qualify make nothing throw and show nothing new |
| `NodeTools.ToolSupportedExactlyWhen` | packages/cli/src/load-nodes-and-credentials.ts:325-331 | with fresh names a credential supports a tool if and only if it supports its node |
| `NodeTools.ToolsAreKnown` | packages/cli/src/load-nodes-and-credentials.ts:322-323 | a tool is recorded with the data of its node, whose own record stays |
| `NodeTools.ToolsAreAppended` | packages/cli/src/load-nodes-and-credentials.ts:313-322 | every description stays and exactly one tool per usable node follows, in order |
| `NodeTools.OneToolIsRecorded` | packages/cli/src/load-nodes-and-credentials.ts:320-331 | one tool: its name, its record, and the credentials it is appended to, everything else as it was |
| `NodeNames.CollectedAreNamed` | packages/cli/src/load-nodes-and-credentials.ts:340-348 | the j-th node of the i-th loader stands behind those of the loaders before, under the name of the package, a dot and its own |
| `NodeNames.CollectedAreListed` | packages/cli/src/load-nodes-and-credentials.ts:349-357 | the same of the credential types, the nodes that support them named so if the loader is of a package, and dropped otherwise |
| `NodeNames.RebuildGathers` | packages/cli/src/load-nodes-and-credentials.ts:335-397 | after any rebuild the nodes and credential types stand so, and a key is in a table if and only if a loader gives it, with the entry of the last one that does, file, supported nodes and extends list included |
| `LoadNodesAndCredentialsModel.LoadNodesAndCredentials.InjectCustomApiCallOptions` | packages/cli/src/load-nodes-and-credentials.ts:263-285 | the loop over nodes and parameters is the injection function, its exceptions included |
| `LoadNodesAndCredentialsModel.LoadNodesAndCredentials.CreateAiTools` | packages/cli/src/load-nodes-and-credentials.ts:313-333 | one tool is made for each node usable when the loop starts |
| `LoadNodesAndCredentialsModel.LoadNodesAndCredentials.CollectLoaders` | packages/cli/src/load-nodes-and-credentials.ts:336-393 | every node and credential type of the loaders stands in its place under its qualified name; the tables hold what the loaders hold, later loaders winning |
| `LoadNodesAndCredentialsModel.LoadNodesAndCredentials.PostProcessLoaders` | packages/cli/src/load-nodes-and-credentials.ts:335-397 | completes exactly when nothing makes it throw, and then shows the simple form; completed or not, it has gathered what the loaders hold |

## Left out

- ConcurrencyControlModel.ConcurrencyControl.RemoveAll: says nothing about an enabled control, because the only caller disables it first; the cancelling of executions with response promises that would follow is left out for the same reason.
- ActiveWorkflowManagerModel.ActiveWorkflowManager.ClearWebhooks: says only whether clearing succeeds, because what deregistering does, and how far it comes, shows in external services alone; the rows are deleted after it, all at once.
- OverwriteOrders.OrderIsIrrelevantExactlyWhen: leaves out a type that nobody extends and whose own list names several types, or above which no single-parent ancestor up to the first such list is shared. It takes lists of several types to end with another, recognised type than they begin with; EndsDifferWhen says when they do. LookupIsTheNearest says for all types where the order does not matter.
- OverwriteOrders.SettingAgainIsHarmlessExactlyWhen: is stated for types that another one extends; LookupAfterSettingAgain and StoredEntriesStay hold for all.
- ActivationStores.RemovedForGoodExactlyWhen: is stated for removals that clear, deregister and close; Removal says what the others leave.
- NodeTools.ToolSupportedExactlyWhen: requires tool names to be fresh, because a clash makes one name stand for a node and a tool.
- Option arrays are cells of a table indexed by references, and not heap objects; nested options and other nested values of a parameter are one opaque value.
- Overwrites that are not objects, such as a JSON null for a type, and names that clash with properties of every JavaScript object.
- Response promises, attached workflow executions and the status of an execution: plain field updates.
- The cache of webhooks, webhook lookups at request time, and the registration with external services beyond its success.
- Multi-main mode, leader election and publishing: only the sending side is in these files.
- Post-processors of a rebuild, icon and schema paths, hot-reload watching, file loading, normalisation of joined paths.
- Logging, telemetry, error reporting and error workflows.
