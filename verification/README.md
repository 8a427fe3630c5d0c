# A verified model of the Azure operator

The repository is a Kubernetes operator, with a command line beside it, that drives Azure
resources to a declared state. This project models the parts of it where correctness is a
question of interleavings, aliasing or order, and proves what they do.

| File | Models |
|---|---|
| `Finalizers.dfy` | the finalizer helpers |
| `Protocol.dfy`, `Safety.dfy`, `Progress.dfy`, `Passes.dfy`, `Deletions.dfy`, `Convergence.dfy`, `Livelock.dfy` | the reconcilers as a labelled transition system over API server, watch stream and queue, Azure and one worker, and its runs |
| `Controller.dfy` | the two `Reconcile` bodies and the asynchronous client as imperative code; their proofs say that they only ever take steps of that system |
| `ResourceGroups.dfy`, `VirtualNetworks.dfy` | two clients put into the protocol |
| `Subnets.dfy`, `LoadBalancers.dfy`, `Nics.dfy`, `Initialise.dfy` | building payloads in place, with the pointer sharing of the source |
| `SqlServers.dfy`, `SecretSync.dfy`, `SecretBundles.dfy`, `Chains.dfy` | credentials, keys and certificates |
| `Zones.dfy`, `Vms.dfy` | the choice of an availability zone |
| `Subscriptions.dfy`, `EnsureCommand.dfy`, `CommandInCalm.dfy` | clients shared between workers; the verdicts of the command line |
| `Wrappers.dfy` | `Option`, the outcomes of a write, and the storage of a variable whose address is taken |

`dafny verify dfyconfig.toml` checks everything.

## The world of the protocol

One world belongs to one namespaced name and the one Azure resource that its spec identifies.
An action is one call, one delivery, one Azure tick or one act of a user, so every interleaving
of single calls is a run. Any call may fail, and a write may also take effect while its reply is
lost. The controller reads a cache that lags behind the API server by a backlog of versions;
delivering a version queues the object.

Assumed about the environment:

- The identity fields of a spec (name, group, subscription) are not edited; an object and its
  resource belong to each other alone; only this controller touches its finalizer and its resource.
- The API server accepts a write only for the stored resource version, and removes a deleting
  object when its last finalizer goes. A status write that changes nothing makes no new version.
- The cache shows versions in order, and an event is queued once the cache has moved.
- An accepted create or update is what the next GET answers, field by field. A GET that finds a
  resource brings its properties along.
- A cached read of a Kubernetes secret shows it as it is, or as it was at some earlier time.
- `multierror.Append(a, b)` ends in an error iff `a` or `b` is one.
- `ExponentialBackoff` makes at most a fixed number of attempts and stops at the first that says so.
- For convergence only: no user acts, no call fails, an Azure operation succeeds within a number of
  ticks, and before a pass over a resource in progress there is at least one tick, before one over a
  lagging cache at least one delivery (`Convergence.Calm`; without `lagging`, the watch stream has
  caught up before a pass begins).

Interfaces become a `Client` value: what differs between clients is the update check, the overlay
that builds the payload, and, for a synchronous client, whether a nil error from Ensure or Delete
can be trusted. Those two flags are the exact conditions of `Safety.NeverOrphansIff` and
`Progress.NeverLosesWorkIff`. The SQL firewall rule client does not meet the first, because its
Delete drops its error (`pkg/clients/sqlfirewallrules/sqlfirewallrules.go:104-105`); the SQL server
client does not meet the second, because a refused creation is answered with nil
(`pkg/clients/sqlservers/sqlservers.go:130-133`).

## Where the code does not do what it is for

Each of these is modelled as written, with the exact condition under which the intended result holds.

- Virtual networks: the merge can only append, so a declared list that is not an extension of the
  deployed one by distinct new prefixes is never reached, and the controller writes the same payload
  forever (`VirtualNetworks.NetworkConvergesIff`). A nil list is never equal to the empty one that was written.
- A resource parked in a state other than Succeeded or a transitional one is polled forever and never written
  (`Livelock.ConvergesIff`).
- Load balancers: under the loop semantics of Go 1.12 every rule gets the name, frontend, pool and probe
  of the last one, and every frontend the address of the last; the update check dereferences a nil rule list.
- Virtual machines: by the same sharing every secondary interface is the last one (`Vms.AttachedIsDeclaredIff`).
- SQL servers: a Delete that removes the secret and then fails leaves a server whose password is lost
  until the next accepted write, and a cache that still shows a deleted secret brings its password back
  (`SqlServers.OutOfStepIff`); a refused creation and a refused rule removal are reported as success.
- Secret bundles: Ensure writes under the object's name, Delete deletes under the spec's name.
- The Reverse option swaps two certificates; it is a reversal only of chains with a palindromic interior.
- Zones: the zones of location entries that precede the matching one are counted in, and restrictions are
  applied whichever location they are about (`Zones.ChoiceIsOwnIff`, `Zones.ChoiceIsLocalIff`). A SKU is
  rejected for any whole-location restriction, rightly iff one of them is about the location asked for
  (`Zones.RejectionIsRightIff`).
- Command line: an attempt at deleting that fails counts as "not found" and therefore as success; a subnet whose
  GET fails counts as done; four kinds never report a failed attempt because `err` is shadowed.
- Fifteen workers share one SQL server client, which remembers one subscription.

## Model

| member | source | states |
|---|---|---|
| Finalizers.WithoutKeepsOthers | controllers/helpers.go:140-149 | removing a finalizer drops all its occurrences and keeps every other one with its multiplicity |
| Finalizers.WithoutAbsent | controllers/helpers.go:140-149 | removing an absent finalizer leaves the list as it is, order included |
| Finalizers.AddThenRemove | controllers/helpers.go:130-149 | adding and then removing a finalizer cancel out |
| Finalizers.RemoveString | controllers/helpers.go:140-149 | the loop leaves the other strings, in order and with their multiplicity |
| Finalizers.ObjectMeta.HasFinalizer | controllers/helpers.go:91-100 | true exactly for a member |
| Finalizers.ObjectMeta.AddFinalizer | controllers/helpers.go:68-73 | the list gets the finalizer at its end unless it holds it already |
| Finalizers.ObjectMeta.RemoveFinalizer | controllers/helpers.go:85-89 | the list loses exactly that finalizer |
| Safety.StepKeepsSafe | controllers/async_controller.go:62-99 | every single action, of whichever party, keeps the invariant that ties the stored versions, the worker's copy and the resource together |
| Safety.RunIsSafe | controllers/async_controller.go:38-100 | the invariant holds in every world of every run that starts with nothing |
| Safety.NoOrphan | controllers/async_controller.go:62-87 | no orphan: in every interleaving with failing, conflicting and lost calls and a lagging cache, a deployed resource has a stored object with the finalizer, and Ensure's calls are made only then |
| Safety.FinalizerDroppedOnlyAfterNotFound | controllers/async_controller.go:69-87 | the finalizer leaves the stored object only by the worker's release, after the same pass sent DELETE and then a GET that said 404, and nothing is deployed from that GET on |
| Safety.PolledBefore | pkg/clients/resourcegroups/resourcegroups.go:92-112 | a worker that believes the resource gone has seen the 404, and the resource stayed absent since |
| Safety.RemovedBefore | pkg/clients/resourcegroups/resourcegroups.go:97-105 | a worker that sends this GET has sent DELETE before, in the same pass |
| Safety.OnlyReleaseDrops | controllers/async_controller.go:78-82 | no other action takes the finalizer off, and that one only over an absent resource |
| Safety.WorkerWritesOnlyItsOwn | controllers/async_controller.go:62-99 | no step of the worker changes the spec, the deletion mark or a foreign finalizer, and an object vanishes only when it was deleting and ours was the last finalizer |
| Safety.DishonestDeleteOrphans | pkg/clients/sqlfirewallrules/sqlfirewallrules.go:99-107 | the run in which a synchronous Delete that hides its error orphans the resource |
| Safety.NeverOrphansIff | controllers/sync_controller.go:62-82 | a client never orphans a resource, in any run, iff it is asynchronous or its Delete returns nil only when the resource is absent |
| Progress.StepKeepsWorking | controllers/async_controller.go:62-99 | every action keeps the account of outstanding work: queued, on its way, in hand, or settled |
| Progress.NoLostWork | controllers/async_controller.go:62-99 | in every reachable state with nothing queued, in hand or on its way, the object is gone, or released, or deployed as declared, and then an asynchronous client's stored status says Succeeded; and a pass that returns no error and no requeue leaves an event or a settled object behind |
| Progress.DishonestEnsureForgets | pkg/clients/sqlservers/sqlservers.go:128-133 | the run in which a synchronous Ensure that hides an error leaves the object undeployed with nothing queued |
| Progress.NeverLosesWorkIff | controllers/sync_controller.go:83-95 | a client never loses work, in any run, iff it is asynchronous or its Ensure returns nil only when the resource is as declared |
| Progress.FailedPassIsRepeated | controllers/async_controller.go:68-99 | the controller is safe for a (true, err) as the subnet client returns it: after a failed call, whatever else it answered, the pass touches neither resource nor finalizer and the object is queued again |
| Passes.PassResult | controllers/async_controller.go:48-99 | in any interleaving, a pass reports an error iff one of its calls failed or its deletion still found the resource, and asks for a requeue iff its Ensure looked and the resource was not yet as declared |
| Deletions.StepKeepsCareful | controllers/async_controller.go:62-99 | every action keeps the invariant on undelivered versions: deployed means owned in all of them, and a deletion mark is for good |
| Deletions.DeletesOnlyMarked | controllers/async_controller.go:67-70 | no DELETE for a declared resource: in every interleaving, with a lagging cache and objects re-created under the same name, a DELETE that finds the resource finds its object stored, owned and marked for deletion |
| Convergence.QuietStepsAreSteps | controllers/async_controller.go:38-100 | the steps that the convergence theorem counts are steps of the protocol, after a tick or a delivery where they begin a pass |
| Convergence.QuietKeepsConvergent | controllers/async_controller.go:62-99 | without edits and failures every step keeps the resource repairable |
| Convergence.QuietDrops | controllers/async_controller.go:62-99 | and lowers a measure of missing finalizer, remaining ticks, pending update, lag of the cache, undelivered events and position in the pass |
| Convergence.NextQuietIsEnabled | controllers/async_controller.go:38-100 | short of rest the worker or the watch stream can always move |
| Convergence.RestIsAccomplished | controllers/async_controller.go:62-99 | at rest a declared object is owned and its resource as declared; a deleted one has neither resource nor finalizer |
| Convergence.QuietRunsConverge | controllers/async_controller.go:62-99 | every quiet run, however scheduled, is at most as long as the measure, and where it cannot go on what the user declared is accomplished |
| Convergence.RestIsReachable | controllers/async_controller.go:62-99 | the worker's own next calls lead to rest within the measure |
| Convergence.MeasureBound | controllers/async_controller.go:62-99 | the bound in figures: a product of two terms, linear in the longest operation and the undelivered events |
| Convergence.ConvergentConverges | controllers/async_controller.go:62-99 | from a convergent state every quiet run is within the bound and ends only where the declaration of its start is accomplished, and there is one that gets there |
| Convergence.ReachableConverges | controllers/async_controller.go:62-99 | for a client that one accepted write satisfies, every reachable world converges in that sense, in the middle of a pass or not, unless its resource is parked |
| Convergence.DeletionConverges | controllers/async_controller.go:67-87 | for any asynchronous client whatever, parked and livelocked resources included, a deleted object converges to an absent resource without our finalizer |
| Livelock.StepKeepsPinned | controllers/async_controller.go:62-99 | while users do nothing the worker keeps acting for the one declared spec, with or without the finalizer |
| Livelock.HopelessNeverSettles | controllers/async_controller.go:62-99 | if every write leads to another body that asks for an update, no run without user actions ever settles or rests, from the creation of the object on |
| Livelock.HopelessNeverConverges | controllers/async_controller.go:62-99 | nor does it converge when failures cease |
| Livelock.ParkedForever | pkg/clients/resourcegroups/resourcegroups.go:68-88 | a resource parked in a failed state is never written again while its object stays declared, whatever it declares, each look answers (false, nil), and the controller never rests |
| Livelock.ParkedNeverConverges | pkg/clients/resourcegroups/resourcegroups.go:68-88 | nor does it converge when failures cease |
| Livelock.ConvergesIff | controllers/async_controller.go:62-99 | for a client that one accepted write satisfies, a reachable world converges iff it is not parked |
| Convergence.ContinueQuietly | controllers/async_controller.go:38-100 | a quiet run continues any run of the protocol, so that the safety theorems hold along it |
| Controller.Environment.Get | controllers/async_controller.go:48-51 | the fetched copy is what the cache shows; an absent object ends the pass without an error |
| Controller.Environment.Authorise | controllers/async_controller.go:53-55 | authorisation ends the pass or leads to the branch on deletion mark and finalizer |
| Controller.Environment.Update | controllers/async_controller.go:66 | without an error the stored object has the copy's spec and finalizers, or is gone because none was left; the pass ends with the error |
| Controller.Environment.StatusUpdate | controllers/async_controller.go:71-82 | without an error the stored status is the copy's and the copy is current again; the pass goes on to release the finalizer only after a deletion without errors that found nothing |
| Controller.Environment.GetResource | pkg/clients/resourcegroups/resourcegroups.go:61-66 | the answer of GET and the status and branch that follow from it |
| Controller.Environment.DeleteResource | pkg/clients/resourcegroups/resourcegroups.go:97-104 | only a refusal other than 404 and 409 ends the deletion with an error |
| Controller.AsyncClient.SetStatus | pkg/clients/resourcegroups/resourcegroups.go:115-120 | the id follows the response, the state only a response with properties |
| Controller.AsyncClient.Ensure | pkg/clients/resourcegroups/resourcegroups.go:55-89 | the body takes exactly the protocol's path from GET to done, waiting or a write, with its two answers |
| Controller.AsyncClient.Delete | pkg/clients/resourcegroups/resourcegroups.go:92-112 | the body deletes, polls, and answers as the protocol says |
| Controller.FinalizeAsync | controllers/async_controller.go:68-84 | the deleting half takes steps of the protocol only and ends the pass with its error |
| Controller.ActAsync | controllers/async_controller.go:62-99 | from the authorised client on, the body refines the protocol; err holds iff one of its calls failed or a deletion still found the resource, requeue iff Ensure looked and was not done |
| Controller.ReconcileAsync | controllers/async_controller.go:38-100 | a whole pass is a run of the protocol, whatever the rest of the world does between its calls, and reports an error and a requeue under the same two conditions |
| Controller.FinalizeSync | controllers/sync_controller.go:71-81 | the same for the deleting half of the synchronous reconciler |
| Controller.ActSync | controllers/sync_controller.go:62-95 | the synchronous body from the authorised client on: protocol steps only, and an error iff one of its calls failed or a deletion still found the resource |
| Controller.ReconcileSync | controllers/sync_controller.go:40-95 | the same for a whole pass of it |
| Controller.WorkAsync | controllers/async_controller.go:38-100 | over any number of turns of the imperative worker no resource is ever orphaned, and whenever it rests the object is settled |
| Controller.WorkSync | controllers/sync_controller.go:40-95 | the same for a synchronous worker, each half under the honesty it needs |
| ResourceGroups.BuildPayload | pkg/clients/resourcegroups/resourcegroups.go:71-88 | the payload has the declared name and location and the tags of what was found, needs no further update, and changes nothing if nothing was needed |
| ResourceGroups.GroupsAlwaysRepair | pkg/clients/resourcegroups/spec.go:30-57 | after Set, NeedsUpdate is false, whatever was deployed |
| ResourceGroups.GroupAtRest | pkg/clients/resourcegroups/resourcegroups.go:55-89 | a resource-group controller at rest, after any run, has an object that is gone, released, or Succeeded with the declared name and location |
| ResourceGroups.GroupConvergesIff | pkg/clients/resourcegroups/resourcegroups.go:55-112 | every reachable world converges, within the computed number of quiet steps, to the group as declared, or to nothing without the finalizer, iff the group of a declared object is not parked |
| VirtualNetworks.MergeShape | pkg/clients/virtualnetworks/spec.go:69-82 | the merge keeps what is deployed as a prefix, appends distinct new prefixes only, and its elements are the union |
| VirtualNetworks.MergeIdempotent | pkg/clients/virtualnetworks/spec.go:69-82 | merging twice is merging once |
| VirtualNetworks.MergeIsWantedIff | pkg/clients/virtualnetworks/spec.go:69-82 | the merge yields the desired list iff that list extends the deployed one by distinct new prefixes |
| VirtualNetworks.MergeSplits | pkg/clients/virtualnetworks/spec.go:69-82 | merging a concatenation is merging its parts in turn |
| VirtualNetworks.Spec.InitializePrefixes | pkg/clients/virtualnetworks/spec.go:55-68 | every level down to the list is there, and a spec that had them all is unchanged |
| VirtualNetworks.Spec.AddressSpaces | pkg/clients/virtualnetworks/spec.go:53-84 | the nested loops merge the list into the deployed prefixes; name, location and subnets stay |
| VirtualNetworks.Spec.AddressSpace | pkg/clients/virtualnetworks/spec.go:86-113 | inserts one prefix unless it is there; name, location and subnets stay |
| VirtualNetworks.OneByOneIsMergeIff | pkg/clients/virtualnetworks/spec.go:53-113 | the list form equals the one-by-one form iff the list is not empty or the levels were present |
| VirtualNetworks.BuildPayload | pkg/clients/virtualnetworks/virtualnetworks.go:68-90 | the payload has the declared name and location, the merged prefixes, and the subnets of what was found |
| VirtualNetworks.DoneAfterWriteIff | pkg/clients/virtualnetworks/spec.go:175-182 | after one accepted write Ensure becomes done iff the desired list is not nil and extends the deployed one; the next payload is the same in any case |
| VirtualNetworks.DoneMeansReachable | pkg/clients/virtualnetworks/spec.go:175-182 | a network that needs no update would be left as it is by a write |
| VirtualNetworks.DeployedIsDistinct | pkg/clients/virtualnetworks/spec.go:69-82 | in every run, what is deployed has no prefix twice |
| VirtualNetworks.NetworkLivelock | pkg/clients/virtualnetworks/virtualnetworks.go:56-92 | if the desired list does not extend what the next write starts from, no run without user actions ever settles or rests, finalizer or not, and what is deployed is the old body or one single payload |
| VirtualNetworks.NetworkConvergesIff | pkg/clients/virtualnetworks/virtualnetworks.go:56-123 | from a new object's first pass to a deleted one's last, a network converges, to exactly the declared list or to nothing, iff nothing is declared any more, or it is not parked and the list extends what the next write starts from |
| VirtualNetworks.DuplicateNeverSettles | pkg/clients/virtualnetworks/spec.go:69-82 | a failing input: an object created with a duplicate prefix is never settled and never at rest |
| Subnets.UpsertUpdatesTable | pkg/clients/virtualnetworks/spec.go:140-173 | one upsert is one map update, keeps names distinct and in order of insertion, and changes no other subnet |
| Subnets.UpsertsRefineUpdates | pkg/clients/virtualnetworks/spec.go:140-173 | any sequence of upserts abstracts to the same sequence of map updates |
| Subnets.TableHolds | pkg/clients/virtualnetworks/spec.go:203-212 | with distinct names the map holds every subnet of the list |
| Subnets.SubnetList.Upsert | pkg/clients/virtualnetworks/spec.go:153-171 | on any list, the subnets that share their properties with one of the name get the prefix, and one is appended iff there is none |
| Subnets.SubnetList.UpsertUnshared | pkg/clients/virtualnetworks/spec.go:140-173 | without shared properties the heap operation is the upsert of the table |
| Subnets.SubnetList.UpsertAll | pkg/clients/virtualnetworks/spec.go:140-173 | and any sequence of calls refines the sequence of map updates |
| Subnets.SubnetList.Prefixes | pkg/clients/virtualnetworks/spec.go:203-212 | the getter lists the prefixes in list order |
| Initialise.SafeOrderIff | pkg/clients/clientutil/clientutil.go:28-34 | of all arrangements of detector and remediator pairs, index order is the only one that never looks into a missing level, from whatever state |
| Initialise.InOrder | pkg/clients/clientutil/clientutil.go:28-34 | index order ends with every level present and no level more |
| Initialise.Initialize | pkg/clients/clientutil/clientutil.go:28-34 | never follows a missing level, keeps every level that was there and its fields, and adds empty ones below |
| Initialise.InitializeAll | pkg/clients/virtualnetworks/spec.go:55-68 | for any depth all levels are present afterwards, and nothing changes if they were before |
| LoadBalancers.Spec.SetRules | pkg/clients/loadbalancers/spec.go:115-140 | with one shared loop variable, rule i ends with its own ports and protocol and the last rule's name and references |
| LoadBalancers.Spec.GetRules | pkg/clients/loadbalancers/spec.go:166-184 | reads back what the pointers lead to, index by index |
| LoadBalancers.RoundTrip | pkg/clients/loadbalancers/spec.go:115-184 | getter after setter is the identity iff all rules agree with the last on the four aliased fields, in particular for at most one rule |
| LoadBalancers.AliasedIsIdentityIff | pkg/clients/loadbalancers/spec.go:115-140 | the same condition for the lists as values |
| LoadBalancers.NeedsUpdateIff | pkg/clients/loadbalancers/spec.go:142-156 | no update is needed iff name, location and rules agree; the question panics iff the first two agree and one side has no rules |
| LoadBalancers.Written | pkg/clients/loadbalancers/spec.go:142-156 | after an accepted write the update check panics iff no rules are declared, and is satisfied iff they are uniform |
| LoadBalancers.LastSegmentIs | pkg/clients/loadbalancers/spec.go:67-69 | a frontend is named by what follows the last slash of its address |
| LoadBalancers.Frontends | pkg/clients/loadbalancers/spec.go:62-83 | every frontend has its own name but the last address; all addresses are right iff all are equal |
| Nics.ItoaRoundTrip | pkg/clients/nics/nics.go:105-106 | decimal printing of an index can be read back |
| Nics.ConfigNamesDiffer | pkg/clients/nics/nics.go:105-106 | different indices give different configuration names |
| Nics.PoolPathReadsBack | pkg/clients/nics/nics.go:190-199 | a pool's path names, in this order, its subscription, group, load balancer and pool |
| Nics.PoolPathsDiffer | pkg/clients/nics/nics.go:190-199 | different pools with plain names have different paths |
| Nics.SubnetPathReadsBack | pkg/clients/nics/nics.go:85-86 | the subnet's path names the subscription, group, network and subnet of the interface |
| Nics.PublicIPPathReadsBack | pkg/clients/nics/nics.go:180-185 | a public address is one of the interface's own subscription and group |
| Nics.BuildIPConfig | pkg/clients/nics/nics.go:170-208 | the configuration carries the wanted addresses, pools and subnet, and is static iff a private address was given |
| Nics.Build | pkg/clients/nics/nics.go:78-117 | the location and one configuration per declared one, names pairwise distinct, exactly the first primary; an empty list is refused, and without a list none is sent |
| SqlServers.Client.EnsureSecret | pkg/clients/sqlservers/sqlservers.go:148-187 | never replaces a stored credential; what it returns is what the read showed, possibly out of date, or a new one whose creation was confirmed |
| SqlServers.Client.EnsureRule | pkg/clients/sqlservers/sqlservers.go:189-229 | the rule follows the declaration when the call takes effect; a removal never reports failure |
| SqlServers.Client.Ensure | pkg/clients/sqlservers/sqlservers.go:68-146 | the state of both stores after each pattern of failures, and exactly when the error is nil; with the rule declared, nil means that it is on unless the creation of the server was refused |
| SqlServers.Client.Delete | pkg/clients/sqlservers/sqlservers.go:241-268 | secret first, server only after it, and exactly when the error is nil |
| SqlServers.EnsuresStayInStep | pkg/clients/sqlservers/sqlservers.go:68-187 | in every run of Ensures with arbitrary failures and a lagging cache a server exists only with its secret, the two agree, and an existing secret never changes |
| SqlServers.AcceptedWriteRestoresIff | pkg/clients/sqlservers/sqlservers.go:100-138 | from any state an Ensure whose remote write is accepted keeps an existing secret, and brings server and secret into agreement iff its cache did not show a secret that is gone or replaced |
| SqlServers.OutOfStepIff | pkg/clients/sqlservers/sqlservers.go:68-268 | in any run of Ensures and Deletes the two disagree iff some Delete took the secret and left the server, or some Ensure wrote a stale credential, and nothing since has mended it |
| SqlServers.TornRun | pkg/clients/sqlservers/sqlservers.go:241-268 | a run in which a Delete does that |
| SqlServers.StaleRun | pkg/clients/sqlservers/sqlservers.go:163-187 | a run in which no call fails and a stale read does it |
| SqlServers.EnsureNilMeansServerIff | pkg/clients/sqlservers/sqlservers.go:114-138 | nil from Ensure means a server with the secret's credential, exactly unless it was absent and its creation refused or the credential was stale |
| SqlServers.DeleteNilMeansGone | pkg/clients/sqlservers/sqlservers.go:254-268 | nil from Delete means that secret and server are gone |
| SqlServers.EnsureNilMeansRuleIff | pkg/clients/sqlservers/sqlservers.go:128-146 | nil from Ensure means that the rule is as declared iff it was so before, or the creation was not refused and the rule's own call took effect |
| SqlServers.EnsureErrsIff | pkg/clients/sqlservers/sqlservers.go:68-146 | Ensure reports every failure it meets, except the refused creation of an absent server, which ends it, and the refused removal of the rule |
| SqlServers.EnsureNilMeansRuleOn | pkg/clients/sqlservers/sqlservers.go:209-221 | with the rule declared, nil means that it is on, unless it was off and the creation of the server was refused |
| SqlServers.EnsureWorks | pkg/clients/sqlservers/sqlservers.go:68-146 | if every call works the error is nil, and server, secret and rule are as declared |
| SqlServers.DeleteErrsIff | pkg/clients/sqlservers/sqlservers.go:241-268 | Delete reports every failure, and touches nothing if the secret cannot be deleted |
| SqlServers.RuleNotAsDeclared | pkg/clients/sqlservers/sqlservers.go:128-146 | the two inputs for which it is not: a swallowed refusal of the server, and of the removal |
| SecretSync.SyncTouchesOnlyItsNames | pkg/clients/rediskeys/rediskeys.go:86-116 | a sync stores exactly its named keys, each with the listed value of the last slot of that name, keeps every other key of the secret with its value, is idempotent, and writes nothing when a requested key is missing |
| SecretSync.OverlayValue | pkg/clients/servicebuskey/servicebuskey.go:105-153 | of several slots with one name the last one wins |
| SecretSync.OverlayKeys | pkg/clients/servicebuskey/servicebuskey.go:105-153 | the overlay has exactly the requested names |
| SecretSync.TargetSecret.Set | pkg/clients/rediskeys/rediskeys.go:98-104 | sets one named key, or reports that its value is missing |
| SecretSync.TwoStored | pkg/clients/rediskeys/rediskeys.go:98-113 | the secondary key is stored under the secondary name, the primary key under the primary name unless both names are equal, and nothing else changes |
| SecretSync.FourStored | pkg/clients/servicebuskey/servicebuskey.go:114-148 | each of the four keys is stored under its own name unless a later one has the same name, and nothing else changes |
| SecretSync.SecretStore.EnsureRedisKeys | pkg/clients/rediskeys/rediskeys.go:64-119 | which listed key ends under which name, that all else is kept, and exactly when it succeeds |
| SecretSync.SecretStore.EnsureServiceBusKeys | pkg/clients/servicebuskey/servicebuskey.go:87-157 | the same for four keys |
| SecretSync.OrderIndependent | pkg/clients/servicebuskey/servicebuskey.go:105-153 | any two orders, with any repetitions, of syncs that agree where they overlap leave the same secret |
| SecretSync.DisjointSyncsPermute | pkg/clients/rediskeys/rediskeys.go:86-116 | in particular every permutation of syncs with disjoint names |
| SecretSync.CommuteIff | pkg/clients/rediskeys/rediskeys.go:86-116 | two syncs commute on every secret iff one of them does not write or they agree on common keys |
| SecretBundles.ResolveByKind | pkg/clients/secretbundles/secretbundles.go:81-111 | which client and which codec each kind of item goes through; any other kind is an error |
| SecretBundles.Collect | pkg/clients/secretbundles/secretbundles.go:76-113 | in whatever order the map yields its items, all are resolved or the whole bundle fails |
| SecretBundles.Overlay | pkg/clients/secretbundles/secretbundles.go:128-134 | in whatever order, the old data overlaid with every collected item |
| SecretBundles.Namespace.Ensure | pkg/clients/secretbundles/secretbundles.go:70-146 | all or nothing: on any failure the namespace's secrets are unchanged, otherwise one holds every resolved item, and its other keys and all other secrets are as before |
| SecretBundles.Namespace.Delete | pkg/clients/secretbundles/secretbundles.go:149-161 | removes the secret of the spec's name only |
| SecretBundles.EnsureThenDelete | pkg/clients/secretbundles/secretbundles.go:115-161 | Delete undoes Ensure iff the object's name is the spec's name |
| Chains.SwapEnds | pkg/clients/tlssecrets/tlssecret.go:90-92 | leaf and last certificate change places in the array, all others stay, and nothing is lost |
| Chains.ReverseInPlace | pkg/clients/tlssecrets/tlssecret.go:219-223 | the loop reverses the array |
| Chains.SwapPermutes | pkg/clients/secretbundles/secretbundles.go:248-250 | the option is a permutation |
| Chains.SwapIsInvolution | pkg/clients/secretbundles/secretbundles.go:248-250 | and its own inverse |
| Chains.SwapReversesIff | pkg/clients/tlssecrets/tlssecret.go:90-92 | it equals the full reversal iff the interior of the chain is a palindrome, always with up to two CA certificates |
| Zones.ListingIsUnique | pkg/clients/zones/zones.go:79-85 | a set has only one strictly sorted listing |
| Zones.LessIff | pkg/clients/zones/zones.go:84 | the order is that of the first difference, a prefix coming first |
| Zones.LessTotal | pkg/clients/zones/zones.go:84 | it is irreflexive, asymmetric and total |
| Zones.LessTransitive | pkg/clients/zones/zones.go:84 | and transitive |
| Zones.Sort | pkg/clients/zones/zones.go:84 | strictly sorted, with the same members |
| Zones.Restrict | pkg/clients/zones/zones.go:68-77 | all restricted zones are taken out; any whole-location restriction rejects |
| Zones.Listing | pkg/clients/zones/zones.go:79-85 | the sorted listing of the set, whatever order the map is iterated in |
| Zones.ZonesOfSku | pkg/clients/zones/zones.go:60-88 | for one matching entry: the zones of its locations up to the last matching one, minus all restricted zones; rejected iff it matches and is barred |
| Zones.EqualFoldIff | pkg/clients/zones/zones.go:60-67 | names and locations are compared position by position up to the case of ASCII letters |
| Zones.Get | pkg/clients/zones/zones.go:51-96 | rejected iff an entry that is yielded counts and is barred; broken iff not rejected and the listing fails; otherwise the choice of the last entry that counts, or nothing if none does |
| Zones.AnswersAreUnique | pkg/clients/zones/zones.go:51-96 | the answer is determined by the listing |
| Zones.SingleLocationChoice | pkg/clients/zones/zones.go:63-87 | for an entry with a single location the choice is that location's unrestricted zones |
| Zones.ChoiceIsOwnIff | pkg/clients/zones/zones.go:62-87 | the choice is the location's own unrestricted zones iff every zone of an earlier entry is one of its own or restricted |
| Zones.ChoiceIsLocalIff | pkg/clients/zones/zones.go:62-87 | it is what is offered and unrestricted at the location itself iff, besides, no own zone is restricted only elsewhere |
| Zones.TwoRegions | pkg/clients/zones/zones.go:62-77 | inputs in which a zone is counted in, and one taken out, for another region |
| Zones.RejectionIsRightIff | pkg/clients/zones/zones.go:68-72 | a SKU barred at the location is always rejected, and a rejection is right iff one that counts is barred there |
| Zones.RejectedElsewhere | pkg/clients/zones/zones.go:68-72 | an input that is rejected although only another region bars the SKU |
| Zones.ChoiceIsUnique | pkg/clients/zones/zones.go:80-85 | the choice is a function of the entry, not of the iteration order |
| Vms.VmClient.Ensure | pkg/clients/vms/vms.go:62-113 | done iff found, Succeeded and of the declared name and SKU; err iff the lookup broke, or a zone had to be looked up and the listing rejected or broke; a payload is sent iff neither done, waiting nor in error, and has the declared fields and, with no declared or assigned zone, a zone of the listing's choice |
| Vms.References | pkg/clients/vms/spec.go:124-160 | the pointers for the secondary interfaces share the loop variable: each leads to the last one |
| Vms.AttachedIsDeclaredIff | pkg/clients/vms/spec.go:124-160 | the machine gets the declared interfaces iff all secondary ones are equal, in particular with at most one |
| Vms.Play | pkg/clients/vms/vms.go:62-113 | every Ensure that finds the machine is a round of the kind the next lemmas speak of |
| Vms.ZoneStep | pkg/clients/vms/vms.go:89-100 | without a declared zone one round keeps an assigned zone or assigns an offered, unrestricted one |
| Vms.ZoneAssignedIff | pkg/clients/vms/vms.go:92-99 | an accepted payload gives a machine without a zone one of the listing's choice iff that choice is not empty |
| Vms.AssignedZoneStays | pkg/clients/vms/vms.go:74-111 | across any number of rounds an assigned zone is never changed, nor a different one sent |
| Vms.ChosenZoneWasOffered | pkg/clients/vms/vms.go:92-99 | a self-chosen zone was offered in the round that chose it, and stays from then on |
| Subscriptions.StepKeepsIsolated | pkg/clients/resourcegroups/resourcegroups.go:45-52 | with a client of its own, or one subscription in all, a worker's client points at the object in hand after every step |
| Subscriptions.RunIsIsolated | controllers/async_controller.go:53-87 | so every call of every interleaving reaches the right subscription |
| Subscriptions.SharedClientMixesUp | pkg/clients/sqlservers/sqlservers.go:58-65 | two workers on one client: a start by the second, whether or not it is then authorised, sends the first one's next call to the wrong subscription |
| Subscriptions.IsolationIff | pkg/clients/resourcegroups/resourcegroups.go:45-52 | isolation in all interleavings iff no two workers share a client or there is one subscription |
| Subscriptions.ControllerIsolatedIff | controllers/sqlserver_controller.go:28-33 | a controller is isolated iff it has at most one worker or one subscription |
| Subscriptions.CommandIsIsolated | cmd/ensure/ensure.go:236-243 | the command line is isolated for any number of tasks |
| EnsureCommand.Backoff | cmd/ensure/ensure.go:578-586 | the first attempt that stops or fails decides, otherwise it times out |
| EnsureCommand.EnsureAsync | cmd/ensure/ensure.go:484-504 | nil iff authorised and some attempt said done, whatever its error |
| EnsureCommand.DeleteAsync | cmd/ensure/ensure.go:506-526 | nil iff authorised and some attempt said not found, whatever its error |
| EnsureCommand.RetrySync | cmd/ensure/ensure.go:434-482 | nil iff authorised and some attempt had no error |
| EnsureCommand.EnsureAnswerIsProtocol | pkg/clients/resourcegroups/resourcegroups.go:55-89 | the answers that the verdicts are about are those of the protocol |
| EnsureCommand.DeleteAnswerIsProtocol | pkg/clients/resourcegroups/resourcegroups.go:92-112 | and so are those of a deletion, from its DELETE and its GET |
| EnsureCommand.EnsureConverges | cmd/ensure/ensure.go:484-504 | for resource groups and networks nil means that the resource was as declared, and a matching resource gives nil |
| EnsureCommand.EnsureSubnet | pkg/clients/subnets/subnets.go:61-66 | for subnets nil means that, exactly unless the deciding GET failed; a failing first GET gives nil |
| EnsureCommand.DeleteConverges | pkg/clients/resourcegroups/resourcegroups.go:97-111 | nil from a deletion means that the resource was gone, exactly unless the deciding DELETE was refused; a refused first DELETE gives nil |
| CommandInCalm.AttemptedIsProtocol | pkg/clients/resourcegroups/resourcegroups.go:55-89 | what an attempt does to the resource is what the protocol's GET and PUT do |
| CommandInCalm.SomeAttemptMatches | cmd/ensure/ensure.go:484-504 | against a calm Azure, enough attempts bring any repairable resource to what is declared |
| CommandInCalm.NoAttemptMatches | cmd/ensure/ensure.go:484-504 | and no number of attempts a hopeless one |
| CommandInCalm.EnsureGroup | cmd/ensure/ensure.go:305-306 | with enough attempts the verdict on a resource group is nil iff authorised and the group is not parked |
| CommandInCalm.EnsureNetwork | cmd/ensure/ensure.go:346-347 | and on a network iff, besides, the declared list extends what is deployed |
| CommandInCalm.DeleteInCalm | cmd/ensure/ensure.go:506-526 | with enough attempts a deletion that is authorised gets nil, and the resource is gone by then |
| EnsureCommand.CountErrors | cmd/ensure/ensure.go:248-265 | despite the break at ten, failure is reported iff some task failed |
| EnsureCommand.PropagatingKinds | cmd/ensure/ensure.go:280-424 | the kinds whose failures reach the exit code, one by one, for ensuring and for deleting |
| EnsureCommand.EnsureOne | cmd/ensure/ensure.go:268-361 | an object fails iff there is no kubeclient or its kind propagates errors and its operation failed |
| EnsureCommand.DeleteOne | cmd/ensure/ensure.go:363-432 | the same for deletion, which is a no-op for three more kinds |
| EnsureCommand.Do | cmd/ensure/ensure.go:232-266 | the exit code is non-zero iff some object whose kind propagates errors failed, for any object list |

## Left out

- Azure SDK, autorest, HTTP and authorisation: a call is a nondeterministic outcome over the modelled state.
- controller-runtime, the work queue and `CreateOrUpdate` internals: the short contracts listed above.
- Codecs (PKCS#12, X.509, PEM, hex, base64): parameters of the bundle model; certificates are opaque.
- `strings.EqualFold` beyond ASCII, and string order beyond one code unit at a time.
- Generated code, manifests, flag and YAML parsing, logging, events and debug dumps, except the one dump that panics.
- Owner references: what Kubernetes garbage-collects when an object goes, and the errors of setting a reference.
- Edits of identity fields: they would point the object at another resource and leave the first one behind.
- The client interfaces are values and not Dafny traits; dynamic dispatch is not modelled.
- `RemoveAddressSpace`, which has no caller and does not remove the element.
- The Redis, Service Bus and load-balancer clients in the protocol: their update or done checks do not decide whether the resource is as declared.
- Load-balancer backends and probes: they repeat the aliasing of the frontends.
- Disk deletion after a VM is gone: one name is deleted and another polled.
- The zone client of the VM client is never authorised for a subscription (`pkg/clients/vms/vms.go:52-59`); its listing is a parameter here.
- The image, disk and administrator settings of a new VM: constants that Ensure never looks at again.
- Random passwords: arbitrary values of the caller, of which only `SqlServers.OutOfStepIff` asks that they differ from earlier ones; that they are unpredictable is not a statement of the model.
- Deleting a key declaration: it deletes the whole shared secret, including the keys of other declarations.
- Concurrent syncs: each sync of a shared secret is one atomic read-modify-write, and a conflict is a refused write.
- How the task pool schedules its tasks: the verdict depends only on their errors.
- The clients of the Secret kind on the command line go on with a nil client after a failed construction (`cmd/ensure/ensure.go:307-316`).
- The Reverse option with no CA certificate indexes an empty slice.
- Nil pointers inside responses: a response that finds a resource carries the fields the code dereferences.
- Traffic managers, public IPs, security groups, identities, key vaults and storage: repeated shapes or field copying.
- VirtualNetworks.NetworkConvergesIff: asks of a declared network that no pass for another list is under way or, where passes may begin over a lagging cache, can still begin, because its write may still change what is deployed.
- Periodic resyncs during convergence: each only starts one more pass over a settled object.
- Clients that clear the status state on 404, such as the network interface client: the modelled clients keep it, as resource groups and networks do.
