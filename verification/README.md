# Kubezun, verified

A model of the parts of kubezun that decide something: what a NetworkPolicy
becomes in Neutron and how it is kept there, how storage grows and is made, which
capsule is a pod's, where an Ingress request goes, and four small pieces - the
log-follow cursor, the shell quoting, the security-group conversion and the CPU
rates. `dafny verify dfyconfig.toml` checks all of it.

Code that works step by step is a class or a method with loops, each proved
against a function that says what it computes; the properties are then proved
about that function. The remote services are classes too: `Neutron`
(NeutronClient.dfy), `Storage` (Expansion.dfy) and `Listener` (RoutingSync.dfy).
Every call to one may work, fail without effect, or fail after taking effect, as a
list of faults decides, and each class keeps the trace of every state it has been
in, so "at every step" is a statement about the trace.

## How it is laid out

- Policies. `NetworkPolicy` gives the data and what Kubernetes says they mean;
  `Translate`, `Peers`, `RuleSet` are the compiler and `TranslationMeaning`,
  `RuleSetMeaning` what it preserves; `Groups` and `Composition` put the groups of
  a pod together.
- Neutron. `NeutronStore` is the store and its answers; `RulePass` one pass over a
  group's rules as a function; `NeutronClient`, `RuleSync`, `Baseline`,
  `AddressSync`, `Sweep` the calls; `NeutronMeaning` what stored rules let through.
- The protocol. `PolicySync`, `Preparation`, `PolicyFacts`, `PolicyPass` are one
  pass of the policy worker; `Protocol` the invariant; `Controller` the two workers
  and the sweep, in any order; `Settling` what holds once edits stop; `Startup` how
  a controller starts.
- `Interleaving`, `InterleavingSafety`, `InterleavingRuns`: the same workers with
  every call a step, and what every interleaving keeps; `PassAlone`: that a worker
  left to itself gets to the end of its pass, sweep or pod.
- `Events`, `Draining`: what queues work for the workers, and what each port is worth
  when both queues are empty.
- `Freshness`, `FreshWork`, `FreshCalls`, `FreshRules`, `FreshProgress`, `Aging`,
  `AgingRuns`, `FreshRuns`, `FreshSteps`, `SettlingAnyhow`: that every interleaving,
  from any safe state, is right in the end about each port given, or found with, a
  list worked out after its policies had been passed over twice by passes begun two
  generations of work after the last edit.
- `Conversion`, `ConversionReach`, `ConversionRuns`: the two-phase conversion.
- `Expansion`, `ExpansionPass`, `Provisioning`: volumes.
- `Capsules`, `PodSync`: capsules and the status cycle.
- `Routing`, `RoutingMeaning`: the Ingress compiler, judged by what Kubernetes means
  by hosts and paths; `RoutingWinner` which path of the manifest wins a request;
  `RoutingSync`, `RoutingServed` its convergence and what the listener then answers.
- `LogCursor`, `LogFollow`, `ShellQuote`, `Rates`.
- `Wrappers`, `Faults`, `Text`, `Ordering`: options, failing calls, strings, the sort.

## What is taken as given

- `Env` stands for the Kubernetes and network libraries. `Faithful` says what is
  asked of them: selectors that render alike match alike, no rendering holds `;` or
  is the word `all` (which the code uses for a missing pod selector), a CIDR only
  holds addresses of its family, and the two whole-space CIDRs hold all of theirs.
  `HostRoutes` adds that a one-address CIDR holds that address only. That all of it
  can be had at once is `Startup.LibrariesCanBeHad`.
- Policies are ones the API server accepts (`ValidPolicy`): ports 1 to 65535,
  `endPort` only with `port`. A Namespace lister is supplied.
- Group names are a prefix and a digest; the digest is taken to tell texts apart.
- Service names hold neither `_` nor `|`, and a port name a letter, as the API server
  has them (`RoutingWinner.PlainService`).
- Neutron stores addresses in the form `normalizeCIDR` gives them, and starts with
  at most one security group per name used here; that it stays so is proved. Of
  address groups there may be two to a name.
- A pod's port is not handed to another pod while a write to it is under way.
- `Controllers` takes a policy pass as one step, beside which port writes may come
  in any order (`NeutronStore.PortWritesCommute`). `Interleaving` drops that: there
  every call is a step, any number of workers and sweeps run at once, and only the
  work queues' promise is kept, one worker to a key.
- Fingerprints of pod statuses (pkg/provider/sync.go:308-321) are taken as the
  tuple of what they are written from, and capsules are told apart by content.

## Where the code and what it says of itself part

- Rules (pkg/netpol/neutron.go:261-280). A fresh group carries Neutron's own two
  egress rules, which answer "already exists" for a wanted allow-all-egress rule and
  are then deleted: the first pass of such a policy leaves its group empty until the
  next (`RulePass.FirstPassLosesAllEgress`).
- Unisolated pods (pkg/netpol/reconciler.go:117-124). Their list is not sorted while
  the port it is compared with is, so it is rewritten on every pass unless the three
  ids happen to ascend (`Groups.UnisolatedListOrder`).
- Late groups (pkg/netpol/controller.go:112-121, 187; pkg/netpol/reconciler.go:187-193,
  317). A policy event queues the pods at once and the policy after a delay; a pass
  over the policy queues no pod (`Draining.PassQueuesNoPod`), and neither does the
  resync. A policy that allowed nothing is cached under no group; when it begins to
  allow something its pods are taken by that entry, and the group it then gets is
  on no list until something else queues them (`Draining.LateGroupMissed`). With
  both queues drained a port is right exactly when the cache has, for every policy
  its list draws on, what it had when the pod was taken (`Draining.DrainedRight`).
- Deleted policies (pkg/netpol/controller.go:112-121). A deletion queues the pods of
  the namespace and not the policy, and no event queues one that is not listed
  (`Events.DeletionLeavesCache`): its cached id stays exactly when its key was not
  queued already (`Draining.GoneStaysCached`). It names no other policy's group.
  A policy that comes back while a sweep is acting on a reading without it loses its
  group from under the cache (`InterleavingRuns.LateSweepTakesGroup`); one that stays
  listed never does.
- Two policy workers (cmd/virtual-kubelet/main.go:475). Two passes wanting one new
  pod set both make it (`InterleavingRuns.RaceMakesTwo`). An add that Neutron
  refuses because some of the addresses came meanwhile is taken for agreement
  (pkg/netpol/neutron.go:475-481), though others may be missing when the two passes
  saw different pods (`InterleavingRuns.AgreedAdd`); when they saw the same, none is
  (`FreshCalls.AddedToward`).
- A refused expansion (pkg/volume/reconciler.go:438-447) is kept marked only while
  the allocation equals the target; after the request was lowered the mark flips on
  every pass (`ExpansionPass.WalkedBack`, `ExpansionPass.FlipsForEver`).
- Growing filesystems (pkg/volume/reconciler.go:468-472). With nothing to reach
  capsules by, the comment on the field says the claim will say so; the claim is
  recorded as grown (`Expansion.GrowFilesystems`, last clause).
- Settling (pkg/volume/reconciler.go:386-411) judges by a cached claim and writes to
  the current one (`ExpansionPass.StaleSettleUndercuts`).
- Losing a provisioning race (pkg/volume/reconciler.go:652-662). An error after the
  volume object was made deletes the storage it names
  (`Provisioning.GiveBackDestroys`).
- Status (pkg/provider/sync.go:113-122). Only the newest capsule of a name is looked
  at; a pod whose own older capsule is running is failed when the newest carries
  another uid (`PodSync.FailedThoughListed`).
- Routing (pkg/ingress/l7.go:277-305). A prefix is compared as text: "/api" takes
  "/apiary", and "/foo/" does not take "/foo"; a wildcard host takes nothing, nor
  does a route with neither host nor path (`RoutingMeaning.HonouredExactly`). An
  exact path does not outrank an equal prefix written before it
  (`RoutingMeaning.ExactWins`). With an `ImplementationSpecific` path, or any policy
  made out-of-band, the list is rebuilt on every run (`RoutingSync.SecondRunSilent`).
  What is read back is the last host rule's value, whatever its comparison, and the
  last path rule's, as exact when compared for equality and as a prefix otherwise;
  other rule types and inversion are not looked at. So a policy with a rule more, or
  a comparison changed, can pass for one in step while it takes less, or something
  else (`RoutingServed.DriftUnseen`; when exactly, `RoutingServed.ReadsRightExactly`).
- Following logs (pkg/provider/logfollow.go:50-55). Repetition is impossible, as the
  comment says; loss is not: two lines of one stamp split across polls, or a line
  caught half written (`LogFollow.FollowExactlyOnce`).

## Model

| member | source | states |
|---|---|---|
| TranslationMeaning.TranslationExact | pkg/netpol/translate.go:95-244 | for every policy and connection, the translated rules allow exactly what the policy with its refused parts taken out allows, in the directions it declares |
| TranslationMeaning.TranslationSound | pkg/netpol/translate.go:95-244 | never wider than Kubernetes reads the policy; equal to it when nothing was refused and every selected address can be listed from here |
| TranslationMeaning.NothingRefused | pkg/netpol/translate.go:141-244 | the refusal list is empty exactly when stripping is the identity |
| TranslationMeaning.StripNarrower | pkg/netpol/translate.go:195-244 | dropping a rule whose peers or ports were all refused, rather than leaving an empty list, never widens a policy |
| TranslationMeaning.TranslationCarries | pkg/netpol/translate.go:95-244 | of the policy as written, for every connection: it translates exactly when its own selector parses; the directions are those it lists, or ingress, and egress if it has egress rules; and it lets through exactly what comes by an address block without exceptions, or selectors that parse, and by a port that is unnamed and not SCTP, whatever else was refused |
| TranslationMeaning.StripCarries | pkg/netpol/translate.go:95-244 | taking the refused parts out keeps exactly what can be carried, for every policy |
| TranslationMeaning.RefusedExactly | pkg/netpol/translate.go:141-233 | each refusal is there exactly when the peer or port it names is faulty in the way it says; none is there exactly when every peer and port can be carried |
| Translate.TranslatePolicy | pkg/netpol/translate.go:95-139 | the loops compute the specification: kept rules compiled in order, ingress before egress, with every refusal reported |
| Translate.TranslateRule | pkg/netpol/translate.go:141-244 | one rule: refusals in order, the compiled rule, or nothing when a written list would be emptied |
| Translate.TranslatePeer | pkg/netpol/translate.go:151-193 | a peer is refused for an except clause, a selector that does not parse or saying nothing; otherwise compiled |
| Translate.TranslatePort | pkg/netpol/translate.go:195-233 | a named port or SCTP is refused; otherwise the range, with endPort |
| RuleSetMeaning.SelectorKeyInjective | pkg/netpol/translate.go:260-279 | one key, one namespace scope and one pod selector, across policies of any namespaces |
| RuleSetMeaning.SameKeySameList | pkg/netpol/translate.go:281-308 | peers with one key resolve to the same addresses, so they can share an address group |
| Peers.AddressesFor | pkg/netpol/reconciler.go:214-235 | sorted, and exactly the first addresses of matching pods in served matching namespaces |
| Peers.NamespacesMatching | pkg/netpol/reconciler.go:248-275 | the own namespace, or the selected ones, of those served |
| Peers.ListedIsMeant | pkg/netpol/translate.go:281-308 | a resolved selector lists exactly what the written peer means, seen from here |
| RuleSets.Expand | pkg/netpol/ruleset.go:38-93 | the nested loops, the seen map and the sort compute the specified expansion |
| RuleSets.PolicyRules | pkg/netpol/ruleset.go:163-171 | the rules of the directions the policy itself isolates, expanded |
| RuleSetMeaning.KeyInjective | pkg/netpol/ruleset.go:118-121 | two rules of one key are one rule, so dropping repeats by key loses nothing |
| RuleSetMeaning.CombinationsAre | pkg/netpol/ruleset.go:47-88 | every combination of peer, port and family of each rule, and nothing else |
| RuleSetMeaning.ExpansionMembers | pkg/netpol/ruleset.go:38-93 | the sorted set holds each combination once, in key order |
| RuleSetMeaning.ExpansionExact | pkg/netpol/ruleset.go:38-93 | expanding, dropping repeats and sorting change nothing about what is allowed |
| RuleSetMeaning.PolicyRulesExact | pkg/netpol/ruleset.go:163-171 | with address groups filled through AddressesFor, the rules of a policy allow exactly its expressible part |
| RuleSetMeaning.PolicyRulesSound | pkg/netpol/ruleset.go:163-171 | a subset of what the policy allows; equal when nothing was refused and every selected address can be listed |
| Groups.IsolationOf | pkg/netpol/translate.go:310-333 | fails exactly when a policy of the namespace does not translate; names, sorted, the policies isolating each direction |
| Groups.GroupsFor | pkg/netpol/reconciler.go:106-145 | the list as specified: not resolved, a bad policy, pending, or the groups |
| Groups.PolicyGroupsFor | pkg/netpol/reconciler.go:162-196 | one cached group per selecting policy that allows anything, or the first policy not prepared |
| Groups.GroupListMembers | pkg/netpol/reconciler.go:117-144 | which groups are on the list: the anchor always, an opening group exactly when its direction is not isolated, the selecting policies' groups when any direction is |
| Groups.DenyAllAlwaysListed | pkg/netpol/reconciler.go:125-129 | the list always carries the anchor, so it is never empty |
| Groups.UnisolatedListOrder | pkg/netpol/reconciler.go:117-124 | the list compares equal to some sorted port exactly when a direction is isolated or the baseline ids happen to ascend |
| Composition.OpenIsNotIsolated | pkg/netpol/translate.go:310-333 | a direction is left open exactly when no policy selecting the pod declares it |
| Composition.ExpressibleIs | pkg/netpol/reconciler.go:106-196 | what a pod is allowed of what can be said, in the policies as written: everything when no policy selecting it declares the direction, else what one of those carries |
| Composition.ListGivenExactly | pkg/netpol/reconciler.go:106-196 | with every policy readable, the list is given exactly when nothing isolates the pod or every policy it draws on is cached, and otherwise names the first that is not |
| Composition.GroupsMeanPolicies | pkg/netpol/reconciler.go:106-196 | with a coherent cache, a port carrying the list lets through exactly: everything in an unisolated direction, the union of the selecting policies' allowances in an isolated one |
| Composition.GroupsMeanKubernetes | pkg/netpol/reconciler.go:106-196 | never more than Kubernetes means for any pod and policies; all of it when all of it can be said |
| NeutronMeaning.PolicyGroupExact | pkg/netpol/neutron.go:221-282 | a group whose rules stand for the compiled ones, each pod set served by whichever address group holds it, means the policy's expressible part |
| NeutronMeaning.AliasesAllowAlike | pkg/netpol/neutron.go:104-114 | two rules Neutron takes for one let through the same connections |
| NeutronMeaning.OpeningAllows | pkg/netpol/neutron.go:92-127 | an opening group lets through all of its direction and none of the other |
| NeutronStore.CreateRuleValid | pkg/netpol/neutron.go:261-268 | creating a rule keeps the store valid and adds that rule |
| NeutronStore.DeleteAddressGroupValid | pkg/netpol/neutron.go:396-406 | refusing to delete a group still named keeps every reference intact |
| NeutronStore.PortWritesCommute | pkg/netpol/controller.go:437-442 | a port write and a rule call have the same effect in either order, so the two workers cannot be told from taking turns |
| RulePass.PassExact | pkg/netpol/neutron.go:261-280 | one pass over any rules leaves the wanted ones less those Neutron takes for a rule the pass then deletes |
| RulePass.PassConverges | pkg/netpol/neutron.go:261-280 | one pass is enough exactly when no stale rule is an alias of a wanted one; two always are; a further one changes nothing |
| RulePass.AliasIs | pkg/netpol/neutron.go:107-114 | the alias is one thing only: no remote against the whole address space of the family |
| RulePass.RemotesConverge | pkg/netpol/neutron.go:261-280 | from rules that all name a remote one pass is always enough |
| RulePass.FirstPassLosesAllEgress | pkg/netpol/neutron.go:269-280 | a policy allowing all egress has an empty group after its first pass and the wanted one after its second |
| NeutronClient.Neutron.EnsureGroup | pkg/netpol/neutron.go:175-200 | finds by name and corrects the description, or creates with the marker; touches no other group; makes no second group of a name |
| NeutronClient.Neutron.CreateMissing | pkg/netpol/neutron.go:261-268 | creates what is wanted and was not read; a group already right is not written |
| NeutronClient.Neutron.DeleteStale | pkg/netpol/neutron.go:273-280 | deletes what was read and is not wanted, whatever fails leaving only states between |
| NeutronClient.Neutron.SyncRules | pkg/netpol/neutron.go:232-280 | every state passed through holds all rules old and new sets share and none that neither has, and no old rule is gone before all the pass will leave is there |
| RuleSync.EnsureRuleSet | pkg/netpol/neutron.go:221-282 | make before break in every state of the trace, under any failures; success returns the group of that name with exactly one pass applied; no other group, port or address group touched |
| Baseline.EnsureBaselineRules | pkg/netpol/neutron.go:92-127 | on success the group opens its direction for both families and holds nothing of the other |
| Baseline.EnsureDenyAll | pkg/netpol/neutron.go:135-151 | on success the anchor exists and is empty |
| Baseline.EnsureBaseline | pkg/netpol/reconciler.go:85-96 | on success three groups: one open each way, one allowing nothing; nothing else changed |
| AddressSync.DiffAddresses | pkg/netpol/neutron.go:498-520 | what to add and remove are exactly the two differences, in stored form, sorted |
| AddressSync.NormalizeTwice | pkg/netpol/neutron.go:522-533 | the stored form of an address is stable |
| AddressSync.BlanksDropped | pkg/netpol/neutron.go:522-533 | only blanks around a bare address are dropped, and it is taken for one host of its family |
| AddressSync.NormalizeInjective | pkg/netpol/neutron.go:522-533 | no two bare addresses share a stored form |
| AddressSync.SyncAddresses | pkg/netpol/neutron.go:468-496 | ends with exactly the wanted addresses; never without one old and new share, or with one neither has; writes nothing when already right |
| AddressSync.EnsureAddressGroup | pkg/netpol/neutron.go:413-460 | finds by name or creates empty; never a second of a name it can see |
| Sweeping.PolicyOfDescribing | pkg/netpol/neutron.go:286-293 | the description of an ensured group reads back as its policy; the one it is created with does not |
| Sweeping.NamespaceOfKey | pkg/netpol/neutron.go:338-342 | the namespace is recovered from a policy reference |
| Sweeping.Sweep | pkg/netpol/neutron.go:308-410 | in every state of the trace only groups named as policies' groups are, described as made for a served policy that is not live, on no port, are gone, and only peer sets no rule names; a finished sweep has taken exactly those groups, and of the peer sets exactly those not named; with no failed call it finishes |
| Sweeping.DoomedExactly | pkg/netpol/neutron.go:328-349 | a group is doomed exactly when its name is of a policy's group and its description names a policy, of a served namespace, that is not live |
| Sweeping.SweepGroups | pkg/netpol/neutron.go:367-380 | a doomed group stays exactly when a port carries it |
| Sweeping.SweepPeers | pkg/netpol/neutron.go:382-408 | a peer set stays exactly when a surviving rule names it |
| PolicySync.SyncSets | pkg/netpol/reconciler.go:292-313 | every peer set of a policy found or made and brought to its listing; address groups of other keys, or already right, untouched |
| PolicyFacts.PoliciesAgree | pkg/netpol/reconciler.go:299-313 | two policies using one key mean one pod set by it |
| PolicyFacts.PolicyIsLawful | pkg/netpol/ruleset.go:78-84 | every rule names a remote, and the pod sets returned are exactly the ones the rules name |
| PolicyFacts.CompleteIsCoherent | pkg/netpol/reconciler.go:315-328 | a policy passed over twice is one the cache is right about |
| Preparation.PassPrepares | pkg/netpol/neutron.go:261-280 | one pass leaves only wanted rules and loses none naming a peer set; the next leaves all |
| Preparation.OtherPassKeeps | pkg/netpol/reconciler.go:285-329 | a pass over another policy leaves a prepared one as it was |
| Preparation.OwnWritingKeeps | pkg/netpol/neutron.go:221-282 | a pass over the same policy keeps it prepared wherever it stops, whichever address groups it goes by |
| Preparation.SweepKeeps | pkg/netpol/neutron.go:308-410 | a sweep that knows a policy is live takes neither its group nor a peer set its rules name |
| PolicyPass.SyncPolicyPeers | pkg/netpol/reconciler.go:285-329 | success prepares the policy; a second success completes it with the same id, also when it finds another address group of a set made twice; failure loses nothing |
| Protocol.PassSound | pkg/netpol/reconciler.go:285-329 | a pass of the policy worker, succeeding or failing anywhere, keeps the whole invariant |
| Protocol.ForgetSound | pkg/netpol/reconciler.go:71-75 | forgetting a policy that is gone keeps it |
| Protocol.SweepSound | pkg/netpol/controller.go:326-355 | a sweep whose reading covers the policies passed over keeps it |
| Protocol.WrittenSound | pkg/netpol/controller.go:425-442 | a pod write, made, refused or already in place, keeps it |
| Protocol.EditSound | pkg/netpol/controller.go:95-121 | an edit of what the listers show keeps it, and all progress is forgotten |
| Protocol.AlignedMeans | pkg/netpol/controller.go:392-445 | a port carrying the current list lets through exactly what the policies selecting its pod say |
| Controllers.Controller.SyncPolicyPeers | pkg/netpol/reconciler.go:315-328 | the id is remembered only after every write succeeded; nothing else in memory changes |
| Controllers.Controller.SyncPolicy | pkg/netpol/controller.go:291-312 | of an unserved namespace nothing changes; a policy that is gone is forgotten and nothing else; any other is passed over, and with no call failing that succeeds |
| Controllers.Controller.JudgePod | pkg/netpol/controller.go:392-424 | the list of a pod from the cache alone, exactly when the pod is served, listed and placed and its list can be given; no Neutron call |
| Controllers.Controller.WritePod | pkg/netpol/controller.go:425-445 | the whole list is written unless the port has it; success means the port carries it |
| Controllers.Controller.Collect | pkg/netpol/controller.go:326-355 | collects by the last reading, exactly what it may when it finishes; a reading that missed a policy forfeits what was known |
| Controllers.Controller.Take | pkg/netpol/controller.go:274-445 | each step does what it is: a pass over the policy named, a list worked out, written or not, a reading of the live policies, a collection by the last reading, or an edit |
| Controllers.Controller.Run | pkg/netpol/controller.go:227-256 | after any steps in any order with any calls failing, each step taken: every cached id was returned for that policy and names no other's group, every port written holds the anchor, the baseline is intact, every port brought up to date since the last edit means its policies |
| Startup.Start | pkg/netpol/controller.go:227-245 | the baseline first, then idle workers: from any project with no policy's group twice, controller and single-call system start in order |
| Settling.Settle | pkg/netpol/controller.go:274-312 | from any state a run can reach, once edits stop and calls succeed, two rounds of policies and one of pods, in turn, are enough to leave every placed port meaning what its policies say |
| InterleavingRuns.AnyInterleaving | pkg/netpol/controller.go:227-312 | whatever the interleaving of single calls of any number of workers and sweeps, with edits between and any call failing: cached ids are their own policies' groups, no policy has two groups, no rule dangles, the baseline stands, written ports hold the anchor, rules under change stay between old and new |
| InterleavingRuns.RulesAreInOrder | pkg/netpol/neutron.go:232-280 | make before break holds with other workers and sweeps in between, and a pass that ends has done exactly what it would have done alone |
| InterleavingSafety.CallSafe | pkg/netpol/controller.go:274-355 | each call of each kind of worker changes only groups of its own policy, or takes groups of policies its sweep did not find live |
| InterleavingSafety.TaskKept | pkg/netpol/controller.go:241-245 | what one worker knows stays true whatever call another makes |
| InterleavingRuns.ActSafe | pkg/netpol/controller.go:274-312 | any call of any worker keeps the whole invariant |
| InterleavingRuns.LivePolicyKeepsGroup | pkg/netpol/controller.go:326-355 | while a policy stays listed, its cached id is of a group that exists, whatever sweeps and passes are going on |
| InterleavingRuns.LateSweepTakesGroup | pkg/netpol/neutron.go:367-380 | a sweep that did not find the policy takes the group under its cached id exactly when no port carries it |
| InterleavingRuns.QuietIsSound | pkg/netpol/controller.go:238-253 | when all calls of any run have ended, whatever pod sets were made twice, the state is one the settle theorem starts from |
| SettlingAnyhow.SettlesAnyhow | pkg/netpol/controller.go:227-445 | from any safe state, any work under way, call by call, any number of workers and sweeps side by side, any calls failing, no edits: two generations of work on, every port given, or found with, a list worked out after passes begun since had gone over its policies twice means what its policies say |
| SettlingAnyhow.TakenIsAligned | pkg/netpol/controller.go:392-445 | and a pod taken once its policies are settled, whose two calls go through, is one of them |
| SettlingAnyhow.RunApart | pkg/netpol/controller.go:227-256 | no two workers are ever at one pod, edits or not |
| PassAlone.PassGoesThrough | pkg/netpol/reconciler.go:285-329 | from any safe state, a free worker left to itself with its calls going through takes a policy up, ends, and has its group hold what one pass makes of it, remembered under its key - no group exactly when the policy has no rules; no other worker is touched |
| PassAlone.SweepGoesThrough | pkg/netpol/neutron.go:308-410 | a sweep left to itself ends, having taken exactly the groups made for served policies no longer listed, on no port, and the peer sets no rule names |
| PassAlone.PodGoesThrough | pkg/netpol/controller.go:392-445 | a pod taken up, its two calls going through, has its list on its port, and nothing else has changed |
| PassAlone.GoneForgotten | pkg/netpol/controller.go:291-312 | taking up a policy that is gone forgets it, and does nothing else |
| AgingRuns.TwoGenerations | pkg/netpol/controller.go:227-256 | once all work under way has ended, and then all work begun meanwhile, whatever is under way wants what is wanted now, and of a set it has read nothing wanted has gone and nothing unwanted has come since |
| Aging.CallLoose | pkg/netpol/neutron.go:413-496 | work begun since the last edit, whatever it read, takes no wanted address out and puts no unwanted one in; and when of the set it read nothing wanted has gone and nothing unwanted has come, a call leaves it as it was, or with nothing missing, or with nothing over |
| FreshCalls.CallFresh | pkg/netpol/neutron.go:413-496 | no call of work begun since the last edit takes a pod set away from what its key wants |
| FreshCalls.AddedToward | pkg/netpol/neutron.go:475-481 | adding what was missing leaves all that is wanted there, also when answered already so, among workers that want the same |
| FreshCalls.RemovedToward | pkg/netpol/neutron.go:482-490 | and after the removal the set holds exactly what is wanted, whoever else was filling it |
| FreshRuns.OtherCallKeeps | pkg/netpol/controller.go:274-355 | a call of another policy's worker, of a pod's or of a sweep leaves a prepared policy prepared and a complete one complete |
| FreshRuns.OwnCallKeeps | pkg/netpol/neutron.go:221-282 | and so does every call of its own worker, in the middle of a pass |
| FreshProgress.PassEnds | pkg/netpol/reconciler.go:315-328 | a pass that ends has prepared its policy, and completed it when its group held only rules naming remotes |
| InterleavingRuns.RaceMakesTwo | pkg/netpol/neutron.go:413-460 | two passes that both found no pod set of a name make two exactly when neither call fails before it takes effect |
| InterleavingRuns.AgreedAdd | pkg/netpol/neutron.go:475-481 | an add answered already so leaves nothing missing exactly when none or all of the missing addresses had come |
| Events.ListingChangeQueued | pkg/netpol/controller.go:95-110 | an event that changes what any pod set lists queues every served policy, whichever namespace |
| Events.FactsChangeQueued | pkg/netpol/controller.go:95-121 | an event that changes what its policies are to a served pod queues the pod; changes of the cache are the matter of Draining |
| Events.DeletionLeavesCache | pkg/netpol/controller.go:112-121 | no event queues the key of a policy that is not listed, its deletion included |
| Events.UpdateQueues | pkg/netpol/controller.go:95-107 | an update of a served pod queues it, and every served policy, exactly when its labels or its first address changed |
| Draining.DrainedRight | pkg/netpol/controller.go:95-205 | over any events, passes and resyncs, with both queues empty: a served pod's port carries its list exactly when the cache has, for each policy the list draws on, what it had when the pod was last taken, or nothing confines the pod |
| Draining.RunInStep | pkg/netpol/controller.go:95-205 | over any steps: a pod not queued has the list of its facts as they are by the cache as it was, and a policy not queued is cached, under no group exactly when it has no rules |
| Draining.ListsAgree | pkg/netpol/reconciler.go:162-196 | two caches give one pod one list exactly when they agree on every policy it draws on, or nothing confines it |
| Draining.PassQueuesNoPod | pkg/netpol/controller.go:258-312 | a pass over a policy, whatever it returns, and the resync queue no pod |
| Draining.LateGroupMissed | pkg/netpol/reconciler.go:187-193 | a policy that begins to allow something: its pod taken first, the policy passed over next, and with neither queued the port lacks the group its list now names |
| Draining.GoneStaysCached | pkg/netpol/controller.go:112-121 | what is cached of a deleted policy stays exactly when its key was not queued when it went |
| Draining.QueuesDrain | pkg/netpol/controller.go:95-205 | from any state in step, with every policy of a served namespace readable, some passes empty both queues |
| Conversion.DesiredGroups | pkg/netpol/migrate.go:95-120 | sorted, without repeats, exactly current plus baseline, less the default when detaching |
| Conversion.Convert | pkg/netpol/migrate.go:47-92 | in every state each listed port is as it was or as wanted and nothing else changed; a finished run has each group on each listed port exactly when it is of the baseline or was there and is not the default being detached; a further run changes nothing; a dry run nothing; with no call failing and every group there it finishes exactly when a baseline, and for a detach a default, is given |
| ConversionReach.AttachKeepsTalking | pkg/netpol/migrate.go:18-31 | attaching takes nothing from any pair of ports under any rules, in any state on the way |
| ConversionReach.ConversionKeepsTalking | pkg/netpol/migrate.go:34-46 | through one attach and then one detach, any two capsule ports that could talk can talk in every state |
| ConversionRuns.ConvertingGoesOn | pkg/netpol/migrate.go:47-92 | a run picks up wherever an earlier run of its phase stopped |
| ConversionRuns.ConvertTenant | pkg/netpol/migrate.go:18-92 | any runs of either phase in any order, failing part way, a detach only once an attach has finished: in every state any two ports that could talk at the start can talk; with no call failing, an attach and later a detach, whatever is run besides, leave every port with the baseline and without the default |
| ConversionReach.OnlyDefaultDropped | pkg/netpol/migrate.go:105-113 | no group but the default is ever dropped, and that only when detaching |
| ConversionReach.DetachFirstBreaks | pkg/netpol/migrate.go:34-46 | detaching without attaching cuts a moved port off from the ones that have not moved |
| Expansion.AwaitSize | pkg/volume/expand.go:85-146 | success is the size read back, settled and at least what was asked for; with no call failing it succeeds exactly when, within the polls, the first reading that is not extending is not the failed status and is large enough |
| Expansion.Expand | pkg/volume/expand.go:25-77 | the size never shrinks; it asks for what is wanted, once, and only when that is not there; with no call failing it succeeds exactly when that is there at once, or the service gets there in time |
| Expansion.RecordAllocation | pkg/volume/reconciler.go:419-460 | raised to the size and never lowered; infeasible kept against in-progress at the same allocation |
| Expansion.UndertakenExactly | pkg/volume/reconciler.go:419-460 | what is written: the larger of the two allocations, and the mark given, but infeasible where that stood for the same allocation and in-progress was to be said; nothing else |
| Expansion.RecordClaimSize | pkg/volume/reconciler.go:520-555 | size written, progress mark removed, allocation brought down exactly to the request when above it and enough |
| Expansion.SizedExactly | pkg/volume/reconciler.go:520-555 | what is written: the size, no mark, and the request as allocation exactly when the allocation is above it and it is reached |
| Expansion.SettleAllocation | pkg/volume/reconciler.go:386-411 | lowers to the request exactly when the cached claim shows nothing in progress and no more than the request in use, and otherwise makes no call; what it writes undercuts the claim exactly when that guard fails on the claim as it is now |
| Expansion.RecordVolumeSize | pkg/volume/reconciler.go:503-515 | success means the volume object says what is there; a stale copy is refused |
| Expansion.GrowFilesystems | pkg/volume/reconciler.go:468-490 | success means every capsule using the claim, and no other, grew its filesystem to that size - unless there is no way to reach capsules, when nothing is done and success reported |
| ExpansionPass.RecordSizes | pkg/volume/reconciler.go:355-381 | the order of writing: volume object, filesystems, then claim |
| ExpansionPass.GrowTo | pkg/volume/reconciler.go:308-381 | every state: the undertaking precedes the backend, claim size at most volume size at most what is there, claim size rises only with every filesystem grown, the undertaking is lowered only to the request; with no call failing and a fresh volume object it succeeds exactly when the service can be brought to the size, and otherwise the claim is marked infeasible |
| ExpansionPass.ExpandIfAsked | pkg/volume/reconciler.go:290-381 | a successful pass leaves all three sizes equal and enough; with no call failing, a claim asking for more than it has, of a volume made here and seen fresh, gets it exactly when the service can be brought to the smallest whole size that holds it, and otherwise is marked infeasible; a claim with nothing to do is not written |
| ExpansionPass.ExpandTwice | pkg/volume/reconciler.go:290-381 | after a successful pass, while no more is asked for than was recorded, a further pass makes no call |
| ExpansionPass.Run | pkg/volume/reconciler.go:290-381 | over any run of passes on caches however old, with edits between passes and between their calls: every state is one its pass may go through, the sizes keep their order and none shrinks |
| ExpansionPass.WalkedBack | pkg/volume/reconciler.go:438-447 | infeasible is walked back by the next pass for a target exactly when the allocation is not that target |
| ExpansionPass.FlipsForEver | pkg/volume/reconciler.go:438-447 | raised, refused and lowered, a claim flips between the two marks on every failing pass |
| ExpansionPass.StaleSettleUndercuts | pkg/volume/reconciler.go:386-411 | and a cached claim that was behind can |
| Provisioning.RunAccounted | pkg/volume/reconciler.go:567-664 | over any interleaving of any attempts, storage is named by a volume object, held by one attempt or leaked - exactly one of them |
| Provisioning.NamedSurvives | pkg/volume/reconciler.go:638-664 | no attempt deletes storage a volume object names |
| Provisioning.NothingLeftOver | pkg/volume/reconciler.go:567-664 | once all attempts end, what is left is what volume objects name; nothing leaks unless a storage call failed after taking effect or a give-back failed |
| Provisioning.FirstVolumeStays | pkg/volume/reconciler.go:87-89 | a claim never has a second volume object, nor its first one changed |
| Provisioning.AttemptGoesThrough | pkg/volume/reconciler.go:567-664 | an attempt whose calls all work ends with its volume object naming the storage it made, or, the name being taken, with nothing left of it |
| Provisioning.WorkingRunsProvide | pkg/volume/reconciler.go:567-664 | over any interleaving of attempts whose calls work, every claim whose attempt has ended has a volume object, and the storage it names is there |
| Provisioning.VolumeNameInjective | pkg/volume/reconciler.go:87-89 | claims of different uid have different volume names |
| Provisioning.GiveBackDestroys | pkg/volume/reconciler.go:652-662 | giving storage back destroys named storage exactly when the volume object was made by a call that reported failure |
| Capsules.ListManagedAll | pkg/zun/capsule.go:231-254 | a capsule is listed under a pod exactly when it is ours and carries that pod's namespace and name, neither empty; in listing order |
| Capsules.ListManaged | pkg/zun/capsule.go:259-275 | per pod the newest, the first listed among equals |
| Capsules.NewestIs | pkg/zun/capsule.go:266-271 | no capsule is newer, and none before it as new |
| Capsules.OrphansAmong | pkg/provider/orphans.go:88-175 | the loops compute the specified selection |
| Capsules.OrphansAre | pkg/provider/orphans.go:119-172 | of the node's own capsules all go but the one spared and the young |
| Capsules.OrphansExactly | pkg/provider/orphans.go:88-175 | a capsule goes exactly when this process serves the namespace, the pod's lookup did not fail, it is on this node, its age is unknown or 300 s, and it is not the newest here that names the pod or no pod at all |
| Capsules.KeptExactly | pkg/provider/orphans.go:150-162 | the one spared is the newest, first listed among equals, of those on this node that carry the pod's uid or none, while the pod is there |
| Capsules.FoldsAgree | pkg/provider/orphans.go:150-162 | the sweep spares the capsule the status is read from exactly when that one is on this node and carries the pod's uid or none |
| Capsules.NodesDisjoint | pkg/provider/orphans.go:119-134 | two nodes never choose the same capsule |
| Capsules.LiveCapsuleStays | pkg/provider/orphans.go:34-77 | over any sweeps by any nodes with any deletions failing, the capsule a live pod is read from stays, and stays the one |
| PodSync.FailContainers | pkg/provider/sync.go:218-233 | an ended container keeps its outcome, every other takes the pod's |
| PodSync.FinishedAt | pkg/provider/sync.go:295-306 | the last end, or the start when no container says |
| PodSync.LastEndIs | pkg/provider/sync.go:297-301 | no container ended later, and one ended then |
| PodSync.Provider.SyncOnce | pkg/provider/sync.go:64-204 | nothing changes when any visited tenant failed to list; otherwise each pod comes out as its listing says - sandbox failure exactly when its capsule has been creating for over 600 s, the capsule's status exactly when that reads differently, keeping the address when none is shown, forgotten or failed when missing; exactly the capsules of pods finished longer than the grace are released; exactly the pods changed are announced |
| PodSync.CycledIs | pkg/provider/sync.go:106-204 | for every pod and listings, what a verdict comes to in the listings as read, clause by clause, and which capsule it releases |
| PodSync.PrintReadsSame | pkg/provider/sync.go:308-321 | two statuses have one fingerprint exactly when they read the same |
| PodSync.FailedExactlyWhenGone | pkg/provider/sync.go:64-159 | from the listings as they came: failed for a missing capsule exactly when its tenant answered, it was expected to run, it is past the grace, and none is listed for its name or the newest carries another uid |
| PodSync.FailedThoughListed | pkg/provider/sync.go:113-122 | a pod whose own capsule is listed is failed exactly when the newest of its name carries another uid |
| PodSync.SweepSparesOwn | pkg/provider/orphans.go:150-162 | while the sweep spares one of the pod's own |
| PodSync.TerminalUntouched | pkg/provider/sync.go:123-141 | a terminal pod is never changed by a cycle |
| PodSync.Cycles | pkg/provider/sync.go:64-204 | over any sequence of cycles, each of them done as its listings say, a finished pod stays as it was or is dropped |
| PodSync.SecondReadingSilent | pkg/provider/sync.go:238-260 | the same reading again announces nothing |
| PodSync.Provider.AdoptPod | pkg/provider/provider.go:524-543 | takes a pod over with the status it has, or as pending when it has none; unannounced, tombstone removed, no other pod touched |
| PodSync.Provider.TrackPod | pkg/provider/provider.go:545-570 | records a new pod as pending, with its containers waiting, and announces it; tombstone removed, no other pod touched |
| PodSync.Provider.CreatePod | pkg/provider/provider.go:233-334 | succeeds exactly when the tenant is known and the listing shows the pod's own capsule or one can be made; a capsule shown is taken over as it is, unannounced, one made is recorded as pending and announced; a failure records nothing |
| PodSync.Provider.UpdatePod | pkg/provider/provider.go:344-366 | nothing for the pod recorded or one on its way out; a create, with its outcome, for a pod that took over the name |
| PodSync.Provider.DeletePod | pkg/provider/provider.go:372-443 | succeeds exactly when the tenant is known and the capsule is gone; then the pod recorded, or else the one given, is ended, announced and remembered as deleted; a failure records nothing |
| PodSync.Provider.GetPod | pkg/provider/provider.go:446-468 | answers with exactly the pods recorded and not deleted |
| PodSync.ShownExactly | pkg/provider/provider.go:250-270 | the listing shows the pod's own capsule exactly when the newest of its name carries its uid |
| Routing.CollectBackends | pkg/ingress/l7.go:39-63 | every backend referred to is collected under its key, and nothing else |
| Routing.SameKeySamePool | pkg/ingress/l7.go:66-68 | backends collected as one have one pool name |
| RoutingWinner.PoolNameTells | pkg/ingress/l7.go:66-68 | for names as the API server has them, two backends have one pool exactly when they are one port of one service |
| RoutingWinner.PortKeyTells | pkg/ingress/l7.go:30-35 | a port named and a port numbered are never taken for one another |
| Routing.BuildDesiredPolicies | pkg/ingress/l7.go:181-214 | the loops and the stable sort compute the specified list |
| Routing.SortInOrder | pkg/ingress/l7.go:209 | longer paths first, manifest order among equals |
| RoutingMeaning.SplitPrefix | pkg/ingress/l7.go:291-303 | being an element-wise prefix is being the path or a prefix of it followed by a slash |
| RoutingMeaning.PrefixAgrees | pkg/ingress/l7.go:291-303 | comparing a prefix as text comes to comparing it element by element exactly when it neither ends in a slash the request lacks nor stops inside an element |
| RoutingMeaning.HonouredExactly | pkg/ingress/l7.go:277-305 | for every route and request, when the rendered rules take more than the Ingress asks for and when less, exactly |
| Routing.FirstMatchIs | pkg/ingress/l7.go:177-180 | the first match by position comes before every other route that matches |
| Routing.NothingSkipped | pkg/ingress/reconciler.go:263-273 | for every Ingress and request, if the rules of a path match, some policy does, at least as long and ahead in the manifest of those as long |
| RoutingWinner.WinnerServed | pkg/ingress/reconciler.go:263-273 | for every Ingress and request, read off the manifest: of the paths that ask for it one wins - the longest, the first written among those as long - and the first match points at the pool made for that path's own service and port; nothing matches exactly when nothing asks |
| RoutingMeaning.RoutesRight | pkg/ingress/reconciler.go:263-273 | judged by what Kubernetes means by host and path: a path that does not fall short is not skipped, and the policy that wins was asked for unless it overreaches, at least as long as every other that was |
| Routing.ManifestPools | pkg/ingress/reconciler.go:264-271 | every policy points at a pool made on this pass |
| RoutingMeaning.ExactWins | pkg/ingress/l7.go:209 | an exact path wins exactly when no matching route as long was written before it |
| RoutingSync.SignatureInjective | pkg/ingress/l7.go:173-175 | when only the path may hold the separator, equal signatures are equal policies |
| RoutingSync.ExistingSignature | pkg/ingress/l7.go:309-334 | the loop computes the signature of what is read back, over rules of any type, comparison and inversion |
| RoutingSync.RoundTrip | pkg/ingress/l7.go:309-334 | reading back inverts rendering exactly for a path of type Prefix or Exact |
| RoutingSync.RoundTripSwapped | pkg/ingress/l7.go:315-326 | in whatever order the rules are listed |
| RoutingSync.SyncPolicies | pkg/ingress/l7.go:220-273 | what was made out-of-band is kept, in order, in every state; a listener in step is not written; success leaves the desired list in front of it; with no call failing it succeeds |
| RoutingSync.SecondRunSilent | pkg/ingress/l7.go:227-242 | a further run writes nothing exactly when nothing foreign is there and every policy can be read back |
| RoutingSync.ImplementationSpecificNeverSettles | pkg/ingress/l7.go:315-326 | a route of that path type is rebuilt on every run |
| RoutingSync.GcStalePools | pkg/ingress/l7.go:339-353 | only pools under this name, in no use and not the default, go; all of them on success, which it is exactly when none of them is refused |
| RoutingSync.TargetsNotStale | pkg/ingress/reconciler.go:306-313 | collecting after the sync never takes a pool a policy points at |
| RoutingServed.Reconcile | pkg/ingress/reconciler.go:259-313 | pools, policies, collection: on success every request is answered by the pool of the service and port the winning path names, and what no path asks for by what was made out-of-band - when it had to be written, whatever was there, and when it was found in step, if that could be read back; with no call failing and every pool to be had it succeeds |
| RoutingServed.SyncRoutes | pkg/ingress/l7.go:181-273 | the routes computed and the listener brought to serve them; with no call failing it succeeds |
| RoutingServed.InStepServes | pkg/ingress/l7.go:227-242 | a listener found in step serves the routes, when every policy takes what it reads back as |
| RoutingServed.DriftUnseen | pkg/ingress/l7.go:309-334 | any rule put in front of a policy that reads right, of a type not read or had already, goes unseen, and does harm exactly when some request of the route does not pass it |
| RoutingServed.ReadsRightExactly | pkg/ingress/l7.go:309-334 | for every policy, any rule types, comparisons and inversions: it takes what it reads back as exactly when what was read is there, or implied by the rest, and every rule lets the whole route through |
| LogFollow.LinesAfter | pkg/provider/logfollow.go:88-109 | the placeable lines past the cursor, in order, and the latest stamp |
| LogFollow.FollowLogs | pkg/provider/logfollow.go:36-80 | what is written is what following the answers so far specifies |
| LogFollow.Render | pkg/provider/logfollow.go:125-137 | each line on its own, its stamp dropped when not wanted |
| LogFollow.ShownIs | pkg/provider/logfollow.go:125-137 | a line is written whole when stamps are kept, and otherwise past its first blank, if it starts with a word |
| LogFollow.StampIs | pkg/provider/logfollow.go:111-123 | the stamp of a line is what stands before its first blank, when that parses |
| LogFollow.RenderSplits | pkg/provider/logfollow.go:125-137 | splitting what was written gives the lines back |
| LogFollow.FollowNeverTwice | pkg/provider/logfollow.go:36-109 | whatever the polls answer, every line is stamped strictly past every line of earlier polls |
| LogFollow.FollowExactlyOnce | pkg/provider/logfollow.go:36-109 | for one log read as it grows, cut wherever: what was sent is the placeable lines of the last answer, in order, exactly when no answer cut such a line and at each poll what is new is stamped past what was seen |
| LogCursor.SameStampLost | pkg/provider/logfollow.go:100-102 | a line of the cursor's own stamp that came later is never sent |
| LogFollow.HalfLineCut | pkg/provider/logfollow.go:100-102 | a line caught half written is sent as the half |
| ShellQuote.Quote | pkg/zun/logs.go:137-145 | splitting the quoted text gives back the argument list |
| ShellQuote.RoundTrip | pkg/zun/logs.go:137-145 | for every argument list, empty arguments, blanks and quotes included |
| ShellQuote.QuoteInjective | pkg/zun/logs.go:137-145 | no two argument lists are sent as one text |
| Rates.Table.Observe | pkg/provider/stats.go:41-60 | a rate exactly when there is an earlier reading of the same generation, an earlier clock and no larger counter, as 64-bit arithmetic has it; the reading is kept either way |
| Rates.Table.Forget | pkg/provider/stats.go:64-72 | drops exactly what is not live |
| Rates.RateExact | pkg/provider/stats.go:56-59 | the rate is the true one exactly when the interval holds at most 18446744073 ns of core time |
| Rates.RatesAddUp | pkg/provider/stats.go:39-60 | over any run the rates add up to the core time used, short of it by less than one unit per nanosecond elapsed |
| Rates.ObserveAll | pkg/provider/stats.go:41-60 | a run of readings of one container yields a rate for each interval |

## Left out

- All HTTP, gophercloud, informer, queue and websocket code: the remote sides are store classes with the answers the code tells apart, and a run is any order of steps.
- Settling.Settle: the rounds it shows to be enough are taken one pass after another; for passes side by side, call by call, see SettlingAnyhow.SettlesAnyhow.
- InterleavingRuns.RaceMakesTwo: that the duplicate of a raced pod set ends unnamed and swept is not claimed.
- SettlingAnyhow.SettlesAnyhow: it says nothing of a port whose pod is taken before its policies are settled; nothing need queue that pod again (Draining.DrainedRight). That work side by side does end, or is begun, is not claimed: a run is any sequence of moves; that a worker left to itself ends is PassAlone.PassGoesThrough.
- Draining.DrainedRight: each pass is one step; the delays, rate limits and the order the queues hand keys out in are any order of steps.
- Events.ListingChangeQueued: a namespace relabelled, which no handler watches, is picked up by the periodic resync only.
- Several tenants: one reconciler and its own store; which tenant's credential is used, and that ForgetPolicy acts on the fixed reconciler, are not modelled.
- Label selector and CIDR parsing, time stamps parsing, and hashing: abstract predicates and functions.
- Remote security groups in a tenant's own rules admit nothing in `NeutronMeaning.BodyAllows`; the rules made here never name one. `ConversionReach` does model them.
- Sweeping.Sweep: completeness is claimed only for sweeps that finish, and a group still carrying its creation description is not collected until it is ensured again.
- Expansion.Expand: the microversion asked for on an attached volume, and overflow of a request near the top of 64 bits, are not modelled.
- Provisioning.RunAccounted: each attempt is a sequence of calls on values rather than a method, because it is their interleaving that matters; the export lookup and the fields of the volume object besides its name and storage are not modelled.
- PodSync.Provider.CreatePod: building the template, its files, claims and networks is one outcome, made or not.
- PodSync.Provider.SyncOnce: one cycle is atomic; the second lookup by key in updateStatus (pkg/provider/sync.go:238-250) always finds the pod it judged.
- RoutingMeaning.RoutesRight: which of two rules of different hosts is the more specific is not judged, only the paths.
- RoutingServed.Reconcile: one run; the load balancer, its listener, TLS, members and addresses are taken as there.
- RoutingSync.SyncPolicies: break before make - requests arriving between the deletes and the creates meet a partial list; no claim is made about them.
- LogFollow.FollowExactlyOnce: tail and since on the first poll are just a different first answer, of which the later ones are then no longer a growth.
- TLS and Barbican rotation, floating IPs, provider selection, listener tuning, members and health monitors: one-branch decisions.
- Pod templates, probes, node objects, DNS search lists, tokens, exec and attach streams, metrics formatting, flags and manifests: easy members.
- Logging, events and the wording of refusals: only whether something was refused is kept.
