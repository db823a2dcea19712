# Verified models of upgradescope's core

upgradescope judges whether a Kubernetes cluster is ready for an upgrade: an
agent collects an inventory (Helm releases, pods, add-ons, CRDs, API usage),
an engine judges it, and the agent writes a status and pushes snapshots to a
server. This project models the parts of it where correctness is not local and
proves what the code is meant to guarantee:

- **Ordered fetch** (`OrderedFetch`): the dispatcher, workers and caller of the
  parallel payload fetch as a state machine over its steps. In every
  interleaving the caller sees the sequential loop's results, memory is
  bounded, nobody waits for ever, and stopping leaves no goroutine.
- **Manifest splitting** (`StreamLines`, `YamlStream`, `ManifestSplit`): cutting
  a manifest into bounded runs and reading each run reads exactly the documents,
  at exactly the lines, that reading it whole does.
- **Merge keys** (`YamlGraph`, `MergeReach`, `MergeLookup`): the memoised YAML
  merge-key lookup over node graphs with cycles is total, agrees with the
  unmemoised rule wherever that ends, and elsewhere finds what is merged.
- **Prefix cover** (`CidrCover`): merging sibling CIDR prefixes decides whether
  every address is covered.
- **Image claims** (`ImageClaims`): a registry without reported conflicts gives
  every image to one entry, and the check reports no more than it must.
- **Add-on matching and the pod pass** (`Repeats`, `VersionOrder`, `AddOnMatch`,
  `AddOnInstances`, `AddOnEvidence`, `AddOnPass`, `AddOnOrder`, `VolumeTally`,
  `PodPass`, `PodPassCache`, `PodPassSpacing`): what evidence an install has and
  what its instances say of it; reusing a deduplicated pass of the pods finds what
  listing them would, over any run of collections, and when a pass is reused.
- **Helm and discovery caches** (`HelmCache`, `DiscoveryCache`): what a cached
  read returns, over any run of ticks, against the uncached one.
- **Snapshot push** (`PushBuffer`, `AgentPush`): the one-snapshot buffer under
  concurrent offers, and the hash gate and retries over any run of ticks.
- **Inventory repair** (`FreeText`, `InventoryShape`, `InventoryTarget`,
  `InventoryAccounts`, `InventoryConform`): what Conform takes out so that the
  server admits an inventory, with nothing lost in silence.
- **Upgrade plan** (`UpgradePlan`), **document settling** (`StreamSettle`) and
  **status bounds** (`StatusBounds`, `StatusWrite`).
- What they share: `Basics`, what a pass over a list keeps (`Picking`), and the
  orders and sorts of `Ordering`.

Code that is outside the model (glob and identifier checks, semantic-version
parsing, decoders, clocks, the network) appears as function-valued parameters:
the theorems hold for every such function.

## Where the code and its comments differ

The models follow the code. Four of its comments promise more than it does,
and the exact conditions are proved:

- `podpass_cache.go` says a repeated pod or image reads the same as the first.
  That needs `versionLess` to be transitive on the versions at hand, which it
  is when all of them parse as semantic versions, or none does. A version too
  large to parse among ones that do makes it cyclic (`VersionOrder.MixedIsNotStrict`),
  and then a repeat can change the version reported (`AddOnOrder.OrderIsNeeded`).
  The pods' key also needs strings without NUL, as Kubernetes names and labels
  are; with one, the second of two different pods is not kept
  (`PodPass.KeysCollide`).
- `podPassMaxAgeFloor` says it saturates instead of wrapping. It does exactly
  for intervals whose longest jittered spacing, 11/10 of them, fits 64 bits
  (`PodPassSpacing.FloorSaturatesExactly`); beyond, the floor can be negative
  (`PodPassSpacing.FloorWraps`).
- The runner's `retryPending` is documented to mean that the tick's snapshot is
  still buffered. It is set with nothing buffered if and only if the last retry
  is refused for good, its time having ended by then (`AgentPush.Runner.RetryOnce`
  for one retry, `AgentPush.Runner.RetryBuffered` for the retries of a tick,
  `AgentPush.Loop` after any run). `AgentPush.RefusedAsTimeEnds` reaches that
  state from a new runner. The next tick clears it, and no retry runs in between.
- `Conform` says that Reason tells how much was left out and why. The note is
  appended and the reason then cut at its end, so it does if and only if reason,
  separator and note fit 64 KiB (`FreeText.NoteSurvives`); a reason that fills
  them loses the note (`FreeText.NoteLost`).

## Model

| member | source | states |
|---|---|---|
| `OrderedFetch.RunInv` | internal/collect/helm_fetch.go:72-140 | every step of every goroutine keeps the protocol's invariant: one room token per payload, each job at exactly one place, only fetch's own answers stored |
| `OrderedFetch.NextIsTheLoop` | internal/collect/helm_fetch.go:60-141 | in every interleaving, up to one moment `next` answers the sequential loop's payloads in index order, and from then on, the context being done, only errors: the result received where it failed from the context, and in place of any other the error of a fetch begun now, the context's own where that one would give a payload |
| `OrderedFetch.AtMostWorkersHeld` | internal/collect/helm_fetch.go:80-140 | in every reachable state at most `workers` payloads are in flight, waiting or last handed over, and no index is at two workers |
| `OrderedFetch.WaitingCallerHasAStep` | internal/collect/helm_fetch.go:112-131 | no deadlock: a caller inside `next` always has a step of its own or of the pool ahead |
| `OrderedFetch.NextIsServed` | internal/collect/helm_fetch.go:112-131 | the pool's steps while the caller waits are bounded by a number fixed when it began, and until then or then the result can be received |
| `OrderedFetch.StopTerminates` | internal/collect/helm_fetch.go:132-140 | after `stop`, the pool's steps are bounded, and when none is left the jobs are closed and every goroutine has returned |
| `OrderedFetch.StoppedIsEmpty` | internal/collect/helm_fetch.go:132-140 | when `stop` has returned, the jobs are closed and every worker has returned |
| `StreamLines.TextOfLines` | internal/collect/files.go:233-251 | cutting a text into lines and joining them gives the text back |
| `StreamLines.LinesOfText` | internal/collect/files.go:233-251 | joining lines and cutting the text again gives the lines back |
| `StreamLines.LineCounter.Line` | internal/collect/files.go:179-186 | the incremental counter gives the 1-based line of any offset, asked for in any order |
| `YamlStream.ReadStream` | internal/collect/files.go:233-251 | the reader's loop gives the stream's documents and stops at the first invalid separator: each is a stretch without a separator, not all blank, that begins at the start or right after a separator and ends at one, at the stop or at the end; all such stretches are read, in order |
| `YamlStream.LineIsRead` | internal/collect/files.go:233-251 | every line before the stop that is no separator and not in an all-blank stretch lies in exactly one document |
| `YamlStream.BlankAsText` | internal/collect/files.go:255-259 | a document all of whose lines are blank is one whose text trims to nothing |
| `YamlStream.CutAt` | internal/collect/files.go:233-251 | cutting a stream at a separator splits what is read: the documents before it, then those from it on |
| `YamlStream.DocsOfSuffix` | internal/collect/files.go:233-251 | reading from inside a stream is reading its suffix, lines shifted |
| `ManifestSplit.EndDocKeeps` | internal/collect/helm.go:598-611 | ending a document keeps the runs a cover of the manifest, each within its bounds |
| `ManifestSplit.SplitLines` | internal/collect/helm.go:593-633 | the runs concatenate to the manifest up to its first invalid separator, each fits the byte and node bounds or is one unparsed document over a limit, each run to be parsed but the last had no room for the document after it, and together they read as the whole |
| `ManifestSplit.UnreadDocuments` | internal/collect/helm.go:548-633 | what is not read is at most one document for each run passed on unparsed |
| `ManifestSplit.PieceReadsAlike` | internal/collect/helm.go:548-633 | the text of a run is read as YAML too and cut into the same lines |
| `ManifestSplit.SameText` | internal/collect/helm.go:548-633 | a document read of a run is, shifted, those same lines of the manifest |
| `ManifestSplit.SplitManifest` | internal/collect/helm.go:588-652 | a manifest that does not open as JSON reads, run by run and shifted, exactly as the stream parser reads it whole, each document a separator-free stretch after as many newlines of the manifest as its line says; the bounds are of the bytes of the texts passed on, and runs are full; one that does is one document |
| `ManifestSplit.LineOf` | internal/collect/files.go:179-186 | the line the incremental counter gives a document of its stream is the one the document is reported on |
| `MergeLookup.LaterEntryWins` | internal/collect/files.go:785-802 | by the unmemoised rule the last entry of a mapping that brings the key wins, merged keys included |
| `MergeLookup.EarlierMappingWins` | internal/collect/files.go:812-844 | inside a merged sequence the first mapping with the key wins |
| `MergeLookup.CycleNeverEnds` | internal/collect/files.go:812-844 | where a merge reads itself the unmemoised rule never ends, so the memo's mark contradicts no answer of it |
| `MergeLookup.ObjectReader.Lookup` | internal/collect/files.go:785-802 | terminates on every node graph, returns what the unmemoised rule does wherever that ends, marks what it finds as merged exactly when an entry of the mapping merges it, and fails only with the error of something merged that cannot be |
| `MergeLookup.ObjectReader.Merge` | internal/collect/files.go:812-844 | the memoised merge terminates and agrees with the rule, keeping the memo sound |
| `MergeLookup.LookupAcyclic` | internal/collect/files.go:785-844 | where no mapping merges itself, through mappings and the mappings of merged sequences, every lookup is exactly the unmemoised rule's |
| `MergeReach.FreshRead` | internal/collect/files.go:812-844 | what a first lookup reads is all that is merged, directly or not, cycles or not |
| `MergeLookup.LookupFirst` | internal/collect/files.go:779-844 | the first lookup of a name, whether or not the unmemoised rule ends, fails if and only if something merged cannot be, saying which kind, and else finds the name if and only if some mapping merged has it, and then such a mapping's own entry, marked as merged exactly when it is |
| `MergeLookup.SelfMergeNeverEnds` | internal/collect/files.go:782-784 | the unmemoised rule has no answer for a mapping that merges itself |
| `MergeLookup.SelfMergeFinds` | internal/collect/files.go:782-784 | the reader finds that mapping's own key |
| `CidrCover.RootMerged` | internal/cli/serve.go:571-600 | merging siblings reaches the /0 if and only if every address lies in some prefix |
| `CidrCover.MergeLevel` | internal/cli/serve.go:591-598 | one level's pass adds exactly the parents both whose halves are merged |
| `CidrCover.MergeUp` | internal/cli/serve.go:591-598 | level by level, the /0 is reached if and only if the inputs merge to it |
| `CidrCover.PrefixesCoverFamily` | internal/cli/serve.go:576-600 | true if and only if every address of the family lies in some valid prefix of it, for any width and any overlap |
| `CidrCover.SiblingPrefix` | internal/cli/serve.go:604-610 | on the address's bytes, gives the sibling prefix the merge looks for and leaves the other bits |
| `ImageClaims.CutAtColon` | registry/claims.go:40-43 | a matcher with a colon is its path, a colon and its tag pattern, cut at the first |
| `ImageClaims.SamePathOverlaps` | registry/claims.go:24-32 | two matchers of one path match one another, for all strings |
| `ImageClaims.ProviderMatchIsProvider` | registry/providers.go:23-30 | whatever a matcher of a provider's location matches lies in that location too |
| `ImageClaims.SameImageOverlaps` | internal/collect/addons.go:311-321 | two matchers of one image are of one kind, provider or not, and overlap |
| `ImageClaims.ClaimsFor` | internal/collect/addons.go:410-436 | the one-pass loop returns, in registry order, exactly the claims of the image's owners: the entries whose tag pattern names it, or where none does those of its repository, each with the tag's version or its component's line |
| `ImageClaims.TagsAhead` | internal/collect/addons.go:403-409 | when a tag pattern names the image, only the entries claiming it that way do |
| `ImageClaims.ClaimConflicts` | registry/claims.go:190-228 | every reported conflict is real and every real one is reported, over images, charts and ids |
| `ImageClaims.OneImageOneEntry` | registry/claims.go:93-103 | without an image conflict, whichever matchers keep the tag-over-path precedence in the check, every image is claimed by at most one entry |
| `ImageClaims.OverlapIsShared` | registry/claims.go:74-81 | two matchers without tag patterns overlap if and only if some image is matched by both |
| `ImageClaims.CheckIsExact` | registry/claims.go:190-228 | in a registry without tag patterns no image conflict is found if and only if no image belongs to two entries |
| `ImageClaims.OneNameOneEntry` | registry/claims.go:208-224 | with distinct ids no chart or id conflict is found if and only if every name names at most one entry |
| `Repeats.OldestBlock` | internal/collect/addons.go:384-391 | the oldest version does not read repeats, under a strict order |
| `Repeats.FirstsAre` | internal/collect/podpass_cache.go:153-160 | every element is kept where it first occurs, in order, and nowhere else |
| `Repeats.RepeatsIgnoredExactly` | internal/collect/addons.go:384-391 | repeats never change the oldest of a set's versions if and only if the comparison is transitive on it |
| `VersionOrder.UniformIsStrict` | internal/collect/addons.go:352-359 | versions that all parse, or none of which does, are strictly ordered |
| `VersionOrder.MixedIsNotStrict` | internal/collect/addons.go:352-359 | 9.0, 10.0 and a version too large to parse are compared in a circle |
| `AddOnMatch.RepeatedImages` | internal/collect/addons.go:638-671 | dropping repeated images changes neither the instances of any install nor the unrecognized images |
| `AddOnMatch.RepeatedPods` | internal/collect/addons.go:614-692 | nor does dropping repeated labelled pods, which name untagged images and give versions too |
| `AddOnMatch.FirstImages` | internal/collect/podpass_cache.go:153-160 | keeping the first of each image changes nothing that is found |
| `AddOnMatch.FirstPods` | internal/collect/podpass_cache.go:161-172 | keeping the first of each labelled pod changes nothing that is found |
| `AddOnOrder.OrderIsNeeded` | internal/collect/podpass_cache.go:143-147 | where the comparison is not transitive, some registry and evidence gives another outcome without its repeats |
| `AddOnPass.LabelMaps` | internal/collect/addons.go:614-627 | one pass over the labelled pods gives what each image's labels name and the oldest version they give each entry |
| `AddOnPass.ImagePass` | internal/collect/addons.go:635-671 | settling each image once files the same evidence as settling it for every pod |
| `AddOnEvidence.SettledRight` | internal/collect/addons.go:614-671 | an untagged image is the entry that first names it, its pods' labels before the releases of its namespace, among those that tell its repository apart by tag, else what its matchers claim; without a version of its own it takes the oldest its labels give that entry |
| `AddOnEvidence.EvidenceIs` | internal/collect/addons.go:635-735 | the evidence filed under an install is exactly what an image's claim, a pod's labels that count, a release, a chart reference or an IngressClass none of whose entries is otherwise found gives it |
| `AddOnInstances.InstancesAre` | internal/collect/addons.go:737-789 | for versions in a strict order, the instances found of any evidence, in any order and with any repeats, are those of it as a set |
| `AddOnPass.FoldInstance` | internal/collect/addons.go:737-767 | one pass folds an install's evidence: for versions in a strict order the instance's version is the oldest a release gives, else the oldest any other source does, and empty only if none does; likewise its chart version, a release's over a chart reference's; its source is the strongest present, and it has no namespace exactly when all it has is an IngressClass |
| `AddOnPass.SplitInstall` | internal/collect/addons.go:769-789 | one instance of the evidence, or, where a release gives a version, a second that holds exactly the evidence of other sources whose version is on no release's line |
| `AddOnPass.MatchAddOns` | internal/collect/addons.go:592-797 | the rows are, in the order of the final sort, the instances of exactly the installs something says are there, each install once; for versions in a strict order those are the one or two instances its images, labels, releases, chart references and IngressClasses alone define, and each image is settled as what first names it or what its matchers claim; the images no entry claims are listed once each, in order |
| `AddOnPass.RowOrderIs` | internal/collect/addons.go:791-794 | rows are compared by the first of id, namespaces, version and source that differs |
| `VolumeTally.Merge` | internal/collect/volumes.go:205-211 | merging adds the uses of both tallies, by namespace and in all |
| `VolumeTally.Without` | internal/collect/volumes.go:216-226 | leaves exactly the uses outside one namespace, each plugin's total theirs alone |
| `VolumeTally.SameUsesSameTally` | internal/collect/volumes.go:168-186 | tallies of the same uses are the same rows, key for key |
| `PodPass.KeysTellPods` | internal/collect/podpass_cache.go:161-172 | without a NUL in a pod's strings, equal keys are equal pods |
| `PodPass.KeysCollide` | internal/collect/podpass_cache.go:166 | with one, two different pods of one key lose the second |
| `PodPass.EvidenceIs` | internal/collect/addons.go:178-189 | every image of every pod is evidence and nothing else is, so is every labelled pod, and each plugin is counted once for each pod of a namespace that uses it |
| `PodPass.ReusedExactly` | internal/collect/podpass_cache.go:122-132 | over every run a collection reuses a pass if and only if kube-system was read and the last list completed fewer than `every` collections ago, under the same signature, less than `maxAge` before |
| `PodPass.ReuseFindsTheSame` | internal/collect/addons.go:137-209 | over every run, while the pods outside kube-system are those of the last pass, reusing it finds the same add-ons, unrecognized images and volume uses as listing every pod |
| `PodPass.ReuseSees` | internal/collect/addons.go:137-209 | over every run a collection that reuses a pass sees kube-system as it is and the other namespaces as the pods of the last list that completed |
| `PodPass.FreshSees` | internal/collect/addons.go:137-209 | one that lists the pods sees kube-system as its own list gave it, where that was read, and every other pod listed |
| `PodPassCache.Cache.Reuse` | internal/collect/podpass_cache.go:122-132 | reuses exactly when the count, age and signature allow, counts the reuse, and gives the age in whole seconds, 1 for less |
| `PodPassCache.Cache.Record` | internal/collect/podpass_cache.go:148-175 | holds the distinct images and labelled pods and the volume counts outside kube-system, or nothing when passes are not reused |
| `PodPassCache.Cache.Collect` | internal/collect/addons.go:137-209 | one collection reads and leaves held what the run model says, a failed first page giving no evidence and a failed pass leaving none held |
| `PodPassSpacing.JitterWithin` | internal/agent/agent.go:1117-1125 | every draw spaces ticks between 9/10 and 11/10 of the interval, to the nanosecond |
| `PodPassSpacing.FloorSaturatesExactly` | internal/agent/agent.go:267-277 | the floor is every-1 longest spacings, saturated, for every setting if and only if the longest spacing fits 64 bits |
| `PodPassSpacing.LargestThatFits` | internal/agent/agent.go:285-297 | a frequency's floor is below the max age if and only if it is at most the one advised |
| `PodPassSpacing.ReusedEveryTime` | internal/agent/agent.go:256-266 | with a max age above the floor, or none, and ticks within the longest spacing, a pass is reused by exactly the every-1 collections after it |
| `PodPassSpacing.FloorIsExact` | internal/agent/agent.go:257-261 | every pass of ticks within the longest spacing is reused by all the every-1 collections after it if and only if there is no max age or it is above the floor |
| `PodPassSpacing.FloorWraps` | internal/agent/agent.go:263-266 | the longest interval a duration can hold gives a negative floor |
| `HelmCache.NextMiss` | internal/collect/helm.go:344-355 | payloads are consumed in the order of the misses, one for each release not held |
| `HelmCache.Cache.Collect` | internal/collect/helm.go:296-396 | reports what an uncached collection would with held releases read as their payloads: exactly the decoded ones, with the list's status or else the payload's, each unread, undecodable or unparsed one with its reason; fetches exactly the releases not held, in order, and keeps the entries of the releases read and of drivers whose list failed |
| `HelmCache.UncachedReports` | internal/collect/helm.go:344-396 | a report lists, in order, exactly the decoded releases, those that could not be read, decoded or parsed with the reason, and as skipped exactly these; one gone by the time it is fetched is in none |
| `HelmCache.Cache.Prune` | internal/collect/helm_cache.go:135-144 | drops exactly what was not seen under drivers whose list succeeded |
| `HelmCache.ThroughIsFetch` | internal/collect/helm_cache.go:14-33 | where every fetch of a held release would succeed, that is the uncached report itself |
| `HelmCache.Collections` | internal/collect/helm.go:296-396 | over any run of collections, those whose fetches succeed report what collecting without a cache does, whatever the flagged sets between; after one whose lists all succeed the cache is no larger than its releases |
| `DiscoveryCache.ReadsFill` | internal/collect/discovery_cache.go:175-187 | reads of an empty cache are asked until one is complete, which every later one is served |
| `DiscoveryCache.ServedExactly` | internal/collect/discovery_cache.go:78-134 | in every run a tick serves a held answer if and only if an earlier tick that was not itself served had a read answered in full, and since then every tick observed the same server version, read the same CRDs and began within the hour of that read |
| `DiscoveryCache.RunTicks` | internal/collect/collector.go:159-162 | on the cache itself, over any run: a served tick asks nothing and every read returns the answer of the tick that filled the cache; any other asks the server until a read is answered in full, returning what it says, and returns that answer to every later read |
| `PushBuffer.LatestNeverLost` | internal/agent/push.go:174-227 | in every interleaving of offers and flushes the latest snapshot offered is buffered, or was accepted or refused for good |
| `PushBuffer.OfferSurvives` | internal/agent/push.go:281-287 | an offer made during a flush survives that flush's clear, until a flush of its own settles it |
| `AgentPush.VerdictComes` | internal/agent/push.go:197-227 | what a series of attempts comes to is an answer exactly when that answer comes at an attempt none before which was final |
| `AgentPush.Runner.Flush` | internal/agent/push.go:197-227 | sends the buffered snapshot until an answer is final, four times at most; it succeeds exactly on an acceptance and leaves the snapshot buffered exactly when no answer was final |
| `AgentPush.Runner.MaybePush` | internal/agent/agent.go:846-889 | sends nothing because unchanged if and only if its content is the last delivered and that delivery was less than the sync interval before; otherwise sends exactly when the snapshot is admissible and named; a tick that does not fail leaves its content the last delivered, at its clock |
| `AgentPush.Runner.RetryOnce` | internal/agent/agent.go:914-937 | one retry leaves the flag set with nothing buffered if and only if it is refused for good and its time has ended; one that delivers records its hash and its clock |
| `AgentPush.Runner.RetryBuffered` | internal/agent/agent.go:914-937 | retries only the last tick's snapshot, once a round until one settles it or the time ends; a delivery advances the gate to its hash and clock, and what is left flagged is buffered unless its last retry was refused as its time ended |
| `AgentPush.RefusedAsTimeEnds` | internal/agent/agent.go:914-937 | from a new runner, one tick and one retry leave the flag set with nothing buffered |
| `AgentPush.Runner.RunTurn` | internal/agent/agent.go:1085-1097 | one tick and its retries are quiet, or send only that tick's snapshot, as what was delivered before and when says, and deliver exactly when an attempt of theirs is accepted |
| `AgentPush.Loop` | internal/agent/agent.go:1084-1108 | in every run each tick is unchanged if and only if its content is the last delivered and that was less than the sync interval before, and else sends when admissible and named; the gate's hash and time are those of the last delivery, sends never go back to an older tick, every one is its tick's own, and after the last tick the flag tells what is buffered but for that one refusal |
| `UpgradePlan.HopTargets` | internal/engine/plan.go:100-116 | ends, at the target exactly, each hop the farthest listed step that does not pass it, else the next minor; empty when it is no upgrade |
| `UpgradePlan.WalkGoesUp` | internal/engine/plan.go:96-116 | the hops are strictly increasing |
| `UpgradePlan.PlanReports` | internal/engine/plan.go:122-153 | each hop starts where the one before it ended and carries its report's target, score, verdict and gaps; with unique keys per report, it lists in full the findings no earlier report has, as changed those whose severity is not the one they last had, as carried the rest, each with the target of the first report that has it, and leaves none out |
| `UpgradePlan.HopReadsReports` | internal/engine/plan.go:122-153 | with unique keys per report, a hop lists what no earlier report has, and refers to the rest with the severity at the last report that had it and the target of the first |
| `UpgradePlan.HopPartsRight` | internal/engine/plan.go:122-153 | what each of a hop's three lists says of the reports, and that only the upgrade path's own finding is in none |
| `UpgradePlan.ListedExactlyOnce` | internal/engine/plan.go:10-17 | each finding is listed in full by one hop, the first that has it, and once |
| `UpgradePlan.CollectSeverities` | internal/engine/plan.go:57-69 | the severities gathered from a planned hop's three lists are its report's, key for key, but for the upgrade path |
| `UpgradePlan.SeveritiesRebuild` | internal/engine/plan.go:55-69 | each hop's severities are its report's, key for key, but for the upgrade path |
| `StreamSettle.GvkDiff` | internal/collect/files.go:540-557 | returns exactly the two multiset differences |
| `StreamSettle.Judge` | internal/collect/files.go:345-392 | counts the walk's objects where they cover what kubectl sends, else kubectl's at the first line, else none; evidence is kubectl's, of what is counted; a document the two do not read alike is said to be, once, at its first line: its text and kubectl's kinds when not assessed, else the kinds missed or those counted beyond kubectl's; the walk's warnings are kept unless kubectl's reading is counted |
| `StreamSettle.NothingUnseen` | internal/collect/files.go:317-336 | everything kubectl sends of a document is counted or named |
| `StreamSettle.SettleAll` | internal/collect/files.go:345-401 | over a stream objects, evidence and errors are what each document adds, in order, and everything kubectl would send, repeats included, is among the counted and the named kinds |
| `FreeText.Utf8Prefix` | internal/inventory/limits.go:212-220 | the longest prefix of at most n bytes that ends at a character boundary |
| `FreeText.TokensWhole` | internal/inventory/limits.go:199-208 | a token list that fits is kept; one that does not ends before the last comma within the limit, commas and spaces apart, so no token is cut; without such a comma nothing is left |
| `FreeText.AppendReason` | internal/inventory/limits.go:426-441 | stays within the limit and keeps the addition whole; a reason that does not fit is cut at the last character boundary that leaves room for the mark, or dropped where the mark has no room |
| `FreeText.NoteSurvives` | internal/inventory/conform.go:197-202 | a reason to which a note is added and which is then cut ends with the note if and only if both fit the limit |
| `FreeText.NoteLost` | internal/inventory/conform.go:197-202 | after a reason that fills the limit every note is lost |
| `InventoryShape.CutFreeTextTwice` | internal/inventory/limits.go:131-195 | cutting an inventory that was cut changes nothing |
| `InventoryShape.CutsFreeText` | internal/inventory/limits.go:131-195 | every reason and every other free text is within its limit, as it was or cut at the last whole character that leaves room for the mark, token lists at a whole token, and nothing else changes |
| `InventoryShape.CutThenAdmitted` | internal/inventory/admit.go:55-87 | a cut inventory that passes the check is admitted, versions allowing |
| `InventoryShape.RefsConserved` | internal/inventory/conform.go:293-319 | listed objects plus omitted ones stay the same in all; what is still listed, namespace keys included, is admissible |
| `InventoryShape.ConformedTwice` | internal/inventory/conform.go:293-319 | conforming a use that was conformed changes nothing |
| `InventoryShape.ConformedIs` | internal/inventory/conform.go:293-319 | a conformed use lists, in order, objects it listed that are admissible, at most 100, leaving one out only if refused or beyond the cap, and keeps exactly the admissible namespace keys |
| `InventoryAccounts.DerivedConserves` | internal/inventory/conform.go:277-319 | every element a repaired list still has is one it had, in which each use lists and omits, together, as many objects as before |
| `InventoryAccounts.AccountedOn` | internal/inventory/conform.go:122-165 | each repair of one list keeps the account: every list is what it was, in order, with elements left out or their uses conformed, every element left out is a repair of its capability and named there, and images left out are counted |
| `InventoryConform.FreeIsSame` | internal/inventory/conform.go:293-319 | a use no repair was recorded for is unchanged |
| `InventoryConform.Conformer.ConformUsage` | internal/inventory/conform.go:293-319 | records exactly one repair for each key and object dropped and one for the cap, and no other capability's repairs change |
| `InventoryConform.Conformer.PassList` | internal/inventory/conform.go:209-229 | one pass keeps, in order, the elements not refused with their uses conformed, records one repair for each element left out and those of the uses kept, and names what it leaves out |
| `InventoryConform.Conformer.ConformList` | internal/inventory/conform.go:209-229 | puts the pass in place: the list is exactly what the pass keeps, its capability has exactly the repairs the pass cost, and dropped images are counted |
| `InventoryConform.Conformer.CapList` | internal/inventory/volumes.go:129-141 | cuts a list at its cap: each element beyond it is a repair and named, images beyond it one repair and counted |
| `InventoryConform.Conformer.Target` | internal/inventory/conform.go:68-77 | of releases, API usages, CRDs, add-ons, images and volume plugins every use left lists admissible objects only, at most 100, under admissible namespaces; every release, add-on and image left is admissible; at most 200 images and 64 plugins are left; an element is left out only if refused or beyond its cap, and every other list is as it was; all of it accounted for |
| `InventoryTarget.TargetedRepairs` | internal/inventory/conform.go:68-77 | the same of the targeted repairs as a function of the lists |
| `InventoryConform.Conformer.DropElement` | internal/inventory/conform.go:390-499 | drops exactly the element a fault names and nothing else, adds exactly one repair to its capability, names it, and counts an image; a fault it cannot drop changes nothing |
| `InventoryConform.Conformer.Fallback` | internal/inventory/conform.go:78-89 | runs the check and drops, each time, exactly the element it names, and ends with the check's verdict on what is left |
| `InventoryTarget.FallbackEnds` | internal/inventory/conform.go:78-115 | what is left comes of at most that many drops, each of the element the check named, and dropping stops before them only when the check passes or names what cannot be dropped |
| `InventoryConform.NamedAre` | internal/inventory/conform.go:171-183 | of a capability's skipped names the first twenty in order are kept: all when there are no more, and none left out comes before one kept |
| `InventoryConform.Marked` | internal/inventory/conform.go:190-203 | a capability marked partial has the note after its reason, and names, each once and in order, what it named before and the first twenty of what was left out |
| `Ordering.SortedIs` | internal/inventory/conform.go:178 | sorting gives the same elements, in order |
| `Ordering.Merged` | internal/inventory/conform.go:202 | sorting and compacting gives the same elements, each once, in order |
| `InventoryConform.Conformer.Conform` | internal/inventory/conform.go:66-96 | cuts the free text, repairs the lists as above and then drops only what the check names; no error means Admit passes when the versions do; listed plus omitted images and every kept use's objects are conserved, a capability's lists lose no more elements than it records repairs, each is named, and a capability reported available that was repaired is partial, names them and what it named before, and its reason ends with the note if and only if both fit; one not repaired is as cut; a list that changed is of a repaired capability |
| `StatusBounds.Clip` | internal/crd/types.go:286-310 | the text, or its longest prefix of whole characters whose cost is at most n and an ellipsis: at most n + 3 bytes as Go's encoder writes it |
| `StatusBounds.CostIsLength` | internal/crd/types.go:283-294 | a character's cost is never less than what Go's encoder writes for it, and exactly that but for control characters with a short escape and a whole U+FFFD |
| `StatusBounds.BoundNotAssessed` | internal/crd/types.go:314-327 | at most 32 clipped notes and one line counting the rest, at most 32 * 515 encoded bytes of notes |
| `StatusBounds.CountsAddUp` | internal/crd/types.go:332-357 | the three severity counts add up to the findings |
| `StatusBounds.TargetStatus` | internal/crd/types.go:332-357 | each count is the number of findings of its severity or category, and the first twenty are shown, clipped |
| `StatusBounds.StatusIsBounded` | internal/crd/types.go:255-281 | the finding text of a status costs at most 8 * 20 * (515 + 1027) encoded bytes, whatever the reports |
| `StatusBounds.ResolveTargets` | internal/agent/agent.go:406-456 | the first eight targets of the spec, in order, each named by no earlier entry, else the minor after the server's; the first eight entries skipped are noted, as invalid or repeated, the others counted, and so are the targets past the eighth, the first by name |
| `StatusBounds.TargetsDistinct` | internal/agent/agent.go:417-441 | no target is evaluated twice |
| `StatusWrite.StatusFromReports` | internal/crd/types.go:367-403 | a row for each report, in order, and each gap once, in first-seen order |
| `StatusWrite.EvaluateAll` | internal/agent/agent.go:678-691 | every target is evaluated, in order, and each warning noted once |
| `StatusWrite.LeadIsListed` | internal/agent/agent.go:696-703 | no note that leads is folded into the one that counts the rest |
| `StatusWrite.WriteStatus` | internal/agent/agent.go:661-705 | whatever the spec, the reports and their text, finding text and notes cost at most 8 * 20 * (515 + 1027) + 32 * 515 encoded bytes and one entry that counts the rest; every skipped entry and target not evaluated is noted or counted, and none of those notes is left out |

## Left out

- The sequential branch of startFetching (one worker or one payload) is the specification the pool is compared with, not modelled beside it.
- YAML decoding of one document, `engine.Evaluate`, `ValidateIdentifiers`, `ValidateLimits` and glob matching are parameters; how they judge is not modelled.
- Hashes are taken as telling contents apart: the flagged-API fingerprint of the Helm cache, the CRD fingerprint of the discovery cache, the install signature and the snapshot hash.
- A Helm collection all of whose driver lists failed returns before it reads the cache; it is no tick of the model.
- The choice of a release's installed revision, and the wording of failure texts built from counts and first problems, are not modelled.
- StreamSettle.GvkDiff: gives the differences as multisets; the sort of its listings is not modelled.
- The retry of a pod list without its field selector is part of what a list gives; kube-system pods are skipped either way.
- Volume tallies carry the counts; object references, which live pods have none of, are left out.
- attachCRDs and attachVolumes, which copy details onto counted objects without changing their kinds.
- Conform works on one element shape for all lists (its label, uses, free text and the rest), on values rather than shared arrays; the names its fallback gives to Skipped are the element's label.
- MergeConflicts' hints, and Merge of embedded and operator registries: the theorems take any registry and any choice of matchers with the tag precedence.
- untaggedClaim's registry lookup is a parameter of the add-on model; imageClaims is modelled in full in ImageClaims and enters AddOnMatch as a parameter.
- CRD apply calls, HTTP, TLS, command-line flags and renderers.
