# A verified model of the honkai rule server

The server fetches several upstream Clash/Mihomo subscriptions, merges them with the operator's own
proxies, groups and rules, and serves one configuration. This project models its four cores in Dafny
and proves what they guarantee:

* **The merge compiler** (`internal/merge`). Every pass exists twice: as a function on values, for the
  theorems about meaning, and as a method on heap nodes (`YamlNode`, an object with a `content` list),
  proved to compute that function. `BuildHeap.Build` composes the methods, and it has no `modifies`
  clause: whatever it writes it allocated, so cached payloads stay as they are.
* **The fetch coordinator and cache** (`internal/fetcher`). The cache is a class; the goroutines, the
  wait-group, the ready signal, cancellation, the ticker and the single-flight gate are transition
  systems, and the results hold in every state of every execution.
* **The output normaliser** (`internal/output`). The byte scanner is related to an independent decoder
  of double-quoted scalars (section 5.7 of YAML 1.2.2, UTF-8 by section 3 of RFC 3629); the in-place
  reorderings work on arrays.
* **The daily-spend ledger** (`internal/dailyspend`, `internal/merge/traffic.go`), as a snapshot state
  machine over sequences of requests.

Ranging over a Go map is modelled by picking keys in an arbitrary order; the results are proved equal
for every order. Sorting is a stable sort characterised by its permutation.

| file | models |
|---|---|
| `Text`, `Sorting`, `Yaml` | strings, stable sorting, YAML nodes as values |
| `NodeHeap` | YAML nodes as objects: cloning and the field setters |
| `Subscriptions`, `RuleLine`, `Namespace` | the row loader, rule lines, name prefixes |
| `MergeNodes`, `RuleMerge`, `RuleProviders`, `RegionTable`, `Regions`, `Fanout`, `Prune` | one pass each, on values, with its laws |
| `MergeHeap`, `GroupHeap`, `PassHeap`, `BuildHeap` | the passes and `Build` on the heap |
| `Pipeline`, `Closure`, `BuildLaws`, `TableLaws`, `MemberLaws`, `GeneratedLaws` | `Build` as a composition, and the theorems about all of it |
| `FetchCache`, `Coordinator`, `SingleFlight`, `Startup` | cache entries and ages, bootstrap and gate, concurrent refreshes, coordinator and cache together |
| `Unescape`, `Reorder`, `Comments`, `Userinfo` | the escape scanner, field order, priority headers, the traffic header's text |
| `DailySpend`, `Traffic` | used bytes and their split, allowance, header and ledger |

Where the code does not do what one might expect, the model follows the code:

* Pruning is one pass, so a served group can be empty (`Prune.PruneDoesNotCascade`);
  `Closure.BuildFillsGroups` says exactly when none is.
* A source may be called `via`; then a served proxy can carry a fan-out copy's name
  (`GeneratedLaws.ViaCanCollide`); `GeneratedLaws.BuildProxyNamesDistinct` says exactly when.
* The cache path of a provider is not always its own: keys with a slash can meet across sources
  (`RuleProviders.PathsCanBeShared`), and keys that differ by an extension inside one
  (`RuleProviders.OwnPathsCanBeShared`); `RuleProviders.NamesShareExactly` says exactly which.
* The dialer of an upstream proxy is not prefixed. One without an underscore that is no built-in and not
  the selector dangles, whatever it named in the source (`GeneratedLaws.DialerResolves`); for the others
  `Closure.BuildResolvesExactly` decides.
* A RULE-SET inside a logical rule is plain text to every pass (`RuleLine.NestedProviderKept`): it is not
  prefixed, and its provider is emitted only if a RULE-SET rule names it too. An operator's RULE-SET rule
  can name a provider nobody defines (`BuildLaws.RuleSetResolvesExactly`).
* A cancelled start can close the ready signal with a source still pending
  (`Coordinator.CancelCanLeavePending`); `Coordinator.PendingExactly` says exactly when one is.
* The gate can answer failed over a payload that could be served stale (`Startup.FailedCanHave`), and can
  serve after a source was dropped; `Startup.FailedMerges` and `Startup.ServeMerges` say exactly what a
  build would see then.
* A proxy that has the name of a removed group disappears from the generated groups and the selector;
  `GeneratedLaws.BuildServesRegions` and `GeneratedLaws.BuildServesSelector` say exactly when none does.
* A refresh whose payload could not be written to disk reports an error but has stored the payload, so
  the next attempt succeeds without fetching (`FetchCache.PersistFailureHeals`).
* The escape scanner also rewrites escapes below U+10000, which breaks a scalar that escapes a quotation
  mark or a backslash this way (`Unescape.QuoteEscapeBreaks`, `Unescape.BackslashEscapeBreaks`); the
  encoder in front of it never does that. A literal space, tab or line break is a token of its own in
  the reference decoder: line folding may strip or fold it and never touches an escaped one. Equal
  tokens therefore stay equal after folding. The same two escapes also keep a second pass from being
  idle (`Unescape.BackslashUndoesIdle`, `Unescape.QuoteUndoesIdle`).

## Model

| member | source | states |
|---|---|---|
| `Closure.BuildClosesReferences` | internal/merge/pipeline.go:274-426 | If every source refers only to built-ins and to what it defines, in well-formed rules, and the operator's groups, rules and fallback name known things, then every member and rule target of the whole build's output is a built-in, a served proxy or a served group. |
| `Closure.SourcesAloneClose` | internal/merge/pipeline.go:274-426 | With no operator files, closure of each source in itself and a fallback that is a built-in or the selector suffice. |
| `Closure.BuildFillsGroups` | internal/merge/pipeline.go:413-426 | In the whole build's output every group has a member if and only if, before pruning, no protected group was empty and no group's members all named removed groups. |
| `Closure.BuildResolvesExactly` | internal/merge/pipeline.go:413-426 | Any name resolves in the output exactly when it is a built-in, a served proxy, or a group before pruning that has a member or is protected. |
| `Closure.FetchProxyResolves` | internal/merge/ruleset.go:58-61 | The fetch-through proxy of a definition is its prefixed reference. A built-in or a proxy of the source always resolves; a name no served proxy has resolves exactly when a group of that name survives pruning. |
| `MemberLaws.OwnMemberServed` | internal/merge/namespace.go:136-153 | In the whole build a member of an own group is served in that group, and is there before pruning: behind an underscore exactly when it is no built-in and the own-proxies file defines it, and otherwise, be it an upstream proxy, a generated group or anything else, as it stands; unless it names a removed group. |
| `MemberLaws.SourceMemberServed` | internal/merge/namespace.go:117-131 | In the whole build a member of a source's group is served behind the source's name and an underscore, a built-in as it stands; unless it names a removed group. |
| `MemberLaws.BuildListsMembers` | internal/merge/pipeline.go:302-426 | For every name under which groups with members come in, the build serves a group that lists exactly their members, minus the names of removed groups; the selector also lists what the build adds. |
| `MemberLaws.RemovedExactly` | internal/merge/prune.go:60-89 | The build removes exactly the names of groups that have no member before pruning, the selector and the fallback excepted. |
| `MemberLaws.BuildInOrder` | internal/merge/pipeline.go:302-336 | With names distinct inside each source and the own file, the proxies of the build are the named own proxies, then those of each source in merge order, then the copies; the groups that enter the later passes stand in the same order. |
| `MemberLaws.BuildReports` | internal/merge/pipeline.go:305-306 | The build reports a collision for each proxy whose name was taken and for no other, with that name and both sources; and exactly the group conflicts there are. |
| `BuildLaws.BuildRoutesLayered` | internal/merge/rules.go:82-111 | First-match routing through the final rules equals the own first match of the contributor that matches and has the least priority, then name, then position, its target replaced by the fallback if that group was pruned. |
| `TableLaws.BuildRoutesByRow` | internal/merge/rules.go:82-111 | Routing by the table: when an enabled row with a cached document has a match and comes before every other row and custom rule set with one, by smaller priority and then smaller name, the traffic goes where the first match of that document sends it, behind the row's name unless that is a built-in, or to the fallback if that group was removed. |
| `TableLaws.BuildRoutesByCustom` | internal/merge/rules.go:71-111 | A custom rule set that comes first in that order sends the traffic by its own first match, as it stands. |
| `TableLaws.BuildRoutesNobody` | internal/merge/rules.go:106-108 | Traffic that meets no such row's rules and no custom rule goes to the fallback. |
| `TableLaws.ContributorsExactly` | internal/merge/rules.go:52-80 | The contributors are exactly the enabled, cached rows that contribute a rule, each under its own name and priority, and behind them the custom rule sets with a rule, whole and with their own priority. |
| `TableLaws.RawPartExactly` | internal/merge/pipeline.go:293-300 | A source contributes, in order, all but the last of the rules it keeps: those that are no RULE-SET rules, and the RULE-SET rules whose provider its own block defines as a mapping. |
| `TableLaws.ServedRulesFrom` | internal/merge/rules.go:98-110 | Every served rule but the last stands under the priority and name of the row or custom rule set it comes from; the last is the fallback rule, under priority 0 and no name. |
| `BuildLaws.BuildRoutesUnmatched` | internal/merge/rules.go:106-108 | Traffic that no contributor matches goes to the fallback. |
| `BuildLaws.BuildRoutesRaw` | internal/merge/pipeline.go:274-300 | Traffic that an upstream contributor decides goes where the first match among the rules as its source wrote them sends it, under the source's prefix, or to the fallback if that group was pruned. |
| `BuildLaws.RawHitIsHit` | internal/merge/namespace.go:158-198 | A well-formed rule that is no RULE-SET rule is matched by the same traffic before and after namespacing. |
| `BuildLaws.ServedRules` | internal/merge/prune.go:114-130 | Pruning rewrites targets only: rules, priorities and contributors stay aligned, and the last two are those of the merge. |
| `BuildLaws.RuleSetsNameEmittedProviders` | internal/merge/pipeline.go:293-300 | Every RULE-SET rule with a target that a source contributes is served, still naming its provider, and that provider is emitted. |
| `BuildLaws.RuleSetResolvesExactly` | internal/merge/pipeline.go:448-455 | The provider that any served RULE-SET rule names, the operator's rules included, is emitted if and only if some source defines it. |
| `BuildLaws.EmittedProvidersReferenced` | internal/merge/pipeline.go:448-455 | Every emitted provider is named by a final RULE-SET rule. |
| `BuildLaws.EmittedIsDefined` | internal/merge/ruleset.go:136-153 | Every emitted pair is one source's key and mapping, namespaced. |
| `BuildLaws.BuildPathsExactly` | internal/merge/ruleset.go:54-57 | In the build's output, with keys without a slash, two definitions hold the same path if and only if they are of one source, their own paths are in one directory, and key plus extension are equal. |
| `BuildLaws.BuildPathsNeverShared` | internal/merge/ruleset.go:54-57 | In particular two definitions of different sources never do. |
| `BuildLaws.BuildNeverCollides` | internal/merge/pipeline.go:302-308 | With a loaded table and names distinct inside each source and the own file, merged proxies are the named entries in order under pairwise distinct names, groups merge verbatim, and no collision or conflict is recorded. |
| `BuildLaws.SourcesNamed` | internal/merge/pipeline.go:530-542 | The contributing sources of an accepted table have pairwise distinct lower-case names. |
| `BuildLaws.ContributesExactly` | internal/merge/pipeline.go:219-250 | A name contributes if and only if an enabled row carries it and the cache has a payload for it. |
| `TableLaws.SourcesExactly` | internal/merge/pipeline.go:219-250 | The build merges exactly the cached documents of enabled rows, by falling priority and, among equals, in table order, each under its row's name and priority, with the document's proxies, proxy-groups, rules and rule-providers. |
| `Yaml.ChildExactly` | internal/merge/yamlutil.go:26-54 | The sequence or mapping found under a key is the value of the first pair with that key and a value of that kind. |
| `Yaml.FieldExactly` | internal/merge/yamlutil.go:57-100 | A field is the first scalar under the key, a value the first of any kind. |
| `GeneratedLaws.BuildGeneratesRegions` | internal/merge/pipeline.go:326-367 | Before pruning, the passes append one adjacent url-test/load-balance pair per country class holding exactly that class in order, then one pair per continent holding its countries' lists in code order; no list is empty. |
| `GeneratedLaws.BuildServesRegions` | internal/merge/pipeline.go:326-426 | The served groups end with these pairs, each list minus the names of removed groups; the lists are served whole if and only if no upstream proxy shares its name with a removed group. |
| `GeneratedLaws.BuildServesSelector` | internal/merge/pipeline.go:309-426 | The served selector lists what it was given, the upstream proxies among it, then every region and every continent, minus the names of removed groups; it is whole if and only if none of them is one. |
| `GeneratedLaws.BuildFansOut` | internal/merge/pipeline.go:369-373 | Exactly one copy per own proxy without a dialer and dialer choice, laid out proxy by proxy, under pairwise distinct names, and every dialer choice is a group that is served after pruning. |
| `GeneratedLaws.BuildCopies` | internal/merge/fanout.go:61-89 | Every named proxy of the own-proxies file without a dialer is served through the selector, as `via_AUTO__` and its name, and through every generated group, with the group's name for a tag; all else is as in the file. |
| `GeneratedLaws.BuildProxyNamesDistinct` | internal/merge/pipeline.go:305-373 | With a loaded table and names distinct inside each source and the own file, all served proxies, copies included, have pairwise distinct names if and only if no source called `via` has a proxy named tag, two underscores, own name, for one of the copies. |
| `GeneratedLaws.ViaCanCollide` | internal/merge/fanout.go:76-88 | One accepted table with one source called `via`, with proxy `AUTO__x`, and an own proxy `x`: the build serves two proxies of the same name. |
| `GeneratedLaws.PlainNameResolves` | internal/merge/pipeline.go:274-426 | A name without an underscore resolves in the output if and only if it is a built-in or the selector. |
| `GeneratedLaws.DialerResolves` | internal/merge/namespace.go:36-44 | The dialer of an upstream proxy is served as the source wrote it, so one without an underscore resolves if and only if it is a built-in or the selector. |
| `BuildHeap.Build` | internal/merge/pipeline.go:208-501 | On the heap, the real fields of everything served spell out exactly the configuration the passes describe; proxies, groups and provider block are pairwise disjoint trees of new nodes; no node that existed before is changed. |
| `BuildHeap.BuildTwice` | internal/merge/pipeline.go:208-501 | Two builds on the same cache spell out equal configurations on disjoint sets of new nodes, and cache, own nodes and the first result survive the second build. |
| `BuildHeap.SortSources` | internal/merge/pipeline.go:530-542 | The enabled rows, sorted by descending priority, ties in table order. |
| `BuildHeap.ReadAll` | internal/merge/pipeline.go:219-250 | The sources with a cached payload, each read as lists of nodes of that payload. |
| `BuildHeap.NamespaceEvery` | internal/merge/pipeline.go:274-300 | Every source namespaced under its own name and priority, and its unbacked RULE-SET rules dropped; the provider mappings are new roots in source order. What the namespaced sources are, `Namespace.SourceRewrittenLaw`, `TableLaws.RawPartExactly` and `TableLaws.ContributorsExactly` say without it. |
| `BuildHeap.GenerateGroups` | internal/merge/pipeline.go:309-367 | Selector, region and continent groups as the value-level passes give them, written only into the merged groups. |
| `Subscriptions.ParseRows` | internal/config/subscriptions.go:134-178 | Loads exactly the well-named rows in order, or rejects at the first row that is invalid or repeats a name; accepted names are distinct and lower-case. |
| `Subscriptions.AcceptedExactly` | internal/config/subscriptions.go:148-175 | The accepted rows are those of the records with a well-formed name, in file order. |
| `Subscriptions.LowerNameExactly` | internal/config/subscriptions.go:15-17 | A well-formed name is one or more letters from a to z. |
| `RuleLine.FindTarget` | internal/merge/prune.go:147-175 | The target's text and byte range; splicing any text there equals replacing that field. |
| `RuleLine.RetargetLaw` | internal/merge/prune.go:117-130 | A retargeted rule has the new target, the same condition and all other fields. |
| `RuleLine.WrittenTarget` | internal/merge/prune.go:147-175 | The target of a rule written out of its fields is the field behind `MATCH`, the one before a trailing `no-resolve` with two fields in front of it, or the last; the provider is the second field of a `RULE-SET` rule. |
| `RuleLine.RewriteRuleTarget` | internal/merge/namespace.go:158-198 | The split-update-join loop computes the namespaced rule. |
| `RuleLine.NamespacedTarget` | internal/merge/namespace.go:158-198 | On a well-formed rule exactly the target, and a RULE-SET rule's provider, are prefixed and every other field is unchanged; the pruner finds the prefixed target in the same field; a rule that is no RULE-SET rule keeps its condition. |
| `RuleLine.WrittenNamespaced` | internal/merge/namespace.go:158-198 | On a rule written as head, target and any of `no-resolve`, `src` and `dport`: the target gets the prefix unless it is one of the four built-ins, the provider of a RULE-SET rule gets it always, and nothing else changes. |
| `RuleLine.NestedProviderKept` | internal/merge/namespace.go:164-168 | A line that does not start with RULE-SET names no provider, before or after namespacing, and keeps every field but the target, also where a logical rule holds a RULE-SET. |
| `RuleLine.NestedProviderIsNotPrefixed` | internal/merge/namespace.go:158-198 | `AND,((RULE-SET,p),(NETWORK,udp)),T`: the target gets the prefix, `p` does not. |
| `RuleLine.TargetsAgree` | internal/merge/namespace.go:170-187 | The pruner's and the namespacer's target fields are the same exactly when the pruner's field is no modifier and only modifiers follow it. |
| `Namespace.StripUndoesPrefix` | internal/merge/region.go:296-302 | Stripping the source prefix undoes prefixing, and leaves a name without an underscore alone. |
| `Namespace.PrefixedInjective` | internal/merge/namespace.go:36-57 | (source, name) to `source_name` is one-to-one for accepted source names. |
| `Namespace.NamespacesDisjoint` | internal/merge/namespace.go:70-113 | Prefixed names are neither own names nor built-ins. |
| `Namespace.RenamedLaw` | internal/merge/namespace.go:37-44 | A renamed node has the mapped name and stays regular. |
| `Namespace.MappedGroupLaw` | internal/merge/namespace.go:117-153 | A rewritten group has the mapped name and every member mapped, in order. |
| `Namespace.RewriteSource` | internal/merge/namespace.go:30-66 | The loops compute the namespaced source out of new nodes: every name and every member that is no built-in behind the source's name and an underscore, every other field as it was; the source's nodes are only read. |
| `Namespace.RewriteOwn` | internal/merge/namespace.go:70-153 | The own proxies and groups under `_`: of a group's members exactly those get the underscore that are no built-ins and that the own file defines; every other member passes through, and every other field is as it was. |
| `Namespace.OwnRewrittenLaw` | internal/merge/namespace.go:70-153 | The same of the functions the build's theorems speak of. |
| `Namespace.SourceRewrittenLaw` | internal/merge/namespace.go:30-131 | The same of the functions the build's theorems speak of. |
| `NodeHeap.Arena.Clone` | internal/merge/yamlutil.go:123-147 | A deep copy with an equal tree, made only of new nodes. |
| `NodeHeap.Arena.WriteField` | internal/merge/yamlutil.go:72-86 | Overwrites the field's value node in place; every other root is unchanged. |
| `NodeHeap.Arena.WriteValue` | internal/merge/yamlutil.go:103-118 | Replaces the value node or appends a pair. |
| `NodeHeap.Arena.WriteMembers` | internal/merge/yamlutil.go:167-175 | Installs a new list of string nodes under the key. |
| `NodeHeap.ReadField` | internal/merge/yamlutil.go:57-68 | The first scalar under the key, or the empty string. |
| `NodeHeap.ReadMembers` | internal/merge/yamlutil.go:151-163 | The scalar entries of the list under the key. |
| `Yaml.SetFieldSame` | internal/merge/yamlutil.go:72-86 | A written field is read back. |
| `Yaml.SetFieldWrites` | internal/merge/yamlutil.go:72-86 | A field is overwritten where it stands, as a string. |
| `Yaml.SetMembersWrites` | internal/merge/yamlutil.go:167-178 | A member list is written as a sequence of strings. |
| `Yaml.ScalarValuesExactly` | internal/merge/yamlutil.go:151-163 | The members read are the scalars of the list and nothing else of it. |
| `Yaml.SetValueOther` | internal/merge/yamlutil.go:103-118 | Setting one key leaves what is read under every other key. |
| `MergeNodes.DistinctProxiesMergeVerbatim` | internal/merge/proxies.go:34-82 | With distinct names the merge is the named proxies in order: none suffixed, lost or reported. |
| `MergeNodes.MergedProxiesCover` | internal/merge/proxies.go:34-82 | Whatever collides, every incoming name names an emitted proxy and the used names are exactly the emitted ones. |
| `MergeNodes.CollisionsRecorded` | internal/merge/proxies.go:61-77 | Each recorded collision is an upstream proxy whose name an earlier proxy or an earlier suffix had taken, with its suffixed name and the source of the first proxy of that name ("own" for an own one), or none if a suffix made the name up before. |
| `MergeNodes.EveryCollisionRecorded` | internal/merge/proxies.go:61-77 | Every upstream proxy whose name was taken before it is recorded so. |
| `MergeNodes.DistinctGroupsMergeVerbatim` | internal/merge/proxy_groups.go:79-144 | With distinct names groups are kept verbatim and no conflict is recorded. |
| `MergeNodes.MergedGroupsCover` | internal/merge/proxy_groups.go:79-144 | Merged group names are distinct and exactly the incoming ones, and no member appears that did not come in with a group. |
| `MergeNodes.MergedMembersExactly` | internal/merge/proxy_groups.go:89-132 | The members of a merged group are exactly those of the incoming groups of its name. |
| `MergeNodes.FirstGroupKept` | internal/merge/proxy_groups.go:95-114 | The first group of a name keeps all its other fields, and its members come first. |
| `MergeNodes.UnionListExactly` | internal/merge/proxy_groups.go:103-114 | Members are appended in order, each at its first occurrence and only if it was not there. |
| `MergeNodes.ConflictReportExactly` | internal/merge/proxy_groups.go:116-131 | The conflict report lists exactly the later groups that set `type`, `url`, `interval`, `tolerance` or `lazy` differently from the first group of their name, with both values and both sources. |
| `MergeNodes.ConflictsExactly` | internal/merge/proxy_groups.go:114-133 | A conflict is recorded exactly for a compared attribute both groups set differently. |
| `MergeNodes.WithSelectorLaw` | internal/merge/proxy_groups.go:32-58 | The selector exists afterwards and holds every proxy; every other group is unchanged. |
| `MergeNodes.WithSelectorExactly` | internal/merge/proxy_groups.go:32-58 | The selector, called `Proxies` unless configured otherwise, lists the proxies behind the members it had. |
| `MergeNodes.SelectorNodeLaw` | internal/merge/proxy_groups.go:53-57 | A new selector is a group of type `select` with the given name and members. |
| `MergeHeap.MergeProxies` | internal/merge/proxies.go:34-82 | The loops compute the proxy merge on fresh clones. |
| `MergeHeap.MergeProxyGroups` | internal/merge/proxy_groups.go:79-144 | The `add` closure over own and source groups computes the group merge, updating merged groups in place. |
| `GroupHeap.AppendProxiesGroup` | internal/merge/proxy_groups.go:32-58 | Augments the selector in place or appends a new one. |
| `GroupHeap.NewUrlTest` | internal/merge/region.go:41-51 | Builds the url-test node out of new nodes. |
| `Regions.UrlTestFields` | internal/merge/region.go:41-51 | Each health-check parameter stands under its own key, numbers and booleans tagged as such; there is no other field but the member list. |
| `Regions.LoadBalanceFields` | internal/merge/region.go:60-71 | Each load-balance parameter stands under its own key, numbers and booleans tagged as such; there is no other field but the member list. |
| `GroupHeap.AppendRegionGroups` | internal/merge/region.go:82-167 | Computes the region pass for every order in which the country map is ranged over. |
| `GroupHeap.AppendContinentGroups` | internal/merge/region.go:178-281 | Computes the continent pass for every order in which the continent map is ranged over. |
| `Sorting.SortedKeysAnyOrder` | internal/merge/region.go:113-118 | Any listing of a key set sorts to the same sequence. |
| `Sorting.StableSortIsStable` | internal/merge/rules.go:82-87 | The sort permutes its input, orders it, and keeps the order of equals. |
| `Text.LessExactly` | internal/merge/rules.go:86 | One name is smaller if it has the smaller character at the first difference or is a proper prefix. |
| `RegionTable.DecodeIndicators` | internal/merge/region_table.go:151-169 | The letters of the first adjacent pair of regional indicators, or none if there is no such pair. |
| `RegionTable.InferredCodes` | internal/merge/region_table.go:208-236 | An inferred country is always two capital letters. |
| `RegionTable.InferExactly` | internal/merge/region_table.go:205-236 | A name is classified by its first flag; without a flag by the first Chinese entry that occurs in it; without one by the first English entry that occurs in its lower-case form; and otherwise not at all. U+1F1E6 stands for A and the next 25 for the other letters. |
| `Text.ToLowerExactly` | internal/merge/region_table.go:225 | Lower-casing maps A to Z to a to z and leaves the rest of ASCII alone. |
| `RegionTable.ContinentLookup` | internal/merge/region_table.go:57-64 | In a valid table every listed pair is the one found. |
| `RegionTable.ContinentExactly` | internal/merge/region_table.go:57-64 | A country is on a continent exactly when the table lists the pair. |
| `Regions.BucketIsSubsequence` | internal/merge/region.go:93-111 | A class's list is the subsequence of exactly the names of that class, in input order. |
| `Regions.UpstreamNamesExactly` | internal/merge/pipeline.go:316-323 | The upstream names are the proxy names that do not begin with an underscore, in order. |
| `Regions.ClassOfProxy` | internal/merge/region.go:99-108 | An upstream proxy is classified by its name without the source's prefix. |
| `Regions.RegionKeysExactly` | internal/merge/region.go:111-145 | The region keys are the codes of the classified names in ascending order, and `UNKNOWN` behind them exactly if some name has none. |
| `Regions.RegionsPartition` | internal/merge/region.go:93-152 | Every upstream name is in the group of its class and in no other. |
| `Regions.EmitPairsLaw` | internal/merge/region.go:122-133 | Each key's url-test group is followed at once by its load-balance sibling with equal members. |
| `Regions.ContinentsConcatenate` | internal/merge/region.go:240-258 | A continent's list is its countries' lists one after the other in code order, and is not empty. |
| `RuleMerge.MergeUnifiedRules` | internal/merge/rules.go:46-111 | The collecting, sorting and appending loops compute the merged rules. |
| `RuleMerge.RoutingIsLayered` | internal/merge/rules.go:82-111 | The layered-lookup theorem for arbitrary contributors and removed groups. |
| `RuleMerge.UnmatchedGoesToFallback` | internal/merge/rules.go:106-108 | The fallback rule decides when nobody matches. |
| `RuleProviders.DropUnbacked` | internal/merge/ruleset.go:103-116 | Keeps, in order, exactly the rules that are no RULE-SET rule or whose provider is defined, and reports exactly the others, in order. |
| `RuleProviders.SkippedExactly` | internal/merge/ruleset.go:43-49 | The definitions reported as malformed are exactly those that are no mapping, by key and in order. |
| `RuleProviders.CollectReferenced` | internal/merge/ruleset.go:121-130 | The providers named by RULE-SET rules. |
| `RuleProviders.EmittedLaw` | internal/merge/ruleset.go:136-153 | A key is emitted exactly when it is referenced and some source defines it. |
| `RuleProviders.EmittedBlock` | internal/merge/ruleset.go:136-153 | What is emitted is one plain mapping of pairs; nothing is emitted exactly when no wanted key is defined. |
| `RuleProviders.PathsNeverShared` | internal/merge/ruleset.go:74-85 | Providers of different sources never share a cache path when keys contain no slash. |
| `RuleProviders.PathsEqualExactly` | internal/merge/ruleset.go:74-85 | With keys without a slash two cache paths are equal if and only if source and directory are, and key plus extension. |
| `RuleProviders.NamesShareExactly` | internal/merge/ruleset.go:74-85 | Any two namespaced keys can get the same cache path, for some original paths, if and only if they are equal up to an extension or one stands behind a slash of the other, up to an extension. |
| `RuleProviders.PathsSharedExactly` | internal/merge/ruleset.go:74-85 | For different sources: if and only if behind a slash of one key stands the other namespaced key, up to an extension. |
| `RuleProviders.OwnPathsSharedExactly` | internal/merge/ruleset.go:74-85 | Inside one source: the same, or the keys are equal up to an extension. |
| `RuleProviders.OwnPathsCanBeShared` | internal/merge/ruleset.go:74-85 | Such keys: `geo` and `geo.yaml`. |
| `RuleProviders.PathsCanBeShared` | internal/merge/ruleset.go:74-85 | Such keys: `x/b_y` of source `a` and `y` of source `b`. |
| `RuleProviders.ProviderPath` | internal/merge/ruleset.go:54-57 | A namespaced definition holds the distinct path. |
| `RuleProviders.PathWritten` | internal/merge/ruleset.go:74-85 | In a path written as directory, base name and extension the key replaces the base name. |
| `RuleProviders.PairExactly` | internal/merge/ruleset.go:50-64 | A namespaced definition has the prefixed key, its own path, its fetch-through proxy prefixed unless that is a built-in, and every other field as the source wrote it. |
| `PassHeap.RewriteSourceRuleProviders` | internal/merge/ruleset.go:37-67 | Nothing for a block that is absent or no mapping; otherwise the well-formed definitions namespaced on fresh clones, and the others reported. |
| `PassHeap.ReadProviderKeys` | internal/merge/ruleset.go:88-97 | The keys a provider mapping defines. |
| `PassHeap.MergeRuleProviders` | internal/merge/ruleset.go:136-153 | Moves the referenced pairs into one new mapping, none if there are none; the nodes stay well-formed trees and none but the given mappings is given up. |
| `PassHeap.AppendFanoutProxies` | internal/merge/fanout.go:35-91 | The nested loops compute the copies on fresh clones and count the skipped proxies. |
| `Fanout.CopiesLaw` | internal/merge/fanout.go:62-89 | (own proxies without a dialer) x (1 + targets) copies, and which copy is where. |
| `Fanout.CopyLaw` | internal/merge/fanout.go:76-88 | A copy differs from its own proxy in nothing but name and dialer. |
| `Fanout.CopyExactly` | internal/merge/fanout.go:74-88 | The name and the dialer of each copy, letter by letter. |
| `Fanout.EligibleExactly` | internal/merge/fanout.go:61-73 | The own proxies that fan out are exactly the named mappings without a dialer, in order. |
| `Fanout.SkippedExactly` | internal/merge/fanout.go:70-73 | The skipped count is the number of named mappings with a dialer. |
| `Fanout.CopyNamesDistinct` | internal/merge/fanout.go:76-88 | With clean distinct tags, equal copy names mean the same dialer choice and own name. |
| `PassHeap.PruneEmptyProxyGroups` | internal/merge/prune.go:54-133 | The three passes compute the pruning; survivors are cleaned in place, rules in a new slice. |
| `Prune.PruneMembersLaw` | internal/merge/prune.go:69-115 | Exactly the unprotected empty groups go; a survivor keeps its name and its members minus the removed names. |
| `Prune.SurvivorsExactly` | internal/merge/prune.go:77-89 | The groups that stay are those with a member, the selector and the group the fallback names, in order. |
| `Prune.CleanedExactly` | internal/merge/prune.go:96-112 | Cleaning a group drops exactly the removed names from its members, in order, and leaves every other field. |
| `Prune.KeptExactly` | internal/merge/prune.go:98-109 | A survivor's members are those that name no removed group, in order. |
| `Prune.PruneClosesMembers` | internal/merge/prune.go:96-112 | Members that resolved before pruning resolve after it. |
| `Prune.PruneClosesTargets` | internal/merge/prune.go:117-130 | Rule targets that resolved before pruning resolve after it. |
| `Prune.ServedNameExactly` | internal/merge/prune.go:77-88 | A name is served exactly when some group of that name has a member or is protected. |
| `Prune.ServedEmptyExactly` | internal/merge/prune.go:96-112 | A served group has no members exactly when every member of that survivor named a removed group. |
| `Prune.PruneFillsExactly` | internal/merge/prune.go:77-112 | Every served group has a member if and only if no protected group was empty and no group's members all named removed groups. |
| `Prune.RetargetsExactly` | internal/merge/prune.go:117-130 | The redirect log lists exactly the rules whose target was removed. |
| `Prune.PruneDoesNotCascade` | internal/merge/prune.go:96-112 | Two groups, one empty and one with only that member: the second is served empty. |
| `Coordinator.RunKeepsInv` | internal/fetcher/scheduler.go:174-304 | The protocol's invariant holds in every state of every execution. |
| `Coordinator.RunIsForward` | internal/fetcher/scheduler.go:381-396 | Over any stretch of an execution ready stays closed, `Succeeded` is absorbing, no source returns to pending, and releases are kept. |
| `Coordinator.ReleasedOnce` | internal/fetcher/scheduler.go:253-304 | Each goroutine releases the wait-group at most once, exactly once by the time it ticks or has exited, and the count is never negative. |
| `Coordinator.ReadyMeansReleased` | internal/fetcher/scheduler.go:195-197 | Ready is closed only after every enabled source has released. |
| `Coordinator.PendingExactly` | internal/fetcher/scheduler.go:244-304 | With ready closed, an enabled source is still pending if and only if its goroutine left the bootstrap because it saw the cancellation. |
| `Coordinator.ReadyMeansTerminal` | internal/fetcher/scheduler.go:118-121 | If ready was closed before the cancellation, no enabled source is ever pending again. |
| `Coordinator.CancelCanLeavePending` | internal/fetcher/scheduler.go:255-284 | For every configuration with an enabled source there is an execution, cancelled at the start, that ends ready with every enabled source pending. |
| `Coordinator.NeverRefreshBound` | internal/fetcher/scheduler.go:261-322 | A never-refresh source fetches at most max(1, maxAttempts) times. |
| `Coordinator.BootstrapIsBounded` | internal/fetcher/scheduler.go:247-303 | Whatever the fetches bring and whenever a cancellation is seen, a source takes at most three steps per attempt and one more before it releases the wait-group. |
| `Coordinator.NeverStuck` | internal/fetcher/scheduler.go:174-197 | In every reachable state in which the start is blocked, ready can be closed or a source that has not released can move. |
| `Coordinator.ExitIsNear` | internal/fetcher/scheduler.go:261-345 | From every reachable state after a cancellation, each launched source can exit by itself within four steps. |
| `Coordinator.FailedMeansExhausted` | internal/fetcher/scheduler.go:253-304 | No source fails early: one that is failed has been through every attempt from the first to the configured last. |
| `Coordinator.MarkExactly` | internal/fetcher/scheduler.go:381-396 | A mark leaves failed after the last attempt and succeeded otherwise, be it the first success or a tick's. |
| `Coordinator.CheckAllSucceeded` | internal/fetcher/scheduler.go:124-136 | True exactly when every enabled source has succeeded. |
| `Coordinator.GateOnlyMovesForward` | internal/server/routes/subscription.go:59-74 | A request that starts after another was answered gets an answer no less far: warming up, failed, serve. |
| `Coordinator.GateMeaning` | internal/server/routes/subscription.go:59-74 | The gate warms up exactly until ready is closed, serves exactly when all enabled sources have succeeded by then, and answers failed exactly when some enabled source has failed or left its bootstrap on a cancellation. |
| `Startup.RunKeepsInv` | internal/fetcher/scheduler.go:353-368 | Coordinator, clock and cache together: in every state of every execution a refresh is under way exactly in the two phases that call it, and what is about to be marked successful has a payload. |
| `Startup.Projects` | internal/fetcher/scheduler.go:174-351 | Every execution of the whole is an execution of the coordinator, so the laws above hold for it. |
| `Startup.MissingExactly` | internal/fetcher/scheduler.go:327-349 | A source that has succeeded is without a payload if and only if a tick whose fetch failed has dropped it past its window and nothing was fetched since. |
| `Startup.ServeMeansCached` | internal/server/routes/subscription.go:47-74 | When the gate serves, every enabled source has a payload or lost it that way; one that never refreshes has a payload. |
| `Startup.ServeMerges` | internal/merge/pipeline.go:219-226 | When the gate serves, an enabled source contributes to the build that follows if and only if no tick has dropped it with nothing fetched since. |
| `Startup.HasExactly` | internal/fetcher/cache.go:184-206 | In every state of every execution a source has a payload if and only if it had one from disk or fetched one, and no tick has dropped it since. |
| `Startup.PayloadExactly` | internal/fetcher/cache.go:184-206 | In every state of every execution the payload a source has is the one its last successful fetch brought, or the one from disk if none did, and no tick has dropped it since. |
| `Startup.UnmetHasExactly` | internal/fetcher/scheduler.go:261-349 | A source that has not succeeded, whenever one looks, has a payload if and only if it had one from disk or a fetch brought one that could not be written, and no tick has dropped it since. |
| `Startup.MergesExactly` | internal/merge/pipeline.go:219-226 | In every state an enabled source contributes to a build that reads the cache then if and only if it is so supplied. |
| `Startup.MergesLastBrought` | internal/merge/pipeline.go:219-250 | A build that reads the cache then merges, for an enabled source, the document of that payload, under the row's name and priority. |
| `Startup.FailedMerges` | internal/server/routes/subscription.go:51-74 | When the gate answers failed, some enabled source has failed or was cancelled while pending; such a source, unless a tick has just refreshed it, would contribute exactly when it had a payload from disk or an unwritten one, not dropped since; and some enabled source would be missing if and only if one is not supplied. |
| `Startup.AgeAtLanding` | internal/fetcher/scheduler.go:327-349 | If no refresh takes longer than d, a payload that remains after a tick is at most max(window, ttl + d) old. |
| `Startup.AgeAlways` | internal/fetcher/scheduler.go:323-351 | If moreover ticks end at most gap apart, it is never older than that plus gap from the first tick on. |
| `Startup.FailedCanHave` | internal/server/routes/subscription.go:51-52 | One source with a stale payload from disk whose only attempt fails: the gate answers failed although the payload is there. |
| `FetchCache.Cache.State` | internal/fetcher/cache.go:79-90 | Missing, fresh or stale by age against the ttl. |
| `FetchCache.Cache.Set` | internal/fetcher/cache.go:106-123 | Stores and clears the failure whether or not the snapshot could be written; only the error tells. |
| `FetchCache.Cache.MarkFailed` | internal/fetcher/cache.go:127-139 | Records the failure and keeps the payload. |
| `FetchCache.Cache.RefreshIfStale` | internal/fetcher/cache.go:173-208 | One caller's refresh computes the entry-level function, whose result `FetchCache.RefreshExactly` gives, and touches no other source. |
| `FetchCache.RefreshExactly` | internal/fetcher/cache.go:184-206 | A refresh fetches exactly if there is no payload younger than the ttl. A fetched payload is stored under the stamp of the start and handed out, written or not; a failure keeps and hands out the old payload under its old stamp and is recorded; nothing changes otherwise. |
| `FetchCache.RefreshKeepsServing` | internal/fetcher/cache.go:184-206 | A refresh never loses a payload; a fetched one is fresh until ttl after the fetch began; a failure changes neither payload nor freshness. |
| `FetchCache.PersistFailureHeals` | internal/fetcher/cache.go:199-204 | After a failure to persist only, the next attempt within the ttl neither fetches nor fails. |
| `FetchCache.AgeAfterTick` | internal/fetcher/scheduler.go:327-349 | After a tick a remaining payload is at most max(ttl, window) old. |
| `FetchCache.AgeBetweenTicks` | internal/fetcher/scheduler.go:323-351 | From the first tick on it is never older than that plus one ttl. |
| `FetchCache.AgeWhenAllSucceed` | internal/fetcher/scheduler.go:323-351 | If the source starts fresh and every fetch succeeds, the payload is always there and younger than twice the ttl. |
| `FetchCache.DroppedOnlyPastWindow` | internal/fetcher/scheduler.go:400-415 | A payload disappears exactly when a tick's fetch fails and it is stale and past the window. |
| `SingleFlight.OneFetchInFlight` | internal/fetcher/cache.go:189-206 | Under any interleaving at most one caller is past the gate, so at most one fetch is in flight. |
| `SingleFlight.ReturnsWithFlight` | internal/fetcher/cache.go:184-206 | A caller that found the payload not to be fresh returns only when its own flight or the one it joined lands; that flight had its answer before (fresh on the second look, a stored payload under the start stamp, or a recorded failure beside the old payload), and all its callers return. |
| `SingleFlight.SuccessesAreSpaced` | internal/fetcher/cache.go:189-206 | Successful fetches with no drop between them have start stamps at least ttl per success apart. |
| `Unescape.UnescapeSupplementaryPlane` | internal/output/subscription_mode.go:471-510 | The byte loop computes the scan, whose effect on escapes `Unescape.SupplementaryRewritten` and `Unescape.RewritableExactly` give. |
| `Unescape.SupplementaryRewritten` | internal/output/subscription_mode.go:484-494 | For every code point from U+10000 to U+10FFFF, printed with eight hexadecimal digits in capitals or not: an opening mark, the escape and whatever follows become the mark, the four bytes of the UTF-8 form and the scan of what follows. |
| `Unescape.SupplementaryScalar` | internal/output/subscription_mode.go:484-494 | In particular a scalar that holds just the escape becomes the scalar that holds just the character. |
| `Unescape.RewritableExactly` | internal/output/subscription_mode.go:484-494 | Rewritten are exactly a backslash and `U` with the eight digits, in any case, of a number below 2^31. |
| `Unescape.SpellsExactly` | internal/output/subscription_mode.go:486-487 | Reading hexadecimal digits is the inverse of printing them by division and remainder from the two alphabets. |
| `Unescape.HexExactly` | internal/output/subscription_mode.go:513-524 | The bytes that are digits, and the value of each. |
| `Unescape.EncodeRuneExactly` | internal/output/subscription_mode.go:489-491 | A code point is encoded as lead and continuation bytes that add up to it; what is no scalar value becomes U+FFFD. |
| `Unescape.SimpleExactly` | internal/output/subscription_mode.go:456-461 | The reference decoder's table of single-character escapes. |
| `Unescape.MeaningPreserved` | internal/output/subscription_mode.go:471-510 | A well-formed body whose rewritten escapes stand for no blank, control character, quotation mark or backslash reads the same token for token, and byte for byte outside scalars. |
| `Unescape.MeaningExactly` | internal/output/subscription_mode.go:484-494 | A well-formed body that escapes no backslash with `\U` reads the same if and only if no rewritten escape stands for a blank, a control character or a quotation mark. |
| `Unescape.LiteralReadsAnywhere` | internal/output/subscription_mode.go:487-494 | For one escape: its literal reads as the same code point in front of everything that could follow if and only if it is no blank, control character, quotation mark or backslash. |
| `Unescape.EncoderOutputKept` | internal/output/subscription_mode.go:456-461 | In particular a body whose `\U` escapes are U+10000 to U+10FFFF, as the encoder writes them, reads the same; scanner and decoder read digits as `Unescape.SpellsExactly` says. |
| `Unescape.RuneRoundTrip` | internal/output/subscription_mode.go:489-491 | Every scalar value's UTF-8 encoding decodes to it, whatever follows. |
| `Unescape.NoneRemains` | internal/output/subscription_mode.go:484-494 | In any body, well-formed or not, whose rewritten escapes are U+10000 to U+10FFFF, none remains. |
| `Unescape.UnchangedIffNone` | internal/output/subscription_mode.go:484-494 | A body is unchanged exactly when it has no rewritable escape; otherwise it gets shorter. |
| `Unescape.SecondPassIdle` | internal/output/subscription_mode.go:471-510 | A second pass over the output of such a body changes nothing. |
| `Unescape.NoneRemainsDecoded` | internal/output/subscription_mode.go:484-501 | In a well-formed body none remains if no rewritten escape stands for a quotation mark or a backslash. |
| `Unescape.SecondPassIdleDecoded` | internal/output/subscription_mode.go:471-510 | A second pass over the output of such a body changes nothing. |
| `Unescape.BackslashUndoesIdle` | internal/output/subscription_mode.go:484-501 | `"\U0000005CU00000041"`: a second pass changes the output, because the rewritten backslash makes a new escape. |
| `Unescape.QuoteUndoesIdle` | internal/output/subscription_mode.go:477-508 | `"\U00000022"\U00000041`: a second pass changes the output, because the rewritten mark swaps inside and outside. |
| `Unescape.EscapedBackslashSurvives` | internal/output/subscription_mode.go:495-501 | An escaped backslash before `U` and eight digits is copied untouched. |
| `Unescape.QuoteEscapeBreaks` | internal/output/subscription_mode.go:484-494 | `"\U00000022"` reads as a quotation mark; rewritten, it no longer decodes. |
| `Unescape.BackslashEscapeBreaks` | internal/output/subscription_mode.go:484-494 | `"\U0000005C"` reads as a backslash; rewritten, the backslash escapes the closing mark and it no longer decodes. |
| `Unescape.BackslashEscapeCanBeKept` | internal/output/subscription_mode.go:484-494 | `"\U0000005C\/"` reads the same before and after, so leaving out that escape is sufficient and not necessary. |
| `Reorder.MoveFieldToPosition` | internal/output/subscription_mode.go:296-319 | In place, swaps the key's pair into the slot, or does nothing if key or slot is absent. |
| `Reorder.ReorderProxyGroupFields` | internal/output/subscription_mode.go:256-293 | In place, moves the keys of the layout its type selects. |
| `Reorder.ReorderedLaw` | internal/output/subscription_mode.go:256-319 | The pairs are permuted and never split; with distinct keys every listed key that is present and has a slot ends in it. |
| `Reorder.LayoutExactly` | internal/output/subscription_mode.go:256-293 | The listed keys and their order, for groups of type `load-balance` and for all others. |
| `Reorder.ReorderNameFirst` | internal/output/subscription_mode.go:206-219 | In place, with an overlapping copy, rotates the name pair to the front. |
| `Reorder.NameFirstLaw` | internal/output/subscription_mode.go:206-219 | The name pair comes first and all others keep their order; without a name nothing moves. |
| `Comments.NormalizeRulesPriorityComments` | internal/output/subscription_mode.go:408-454 | Writes a header exactly where a run of a non-zero priority starts, naming the run's contributors. |
| `Comments.HeadersOnMerged` | internal/output/subscription_mode.go:408-454 | On merged rules: one header per non-zero priority, on its first rule, listing exactly its contributors, sorted, each once. |
| `Comments.OnlyHeadsChange` | internal/output/subscription_mode.go:438-452 | Of a rule only the head comment changes, and only where a header starts. |
| `Comments.HeaderExactly` | internal/output/subscription_mode.go:438-449 | The text of a header: the priority and, in brackets, the names with a comma and a space between them. |
| `Comments.MergedPriorities` | internal/merge/rules.go:82-110 | Merged priorities ascend, then the fallback's 0. |
| `Userinfo.ParseSubscriptionUserinfo` | internal/fetcher/headers.go:40-97 | The field loop computes the parse, with each error case. |
| `Userinfo.RoundTrip` | internal/output/subscription_mode.go:157-159 | For all 64-bit values, parsing the emitted header gives back the four numbers with nothing missing. |
| `Userinfo.ParseOfPrint` | internal/fetcher/headers.go:61-64 | Every 64-bit number survives printing and parsing. |
| `Userinfo.PrintExactly` | internal/output/subscription_mode.go:157-159 | Numbers are printed in decimal, most significant digit first, behind a minus sign if negative. |
| `Userinfo.EmitExactly` | internal/output/subscription_mode.go:157-159 | The served header, letter by letter. |
| `Userinfo.ParseExactly` | internal/fetcher/headers.go:40-97 | Parsing succeeds exactly if the text is not blank, every field is blank or sets a key to an integer, and one of the four keys is set; each key has the number of the last field that sets it, and the keys never set are listed in order. |
| `Userinfo.ParseProblem` | internal/fetcher/headers.go:40-97 | Otherwise the first field that cannot be read is reported, with the reason, or that the text is blank or sets none of the keys. |
| `Userinfo.TrimExactly` | internal/fetcher/headers.go:40-64 | Trimming removes white space at both ends and nothing else. |
| `Userinfo.AsciiSpace` | internal/fetcher/headers.go:40-64 | White space below U+0080 is tab to carriage return, and space. |
| `DailySpend.ComputeUsedToday` | internal/dailyspend/snapshot.go:213-229 | The sum of clamped growths, for every order in which the sources are ranged over. |
| `DailySpend.SplitUsedToday` | internal/dailyspend/snapshot.go:232-265 | The shares from the same totals, for every order. |
| `DailySpend.SumsAnyOrder` | internal/dailyspend/snapshot.go:218-228 | The totals do not depend on the order of the sources. |
| `DailySpend.PlusExactly` | internal/dailyspend/snapshot.go:218-251 | What a source adds to the sums: its growth, weighted with its recorded ratio or 0; nothing without a baseline or growth. |
| `DailySpend.SplitConserves` | internal/dailyspend/snapshot.go:232-265 | Upload plus download is what was used; with ratios in [0, 1] upload is the weighted sum rounded, within half a byte, and no clamp fires. |
| `DailySpend.SumsSinceCapture` | internal/dailyspend/snapshot.go:213-258 | The totals since a capture, from the counters themselves: each source that was captured counts its growth, at least nothing, and as upload that growth times upload over upload plus download at the capture. |
| `DailySpend.RoundExactly` | internal/dailyspend/snapshot.go:256-258 | Rounding is to the nearest integer, halves away from zero. |
| `DailySpend.SharesExactly` | internal/dailyspend/snapshot.go:232-265 | The split of any used bytes by any sums: nothing of nothing, all download if no source has grown, otherwise the used bytes times the average ratio, rounded and kept between nothing and everything. |
| `DailySpend.CaptureSnapshot` | internal/dailyspend/snapshot.go:271-292 | Records every source's counter and upload ratio, for every order: the ratio times upload plus download is upload, and it is 0 if the counter is not positive. |
| `DailySpend.CapturedIsRecorded` | internal/dailyspend/snapshot.go:280-290 | The same of the function the ledger's theorems speak of. |
| `DailySpend.CapturedIsValid` | internal/dailyspend/snapshot.go:109-125 | A snapshot captured from non-negative counters passes validation. |
| `Traffic.ComputeDailyAllowance` | internal/merge/traffic.go:187-217 | Rate, no-expiry bytes and expired names over the sources in name order. |
| `Traffic.AllowanceExactly` | internal/merge/traffic.go:187-217 | An expired plan is listed and adds nothing; one without expiry adds all that is left; any other adds its rate. |
| `Traffic.RemainingExactly` | internal/merge/traffic.go:197-204 | What is left of a plan is total minus upload and download, never less than nothing. |
| `Traffic.RateFitsPlan` | internal/merge/traffic.go:206-212 | Rate times remaining days never exceeds the remaining bytes, no larger rate would do, and the days are the time left rounded up. |
| `Traffic.ComposeServedTrafficHeaderWithSpend` | internal/merge/traffic.go:68-106 | The header and the snapshot in force, captured exactly when rollover is needed; nothing without userinfo. |
| `Traffic.HeaderExactly` | internal/merge/traffic.go:68-106 | The header expires at the request's midnight and totals allowance and used; a rollover pins the rates and what is left without expiry, any other request repeats the pinned allowance. |
| `Traffic.MapSnapshotter.Serve` | internal/merge/pipeline.go:398-411 | Load, compose, save: a snapshot is stored exactly when one was captured and the save succeeds. |
| `Traffic.EmittedAllowance` | internal/output/subscription_mode.go:151-159 | Emitted total minus upload minus download is the pinned allowance exactly when the sum of allowance and used is not 0 or nothing was used. |
| `Traffic.EmittedAllowanceHolds` | internal/output/subscription_mode.go:151-159 | With a non-negative pinned allowance it is the allowance on every path. |
| `Traffic.RolloverExactly` | internal/dailyspend/snapshot.go:197-205 | Over any sequence of requests with non-negative counters, rollover fires on a later request exactly when its day differs from that of the request before, and on the first exactly when nothing of its day with allowance and ratios in range is stored. |
| `Traffic.PinnedUntilRollover` | internal/merge/traffic.go:84-106 | Snapshot, allowance and date are constant until the next rollover. |
| `Traffic.UsedIsZeroAtRollover` | internal/merge/traffic.go:87-93 | Nothing is used at a rollover. |
| `Traffic.UsedIsGrowth` | internal/dailyspend/snapshot.go:213-229 | For fixed sources with non-decreasing counters, used equals the total growth since the rollover. |
| `Traffic.HeaderSinceRollover` | internal/merge/traffic.go:84-106 | Between rollovers, whatever sources come and go, used is the sum of the growths since the rollover, upload is the rounded sum of each growth times the share of upload its counters had then, and download is the rest. |
| `Traffic.OneSourceSinceRollover` | internal/dailyspend/snapshot.go:232-265 | With one source: growth times upload over upload plus download at the rollover, rounded. |
| `Traffic.SavedSnapshotsLoad` | internal/dailyspend/snapshot.go:53-72 | With non-negative counters every saved snapshot is loaded again as it was. |

## Left out

- Parsing and encoding of YAML, JSON, CSV and URLs, and all file access: the model starts from parsed nodes, trimmed records and snapshots, and a failed disk write is an outcome.
- Node style, line numbers, anchors and alias targets: carried along by the merge layer, never read by it.
- HTTP client and server, authentication, user-agent filter, logging, file watching, configuration and token loading.
- `ForceRefresh`, which bypasses the single-flight gate.
- Time zones and daylight saving: the local day and the next midnight of a request are inputs.
- Floating-point rounding and 64-bit overflow in the ledger: ratios are exact reals, counters unbounded integers.
- The entries of the country tables: any tables that pass the start-up validation.
- Selection of ttl and stale window from a row and the defaults (`ttlFor`, `fetchTTLFor`, `staleWindowFor`): the chosen values are inputs.
- `AggregateSubscriptionUserinfo` and `AggregateProfileUpdateInterval`: a sum and two minima, easy members.
- `BuildHeap.Build` reads the cache once per call; the two reads of the same entry in the source are taken to see the same payload. The traffic header of a build is modelled in `Traffic`.
- `MergeRuleProviders` in the source lets the new mapping share pair nodes with the old ones; the model gives up the old mappings, which nothing reads afterwards.
- `Unescape.Decode` opens a scalar at every quotation mark outside one, as the scanner does. A mark in a plain or single-quoted scalar or in a comment puts the scanner out of step with YAML; bodies that hold one are outside the laws about meaning.
- `Unescape.Decode` gives tokens before line folding, with literal blanks and line breaks told apart from escaped ones.
- `Unescape.MeaningExactly`: not stated for bodies with `\U0000005C`. There the rewritten backslash pairs up with what follows, which can break the body or leave its reading alone, so the condition on the escapes is sufficient only (`Unescape.MeaningPreserved`).
- Several callers refreshing one source: `SingleFlight` has them, `Startup` has the one goroutine per source that the program starts, with the start stamp read at the freshness check.
- Ages in `FetchCache` are for one source under instant fetches and punctual ticks; `Startup.AgeAlways` bounds them for fetches that take time and ticks that end at most a given time apart.
