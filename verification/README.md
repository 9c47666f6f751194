# A verified model of webTraffik's core

webTraffik is a traffic sensor: it listens on many ports, records who connects, fingerprints TLS clients,
limits and bans noisy sources (also in the kernel, through XDP), stores events and metrics in SQLite, and
offers a search language and campaign clustering over what it saw. This project models the parts whose
behaviour is decided by algorithms and protocols rather than by I/O, and proves what they promise on every
input, every run and every interleaving.

`dafny verify dfyconfig.toml` checks everything. There is one module per component:

- Campaigns: `Ordering`, `FingerprintForest`, `Campaigns`, `CampaignRanking`, `CampaignMeaning` (every field of a campaign,
  read off the rows).
- Search: `QueryLanguage`, `QueryReading` (the web client's grammar), `SqlText`, `SqlSearch`, `HistoryQuery`, `Like` (the
  server's compiler to SQL), `SearchWords`, `SearchMeaning` (which rows a search keeps), `TermMatching` (the in-memory evaluator).
- Limits: `RateLimit`, `ScanTracker`, `BanLifecycle`, `KernelSync`.
- TLS: `ClientHello`, `HelloEncoding`, `Numerals`, `HelloHashes`, `HelloInvariance`, `HelloTexts` (what stands in a
  fingerprint), `HelloAcceptance` (which bytes are accepted).
- Pipeline: `WriteLoop`, `Pipeline`, `Metrics`.
- Kernel filter: `Xdp`, `XdpEnforcement`, `XdpEvents` (which packets are counted, dropped and reported).
- Wire codecs and the UDP reply limiter: `VarInts`, `Minecraft`, `Mqtt`, `ReplyLimiter`.
- Shared: `Basics` (optional values, keys, ASCII case, splitting, bytes, big-endian words), `Bits` (bitwise operators on numbers).

How things are modelled. Objects that the program updates in place are classes whose methods are proved
against a specification function or against a step of a state machine; loops stay loops. Each mutex critical
section is one atomic step, each Go channel a bounded sequence with a closed flag, map iteration takes any
order, and a run is any finite sequence of steps. Clocks are explicit integers in nanoseconds. Hashes, case
folding, time parsing and other library calls are parameters.

## What the proofs show about the code

- `first_seen` of a campaign can depend on the row order. It does so exactly when the earliest time in the
  class is Go's zero time and another time is later, as with the times 0 and 1 (`Campaigns.FirstSeenOrderFree`,
  `Campaigns.SummaryOrderFree`, `Campaigns.FirstSeenExample`). Only classes with enough addresses matter for the set of
  campaigns (`CampaignRanking.ReportedOrderFreeIff`).
- The returned campaign list is determined by the rows exactly when no class ranked inside the cut ties with another
  on address count, event count and id; ties beyond the cut do not matter (`CampaignRanking.ClusterDeterminedIff`).
  Two rows that share nothing tie in every cut when their ids collide (`CampaignRanking.TiedRowsTie`). The list is also the same for
  every order of the rows exactly when, in addition, no class inside the cut has the zero time as its earliest and a later one
  (`CampaignRanking.ListOrderFreeIff`).
- A negated free word loses its sign when a query is printed. Everything else survives: the round trip, `addTerm`
  and `toggleTerm` are exact precisely for the other terms (`QueryLanguage.RoundTripIff`,
  `QueryLanguage.AddEstablishes`, `QueryLanguage.ToggleFlips`).
- The flood rule of the limiter decides nothing in any run whose calls are held up for less than 587 seconds between their
  two clock readings, and 587 seconds is the exact bound: with that delay, 29 events make it fire where the volume rule does
  not (`RateLimit.FloodRedundantIff`).
- The scan tracker reads the clock before it takes its lock. A hit that is overtaken on the way to the lock can make a port of
  the window forgotten, and then five ports are no scan. The verdict counts exactly the ports of the
  window that were not forgotten, so it never errs the other way, and in lock order it is the direct count (`ScanTracker.VerdictExactIff`,
  `ScanTracker.OvertakenHit`, `ScanTracker.VerdictsAreDirectCounts`).
- The comment on the scan tracker's sweep says that it bounds memory. An address has an entry exactly when it was hit and, if a
  sweep cleared it since its last scan, hit again since; so an address that was hit and never scanned keeps its entry for ever
  (`ScanTracker.EntryIff`, `ScanTracker.UndetectedEntriesStay`, `ScanTracker.OneHitStays`).
- Kernel bans are set and removed by goroutines of their own. The kernel agrees with the ban set on a key exactly when an even
  number of changes lies between the call made last and the last change, so an unban overtaken by its ban leaves the kernel
  dropping a key that is not banned (`KernelSync.AgreeIff`, `KernelSync.OvertakenBan`).
- A goroutine left over from a manually lifted ban also lifts a later ban of the same key, before its time. A ban holds
  until it expires exactly when no such goroutine can wake before then (`BanLifecycle.LostEarlyIffStale`,
  `BanLifecycle.RebanLostIff`, `BanLifecycle.LeftoverGoroutineExample`). When goroutines run at once, the later ban is
  lost, in every run, exactly if it came within an hour of the first (`BanLifecycle.RebanMustBeLostIff`).
- The tag filter agrees with `SplitTags` on every column exactly for non-empty tags without a comma, and
  `SplitTags` undoes `JoinTags` exactly on comma-free lists other than the list of one empty tag
  (`Like.TagFilterExactIff`, `Like.SplitUndoesJoinIff`).
- The compiled statement, read back from its text and arguments, keeps exactly the rows its words describe: a free word occurs in one
  of seven columns, `ip:` is a prefix of the address, `tag:` is one of the tags, up to ASCII case; words of one key are
  alternatives and a minus sign excludes (`SearchMeaning.QueryKeepsIff`, `SearchMeaning.StatementMeansIff`).
- A minus sign keeps the complement on every row except for the keys `ja3`, `ja4`, `sni` and `user`, where it also drops the rows
  that do not have the field, because the comparison is NULL there; the in-memory evaluator keeps those rows
  (`SearchMeaning.UnknownIff`, `SearchMeaning.NegatedFieldDrops`).
- The comment on the ClientHello version promises the highest offered version, else the legacy version. The code takes the highest
  of both. It keeps the promise exactly when no non-GREASE version is offered or some offered one is at least the legacy version;
  a client that offers only TLS 1.0 under a legacy version of TLS 1.2 is decoded as TLS 1.2
  (`HelloInvariance.VersionDocumentedIff`, `HelloInvariance.LowOfferIsHidden`).
- GREASE (section 2 of RFC 8701) never shows in JA3, wherever it stands: ciphers, extensions, groups, signature algorithms, versions,
  protocol names, or the key shares and PSK modes inside extensions the decoder does not look into, whose payloads never matter. In
  JA4 it shows through the first protocol name only, which is not filtered: two messages that differ in
  GREASE have the same JA4 exactly when their first names have the same code, so a GREASE name put before `h2` changes JA4
  (`HelloInvariance.GreaseIsInvisible`, `HelloInvariance.GreaseNameShows`).
- A kernel ban with a negative duration that reaches back before boot wraps around and outlasts every clock; in all
  other cases the stored expiry is exact (`Xdp.ExpiryExactIff`, `XdpEnforcement.NegativeBanSticks`).
- A recording that reads the clock before the hour ends and takes the lock after the flush that dropped the hour's set starts a second
  set. Once everything is stored, an hour's unique-address count is right exactly when all of its addresses were recorded between two
  closings of the hour (`Metrics.UniqueCounts`, `Metrics.LateRecording`).
- Two limiter windows of five replies never give ten replies in ten seconds: nine is the exact bound
  (`ReplyLimiter.AtMostNine`, `ReplyLimiter.NineHappen`).
- `mcWriteVarInt` never ends on a negative value and ends within five rounds on every other
  (`Minecraft.WriteEndsIff`).

## Model

| member | source | states |
|---|---|---|
| `Ordering.SortOfBag` | internal/intel/campaign.go:156-173 | sorting strings gives the same list for every order of the same bag, so map iteration order is forgotten |
| `Ordering.SortedKeys` | internal/intel/campaign.go:156-173 | the keys of a map, collected in any order, come out sorted, each exactly once |
| `Ordering.LessIff` | internal/intel/campaign.go:156-173 | a string is before another exactly when it is a proper prefix or has the smaller character where they first differ |
| `FingerprintForest.RootIsLeast` | internal/intel/campaign.go:44-51 | parents strictly decrease, so following them ends, and the root is the smallest node on the way |
| `FingerprintForest.HalvingKeepsRoots` | internal/intel/campaign.go:45-51 | path halving changes the root of no node |
| `FingerprintForest.LinkRoots` | internal/intel/campaign.go:52-61 | hanging one root under another redirects exactly the nodes of that class and no others |
| `FingerprintForest.PartitionUnique` | internal/intel/campaign.go:42-69 | the rows alone determine the forest's classes and roots; no processing order matters |
| `FingerprintForest.OneRootIffLinked` | internal/intel/campaign.go:42-69 | in the finished forest two fingerprints share a root exactly when a chain of rows links them |
| `FingerprintForest.JoinedForestIsPartition` | internal/intel/campaign.go:62-69 | a sound forest in which every row is joined is the partition into linked classes |
| `FingerprintForest.Forest.Find` | internal/intel/campaign.go:45-51 | returns the root, keeps every root and the decreasing-parent invariant, and terminates |
| `FingerprintForest.Forest.Union` | internal/intel/campaign.go:52-61 | merges exactly the two classes under the smaller root |
| `Campaigns.JoinRows` | internal/intel/campaign.go:62-69 | the nested loops end in the partition of all fingerprints into classes linked by chains of rows, each represented by its smallest member |
| `Campaigns.JoinRow` | internal/intel/campaign.go:62-69 | joining one row puts its fingerprints in one class and adds no link a row does not justify |
| `Campaigns.TotalOfBag` | internal/intel/campaign.go:83-111 | counts, address, port, country and tag sets and last-seen of a class do not depend on the row order |
| `Campaigns.FirstSeenIsMinimum` | internal/intel/campaign.go:105-107 | first-seen is the least time when no time is zero or some time lies before zero |
| `Campaigns.FirstSeenIsMinimumIff` | internal/intel/campaign.go:105-107 | first-seen is the least time exactly unless that is zero and the last row is later |
| `Campaigns.FirstSeenOrderFree` | internal/intel/campaign.go:105-107 | first-seen is the same for every row order exactly unless zero is the least time and a later one exists |
| `Campaigns.FirstSeenExample` | internal/intel/campaign.go:105-107 | the times 0 and 1 give first-seen 1 in one order and 0 in the other |
| `Campaigns.AddRow` | internal/intel/campaign.go:87-110 | one pass of the loop extends the summary of its class by the row |
| `Campaigns.Aggregate` | internal/intel/campaign.go:83-111 | the loop ends with one summary per class that has rows, equal to the summary of exactly its rows |
| `Campaigns.SummaryOfBag` | internal/intel/campaign.go:83-111 | a class summary survives every reordering of rows, and of fingerprints and tags inside them, unless zero hides a later time |
| `Campaigns.SummaryOrderFree` | internal/intel/campaign.go:83-111 | the exact condition for a class to have the same summary under every reordering of the rows |
| `CampaignRanking.TopKey` | internal/intel/campaign.go:146-154 | the key of highest count, the smallest one on a tie, for every iteration order |
| `CampaignRanking.CampaignUnique` | internal/intel/campaign.go:114-130 | a class has exactly one campaign, whatever order its maps are read in |
| `CampaignRanking.CampaignsApart` | internal/intel/campaign.go:114-130 | campaigns of different classes differ |
| `CampaignRanking.Cluster` | internal/intel/campaign.go:42-144 | the result is a ranked list, cut to the limit, of the campaigns of exactly the classes with enough addresses, and it is the only such list exactly when no class inside the cut ties with another |
| `CampaignRanking.ReportedOrderFree` | internal/intel/campaign.go:42-144 | the set of campaigns is unchanged by any order of rows, of fingerprints within rows, of tags and of map iteration, unless zero hides a later time in a class with enough addresses |
| `CampaignRanking.ReportedOrderFreeIff` | internal/intel/campaign.go:42-144 | the set of campaigns is the same for every such order exactly when zero hides no later time in a class with enough addresses |
| `CampaignRanking.ClusterOrderFree` | internal/intel/campaign.go:42-144 | when inside the cut no class ties and none hides a time, the returned list is unchanged by all those orders; classes below the cut or below the address limit do not matter |
| `CampaignRanking.ListOrderFreeIff` | internal/intel/campaign.go:42-144 | the returned list is the same for all those orders exactly when inside the cut no class ties with another and none has zero as its least time and a later one |
| `CampaignRanking.TiedRowsTie` | internal/intel/campaign.go:131-143 | two one-address rows without a common fingerprint tie inside every cut when their ids collide |
| `CampaignRanking.ClusterDeterminedIff` | internal/intel/campaign.go:131-143 | the returned list is determined exactly when no two qualifying classes with equal address count, event count and id have fewer than `limit` classes ranked before them |
| `CampaignRanking.RankMatches` | internal/intel/campaign.go:131-143 | as many campaigns as qualifying classes are ranked before one, so a place in the list can be read off the rows |
| `CampaignRanking.SameClassIffChain` | internal/intel/campaign.go:42-92 | two rows with fingerprints share a campaign group exactly when a chain of rows, neighbours sharing a fingerprint, connects them |
| `CampaignMeaning.TotalSets` | internal/intel/campaign.go:93-101 | an address, port, non-empty country or tag is in the aggregate exactly when some row of the class has it |
| `CampaignMeaning.TotalCounts` | internal/intel/campaign.go:93-104 | events is the number of rows, and each fingerprint is counted as often as it occurs |
| `CampaignMeaning.TotalLast` | internal/intel/campaign.go:108-110 | last-seen is the greatest of zero and the times |
| `CampaignMeaning.CampaignDescribes` | internal/intel/campaign.go:112-130 | in all its fields a campaign describes one connected group of rows: ports, countries and tags ascending, rows and addresses counted, the first fifty addresses, the most frequent fingerprint, the id of the least one, first and last time |
| `CampaignMeaning.ClusteringMeans` | internal/intel/campaign.go:42-144 | every returned campaign so describes a group with enough addresses, no two are equal, the list is ranked by addresses, events and id, and a group with enough addresses that is missing ranks before none of a full list |
| `QueryLanguage.SplitRaw` | web/src/lib/query.ts:69-97 | the index loop computes the splitting of the text into raw tokens, marking an open quote |
| `QueryLanguage.Unquote` | web/src/lib/query.ts:99-112 | the index loop removes quotes and escapes as its specification does |
| `QueryLanguage.ParseToken` | web/src/lib/query.ts:116-133 | one token gives its term and, if it is the first problem, its error |
| `QueryLanguage.ParseQuery` | web/src/lib/query.ts:116-133 | the terms of all tokens in order and the first error |
| `QueryLanguage.ReplacementsEscape` | web/src/lib/query.ts:136-139 | the two successive replacements escape each backslash and quote exactly once |
| `QueryLanguage.QuoteValueReads` | web/src/lib/query.ts:136-139 | a printed value stays one token and unquotes to itself |
| `QueryLanguage.TermReads` | web/src/lib/query.ts:141-147 | a printed printable term is one token that parses to it without error |
| `QueryLanguage.PrintThenParse` | web/src/lib/query.ts:116-151 | every printed list of printable terms parses back exactly, without error |
| `QueryLanguage.RoundTripIff` | web/src/lib/query.ts:116-151 | a term list survives printing and parsing exactly when no free word in it is negated and every key is one of the query keys |
| `QueryLanguage.NormalFormIsStable` | web/src/lib/query.ts:116-151 | printing after parsing is idempotent and leaves no error |
| `QueryLanguage.AddEstablishes` | web/src/lib/query.ts:160-169 | `addTerm` establishes `hasTerm` exactly for printable terms |
| `QueryLanguage.AddKeeps` | web/src/lib/query.ts:165-169 | `addTerm` keeps every term already in the query |
| `QueryLanguage.RemoveRefutes` | web/src/lib/query.ts:160-173 | `removeTerm` removes exactly the terms of that sign and key whose value is the same up to case |
| `QueryLanguage.ToggleFlips` | web/src/lib/query.ts:160-177 | `toggleTerm` flips `hasTerm` exactly for printable terms |
| `QueryLanguage.HasTermIff` | web/src/lib/query.ts:158-162 | a query has a term exactly when one of its terms has the same sign and key and, up to case, the same value |
| `QueryLanguage.AddedText` | web/src/lib/query.ts:165-169 | the terms after `addTerm`: unchanged if it was there, else the new one behind them, a free word without its sign |
| `QueryLanguage.ApplyTerms` | web/src/lib/query.ts:280-284 | every printable term applied ends up in the query and nothing already there is lost |
| `QueryReading.KeyHeadReads` | web/src/lib/query.ts:114-133 | sign, one of the fifteen keys in any case, a colon and the rest parse to that sign and key and the unquoted rest |
| `QueryReading.KeyedHasHead` | web/src/lib/query.ts:114-133 | and every keyed token has that form |
| `QueryReading.QueryIsRead` | web/src/lib/query.ts:69-133 | every text of words, quoted parts and any white space parses to the terms its words mean, in order, with an error exactly when a key lacks its value |
| `QueryReading.OpenQuoteReported` | web/src/lib/query.ts:69-133 | a word whose quote is never closed is one term and the error for it |
| `QueryReading.PrintedBareIff` | web/src/lib/query.ts:136-139 | a value is printed without quotes exactly when it is not empty and holds no white space, quote or backslash, unless forced |
| `QueryReading.PrintedSnoc` | web/src/lib/query.ts:149-151 | printed terms are separated by single spaces |
| `QueryReading.SpacesAre` | web/src/lib/query.ts:86 | the characters that separate tokens |
| `RateLimit.Limiter.RecordEvent` | internal/ratelimit/ratelimit.go:259-308 | one locked section: prunes both windows, decides, updates or deletes the key's state in its shard and touches no other key |
| `RateLimit.Limiter.SweepShard` | internal/ratelimit/ratelimit.go:121-146 | a sweep removes exactly the states whose last event is old |
| `RateLimit.Limiter.ClearKey` | internal/ratelimit/ratelimit.go:460-464 | removes exactly the key's rate state |
| `RateLimit.HitMatchesHistory` | internal/ratelimit/ratelimit.go:262-306 | the two slices are the key's events since its last reset in the last second and ten minutes, and the verdict is the direct rule over them |
| `RateLimit.RunRefines` | internal/ratelimit/ratelimit.go:111-146 | every run of the sharded, pruned and swept map gives the verdicts of flat unpruned histories |
| `RateLimit.VerdictsAreDirectCounts` | internal/ratelimit/ratelimit.go:111-318 | from start-up, for any hash, every verdict is the direct count over the key's history since its last reset |
| `RateLimit.SweepsAreUnobservable` | internal/ratelimit/ratelimit.go:121-146 | dropping every garbage collection from a run changes no verdict |
| `RateLimit.StaleIff` | internal/ratelimit/ratelimit.go:121-146 | the collector removes a key exactly when its last event lies before the cutoff |
| `RateLimit.SweptHeldIff` | internal/ratelimit/ratelimit.go:118-146 | after a sweep of its shard a key is held exactly if it was held and has an event of the last eleven minutes |
| `RateLimit.HighRunIsShort` | internal/ratelimit/ratelimit.go:280-291 | a high run of n events spans at most n / 2 seconds, and it and the two events before it lie in the volume window |
| `RateLimit.FloodNeedsAStall` | internal/ratelimit/ratelimit.go:280-306 | below the volume threshold the flood rule fires only after a delay of at least 587 seconds between the two clock readings of a call |
| `RateLimit.BusyVerdictsDiffer` | internal/ratelimit/ratelimit.go:280-306 | 29 events, the last call delayed by 587 seconds, ban by the flood rule and not by the volume rule |
| `RateLimit.FloodRuleIsRedundant` | internal/ratelimit/ratelimit.go:262-306 | in every run with shorter delays the limiter is exactly "30 events of a key within ten minutes, counted afresh after each ban" |
| `RateLimit.FloodRedundantIff` | internal/ratelimit/ratelimit.go:22-31 | all runs with delays below d give the verdicts of the volume rule exactly when d is at most 587 seconds |
| `ScanTracker.Tracker.RecordHit` | internal/ratelimit/scanner.go:76-113 | evicts old hits, notes the port, decides, and touches no other address |
| `ScanTracker.Tracker.SweepAll` | internal/ratelimit/scanner.go:156-180 | the sweep evicts old hits everywhere and removes exactly the expired entries |
| `ScanTracker.MemoryIff` | internal/ratelimit/scanner.go:76-113 | with stamps in any order, a port is remembered exactly when no later hit of the address and no later sweep is stamped more than ten minutes after its last hit |
| `ScanTracker.VerdictsAreJudged` | internal/ratelimit/scanner.go:76-113 | in every run, stamps in any order, each verdict counts the ports remembered |
| `ScanTracker.VerdictExactIff` | internal/ratelimit/scanner.go:76-113 | a hit is called a scan exactly when at least five ports of the window were not overtaken; so it is never a false alarm |
| `ScanTracker.VerdictsAreDirectCounts` | internal/ratelimit/scanner.go:76-113 | in every run, sweeps anywhere, in which the hits of each address and the sweeps take the lock in the order of their stamps, a hit is a scan exactly when the address hit at least five distinct ports in the last ten minutes |
| `ScanTracker.OvertakenHit` | internal/ratelimit/scanner.go:76-80 | a hit stamped one nanosecond before another hit of its port takes the lock behind it: five ports in the window, no scan |
| `ScanTracker.ShownForAnHour` | internal/ratelimit/scanner.go:118-180 | after every run, stamps in any order, an address is listed exactly while its last scan is at most an hour old, at any time no sweep has overtaken |
| `ScanTracker.EntryIff` | internal/ratelimit/scanner.go:156-180 | after every run an address has an entry exactly when it was hit and, if a sweep cleared it since its last scan, hit again since |
| `ScanTracker.EntryDates` | internal/ratelimit/scanner.go:76-113 | an entry shows the first scan since the address was last cleared and its last hit |
| `ScanTracker.ClearsIff` | internal/ratelimit/scanner.go:170-176 | in lock order a sweep clears an address exactly when its last scan is more than an hour old and it has no hit in the last ten minutes |
| `ScanTracker.UndetectedEntriesStay` | internal/ratelimit/scanner.go:154-180 | in every run an address that was hit and never scanned keeps its entry |
| `ScanTracker.OneHitStays` | internal/ratelimit/scanner.go:154-180 | one hit and any sweeps, however late, leave an entry |
| `ScanTracker.SortScanners` | internal/ratelimit/scanner.go:139-149 | the in-place insertion sort leaves a permutation with more ports first, then the earlier detection |
| `BanLifecycle.BanSet.Load` | internal/ratelimit/ratelimit.go:175-209 | start-up loads exactly the unexpired entries, each with its unban goroutine |
| `BanLifecycle.BanSet.AdmitEntry` | internal/ratelimit/ratelimit.go:187-208 | one loaded entry is stored with its goroutine |
| `BanLifecycle.BanSet.BanKey` | internal/ratelimit/ratelimit.go:322-373 | bans a key that is not banned and starts its goroutine; a second ban changes nothing |
| `BanLifecycle.BanSet.Lifted` | internal/ratelimit/ratelimit.go:375-409 | a waking goroutine removes the key whatever entry holds it |
| `BanLifecycle.BanSet.ManualUnban` | internal/ratelimit/ratelimit.go:448-458 | removes the entry, reports whether there was one, and leaves the goroutine asleep |
| `BanLifecycle.StepSound` | internal/ratelimit/ratelimit.go:322-458 | every step keeps an unban pending for each banned key, due no later than its expiry plus the delay in starting it |
| `BanLifecycle.RunSound` | internal/ratelimit/ratelimit.go:322-458 | the same in every reachable state |
| `BanLifecycle.LoadedBans` | internal/ratelimit/ratelimit.go:175-209 | after loading a key is banned exactly when one of its records has not expired |
| `BanLifecycle.LoadedIsTidy` | internal/ratelimit/ratelimit.go:175-209 | loading leaves every banned key with exactly one goroutine, in time |
| `BanLifecycle.NeverEarly` | internal/ratelimit/ratelimit.go:322-409 | in a run without a manual unban of the key a ban is never lifted early and has exactly one goroutine |
| `BanLifecycle.LostEarlyIffStale` | internal/ratelimit/ratelimit.go:375-458 | a new ban holds until it expires, in every later run without a manual unban, exactly when no leftover goroutine can wake before then |
| `BanLifecycle.RebanLostIff` | internal/ratelimit/ratelimit.go:375-458 | over the calls: a key banned, unbanned by hand and banned again can lose the second ban early exactly when it is banned at any later time than the first |
| `BanLifecycle.PromptLostIff` | internal/ratelimit/ratelimit.go:375-458 | when goroutines run at once, every run without a manual unban that lasts as long as a ban lifts it early exactly when a stale goroutine of its key was left |
| `BanLifecycle.RebanMustBeLostIff` | internal/ratelimit/ratelimit.go:322-458 | when goroutines run at once, in every run that bans a key, lets it go and bans it again, the second ban is lifted before its hour is over exactly when it came later than the first and within an hour of it |
| `BanLifecycle.RebannedReached` | internal/ratelimit/ratelimit.go:322-458 | those calls, the unban at any time between the bans, lead to that state |
| `BanLifecycle.LeftoverGoroutineExample` | internal/ratelimit/ratelimit.go:375-458 | ban, unban, ban again: the first goroutine lifts the second ban after half an hour |
| `KernelSync.AgreeIff` | internal/ratelimit/ratelimit.go:357-404 | in every interleaving of changes and kernel calls the kernel agrees on a key exactly when an even number of changes lies between the call made last and the last change |
| `KernelSync.OrderAgrees` | internal/ratelimit/ratelimit.go:357-404 | calls of a key made in the order of its changes leave the kernel in agreement once all are made |
| `KernelSync.OvertakenBan` | internal/ratelimit/ratelimit.go:475-483 | an unban made before its ban leaves an unbanned key in the kernel map |
| `Like.EscapedIsLiteral` | internal/db/search.go:36 | an escaped value in front of any pattern matches exactly itself, up to ASCII case |
| `Like.PrefixPatternIsExact` | internal/db/search.go:139-161 | the escaped value with a trailing percent sign matches exactly the strings with that prefix |
| `Like.InfixPatternIsExact` | internal/db/search.go:130-137 | the percent-wrapped escaped value matches exactly the strings that contain it |
| `Like.SplitUndoesJoinIff` | internal/event/event.go:55-64 | `SplitTags` undoes `JoinTags` exactly on comma-free tags other than the list of one empty tag |
| `Like.WrappedOccursIff` | internal/db/db.go:356-366 | a comma-wrapped comma-free tag occurs in the wrapped column exactly when it is one of its fields |
| `Like.TagFilterExactIff` | internal/db/db.go:356-366 | the tag filter agrees with `SplitTags` on every column exactly for non-empty tags without a comma |
| `SqlText.AtomReads` | internal/db/search.go:139-182 | an atom reads as itself, with its own arguments, when its text has as many question marks as it has arguments |
| `SqlText.AndKeepsIff` | internal/db/db.go:432-437 | pieces joined with AND keep a row exactly when each is true, each placeholder taking its own argument, later arguments left over |
| `SqlText.OrJoinReads` | internal/db/search.go:223-230 | alternatives joined with OR read, by SQL's precedences, as their disjunction with their own arguments |
| `SqlSearch.RenderGroup` | internal/db/search.go:223-230 | the text and arguments of one key's alternatives, in order |
| `SqlSearch.AppendGroups` | internal/db/search.go:223-230 | the second loop appends one group per key in order of first use |
| `SqlSearch.WhereFor` | internal/db/search.go:205-232 | the clauses and arguments are those of the immediate conditions followed by the key groups |
| `SqlSearch.WherePiecesMean` | internal/db/search.go:205-232 | the emitted clauses are all true in three-valued logic exactly when free terms are true, negated terms false and each positive key has a true alternative |
| `SqlSearch.WhereKeepsIff` | internal/db/search.go:205-232 | parsed by SQL's precedences with positional arguments, the compiled text keeps exactly the rows that satisfy the conditions |
| `HistoryQuery.Tokenize` | internal/db/search.go:40-71 | the scanner loop yields the words of the text, or an error exactly for an open quote |
| `HistoryQuery.WordsAreQuoteFree` | internal/db/search.go:40-71 | no word holds a quote |
| `HistoryQuery.PrintedWordsReadBack` | internal/db/search.go:40-71 | every list of quote-free words, empty ones and ones with spaces included, reads back from its quoted form |
| `SearchWords.QueryTokens` | internal/db/search.go:40-71 | every text of words, quoted parts and any white space yields its words without their quotes, or an error exactly for more than twenty |
| `SearchWords.OpenQuote` | internal/db/search.go:40-71 | a quote that is never closed is refused |
| `HistoryQuery.ParseQuery` | internal/db/search.go:75-106 | the conditions of all tokens, or the first error, with the limit on terms |
| `HistoryQuery.KeyTextHoles` | internal/db/search.go:139-182 | the text of every keyed condition has exactly one placeholder |
| `HistoryQuery.CondsComplete` | internal/db/search.go:75-182 | every condition of a parsed query is self-contained text whose placeholders take exactly its arguments |
| `HistoryQuery.PlaceholderCount` | internal/db/db.go:376-392 | the port list has one placeholder per port |
| `HistoryQuery.PortsTextHoles` | internal/db/db.go:376-392 | the whole clause of the port list has one placeholder per port |
| `HistoryQuery.PortClause` | internal/db/db.go:376-392 | the loop pairs every port with its own placeholder |
| `HistoryQuery.BuildQuery` | internal/db/db.go:348-440 | clause and argument assembly yields the pieces of every filter in order, then the limit as given, at most 100000 and 20000 if none is given, and the offset if it is not negative |
| `HistoryQuery.StatementKeepsIff` | internal/db/db.go:348-440 | the statement keeps exactly the rows that pass every plain filter and satisfy the search, leaving the limit and offset arguments |
| `SearchMeaning.WordMeans` | internal/db/search.go:130-137 | a free word is true of the rows with an occurrence in one of the seven columns and false of all others |
| `SearchMeaning.TagMeans` | internal/db/search.go:160-161 | the tag condition is true of the rows with that tag (or, for a value with commas, those neighbouring tags) and false of all others |
| `SearchMeaning.IpMeans` | internal/db/search.go:147-148 | the address condition is true of the rows whose address starts with the value and false of all others |
| `SearchMeaning.TimeMeans` | internal/db/search.go:164-173 | the lower time bound is true of the rows not before the stamp, the upper one of the rows not after it |
| `SearchMeaning.CountryMeans` | internal/db/search.go:149-153 | the country condition is equality up to ASCII case |
| `SearchMeaning.MetaMeans` | internal/db/search.go:178-180 | a meta condition compares that field of the row, and is NULL on rows without it |
| `SearchMeaning.PortsRead` | internal/db/db.go:376-392 | the port list is true of the rows with one of the ports |
| `SearchMeaning.RefusedIff` | internal/db/search.go:75-182 | a word is refused exactly if it looks like a mistyped key, has a key without a value, or a value that does not fit its key |
| `SearchMeaning.QueryRefusedIff` | internal/db/search.go:75-106 | a query is refused exactly for one of its words |
| `SearchMeaning.KeyMeans` | internal/db/search.go:139-182 | for each of the fifteen keys the compiled text and argument are true, false or NULL of a row as the key says of the column it names |
| `SearchMeaning.UnknownIff` | internal/db/search.go:139-182 | a word is NULL of a row exactly when it asks for a meta field the row does not have |
| `SearchMeaning.NegatedFieldDrops` | internal/db/search.go:139-232 | a negated word on a meta field drops the rows without the field |
| `SearchMeaning.WordCompiled` | internal/db/search.go:75-182 | the condition compiled for any accepted word has the sign, key and truth value the word says |
| `SearchMeaning.QueryKeepsIff` | internal/db/search.go:75-232 | the WHERE text of a parsed query keeps exactly the rows its words describe |
| `SearchMeaning.StatementMeansIff` | internal/db/db.go:348-440 | the whole statement keeps exactly the rows that pass the words of the query and each filter, said of its column: country, address prefix, tag, AS number, port, ports of the service, kind, class, protocol, scanner and inclusive dates |
| `TermMatching.MatchTerms` | web/src/lib/match.ts:98-116 | for any group order, true exactly when no negated term holds, every free word holds and each positive key has a holding alternative |
| `TermMatching.CompiledAgreesWithMatcher` | internal/db/search.go:205-232 | where no atom is NULL the compiled query keeps exactly the rows `matchTerms` accepts |
| `ClientHello.GreaseValues` | internal/services/tlscap.go:56-58 | the bit test holds exactly of the sixteen values of section 2 of RFC 8701 |
| `ClientHello.GreaseBitsAgree` | internal/services/tlscap.go:56-58 | the bit test is the test for two equal bytes ending in the digit A |
| `ClientHello.Reader.SkipBytes` | internal/services/tlscap.go:147-153 | advances, or on overrun empties the buffer and sets the error |
| `ClientHello.Reader.RestBytes` | internal/services/tlscap.go:154-162 | takes bytes from the front, or nothing on overrun |
| `ClientHello.Reader.Sub` | internal/services/tlscap.go:163 | a reader over the next bytes that inherits the error |
| `ClientHello.Reader.ReadU16` | internal/services/tlscap.go:173-181 | a big-endian word, or zero and an error |
| `ClientHello.ReadFixedPart` | internal/services/tlscap.go:87-97 | version and ciphers, and the cursor behind the compression methods |
| `ClientHello.ReadExtensions` | internal/services/tlscap.go:101-134 | the extension loop applies each complete extension in order and stops at a truncated one |
| `ClientHello.ApplyExtension` | internal/services/tlscap.go:107-132 | the effect of one extension on the fingerprint, all six types |
| `ClientHello.ParseClientHello` | internal/services/tlscap.go:64-138 | on arbitrary bytes the decoder terminates, reads in range, and reports the decoding or an error |
| `HelloEncoding.ReadExt` | internal/services/tlscap.go:107-132 | each encoded extension tells exactly its contents |
| `HelloEncoding.DecodeInvertsEncode` | internal/services/tlscap.go:64-138 | every well-formed encoded ClientHello, whatever follows it, decodes to its contents |
| `HelloEncoding.ContentsOf` | internal/services/tlscap.go:98-134 | those contents are its ciphers, extension types, groups, formats, signature algorithms, protocols and last server name, in order, and the highest of the legacy and the offered non-GREASE versions |
| `HelloEncoding.DecodeIsBounded` | internal/services/tlscap.go:64-138 | on arbitrary bytes the decoded lists and the server name are no larger than the input |
| `HelloEncoding.PartsRead` | internal/services/tlscap.go:82-92 | version, cipher bytes and what follows are read off any complete fixed part |
| `HelloAcceptance.AcceptedIff` | internal/services/tlscap.go:64-92 | bytes are accepted exactly when they are a handshake record with a ClientHello whose fixed part is complete, whatever follows |
| `HelloAcceptance.ItemsRead` | internal/services/tlscap.go:95-103 | extensions are read up to the first one that is cut off |
| `HelloAcceptance.VectorsRead` | internal/services/tlscap.go:104-131 | a vector inside an extension is read behind its length, and counts as empty if it is not all there |
| `HelloHashes.JoinU16` | internal/services/tlscap.go:183-192 | the loop joins the decimal texts of the values, GREASE left out on request |
| `HelloHashes.Hex4` | internal/services/tlscap.go:194-203 | the four-digit texts of the non-GREASE values in order |
| `HelloHashes.ComputeJA3` | internal/services/tlscap.go:210-222 | the loops compute the JA3 text |
| `HelloHashes.ComputeJA4` | internal/services/tlscap.go:226-288 | the loops compute JA4 for any truncated hash |
| `HelloHashes.JoinInjective` | internal/services/tlscap.go:183-192 | joined parts that avoid the separator can be read back |
| `HelloHashes.JA3Exact` | internal/services/tlscap.go:210-222 | two JA3 texts are equal exactly when legacy version, point formats and the GREASE-filtered sequences are |
| `HelloHashes.SortedHexExact` | internal/services/tlscap.go:264-269 | sorted cipher texts agree exactly when the bags of ciphers do |
| `HelloHashes.JA4TextExact` | internal/services/tlscap.go:226-288 | the texts JA4 is made of agree exactly when version code, name flag, ALPN code, extension count up to 99, both bags and the signature-algorithm sequence do |
| `HelloHashes.JA4Exact` | internal/services/tlscap.go:226-288 | absent a collision between the hashed texts, JA4 agrees exactly when those features do |
| `HelloHashes.JA4DependsOnlyOn` | internal/services/tlscap.go:226-288 | for every hash JA4 is a function of version, name presence, first ALPN, the bags of non-GREASE ciphers and extensions and the non-GREASE signature algorithms |
| `HelloTexts.JA3Reads` | internal/services/tlscap.go:210-222 | JA3 splits into five fields that read back to the legacy version and, in order and without GREASE, the ciphers, extensions, curves and point formats |
| `HelloTexts.PlainIsWithoutGrease` | internal/services/tlscap.go:183-203 | filtering drops exactly the GREASE values and keeps the order of the others |
| `HelloTexts.PartAReads` | internal/services/tlscap.go:226-262 | the ten readable characters of JA4 tell the version by its code, `d` or `i`, both counts up to 99 and the first and last byte of the first protocol |
| `HelloTexts.PartBReads` | internal/services/tlscap.go:264-269 | the cipher text splits into sorted four-digit numbers, exactly the non-GREASE ciphers, and is missing exactly when there are none |
| `HelloTexts.PartCReads` | internal/services/tlscap.go:271-287 | the extension text lists exactly the extensions that are neither GREASE nor server_name nor ALPN, sorted, then the signature algorithms in order |
| `HelloTexts.JA4Reads` | internal/services/tlscap.go:226-288 | JA4 is those three parts, the texts hashed, twelve zeros for a missing one |
| `HelloInvariance.GreaseIsInvisible` | internal/services/tlscap.go:64-288 | two messages on the wire that differ only in GREASE (ciphers, extensions, groups, signature algorithms, versions, protocol names) and in the payloads of extensions the decoder does not look into (so also in GREASE key shares and PSK modes) get the same JA3, and the same JA4 exactly when their first protocol names have the same code |
| `HelloInvariance.GreaseNameFirst` | internal/services/tlscap.go:257-261 | a GREASE name put before the others leaves JA4 unchanged exactly when they already begin with a name of the same first and last byte |
| `HelloInvariance.GreaseNameShows` | internal/services/tlscap.go:257-261 | a GREASE name before `h2` changes JA4, whatever the hash |
| `HelloInvariance.VersionDocumentedIff` | internal/services/tlscap.go:34 | the decoded version is the documented one exactly when no non-GREASE version is offered or some offered one is at least the legacy version |
| `HelloInvariance.LowOfferIsHidden` | internal/services/tlscap.go:98-130 | TLS 1.0 alone offered under a legacy version of TLS 1.2 decodes as TLS 1.2 |
| `HelloInvariance.OrderIsInvisible` | internal/services/tlscap.go:64-288 | permuting ciphers, and extensions on the wire as long as those of one type keep their order, leaves JA4 fixed |
| `HelloInvariance.PermutationsRearrange` | internal/services/tlscap.go:95-133 | with one extension of each type every permutation keeps that order |
| `WriteLoop.BatchesAreTheInput` | internal/db/db.go:183-217 | whatever the receives bring, batches hold 1 to 64 events and concatenate to the events received, all of them once the queue is closed |
| `WriteLoop.FlushedIff` | internal/db/db.go:183-217 | a batch is flushed exactly when it has 64 events, or when it has any and the queue is empty or closed |
| `WriteLoop.Run` | internal/db/db.go:183-217 | the two nested receive loops do, receive by receive, what the writer's step function does |
| `Pipeline.StepKeepsInv` | internal/app/app.go:209-294 | every step of every goroutine keeps locks, flags, bounds, order and balance |
| `Pipeline.NoSendOnClosed` | internal/app/app.go:209-220 | in no interleaving does a send reach a closed queue, and both queues stay within capacity |
| `Pipeline.Conservation` | internal/app/app.go:209-308 | in every reachable state each submitted capture is being submitted, late, dropped or accepted, and each accepted one is queued, in a worker, limited or handled |
| `Pipeline.ProcessedBeforeClose` | internal/app/app.go:270-294 | when the database starts to close every accepted capture is limited or handled and no worker is left |
| `Pipeline.BatchesInOrder` | internal/db/db.go:171-217 | flushed batches, open batch and insert queue concatenate to the accepted inserts, in order, and to the batches alone when `Run` returns |
| `Pipeline.NothingLostAtShutdown` | internal/db/db.go:448-454 | when `Run` returns every accepted capture was limited (TCP only), is in a flushed batch or was lost to a full insert queue; none was lost if at most 4096 were accepted |
| `Pipeline.EveryStepHelps` | internal/app/app.go:270-294 | every step other than a new submission reduces the work left |
| `Pipeline.NeverStuck` | internal/app/app.go:270-294 | until the database is closed some such step is possible in every reachable state: shutdown cannot deadlock |
| `Pipeline.RunsAreShort` | internal/app/app.go:209-294 | a run takes at most a constant, one step per worker and eight per submitted capture |
| `Pipeline.Shared.Submit` | internal/app/app.go:209-220 | the program's fields change as in the three steps of a submission; the send finds the queue open |
| `Pipeline.Shared.Receive` | internal/app/app.go:290-294 | the worker's receive is its take step, or its exit once the queue is closed and drained |
| `Pipeline.Shared.InsertEvent` | internal/db/db.go:171-178 | the non-blocking insert is its step; the send finds the queue open |
| `Pipeline.Shared.Process` | internal/app/app.go:302-345 | a capture is limited, or inserted and counted as handled |
| `Pipeline.Shared.HangUp` | internal/app/app.go:274-277 | flag and close are two steps of the shutdown sequence |
| `Pipeline.Shared.Seal` | internal/db/db.go:448-450 | closing the insert queue is a step of the shutdown sequence |
| `Metrics.NothingMiscounted` | internal/metrics/metrics.go:62-171 | in every run of recordings, flushes and commits, what is stored, pending and in flight of a counter is the number of connections recorded with these labels in this hour, of bans, or of occurrences of the tag |
| `Metrics.UniqueCounts` | internal/metrics/metrics.go:118-171 | stored unique counts never exceed the number of distinct addresses recorded into the hour and, once everything is stored, equal it exactly when all of them were recorded between two closings of the hour |
| `Metrics.OneSetIsExact` | internal/metrics/metrics.go:118-171 | in particular when nothing was recorded into the hour after it was closed |
| `Metrics.LateRecording` | internal/metrics/metrics.go:56-92 | a recording that lost its hour to a flush leaves the hour stored with one address, whether or not it brought a second |
| `Metrics.HistoryIsTold` | internal/metrics/metrics.go:62-142 | the cache is dirty, and an hour's set holds which addresses, as the run of recordings and flushes says |
| `Metrics.Cache.Record` | internal/metrics/metrics.go:62-93 | the critical section is the recording step, every tag counted |
| `Metrics.Cache.RecordBan` | internal/metrics/metrics.go:96-104 | the critical section is the ban-recording step |
| `Metrics.Cache.TakeSnapshot` | internal/metrics/metrics.go:118-142 | the critical section of `flush` is the snapshot step |
| `Metrics.Cache.CountAndDrop` | internal/metrics/metrics.go:131-138 | counts every set and keeps only the current hour's, for any iteration order |
| `Metrics.BuildBatch` | internal/metrics/metrics.go:144-166 | the batch lists every delta and every count exactly once, in any order |
| `Metrics.Store.UpsertMetrics` | internal/db/db.go:477-519 | the row loop applies the rows one after the other, adding or taking the maximum |
| `Metrics.BatchIsSnapshot` | internal/db/db.go:477-519 | in whatever order rows come, the table ends as after the snapshot's commit step |
| `Xdp.LoadStore` | internal/ebpf/bpf/programs/capture.bpf.c:215-228 | on either byte order the stored port is the packet's two bytes and the host value is the big-endian one |
| `Xdp.KeyInjective` | internal/ebpf/manager.go:359-369 | two map keys are equal exactly when address and port are |
| `Xdp.MakeBanKey` | internal/ebpf/manager.go:359-369 | fills the twenty key bytes the kernel builds for that address and port, or fails on what is not an address |
| `Xdp.ExpiryExactIff` | internal/ebpf/manager.go:302-303 | the wrapping sum is the expiry exactly when it is not negative |
| `Xdp.Filter.Ban` | internal/ebpf/manager.go:277-310 | sets the key's expiry, fails on a bad address or a full map, and does nothing when inactive |
| `Xdp.Filter.Unban` | internal/ebpf/manager.go:314-339 | removes exactly that key, present or not |
| `Xdp.Filter.Emit` | internal/ebpf/bpf/programs/capture.bpf.c:107-115 | appends the twenty event bytes |
| `Xdp.Filter.ReadNetwork` | internal/ebpf/bpf/programs/capture.bpf.c:166-209 | reads only inside the packet, fills the source part of the key and finds the transport header |
| `Xdp.Filter.Enforce` | internal/ebpf/bpf/programs/capture.bpf.c:243-267 | management bypass, ban lookup under the exact key, counters and event |
| `Xdp.Filter.Capture` | internal/ebpf/bpf/programs/capture.bpf.c:165-267 | verdict, counters and events are those of the specification for every packet, all reads in range, on either byte order |
| `XdpEnforcement.TransportRead` | internal/ebpf/bpf/programs/capture.bpf.c:179-228 | every complete unicast TCP or UDP frame over IPv4 (options included) or IPv6 is seen with its source and port |
| `XdpEnforcement.EnforcedExactly` | internal/ebpf/manager.go:277-310 | after `Ban` at uptime u for d, without later calls for that address and port, such a packet outside management traffic is dropped exactly while the clock is before u + d |
| `XdpEnforcement.NegativeBanSticks` | internal/ebpf/manager.go:302-303 | with u + d negative the ban holds at every clock value |
| `XdpEnforcement.UnbanLifts` | internal/ebpf/manager.go:314-339 | after `Unban`, without later calls for that address and port, its packets are not dropped |
| `XdpEnforcement.OtherPacketsUnaffected` | internal/ebpf/manager.go:277-339 | a ban call changes the outcome of no packet from another source or to another port |
| `XdpEnforcement.NeverDropped` | internal/ebpf/bpf/programs/capture.bpf.c:185-251 | multicast, broadcast, ICMP and other protocols, allowed sources and management ports are never dropped |
| `XdpEnforcement.CapacityKept` | internal/ebpf/bpf/programs/capture.bpf.c:64-69 | no run of calls outgrows the map |
| `XdpEnforcement.OpCapacity` | internal/ebpf/bpf/programs/capture.bpf.c:64-69 | one call keeps the map within its capacity, a full map still takes a refresh, and a map with room takes every readable address |
| `XdpEnforcement.ParseEvent` | internal/ebpf/events.go:60-81 | decodes twenty bytes or reports a short record |
| `XdpEnforcement.EventsDecode` | internal/ebpf/events.go:60-81 | every emitted event decodes to the packet's source, port and protocol and to whether it was dropped |
| `XdpEvents.PacketIsFrame` | internal/ebpf/bpf/programs/capture.bpf.c:165-241 | every packet not passed over is an IPv4 or IPv6 unicast frame with a complete TCP or UDP header or an ICMP type |
| `XdpEvents.VerdictIff` | internal/ebpf/bpf/programs/capture.bpf.c:165-267 | on every frame: dropped exactly when unicast TCP or UDP, not management traffic and under an unexpired ban; counted as passed exactly when ICMP or otherwise enforced |
| `XdpEvents.EmittedIff` | internal/ebpf/bpf/programs/capture.bpf.c:117-267 | an event is emitted exactly for a SYN without ACK, a datagram that does not look like a reply and an ICMP type that is no reply or error, outside management traffic, and it states source, port, fate and protocol |
| `XdpEvents.OthersIgnored` | internal/ebpf/bpf/programs/capture.bpf.c:165-241 | every other packet is passed without a trace |
| `ReplyLimiter.Limiter.Allow` | internal/services/emu_udp.go:59-70 | the slot update, the reset of a full table and the verdict |
| `ReplyLimiter.AtMostNine` | internal/services/emu_udp.go:41-70 | in every run any closed ten seconds without a table reset carry at most nine replies to one source |
| `ReplyLimiter.NineHappen` | internal/services/emu_udp.go:41-70 | nine are possible |
| `ReplyLimiter.TableBounded` | internal/services/emu_udp.go:44-70 | the table never holds more than 8192 sources |
| `ReplyLimiter.Fit` | internal/services/emu_util.go:122-131 | the first candidate that is not empty and no larger than the request, or none if there is none |
| `ReplyLimiter.NeverAmplifies` | internal/services/emu_udp.go:72-123 | over every run and for arbitrary handlers the bytes sent never exceed the bytes received |
| `ReplyLimiter.ServeUDP` | internal/services/emu_udp.go:89-123 | the loop answers exactly the datagrams whose reply is allowed and admitted |
| `VarInts.EncodeLength` | internal/services/minecraft.go:48-62 | an encoding has at most k bytes exactly when the value has at most 7k bits |
| `VarInts.RoundTrip` | internal/services/emu_mqtt.go:29-46 | reading recovers every encoded value and stops right behind it |
| `VarInts.CutShort` | internal/services/emu_mqtt.go:29-46 | every truncated encoding is reported as too short |
| `VarInts.OrGroup` | internal/services/minecraft.go:36 | the next group shares no bit with those before it, so `|` adds it |
| `Minecraft.ReadVarInt` | internal/services/minecraft.go:27-46 | the loop reads at most five groups into a wrapping 32-bit integer, with its two errors |
| `Minecraft.WriteVarInt` | internal/services/minecraft.go:48-62 | the loop writes the shortest encoding of every non-negative value |
| `Minecraft.WriteEndsIff` | internal/services/minecraft.go:48-62 | the loop ends exactly for non-negative values, then within five rounds |
| `Minecraft.VarIntRoundTrip` | internal/services/minecraft.go:27-62 | every non-negative 32-bit value is written in one to five bytes and read back; every 32-bit value is read from the encoding of its bits |
| `Minecraft.MakePacket` | internal/services/minecraft.go:70-75 | length, identifier and payload |
| `Minecraft.FrameReadsBack` | internal/services/minecraft.go:70-75 | every frame, between any other bytes, reads back to its identifier and payload and ends where the next begins |
| `Minecraft.WriteString` | internal/services/minecraft.go:64-68 | the length prefix reads back to the byte length and ends where the string begins |
| `Mqtt.ReadVarint` | internal/services/emu_mqtt.go:29-46 | the accumulating loop returns value and length, or failure on short or overlong input |
| `Mqtt.ReadStr` | internal/services/emu_mqtt.go:48-58 | a length-prefixed field and what is left, or failure |
| `Mqtt.ParseConnect` | internal/services/emu_mqtt.go:60-109 | the staged decoding of a CONNECT body: fields parsed so far and the first error |
| `Mqtt.ConnectRoundTrip` | internal/services/emu_mqtt.go:60-109 | every encoded CONNECT of MQTT 3.1.1 and 5.0, with any flags and whatever follows, is recovered exactly |
| `Mqtt.TruncationDetected` | internal/services/emu_mqtt.go:60-109 | every truncation of an encoded CONNECT is an error, and every field reported with it is right or blank |
| `Mqtt.ReadLength` | internal/services/emu_mqtt.go:119-130 | the streaming loop collects exactly the bytes of the length |
| `Mqtt.StreamStopsThere` | internal/services/emu_mqtt.go:119-131 | decoding the collected bytes gives the integer on the stream or fails as there |
| `Mqtt.ReadPacket` | internal/services/emu_mqtt.go:111-137 | type and body, or end of stream, or a refusal before the body is read |
| `Mqtt.PacketRoundTrip` | internal/services/emu_mqtt.go:111-137 | every framed packet reads back exactly when its body has at most 4096 bytes; larger ones are refused |

## Left out

- Sockets, deadlines, TLS termination, SSH, HTTP responses and canned banners: I/O and constant data.
- SQLite itself, migrations and the statements outside `QueryHistory` and `UpsertMetrics`: a row is its columns, the meta column given by the fields `json_extract` finds in it, and transactions are taken to succeed.
- Dashboard server, authentication, WebSocket handlers, geo lookup, GreyNoise and reverse DNS, traceroute: request plumbing and foreign services.
- The user interface, regex signature tables, port and service tables: presentation and constant data.
- `hub.go`, `store.ts`, `resolver.go` and `export.go`: would only add easy members.
- Equality of the Go and the TypeScript query parsers: they differ by design; only the grouping of terms is shared.
- Characters: TypeScript strings are sequences of code points rather than UTF-16 units; Go strings are sequences of characters that `<` compares as bytes.
- Hashes: MD5, SHA-256 and FNV are parameters; the JA4 converse names the absence of a collision as its hypothesis.
- Library calls of the server's query parser (letter classes, case folding, number and time parsing) are parameters.
- Formatting of first-seen and last-seen times, and the scanner name of a row, which `Cluster` does not use for grouping.
- Clocks: times are non-negative; in the rate limiter the readings made under a lock do not go back; kernel uptime and `bpf_ktime_get_ns` are taken as one clock.
- Ban side effects: persistence and the change callback are not modelled, and `KernelSync` follows only which kernel calls are made, not their failures or expiries.
- Ports and addresses given as strings: `Ban` and `Unban` are modelled behind `net.ParseIP` and `parsePort`.
- `pumpEBPF`, the perf reader and its 256-event channel: events are followed up to `parseEvent`.
- Captures are identified with the events built from them; enrichment by geo data and scanner names is not modelled.
- Metric labels are opaque: the canonical label text built from port, protocol, service and country is not modelled.
- The page of a history query: `ORDER BY id DESC LIMIT ? OFFSET ?` is followed up to its arguments.
- Counters are unbounded integers: wrap-around of 64-bit counters is not modelled.
- Minecraft.WriteVarInt: takes only non-negative values because the loop it models does not end on others, which `Minecraft.WriteEndsIff` proves.
- Minecraft.MakePacket: takes identifiers and lengths that fit a non-negative `int32`, the inputs on which the source returns.
- Mqtt.ReadPacket: does not model the raw-byte recording of the session.
- Metrics.Store.UpsertMetrics: does not model a failing statement or transaction, after which the source drops the batch.
