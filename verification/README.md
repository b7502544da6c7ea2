# Ratatoskr, modelled and proved in Dafny

Ratatoskr checks the PromQL, LogQL and TraceQL in rule files and dashboards against what
the telemetry back ends actually hold. Around the parsers it has its own algorithms and
state machines. This project models them and proves what they are for:

- **Suggestions.** The bounded edit distance (`Suggest`, `EditDistance`) is the length of a
  shortest sequence of byte edits, and the ranking built on it is the best of all candidates.
- **The catalog cache.** Entries and keys (`Entries`), the two stores (`Store`, `Stores`,
  `StoreCrash`), the allowlist, the cached lookup (`Cache`), how old an answer can be
  (`Freshness`), and the three check methods (`Checks` says what they report and ask for, in
  terms of configuration and upstream alone, `Checker` is the object that does it,
  `CheckExact` says what the findings are and `CheckAsks` what is asked for).
- **Prewarming.** What is planned (`Plan`), that the plan predicts the checks (`Coverage`),
  the goroutines as a machine of atomic steps (`PrewarmSteps`), what every schedule keeps
  (`PrewarmEnd`), which reading of the clock a task can make (`PrewarmTurns`), what becomes of
  each list (`PrewarmFates`) and of the run (`PrewarmOutcome`, `PrewarmOneSlot`), exactly when
  the schedule does not matter (`PrewarmSchedules`, `PrewarmCollide`), the fetches they spare
  (`PrewarmWarm`), the method itself (`Prewarm`), and the whole run with and without it
  (`Collect`, `Runner`, `RunReports`).
- **The watcher loop** (`Watcher`, `WatcherSafety`, `WatcherProgress`), over all event sequences.
- **Canonical output**: the reflective graph walk (`ReflectWalk`), TraceQL attributes and
  matchers (`TraceQL`), both together (`Extract`), findings (`Findings`, `Order`), duplicate
  alerts (`Lint`).
- **Text**: the Grafana call splitter against its printer (`GrafanaCall`), what it takes for an
  argument (`GrafanaScan`, `Spaces`), and the two report escapers with the TSV layout (`Escape`).
- `Places` says what stands where in a nested document, `Paths` what a file name ends in.

`dafny verify dfyconfig.toml` checks everything.

## How things are modelled

- One character stands for one byte of a Go string; theorems hold for all character strings.
- strings.ToLower is read on ASCII letters; no letter beyond them lowers to one of the names it
  is compared with here.
- A Go slice is `Absent` (nil) or `Present`. Times and durations are integers in nanoseconds,
  and 0 is the zero time; a clock is any function from how often it was read to a time, and
  where it matters it never reads the zero time. A TTL is cut to whole seconds exactly.
- SHA-256 is an injective function to lower-case hex. JSON is the identity, except that an
  empty list of names reads back as nil. `%q` is any function on strings.
- Upstream is a function of the typed request, fixed for a run; a failing request is one of
  its answers. A cancelled context cuts upstream calls short, and nothing else: which of them,
  is any function of time. A store shared by goroutines takes part in one atomic step at a time; that
  the file store's Put is atomic to readers is proved separately (`StoreCrash`).
- Iteration over a Go map picks any remaining key; the sort functions are the in-place
  stable sort of `Order`, or any sorting where the original is unstable.
- A timer channel has one slot, and Stop or Reset leave nothing stale in it, as since Go 1.23.
- A turn of a task is a reading of the clock it can be the one to make. A planned list is
  hopeless if upstream refuses it and the store has it in no turn, and at risk if upstream
  refuses it and the store lacks it in some turn or another task may take its place there. A
  prewarm is calm if its planned lists are found throughout or can be had and kept, keep out of
  each other's keys, and do not expire before the last reading that it and the checks make.
- A goroutine schedule is any sequence of steps, in which a step that is not enabled does
  nothing; the method `Prewarm.Prewarm` picks any enabled step.

## Where the code and its documentation differ

The model follows the code.

- Prewarm says it primes every response the inputs would require
  (`pkg/catalog/prewarm.go:24`); the global lists are left out when no metric or stream label
  is named (`Coverage.PromPlanCompleteIff`, `Coverage.LogPlanCompleteIff`).
- It can also fetch lists no check of the run asks for, and so fail alone
  (`Runner.PrewarmAloneFails`), and, with a dot in a scope, a list no check can ask for
  (`CheckAsks.PlannedInVain`).
- Result says its lists are deduplicated before being written (`pkg/catalog/entry.go:55`);
  only the file store does that, so a list can change between two lookups
  (`Cache.AskedTwice`). Findings then differ in nothing but suggestions (`Checker.Alike`).
- A TTL below a second is recorded as 0, which means no expiry (`Entries.TtlHonoured`); and an
  entry keeps the TTL it was written under, which a file store can carry into a run with a
  shorter one. No list is served past the TTL exactly when neither happens
  (`Freshness.NeverStaleIff`). A recorded TTL of some 292 years or more wraps, and its entry reads
  as expired or sooner than it says (`Entries.HugeTtlExpires`).
- The comments on the virtual queries say they never collide with real input; two virtual
  queries can collide with each other, exactly if a colon moves from the label of one into the
  metric of the other (`Cache.KeysCollide`). The cache stays right because the payload is keyed
  by label (`Cache.KeyAndSlot`), but the store a prewarm leaves then depends on the schedule.
  So it does when an entry that expires while the prewarm runs differs from what a fetch leaves
  (`PrewarmCollide.ExpiryChangesStore`). From any store, all schedules agree exactly if neither
  is the case, or there is one slot (`PrewarmCollide.PlanOneOutcomeIff`).
- Prewarm's nil can mean that nothing was done, if the context was cancelled first
  (`PrewarmSteps.CancelledNil`).
- Literals that stand in for a dashboard variable are skipped by CheckTraceQL only.
- FSStore fills in a missing schema version, MemoryStore refuses it (`Stores.SchemaDefault`).
- An allowlist value rule whose metric pattern holds a slash is cut in the wrong place
  (`Allowlist.ValueKeyFaithful`).
- walkReflect keeps addresses, not typed pointers, so of a struct and its first field, reached by
  two pointers, only one is visited (`ReflectWalk.TwoTypesAtOneAddress`).
- Debounce says zero disables debouncing and also that zero means 500ms; it means 500ms
  (`Watcher.Watcher.New`). Sort says file, line, code, message; it also compares group and rule.

## Model

| member | source | states |
|---|---|---|
| Suggest.Levenshtein | pkg/catalog/suggest.go:57-109 | The two-row, swapped-buffer loop returns the recurrence's distance when that is at most the cutoff and -1 otherwise (0 for equal strings, whatever the cutoff). |
| Suggest.ShortestEdits | pkg/catalog/suggest.go:53-109 | d is that distance if and only if some sequence of d single-byte inserts, deletes and substitutions turns a into b and no shorter sequence, in any order, does. |
| EditDistance.DistanceSymmetric | pkg/catalog/suggest.go:57-109 | The distance is symmetric. |
| EditDistance.DistanceTriangle | pkg/catalog/suggest.go:57-109 | The distance satisfies the triangle inequality. |
| EditDistance.LengthBound | pkg/catalog/suggest.go:61-64 | The length filter rejects no candidate within the cutoff: the length difference never exceeds the distance. |
| EditDistance.RowMinimumNeverFalls | pkg/catalog/suggest.go:83-103 | A lower bound of one row bounds every later row, so leaving on the row minimum loses nothing. |
| EditDistance.Table | pkg/catalog/suggest.go:78-104 | A table with the borders and recurrence the loop computes exists, ends in the distance, and a row entirely above a bound dooms the result to exceed it. |
| Suggest.Suggest | pkg/catalog/suggest.go:15-51 | Filter, in-place sort and top-k selection together return the specified ranking. |
| Suggest.MatchesAreBest | pkg/catalog/suggest.go:15-51 | The result, followed by what was left out, is a permutation of exactly the candidates within the cutoff, best first; at most maxResults are returned, and nothing is left out unless that many are. A negative cutoff counts as 0, and an empty query or a limit of 0 or less gives nothing. |
| Suggest.MatchesIgnoreOrder | pkg/catalog/suggest.go:35-50 | The result is the same for every permutation of the corpus, although the sort is unstable. |
| Order.LessIs | pkg/finding/finding.go:106-126 | A string comes before those it is the beginning of, and otherwise before those with a greater byte where the two first differ: the order in which the code compares strings. |
| Order.SliceStable | pkg/finding/finding.go:106-126 | An in-place stable sort of an array leaves its stable sorting. |
| Order.StableSortUnique | pkg/finding/finding.go:104-126 | Two sorted sequences with the same elements in the same order within each tie are equal: a stable sort has one outcome. |
| Findings.Sort | pkg/finding/finding.go:106-126 | The array ends in the stable order of the six-key comparator. |
| Findings.FindingWeak | pkg/finding/finding.go:107-125 | The six-key comparator is a strict weak order that ties exactly the findings agreeing in all six keys. |
| Findings.FindingOrder | pkg/finding/finding.go:106-126 | It puts the smaller file first, then the smaller line, group, rule, code and message. |
| Lint.DetectDuplicateAlerts | pkg/lint/lint.go:230-280 | The nested loops and the map of definitions report, for some order of the map's names, all but the first definition of each name. |
| Lint.LintAll | pkg/lint/lint.go:77-93 | The output is the stable sorting of the per-file findings and the duplicates in document order; no map order appears in it. |
| Lint.MapOrderHidden | pkg/lint/lint.go:262-280 | For every order in which the map's names can come, the sorted output is the same. |
| Lint.DuplicatesCount | pkg/lint/lint.go:226-280 | There are as many duplicate findings as alerts minus distinct alert names. |
| Lint.DuplicatesExactly | pkg/lint/lint.go:262-278 | A duplicate finding is reported if and only if it is at a definition after the first of its name; its code and message are the documented ones, and it points at the file and group of the first. |
| Lint.AlertsExactly | pkg/lint/lint.go:242-259 | The definitions compared are the named alerts of all files, each once for each place it stands at and in document order, PromQL files first. |
| Escape.TsvEscapeIsSubstitution | pkg/report/text.go:125-131 | The four chained replacements equal one simultaneous substitution, whose output holds no tab, newline or carriage return. |
| Escape.TsvRoundTrip | pkg/report/text.go:125-131 | Unescaping undoes the TSV escaper on every string, and its output holds no tab, newline or carriage return. |
| Escape.GaEscapeIsSubstitution | pkg/report/text.go:91-96 | The three chained replacements equal one simultaneous substitution. |
| Escape.GaRoundTrip | pkg/report/text.go:91-96 | Unescaping undoes the workflow-command escaper on every string. |
| Escape.SplitJoin | pkg/report/text.go:118 | Splitting a joined row gives the parts back if and only if none of them holds the separator. |
| Escape.DecimalExactly | pkg/report/text.go:113 | A line number is written in digits that say it, without leading zeros. |
| Escape.LineIs | pkg/report/text.go:108-118 | The eight columns of a line, in order. |
| Escape.Write | pkg/report/text.go:105-123 | The report is one tab-joined line of eight columns per finding, each ended by a newline. |
| Escape.ReadWrite | pkg/report/text.go:98-131 | Splitting a report into lines and columns gives every finding's eight original columns back if and only if no column but the message holds a tab or a newline. |
| Spaces.TrimSpaceIs | dashboard.go:317 | Trimming takes white space, in the UTF-8 bytes of its code points, off both ends, and leaves none there. |
| Spaces.BlankExactly | dashboard.go:386 | What may follow a call is white space and nothing else. |
| GrafanaScan.ArgumentsExactly | dashboard.go:361-413 | A text is scanned as one argument if and only if it reads as bytes and whole quoted strings, with their escapes, in which no paren closes what was not opened, every comma stands inside a paren, brace or bracket, and nothing is open at the end; in the last argument braces and brackets may be. |
| GrafanaScan.NestedIsWhole | dashboard.go:346-352 | Commas inside nested parens, braces, brackets and strings split nothing, however they are nested. |
| GrafanaScan.WholeArgsJoined | dashboard.go:398-412 | Every comma outside them splits, and a stray closing brace or bracket changes nothing. |
| GrafanaCall.SplitCall | dashboard.go:353-416 | The byte scanner with depth counters and quote state computes the specified splitting. |
| GrafanaCall.SplittingExactly | dashboard.go:341-416 | The scanner succeeds with a call if and only if the input is that call's printed form plus blanks and the call is printable: a non-empty name of letters, digits and underscores, and arguments that are each whole, as strings, groups and commas read, not the single empty argument. |
| GrafanaCall.Unwrap | dashboard.go:316-339 | The PromQL handed on is decided by the one call the trimmed input prints, and is the input itself when it prints no call. |
| Watcher.Watcher.New | internal/watcher/watcher.go:128-156 | The configuration is the defaulted one and nothing has run. |
| Watcher.Watcher.RunOnce | internal/watcher/watcher.go:261-280 | One pass moves the state as specified: callbacks, clock, doubling capped and wrapped as int64, OnReady once. |
| Watcher.Watcher.DoPass | internal/watcher/watcher.go:187-196 | The pass closure drops the pending retry and re-arms it exactly after a failure. |
| Watcher.Watcher.Select | internal/watcher/watcher.go:206-256 | One turn of the loop, with one-slot timer channels, is one step of the state machine. |
| Watcher.Watcher.Run | internal/watcher/watcher.go:164-257 | The loop over any sequence of turns reaches the state of the machine's run. |
| WatcherSafety.Debounced | internal/watcher/watcher.go:217-248 | In every run of every configuration the debounce timer is armed exactly while a relevant event waits for its pass, and a debounce pass starts no earlier than Debounce after the last such event. |
| WatcherSafety.Retried | internal/watcher/watcher.go:187-196 | In every run of every configuration the wait is that of the failures since the last success, a retry is armed exactly while it is positive, for that long after the last pass, and each retry pass follows a failure by at least that wait. |
| WatcherSafety.WaitIsCappedDoubling | internal/watcher/watcher.go:261-280 | With a positive RetryInitial, after k failures in a row the wait is RetryInitial doubled k-1 times and capped at RetryMax (one unit above the doubling when that is RetryMax-1 for an odd RetryMax); it stays within the configured range and never falls in a streak. |
| WatcherSafety.NegativeWaitDoubles | internal/watcher/watcher.go:261-280 | With a negative RetryInitial the wait doubles away from the cap for as long as int64 holds it, so no retry is armed. |
| WatcherSafety.RetryArmedIffFailed | internal/watcher/watcher.go:138-146 | In every run the retry channel is armed exactly when the last pass failed, if and only if RetryInitial was not configured negative. |
| WatcherSafety.ReadyExactlyOnce | internal/watcher/watcher.go:275-279 | OnReady, when set, is called once in a run with a successful pass, straight after the first, and never otherwise. |
| WatcherSafety.ResultsCounted | internal/watcher/watcher.go:237-263 | OnResult is called once per pass and once per fsnotify error, in every run. |
| WatcherProgress.EveryTurn | internal/watcher/watcher.go:164-257 | After any run, a further turn adds to the log, takes and ends exactly what is read off the log of what has happened: a debounce pass if a relevant event has waited for Debounce, a retry if the failures so far have a wait and it is over, a refresh if one is configured, each with its callbacks; otherwise the event or error it takes. No timer appears in it. |
| WatcherProgress.FirstPass | internal/watcher/watcher.go:198-204 | A run begins with one pass. |
| WatcherProgress.DebouncedPassRuns | internal/watcher/watcher.go:245-248 | A debounce turn that ends Debounce or more after the last relevant event waiting for its pass runs exactly one pass, which clears it. |
| WatcherProgress.RetryRuns | internal/watcher/watcher.go:252-254 | A retry turn that ends the wait of the failures so far or more after the last pass runs exactly one pass. |
| WatcherProgress.RefreshRuns | internal/watcher/watcher.go:249-251 | So does every tick of a configured refresh. |
| WatcherProgress.EventsWait | internal/watcher/watcher.go:217-248 | A relevant event waits from the turn that takes it, a later one takes its place, and nothing but the debounce pass that is due clears it. |
| WatcherProgress.RelevantExactly | internal/watcher/watcher.go:282-296 | An event is relevant if and only if its name ends in yaml, yml or json after a dot, in any letter case, and its operation is not exactly CHMOD. |
| WatcherProgress.DefaultsFillIn | internal/watcher/watcher.go:135-146 | Half a second, one second and one minute stand in for what is zero, the cap is at least the first wait, and everything else is kept. |
| Paths.ExtExactly | internal/watcher/watcher.go:289 | The extension is what the last element has from its last dot on, and empty without one. |
| Extract.Walker.Walk | traceql.go:244-293 | The recursive walk over any, also cyclic, heap, with maps yielding their values in any order, terminates, follows each address once, visits only what the value reaches, leaves nothing inside it undone, and has collected exactly what the visited values refer to. |
| Extract.WalkFrom | traceql.go:105 | The call with a fresh seen set walks everything from the root. |
| ReflectWalk.InsideExactly | traceql.go:248-293 | What a value holds: the content of an interface, every field, element and map value, and what those hold. |
| ReflectWalk.WalkIsComplete | traceql.go:242-293 | Only reachable values are visited, and every reachable struct, pointer and interface is visited if and only if no address is reached at two different types. |
| ReflectWalk.TwoTypesAtOneAddress | traceql.go:253-259 | Of two pointers to one address at different types the walk never visits both. |
| ReflectWalk.SharedAddress | traceql.go:253-259 | Such heaps exist. |
| Extract.Walker.Visit | traceql.go:79-104 | One call of the callback adds to the maps exactly what the value refers to. |
| Extract.ExtractTraceQL | traceql.go:64-139 | The empty expression and a parse failure give their errors and an empty result; otherwise the four lists are what some walk of the tree collected, each element once and sorted. |
| Extract.ExtractsReachable | traceql.go:64-139 | An attribute, intrinsic, function or matcher is listed only if some reachable pointer, interface or struct refers to it, and, if no address is reached at two types, exactly then. An attribute node refers to its name, under its scope in lower case, or under none if that reads none. |
| Extract.ExtractionCanonical | traceql.go:64-139 | Without such addresses, neither the order of maps nor the unstable sort can change the result, if and only if no two different matchers of it tie. |
| Extract.DotFreeUntiedMatchers | traceql.go:128-137 | Scopes without a dot leave no ties. |
| TraceQL.AttributeExactly | traceql.go:141-147 | An attribute has its node's name and parent, no scope if the node's is empty or reads none in any letter case, and otherwise the node's scope with A to Z in lower case, byte for byte. |
| TraceQL.MatchersExactly | traceql.go:149-205 | A matcher is read from a comparison if and only if it is an equality with a named, non-intrinsic attribute, or a pointer to one, on one side and the literal, or a list holding it, or a pointer to either, on the other. |
| TraceQL.MatcherPerString | traceql.go:166-170 | An equality with a list gives one matcher for each string of it, in order. |
| TraceQL.MatchersEitherSide | traceql.go:149-171 | It does not matter which side the attribute is written on. |
| TraceQL.Output | traceql.go:107-137 | Both collected sets come out listed once each and sorted by their comparators. |
| TraceQL.AttributeOrder | traceql.go:110-118 | Attributes come by scope, then name, then those of the span itself first. |
| TraceQL.MatcherOrder | traceql.go:128-137 | Matchers come by scope, dot and name as one string, then value, then those of the span itself first. |
| TraceQL.AttributesCanonical | traceql.go:107-118 | The attribute list is strictly sorted, duplicate-free and a function of the collected set alone. |
| TraceQL.MatchersCanonical | traceql.go:125-137 | The matcher list is a function of the collected set if and only if no two different matchers of the set tie. |
| TraceQL.DotFreeMatchersCanonical | traceql.go:59-137 | With scopes that hold no dot it is, so the output is canonical. |
| TraceQL.QualifiedInjective | traceql.go:59-61 | On scopes without a dot the qualified name determines scope and name. |
| TraceQL.DottedScopeTies | traceql.go:128-137 | With a dot in a scope two different matchers can tie. |
| Entries.KeyDetermines | pkg/catalog/entry.go:93-108 | A cache key determines its language, and its query when the source is the same or sources hold no newline. |
| Entries.TtlHonoured | pkg/catalog/entry.go:110-117 | No entry is served beyond the configured TTL, at any time, if and only if that TTL is at least one second. |
| Entries.EntryHonours | pkg/catalog/entry.go:110-117 | An entry is never served longer than a given TTL after its fetch if and only if it records an expiry, and one whose int64 duration is within that TTL. |
| Entries.HugeTtlExpires | pkg/catalog/entry.go:116 | An input: a recorded TTL of 9223372037 seconds wraps to a negative duration, and its entry is expired from the start. |
| Entries.ValidExactly | pkg/catalog/entry.go:119-139 | An entry is valid if and only if none of the seven things is wrong with it, and otherwise the first one wrong is the error. |
| Lists.Compact | pkg/catalog/store.go:243-250 | Compacting an array into its own prefix, comparing with elements already overwritten, keeps the first of each run of equals. |
| Lists.ComputeSortedUnique | pkg/catalog/store.go:237-251 | The result is the sorted, deduplicated list. |
| Lists.SortedUniqueIs | pkg/catalog/store.go:237-251 | That list is strictly sorted and has exactly the elements of the input. |
| Lists.SortedUniqueCanonical | pkg/catalog/store.go:237-251 | It depends on the set of elements alone. |
| Lists.SortedUniqueIff | pkg/catalog/store.go:237-251 | It equals the sorted input if and only if the input repeats nothing. |
| Stores.MemoryStore.Put | pkg/catalog/store.go:54-62 | A valid entry is stored under its key; an invalid one is refused and changes nothing. |
| Stores.MemoryStore.Keys | pkg/catalog/store.go:73-82 | The listing is the strictly sorted key set, whatever order the map yields. |
| Stores.FSStore.Get | pkg/catalog/store.go:114-141 | Probing the language directories answers with the first file there is for the key, or its damage; where every entry file is in its place, with exactly the entry the view holds. |
| Stores.FSStore.Put | pkg/catalog/store.go:144-183 | Temp file, encode and rename leave one more entry file and nothing else changed, whatever else the directory holds; an invalid entry changes nothing. Where every entry file is in its place, the view changes at one key, to the entry as it reads back. |
| Store.PutReadsBack | pkg/catalog/store.go:114-183 | Among any files, also damaged or foreign ones, an entry just put is found under its key exactly if no file of that key sits in a directory probed earlier, and no other key is affected. |
| Store.GetExactly | pkg/catalog/store.go:114-141 | Get answers with the first file of the key, of the three directories in order: its entry if the file is whole and nothing is wrong with the entry, an error otherwise, and not found without a file. |
| Store.EntryNameExactly | pkg/catalog/store.go:209-213 | A name is an entry's if and only if it is a key followed by .json, and that is the key listed. |
| Store.WrittenExactly | pkg/catalog/store.go:226-251 | Writing an entry and reading it back changes its lists alone: sorted, without repetitions, and none for an empty list of names. |
| Stores.FSStore.Delete | pkg/catalog/store.go:186-193 | The files of the key, and nothing else, go; where every entry file is in its place, the key leaves the view. |
| Stores.FSStore.Keys | pkg/catalog/store.go:197-222 | The listing is sorted and holds each name as often as there are entry files of it, foreign ones included, temp files left out; where every entry file is in its place, it is the strictly sorted key set of the view. |
| Stores.FileStoreRefinesMemoryStore | pkg/catalog/store.go:22-222 | Over any sequence of Put, Get, Delete and Keys whose puts carry a schema version, the file store gives the memory store's replies, with entries as they read back: lists sorted and deduplicated, empty name lists nil. |
| Stores.Perform | pkg/catalog/store.go:22-222 | One operation done to both stores, from stores that show the same entries, is one step of each specification, gives matching replies, and leaves stores that show the same entries. |
| Stores.PerformAll | pkg/catalog/store.go:22-222 | So is any sequence of operations. |
| Stores.SchemaDefault | pkg/catalog/store.go:144-150 | The two stores judge an entry alike if and only if its schema version is set. |
| StoreCrash.PutsAreAtomic | pkg/catalog/store.go:84-182 | In every interleaving of any number of puts, with crashes anywhere, a reader sees whole valid entries, old or new, and Keys lists no temp file. |
| StoreCrash.StepKeeps | pkg/catalog/store.go:158-181 | Of all steps of a put only the rename changes what a reader sees, and then at one key. |
| Allowlist.PatternExactly | pkg/catalog/allowlist.go:187-197 | A pattern that ends in a star accepts exactly the strings that its stem begins, and any other pattern only itself. |
| Allowlist.KeyExactly | pkg/catalog/allowlist.go:170-177 | A key accepts a metric and a label if and only if the pattern before its first slash accepts the one and the pattern after it the other. |
| Allowlist.Load | pkg/catalog/allowlist.go:69-119 | Every pattern of a kept rule is listed under that rule's key, and no other pattern is. |
| Allowlist.QueryLabel | pkg/catalog/allowlist.go:147-162 | The loop over the map answers whether some rule's metric and label patterns match, in any map order. |
| Allowlist.QueryLabelValue | pkg/catalog/allowlist.go:166-185 | The same for label values, with keys cut at their first slash. |
| Allowlist.LoadedMetricsAllow | pkg/catalog/allowlist.go:89-97 | After loading, a metric is allowed if and only if some pattern of the document accepts it. |
| Allowlist.LoadedLabelsAllow | pkg/catalog/allowlist.go:98-106 | After loading, a label is allowed if and only if some rule of the document allows it. |
| Allowlist.ValueKeyFaithful | pkg/catalog/allowlist.go:107-112 | A value rule survives the joining of its patterns into one key if and only if its metric pattern holds no slash. |
| Allowlist.LoadedValuesAllow | pkg/catalog/allowlist.go:107-116 | After loading, a label value is allowed if and only if some kept rule allows it whose joined key, cut at its first slash, matches. |
| Allowlist.SlashFreeValuesAllow | pkg/catalog/allowlist.go:107-116 | Where no metric pattern holds a slash, if and only if some rule of the document allows it. |
| Cache.KeyAndSlot | pkg/catalog/checker.go:27-35 | Query strings collide, but a key together with the place of the list in the payload names one typed request. |
| Cache.KeysCollide | pkg/catalog/checker.go:27-35 | Two requests have one key if and only if they are the same, or both ask for label values of a metric (or both for values of a trace attribute) and what stands before a colon in the label of one stands after a colon in the metric of the other. |
| Cache.PlainKeys | pkg/catalog/checker.go:27-35 | So with names that hold no colon the key alone names the request. |
| Cache.CollidingKeys | pkg/catalog/checker.go:31 | An input: "a:b","c" and "a","b:c" share a key. |
| Cache.NewEntryIs | pkg/catalog/checker.go:27-35 | Under what key, language, source and query, and in what place of the payload each of the seven kinds of list is stored. |
| Cache.HitExactly | pkg/catalog/checker.go:513-529 | A lookup is answered from the store if and only if the entry under its key holds the list, in the field or under the label the request is for, and records no expiry or is within its int64 duration; then the answer is that list and the store stays as it is. So it does when upstream refuses. |
| Cache.LookupTransparent | pkg/catalog/checker.go:506-545 | From any faithful store, also with colliding keys, one lookup answers a list with exactly upstream's elements, or upstream's error, and keeps the store faithful. |
| Cache.CacheTransparent | pkg/catalog/checker.go:506-545 | Over any sequence of lookups every answer agrees with upstream. |
| Freshness.ServedExactly | pkg/catalog/checker.go:515-544 | A list just fetched is served again for the whole seconds of the configured TTL, one hour if none is configured, and no longer; under a TTL of less than a second, for ever. |
| Freshness.NeverStaleIff | pkg/catalog/checker.go:515-523 | No list is ever served longer than the TTL after its fetch, whatever the clock and the sequence of lookups, if and only if every list in the store at the start records an expiry within that TTL and, unless upstream has nothing the store can give back, the TTL is a second or more. |
| Cache.AskedTwice | pkg/catalog/checker.go:525-544 | A list just fetched and asked for again is the same list if and only if the store is the memory store or upstream repeats nothing. |
| Checker.Checker.CachedList | pkg/catalog/checker.go:506-545 | The method against the real store, in which files may be damaged or foreign, is one specified lookup: answer, store, clock readings and fetches; a cancelled context shows only in a lookup that misses, and leaves the store faithful. |
| Checker.PutUnshadowed | pkg/catalog/checker.go:541-543 | All the checker needs of a file store, that no file of one of its keys sits in a directory probed before that key's own, is kept by its writes. |
| Checker.ValidUnshadowed | pkg/catalog/store.go:114-127 | Where every entry file is whole and in its place, it holds. |
| Checker.Checker.ListFor | pkg/catalog/checker.go:424-480 | A typed accessor gives exactly upstream's elements or upstream's error, or that of a cancelled context, and adds its request to the lookups made. |
| Checker.Checker.MergedList | pkg/catalog/checker.go:366-410 | The lists of all candidate scopes, merged, sorted and deduplicated, up to the first error or a cancelled context. |
| Checker.Checker.CheckPromQL | pkg/catalog/checker.go:132-217 | The answer is the run's error or its findings, sorted, and the store and fetches are those of the run's lookups in order, unless a cancelled context cut a lookup short. A finding's suggestions are as specified unless the one list they are chosen from repeats itself upstream. |
| Checker.Checker.CheckLogQL | pkg/catalog/checker.go:220-279 | The same for LogQL. |
| Checker.Checker.CheckTraceQL | pkg/catalog/checker.go:297-364 | The same for TraceQL, where findings are exact even when upstream repeats itself. |
| CheckExact.PromExactly | pkg/catalog/checker.go:148-213 | A PromQL run without error reports one finding per reference that upstream does not list and no pattern allows, and one per faulty selector, in order and nothing else; nothing beneath an unknown metric or label. Code, message, context and suggestions are the documented ones. |
| CheckExact.PromReported | pkg/catalog/checker.go:148-213 | So a finding is reported if and only if it is the fault of some reference or selector. |
| CheckExact.LogExactly | pkg/catalog/checker.go:236-275 | A LogQL run without error reports one finding per faulty stream selector and nothing else, likewise spelled out. |
| CheckExact.LogReported | pkg/catalog/checker.go:236-275 | So a finding is reported if and only if it is the fault of some stream selector. |
| CheckExact.TraceExactly | pkg/catalog/checker.go:309-360 | A TraceQL run without error reports the first attribute of each qualified name that upstream does not have for its scope, or, unscoped, for resource or span, and each literal upstream has not seen there for an attribute not reported unknown, literals that hold the dashboard sentinel left out. |
| CheckExact.TraceReported | pkg/catalog/checker.go:309-360 | So a finding is reported if and only if it is the fault of some attribute or matcher. |
| CheckExact.NameListIs | pkg/catalog/checker.go:281-382 | An unscoped name is in the merged list if and only if upstream has it for resource or for span, any other if and only if upstream has it for its scope, and each is listed once, sorted. |
| CheckExact.ValueListIs | pkg/catalog/checker.go:384-410 | The same for values. |
| Checks.ContainsExactly | pkg/catalog/checker.go:340 | A literal holds the sentinel if and only if it is something, the sentinel, and something more. |
| CheckAsks.PromStops | pkg/catalog/checker.go:132-217 | Without a client a PromQL check does nothing, without a source it is that error; otherwise every list it asks for arrived, or the last one did not and that is its error. |
| CheckAsks.LogStops | pkg/catalog/checker.go:220-279 | The same for LogQL. |
| CheckAsks.TraceStops | pkg/catalog/checker.go:297-364 | The same for TraceQL. |
| CheckAsks.PromAsked | pkg/catalog/checker.go:144-199 | A PromQL check without error asks for the metric names, the labels of every known metric of a labelled selector, and the values of those of its known labels that are compared for equality with a value, and for nothing else. |
| CheckAsks.LogAsked | pkg/catalog/checker.go:230-266 | The same for LogQL. |
| CheckAsks.TraceAsked | pkg/catalog/checker.go:309-346 | A TraceQL check without error asks for the names in the scope of the first attribute of each qualified name, in resource and in span if it has none, for the values of each literal it looks up there, and for nothing else. |
| Plan.Plan | pkg/catalog/prewarm.go:84-220 | The plan holds exactly the planned lists, each once, in the documented order. |
| Plan.CollectProm | pkg/catalog/prewarm.go:93-120 | The nested maps hold exactly the metrics, labelled metrics and value-compared labels of the corpus. |
| Plan.CollectTrace | pkg/catalog/prewarm.go:181-200 | The scope and value maps hold exactly the candidate scopes of the attributes and of the matchers whose literal is looked up. |
| Plan.NestedTasks | pkg/catalog/prewarm.go:208-216 | The tasks of a two-level map come out once per pair, in the order of both levels. |
| Plan.PlanDistinct | pkg/catalog/prewarm.go:84-88 | No task is planned twice. |
| Plan.TaskOrder | pkg/catalog/prewarm.go:84-88 | The order of the plan: metric names, labels per metric, values per metric and label, stream labels, their values, names per scope, values per scope and name, each in the order of the names. |
| Coverage.PromCovered | pkg/catalog/prewarm.go:88-144 | Whatever upstream answers, every list a PromQL check of a corpus asks for is planned, or is the metric list of a corpus naming no metric. |
| Coverage.LogCovered | pkg/catalog/prewarm.go:147-177 | The same for LogQL and the stream-label list. |
| Coverage.TraceCovered | pkg/catalog/prewarm.go:180-217 | Every list a TraceQL check asks for is planned. |
| Coverage.PromPlanCompleteIff | pkg/catalog/prewarm.go:122-127 | The plan covers everything the PromQL checks ask for if and only if there are none, or the client is off or has no source, or the corpus names a metric. |
| Coverage.LogPlanCompleteIff | pkg/catalog/prewarm.go:164-169 | The same for LogQL and a named stream label. |
| Coverage.GlobalListLeftOut | pkg/catalog/prewarm.go:122-127 | A query naming no metric asks for the metric names although its plan is empty. |
| CheckAsks.PlannedExactly | pkg/catalog/prewarm.go:84-220 | A list is planned if and only if with some upstream some check of the corpus asks for it, but for a global list of which the corpus names nothing, and the names in a scope whose every attribute reads like an earlier one of its query. |
| CheckAsks.DotFreeFirst | pkg/catalog/prewarm.go:184-188 | Where no scope holds a dot that last exception does not arise. |
| CheckAsks.PlannedInVain | pkg/catalog/prewarm.go:184-188 | An input for which it does: two attributes that both read a.b.c. |
| PrewarmSteps.NeverMoreThanSlots | pkg/catalog/prewarm.go:44-73 | Under every schedule, cancelled or not, tasks start in order, the semaphore holds exactly one token per task in flight, and so no more are in flight than it has slots. |
| PrewarmSteps.MovesBounded | pkg/catalog/prewarm.go:54-74 | Every schedule takes only so many steps: each step but a cancellation brings the end nearer. |
| PrewarmSteps.SomethingMoves | pkg/catalog/prewarm.go:44-74 | No deadlock: until the run is over some step is enabled. |
| PrewarmSteps.NilMeansCompleted | pkg/catalog/prewarm.go:76-79 | When nobody cancels, Prewarm returns nil if and only if every planned task completed. |
| PrewarmSteps.CancelledNil | pkg/catalog/prewarm.go:56-58 | Cancelled at once, Prewarm returns nil having done nothing. |
| PrewarmSteps.CancelStops | pkg/catalog/prewarm.go:54-66 | Once the context is cancelled, under every schedule no task that had not passed its test of it looks anything up or completes, no more than the one waiting for a slot is started, and only tasks past theirs fetch. |
| PrewarmSteps.ErrorsExactly | pkg/catalog/prewarm.go:67-79 | Under every schedule, cancelled or not, the errors are those of the failing steps, in their order, and no others: refusals, calls cut short, entries that cannot be written. |
| PrewarmEnd.PrewarmStaysFaithful | pkg/catalog/prewarm.go:31-80 | Under every schedule, cancelled or not, with colliding keys or not, the store a prewarm leaves agrees with upstream. |
| PrewarmEnd.NoError | pkg/catalog/prewarm.go:64-71 | No error comes of upstream lists that all arrive, as long as nobody cancels. |
| PrewarmOutcome.EveryScheduleEndsAs | pkg/catalog/prewarm.go:31-80 | From any store, with colliding keys or not, every uncancelled schedule reads the clock once per task, leaves alone the keys no task stores under, and leaves under a key that is one task's own either what was there, which some turn of the task finds, or what the task fetched, which some turn misses. |
| PrewarmOutcome.PrewarmIsSequential | pkg/catalog/prewarm.go:31-80 | The concurrent prewarm leaves, up to fetch times, the store that looking the lists up one by one leaves, if no two tasks store under one key and, for a task that may find its list in one turn and miss it in another, it makes no difference to the store which. |
| PrewarmOutcome.FailsBetween | pkg/catalog/prewarm.go:64-79 | Every uncancelled prewarm fails if some list upstream refuses is found in no turn, and none fails unless some such list is missed in some turn or may be evicted by another task, from any store and with colliding keys. |
| PrewarmOutcome.FailsIff | pkg/catalog/prewarm.go:64-79 | If the lists upstream refuses have keys of their own and are found in all turns or in none, the first condition is exact. |
| PrewarmTurns.TimelyKept | pkg/catalog/prewarm.go:54-72 | In every uncancelled run each task reads the clock once, and task i only after at least i - slots + 1 others. |
| PrewarmSchedules.TurnComes | pkg/catalog/prewarm.go:54-72 | With two slots or more each of those turns comes in some schedule. |
| PrewarmOneSlot.OneSlotIsSequential | pkg/catalog/prewarm.go:44-74 | With one slot every uncancelled schedule is exactly the planned lookups in order, times included, from any store, with colliding keys or not. |
| PrewarmCollide.PlainPlanOwn | pkg/catalog/prewarm.go:128-143 | In a plan whose names hold no colon every task has a key of its own. |
| PrewarmWarm.PrewarmedChecksFetchNothing | pkg/catalog/prewarm.go:24-31 | If up to the last reading of the clock that prewarm and checks make nothing fetched expires, no planned request collides with one that upstream answers, and each planned list is in the store throughout or is found in no turn and can be had and kept, then prewarm returns nil under every schedule and the covered lookups after it fetch nothing but the global lists left out of the plan. |
| PrewarmWarm.WithinTtlIff | pkg/catalog/entry.go:110-117 | For a clock that never goes back, nothing expires between two readings if and only if the last is within the TTL of the first. |
| PrewarmCollide.CollidingSchedulesDiffer | pkg/catalog/prewarm.go:60-72 | From any store, with two slots or more, any plan with two colliding requests that upstream answers has two schedules that leave different stores: the last task to write wins. |
| PrewarmCollide.ExpirySchedulesDiffer | pkg/catalog/prewarm.go:60-72 | With two slots or more, so has any plan with an entry of a task's own that one turn finds and another misses, and that differs from what a fetch leaves. |
| PrewarmCollide.ExpiryChangesStore | pkg/catalog/prewarm.go:60-72 | An input: a store written under a TTL of one second, a clock two seconds later at each reading, two slots. |
| PrewarmCollide.PlanOneOutcomeIff | pkg/catalog/prewarm.go:31-80 | From any store, all uncancelled schedules of a plan leave the same store, up to fetch times, if and only if there is one slot, or no two planned requests that upstream answers collide and no task of one that may find its list in one turn and miss it in another has an entry that differs from what a fetch leaves. |
| PrewarmCollide.OwnIff | pkg/catalog/prewarm.go:84-220 | A task's key is its own if and only if its request collides with no other planned one that upstream answers. |
| Prewarm.PerformStep | pkg/catalog/prewarm.go:61-72 | One step of a goroutine, done to the real store, is one step of the machine. |
| Prewarm.Prewarm | pkg/catalog/prewarm.go:31-80 | The run against the real store, under any choice of enabled steps and any cancellation, is a finished schedule of the machine, with its errors and its store. |
| Collect.Collect | internal/runner/runner.go:272-338 | The loops gather every expression of rule files, then dashboards, in document order. |
| Collect.PromCollected | internal/runner/runner.go:272-338 | The PromQL expressions checked are those of the rules, targets and variables that are in that language and without error, each once for each place it stands at and in document order, rule files before dashboards and panels before variables, with the file, group and rule or the panel label they came from. |
| Collect.LogCollected | internal/runner/runner.go:287-338 | The same for LogQL. |
| Collect.TraceCollected | internal/runner/runner.go:302-338 | The same for TraceQL, which only dashboards hold. |
| Runner.CorpusCovered | internal/runner/runner.go:340-386 | Every list the checks of a corpus ask for is covered by the plan made of it. |
| Runner.CheckAll | internal/runner/runner.go:364-386 | The three loops answer with the first error or with all findings, in order, and make the lookups of the checks in order, unless a cancelled context cut one short. |
| Runner.RunCorpus | internal/runner/runner.go:340-386 | With or without prewarming, under any schedule and any cancellation, the answer is a prewarm error, or that of an upstream call cut short, or the checks'; without upstream errors, repetitions and cancellation it is fixed by corpus and upstream; an uncancelled prewarm of the plan fails if some planned list is hopeless and only if some is at risk, exactly so where the schedule cannot matter; and after a calm one the checks fetch only what the plan leaves out. |
| Runner.PrewarmFailsIff | internal/runner/runner.go:356-361 | The conditions for a failing prewarm, in terms of plan, store, clock and upstream. |
| Runner.RunCatalog | internal/runner/runner.go:265-387 | From the files: the answer is a prewarm error, or that of an upstream call cut short, or the checks' on the collected corpus; without upstream errors, repetitions and cancellation it is fixed by files and upstream; and the prewarm, when asked for, is of the plan of that corpus, with the slots asked for, and fails and spares fetches as in RunCorpus. |
| RunReports.CorpusReports | internal/runner/runner.go:364-386 | Without error every expression is checked, PromQL, then LogQL, then TraceQL, each in order, and what each check reports, sorted, is reported. |
| RunReports.CorpusStops | internal/runner/runner.go:364-386 | Otherwise the first check that fails ends the run, with its error. |
| RunReports.ReportedExactly | internal/runner/runner.go:265-387 | From files to findings: without error a finding is reported if and only if some expression of a rule or a dashboard has that fault, in terms of what upstream holds and the allowlist accepts. |
| Runner.AnswerDetermined | internal/runner/runner.go:364-386 | Without upstream errors and repetitions the answer is the corpus's findings. |
| Runner.PrewarmSpares | internal/runner/runner.go:340-386 | A prewarm that stays calm up to the last reading of the clock returns nil, and the checks after it fetch nothing but the global lists the plan leaves out. |
| Runner.PrewarmedAndNot | internal/runner/runner.go:340-386 | Two checkers with one upstream that neither fails nor repeats itself, one prewarmed and one not, with stores, clocks and schedules of their own and nobody cancelling, report the same findings. |
| Runner.PrewarmAloneFails | internal/runner/runner.go:340-362 | Prewarming can fail a run the checks alone finish: from any store without them, the plan fetches the labels of a metric the checks find unknown. |

## Left out

- The PromQL, LogQL, TraceQL, YAML and JSON parsers: extraction results are arbitrary inputs.
- HTTP clients, the filesystem, fsnotify and signals: an upstream function, a map of files, an event alphabet.
- I/O errors of a store: a valid entry can always be written, and files read. The wrapping of a context error.
- Concurrency of two checks, or of a check with a prewarm: runCatalog runs them one after the other.
- Findings' severities per code, CLI flags, logging, telemetry and exit codes: constants and single branches.
- What a parsed TraceQL value is to the extractor (its Go type, String() and fields), and which values reflection may address: library rules; the first is any function, and the walk follows the edges given.
- normalizeDashboardExpr and the rest of ExtractDashboard: they rest on Go regular expressions.
- The single-rule lint checks: an arbitrary sequence of findings in Lint.LintAll.
- Allowlist reasons, and the sorting of loaded patterns, which no query can see.
- JSON, JUnit, SARIF and human-readable rendering: encoder plumbing.
- watchDirs and the choice of directories to watch.
- The rounding of a TTL of more than about 100 days through float64 seconds.
- Suggest.Suggest: a nil and an empty result are both the empty sequence.
- Checker.Checker.CheckPromQL: when the one list behind a finding repeats an element upstream, the finding's suggestions are left open, because a list read back from the file store has lost the repetitions (Cache.AskedTwice); everything else of the findings is exact. So for CheckLogQL. The text of an error is carried, not the prefixes added to it.
- The nil store that the checker replaces by a fresh memory store: a checker is given its store.
- Checker.Checker.CachedList: a clock that reads the zero time, which makes every cache write fail, is covered here and by Cache.NewEntryValid; the three Check methods and Runner assume it does not happen. A file of one of the checker's keys in another language's directory, which nothing writes, is assumed away (Checker.Unshadowed); Store.PutReadsBack says what it would do.
- Entries.EntryHonours: time.Time.Sub saturates at the int64 range; no duration of whole seconds reaches its end, so that changes no answer.
- Lint.DetectDuplicateAlerts: a rule is its alert name alone, since nothing else of it is read.
- PrewarmSteps.NilMeansCompleted: the order of joined errors is that of the failing steps; a failing step and its append to the shared slice are one step, and so are leaving the semaphore and the wait group.
