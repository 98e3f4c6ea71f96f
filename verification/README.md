# Analytics agent: a verified model

A Dafny model of the parts of the analytics agent and its web UI where correctness is a matter of
whole runs, of loops and of text transformations, with proofs of what they keep.
`dafny verify dfyconfig.toml` checks everything.

## What is modelled

- **Event store** (`Keys`, `Calendar`, `Events`, `Tables`, `HotStore`, `Compaction`, `Regrouping`,
  `Refinement`, `EventMachine`, `EventHistory`, `Scenarios`, `Query`). Events are stamped, appended to
  the hot table, moved by the compactor to one file per day, removed by retention, and regrouped at
  start-up when the grouping rules have changed. The classes follow the code statement by statement, with an error possible at
  every storage call; `EventMachine` is the step machine they refine, with a crash enabled everywhere;
  `EventHistory` holds the theorems about whole runs, `Scenarios` the runs that show where they end. A
  redb transaction and a tmp-then-rename write are one step each. `Reports` puts the rules of the code
  into the regrouping pass.
- **Filter language** (`FilterSyntax`, `Quoting`, `Decompose`, `Conjunctions`, `Resplit`,
  `RoundTripMeaning`, `RoundTripChips`, `Predicates`, `Operators`, `Glob`). Printing and parsing of expression
  trees, the query bar's chips, and the agent's compilation to column predicates, whose value on a row
  is given by Kleene's three-valued logic.
- **Exception fingerprints** (`Normalize`, `Frames`, `BuildPaths`, `Tokens`, `PlainText`, `Fingerprint`,
  `Grouping`). The nine stages of the frame pipeline as the index loops they are, what their composition
  cannot see, and what the fingerprint tells apart.
- **Windows** (`Windows`). Range resolution, the bucket ladder, the zero-filled series, the dashboard's
  pair of series, and occurrence trends.
- **Rate limiter** (`RateLimiter`, `Throughput`), **single flight** (`SingleFlight`) and the **ingest writer**
  (`Writer`, `Ceiling`), each a class with the source's fields beside a specification over all its runs.

`Wrappers` and `Seqs` hold what the code takes from the Rust standard library and from polars.

## Where code and documentation part

The model follows the code. These are proved:

- Retention compares 23:59:59.000 with its cutoff, so rows of the last 999 ms of a day can go early
  (`Calendar.RetentionRespectsCutoffIff`).
- `Query::to_expression` is called the inverse of `Query::parse`. It always is for the chips
  (`RoundTripChips.RoundTripKeepsChips`). It is for the meaning of the expression when each dimension
  occurs once and at most one advanced piece exists or none is a top-level `||`
  (`RoundTripMeaning.RoundTripKeepsMeaning`); otherwise the query can widen
  (`RoundTripChips.TwoCountriesWiden`, `RoundTripChips.JoinedCountriesWiden`). A right-nested `||` is
  re-associated, which keeps its meaning, and its text exactly when its outer operands need no
  parentheses (`RoundTripChips.ReassociatedTextIff`).
- In a list for `in` the empty string is an ordinary value, while `== ""` asks for absence
  (`Predicates.MembershipIsDisjunctionIff`).
- "`not X` includes rows where the dimension is absent" holds for `!=` and not for `!`
  (`Predicates.NotEqualsKeepsNulls`), and `==`/`!=` of the boolean field with a string other than true
  overlap on null (`Predicates.EqualityPartitionsIff`).
- A glob's `*` and `?` do not match a line feed (`Glob.AgreesEverywhereIff`).
- A number of ten or more digits counts as a hash, so it is told apart from a shorter line number
  (`Frames.LineNumberBlindIff`).
- A client's override decides the group of a report when it comes in, and is not stored: a regrouping
  pass puts the report into the group of its own text (`Reports.OverrideKeptIff`).
- Type and frames are hashed as lines of one text, so a type of several lines can pass for a type and
  frames (`Grouping.LinesOfTypePassForFrames`); types of one line cannot (`Grouping.SameGroupIff`).
- Full-row de-duplication relies on copies of an event being equal. A start breaks that exactly when it
  finds its own version stamped although a pass of another build was cut off before its own stamp, as
  when an older build is put back after a newer one crashed (`Scenarios.HarmlessIff`). Such starts are
  steps of the machine like any other; the theorems about exact copies ask that a run has none
  (`SafeStarts`), and the theorems about losing and inventing events do not.
- A query that overlaps a compaction can miss rows (`EventHistory.QueryDuringCompaction` says which,
  `Scenarios.QueryMissesArchivedEvent` shows one).
- A limiter cleanup can be noticed by a request that read its clock before the cleanup and took the
  lock after it (`RateLimiter.UnnoticedIff`).
- The ceiling on auto-registered sources bounds what the writer knows. It bounds the stored sources only
  while no registration is cut short and the writer knows as many sources as are stored, so not after a
  seed that could not be read (`Ceiling.CeilingHoldsIff`, `Ceiling.SeededCeilingIff`,
  `Ceiling.CeilingAlwaysHoldsIff`).

## Model

| member | source | states |
|---|---|---|
| EventHistory.EveryEventExactlyOnce | agent/src/ingest/compactor.rs:46-86 | in every serving state of every run (appends, failed appends, compaction sub-steps, regrouping, retention, crashes, reopens under any builds) reached through safe starts, the de-duplicated union of hot and cold holds committed events only, each number once, and all of them that retention was not entitled to remove |
| EventHistory.NothingLostOrInvented | agent/src/ingest/compactor.rs:46-86 | in every state of every run whatsoever, up to the exception group, stored rows are committed events and none that retention must keep is missing |
| EventHistory.CommittedForEver | agent/src/store/events.rs:18-45 | a committed event stays committed in every later state, and only a stamped regrouping pass can change its group |
| EventHistory.NumbersNeverReused | agent/src/store/events.rs:23-43 | an append hands out numbers no event committed earlier in the run ever had, across aborts, crashes and reopens, and its keys overwrite nothing |
| EventHistory.CommitsTheBatch | agent/src/store/events.rs:18-45 | a batch is committed as it was sent, in its order, under consecutive numbers from the counter on, and each row is in the hot table under its key |
| EventHistory.RegroupingCompletes | agent/src/ingest/regroup.rs:21-44 | however often the pass was cut off, once the version is stamped every row has the group of its own text and is otherwise the committed row, copies of a number are equal, and a further pass changes no table entry and rewrites no file |
| Reports.GroupedByOwnText | agent/src/ingest/regroup.rs:32-37 | behind a finished pass under the rules of the code, every stored exception, live or archived, has the fingerprint of its own type, message and stack as its group, in that order and without an override |
| Reports.RulesGroup | agent/src/ingest/regroup.rs:32-34 | the closure handed to both passes is such a rule: type, message or nothing, stack, no override |
| Reports.StoredGroupsIff | agent/src/ingest/regroup.rs:32-37 | for a hash without collisions, two stored exceptions of one-line types are in one group exactly when type and first five frames agree or, without a stack, type and image of the first message line |
| Reports.LineNumbersShareGroup | agent/src/ingest/regroup.rs:12-20 | stored exceptions of one type whose stacks differ in a line number and in recursion depth share a group, whatever their messages |
| Reports.BuildDirectoriesShareGroup | agent/src/ingest/regroup.rs:12-20 | so do those whose stacks differ in the build directory |
| Reports.IdsShareGroup | agent/src/ingest/regroup.rs:12-20 | and those whose stacks differ in an id, an address or a hash |
| Reports.OverrideKeptIff | agent/src/ingest/regroup.rs:32-34 | the pass has no overrides to go by: the group of a client override survives it exactly when the override is the very digest of the text that is hashed without it |
| Scenarios.HarmlessIff | agent/src/ingest/regroup.rs:22-25 | exactly which starts are safe: starting a build keeps copies equal on every store that safe starts lead to, unless it finds its own version stamped on rows that a cut-off pass of another build has begun to rewrite |
| Scenarios.RollbackServesTwoCopies | agent/src/ingest/regroup.rs:22-25 | the failing run, from an empty store and for any two builds that group some exception differently: it ends in the first build serving two unequal copies of one event |
| Scenarios.RollbackExample | agent/src/ingest/regroup.rs:22-25 | one such run with builds 0 and 1 |
| EventHistory.WhereItWent | agent/src/analytics/mod.rs:1126-1168 | while the server runs, an event that left the hot store between two reads was archived before the first or was deleted by a compaction in between |
| EventHistory.QueryDuringCompaction | agent/src/analytics/mod.rs:1126-1168 | a query that lists the archive first and reads hot later, with any compaction, retention and appends in between, returns each number at most once and committed events only; an event of the window is missing exactly when a compaction deleted it after archiving it behind the listing |
| Scenarios.QueryMissesArchivedEvent | agent/src/analytics/mod.rs:1128-1137 | rows do go missing: for any event and window, a run and two moments between which the event is in neither half of the answer |
| EventMachine.StepKeeps | agent/src/ingest/compactor.rs:46-86 | every step of the machine, crash included, keeps the invariant |
| EventMachine.AppendIsFresh | agent/src/store/events.rs:26-35 | keys and numbers of a batch are new to table and log |
| EventMachine.SealDayKeeps | agent/src/ingest/compactor.rs:74-82 | writing one day archives exactly its rows and keeps what the compactor still relies on |
| EventMachine.DropSealedKeeps | agent/src/ingest/compactor.rs:84-85 | when every day is written, deleting exactly the keys read loses no event |
| EventMachine.ExpireKeeps | agent/src/ingest/compactor.rs:98-112 | dropping an expired file loses no event received at or after the cutoff plus 999 ms |
| EventMachine.HotPass | agent/src/store/regroup.rs:57-94 | the hot pass keeps keys and identities and leaves a fixed point of the rules |
| EventMachine.FilePass | agent/src/store/parquet.rs:106-159 | rewriting a file keeps its day and its numbers and leaves a fixed point of the rules |
| EventMachine.PassCompletes | agent/src/ingest/regroup.rs:35-37 | when both halves are fixed points, every copy equals the regrouped committed event |
| HotStore.Store.Open | agent/src/store/mod.rs:43-86 | reopening takes over the durable table and loads the counter from the stored bytes |
| HotStore.Store.AppendEvents | agent/src/store/events.rs:18-45 | all or nothing: on success the stamped batch is in the table and the counter is durable; on an error at any operation the table is untouched but the numbers taken stay taken |
| HotStore.Store.AllEvents | agent/src/store/events.rs:47-57 | the rows of the table in key order |
| HotStore.Store.EventsBeforeWithKeys | agent/src/store/events.rs:71-90 | the entries with a receive time below the clamped cutoff, in key order |
| HotStore.Store.DeleteKeys | agent/src/store/events.rs:93-106 | all or nothing: exactly the given keys go, or none |
| HotStore.Store.FingerprintVersion | agent/src/store/regroup.rs:29-39 | zero when nothing was ever stamped, and otherwise the number whose four bytes were stamped |
| HotStore.Store.SetFingerprintVersion | agent/src/store/regroup.rs:42-52 | the version reads back as set and the event counter is untouched |
| HotStore.Store.RegroupHotExceptions | agent/src/store/regroup.rs:57-94 | collecting rewrites in a scan and writing them back regroups the whole table and counts the changed rows |
| HotStore.MetaRoundTrip | agent/src/store/regroup.rs:42-52 | a number stored big-endian in the metadata table reads back |
| Tables.RewritesAreRegrouping | agent/src/store/regroup.rs:63-90 | applying the collected rewrites is regrouping every row, and their number is the number of changed rows |
| Tables.NothingChanged | agent/src/store/parquet.rs:141-153 | no change is counted exactly when regrouping leaves the rows as they are |
| Tables.RowsOldestFirst | agent/src/store/events.rs:47-57 | rows come by receive time, then by sequence number |
| Tables.RowsExact | agent/src/store/events.rs:47-57 | they are exactly the rows of the table |
| Tables.EntriesBeforeExact | agent/src/store/events.rs:66-90 | the read below a cutoff is exact in both directions |
| Tables.StampedFresh | agent/src/store/events.rs:26-35 | rows stamped from a counter above every stored number have keys that are new and distinct |
| Tables.ScanUnique | agent/src/store/events.rs:47-57 | the scan of a table in key order is unique |
| Events.RegroupedErases | agent/src/store/regroup.rs:70-82 | regrouping depends only on what it cannot change and keeps key, number and receive time, so it erases earlier groupings |
| Compaction.CompactWindow | agent/src/ingest/compactor.rs:51-86 | the exact archive, hot table and result of a run, for an error at any write or in the delete |
| Compaction.GroupByDate | agent/src/ingest/compactor.rs:59-71 | the keys in order and one group per day holding its rows in order |
| Compaction.CountAll | agent/src/ingest/compactor.rs:73-82 | the day groups hold every row once |
| Compaction.EnforceRetention | agent/src/ingest/compactor.rs:89-113 | exactly the files of expired days go, except those whose removal fails, which is ignored |
| Compaction.RetentionRefines | agent/src/ingest/compactor.rs:98-112 | that is the machine steps that expire those files one after another |
| Compaction.CompactWindowRefines | agent/src/ingest/compactor.rs:51-86 | a run of the method is the machine steps read, seal each day, drop, or read, seal the days reached, give up |
| Refinement.AppendRefines | agent/src/store/events.rs:18-45 | an append is the machine step that appends the batch, or the one that fails with the numbers already taken; an empty batch is none |
| Regrouping.RegroupPartition | agent/src/store/parquet.rs:106-159 | the row loop rewrites the group column and nothing else, and reports no change exactly when the file stays as it is |
| Regrouping.RegroupColdExceptions | agent/src/store/regroup.rs:99-109 | the files visited are regrouped and no other, for an error at any file |
| Regrouping.RegroupIfNeeded | agent/src/ingest/regroup.rs:21-44 | hot pass, cold pass, stamp last: the exact effect of a pass stopped anywhere, and no stamp unless all of it is done |
| Regrouping.RegroupRefines | agent/src/ingest/regroup.rs:35-37 | the uninterrupted pass is the machine steps hot pass, every file, stamp |
| Regrouping.CutOffPassRefines | agent/src/ingest/regroup.rs:35-37 | a pass cut off behind its hot half and some files is those steps and a crash, and the version stays |
| Query.Combined | agent/src/analytics/mod.rs:1126-1168 | the rows of a query are the de-duplicated union of the listed files and the hot rows, restricted to the window |
| Keys.EventKey | agent/src/store/tables.rs:34-39 | the filled buffer is the clamped time and the sequence number, eight big-endian bytes each |
| Keys.U64FromBe | agent/src/store/tables.rs:41-46 | reads the first eight bytes as a number, fewer bytes as a smaller number |
| Keys.U32FromBe | agent/src/store/tables.rs:48-53 | the same for the first four bytes |
| Keys.BeRoundTrip | agent/src/store/tables.rs:34-46 | decoding inverts encoding at any width |
| Keys.KeyTimeInverts | agent/src/store/tables.rs:34-46 | the first eight bytes of a key decode to the clamped receive time |
| Keys.KeyOrder | agent/src/store/tables.rs:32-39 | byte order of keys is the order of (clamped time, sequence) |
| Keys.KeyInjective | agent/src/store/tables.rs:32-39 | two keys are equal exactly when clamped time and sequence are |
| Calendar.DateOrder | agent/src/analytics/mod.rs:1691-1698 | day numbers order valid dates lexicographically |
| Calendar.DateOfInverts | agent/src/analytics/mod.rs:1691-1698 | each valid date is the date of its own day number (Gregorian calendar, section 3.2.1 of ISO 8601:2004) |
| Calendar.DayOfMonotone | agent/src/analytics/mod.rs:1691-1698 | the date of an instant never steps back |
| Calendar.DayOfIsCivil | agent/src/analytics/mod.rs:1691-1698 | the first 86400 seconds are 1970-01-01, and a day of milliseconds later is the next civil date |
| Calendar.CivilYear | agent/src/analytics/mod.rs:1691-1698 | the lengths of the twelve months and the leap rule, which `NextDate` goes by |
| Calendar.RepresentableIff | agent/src/analytics/mod.rs:1693-1696 | exactly the instants of the years -262143 to 262142 get their own date, and all others that of the epoch |
| Calendar.PruningIsComplete | agent/src/analytics/mod.rs:1632-1662 | no partition that holds a row of the window is skipped |
| Calendar.RetentionGrace | agent/src/ingest/compactor.rs:106-108 | a row received at or after the cutoff plus 999 ms survives retention |
| Calendar.RetentionRespectsCutoffIff | agent/src/ingest/compactor.rs:106-108 | retention respects its cutoff for every row exactly when the cutoff is not inside the last 999 ms of a day |
| FilterSyntax.PrintParses | ui/src/filters.rs:694-784 | parsing the print of any expression tree gives the tree back |
| FilterSyntax.ExprReads | ui/src/filters.rs:694-784 | a printed expression reads back in any context that ends an expression |
| FilterSyntax.ComparisonReads | ui/src/filters.rs:709-721 | a printed comparison reads back as one comparison |
| FilterSyntax.OperandReads | ui/src/filters.rs:754-762 | a printed operand reads back as one operand, composites being parenthesised |
| Quoting.QuoteReads | ui/src/filters.rs:600-603 | un-escaping a quoted value gives the value and stops at its closing quote, whatever follows |
| Decompose.ParseQuery | ui/src/filters.rs:332-360 | the loop over the pieces builds the chips, each dimension once with its last value, and the joined remainder; blank and unparseable texts take their own branches |
| Conjunctions.FlatReads | ui/src/filters.rs:356-358 | how the grammar reads an unparenthesised mixture of conjunctions and disjunctions |
| Conjunctions.OrTextReads | ui/src/filters.rs:630-633 | a disjunction, printed without outer parentheses, reads back as its re-associated tree |
| Resplit.PiecesAreConjuncts | ui/src/filters.rs:618-635 | splitting yields one piece per conjunct, in order |
| Resplit.SplitReads | ui/src/filters.rs:363-379 | the printed query of safely joined pieces parses to the conjunction of chips and remainder |
| RoundTripMeaning.RoundTripKeepsMeaning | ui/src/filters.rs:332-379 | for every splittable expression, splitting, printing and re-parsing keeps its value on every row, nulls and compile errors included |
| RoundTripChips.RoundTripKeepsChips | ui/src/filters.rs:332-379 | for every expression the re-parsed query has the same chips in the same order; when the advanced pieces join safely it is the same query exactly when the remainder is not one right-nested disjunction with an outer operand in parentheses |
| RoundTripChips.ReassociatedTextIff | ui/src/filters.rs:630-633 | a right-nested disjunction keeps its text exactly when its outer operands need no parentheses |
| RoundTripChips.TermsDistinct | ui/src/filters.rs:348-352 | a query never holds two chips of one dimension |
| RoundTripChips.ChipNames | ui/src/filters.rs:75-97 | the dimension of each of the fifteen field names |
| RoundTripChips.SplitsAgainIff | ui/src/filters.rs:346-358 | for every expression the printed query parses, and splits into as many conjuncts exactly when no chip dimension repeats and the advanced pieces join safely |
| RoundTripChips.UnparseableIsVerbatim | ui/src/filters.rs:337-342 | a rejected expression is kept and sent back as it is |
| RoundTripChips.RepeatedDimensionWidens | ui/src/filters.rs:348-352 | two different chips of one dimension: the re-parsed query keeps rows the expression dropped |
| RoundTripChips.JoinedDisjunctionWidens | ui/src/filters.rs:356-358 | a disjunction joined to another advanced piece: its left side escapes, and rows are kept that the expression dropped |
| RoundTripChips.TwoCountriesWiden | ui/src/filters.rs:348-352 | it happens: two countries required of a page view find nothing, and re-parsed they find one |
| RoundTripChips.JoinedCountriesWiden | ui/src/filters.rs:356-358 | it happens: a joined disjunction over countries keeps no row from Britain, and re-parsed it does |
| Predicates.EqualityPartitionsIff | agent/src/analytics/filter.rs:328-344 | `f == v` and `f != v` split every frame exactly when `v` is not empty or the frame is the exceptions one; for the boolean field exactly when `v` is some casing of true |
| Predicates.NotEqualsKeepsNulls | agent/src/analytics/filter.rs:340-344 | `f != v` keeps what `!(f == v)` keeps and, besides, the rows where `f` is null |
| Predicates.MembershipIsDisjunctionIff | agent/src/analytics/filter.rs:358-380 | `f in [v1..vn]` has the value of the disjunction of `f == v1` to `f == vn` on every row, for string fields, for `source` with its scheme forms and for `project`, exactly when the list does not ask a field for absence (or asks it of the source of exceptions and names every bare scheme) |
| Predicates.EqMeans | agent/src/analytics/filter.rs:206-246 | the value of an equality on a row: whether the dimension is absent for the empty value of a field; else unknown on null, and otherwise whether the value selects the cell |
| Predicates.InMeans | agent/src/analytics/filter.rs:358-380 | the value of a membership on a row |
| Predicates.DenoteLogical | agent/src/analytics/filter.rs:413-425 | a connective has the Kleene value of its sides, and compiles when both do |
| Predicates.DenoteNot | agent/src/analytics/filter.rs:427-432 | negation has the Kleene value, and unknown stays unknown |
| Operators.ConnectivesKeep | agent/src/analytics/filter.rs:413-432 | a conjunction keeps what both sides keep, a disjunction what either keeps, a negation what its operand answers no to, and De Morgan holds for what is kept |
| Operators.StartsWithMeans | agent/src/analytics/filter.rs:387-390 | on a string field, the rows whose cell is the value and something behind it, up to case, or as written for `_cs`; unknown on null |
| Operators.EndsWithMeans | agent/src/analytics/filter.rs:391-394 | the rows whose cell is something and the value behind it, in both forms |
| Operators.ContainsMeans | agent/src/analytics/filter.rs:383-386 | the rows whose cell is the value with anything around it, in both forms |
| Operators.LowerFolds | agent/src/analytics/filter.rs:380-394 | case-insensitive comparison maps the 26 capitals to their small letters and nothing else |
| Operators.InCsMeans | agent/src/analytics/filter.rs:362-380 | `in_cs` compares cells as written, and on `source` it is `in` |
| Operators.SourceMeans | agent/src/analytics/filter.rs:464-489 | a source is named as stored up to case or, when the name has no `://`, without its scheme |
| Operators.ProjectMeans | agent/src/analytics/filter.rs:317-327 | `project ==`, `!=`, `in` and `in_cs` compare the stored source with the sources of the named projects |
| Operators.NullMeans | agent/src/analytics/filter.rs:345-350 | `== null` and `!= null` are about the null cell alone and never unknown |
| Operators.PresenceMeans | agent/src/analytics/filter.rs:149-153 | a field on its own, and `!= ""`, ask whether the cell holds any text |
| Operators.FlagMeans | agent/src/analytics/filter.rs:154-155 | `handled` on its own and compared with a boolean: a null flag counts as false |
| Operators.FlagComparisons | agent/src/analytics/filter.rs:345-350 | `handled` compared with null sees the null, and with a string it is compared with whether that reads true |
| Operators.MatchesMeans | agent/src/analytics/filter.rs:448-461 | `matches` searches the cell for the pattern, both as they are, and is unknown on null |
| Operators.LiteralFirst | agent/src/analytics/filter.rs:307-311 | a comparison written literal first has the value of the comparison written field first |
| Operators.CompilesIff | agent/src/analytics/filter.rs:316-410 | exactly which comparisons of a name with a literal compile; orderings and arithmetic never do |
| Operators.ConditionsAlone | agent/src/analytics/filter.rs:147-161 | of what stands alone only boolean literals and fields are conditions |
| Operators.SharedVocabulary | agent/src/analytics/filter.rs:41-48 | the columns of the five field names both endpoints know |
| Operators.DashboardVocabulary | agent/src/analytics/filter.rs:49-58 | the columns of the eight names of the dashboard |
| Operators.ExceptionsVocabulary | agent/src/analytics/filter.rs:61-68 | the columns of the five names of the exceptions view, `handled` being a flag |
| Operators.NoOtherFields | agent/src/analytics/filter.rs:41-70 | no other name is a field |
| Operators.CellOf | agent/src/store/event.rs:17-25 | the cells an event holds on its own, the names of its kinds among them |
| Glob.GlobRegex | agent/src/analytics/filter.rs:500-519 | the loop emits the regex text of the pattern |
| Glob.TextReads | agent/src/analytics/filter.rs:500-526 | that text reads as one atom per pattern character, metacharacters included |
| Glob.GlobRegexIsGlob | agent/src/analytics/filter.rs:499-526 | the emitted regex accepts exactly the one-line strings the glob accepts |
| Glob.AgreesEverywhereIff | agent/src/analytics/filter.rs:499-526 | on all strings, line feeds included, they agree exactly when the pattern has no wildcard |
| Glob.PrefixGlobs | agent/src/analytics/filter.rs:499-526 | text followed by `*` is a prefix test, and followed by `?` it asks for exactly one more character |
| Glob.LikeMeans | agent/src/analytics/filter.rs:434-446 | `f like pattern` is unknown on null and otherwise keeps exactly the values the glob accepts, the one-line ones for every pattern and all of them without wildcards |
| Normalize.UrlEnd | agent/src/ingest/normalize.rs:238-258 | the index loop finds the end of a URL that starts here, if one does |
| Normalize.StripUrlsLoop | agent/src/ingest/normalize.rs:217-234 | the index loop removes every URL |
| Normalize.StripUrlsIsClean | agent/src/ingest/normalize.rs:217-234 | no letter directly followed by `://` is left |
| Normalize.StripUrlsIdempotent | agent/src/ingest/normalize.rs:217-234 | stripping twice is stripping once |
| Normalize.NormalizePathsLoop | agent/src/ingest/normalize.rs:264-289 | the index loop shortens every maximal path run |
| Normalize.NormalizePathsIdempotent | agent/src/ingest/normalize.rs:264-315 | shortening twice is shortening once |
| Normalize.BasenameOf | agent/src/ingest/normalize.rs:311-315 | the basename of a directory and a file name is the file name |
| Normalize.MapTokensLoop | agent/src/ingest/normalize.rs:321-350 | the pass that remembers where a token started maps every maximal token |
| Normalize.RunsSplit | agent/src/ingest/normalize.rs:264-350 | runs and tokens never cross a delimiter |
| Frames.LineNumberBlind | agent/src/ingest/normalize.rs:52-64 | the nine stages together cannot tell two line numbers apart, in any surroundings, when the token ends with the number and both or neither have ten digits |
| Frames.LineNumberBlindIff | agent/src/ingest/normalize.rs:52-64 | two numbers are indistinguishable in all frames exactly when both or neither have ten digits |
| Frames.NumberAlone | agent/src/ingest/normalize.rs:372-376 | where the line is drawn: from ten digits on a number is taken for a hash |
| Frames.UrlStage | agent/src/ingest/normalize.rs:217-261 | URL stripping keeps the number whatever it is, or removes it whatever it is |
| Frames.PathStage | agent/src/ingest/normalize.rs:264-315 | so does path shortening |
| Frames.TokenStagesOf | agent/src/ingest/normalize.rs:321-376 | the token stages and digit stripping erase a number up to nine digits |
| BuildPaths.DirectoryDropped | agent/src/ingest/normalize.rs:264-315 | two directories of one file shorten to the same text between non-path characters |
| BuildPaths.DirectoryDroppedIff | agent/src/ingest/normalize.rs:264-315 | exactly which directories cannot be told apart: equal ones, and those that are dropped, before a name with a dot or with two separators of their own |
| BuildPaths.BuildDirectoryBlind | agent/src/ingest/normalize.rs:52-64 | the nine stages give one result for a file wherever it was built |
| Tokens.TokenBlind | agent/src/ingest/normalize.rs:52-80 | both pipelines give one result for two delimited tokens of one class, UUIDs, addresses or hashes, or of the same letters up to case, wherever they stand but in front of `://` |
| Tokens.TokenBlindIff | agent/src/ingest/normalize.rs:52-64 | two tokens are interchangeable in every frame exactly when their images agree |
| Tokens.TokenAlone | agent/src/ingest/normalize.rs:321-376 | the image of a token: the placeholder of its class, or its lower-case text without digits |
| Tokens.UuidShape | agent/src/ingest/normalize.rs:353-361 | a UUID is five groups of 8, 4, 4, 4 and 12 hex digits joined by dashes |
| Tokens.AddressShape | agent/src/ingest/normalize.rs:364-368 | an address is 0x and at least one hex digit |
| Tokens.CharacterClasses | agent/src/ingest/normalize.rs:249-329 | the characters of digits, hex digits, tokens, paths and blanks, one by one |
| PlainText.PlainKept | agent/src/ingest/normalize.rs:52-80 | plain lower-case text, single-spaced and without digits, separators, question marks and UUIDs, is kept as it is by both pipelines, so different plain texts stay apart |
| PlainText.QueryDropped | agent/src/ingest/normalize.rs:107-113 | a frame loses what follows its first question mark and nothing else here |
| PlainText.UrlCut | agent/src/ingest/normalize.rs:217-261 | a URL is cut out from its scheme up to the first closing character, and the text in front of it stays |
| PlainText.SpacingBlind | agent/src/ingest/normalize.rs:206-212 | any run of blanks between two texts collapses alike, and outer blanks leave nothing |
| PlainText.CaseBlind | agent/src/ingest/normalize.rs:154-159 | texts that differ in case only have one image in both pipelines |
| Fingerprint.TrimInvisible | agent/src/ingest/exception.rs:101-107 | trimming a whole stack changes none of its frames |
| Fingerprint.FramesIgnoreDepth | agent/src/ingest/normalize.rs:84-94 | lines that give one frame, repeated in any positive numbers, give one list of frames |
| Fingerprint.FingerprintIgnoresDepth | agent/src/ingest/exception.rs:87-115 | without an override the fingerprint of a stack ignores the message and how often a line recurs |
| Fingerprint.FingerprintIgnoresLineNumbers | agent/src/ingest/exception.rs:87-115 | and line numbers |
| Fingerprint.FingerprintIgnoresBuildDirectory | agent/src/ingest/exception.rs:87-115 | and the directory the code was built in |
| Grouping.FingerprintIgnoresIds | agent/src/ingest/exception.rs:87-115 | and ids, addresses and hashes that stand delimited in a line |
| Grouping.MessageIgnoresIds | agent/src/ingest/exception.rs:108-112 | without a stack it ignores them in the first visible line of the message, and all lines that follow |
| Grouping.SameGroupIff | agent/src/ingest/exception.rs:87-115 | what is told apart: for a hash without collisions, reports of one-line types without an override share a fingerprint exactly when types agree up to case and outer blanks and so do the first five frames or, without a stack, the images of the summary lines |
| Grouping.OverrideDecides | agent/src/ingest/exception.rs:93-95 | reports with an override share a fingerprint exactly when the trimmed overrides are equal |
| Grouping.LinesOfTypePassForFrames | agent/src/ingest/exception.rs:97-106 | types of several lines do collide: two reports with different types and frames have one fingerprint, whatever the hash |
| Grouping.FramesByLine | agent/src/ingest/normalize.rs:84-94 | the frames of a stack from its first line on: each line adds its image once trimmed, unless it has none or the next frame repeats it |
| Grouping.SummaryIsFirstLine | api/src/exception.rs:65-71 | the summary of a message is its first line that is not blank, trimmed, whatever follows |
| Grouping.NothingToSum | api/src/exception.rs:65-71 | a blank message has an empty summary |
| Windows.ResolveRange | agent/src/web/api/query.rs:33-59 | for all inputs 0 <= from < to <= the latest instant, and at most 2000 whole buckets |
| Windows.RequestsHonoured | agent/src/web/api/query.rs:39-49 | in-range instants are kept, the default is one week up to now in daily buckets |
| Windows.LeastAdmissibleRung | agent/src/web/api/query.rs:51-56 | the bucket is the least rung that is coarse enough and stays under the cap |
| Windows.IntervalGrantedIff | agent/src/web/api/query.rs:7-15 | each of the seven interval names is granted with its own length exactly when the window fits 2000 buckets of it |
| Windows.OtherIntervalsAreDaily | agent/src/web/api/query.rs:45-49 | an unknown interval name is as good as none, and none is daily |
| Windows.LatestInstant | agent/src/web/api/query.rs:23-26 | windows start in 1970 at the earliest and end with 2099 at the latest |
| Windows.OffTheLadder | agent/src/web/api/query.rs:51-56 | it leaves the ladder exactly when not even weeks stay under the cap |
| Windows.SizedBucketIsTight | agent/src/web/api/query.rs:55-56 | and is then as fine as the cap allows, up to one millisecond |
| Windows.GroupByBucket | agent/src/analytics/mod.rs:1245-1315 | the grouped counts are exactly the non-zero tallies of the grid |
| Windows.Timeseries | agent/src/analytics/mod.rs:1237-1347 | one point per bucket from first to last with its tally, or the populated buckets in time order beyond 5000 points |
| Windows.ResolvedIsDense | agent/src/analytics/mod.rs:1329-1340 | a resolved window always gets the gap-free series |
| Windows.SeriesMatchesSummary | agent/src/analytics/mod.rs:1186-1233 | the points of a resolved window add up to its page views, visitors and events |
| Windows.Dashboard | agent/src/analytics/mod.rs:46-100 | both series add up to their summaries, cover the window bucket by bucket, and correspond index by index one window length apart |
| Windows.SummaryCounts | agent/src/analytics/mod.rs:74-78 | what is counted: page loads; of these, those flagged as a first of a user or, with a path filter, of a page; pixel and custom events; exceptions |
| Windows.TrendOf | agent/src/analytics/mod.rs:1102-1112 | each of the twenty slices counts its own occurrences, and all of them add up to the number of occurrences |
| Windows.SlicesAreEqualParts | agent/src/analytics/mod.rs:1100-1107 | an occurrence in the window falls into the slice of its twentieth |
| RateLimiter.RateLimiter.constructor | agent/src/ratelimit.rs:26-32 | no bucket is tracked; capacity and refill are those of the rule, at least one each |
| RateLimiter.RateLimiter.Check | agent/src/ratelimit.rs:39-55 | the answer and the whole new table, tokens staying within zero and the capacity |
| RateLimiter.RateLimiter.Cleanup | agent/src/ratelimit.rs:58-66 | exactly the buckets that have not refilled by now stay |
| RateLimiter.AfterKeepsSound | agent/src/ratelimit.rs:47-54 | tokens stay within zero and the capacity under every operation, whatever the clock does |
| RateLimiter.StepPays | agent/src/ratelimit.rs:39-66 | a request is paid for by the level and the forward movement of the clock |
| RateLimiter.RateBound | agent/src/ratelimit.rs:39-66 | over every stretch of every run, cleanups included: allowed requests <= tokens at hand + refill rate x forward clock movement |
| RateLimiter.RateBoundInOrder | agent/src/ratelimit.rs:39-66 | in clock order: <= capacity + refill rate x elapsed time |
| RateLimiter.BurstThenDenied | agent/src/ratelimit.rs:39-55 | a new key gets exactly its burst through at once |
| RateLimiter.CleanupInvisible | agent/src/ratelimit.rs:57-66 | cleanups anywhere change no answer when no request reads an earlier clock than a cleanup before it |
| RateLimiter.UnnoticedIff | agent/src/ratelimit.rs:40-41 | for all limits of the code, a cleanup is unnoticed by the requests after it, in every state, exactly when their clock does not read earlier than its own |
| Throughput.RefillsAtTheRate | agent/src/ratelimit.rs:46-48 | between two clock readings a level rises by exactly rate times time, up to the capacity |
| Throughput.PeriodSuffices | agent/src/ratelimit.rs:46-50 | one refill period after a request, whatever it found, the key has a token |
| Throughput.AdmittedIff | agent/src/ratelimit.rs:39-66 | in clock order, for a key that starts untracked, a request is allowed exactly when every window up to it, cleanups and other keys included, stays within capacity and refill with it |
| Throughput.AllAllowedIff | agent/src/ratelimit.rs:39-66 | all requests of a key are allowed exactly when they conform to the limits in every window |
| Throughput.SpacedIsAllowed | agent/src/ratelimit.rs:39-66 | requests one refill period apart are all allowed, whatever other keys and cleanups do |
| SingleFlight.SingleFlight.JoinOrStart | ui/src/auth.rs:60-70 | joins the current run or starts and publishes a new one under the next generation |
| SingleFlight.SingleFlight.PollShared | ui/src/auth.rs:72-81 | hands out the result when settled and retires the run only under its own generation |
| SingleFlight.StepKeeps | ui/src/auth.rs:53-83 | every call, poll, settlement and drop keeps: the current run is the newest and the only unsettled one |
| SingleFlight.AtMostOneUnsettled | ui/src/auth.rs:48-52 | in every interleaving at most one started run is unsettled, and it is the one new callers join |
| SingleFlight.StartsOnlyWhenIdle | ui/src/auth.rs:48-52 | a run is started exactly when a new caller arrives and none is unsettled |
| SingleFlight.ResultsAreShared | ui/src/auth.rs:72-81 | callers of one generation return the same result, which never changes |
| SingleFlight.KeepsItsGeneration | ui/src/auth.rs:60-81 | a caller returns for the generation it joined |
| SingleFlight.OldCallersLeaveNewRuns | ui/src/auth.rs:74-80 | a caller of an older generation changes nothing of a newer run |
| SingleFlight.ReadyReturns | ui/src/auth.rs:72-81 | a poll that finds the operation ready returns at once, with its value or with the one its run settled with before, and leaves that run settled |
| SingleFlight.PendingWaits | ui/src/auth.rs:60-72 | a pending poll of an unsettled run waits for that run and settles nothing |
| SingleFlight.ReadyThenFresh | ui/src/auth.rs:74-80 | behind it no run is unsettled, and the next new caller starts a fresh one |
| SingleFlight.SettlesIff | ui/src/auth.rs:67-72 | a run settles with a value exactly in the step in which one of its callers finds it ready with that value |
| Writer.Writer.CollectNew | agent/src/ingest/pipeline.rs:94-110 | the new sources are the unknown ones in order of appearance, as many as the ceiling leaves room for |
| Writer.Writer.FlushBatch | agent/src/ingest/pipeline.rs:83-133 | the exact log, sources and known set for every outcome of the storage call |
| Writer.Writer.WriterLoop | agent/src/ingest/pipeline.rs:45-79 | the loop over queue and timer |
| Writer.BatchesPartition | agent/src/ingest/pipeline.rs:60-78 | the batches and what is pending cut up the events taken from the queue in order, without gap or overlap |
| Writer.LogIsKeptBatches | agent/src/ingest/pipeline.rs:119-132 | the stored log grows by the batches whose append succeeded, in order |
| Writer.StoredAtMostOnce | agent/src/ingest/pipeline.rs:45-133 | each event taken is stored at most once, in order |
| Writer.StoredExactlyOnceIff | agent/src/ingest/pipeline.rs:45-133 | all events taken are stored exactly once precisely when no append failed and nothing is pending |
| Writer.CloseFlushes | agent/src/ingest/pipeline.rs:69-72 | closing the queue leaves nothing pending |
| Writer.BatchesAreBounded | agent/src/ingest/pipeline.rs:62-68 | a batch holds at least one event and at most 512 |
| Writer.FullBatches | agent/src/ingest/pipeline.rs:62-68 | between ticks events are appended 512 at a time and never sooner |
| Writer.TickFlushes | agent/src/ingest/pipeline.rs:74-78 | the timer leaves nothing pending: what was is stored, or lost with its append |
| Writer.KnownSourcesBounded | agent/src/ingest/pipeline.rs:94-110 | the known sources only grow, and never beyond the larger of their seed and the ceiling |
| Ceiling.FlushRegisters | agent/src/ingest/pipeline.rs:94-132 | a flush without failure registers every new source of its events, unless that fills the ceiling |
| Ceiling.FailedFlush | agent/src/ingest/pipeline.rs:113-132 | a failed append registers nothing and its events are lost; a failed registration keeps the ones before it in the store, and the writer learns none |
| Ceiling.FirstComeFirstRegistered | agent/src/ingest/pipeline.rs:96-110 | where the ceiling cuts, earlier sources come first: at every event of the batch, all sources so far are known afterwards or none that comes later is new |
| Ceiling.RegisteredSourcesBounded | agent/src/ingest/pipeline.rs:94-130 | a writer with no room left, or one that knows as many sources as are stored, keeps the stored ones within the larger of their first number and the ceiling |
| Ceiling.CeilingHoldsIff | agent/src/ingest/pipeline.rs:94-130 | over all runs in which no registration is cut short, that holds exactly for those writers |
| Ceiling.SeededCeilingIff | agent/src/ingest/pipeline.rs:48-54 | a freshly started writer is one exactly when its seed could be read, the ceiling is zero or the store is empty |
| Ceiling.CeilingAlwaysHoldsIff | agent/src/ingest/pipeline.rs:94-132 | over all runs, registrations cut short included, it holds exactly when at most one source is left to go |
| Writer.CutShortRegistrationsPassTheCeiling | agent/src/ingest/pipeline.rs:119-132 | a registration cut short is forgotten by the writer, and the store can end up above the ceiling |

## Left out

- HotStore.Store.AppendEvents: requires that the counter stays below 2^64, so wrap-around of sequence numbers is not modelled.
- EventMachine.StepKeeps: a compaction starts under a file stamp no archived file carries; two compactions in one millisecond, or a clock set back onto an old stamp, are not modelled.
- EventMachine.StepKeeps: schema migration at start-up is not a step; its second step does not repeat safely on a migrated record, so no crash-at-any-point claim holds there.
- Query.Combined: unreadable files, files older than a column, and type coercion in the union are not modelled; directory names are the dates they spell.
- EventHistory.QueryDuringCompaction: a listed file is read when it is listed; one that retention removes before it is opened makes the query fail, which is no answer here.
- RoundTripChips.RoundTripKeepsChips: for a remainder in which a disjunction is joined to another piece, the chips and the reading are proved but no condition for when its text stays the same.
- Events.RegroupedErases: JSON and Parquet encodings are taken to read back what was written; the columns that no modelled code looks at are one map.
- FilterSyntax.PrintParses: the grammar of the filt-rs crate is not part of the repository and is assumed (`||` below `&&` below comparison, prefix `!`, parentheses, calls); it reads tokens, and text becomes tokens only for quoted strings, in `Quoting`.
- FilterSyntax.PrintParses: number formatting, function and regex evaluation of that crate are not modelled.
- Predicates.EqMeans: lower-casing is ASCII; `str::to_lowercase` is Unicode. Regex matching is a parameter, and predicates that polars rejects at evaluation time (string operators on the boolean column) count as unknown.
- Glob.GlobRegexIsGlob: of the regex syntax, only what the translation can emit is read; case folding is ASCII.
- Normalize.UrlEnd: characters are ASCII, so a letter is an ASCII letter; `char::is_alphabetic`, `is_alphanumeric` and `is_whitespace` are Unicode.
- Grouping.SameGroupIff: SHA-256 and its truncation to sixteen hex digits are two functions without collisions; the hash of an override and that of a text are not compared.
- Reports.GroupedByOwnText: the caps on stored type, message and stack are applied before the rows reach the model.
- Fingerprint.FingerprintIgnoresDepth: SHA-256 and the truncation to sixteen hex digits are parameters; a carriage return at a line's end is removed by trimming instead of by `str::lines`.
- Windows.Dashboard: whether the filter refers to paths is a parameter; not modelled are bounce rate, median duration, breakdowns, rollups and traces; the filter predicate is applied before the scan reaches the model.
- Windows.Timeseries: `group_by` is a loop over the rows; a bucket of a negative instant follows floored division.
- RateLimiter.RateBound: times and tokens are real numbers, so `f64` rounding is not modelled; a poisoned lock is an ordinary one.
- SingleFlight.StepKeeps: a shared future settles inside the poll of a caller, which returns and retires in the same turn, as in one browser thread; wake-ups, a panicking operation, and wrap-around of generations at 2^64 are not modelled.
- Writer.Writer.WriterLoop: the choice between queue and timer is the order of the inputs; a saturated queue drops events before they are taken.
- OIDC, cookies, HTTP handlers, configuration, telemetry, and the browser tracker: input and output around the modelled code.
- Entities, triage, event and exception detail views, user-agent, referrer, geo and language classification, demo data: single-branch facts.
- Yew components, charts and formatting: user interface.
