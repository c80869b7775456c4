# Verified model of the nika framework's core

nika is a Go application framework. This project models the parts of it that hold real state or
perform a real transformation, and proves what they promise.

| file | models |
|---|---|
| `Patterns.dfy`, `Routers.dfy`, `RouterRaces.dfy` | subject patterns, the router with its memo, and the router's calls interleaved |
| `RedisPlan.dfy` | translation of patterns into Redis globs, and the choice of one delivery among several |
| `Correlation.dfy`, `RabbitSessions.dfy` | request/reply correlation of the four transports as one state machine with two modes: `Peek` (TCP, Redis) looks an entry up, `Take` (RabbitMQ, Kafka) removes it; and RabbitMQ's sessions with their watchers over it |
| `Frames.dfy` | TCP length-prefix framing |
| `KafkaListen.dfy` | the Kafka consume loop with crashes and restarts, for either start policy |
| `SqlText.dfy`, `SqlConds.dfy`, `SqlEngine.dfy`, `SqlStatements.dfy`, `SqlSelect.dfy`, `SqlUpdate.dfy`, `SqlPages.dfy` | the SQL statement compiler over three dialects, an engine that binds, parses and evaluates what it emits in three-valued logic (clause 8 of ISO/IEC 9075-2) and runs its SELECTs and UPDATEs on a table, and pagination |
| `MigrationLists.dfy`, `MongoMigrations.dfy`, `MongoOrder.dfy`, `SqlLock.dfy`, `SqlMigrations.dfy` | the migration runners, and version order across MongoDB processes |
| `MemoryCache.dfy`, `Decimals.dfy` | the in-process cache against a map with deadlines |
| `GrpcValues.dfy`, `GrpcConvert.dfy` | struct/message conversion of the gRPC layer |
| `ModuleLoader.dfy` | the module loader and dependency resolution |
| `GuardTag.dfy` | the guard tag parser against its grammar, with a printer |
| `Options.dfy`, `TextOrder.dfy` | the option type; Go's order on strings |

Code that works in place is a method or a class proved against a specification function; protocols are
state machines whose runs interleave freely, and where one process has a loop of its own
(`MongoMigrations.Migrator.UpN`, `KafkaListen.Consumer.Handle`) that loop is shown to take only steps of
the machine, with arbitrary steps of others in between.

Every lemma carries `{:induction false}`: proofs by induction are written out, none is found automatically.

Conventions: a Go string is a Dafny string with one character per byte. `strings.TrimSpace` is modelled
for ASCII white space. Panics are returned values. The clock, body outcomes, lost answers and scheduling
are parameters or arbitrary choices. An identifier check is an arbitrary predicate `valid`; LIKE and
ILIKE are arbitrary predicates that share one case folding.

Where the code falls short of what its comments say, or of what one would expect, the model follows the
code, shows a run or an input, and states the exact condition:

| run or input | exact condition |
|---|---|
| `RouterRaces.StaleAnswer`: a search is stored under another lock than it was made under | `RouterRaces.CoherentThroughoutIff`, `RouterRaces.ResolveIsAtomicIff` |
| `RouterRaces.MissedLiteral`: the exact map is read once, at the beginning | `RouterRaces.AllAnswersBestIff`, `RouterRaces.ResolveIsAtomicIff` |
| `RedisPlan.FirehoseStraddlesInbox`: wildcards reach reply inboxes | `RedisPlan.StraddlesInboxIff` |
| `RabbitSessions.OldWatcherDropsNewEntry`: a dead session's watcher drops a newer session's entries | `RabbitSessions.EntryKeptIff`, `RabbitSessions.SafeIffWatchersDone` |
| `SqlPages.FarPagesWrap`: the row offset is computed in 64 bits | `SqlPages.PageIsSliceIff` |
| `MongoOrder.OutOfOrder`, `MongoOrder.StalePlan`: unfinished claims count as applied | `MongoOrder.InOrderThroughoutIff` |
| `SqlLock.RolledBackTwice`: SQLite takes no lock | `SqlLock.AlternatesIffLocked` |
| `KafkaListen.CommitAhead`: offsets are committed out of order; `KafkaListen.SkippedAtStart`, `KafkaListen.SkippedAfterCancel`: under the default `LastOffset` every start before a partition's first commit begins at its end, so a message left uncommitted is not redelivered | `KafkaListen.SafeIff`, `KafkaListen.LostIffSkipped`, `KafkaListen.RedeliveredIff` |
| `MemoryCache.SplitGetMisses`: `Get` and `TTL` read the map and the clock at two instants | `MemoryCache.LinearizableIff` |
| payloads of 2^32 bytes and more: the length is cut to 32 bits | `Frames.DecodesIff` |
| quoted arguments that begin or end with white space: they are trimmed too (`GuardTag.PrintedIsTrimmed`) | `GuardTag.QuotedArgumentsKeptIff` |
| values with other zones than UTC, empty slices and the like | `GrpcValues.ComesBackIff` |

`dafny verify dfyconfig.toml` checks the whole project.

## Model

| member | source | states |
|---|---|---|
| `Patterns.Match` | common/microservice/pattern.go:57-95 | the iterative last-star matcher answers true exactly when the recursive relation for `*` and `?` holds, within (p+1)·(s+1) iterations for a pattern of p and a subject of s characters |
| `Patterns.MatchesIffCut` | common/microservice/pattern.go:57-95 | the relation is independent of any algorithm: a match is a cut of the subject into one piece per pattern character |
| `Patterns.LastStarSuffices` | common/microservice/pattern.go:71-83 | once a later star has been reached, no earlier star needs to be reconsidered: whatever an earlier star could match, the last one can |
| `Patterns.LiteralMatches` | common/microservice/pattern.go:57-95 | a pattern without wildcards matches itself and nothing else |
| `Patterns.FromIsMatches` | common/microservice/pattern.go:57-95 | matching from two indices is matching of the suffixes |
| `Patterns.Rank` | common/microservice/pattern.go:112-125 | the counting loop yields the specificity of a pattern; with `HasWildcards`, the wildcard flag is exactly `IsWildcard` |
| `Patterns.HasWildcards` | common/microservice/pattern.go:23-25 | a pattern is a wildcard exactly when its wildcard count is positive |
| `Patterns.BeatsIsTotal` | common/microservice/pattern.go:128-139 | of two distinct patterns exactly one is more specific |
| `Patterns.BeatsTransitive` | common/microservice/pattern.go:128-139 | the specificity order is transitive, so it is a strict total order on distinct patterns |
| `Patterns.BeatsIffPreferred` | common/microservice/pattern.go:97-139 | which pattern is preferred, by the positions of its literal characters and of its wildcards: an exact one before wildcards, then more literal characters, then fewer wildcards, then byte order |
| `Patterns.RefinementIsPreferred` | common/microservice/pattern.go:97-139 | a pattern with one wildcard replaced by a literal character is preferred to it |
| `TextOrder.TextLessIff` | common/microservice/pattern.go:138 | byte order: a proper prefix, or smaller in the first byte in which the two differ |
| `Routers.BestIsUnique` | common/microservice/router.go:124-165 | at most one route is the right answer for a subject |
| `Routers.AnswerIsPreferred` | common/microservice/router.go:124-165 | no other matching route is preferred to the answer: if the answer is a wildcard, it has at least as many literal characters as any other route that matches, on a tie no more wildcards, and on a further tie comes first in byte order |
| `Routers.FirstMatchIsBest` | common/microservice/router.go:144-152 | the first match in a list sorted by specificity is the unique best match |
| `Routers.SortedIsUnique` | common/microservice/router.go:97-100 | a sorted list is determined by its members, whatever order they arrived in |
| `Routers.SortBySpecificity` | common/microservice/router.go:97-100 | sorting keeps exactly the routes and orders them strictly by specificity |
| `Routers.InsertBySpecificity` | common/microservice/router.go:97-100 | one insertion keeps order and members |
| `Routers.SearchWild` | common/microservice/router.go:144-152 | the wildcard scan returns the first match of the list |
| `Routers.LookupIsBest` | common/microservice/router.go:124-165 | exact table first, then the wildcard list: together the best route of all |
| `Routers.Router.constructor` | common/microservice/router.go:68-73 | a new router is valid and holds no route |
| `Routers.Router.Find` | common/microservice/router.go:111-121 | finds the route registered under a pattern if and only if there is one |
| `Routers.Router.Add` | common/microservice/router.go:76-107 | rejects a nil route, an invalid or a repeated pattern and then changes nothing; otherwise adds exactly that route, keeps both tables valid and leaves no stale memo |
| `Routers.Router.Resolve` | common/microservice/router.go:124-165 | answers with the best registered route, hit or miss, and the memo (with its reset at 4096 entries) never changes the routes |
| `Routers.Router.ListPatterns` | common/microservice/router.go:168-181 | lists every registered pattern once: literals in text order, then wildcards by specificity |
| `Routers.ListedInOrder` | common/microservice/router.go:168-181 | sorted literals followed by the wildcard table is router order, literals in text order |
| `TextOrder.InsertText` | common/microservice/router.go:168-181 | one insertion of sorting strings keeps order and members |
| `TextOrder.TextOrderIsUnique` | common/sqldb/repository/base.repository.go:274-278 | a sorted list of names is determined by its members |
| `Routers.WildGrows` | common/microservice/router.go:76-107 | adding a wildcard route to the tables adds exactly it to the registered set |
| `Routers.ExactGrows` | common/microservice/router.go:76-107 | adding a literal route to the tables adds exactly it to the registered set |
| `Routers.Call` | common/microservice/router.go:76-165 | any one call changes the registered set as specified and answers with the best route |
| `Routers.Replay` | common/microservice/router.go:76-165 | in any sequence of atomic calls every Resolve answers with the best of what was registered before it |
| `Routers.RoutesAreTheAdds` | common/microservice/router.go:76-107 | after any run, the registered routes are exactly those added |
| `Routers.OrderIsIrrelevant` | common/microservice/router.go:124-165 | two runs registering the same routes in different orders, with any lookups between, answer alike |
| `RouterRaces.AddIsSafeIff` | common/microservice/router.go:144-162 | an Add between a search and its store leaves the memo coherent exactly when no unstored search would be won by the new route |
| `RouterRaces.StepKeepsCoherent` | common/microservice/router.go:124-165 | every other step keeps the memo coherent |
| `RouterRaces.CoherentThroughoutIff` | common/microservice/router.go:124-165 | an interleaved run keeps the memo coherent throughout exactly when no Add overtakes an unstored search |
| `RouterRaces.MemoIsBounded` | common/microservice/router.go:153-162 | over every interleaving the memo never exceeds its bound |
| `RouterRaces.AnswerIsBestIff` | common/microservice/router.go:124-165 | in a coherent state an answer given after the look in the exact map is the best route exactly when the subject was not registered as a literal since |
| `RouterRaces.AllAnswersBestIff` | common/microservice/router.go:124-165 | over every interleaving in which no Add overtakes an unstored search: all answers are best exactly when no literal is registered between a caller's look in the exact map and its answer |
| `RouterRaces.RegisteredFirstAnswersBest` | common/microservice/router.go:124-165 | when registration is over before the first Resolve begins, every answer of every interleaving is best |
| `RouterRaces.AlwaysSourced` | common/microservice/router.go:144-162 | whatever is in the memo, or about to be stored, was found by a search of some earlier state |
| `RouterRaces.ResolveIsAtomicIff` | common/microservice/router.go:124-165 | over every interleaving, harmless or not: the answer of a Resolve is the best route at some instant of the call, exactly unless a wildcard preferred to it was registered when the call began (a stale memo), or it was itself registered only after the subject was, as a literal, during the call |
| `RouterRaces.StaleAnswer` | common/microservice/router.go:144-162 | a run in which an Add overtakes a search and the stale miss is then served |
| `RouterRaces.MissedLiteral` | common/microservice/router.go:124-143 | a run in which the memo is right throughout and a caller is given a route that is best in no state of it |
| `RouterRaces.RacingPatterns` | common/microservice/router.go:144-162 | concrete valid patterns for both runs |
| `RedisPlan.ToRedisPattern` | common/microservice/transport/redismq/pattern.go:29-46 | the loop computes the translated pattern |
| `RedisPlan.EscapeGlob` | common/microservice/transport/redismq/pattern.go:52-67 | the loop computes the escaped text |
| `RedisPlan.TranslationPreservesMeaning` | common/microservice/transport/redismq/pattern.go:29-46 | under Redis glob semantics (classes, ranges, escapes) the translation matches what `Pattern.Match` matches |
| `RedisPlan.EscapedPrefixIsLiteral` | common/microservice/transport/redismq/pattern.go:52-67 | an escaped prefix matches itself and nothing else, whatever follows |
| `RedisPlan.TranslationIsInjective` | common/microservice/transport/redismq/pattern.go:29-46 | distinct patterns translate to distinct globs |
| `RedisPlan.GlobForMatches` | common/microservice/transport/redismq/pattern.go:115-156 | the glob of a pattern matches a channel exactly when the channel has the prefix and the rest matches the pattern |
| `RedisPlan.GlobMatchesSubject` | common/microservice/transport/redismq/pattern.go:115-156 | on the channel of a subject the glob and the pattern agree |
| `RedisPlan.GlobForIsInjective` | common/microservice/transport/redismq/pattern.go:115-156 | distinct patterns subscribe to distinct globs |
| `RedisPlan.NewPlan` | common/microservice/transport/redismq/pattern.go:115-156 | fails exactly on an empty prefix, an invalid or reserved pattern or an empty list; otherwise the plan holds each literal's channel and each wildcard's glob once, first occurrences in order |
| `RedisPlan.Accept` | common/microservice/transport/redismq/pattern.go:176-197 | refuses exactly a glob delivery of a subject that a literal owns, and a glob delivery when another glob is the first to match |
| `RedisPlan.DeliveredIff` | common/microservice/transport/redismq/pattern.go:115-156 | Redis makes a delivery exactly when a registered pattern of that form matches the subject |
| `RedisPlan.FirstGlobIsBest` | common/microservice/transport/redismq/pattern.go:176-197 | in router order the first matching glob belongs to the most specific matching wildcard |
| `RedisPlan.ExactlyOneAccepted` | common/microservice/transport/redismq/pattern.go:176-206 | for patterns in router order: whenever Redis makes a delivery exactly one is accepted, and it is the one owned by the route the router resolves |
| `RedisPlan.ForeignChannel` | common/microservice/transport/redismq/pattern.go:200-206 | a channel outside the prefix is delivered nothing |
| `RedisPlan.ReachesIntoIff` | common/microservice/transport/redismq/pattern.go:124-132 | a pattern matches some subject of a namespace exactly when it agrees with the namespace up to its first star |
| `RedisPlan.StraddlesInboxIff` | common/microservice/transport/redismq/pattern.go:10-13 | exactly which accepted patterns also match reply inboxes |
| `RedisPlan.FirehoseStraddlesInbox` | common/microservice/transport/redismq/pattern.go:10-13 | `*` is accepted and matches every reply inbox, so the stated separation does not hold for wildcards |
| `SqlText.BindUndoesEmit` | common/sqldb/repository/dialect.go:28-41 | binding the arguments to an emitted text gives back the bound text, in every dialect and at every offset of the argument list |
| `SqlText.EmitNumbersInOrder` | common/sqldb/repository/dialect.go:28-41 | the k-th placeholder in text order carries number k |
| `SqlText.EmitConcat` | common/sqldb/repository/dialect.go:28-41 | text emitted in two parts continues one numbering |
| `SqlText.ArgsOfConcat` | common/sqldb/repository/base.repository.go:391-402 | arguments of two parts are concatenated in text order |
| `SqlText.RenderedBindsBack` | common/sqldb/repository/dialect.go:28-41 | any rendered statement binds argument k to its k-th placeholder, so `$n` and `?` dialects bind identically |
| `SqlConds.ListHoles` | common/sqldb/repository/where.go:170-176 | an IN list gets one placeholder per value, numbered on from the counter |
| `SqlConds.RenderList` | common/sqldb/repository/where.go:149-176 | IN and NOT IN: nil and non-lists are refused, an empty list becomes a constant, the rest one placeholder per value |
| `SqlConds.RenderCond` | common/sqldb/repository/where.go:124-225 | every operator: accepted exactly when its value fits, text and arguments of one bound predicate, counter moved by the number of arguments |
| `SqlConds.BuildConds` | common/sqldb/repository/where.go:124-225 | accepted exactly when every condition and column is; the clause is the conjunction and `idx == startIdx + len(args)` |
| `SqlEngine.PartParses` | common/sqldb/repository/where.go:124-225 | the tokens of each condition parse as that predicate and nothing is left over |
| `SqlEngine.ClauseParses` | common/sqldb/repository/where.go:124-225 | the joined clause parses as the list of the conditions' predicates (no BETWEEN … AND swallows a conjunct) |
| `SqlEngine.PredicateMeans` | common/sqldb/repository/where.go:124-225 | each emitted predicate evaluates, in three-valued logic, to the meaning of its condition |
| `SqlEngine.InMeans` | common/sqldb/repository/where.go:97-99 | a list is accepted, and a row is IN it exactly when its cell equals some value of the list, neither being NULL |
| `SqlEngine.NotInMeans` | common/sqldb/repository/where.go:103-105 | NOT IN: the list is empty, or the cell is not NULL and differs from every value, none of them NULL |
| `SqlEngine.BetweenMeans` | common/sqldb/repository/where.go:108-110 | BETWEEN two values is accepted, has them for its arguments, and is from the first to the second, both included |
| `SqlEngine.ListArgs` | common/sqldb/repository/where.go:236-258 | the arguments of a list condition are all the values of the list, in order |
| `SqlEngine.BytesAreOneValue` | common/sqldb/repository/where.go:236-250 | a []byte is one value, not a list of numbers |
| `SqlEngine.ComparisonMeans` | common/sqldb/repository/where.go:209-225 | each comparison by the engine's equality and order; NULL compares with nothing |
| `SqlEngine.NilMeans` | common/sqldb/repository/where.go:209-222 | comparing with nil is a null test; a typed nil is bound, and compares as NULL does |
| `SqlEngine.ILikeMeans` | common/sqldb/repository/where.go:195-207 | ILIKE is LIKE with case folded on both sides |
| `SqlEngine.AllMean` | common/sqldb/repository/where.go:124-235 | so does their conjunction |
| `SqlEngine.CompiledMeansConditions` | common/sqldb/repository/where.go:124-235 | for every accepted list, row and dialect: binding, parsing and evaluating the emitted clause equals the three-valued conjunction of the conditions |
| `SqlEngine.ClauseIsBound` | common/sqldb/repository/where.go:124-235 | a compiled clause holds no placeholder but its own |
| `SqlEngine.KeptIff` | common/sqldb/repository/where.go:229-235 | a row is selected exactly when every condition is true of it |
| `SqlStatements.SortedKeys` | common/sqldb/repository/base.repository.go:274-278 | the map's keys, each once, in sorted order |
| `SqlStatements.FilterToConds` | common/sqldb/repository/base.repository.go:270-290 | one condition per entry in key order: equality, and IS NULL for nil |
| `SqlStatements.FilterMeans` | common/sqldb/repository/base.repository.go:270-290 | a filter means that every entry holds, in whatever order the keys come |
| `SqlStatements.KeyOrderIsUnique` | common/sqldb/repository/base.repository.go:270-290 | the order of a filter's conditions is determined by the filter |
| `SqlStatements.BuildWhere` | common/sqldb/repository/base.repository.go:295-304 | the WHERE part of a filter, numbered on from the counter |
| `SqlStatements.BuildSet` | common/sqldb/repository/base.repository.go:308-335 | refuses an empty or invalid SET; otherwise assignments in key order, one argument each |
| `SqlStatements.PieceConcat` | common/sqldb/repository/base.repository.go:381-402 | joining two pieces of a statement joins texts and arguments alike |
| `SqlStatements.UpdateByID` | common/sqldb/repository/update.go:11-37 | SET then id: one numbering over both |
| `SqlUpdate.UpdateByIDChanges` | common/sqldb/repository/update.go:11-37 | bound, parsed and executed on a table, it changes exactly the rows with that id, and in them exactly the columns of the data |
| `SqlStatements.UpdateWhere` | common/sqldb/repository/update.go:227-249 | SET then WHERE: one numbering over both, an empty condition list refused |
| `SqlStatements.UpdateOne` | common/sqldb/repository/update.go:39-72 | accepted exactly when filter and data are non-empty and all their names valid; the single-row form of each dialect (sub-select, or LIMIT 1), one numbering over SET and WHERE |
| `SqlStatements.UpdateMany` | common/sqldb/repository/update.go:191-205 | accepted exactly when filter and data are non-empty and all their names valid; one numbering over SET and WHERE |
| `SqlUpdate.UpdateManyChanges` | common/sqldb/repository/update.go:191-222 | the rendered statement, bound, parsed and executed on a table, changes exactly the rows of which every condition is true, and in them exactly the columns of the data |
| `SqlUpdate.UpdateOneChanges` | common/sqldb/repository/update.go:39-84 | in each dialect, on a table of unique ids: it changes exactly one row of which every condition is true, or none when there is none |
| `SqlUpdate.ChangesGoThrough` | common/sqldb/repository/update.go:191-222 | data that leaves the id alone violates no constraint, whichever rows are changed |
| `SqlStatements.StepUpdate` | common/sqldb/repository/update.go:268-288 | accepted exactly when the filter is non-empty and all names valid; the step's own placeholder is numbered before the WHERE part's |
| `SqlStatements.PageSelect` | common/sqldb/repository/pages.go:69-105 | one WHERE clause for the COUNT and the page; LIMIT and OFFSET continue its numbering |
| `SqlStatements.KeysetSelect` | common/sqldb/repository/pages.go:257-286 | filter and cursor conditions, order by id, and a LIMIT of one more than asked for, one numbering |
| `SqlStatements.Placeholders` | common/sqldb/repository/dialect.go:35-41 | a row of placeholders numbered from `start` |
| `SqlStatements.InsertManyRows` | common/sqldb/repository/create.go:86-98 | column list and rows, numbered consecutively, arguments row by row |
| `SqlUpdate.InsertIsRead` | common/sqldb/repository/create.go:86-98 | the bound statement names the table and the columns in order, and its VALUES list parses back as exactly the rows given |
| `SqlStatements.InsertChunks` | common/sqldb/repository/create.go:102-138 | chunks hold at most 500 rows, none is empty, and together they are the input in order |
| `SqlSelect.SelectParses` | common/sqldb/repository/pages.go:69-105 | a head, the compiled WHERE part and a tail are taken apart again as written |
| `SqlSelect.KeysetFetches` | common/sqldb/repository/pages.go:257-286 | the keyset SELECT, parsed and executed on a table of unique ids in any order, returns exactly the first rows of the matching ones in id order |
| `SqlSelect.PageFetches` | common/sqldb/repository/pages.go:69-87 | so does the offset SELECT ordered by id, from its offset on; a negative offset is refused, or read as none by a lenient engine |
| `SqlSelect.CountIs` | common/sqldb/repository/pages.go:91-105 | the COUNT statement, executed on a table of unique ids, returns exactly the number of matching rows |
| `SqlSelect.FilteredIsMeaning` | common/sqldb/repository/pages.go:257-341 | the matching rows are exactly those for which every condition is true |
| `SqlPages.CursorCuts` | common/sqldb/repository/pages.go:257-286 | the compiled cursor condition keeps exactly the rows past the cursor |
| `SqlPages.KeysetPage` | common/sqldb/repository/pages.go:296-341 | the clamped limit, one statement for limit + 1 rows, and the cut: data, HasMore and NextCursor |
| `SqlPages.PageOfIs` | common/sqldb/repository/pages.go:323-341 | the first `limit` of the rows fetched; more exactly when one more was fetched; a cursor, the last row's id, exactly when there is more and the model carries the id column |
| `SqlPages.KeysetPageIs` | common/sqldb/repository/pages.go:296-341 | on a driver that runs on a table of unique ids the method returns a page of that table |
| `SqlPages.KeysetPageIsPageFrom` | common/sqldb/repository/pages.go:296-341 | the page the rendered statement fetches is the next `limit` matching rows after the cursor, and no other |
| `SqlPages.WalkSlices` | common/sqldb/repository/pages.go:296-341 | page i of a walk is slice i of the matching rows; `HasMore` exactly when rows remain; the cursor is the last id |
| `SqlPages.WalkExists` | common/sqldb/repository/pages.go:288-341 | feeding the cursor back comes to an end |
| `SqlPages.KeysetWalkListsEverything` | common/sqldb/repository/pages.go:288-341 | feeding the cursor back until `HasMore` is false comes to an end and lists every matching row exactly once in id order, on a table of unique ids in any order |
| `SqlPages.Pages` | common/sqldb/repository/pages.go:145-196 | clamped window, COUNT, then LIMIT perPage and OFFSET (page-1)·perPage modulo 2^64; nothing is fetched when nothing matches |
| `SqlPages.PagesIs` | common/sqldb/repository/pages.go:145-196 | on a driver that runs on a table of unique ids the method returns an offset page of that table, or the driver's error |
| `SqlPages.OffsetPageIs` | common/sqldb/repository/pages.go:145-196 | where the offset fits into 64 bits, page n holds slice n-1 of the matching rows in id order, and their number |
| `SqlPages.PageIsSliceIff` | common/sqldb/repository/pages.go:153-154 | for every page and page size: the rows fetched for page n are slice n-1 of whatever rows match exactly when (page-1)·perPage fits into 64 bits, whether negative offsets are refused or read as none |
| `SqlPages.FarPagesWrap` | common/sqldb/repository/pages.go:153-154 | pages so far on that the offset wraps to zero, or below it |
| `SqlPages.OffsetPagesListEverything` | common/sqldb/repository/pages.go:145-196 | for totals below 2^53, where no offset wraps, pages 1 to the TotalPages that page 1 reports concatenate to the matching rows in id order, the same as an ascending keyset walk over the table |
| `SqlPages.CountIsUnique` | common/sqldb/repository/pages.go:145-196 | only one page count fits a total and a page size |
| `SqlPages.TotalPagesExact` | common/sqldb/repository/pages.go:189-195 | the rounded floating-point division still gives the exact page count for totals below 2^53 |
| `Correlation.AlwaysFiled` | common/microservice/transport/tcpmq/client.go:115-180 | in every interleaving, everything in flight is filed under the id it was registered with, and channels are not shared |
| `Correlation.OnlyOwnReplies` | common/microservice/transport/tcpmq/client.go:115-180 | a request returns only a reply to its own id, reused ids included, and no reply channel holds more than one item |
| `Correlation.ExactThroughoutIff` | common/microservice/transport/redismq/client.go:111-142 | `pending` holds exactly the requests between register and release throughout a run, if and only if in-flight ids are distinct throughout |
| `Correlation.StepKeepsExact` | common/microservice/transport/tcpmq/client.go:115-180 | each step keeps that, given distinct ids after it |
| `Correlation.PeekReaderNeverBlocks` | common/microservice/transport/tcpmq/client.go:312-329 | over TCP and Redis the reader can always move on, whatever it holds |
| `Correlation.ReplyReachesWaiter` | common/microservice/transport/redismq/client.go:213-230 | a reply looked up while its request is in flight and delivered at any later step, whatever happens in between, is there for the request, or one before it is, as long as the request waits |
| `Correlation.AlwaysAtMostOnce` | common/microservice/transport/rabbitmq/session.go:176-221 | over RabbitMQ and Kafka a channel is sent to at most once over any run, including id reuse, failing of all pending and late replies |
| `Correlation.TakeSendNeverBlocks` | common/microservice/transport/kafkamq/publish.go:254-280 | so the unconditional send never blocks |
| `Correlation.KeptIffNotDropped` | common/microservice/transport/rabbitmq/session.go:176-221 | over every RabbitMQ and Kafka run with distinct ids: the channel of a waiting request is listed, held by a reader or sent to, exactly when the entries were never all dropped while its own was listed |
| `RabbitSessions.Projects` | common/microservice/transport/rabbitmq/session.go:48-78 | a run of sessions, watchers and requests is, for the map, a run of the correlation machine |
| `RabbitSessions.EntryKeptIff` | common/microservice/transport/rabbitmq/session.go:146-221 | the same over sessions: exactly when no watcher, reconnect or close dropped the entries while its own was listed |
| `RabbitSessions.KeptWhileSessionLives` | common/microservice/transport/rabbitmq/session.go:48-78 | a request registered when the watchers of all closed sessions are done keeps its entry while its session is open and the transport not closed |
| `RabbitSessions.SafeIffWatchersDone` | common/microservice/transport/rabbitmq/session.go:48-78 | and only then: its entry is safe in every continuation in which its session stays open and the transport is not closed exactly when those watchers are done at registration, or the session had closed by then and there is no such continuation |
| `RabbitSessions.OldWatcherDropsNewEntry` | common/microservice/transport/rabbitmq/session.go:146-154 | a run in which a dead session's watcher drops the entry of a request of the open session, whose reply is then discarded |
| `Frames.LengthOfHeader` | common/microservice/transport/tcpmq/frame.go:55-56 | the four header bytes hold the length modulo 2^32 |
| `Frames.HeaderIsBigEndian` | common/microservice/transport/tcpmq/frame.go:55-56 | the most significant byte of the length comes first |
| `Frames.Reader.ReadFull` | common/microservice/transport/tcpmq/frame.go:77-80 | a full buffer, or all there was |
| `Frames.Reader.ReadFrameSize` | common/microservice/transport/tcpmq/frame.go:76-93 | a size is returned exactly when it is within 1..max; end of stream, truncation, zero and oversize are told apart |
| `Frames.Reader.ReadFrameBody` | common/microservice/transport/tcpmq/frame.go:97-109 | a body cut short is a truncation even when none of it arrived |
| `Frames.Reader.ReadFrame` | common/microservice/transport/tcpmq/frame.go:114-120 | one frame as the decoder defines it |
| `Frames.Reader.ReadAll` | common/microservice/transport/tcpmq/client.go:285-309 | the read loop collects every frame up to the first read that gives none |
| `Frames.Writer.WriteFrame` | common/microservice/transport/tcpmq/frame.go:44-64 | refused exactly for empty and oversize payloads, writing nothing; otherwise the whole frame, or what the connection took of it before it broke |
| `Frames.DecodesIff` | common/microservice/transport/tcpmq/frame.go:44-120 | an accepted payload comes back exactly when its length is below 2^32 |
| `Frames.DecodeWire` | common/microservice/transport/tcpmq/frame.go:114-120 | frames written one after another are read back one after another, whatever follows |
| `Frames.WholeStream` | common/microservice/transport/tcpmq/frame.go:44-120 | any sequence of payloads is read back in write order, then a clean end |
| `Frames.CutStream` | common/microservice/transport/tcpmq/frame.go:76-109 | a stream cut anywhere yields its whole frames, then a clean end exactly at a frame boundary and a truncation elsewhere |
| `Frames.EveryCut` | common/microservice/transport/tcpmq/frame.go:76-109 | every proper prefix of the wire is such a cut |
| `KafkaListen.ReplyBeforeCommit` | common/microservice/transport/kafkamq/listen.go:143-188 | with any number of slots, over every run: between the dispatcher's error-free return of a request and the commit of its offset by the same job, a reply was attempted |
| `KafkaListen.ReplyOnlyWhenDue` | common/microservice/transport/kafkamq/listen.go:143-188 | a reply is attempted only for a request the dispatcher returned without an error, and once per return |
| `KafkaListen.DebtsAlways` | common/microservice/transport/kafkamq/listen.go:122-189 | the invariant behind both: no message is in two hands, and a handler is about to reply exactly when it owes one |
| `KafkaListen.MalformedSkipped` | common/microservice/transport/kafkamq/listen.go:122-138 | over every run, no malformed message is handed to the dispatcher |
| `KafkaListen.OneSlotIsSafe` | common/microservice/transport/kafkamq/listen.go:72-101 | with one slot and `FirstOffset`, over every run with crashes and restarts: every offset below a watermark was malformed or handed to the dispatcher |
| `KafkaListen.OneSlotInOrder` | common/microservice/transport/kafkamq/listen.go:72-101 | with one slot and either policy, dispatches of a partition since the last start are in offset order |
| `KafkaListen.SafeFromFirstCommit` | common/microservice/transport/kafkamq/listen.go:72-101 | with one slot and either policy: from any committed offset of a partition on, every offset below its watermark was malformed or handed to the dispatcher |
| `KafkaListen.LostIffSkipped` | common/microservice/transport/kafkamq/kafkamq.go:126-134 | with one slot a run has lost something exactly when an unsettled message lies between where the first start began and where the last start before the partition's first commit began |
| `KafkaListen.RedeliveredIff` | common/microservice/transport/kafkamq/listen.go:86-92 | with one slot, a message left waiting for it is fetched again by the next start exactly under `FirstOffset` or when its partition has a committed offset |
| `KafkaListen.OneSlotKeeps` | common/microservice/transport/kafkamq/listen.go:72-209 | the invariant behind it, at every state of every run |
| `KafkaListen.WatermarkKeeps` | common/microservice/transport/kafkamq/listen.go:191-209 | when a job commits, its offset and all below it are settled, from where its partition was begun |
| `KafkaListen.DispatchKeeps` | common/microservice/transport/kafkamq/listen.go:143-152 | a dispatch comes after all of the run's earlier dispatches of its partition |
| `KafkaListen.SafeIff` | common/microservice/transport/kafkamq/kafkamq.go:126-145 | for every topic, counting from where the first start began: nothing is ever lost exactly when there is one slot and the policy is `FirstOffset`, or every message is malformed and there is nothing to lose |
| `KafkaListen.CommitAhead` | common/microservice/transport/kafkamq/listen.go:66-70 | with two slots or more and either policy, for any message of any topic: a run whose watermark passes the message while it was never dispatched |
| `KafkaListen.SkippedAtStart` | common/microservice/transport/kafkamq/kafkamq.go:273-275 | under `LastOffset`, with any number of slots: a message is fetched, the process ends, and the next start begins past it |
| `KafkaListen.SkippedAfterCancel` | common/microservice/transport/kafkamq/listen.go:86-92 | the same with one slot and a plain cancel, while a message of another partition holds the slot |
| `KafkaListen.Consumer.Handle` | common/microservice/transport/kafkamq/listen.go:122-189 | each operation of a handler is a protocol step under any interference; when it returns the message was malformed or dispatched and its slot is free |
| `ModuleLoader.ResolutionIsUnique` | container.go:230-252 | a dependency resolves to one instance or to none, whatever order the map is ranged in |
| `ModuleLoader.Resolve` | container.go:32-49 | the exact key, else the single concrete provider implementing the wanted interface, else nothing |
| `ModuleLoader.ResolveArgs` | container.go:32-50 | all parameters resolved in order, or none |
| `ModuleLoader.RegisterProvider` | module-loader.go:101-125 | indexed under its concrete type and its declared interface, built from what was registered before it |
| `ModuleLoader.MakeController` | module-loader.go:62-76 | nil controllers, failing constructors and values that are no struct pointers are refused |
| `ModuleLoader.BuildModule` | module-loader.go:58-89 | providers in order, then controllers, then exactly the listed exports; fails exactly when one of them does, nil entries included |
| `ModuleLoader.BuildIff` | module-loader.go:58-126 | without the loops: a build gives these exports exactly when its providers were made one after another from what their parameters resolve to, every controller can be made, and the exports are the listed types and no other; each key holds the instance of the last provider that supplies it, under its concrete type or the interface its constructor declares, else what was seen before |
| `ModuleLoader.OverlayIsLastExport` | module-loader.go:43-56 | a module sees of its imports exactly their exports, the last one winning, over the root snapshot |
| `ModuleLoader.App.constructor` | module-loader.go:8-11 | a new application has loaded nothing |
| `ModuleLoader.App.LoadModule` | module-loader.go:20-96 | the recursive loader computes the specified load, with its cycle marks restored on every way out |
| `ModuleLoader.LoadIsGood` | module-loader.go:20-96 | every nested load keeps the books consistent: each module built once, after its imports, from the overlay of their exports |
| `ModuleLoader.LoadOutcome` | module-loader.go:20-96 | success means all reachable modules are built and no cycle or nil module is reachable; every panic names a reachable module that has the fault; nothing is built twice |
| `ModuleLoader.PanicsIffCycle` | module-loader.go:33-44 | with no provider or controller failure, loading panics exactly when an import cycle is reachable |
| `ModuleLoader.BuiltMeansAcyclic` | module-loader.go:20-96 | what lies below a built module was built, and lies on no cycle |
| `ModuleLoader.ExportsAgree` | module-loader.go:33-37 | two consistent states agree on every module both have built |
| `ModuleLoader.LoadIsHistoryFree` | module-loader.go:33-37 | what a module exports does not depend on what was loaded before |
| `ModuleLoader.LoadedShows` | module-loader.go:20-96 | a load that succeeds returns exactly the listed types, each from the module's last provider that supplies it, and where none does from the last import that exports it, else the root |
| `ModuleLoader.PrivateIsHidden` | module-loader.go:13-19 | a type that is not in the root container, and that no import lists among its exports, is not there when a module is built, whatever its imports provide or import |
| `ModuleLoader.RunsStayConsistent` | module-loader.go:8-96 | any sequence of loads, panicking or not, leaves consistent books |
| `MigrationLists.Pending` | common/sqldb/migration/migration.go:296-312 | the registered versions not applied, in order, cut to the number asked for |
| `MigrationLists.PlanSize` | common/sqldb/migration/migration.go:324-357 | a run asked for `max` versions plans, and on success has applied, that many, or all that are pending |
| `MigrationLists.UnseenHas` | common/sqldb/migration/migration.go:301-311 | exactly the versions not yet applied |
| `MigrationLists.UnseenAscends` | common/sqldb/migration/migration.go:305-311 | in ascending order, each once |
| `MigrationLists.OrderByVersion` | common/sqldb/migration/migration.go:245-267 | the rows of the tracking table, each once, ascending |
| `MigrationLists.ListingIsUnique` | common/sqldb/migration/migration.go:245-267 | an ascending listing is determined by the set of rows |
| `MongoMigrations.StepKeeps` | common/mongodb/migration/migration.go:223-284 | every step of every process, lost answers and crashes included, keeps collection, processes and history in agreement |
| `MongoMigrations.EachVersionOnce` | common/mongodb/migration/migration.go:223-284 | over every run: one process at a time works on a version, its body succeeds at most once, completes at most once and only after succeeding, and is rerun only after a release |
| `MongoMigrations.LifeCounts` | common/mongodb/migration/migration.go:239-282 | a version's claims are its releases plus the standing one; successes and completions are at most one |
| `MongoMigrations.RecordedStays` | common/mongodb/migration/migration.go:263-273 | a completed version is never released |
| `MongoMigrations.Migrator.ApplyOne` | common/mongodb/migration/migration.go:239-282 | claim, body, then record or release, with others moving in between; it takes exactly the protocol steps of its ending, and a version whose body failed has been given back and noted as released, unless the delete was refused |
| `MongoMigrations.Migrator.UpN` | common/mongodb/migration/migration.go:223-284 | each operation is a protocol step under any interference, and the steps taken are exactly those of what it applied and of how it ended; it works on what was pending at a moment of the call, what it applied is recorded, and a run that stops at a failing body has given the version back, unless the delete was refused |
| `MongoOrder.AlwaysOnPlan` | common/mongodb/migration/migration.go:239-282 | a process under way has recorded all of its plan before the version it is at |
| `MongoOrder.ClaimKeepsOrderIff` | common/mongodb/migration/migration.go:254-261 | a claim that lands keeps an ordered collection ordered exactly when the versions below it that the claimer's plan left out are recorded |
| `MongoOrder.InOrderThroughoutIff` | common/mongodb/migration/migration.go:199-284 | over every run of processes with the same migrations: versions are claimed in order throughout exactly when every claim that lands is covered so |
| `MongoOrder.OutOfOrder` | common/mongodb/migration/migration.go:199-215 | a run of two processes in which the later version completes while the earlier is unfinished |
| `MongoOrder.StalePlan` | common/mongodb/migration/migration.go:228-261 | a run in which a plan goes stale: the earlier version is released after the plan was read, and the claim breaks the order of an ordered collection |
| `SqlLock.TrackingIsCommitted` | common/sqldb/migration/migration.go:440-497 | with or without the lock the tracking table is the set of versions whose Up committed and was not rolled back since; no Up commits on top of itself |
| `SqlLock.LockedRuns` | common/sqldb/migration/lock.go:51-123 | under the lock, over every run: one run inside, what it still plans is accurate, and Ups and Downs of a version alternate |
| `SqlLock.UpgradeTrail` | common/sqldb/migration/migration.go:324-357 | from the read of what is pending until the run leaves, failed or not: what was logged since is the trail of a prefix of that pending list, and nothing of another run |
| `SqlLock.RollbackTrail` | common/sqldb/migration/migration.go:369-413 | the same of a rollback: a prefix of the newest versions, newest first |
| `SqlLock.OneInside` | common/sqldb/migration/lock.go:51-99 | the lock is a mutex |
| `SqlLock.AlternatesIffLocked` | common/sqldb/migration/lock.go:49-54 | Ups and Downs of a version alternate in all runs exactly when the dialect has a real lock |
| `SqlLock.RolledBackTwice` | common/sqldb/migration/migration.go:474-497 | without it, a run that commits a version's Down twice |
| `SqlMigrations.Migrator.ApplyOne` | common/sqldb/migration/migration.go:440-472 | succeeds exactly when the version is new, its body succeeds and the commit is answered; claim and body commit together or not at all, and a lost answer may hide a commit |
| `SqlMigrations.Migrator.RollbackOne` | common/sqldb/migration/migration.go:474-497 | body and delete commit together or not at all |
| `SqlMigrations.Migrator.Verify` | common/sqldb/migration/migration.go:272-293 | fails exactly when an applied version's non-empty checksum changed |
| `SqlMigrations.ChangedSinceIff` | common/sqldb/migration/migration.go:272-293 | verification after a successful UpN fails exactly when the checksum of a version applied before or just now has changed since, none on either side being empty |
| `SqlMigrations.PlanRecords` | common/sqldb/migration/migration.go:440-472 | a plan records its own versions, each with the checksum of its migration, and leaves the other records alone |
| `SqlMigrations.Migrator.UpN` | common/sqldb/migration/migration.go:324-357 | on changed history nothing happens; otherwise pending is applied in order up to the first version whose body or transaction fails, all of it on success |
| `SqlMigrations.Migrator.DownN` | common/sqldb/migration/migration.go:369-413 | the newest versions are rolled back, newest first, until one fails; a version unknown or without Down stops it |
| `SqlMigrations.RollbackUndoes` | common/sqldb/migration/migration.go:396-412 | rolling back the last k of an applied plan leaves what the others made, when each Down undoes its Up |
| `SqlMigrations.UpThenDownIff` | common/sqldb/migration/migration.go:324-413 | UpN(k) then DownN(k), both successful, with pending above applied and inverse bodies, restores the database exactly when k versions were pending or nothing was applied before |
| `MemoryCache.MemoryProvider.constructor` | common/cache/memory.go:39-41 | a new cache is empty |
| `MemoryCache.MemoryProvider.DoSet` | common/cache/memory.go:50-66 | what is visible changes as in a map with deadlines |
| `MemoryCache.MemoryProvider.DoSetNX` | common/cache/memory.go:73-92 | wins exactly when nothing live is there |
| `MemoryCache.MemoryProvider.DoGet` | common/cache/memory.go:94-118 | finds exactly what is live; its eviction is not visible |
| `MemoryCache.MemoryProvider.Evict` | common/cache/memory.go:110-114 | the re-check removes only what has expired |
| `MemoryCache.MemoryProvider.DoDelete` | common/cache/memory.go:121-129 | removes the key and nothing else |
| `MemoryCache.MemoryProvider.DoIncrement` | common/cache/memory.go:134-162 | a live counter keeps its deadline, an expired one restarts at zero, a non-integer is refused |
| `MemoryCache.MemoryProvider.DoTTL` | common/cache/memory.go:164-180 | the time left of a live entry, as of the second look at the clock |
| `MemoryCache.MemoryProvider.DoDeleteExpired` | common/cache/memory.go:228-240 | exactly the expired entries go, and the count says how many |
| `MemoryCache.MemoryProvider.DoClose` | common/cache/memory.go:247-262 | empties the cache once |
| `MemoryCache.Perform` | common/cache/memory.go:50-262 | one call, one half of a Get or TTL, or one re-check on a provider changes what is visible and what the goroutines hold as it changes the map with deadlines |
| `MemoryCache.Replay` | common/cache/memory.go:50-262 | any run, with any number of Gets and TTLs under way whose read, clock check and re-check each come at their own time, answers exactly as the map with deadlines does |
| `MemoryCache.EventsAreCalls` | common/cache/memory.go:50-262 | of such a run the map sees the calls that change it and nothing of the rest, and each call answers as in a run of calls |
| `MemoryCache.IncrementsSum` | common/cache/memory.go:134-162 | while a key is live and not replaced, its deadline stands still and its counter is the sum of the increments modulo 2^64, whatever else is called |
| `MemoryCache.OneWinnerPerLifetime` | common/cache/memory.go:68-92 | between two winning SetNX of a key that nothing replaced, the first one's deadline passed |
| `MemoryCache.SetIsShown` | common/cache/memory.go:50-66 | what Get and TTL answer after a Set, until its deadline and from then on |
| `MemoryCache.SetNXIsShown` | common/cache/memory.go:73-92 | SetNX wins exactly when Get would find nothing, then stores as Set does, and otherwise changes nothing |
| `MemoryCache.IncrementAdds` | common/cache/memory.go:134-162 | an increment answers with what Get then returns, what Get found before and the delta modulo 2^64, and leaves the time to live alone |
| `MemoryCache.IncrementStarts` | common/cache/memory.go:134-162 | where Get finds nothing, it starts from zero without a time to live |
| `MemoryCache.IncrementRefuses` | common/cache/memory.go:149-152 | anything but an integer is refused and left as it is |
| `MemoryCache.RemovedIsGone` | common/cache/memory.go:121-129 | a deleted key, and every key of a closed cache, is not found |
| `MemoryCache.RefusedCalls` | common/cache/memory.go:50-180 | every operation refuses the empty key, and a value that cannot be marshalled is refused and changes nothing that can be seen |
| `MemoryCache.OthersUntouched` | common/cache/memory.go:50-180 | a call leaves the entries of other keys alone |
| `MemoryCache.LinearizableIff` | common/cache/memory.go:94-118 | over every run: the answer of a Get or TTL whose read and clock check lie apart is that of an atomic one at some instant between them, exactly unless the entry read has expired by the check and the key is live at every instant between them |
| `MemoryCache.UndisturbedIsAtomic` | common/cache/memory.go:94-118 | so it is atomic whenever no call in between puts an entry under the key that outlives the check and is left alone |
| `MemoryCache.LiveWasStored` | common/cache/memory.go:50-162 | a live entry that is not the one read was put there by a call in between, and left alone since |
| `MemoryCache.SplitGetMisses` | common/cache/memory.go:99-117 | a key live at every instant that is reported missing, because it was replaced between the two: no atomic Get would answer so |
| `Decimals.ParseUndoesFormat` | common/cache/memory.go:149-160 | a counter written in decimal is read back as the same 64-bit integer |
| `Decimals.FormatIsDecimal` | common/cache/memory.go:160 | the text is the usual decimal one: one digit more is ten times the number and that digit, with a minus sign before a negative number |
| `GuardTag.ParseGuardArgs` | guard.go:121-170 | the argument loop computes the arguments and the index of the closing parenthesis |
| `GuardTag.ParseGuardTag` | guard.go:66-116 | the tag loop computes the parse, errors told apart |
| `GuardTag.ParseIff` | guard.go:44-170 | on every tag, the parser answers exactly what a grammar without loops says: these guards, when the trimmed tag is made of names before separators and of names with closed argument lists, each argument trimmed and left out when blank and unquoted; or this error, for the first character at which it cannot be taken apart any further |
| `GuardTag.TrimCuts` | guard.go:67 | trimming cuts white space off either end and nothing else |
| `GuardTag.ParseGivesSpecs` | guard.go:66-116 | every parsed guard has a proper name and trimmed arguments |
| `GuardTag.ParseUndoesPrint` | guard.go:44-170 | printing any well-formed list and parsing it gives the list back: each argument bare where it can be, or in single or double quotes, with or without a space before it; a guard without arguments with or without parentheses; comma, space or tab between guards |
| `GuardTag.ComesOutIff` | guard.go:66-170 | a list comes out of the parser for some tag exactly when it is well-formed |
| `GuardTag.NormalForm` | guard.go:66-170 | a tag and the print of its parse say the same |
| `GuardTag.QuotedArgumentsKeptIff` | guard.go:60-65 | for every list of guards with proper names and arbitrary arguments, written in any of these ways: it is kept as written exactly when no argument begins or ends with white space |
| `GuardTag.PrintedIsTrimmed` | guard.go:121-170 | and otherwise comes back with every argument trimmed |
| `GuardTag.PrintedVerbatim` | guard.go:128-151 | an argument that does not hold its own quote is printed between two of them as it is, and a bare one just as it is |
| `GrpcConvert.ToDynamic` | common/grpcapi/value.go:23-77 | the field loop computes the encoding of a struct |
| `GrpcConvert.FieldToProto` | common/grpcapi/value.go:31-73 | one field: skipped, put or failed |
| `GrpcConvert.ScalarToProto` | common/grpcapi/value.go:80-132 | one value or element |
| `GrpcConvert.FromDynamic` | common/grpcapi/value.go:135-192 | the field loop computes the decoding of a message over a zero struct |
| `GrpcConvert.FieldFromProto` | common/grpcapi/value.go:152-188 | one field that is set |
| `GrpcConvert.ScalarFromProto` | common/grpcapi/value.go:195-249 | one value or element |
| `GrpcConvert.FromEmpty` | common/grpcapi/value.go:219-226 | a by-value struct whose message is absent; with `EmptyReadsAs`, the same as reading an empty message |
| `GrpcConvert.EmptyReadsAs` | common/grpcapi/value.go:135-192 | an empty message reads as the defaults of every field |
| `GrpcValues.ScalarRoundTrip` | common/grpcapi/value.go:112-130 | a scalar of its declared width comes back, times in UTC and bytes non-nil |
| `GrpcValues.SkippedScalar` | common/grpcapi/value.go:63-67 | a skipped zero reads back as itself, but for a negative zero |
| `GrpcValues.EncodesIff` | common/grpcapi/value.go:23-132 | encoding a typed value fails exactly when a slice holds a nil pointer at some depth |
| `GrpcValues.RoundTrip` | common/grpcapi/value.go:23-249 | for every supported schema, recursive ones included: decoding the encoding gives the normal form |
| `GrpcValues.NormalIff` | common/grpcapi/value.go:23-249 | the normal form is the value itself exactly when the value is canonical |
| `GrpcValues.ComesBackIff` | common/grpcapi/value.go:23-271 | the original comes back exactly when it has no nil element and is canonical: UTC times, no empty slices, no nil bytes, no plain negative zero, nothing outside the contract |
| `GrpcValues.FieldsWrote` | common/grpcapi/value.go:31-74 | each field number holds what its own field put there, and nothing else is set |
| `GrpcValues.DecodeTyped` | common/grpcapi/value.go:134-260 | whatever message arrives, what it is decoded to is a value of the struct's type, at every depth |
| `GrpcValues.RefusedIff` | common/grpcapi/value.go:228-242 | an integer is refused exactly when it does not fit its Go type |

## Left out

- Sockets, TLS, deadlines, broker clients, gin, reflection and `database/sql` appear only as steps, parameters or given tables.
- JSON encoding of envelopes is taken as given; replies carry their id.
- The NATS subject plan and the AMQP bindings are not modelled: any wildcard subscribes to everything there, so coverage is immediate.
- `FileProvider` of the cache is not modelled: its `Increment` is an unlocked read and write, and little can be said of concurrent calls.
- Upsert, raw queries, `UpdateAndFindOne`, the columns of a SELECT, identifier quoting and `ORDER BY` lists other than the id are not modelled; columns are abstract names.
- The parameter limits of the drivers are not modelled: 500 rows of two columns already exceed 999 parameters.
- Rollback of MongoDB migrations (`DownN` takes no claim) and MySQL's implicit commit on DDL are not modelled; a migration body takes effect when its transaction commits.
- The lock of a SQL migration run is held until the run leaves or its process ends: loss of the lock's session during a run, and a release that fails, are not modelled.
- Several consumers sharing a Kafka group are not modelled: one consumer fetches each partition. Neither are retention, which takes messages away from the front of a partition, and a `CommitInterval` above zero, which delays commits.
- Construction of descriptors is not modelled: a schema is given by its bindings, with distinct field numbers and Go indices, and by-value structs are not cyclic.
- Pointers to byte slices, slices of scalar pointers and pointers to pointers are outside the supported schemas.
- A NaN is one of the float values other than zero; its bits are kept, conversion between float widths is not modelled.
- What field injection puts into a struct controller is not modelled: fields that nothing provides are left alone, so it cannot fail.
- Routers.Router.Resolve: states what one call does when it runs alone; calls that overlap are in `RouterRaces`.
- MemoryCache.MemoryProvider.DoGet: takes one clock reading per call; `Replay` also runs it in three parts with a clock reading each, and `LinearizableIff` says what that changes.
- MemoryCache.MemoryProvider.DoTTL: takes the map read and the first clock reading at one instant; `Replay` and `LinearizableIff` cover it with the two apart.
- ModuleLoader.BuildModule: panics of `RegisterControllers` on a controller that was made (routes.go:38-87: bad route tags, methods, handlers and guards) are not modelled.
- SqlStatements.StepUpdate: is not executed; what is stated of it is its text and numbering.
- MongoMigrations.Migrator.UpN: takes the outcome of `Verify` as a parameter, because the records carry no checksum; the comparison is the one `SqlMigrations.Migrator.Verify` states.
- Frames.Writer.WriteFrame: the write mutex is assumed held, so frames do not interleave.
- SqlPages.TotalPagesExact: floating point is modelled as any rounding that keeps the quotient on its side of the nearest integers.
- SqlPages.KeysetWalkListsEverything: the table is fixed during the walk, ids are unique integers, and the model carries the id column.
- Validator rules, CORS, rate limiting, swagger, templates, HTTP middleware and logging are not modelled.
