# Model of the job service's data access and configuration core

This project models, in Dafny, the stateful core of the job service and proves what that code is
there to promise. `dafny verify dfyconfig.toml` checks everything.

The service is mostly generated data access (the `ent` package) with a small hand-written layer
above it. Both run over a database whose schema is created without foreign keys, so much of what
keeps the data consistent is ordering, atomicity and bookkeeping in memory. The modules follow
that structure:

| module | what it models |
|---|---|
| `ConfigMerge` | the recursive in-place overlay of two decoded YAML maps, with the aliasing it creates |
| `Text`, `Dotenv` | the dotenv line reader and the string functions it rests on |
| `EnvLoad` | the layered process environment: `.env`, service files, dev fallback, defaults |
| `Ordering`, `Query` | WHERE and ORDER BY, query builders with their shared context, paging in machine arithmetic |
| `Relay` | the client and administrative listings of relay chains and tokens |
| `EdgeMutation` | edge sets of a mutation and their compilation into clear and add specs |
| `TaskFields` | the field state of a task mutation, field access by name, the builder's status calls |
| `EagerLoad` | the hash joins between tasks and task logs, in both directions |
| `HookChain` | hook chains, conditional hooks, and the fold of hooks around a builder |
| `Transactions` | `WithTx`, commit and rollback with hooks, the finishers that do nothing |
| `RelayFeed`, `RelaySync` | Relay's answer merged into one token list per chain, and the synchronisation of the two tables with it |
| `TaskStore` | `DeleteTask` and referential integrity over whole runs |
| `BulkCreate`, `CreateSchemas` | the recursive mutator chain of a bulk create; defaults and checks of tasks and tokens |
| `Wrappers`, `Machine`, `Runs` | `Option` and `Result`; 64-bit words; what the last relevant call of a sequence decides |

Where the Go code mutates, the model does too: classes, maps, arrays and loops, each method proved
against a specification function, and the promises proved about those functions. Iteration over a
Go map picks its keys in an arbitrary order (`:|`), so what a contract says holds for every order.
Proofs spell out their own inductions; `{:induction false}` keeps Dafny from adding one.

Libraries appear as small contracts. A query returns the matching rows in the requested order; an
update applies clears before adds; a batch insert is all or nothing and answers with fresh ids; a
rollback discards the working copy. Clocks, disks, database failures and `strconv.Unquote` are
parameters, and so are what counting through a limit yields and whether a refused statement aborts
the transaction it is in.

## Where the code does less than one might expect

Each of these is proved, with the exact condition under which the expected law does hold.

- Merging three layers does not associate in general (`MergeNotAlwaysAssociative`); it does
  exactly when the middle layer does not cut the outer two apart (`MergeAssociativeIff`).
- A key that starts like a comment or like `export `, written without the prefix, does not survive
  in a dotenv file (`AssignmentParsesIffLegal`, `CommentKeyIsLost`).
- `Clear` called after `Add` does not drop what was added (`ClearAfterAddKeeps`); the compiled
  spec equals the plain replay exactly when no such `Clear` occurs (`PlainReplayIff`).
- The page offset is the right one exactly when the product is below 2^63 (`OffsetExact`); beyond
  that a far page can repeat the first one (`OverflowRepeatsFirstPage`).
- After any status calls made directly on a mutation, not through the builder, the status is both
  set and marked cleared exactly when a Clear was never reset and a Set came after the last Clear
  (`SetAndClearedIff`, `ClearThenSetCoexist`).
- A transaction is over after `WithTx`, by exactly one real commit or rollback, if and only if no hook
  around the finisher that the body calls for stops, or one stops with a panic and no hook around the
  deferred rollback stops (`TransactionOutcome`). Otherwise success (`SwallowedCommit`) or an error
  (`VetoedCommit`) is reported with the transaction still open; a hook may also return an error
  or panic after a commit that took place (`LateComplaint`). What `WithTx` reports can be trusted,
  whatever the database does, exactly when the commit hooks keep success as success and errors as
  errors, or stop without reporting success (`HonestIffTruthful`).
- A chain's entry in Relay's answer is carried out, and the chain's supported tokens are then exactly
  the answer's, if and only if the chain is disabled or every token of the answer is valid and finds its address
  free: held by no earlier token of the answer and by no other row that no earlier token takes over
  (`SyncConvergesIff`). Two tokens that swap their addresses make the whole chain fail
  (`SwappedAddressesAreRefused`); a token that Relay gave a new id is turned off in the same
  transaction that updated its row, and stays off (`RenamedTokenIsTurnedOff`).
- A second sync of the same answer changes nothing if and only if, after the first, each token of a
  supported chain that was carried out has a row of its own or finds its address still taken
  (`SyncSettlesIff`); `SecondSyncCreates` is an answer that needs two syncs.
- Logs stay valid over a run exactly when each is created for no task or for one that exists at
  that moment (`RunIntactIffGuarded`). The sample queue handler remembers a task's id from its
  start (`internal/mqs/amq/handler/amq/base/hello_world.go:36-39`, `62`); a run in which it does so
  after a deletion breaks integrity (`RememberedTaskBreaksIntegrity`).
- A builder listed twice in a bulk create gets two rows, and its mutation points at the node of the
  first of its positions (`Landed` in the contract of `Save`); every mutation points at its own
  position's node exactly when no builder is listed twice (`OwnNodesIffDistinct`).

The repository's README gives the order of the configuration files without saying what a later
file does to an earlier one's variables. In the code the earlier file wins: the first non-blank
value stays, and a process variable, even a blank one, is never replaced.

## Model

| member | source | states |
|---|---|---|
| ConfigMerge.MergeMaps | internal/envloader/load.go:176-192 | the base ends laid out as the overlay of the two maps, object by object, for any key order; no object of the overlay is written and the overlay still denotes what it did |
| ConfigMerge.MergeKey | internal/envloader/load.go:177-190 | one overlay key advances the base by exactly that key: replaced, adopted or merged below |
| ConfigMerge.KidApart | internal/envloader/load.go:177-190 | in a tree, a write at one key, or below the base map at it, cannot reach any object held at another key, although merged parts already share overlay objects |
| ConfigMerge.EraseMerge | internal/envloader/load.go:176-192 | forgetting object identities, the heap merge is the data merge |
| ConfigMerge.MergeByPath | internal/envloader/load.go:176-192 | at every path of any depth: the overlay decides where it speaks, its non-maps hide the base below them, the base survives exactly where the overlay is silent |
| ConfigMerge.KindsDetermineTree | internal/envloader/load.go:176-192 | two configurations that agree at every path are equal, so the path semantics is complete |
| ConfigMerge.MergeSharesByPath | internal/envloader/load.go:183-190 | at every path, whether the merged map object is the base's own or the overlay's |
| ConfigMerge.MergeShapeObjects | internal/envloader/load.go:183-190 | the merged base consists of base objects and objects below the overlay's root; the overlay's root never joins |
| ConfigMerge.MergeIdempotent | internal/envloader/load.go:176-192 | merging a configuration with itself changes nothing |
| ConfigMerge.MergeTwice | internal/envloader/load.go:176-192 | overlaying the same profile twice is overlaying it once |
| ConfigMerge.MergeAbsorbedIffCovered | internal/envloader/load.go:176-192 | an overlay leaves nothing of the base exactly when it covers every map key of it at every depth |
| ConfigMerge.MergeAssociativeIff | internal/envloader/load.go:176-192 | three layers associate exactly when no non-map of the middle one separates two outer maps of which the last does not cover the first |
| ConfigMerge.MergeNotAlwaysAssociative | internal/envloader/load.go:178-182 | three concrete layers that do not associate |
| Text.TrimSplits | internal/envloader/load.go:228 | trimming removes white space at both ends and nothing else |
| Text.TrimPadded | internal/envloader/load.go:228-244 | a trimmed core comes back whole from any white-space padding |
| Text.SpaceSpelledOut | internal/envloader/load.go:228 | which of the first 256 characters are white space |
| Dotenv.ReadLines | internal/envloader/load.go:223-249 | the scan loop returns the assignments of the whole file, or the number and kind of the line it stopped at |
| Dotenv.FailsAtFirstBadLine | internal/envloader/load.go:236-243 | a file is readable exactly when no line is bad; otherwise the first bad line is reported |
| Dotenv.LastLineWins | internal/envloader/load.go:244 | a key is present exactly when some line assigns it, with the value of the last such line |
| Dotenv.ParsedKeyIsClean | internal/envloader/load.go:235-244 | every key read is non-empty, trimmed and free of equals signs |
| Dotenv.LegalAssignmentParses | internal/envloader/load.go:228-263 | an assignment with a single-quoted, double-quoted or bare value, with or without `export `, with any spacing, reads back as what it stands for |
| Dotenv.AssignmentParsesIffLegal | internal/envloader/load.go:229-239 | a written assignment, however its value is quoted, reads back if and only if its key is legal |
| Dotenv.CommentKeyIsLost | internal/envloader/load.go:229-234 | the key `#a` is read as a comment, but survives behind `export ` |
| Dotenv.WrittenValueParses | internal/envloader/load.go:252-263 | single quotes give the inside unchanged, double quotes what it unquotes to, no quotes the value itself |
| Dotenv.OtherLines | internal/envloader/load.go:228-239 | which lines are skipped, and that lines without an equals sign or without a key are errors |
| Dotenv.FinalNewlineOptional | internal/envloader/load.go:224-248 | the newline after the last line makes no difference |
| Dotenv.BareLineReadsBack | internal/envloader/load.go:235-263 | a file that holds `KEY=value`, unquoted and without a final newline, reads back as that one variable |
| Dotenv.ExportedLineReadsBack | internal/envloader/load.go:231-263 | so does `export KEY=value` |
| Dotenv.BareValueReadsBackIff | internal/envloader/load.go:235-263 | an unquoted value not in double quotes reads back if and only if it is trimmed and not in single quotes |
| Dotenv.DoubleQuotedValue | internal/envloader/load.go:240-258 | a double-quoted value is what it unquotes to, and the line is bad if it cannot be unquoted |
| Dotenv.FileClassifies | internal/envloader/load.go:224-248 | a written file splits and parses, line by line, into what was written |
| Dotenv.RoundTrip | internal/envloader/load.go:213-263 | any map written as legal assignments, with bare, single- or double-quoted values, in any order, with overridden earlier assignments, comments, blanks and `export `, with or without a final newline, reads back as that map |
| Dotenv.MapRoundTrip | internal/envloader/load.go:213-263 | every map with legal keys and newline-free values can be written one line a key and read back |
| EnvLoad.Process.SetIfAllowed | internal/envloader/load.go:271-276 | one key has the effect of a one-key layer: nothing if protected or already non-blank |
| EnvLoad.Process.Apply | internal/envloader/load.go:265-269 | applying a layer has one effect, whatever order its keys are visited in |
| EnvLoad.Process.ReadFile | internal/envloader/load.go:213-250 | a missing file is an empty layer; one that cannot be opened, has a bad line, or breaks off at a read error or over-long line is an error with its place |
| EnvLoad.Process.LoadFile | internal/envloader/load.go:37-41 | one more file is applied after those before it, or nothing changes and its failure is returned |
| EnvLoad.Process.LoadFiles | internal/envloader/load.go:37-54 | .env and the service files are applied in order, blank service names skipped, up to the first failure |
| EnvLoad.Process.Load | internal/envloader/load.go:25-68 | outcome and final environment of a whole load, on success and on each failure |
| EnvLoad.ApplyLayerStep | internal/envloader/load.go:265-276 | the keys of one layer do not influence each other |
| EnvLoad.ProtectedUntouched | internal/envloader/load.go:31-37 | no sequence of layers changes a variable of the process, even a blank one |
| EnvLoad.ProcessVariablesWin | internal/envloader/load.go:23-37 | no outcome of Load, failures included, changes a variable the process came with |
| EnvLoad.LayerPrecedence | internal/envloader/load.go:265-276 | any other offered variable ends with the first non-blank offer, or the last offer when all are blank |
| EnvLoad.WinnerUnique | internal/envloader/load.go:265-276 | at most one layer wins a variable |
| EnvLoad.NoOfferUnset | internal/envloader/load.go:265-276 | a variable nothing offers stays unset |
| EnvLoad.LoadPrecedence | internal/envloader/load.go:25-68 | after a successful load: set exactly if offered, and then with the winning layer's value among .env, service files, dev fallback, defaults |
| EnvLoad.FailureIsFinal | internal/envloader/load.go:38-53 | files after the first unreadable one have no influence |
| EnvLoad.CurrentEnvIsValidated | internal/envloader/load.go:57-166 | currentEnv after a successful load is the supported name that Load validated |
| EnvLoad.LoadTwice | internal/envloader/load.go:25-68 | loading again changes nothing and ends the same way, even after a failed load |
| EnvLoad.FileNamesInOrder | internal/envloader/load.go:37-54 | .env comes first, then one `.env.` file for each service with a non-blank name, in argument order |
| EnvLoad.LayersSpelledOut | internal/envloader/load.go:37-65 | the layers of a load are the values of those files, then APP_ENV as dev, then the defaults |
| EnvLoad.EnvSpelledOut | internal/envloader/load.go:16-166 | the active environment is APP_ENV trimmed, or dev; dev, test, pre and prod are supported |
| EnvLoad.OutcomeSpelledOut | internal/envloader/load.go:25-68 | a load succeeds exactly if every file can be read and the environment is supported; otherwise the first unreadable file or the unsupported name is the error |
| Query.Builder.Clone | ent/task_query.go:268-283 | same query, with nothing mutable in common |
| Query.Builder.All | ent/task_query.go:187-194 | matching rows in order, after the offset, up to the limit; a limit of zero is none; negative bounds are refused |
| Query.Builder.Count | ent/task_query.go:227-233 | the number of selected rows; through a limit or offset, what the library makes of it |
| Query.Builder.Only | ent/task_query.go:134-147 | the row if exactly one is left after the offset, and which error otherwise, though only two rows are fetched |
| Query.Page | ent/pagination.go:94-138 | rows (page-1)*size to page*size of the ordered result, the page and size asked for and the length of the result, for a query without a window of its own; in general the window of the machine offset and the total of the query as it came; size 0 asks for all rows; TaskLogQuery.Page is the same code |
| Query.FetchSpelledOut | ent/task_query.go:187-194 | what All returns for each combination of failure, offset and limit |
| Query.PageIsSlice | ent/pagination.go:130-131 | while the offset fits a signed word, a page is rows (page-1)*size to page*size |
| Query.PageRefusedIff | ent/pagination.go:130-131 | a page is refused exactly for a negative machine offset or size |
| Query.CountClone | ent/pagination.go:115-122 | counting leaves the query it was cloned from untouched |
| Query.ListPage | ent/pagination.go:130-131 | Order, Offset, Limit, All together return one page |
| Query.SameSize | ent/pagination.go:115-128 | the total, counted without the order, is the length of the ordered list |
| Query.OffsetExact | ent/pagination.go:130 | with 64-bit wrap and signed conversion the offset is (page-1)*size if and only if that is below 2^63 |
| Query.PageStartsInside | ent/pagination.go:130 | every page up to the last one starts inside the list, at the exact offset |
| Query.FirstPagesArePrefix | ent/pagination.go:130-135 | pages 1 to n together are the first n*size rows |
| Query.PagesPartition | ent/pagination.go:94-138 | pages 1 to ceil(total/size) are all served and together are the whole list, in order, each row once |
| Query.LaterPagesEmpty | ent/pagination.go:130-131 | a page is empty exactly when its machine offset is at or past the end; without overflow every later page is |
| Query.OverflowRepeatsFirstPage | ent/pagination.go:130 | a page number for which the offset wraps to zero |
| Relay.GetClientRelayChainList | internal/logic/relay/client_relay_logic.go:31-48 | the enabled and supported chains by id, each column of a message from its row |
| Relay.GetClientRelayTokenList | internal/logic/relay/client_relay_logic.go:64-92 | the visible tokens by chain and token id, for the requested chain and ids, each column of a message from its row |
| Relay.PredicatesMeanVisible | internal/logic/relay/client_relay_logic.go:65-75 | the grown predicate list says: supported, on an enabled and supported chain, and as requested |
| Relay.TokenListContents | internal/logic/relay/client_relay_logic.go:64-92 | the list is strictly ascending in (chain, token id) and holds exactly the visible tokens |
| Relay.ChainListContents | internal/logic/relay/client_relay_logic.go:31-48 | the list is strictly ascending in id and holds exactly the open chains |
| Relay.PerChainMembers | internal/logic/relay/client_relay_logic.go:64-92 | one request per listed chain, concatenated: exactly the visible tokens of those chains |
| Relay.PerChainAscending | internal/logic/relay/client_relay_logic.go:64-92 | the concatenation is strictly ascending in (chain, token id) when the chains are listed by id |
| Relay.ClientListDecomposes | internal/logic/relay/client_relay_logic.go:31-92 | the unfiltered token list is the concatenation of the per-chain lists in chain list order, given positive chain ids and the unique index |
| Relay.EveryTokenHasItsChain | internal/logic/relay/client_relay_logic.go:31-92 | every listed token's chain appears in the client chain list |
| Relay.NonPositiveChainIsUnfiltered | internal/logic/relay/client_relay_logic.go:70-72 | a request for a non-positive chain id is a request for all chains |
| Relay.ListPredicatesMeanAsked | internal/logic/relay/relay_token_logic.go:31-49 | the grown predicate list says what the six optional parts of the request ask for |
| Relay.ListingIsAskedList | internal/logic/relay/relay_token_logic.go:51-74 | the query pages over exactly that list and the cloned count is its length |
| Relay.GetRelayTokenList | internal/logic/relay/relay_token_logic.go:30-85 | the answer is rows (page-1)*size to page*size of the one ascending list of tokens that meet the request, each turned into a message, and the length of that list; page 0 is page 1 and size 0 is 100 |
| Relay.ListingUnique | internal/logic/relay/relay_token_logic.go:31-74 | there is exactly one such list: ascending, and exactly the tokens that meet the six optional demands |
| Relay.TokenPagesPartition | internal/logic/relay/relay_token_logic.go:51-85 | the answers for pages 1 to ceil(total/size) together are that list, each with its length as total, and page 0 is answered as page 1 |
| Relay.GetRelayTokenByChainAndId | internal/logic/relay/relay_token_logic.go:101-110 | the token with that key if it exists, else not found; never ambiguous |
| Relay.AtMostOne | ent/schema/relay_token.go:92-96 | the unique index leaves at most one candidate, and exactly the token with the key |
| EdgeMutation.Mutation.AddTokenIDs | ent/mutation.go:1110-1117 | the ids join the added set, which becomes non-nil even for no ids |
| EdgeMutation.Mutation.ClearTokens | ent/mutation.go:1120-1122 | only the cleared mark changes |
| EdgeMutation.Mutation.RemoveTokenIDs | ent/mutation.go:1130-1138 | the ids leave the added set and join the removed set |
| EdgeMutation.Mutation.ResetTokens | ent/mutation.go:1157-1161 | back to a fresh edge state |
| EdgeMutation.Mutation.CompileEdges | ent/relaychain_update.go:581-625 | the edge part of the update spec built from the three sets |
| EdgeMutation.SpecMeaning | ent/relaychain_update.go:581-625 | clear-then-add leaves (nothing if cleared, else the old links without the removed) plus the added |
| EdgeMutation.LastWordWins | ent/mutation.go:1109-1161 | after any calls: added exactly if the last Add or Remove of the id since the last Reset was an Add; removed and cleared likewise characterised |
| EdgeMutation.EdgeListed | ent/mutation.go:3981-4010 | AddedEdges and RemovedEdges list the edge once Add or Remove was called since the last Reset |
| EdgeMutation.CompiledIsReplay | ent/relaychain_update.go:581-625 | for every old link set and call sequence, the spec has the effect of replaying the calls since the last Reset with all Clears first |
| EdgeMutation.PlainReplayIff | ent/relaychain_update.go:581-625 | it equals the plain replay exactly when no Clear follows an Add that is still pending and never mentioned again |
| EdgeMutation.ClearAfterAddKeeps | ent/relaychain_update.go:581-625 | adding 7, then clearing, leaves 7 linked |
| TaskFields.Mutation.SetStatus | ent/mutation.go:3403-3406 | sets the value, drops the pending amount, leaves the cleared mark |
| TaskFields.Mutation.AddStatus | ent/mutation.go:3435-3441 | the pending amount grows with int8 wrap-around |
| TaskFields.Mutation.ClearStatus | ent/mutation.go:3453-3457 | no value, no amount, marked cleared |
| TaskFields.Mutation.ResetStatus | ent/mutation.go:3466-3470 | no value, no amount, not marked cleared |
| TaskFields.Mutation.SetField | ent/mutation.go:3821-3881 | fails exactly on an unknown name or a value of another type, changing nothing; otherwise Field reads the value back, no other column and no cleared mark changes, and only status drops its pending amount |
| TaskFields.Mutation.AddField | ent/mutation.go:3907-3918 | knows only status and only int8 |
| TaskFields.Mutation.ClearField | ent/mutation.go:3939-3946 | knows only status |
| TaskFields.Mutation.ResetField | ent/mutation.go:3950-3978 | fails exactly on an unknown name, changing nothing; otherwise Field reports nothing for it and the same as before for all others, and only status loses amount and mark |
| TaskFields.FieldsIffField | ent/mutation.go:3739-3791 | Fields lists exactly the columns that Field reports, each once, in schema order |
| TaskFields.SetThenField | ent/mutation.go:3771-3881 | a successful SetField is read back and no other column changes; it fails exactly on unknown names and wrong types |
| TaskFields.TaskUpdate.SetStatus | ent/task_update.go:39-43 | the builder resets before it sets |
| TaskFields.TaskUpdate.AddStatus | ent/task_update.go:54-57 | the builder adds to the pending amount |
| TaskFields.TaskUpdate.ClearStatus | ent/task_update.go:60-63 | the builder clears |
| TaskFields.LastSetOrClearDecides | ent/task_update.go:39-63 | over any run of builder calls the last Set or Clear decides value and mark, which never coexist |
| TaskFields.AddedIsWrappedSum | ent/mutation.go:3435-3441 | the amount is the int8-wrapped sum since the last Set or Clear, and absent if there is none |
| TaskFields.ListsAfterRun | ent/mutation.go:3885-3928 | after any run of builder calls AddedFields and ClearedFields list status exactly if an amount is pending, or the last Set or Clear is a Clear |
| TaskFields.DirectRunDecides | ent/mutation.go:3403-3470 | after any direct calls: a value is set exactly if a Set stands against Clear and Reset, and the mark exactly if a Clear stands against Reset |
| TaskFields.SetAndClearedIff | ent/mutation.go:3403-3470 | set and cleared coexist exactly if a Clear was never reset and a Set came after the last Clear |
| TaskFields.ClearThenSetCoexist | ent/mutation.go:3403-3457 | a Clear and then a Set is such a run |
| TaskFields.BuilderCallsAreDirect | ent/task_update.go:39-63 | each builder call in terms of direct ones: SetStatus is Reset, then Set |
| TaskFields.ResetEverything | ent/mutation.go:3885-3978 | resetting every column, in any order, gives a fresh mutation with its three lists empty |
| EagerLoad.IndexTasks | ent/task_query.go:407-415 | the id index, the key list, and empty edges on every node |
| EagerLoad.DistributeLogs | ent/task_query.go:424-434 | for any fetched list: everything up to the first unplaceable neighbour is dealt out, and that neighbour decides the error |
| EagerLoad.Place | ent/task_query.go:425-433 | one neighbour joins the list of the node its key names, or is reported and changes nothing |
| EagerLoad.DealtIsJoin | ent/task_query.go:424-434 | dealing out neighbours one by one gives each task the neighbours with its key, in order |
| EagerLoad.GiveTo | ent/task_query.go:425-433 | one neighbour joins the one list its key names and no other |
| EagerLoad.LoadTaskLogs | ent/task_query.go:406-436 | the hash join is the nested-loop join: each task gets exactly the logs with its key, in fetch order, and the lists add up to the fetched logs; only the query itself can fail, leaving all lists empty |
| EagerLoad.QueryTasksWithLogs | ent/task_query.go:370-404 | a task query with its edge: the rows in order, each with its logs, or the failure of one of the two queries |
| EagerLoad.IndexLogs | ent/tasklog_query.go:412-424 | the id list is duplicate-free and covers exactly the non-nil keys; the groups are the logs per key in order |
| EagerLoad.AssignGroup | ent/tasklog_query.go:438-440 | all logs of one group get the same task |
| EagerLoad.AssignTasks | ent/tasklog_query.go:433-441 | fails exactly on a task no log waits for; otherwise every log holds its task or nothing |
| EagerLoad.LoadTasks | ent/tasklog_query.go:412-443 | every log gets the task its key names if it exists; nil and dangling keys leave nil; only the query can fail, and it is not sent when no log has a key |
| EagerLoad.QueryLogsWithTasks | ent/tasklog_query.go:370-410 | a log query with its edge: the rows in order, each with its task, or the failure of one of the two queries |
| EagerLoad.DirectionsAgree | ent/tasklog_query.go:412-443 | on one database state the two directions are inverse relations, for tasks and logs fetched by any filters and pages |
| EagerLoad.ListLengthsAddUp | ent/task_query.go:406-436 | the lengths of the loaded lists sum to the number of fetched logs |
| HookChain.WrapAll | ent/hook/hook.go:212-219 | the backward loop makes the first hook the outermost |
| HookChain.WrappedConcat | ent/hook/hook.go:212-234 | concatenating chains is composing their actions on mutators |
| HookChain.Chain.constructor | ent/hook/hook.go:207-209 | the chain copies the hooks it is given |
| HookChain.Chain.Hook | ent/hook/hook.go:212-219 | the whole chain as one hook |
| HookChain.Chain.Append | ent/hook/hook.go:223-228 | a new chain over a new array; nothing existing changes or is shared |
| HookChain.Chain.Extend | ent/hook/hook.go:232-234 | extending a by b applies b's hook and then a's around it |
| HookChain.And | ent/hook/hook.go:63-75 | the conjunction of two fixed and any number of further conditions |
| HookChain.Or | ent/hook/hook.go:78-90 | their disjunction |
| HookChain.WrappedAgree | ent/hook/hook.go:154-163 | hooks that keep the kind of a mutation cannot tell executors apart that agree on that kind |
| HookChain.RejectBlocks | ent/hook/hook.go:180-198 | a rejected mutation's outcome depends neither on the executor nor on any hook after the rejecting one |
| HookChain.RejectsOnly | ent/hook/hook.go:180-198 | exactly the rejected mutations get the error; for all others the chain is as if the hook were not there |
| HookChain.WithHooks | ent/ent.go:498-529 | agrees with the single chain of the same hooks; an uninitialised hook stops everything before anything runs |
| HookChain.ReplacedMutationRuns | ent/ent.go:505-514 | the builder runs on the mutation that a hook hands on, and refuses one of another type |
| HookChain.AnswerIsPassedOn | ent/ent.go:515-528 | a hook's own value or error is passed on; a value of another type is an error |
| Transactions.Tx.Commit | ent/tx.go:66-78 | the real commit inside all commit hooks, the first outermost |
| Transactions.Tx.Rollback | ent/tx.go:122-134 | the real rollback inside all rollback hooks |
| Transactions.Tx.Run | ent/tx.go:193-207 | a body changes only the working copy and the hook lists; the finishers of its builders change nothing |
| Transactions.BodyGrows | internal/utils/entx/ent_tx.go:25 | what one more step adds to the end, the writes and the registered hooks of a body |
| Transactions.BodyEnds | internal/utils/entx/ent_tx.go:25 | nothing happens after the first error or panic of a body |
| Transactions.WithTx | internal/utils/entx/ent_tx.go:13-37 | state and outcome for every body, hook list and database failure, panics of hooks included; a transaction that cannot begin changes nothing |
| Transactions.Rescue | internal/utils/entx/ent_tx.go:19-24 | the deferred function rolls back inside the rollback hooks and passes on the last panic |
| Transactions.TransactionOutcome | internal/utils/entx/ent_tx.go:13-37 | for every body, database failure and list of hooks that write, stop, go on and rewrite the error, or panic: exactly one real commit or rollback if and only if no hook around the finisher stops, or one panics and no hook around the deferred rollback stops; the durable content is the working copy with the hooks' writes if body and commit succeed, else the start; which error or panic is reported |
| Transactions.WrappedInHooks | ent/tx.go:66-134 | the real finisher runs once, on everything the hooks wrote, exactly if none stops, and its error passes through all of them |
| Transactions.HonestIffTruthful | internal/utils/entx/ent_tx.go:25-36 | for a body that succeeds, success is reported exactly if the database committed, under all its behaviours, if and only if the commit hooks together keep success and errors apart |
| Transactions.PassingOnIsTruthful | ent/tx.go:66-78 | hooks that always go on and never turn success into an error or an error into success are truthful |
| Transactions.SwallowedCommit | ent/tx.go:66-78 | a commit hook that stops without an error yields success with nothing committed and the transaction open |
| Transactions.VetoedCommit | internal/utils/entx/ent_tx.go:32-35 | one that stops with an error has it reported, with no real commit or rollback and the transaction open |
| Transactions.PanicBeforeCommit | internal/utils/entx/ent_tx.go:19-24 | a commit hook that panics before the commit: the deferred rollback ends the transaction and the panic goes on |
| Transactions.LateComplaint | internal/utils/entx/ent_tx.go:19-35 | one that returns an error or panics after going on has it passed on although the commit took place |
| TaskStore.DeleteTask | internal/logic/task/delete_task_logic.go:32-51 | removes exactly the named tasks and their logs, or nothing, under every combination of failures; integrity is kept |
| TaskStore.DeleteIsPurge | internal/logic/task/delete_task_logic.go:34-39 | the two statements in this order leave exactly the other tasks and their logs |
| TaskStore.OrderMatters | internal/logic/task/delete_task_logic.go:34-39 | the opposite order keeps integrity only when none of the tasks has a log |
| TaskStore.DeleteOutcome | internal/logic/task/delete_task_logic.go:32-44 | a deletion with failures is all or nothing |
| TaskStore.StepKeepsIntegrityIff | internal/logic/base/init_database_logic.go:37 | without foreign keys one operation keeps integrity exactly when it creates no log for a missing task |
| TaskStore.OperationEffect | internal/logic/base/init_database_logic.go:37 | what each operation changes, row by row, without any reference being checked |
| TaskStore.RunIntactIffGuarded | internal/logic/base/init_database_logic.go:37 | over every run, all states are intact exactly when every log was created for no task or an existing one |
| TaskStore.RememberedTaskBreaksIntegrity | internal/mqs/amq/handler/amq/base/hello_world.go:36-63 | a remembered task id used after a deletion leaves a dangling log |
| RelayFeed.MergeList | internal/mqs/amq/handler/amq/relaychains/relay_chains.go:442-485 | one list merged into the tokens so far, item by item |
| RelayFeed.BuildTokens | internal/mqs/amq/handler/amq/relaychains/relay_chains.go:407-440 | the merged tokens of the three lists by ascending id, whatever order the map yields its keys in |
| RelayFeed.FeedTokensMeaning | internal/mqs/amq/handler/amq/relaychains/relay_chains.go:407-440 | they are strictly ascending by id and exactly the merged tokens |
| RelayFeed.MergedMeaning | internal/mqs/amq/handler/amq/relaychains/relay_chains.go:442-558 | a token is built exactly for the ids of effective, complete items; it is supported; address, symbol, name, logo and decimals are those of the first of them that has one, native, bridging, permit and the list flags those that any of them has |
| RelayFeed.VisitedInOrder | internal/mqs/amq/handler/amq/relaychains/relay_chains.go:410-418 | first the featured items, then the solver currencies, then the ERC-20 currencies |
| RelaySync.Store.UpdateToken | internal/mqs/amq/handler/amq/relaychains/relay_chains.go:612-629 | the row is overwritten unless the token is invalid or another row has its address |
| RelaySync.Store.CreateToken | internal/mqs/amq/handler/amq/relaychains/relay_chains.go:571-591 | a new row under both unique indexes, or nothing |
| RelaySync.Store.UpsertToken | internal/mqs/amq/handler/amq/relaychains/relay_chains.go:560-610 | by id, else a new row, else the row with the address under its old id, else an error |
| RelaySync.Store.UpsertTokens | internal/mqs/amq/handler/amq/relaychains/relay_chains.go:384-390 | all tokens in turn, or the first failure |
| RelaySync.Store.SyncTokens | internal/mqs/amq/handler/amq/relaychains/relay_chains.go:374-405 | the rows of one chain after all upserts and the turning off of unlisted ids, or a failure |
| RelaySync.Store.SyncEntry | internal/mqs/amq/handler/amq/relaychains/relay_chains.go:161-190 | one chain in a transaction of its own: all of it, or nothing |
| RelaySync.Store.SyncFeed | internal/mqs/amq/handler/amq/relaychains/relay_chains.go:149-200 | all entries in turn, the mentioned chains collected, the failures counted |
| RelaySync.FailuresCounted | internal/mqs/amq/handler/amq/relaychains/relay_chains.go:156-189 | the failure count is the number of entries that do not succeed |
| RelaySync.SucceedsIff | internal/mqs/amq/handler/amq/relaychains/relay_chains.go:161-190 | an entry succeeds exactly if it is well-formed, its transaction is not refused, and the tokens of a supported chain go through |
| RelaySync.Store.Sync | internal/mqs/amq/handler/amq/relaychains/relay_chains.go:141-220 | the tables after a sync, also when the final marks are refused; when they are not, success is reported exactly if every entry succeeded, and otherwise the number that did not |
| RelaySync.OwnRowIffNoFallback | internal/mqs/amq/handler/amq/relaychains/relay_chains.go:384-397 | after all upserts a token has a row of its own, turned on, exactly if it never fell back to a row found by address |
| RelaySync.SomeFallbackIffClash | internal/mqs/amq/handler/amq/relaychains/relay_chains.go:560-604 | some token falls back exactly if, before the sync, some token new to the chain shares its address with an earlier token or with a row no earlier token takes over |
| RelaySync.SupportedIffNoClash | internal/mqs/amq/handler/amq/relaychains/relay_chains.go:374-397 | after a successful sync of a chain its supported tokens are exactly the feed's if and only if there is no such token |
| RelaySync.ChainConvergesIff | internal/mqs/amq/handler/amq/relaychains/relay_chains.go:374-397 | the sync of a chain succeeds and leaves exactly the feed's tokens supported if and only if every token is valid and its address is held by no earlier token and no other row that no earlier token takes over |
| RelaySync.UnobstructedSucceeds | internal/mqs/amq/handler/amq/relaychains/relay_chains.go:384-390 | then every upsert goes through and every token has a row of its own with its content |
| RelaySync.SwappedAddressesAreRefused | internal/mqs/amq/handler/amq/relaychains/relay_chains.go:560-629 | two tokens that swap addresses: nothing clashes, but the chain is refused and a third, new token never appears |
| RelaySync.ChainContents | internal/mqs/amq/handler/amq/relaychains/relay_chains.go:374-397 | after a successful sync without a clash the feed's rows hold exactly its tokens, column by column, and all other rows only lose their support |
| RelaySync.ContentAfter | internal/mqs/amq/handler/amq/relaychains/relay_chains.go:384-390 | every row ends with the content of its last writer: its own token, or a token that fell back to its address |
| RelaySync.SecondRun | internal/mqs/amq/handler/amq/relaychains/relay_chains.go:384-390 | on rows that a sync left, every upsert succeeds and moves no row, and adds none if all tokens are placed |
| RelaySync.ChainSettlesIff | internal/mqs/amq/handler/amq/relaychains/relay_chains.go:374-405 | a second sync of a chain succeeds, and changes nothing if and only if the chain is disabled or every token has a row of its own or finds its address taken |
| RelaySync.UnobstructedSettles | internal/mqs/amq/handler/amq/relaychains/relay_chains.go:374-405 | a feed that found all addresses free settles at once |
| RelaySync.SecondSyncCreates | internal/mqs/amq/handler/amq/relaychains/relay_chains.go:560-610 | a token whose address is freed only later in the feed is left out by the first sync and created by the second |
| RelaySync.RenamedTokenIsTurnedOff | internal/mqs/amq/handler/amq/relaychains/relay_chains.go:593-637 | a token under a new id updates the old row, which keeps its id, is turned off, and stays off in every later sync of the same feed |
| RelaySync.LastEntryDecides | internal/mqs/amq/handler/amq/relaychains/relay_chains.go:149-200 | a chain ends as its last successful entry leaves it; entries about other chains do not touch it |
| RelaySync.SyncConvergesIff | internal/mqs/amq/handler/amq/relaychains/relay_chains.go:141-220 | for the last entry of a chain whose transaction the database does not refuse: it is carried out and the chain's supported tokens end exactly as the answer's if and only if the chain is disabled or every token is valid and finds its address free; the chain is then supported as the answer says |
| RelaySync.SyncConvergesFromStart | internal/mqs/amq/handler/amq/relaychains/relay_chains.go:141-220 | for an answer with one entry a chain that condition is about the tables before the sync |
| RelaySync.MissingAreOff | internal/mqs/amq/handler/amq/relaychains/relay_chains.go:640-667 | unmentioned chains end unsupported, and unsupported chains have no supported token |
| RelaySync.MarksSpelledOut | internal/mqs/amq/handler/amq/relaychains/relay_chains.go:640-667 | the final marks change nothing but supported, of chains the answer does not mention, unless it mentions none, and of their tokens |
| RelaySync.ChainRowAfter | internal/mqs/amq/handler/amq/relaychains/relay_chains.go:321-372 | the columns of a chain that was carried out; a known chain keeps its enabled mark |
| RelaySync.FailedChainIsKept | internal/mqs/amq/handler/amq/relaychains/relay_chains.go:167-190 | an entry that fails leaves its chain, and a supported chain's tokens, as they were |
| RelaySync.SucceedsAgain | internal/mqs/amq/handler/amq/relaychains/relay_chains.go:161-190 | repeating an entry that succeeded succeeds, and changes nothing exactly if the chain is disabled or all its tokens are placed |
| RelaySync.FailsAgain | internal/mqs/amq/handler/amq/relaychains/relay_chains.go:161-190 | an entry that failed fails again and changes nothing |
| RelaySync.SyncSettlesIff | internal/mqs/amq/handler/amq/relaychains/relay_chains.go:141-220 | a second sync of the same answer changes nothing if and only if on every supported chain that the first one carried out each token has a row of its own or finds its address taken |
| BulkCreate.Driver.BatchCreate | ent/task_create.go:304-309 | the batch contract: all rows under fresh ids, or none |
| BulkCreate.Bulk.CreateSpec | ent/task_create.go:212-216 | a fresh node and a spec, with an id only if the caller chose one and the entity allows it |
| BulkCreate.Bulk.ApplyDefaults | ent/task_create.go:288-291 | all defaults are applied before anything is checked, also for builders listed twice |
| BulkCreate.Bulk.FillSlot | ent/task_create.go:293-302 | a link checks its builder and fills only slot i |
| BulkCreate.Bulk.GoOn | ent/task_create.go:303-312 | the next link, or the batch after the last one |
| BulkCreate.Bulk.FillId | ent/task_create.go:316-321 | while unwinding the mutation points at its node's id, which is the row's id, and is done |
| BulkCreate.Bulk.Mutate | ent/task_create.go:292-323 | from slot i on: first complaint, batch error, or all ids and marks in place; earlier slots untouched |
| BulkCreate.Bulk.Rest | ent/task_create.go:303-322 | the same for the part of a link after its slot is filled |
| BulkCreate.Bulk.RunChain | ent/task_create.go:284-335 | fresh slots, then the first link if there is a builder |
| BulkCreate.Bulk.Save | ent/task_create.go:280-336 | all or nothing: no batch if any builder fails its check, else exactly one with spec i from builder i; no mutation done on any error; on success all done, each id that of its row |
| BulkCreate.Bulk.SaveRows | ent/task_create.go:280-336 | the same seen from the rows: each position has a new row that its node shows, under the chosen id where there is one; all other rows stay |
| BulkCreate.FirstComplaintMeaning | ent/task_create.go:297-299 | no complaint exactly if all builders pass, else that of the first that fails |
| BulkCreate.InsertContents | ent/task_create.go:304-309 | an accepted batch adds exactly its rows and touches no other |
| BulkCreate.FirstSame | ent/task_create.go:287-289 | two positions hold the same builder exactly when they have the same first position |
| BulkCreate.Bulk.OwnNodesIffDistinct | ent/task_create.go:316-321 | after a successful Save every mutation points at its own position's node exactly when no builder is listed twice |
| CreateSchemas.SchemasLawful | ent/task_create.go:151-164 | defaults applied twice are defaults applied once, for tasks and tokens |
| CreateSchemas.SaveTasks | ent/task_create.go:280-336 | each new row holds every column its caller set unchanged, and defaults for status and the two times only where the caller set none, under the id the caller chose |
| CreateSchemas.SaveTokens | ent/relaytoken_create.go:515-571 | the same for tokens, whose default is to be supported; a chosen false stays |
| CreateSchemas.TaskComplaint | ent/task_create.go:167-190 | which missing column is complained about |
| CreateSchemas.TokenComplaint | ent/relaytoken_create.go:319-394 | which missing or invalid column is complained about |
| CreateSchemas.TasksPassIff | ent/task_create.go:167-190 | a batch of tasks is sent exactly when every builder sets the five columns without a default |
| CreateSchemas.TokensPassIff | ent/relaytoken_create.go:319-394 | a batch of tokens is sent exactly when every builder sets the five validated columns validly |

## Left out

- SQL text, drivers and `sqlgraph`: replaced by the contracts named above; scanning rows into structs and reflection as well.
- Interceptors, the gRPC layer, Redis, Asynq and service wiring: they forward calls or do I/O.
- Predicate and ordering constructors and the per-field setters: one shape repeated for every column.
- `strconv.Unquote`: an uninterpreted parameter, so what a double-quoted value unquotes to is left open.
- Invalid UTF-8, and path cleaning of service names; at which line a scan breaks off is a parameter.
- `projectRoot`, `ResolveConfigFile` and `LoadConfig`: file lookup, YAML decoding and variable expansion.
- The table in `defaultValues`: a parameter; the theorems hold for every table.
- A nil base map in `mergeMaps`: a write to it panics.
- ConfigMerge.MergeMaps: asks that the base is a tree sharing no map with the overlay, as two separately decoded documents are.
- Query.Builder.Clone: does not copy interceptors, the edge query, the path and the intermediate SQL of a query, which the model's queries do not have.
- Query.Page: has no filter option; what counting a query that already carries a limit or offset yields is the library's, a parameter.
- Query.Builder.Count: through a limit or offset the answer is the library's, a parameter; without them it is the number of rows.
- `Exist`: `First` on an id query, with the same shape as `Only`.
- `GetRelayChainList`: the same listing as `GetRelayTokenList` over the other table.
- Eager loading between relay chains and tokens (`loadTokens`, `loadChain`): the same template with a key that is never nil, the case of `EagerLoad` where every `fk` is set. Limits on the edge query are not modelled.
- Hooks on the builders of a bulk create: without them the mutation handed to a link is the builder's own, which the model uses.
- The defaulted flags of a token other than `supported`, and its optional columns: they cannot make a check fail. The check for a missing chain edge cannot fail after the check of `chain_id`, which sets it.
- `DefaultStatus` of a task comes from a library mixin that is not part of this model; it is a parameter.
- A caller-chosen id of zero in a bulk create of tasks: the code's type assertion on the answered id would panic if the library kept the caller's unsigned value, and that library is not part of this model.
- Transactions.TransactionOutcome: speaks of hooks that call the next finisher at most once and do not recover from its panic; `WithTx` itself is modelled for arbitrary hooks. The mutex around the hook lists is left out.
- Update calls that mix Clear, Set and Add on one plain column: their meaning at SQL level is the library's.
- Collation of token ids: any total order, given as an injective rank.
- Decoding Relay's JSON and judging items effective (`buildRelayToken`, `isEffectiveRelayToken`), the raw snapshots, the always-off `stablecoin` flag and the update times in `RelayFeed` and `RelaySync`; chain columns other than name and the three marks. A chain whose trimmed name is empty counts as one whose row is refused.
- RelaySync.SyncSettlesIff: speaks of answers with at most one entry a chain; `SyncConvergesIff` also covers repeated chains.
- Mappers from rows to messages beyond the client listings: `GetRelayTokenList` takes one as a parameter.
- Concurrency between runs: each run sees one database state at a time.
