# Verification of the gateway's small state machines

This project models eleven small pieces of the repository and proves what each of them is for.
Each module starts with a comment naming the source file it follows. State that the source changes
in place is a class whose methods are proved equal to a step function; the main results are then
lemmas about that function, over every run and every input.

| module | follows | what is proved |
|---|---|---|
| `CoroutineMutex` | `with_coroutine_mutex`, kong/concurrency.lua | permits and holders always add up to one; mutual exclusion; no permit lost; exactly which nestings of names can deadlock |
| `WorkerMutex` | `with_worker_mutex`, kong/concurrency.lua | exclusion if and only if locks are held for less than their expiry; which entries an overrun destroys |
| `Attributes`, `Verbs`, `ExpectChain` | scripts/explain_manifest/explain.py and expect.py | what a verb in any chain of calls looks at; the failure list, the counters and the exit status are exact |
| `Manifest`, `Explain`, `ManifestContents` | scripts/explain_manifest/main.py and explain.py | exactly which records can be parsed back from the printed manifest, and what they tell of the files |
| `Headers`, `PhaseGate` | the proxy-wasm test filter | the guarded block runs at most twice and dispatches at most one test, and exactly when |
| `Headers`, `ResponseTransformer` | the proxy-wasm response transformer | five loops over headers equal a closed form for each name; exactly when a second application changes nothing |
| `Base64` | kong/plugins/attest/sdk/mybase64.py | unpadded output can be padded and decoded; exactly which strings are outputs |
| `Percent`, `Signing` | kong/plugins/api-version/sdk/decrypt.py | quoting cancels; insertion order does not matter; exactly when the text determines the parameters; the receiver recomputes the signed text |
| `Hooks` | kong/hooks.lua | which hooks are called, and whose result is returned |

`Wrappers`, `LuaValues`, `Bytes`, `Seqs`, `Separators` and `Sorting` are shared helpers.

## How the models are built

* Coroutines and workers. A step is a stretch of code between two points where a coroutine can
  yield, or one atomic operation on the shared lock dictionary. A run is any sequence of steps that
  are enabled one after the other, by any number of calls for any names. The semaphore is a counter
  that starts at 0; the lock dictionary adds a key if no live entry holds it, and deletes it on
  unlock whoever added it. A wait may time out at any moment, which covers every choice of
  `timeout`; expiry follows an explicit clock.
* Assertion chains. A run is everything done to one `ExpectChain` object across all its suites. Glob
  matching, regular-expression search and the order of version strings are parameters. A failure is
  recorded as a value, not as a message.
* Headers. A map from lower-cased name to its values, in order; reading returns the first value.
* Exceptions, Rust panics and Lua errors are explicit results, never excluded inputs.

Where the code and its documentation or an obvious reading differ, the model follows the code:

* A check stops with success at the first file whose dictionary lacks the key, and does not look at
  the files after it (`FirstDecidingFile`). Some check then misses a violation exactly when
  one of those files holds a value that no file before the first one holds (`SaysAllIffNothingHidden`).
* `is_not().greater_than(x)` on a list holds when some element is at most `x`, not when all are
  (`NotGreaterThanMeansSomeAtMost`).
* A verb on an attribute that some file lacks prints an error but leaves no failure, and does not
  change the exit status (`UnexecutedVerbIsSilent`).
* `_reset` does not clear the key; no verb ever sees the old one, because accessing an attribute
  clears it (`KeyExact`).
* Stale manifests count as failures but not as checks, so failures can exceed checks
  (`StaleManifestOvertakes`): they do exactly when a stale manifest comes while the two counters are
  equal (`AlwaysWithinIff`).
* Renaming a header that is not there deletes the target, so a rename applied twice loses the header
  (`RenamingTwiceLosesTheHeader`); `IdempotentIffSettled` says which configurations can be applied twice.
* A newline in a file's name can make it print like a directory (`NewlineInPathCollides`). A manifest
  can be read back exactly when no shown value has a newline (`ManifestRoundTripsIff`).
* Unquoting makes the signed text ambiguous: a value with "&" can read like two parameters
  (`SeparatorInValueCollides`). The text determines the parameters among all others exactly when it
  has at most one "=" (`TextTellsMapIff`), and splitting it recovers them exactly when keys have no
  separator and values no "&" (`ReadSortStrIff`).
* The lines of a version requirement can collide (`VersionsCollide`, `NameCollides`); they are read
  back exactly when the name has no ": ", there is a version, and none has ", " (`ReadVersionsIff`).
* The comment on `register_hook` says a hook is skipped after one that returned nil; the code also
  skips it after false, and after a hook that returned nothing (`OrdinaryHooks`).
* A low-level hook in last place may return nil, and then `run_hook` raises (`UnpackDefined`).

## Model

| member | source | states |
|---|---|---|
| `CoroutineMutex.StepKeepsInv` | kong/concurrency.lua:92-140 | every step of any call keeps: each semaphore's permits plus the callers inside `fn` with its permit make 1, no two names share a semaphore, every waiting or running call uses the one its name has in the table, `fn` has run exactly once for those that got inside |
| `CoroutineMutex.StepConserves` | kong/concurrency.lua:98-133 | the permit equation alone survives every step, for old and new semaphores |
| `CoroutineMutex.PermitsMoveWithHolders` | kong/concurrency.lua:112-133 | what a step takes from or gives to a semaphore is exactly what it adds to or removes from its holders |
| `CoroutineMutex.RunsKeepInv` | kong/concurrency.lua:92-140 | the invariant holds after every run from a state that has it |
| `CoroutineMutex.MutualExclusion` | kong/concurrency.lua:98-133 | in every reachable state at most one call holds a name, and its semaphore then has no permit |
| `CoroutineMutex.FreeIffUnheld` | kong/concurrency.lua:101-133 | in every reachable state a created semaphore has its permit if and only if no call holds the name, so none is lost when `fn` raises |
| `CoroutineMutex.SemaphoresNeverReplaced` | kong/concurrency.lua:98-110 | once created, a name's semaphore is the same one after every further run |
| `CoroutineMutex.FinishPostsIffLocked` | kong/concurrency.lua:128-133 | ending `fn`, normally or by raising, puts the permit back from 0 to 1 exactly if this call had acquired; a caller that runs unlocked never posts |
| `CoroutineMutex.RunsKeepExits` | kong/concurrency.lua:72-126 | over every run, each way a call ended agrees with its options: which argument error, and which `on_timeout` mode for which timeout answer |
| `CoroutineMutex.FnRunsAtMostOnce` | kong/concurrency.lua:92-139 | `fn` runs at most once a call, and never exactly for bad options, failed creation, failed wait or a timeout without `run_unlocked` |
| `CoroutineMutex.RejectedOptionsRaise` | kong/concurrency.lua:72-90 | from the option fields: which options are rejected, and with which of the four errors; nothing else changes |
| `CoroutineMutex.AcceptedOptionsEnter` | kong/concurrency.lua:92-113 | from the option fields: what accepted options lead to, by phase, table and creation error: `fn` at once, the name's semaphore, a new one with one permit, or the error answer |
| `CoroutineMutex.TimeoutByMode` | kong/concurrency.lua:114-126 | from the option fields, in every reachable state: on a timeout "run_unlocked" gets inside `fn` unlocked, "return_true" answers true with no run, nil or false answers nil and the timeout text with no run |
| `CoroutineMutex.TimeoutInRun` | kong/concurrency.lua:114-139 | carried to runs: whatever follows the timeout, the call ends accordingly |
| `CoroutineMutex.WaitErrorAnswer` | kong/concurrency.lua:114-117 | any other error of the wait ends the call with no run and that error under the name given |
| `CoroutineMutex.FinishAnswer` | kong/concurrency.lua:128-139 | what the caller gets for what `fn` returned or raised: two values, nil and the error, or everything in a phase that cannot yield |
| `CoroutineMutex.StepUsesUp` | kong/concurrency.lua:112-139 | every step of a call already made strictly reduces the steps left |
| `CoroutineMutex.DrainIsBounded` | kong/concurrency.lua:112-139 | without new calls, every run is at most as long as the steps left |
| `CoroutineMutex.WaiterOrHolder` | kong/concurrency.lua:98-113 | a call that cannot take its permit waits for a call of the same name that is inside `fn` |
| `CoroutineMutex.BlockedByChild` | kong/concurrency.lua:98-133 | in a stuck state every unfinished call waits, itself or through the holder of its name, for a nested call |
| `CoroutineMutex.StuckHasCycle` | kong/concurrency.lua:98-133 | if a reachable state whose nestings are allowed by a relation of names is stuck, the relation has a cycle |
| `CoroutineMutex.CycleBlocks` | kong/concurrency.lua:98-133 | for every cycle of names, a run within the relation ends stuck: each name held, the next one awaited inside |
| `CoroutineMutex.NeverStuckIffNoCycle` | kong/concurrency.lua:98-139 | for every relation saying which names may be taken inside which, with timeouts disabled: no reachable state nested within it is stuck if and only if it has no cycle |
| `CoroutineMutex.NeverStuck` | kong/concurrency.lua:112-139 | in particular never if nested calls take names in some increasing order, or do not nest |
| `CoroutineMutex.NestingTheSameNameIsStuck` | kong/concurrency.lua:98-128 | the cycle of length 1: for any valid options, a call of the same name inside `fn` reaches a stuck state |
| `CoroutineMutex.Mutexes.constructor` | kong/concurrency.lua:14-15 | starts with no semaphores, in the initial state, with the invariant |
| `CoroutineMutex.Mutexes.Start` | kong/concurrency.lua:71-110 | argument checks, the phase that cannot yield, and the creation block change the table, permits and call as one step; the answer is the right error or none; the invariant is kept |
| `CoroutineMutex.Mutexes.Woken` | kong/concurrency.lua:112-126 | when `wait` returns, for each outcome and `on_timeout` mode, the state and the answer are the step's, and the invariant is kept |
| `CoroutineMutex.Mutexes.GoOn` | kong/concurrency.lua:112-126 | the branches after the wait, on any state |
| `CoroutineMutex.Mutexes.FnEnded` | kong/concurrency.lua:128-139 | posts if locked, answers `ok, err` or nil and the error, ends the call, keeps the invariant |
| `WorkerMutex.RunsLeaveNoStrayEntry` | kong/concurrency.lua:51-67 | over every run, timely or not, every dictionary entry belongs to a call of that name that is between lock and unlock or crashed there, with that call's expiry |
| `WorkerMutex.StepKeepsInv` | kong/concurrency.lua:51-67 | while everyone is in time, every step keeps each holder owning its name's entry |
| `WorkerMutex.TimelyRunsKeepInv` | kong/concurrency.lua:39-67 | so does every run all of whose states are in time |
| `WorkerMutex.TimelyRunsAreExclusive` | kong/concurrency.lua:39-67 | if every call stays within its `exptime`, no two calls are between lock and unlock for one name |
| `WorkerMutex.UnlockRemovesOwnEntry` | kong/concurrency.lua:65-66 | in such a run every unlock finds and deletes the caller's own entry |
| `WorkerMutex.LockableIffNotOccupied` | kong/concurrency.lua:50-66 | in such a run a waiting call can lock if and only if no unexpired call has the name: a raising `fn` releases it, a crash blocks it until its expiry |
| `WorkerMutex.RejectedOptionsRaise` | kong/concurrency.lua:19-37 | from the option fields: which options are rejected, and with which error |
| `WorkerMutex.AcceptedOptionsWait` | kong/concurrency.lua:39-51 | from the option fields: accepted options wait for the lock of the name they give, or answer the creation error |
| `WorkerMutex.LockExpiresByOptions` | kong/concurrency.lua:39-51 | over runs: a call entered with `opts` that locks at T puts an entry that expires at T plus `exptime`, else `timeout`, else 60, and never exactly when that is 0 |
| `WorkerMutex.CrashBlocksUntil` | kong/concurrency.lua:39-51 | in a timely run a waiter on a crashed call's name, otherwise unoccupied, can lock exactly from that time on |
| `WorkerMutex.LockErrorAnswer` | kong/concurrency.lua:52-57 | nil and "timeout", or nil and the prefixed error |
| `WorkerMutex.FnAnswer` | kong/concurrency.lua:59-67 | the first two values of `fn`, or nil and what it raised |
| `WorkerMutex.ExclusiveIffWithinExpiry` | kong/concurrency.lua:39-67 | for all `e` and `d`: calls asking for expiry `e` and holding at most `d` exclude each other on every run if and only if `e` is 0 or `d` is below `e` |
| `WorkerMutex.OverrunBreaksExclusion` | kong/concurrency.lua:39-67 | for every `0 < e <= d`, a run within `d` with two holders of one name |
| `WorkerMutex.UnlocksOwnIffWithinExpiry` | kong/concurrency.lua:59-66 | for all `e` and `d`: on every run of calls asking for expiry `e` and holding at most `d`, each unlock finds the caller's own entry, if and only if `e` is 0 or `d` is below `e` |
| `WorkerMutex.OverrunHarmsPunctualCalls` | kong/concurrency.lua:59-66 | a run in which one overrunning call's unlock deletes another's entry and two punctual calls hold the name together |
| `WorkerMutex.Workers.constructor` | kong/concurrency.lua:18-18 | starts with an empty dictionary and no calls |
| `WorkerMutex.Workers.Start` | kong/concurrency.lua:19-48 | argument checks in order, defaults for timeout and expiry, and lock creation, as one step with its answer |
| `WorkerMutex.Workers.LockReturned` | kong/concurrency.lua:50-57 | the entry with its expiry when locked, else the timeout answer or the prefixed error |
| `WorkerMutex.Workers.FnEnded` | kong/concurrency.lua:59-63 | the call leaves `fn` with its result and still holds its lock |
| `WorkerMutex.Workers.Release` | kong/concurrency.lua:60-67 | deletes the key and answers `ok, err`, or nil and what was raised |
| `Attributes.CacheExact` | scripts/explain_manifest/explain.py:78-90 | after any accesses, exactly the accessed lazy attributes with truthy values are cached, equal to their closures; those closures ran once, falsy or raising ones at every access, plain attributes never |
| `Attributes.FalsyExactly` | scripts/explain_manifest/explain.py:86-88 | the values that are not cached: None, False, 0 and everything empty |
| `Attributes.GetExactly` | scripts/explain_manifest/explain.py:78-90 | what an access gives, by plain attribute, closure and its value |
| `Attributes.FileInfo.constructor` | scripts/explain_manifest/explain.py:53-58 | starts with an empty cache |
| `Attributes.FileInfo.GetAttr` | scripts/explain_manifest/explain.py:78-90 | whatever was accessed before, an access means the same as without a cache: plain value, truthy lazy value, absent (a falsy lazy value or an AttributeError), or another exception |
| `Verbs.Stem` | scripts/explain_manifest/expect.py:278-278 | splits a name so that the remainder is empty, "s" or "es" and no shorter part would do |
| `Verbs.VerbNames` | scripts/explain_manifest/expect.py:79-80 | which verb a name calls: one of the seven as it stands, or with "s" or "es" |
| `Verbs.JudgeExactly` | scripts/explain_manifest/expect.py:178-230 | every verb on every argument and value: exactly when it raises and exactly when it holds, over numbers, code points, list items, search and version order |
| `Verbs.SearchAllFinds` | scripts/explain_manifest/expect.py:220-230 | the search over a list succeeds if and only if some element matches |
| `Verbs.LessThanMeansAll` | scripts/explain_manifest/expect.py:184-191 | testing the last of the sorted list, of strings or of versions, holds if and only if every element is below the bound |
| `Verbs.GreaterThanMeansAll` | scripts/explain_manifest/expect.py:193-200 | testing the first of the sorted list, of strings or of versions, holds if and only if every element is above the bound, and fails if and only if some element is at most it |
| `Verbs.JudgeByNumber` | scripts/explain_manifest/expect.py:178-230 | no verb tells True from 1 or False from 0 |
| `ExpectChain.FirstDecidingFile` | scripts/explain_manifest/expect.py:145-166 | a check fails with a value if and only if the first deciding file has that violating value, raises if and only if it raises there, and passes if and only if no file decides or the first that does lacks the key |
| `ExpectChain.WithAllKeysEveryFileCounts` | scripts/explain_manifest/expect.py:147-166 | with the attribute and key everywhere, a check passes if and only if no file violates it |
| `ExpectChain.MarkMeans` | scripts/explain_manifest/expect.py:148-158 | what one file does to a check, by its lookup, the key, the verb's verdict and the negation |
| `ExpectChain.SaysAllIffNothingHidden` | scripts/explain_manifest/expect.py:147-166 | for any files that have the attribute: every check on a key that raises nowhere passes exactly when no file violates it, if and only if each file after the first that lacks the key holds a value that some file before that one holds |
| `ExpectChain.HiddenFileIsMissed` | scripts/explain_manifest/expect.py:151-154 | otherwise a negated `equal` passes although that later file violates it |
| `ExpectChain.HiddenExample` | scripts/explain_manifest/expect.py:151-154 | three files, with 1, nothing and 2 under the key, of which the third is missed |
| `ExpectChain.NotGreaterThanMeansSomeAtMost` | scripts/explain_manifest/expect.py:193-200 | a negated `greater_than` on a key passes if and only if every file lists some version at most the bound |
| `ExpectChain.StepContext` | scripts/explain_manifest/expect.py:83-91 | what each call does to attribute, key, negation and files: `expect` clears all but the key, an attribute access clears key and negation, verbs change none |
| `ExpectChain.AttributeExact` | scripts/explain_manifest/expect.py:275-296 | for every chain, a verb runs with the attribute last accessed since `expect`; rpath and runpath are the one that the suite in force uses |
| `ExpectChain.KeyExact` | scripts/explain_manifest/expect.py:265-290 | with the last key given after that access, and with none if there was none, whatever earlier expectations set |
| `ExpectChain.NegationExact` | scripts/explain_manifest/expect.py:254-290 | negated if and only if a negation came after that access or, without one, after `expect` |
| `ExpectChain.FilesExact` | scripts/explain_manifest/expect.py:237-252 | over the files the last `expect` selected |
| `ExpectChain.SelectExact` | scripts/explain_manifest/expect.py:249-251 | which are those that match, each once and in order |
| `ExpectChain.SuiteExact` | scripts/explain_manifest/expect.py:312-328 | the suite in force is the last one whose manifest was compared or that was run |
| `ExpectChain.PresentIffAllFound` | scripts/explain_manifest/expect.py:297-302 | the presence test passes if and only if every selected file has the attribute |
| `ExpectChain.NoFileIsSkipped` | scripts/explain_manifest/expect.py:147-149 | whenever a verb counts a check every selected file has the attribute, so the comparison loop never skips one |
| `ExpectChain.UnexecutedVerbIsSilent` | scripts/explain_manifest/expect.py:292-302 | a verb without an attribute, or with a file that lacks it, changes nothing |
| `ExpectChain.StepLedger` | scripts/explain_manifest/expect.py:111-174 | each call adds at most one failure, exactly when it fails and that one, and one check exactly when it checks; an `expect` zeroes both counters |
| `ExpectChain.LedgerExact` | scripts/explain_manifest/expect.py:111-115 | over every run the failure list has one entry for every failed check and stale manifest, across all resets |
| `ExpectChain.CountersExact` | scripts/explain_manifest/expect.py:83-90 | the two counters equal the failures and the checks since the last `expect` |
| `ExpectChain.FailuresWithinChecks` | scripts/explain_manifest/expect.py:145-174 | on every run failures since the last `expect` never exceed checks plus stale manifests since then |
| `ExpectChain.StaleManifestOvertakes` | scripts/explain_manifest/expect.py:310-320 | a run with one failure and no check: a stale manifest |
| `ExpectChain.StepWithinChecks` | scripts/explain_manifest/expect.py:83-174 | one call keeps failures within checks if and only if it is not a stale manifest while both counters are equal |
| `ExpectChain.AlwaysWithinIff` | scripts/explain_manifest/expect.py:83-174 | all along a run failures stay within checks if and only if no stale manifest comes while both counters are equal |
| `ExpectChain.StepCrashesIff` | scripts/explain_manifest/expect.py:145-308 | exactly when a call raises: an attribute without a suite, a lookup that raises before any file is found without the attribute, a verb that is none, or a first deciding file that raises |
| `ExpectChain.CrashedIff` | scripts/explain_manifest/expect.py:145-308 | a run ends with an exception if and only if some call of it raised |
| `ExpectChain.VerdictExact` | scripts/explain_manifest/expect.py:135-143 | every run exits 1 if and only if some check failed, some manifest was stale, or some call raised; else 0 |
| `ExpectChain.ChainObject.constructor` | scripts/explain_manifest/expect.py:75-81 | starts in the initial state with no failures |
| `ExpectChain.ChainObject.PrintFail` | scripts/explain_manifest/expect.py:111-115 | one more entry in the list and one more failure |
| `ExpectChain.ChainObject.Reset` | scripts/explain_manifest/expect.py:83-91 | clears negation, files, counters and attribute, and leaves key and failure list alone |
| `ExpectChain.ChainObject.SelectFiles` | scripts/explain_manifest/expect.py:249-251 | the files under test that match, in order |
| `ExpectChain.ChainObject.StartExpect` | scripts/explain_manifest/expect.py:237-252 | is the step of `expect` |
| `ExpectChain.ChainObject.DoNot` | scripts/explain_manifest/expect.py:254-262 | is the step of a negation |
| `ExpectChain.ChainObject.SetKey` | scripts/explain_manifest/expect.py:264-267 | is the step of `key` |
| `ExpectChain.ChainObject.CheckExist` | scripts/explain_manifest/expect.py:168-174 | is the step of `exist`: one check, a failure if the count is wrong for the negation |
| `ExpectChain.ChainObject.CompareManifest` | scripts/explain_manifest/expect.py:310-320 | is the step of `compare_manifest`: sets the suite, and a failure if stale |
| `ExpectChain.ChainObject.BeginSuite` | scripts/explain_manifest/expect.py:326-328 | sets the current suite |
| `ExpectChain.ChainObject.CheckFile` | scripts/explain_manifest/expect.py:148-165 | one turn of the loop, reading the attribute twice through the cache, decides as the file's mark says |
| `ExpectChain.ChainObject.Scan` | scripts/explain_manifest/expect.py:147-166 | the loop stops where and as the first deciding file says, and keeps every cache valid |
| `ExpectChain.ChainObject.RecordOutcome` | scripts/explain_manifest/expect.py:157-165 | a violated check is recorded once, an exception goes on |
| `ExpectChain.ChainObject.CompareFiles` | scripts/explain_manifest/expect.py:145-166 | counts one check and at most one failure, with the key and negation in force |
| `ExpectChain.ChainObject.CallVerb` | scripts/explain_manifest/expect.py:304-308 | calls the comparison behind the verb's name, or raises for the verb that has none |
| `ExpectChain.ChainObject.CheckPresent` | scripts/explain_manifest/expect.py:297-302 | the loop before a verb: all present, some absent, or a lookup that raises |
| `ExpectChain.ChainObject.RunVerb` | scripts/explain_manifest/expect.py:292-308 | the verb's call: nothing without attribute or with an absent one, else one comparison |
| `ExpectChain.ChainObject.LookAt` | scripts/explain_manifest/expect.py:280-290 | sets the attribute under the suite's name and clears negation and key, or raises without a suite |
| `ExpectChain.ChainObject.Access` | scripts/explain_manifest/expect.py:275-308 | is the step of any other name: a verb, or an attribute with its rpath and runpath alias, or an exception without a suite |
| `Manifest.ParsePrintIff` | scripts/explain_manifest/main.py:132-157 | for every record list: it is recovered from its text if and only if keys and values have no newline, keys no ":" and no space at the end, and no key "-" or key starting with "- " follows a list |
| `Manifest.ParsePrint` | scripts/explain_manifest/main.py:132-157 | the direction a caller needs: under that condition the parser recovers the records |
| `Manifest.PrintInjective` | scripts/explain_manifest/main.py:132-157 | so record lists that meet it never print alike |
| `Manifest.PrintAsLines` | scripts/explain_manifest/main.py:142-153 | the text is one line for each key and each list item, and a blank line after each record |
| `Manifest.EntryParses` | scripts/explain_manifest/main.py:142-152 | one printed entry is read back whole, an empty list apart from an empty scalar, and no item is taken for a key line |
| `Manifest.RecordParses` | scripts/explain_manifest/main.py:135-153 | one printed record is read back whole, leaving the lines after it |
| `Manifest.RecordSound` | scripts/explain_manifest/main.py:135-153 | whatever the parser accepts, it returns a record that meets the condition |
| `Manifest.NewlineInValueCollides` | scripts/explain_manifest/main.py:146-152 | for every key, text and next entry, a value that goes on with that entry's line prints like the two entries |
| `Manifest.ColonInKeyCollides` | scripts/explain_manifest/main.py:143-152 | a pair that prints alike because of a colon in a key |
| `Manifest.DashKeyCollides` | scripts/explain_manifest/main.py:143-152 | a pair that prints alike because a key starting with "- " follows a list |
| `Manifest.TrailingSpaceCollides` | scripts/explain_manifest/main.py:152-152 | a pair that prints alike because a key ends in a space |
| `Explain.ExplainBase` | scripts/explain_manifest/explain.py:92-107 | exactly the entries every file shows under the options, each key once and in order, or an error exactly for the size of a link |
| `Explain.ExplainVersions` | scripts/explain_manifest/explain.py:180-183 | one line for each required file, its versions joined, in an order of the same requirements in which no name comes before an earlier one by code point |
| `Explain.WriteVersions` | scripts/explain_manifest/explain.py:181-183 | the loop that writes the lines |
| `Explain.ExplainLinkage` | scripts/explain_manifest/explain.py:167-174 | exactly architecture, libraries and paths that there are, each once and in order |
| `Explain.ExplainElf` | scripts/explain_manifest/explain.py:162-186 | these with exactly the symbols and version requirements the options ask for, each once and in order |
| `Explain.ExplainFile` | scripts/explain_manifest/explain.py:236-246 | for a file of any of the three kinds: exactly the entries to be shown, each key once and in its fixed order, starting with the path; an error exactly for the size of a link and for an nginx file without its attributes |
| `Explain.WriteRecord` | scripts/explain_manifest/main.py:139-153 | writing entry by entry, with the dash for the first, yields the record's text and a blank line |
| `Explain.WriteManifest` | scripts/explain_manifest/main.py:132-157 | an exception exactly if some file the globs select cannot be explained; otherwise the buffer holds the printed form of the records of exactly the selected files, each once and in order |
| `Explain.EntriesInPlace` | scripts/explain_manifest/explain.py:92-246 | every list of entries has known keys only, each once, in one fixed order |
| `Explain.EntriesShown` | scripts/explain_manifest/explain.py:92-246 | and exactly the entries that a table of what the file shows at each place, under the options, says |
| `ManifestContents.ManifestRoundTripsIff` | scripts/explain_manifest/main.py:132-157 | for any files and options: the manifest is read back exactly if and only if no shown value has a newline |
| `ManifestContents.DecExactly` | scripts/explain_manifest/explain.py:100-105 | owners and sizes are shown by decimal digits with the right value and no zero in front |
| `ManifestContents.OctExactly` | scripts/explain_manifest/explain.py:103-103 | modes by octal digits after "0o" |
| `ManifestContents.NewlineInPathCollides` | scripts/explain_manifest/explain.py:92-107 | for every path, owner, mode, size and options: a file whose name goes on like a directory's second line, and that directory, show different entries that print alike |
| `ManifestContents.SameEntriesSameFile` | scripts/explain_manifest/explain.py:92-246 | under any options, files that show the same entries agree on path, link, kind, libraries and paths, on owner, mode, size, architecture and symbols where the options show them, on the versions required if these can be read back, and on what nginx shows |
| `ManifestContents.ReadVersionsIff` | scripts/explain_manifest/explain.py:182-183 | a required name with its versions is read back from its line if and only if the name has no ": ", there is a version, and no version has ", " |
| `ManifestContents.ReadAllIff` | scripts/explain_manifest/explain.py:180-184 | a list of requirements is, line by line, if and only if each of them is |
| `ManifestContents.VersionLinesInjective` | scripts/explain_manifest/explain.py:180-184 | so lists of such requirements with equal lines are equal |
| `ManifestContents.VersionsCollide` | scripts/explain_manifest/explain.py:182-183 | a version with ", " in it shows like two versions |
| `ManifestContents.NameCollides` | scripts/explain_manifest/explain.py:182-183 | a name with ": " in it shows like a shorter name with a longer version |
| `ManifestContents.EntriesPrintable` | scripts/explain_manifest/explain.py:92-246 | whatever a file with newline-free names shows can be printed without loss |
| `ManifestContents.ManifestDeterminesRecords` | scripts/explain_manifest/main.py:132-157 | over such files, two manifests are equal if and only if they show the same entries in the same order, and the parser recovers them |
| `PhaseGate.SplitOnce` | spec/fixtures/proxy_wasm_filters/tests/src/routines.rs:7-7 | splits at the first separator, or finds none |
| `PhaseGate.ParsePhaseIff` | spec/fixtures/proxy_wasm_filters/tests/src/types.rs:22-30 | a header value names a phase exactly if it is the phase's name in snake case |
| `PhaseGate.TestHttp.constructor` | spec/fixtures/proxy_wasm_filters/tests/src/test_http.rs:3-5 | holds the configuration and the host's header maps |
| `PhaseGate.TestHttp.AddRequestHeaderRoutine` | spec/fixtures/proxy_wasm_filters/tests/src/routines.rs:3-12 | adds the named header, then deletes the one that named it; panics and changes nothing without "=" |
| `PhaseGate.TestHttp.AddResponseHeaderRoutine` | spec/fixtures/proxy_wasm_filters/tests/src/routines.rs:14-31 | the same for response headers, and one more from the configuration |
| `PhaseGate.TestHttp.RunTests` | spec/fixtures/proxy_wasm_filters/tests/src/test_http.rs:83-143 | one callback: what it leaves in both header maps, whether the block ran, which test it dispatched, how it ended, also when the host refuses the outgoing call |
| `PhaseGate.AfterBlock` | spec/fixtures/proxy_wasm_filters/tests/src/test_http.rs:98-106 | after the block, phase and test headers are there only if put back, never both, and nothing is left that puts more back |
| `PhaseGate.HeadersAfterBlock` | spec/fixtures/proxy_wasm_filters/tests/src/test_http.rs:98-106 | every request and response header after a block that does not panic: control headers gone, the header asked for added, on the response also the configured one, all others unchanged |
| `PhaseGate.StepDispatches` | spec/fixtures/proxy_wasm_filters/tests/src/test_http.rs:108-142 | at the gate's phase: the block runs, the client's test is dispatched unless a routine panics, and when it traps or pauses |
| `Headers.SameNameIff` | spec/fixtures/proxy_wasm_filters/tests/src/routines.rs:3-7 | two names are one header exactly if they differ in letter case only (section 5.1 of RFC 9110) |
| `PhaseGate.OneCallback` | spec/fixtures/proxy_wasm_filters/tests/src/test_http.rs:83-143 | a callback that does not pass the gate changes nothing; one that does leaves at most one more block and no test for later |
| `PhaseGate.LaterCallbacks` | spec/fixtures/proxy_wasm_filters/tests/src/test_http.rs:83-143 | without another request-headers callback, blocks and tests are bounded by what the headers still allow |
| `PhaseGate.RunsAtMostTwice` | spec/fixtures/proxy_wasm_filters/tests/src/test_http.rs:83-143 | for all headers and callbacks with request-headers first and once: at most two blocks, at most one test, and only the client's |
| `PhaseGate.NothingBeforeTheGate` | spec/fixtures/proxy_wasm_filters/tests/src/test_http.rs:90-98 | callbacks before the gate's phase make no difference to the run |
| `PhaseGate.AgainIff` | spec/fixtures/proxy_wasm_filters/tests/src/test_http.rs:90-106 | later callbacks run a block if and only if a phase header is there and names one of them |
| `PhaseGate.RunsExactly` | spec/fixtures/proxy_wasm_filters/tests/src/test_http.rs:83-143 | once the gate's phase comes, the block runs twice if and only if no routine panics, the test does not (on purpose or on a refused outgoing call), and the first run puts back a phase header naming a later callback; else exactly once; and exactly the client's test is dispatched unless a routine panics |
| `ResponseTransformer.Filter.constructor` | spec/fixtures/proxy_wasm_filters/response_transformer/src/filter.rs:39-43 | holds the configuration and the response headers |
| `ResponseTransformer.Filter.Remove` | spec/fixtures/proxy_wasm_filters/response_transformer/src/filter.rs:58-61 | the first loop equals its fold over the names |
| `ResponseTransformer.Filter.Rename` | spec/fixtures/proxy_wasm_filters/response_transformer/src/filter.rs:63-68 | the second loop equals its fold over the pairs |
| `ResponseTransformer.Filter.Replace` | spec/fixtures/proxy_wasm_filters/response_transformer/src/filter.rs:70-75 | the third loop equals its fold over the pairs |
| `ResponseTransformer.Filter.AddMissing` | spec/fixtures/proxy_wasm_filters/response_transformer/src/filter.rs:77-82 | the fourth loop equals its fold over the pairs |
| `ResponseTransformer.Filter.Append` | spec/fixtures/proxy_wasm_filters/response_transformer/src/filter.rs:84-87 | the fifth loop equals its fold over the pairs |
| `ResponseTransformer.Filter.OnHttpResponseHeaders` | spec/fixtures/proxy_wasm_filters/response_transformer/src/filter.rs:57-91 | the five loops in this order |
| `ResponseTransformer.RemovePass` | spec/fixtures/proxy_wasm_filters/response_transformer/src/filter.rs:58-61 | a name keeps its values unless some listed name equals it without case |
| `ResponseTransformer.RenamePass` | spec/fixtures/proxy_wasm_filters/response_transformer/src/filter.rs:63-68 | after all renames a name has its own values, or the first value of the one origin found by reading the renames backwards, or none |
| `ResponseTransformer.ReplacePass` | spec/fixtures/proxy_wasm_filters/response_transformer/src/filter.rs:70-75 | the last replacement wins, for a name that is there |
| `ResponseTransformer.AddPass` | spec/fixtures/proxy_wasm_filters/response_transformer/src/filter.rs:77-82 | the first addition wins, for a name that is not there |
| `ResponseTransformer.AppendPass` | spec/fixtures/proxy_wasm_filters/response_transformer/src/filter.rs:84-87 | the appended values follow in order |
| `ResponseTransformer.TransformIsClosed` | spec/fixtures/proxy_wasm_filters/response_transformer/src/filter.rs:57-91 | for every configuration, renames included, and every name: the pipeline gives the closed form made of these five |
| `ResponseTransformer.OriginsDiffer` | spec/fixtures/proxy_wasm_filters/response_transformer/src/filter.rs:63-68 | no two names get their values from the same header |
| `ResponseTransformer.UnmentionedUnchanged` | spec/fixtures/proxy_wasm_filters/response_transformer/src/filter.rs:57-91 | a name in none of the lists keeps its values |
| `ResponseTransformer.RenamingTwiceLosesTheHeader` | spec/fixtures/proxy_wasm_filters/response_transformer/src/filter.rs:63-68 | renaming an absent header deletes the target, so the same rename twice leaves neither name |
| `ResponseTransformer.IdempotentIffSettled` | spec/fixtures/proxy_wasm_filters/response_transformer/src/filter.rs:57-91 | for every configuration, renames included: twice equals once for all headers if and only if every name is settled. A name without origin is. Otherwise its last replacement and first addition must agree where both are given; both must be given if it is fed by another name, or keeps its own values and is appended to; the addition must be given if it is renamed back to itself and appended to |
| `Base64.DecodeEncode` | kong/plugins/attest/sdk/mybase64.py:11-12 | decoding the padded encoding gives back the bytes |
| `Base64.EncodeDecode` | kong/plugins/attest/sdk/mybase64.py:11-12 | encoding what a string decodes to gives back the string, so each byte sequence has one encoding |
| `Base64.EncodeExactly` | kong/plugins/attest/sdk/mybase64.py:11-12 | every character of the encoding: the letter for its six bits of the group's 24-bit number, or padding |
| `Base64.CharOfAlphabet` | kong/plugins/attest/sdk/mybase64.py:11-12 | the letters are those of table 1 of RFC 4648 |
| `Base64.EncodeShape` | kong/plugins/attest/sdk/mybase64.py:11-18 | the strip removes exactly the 0, 1 or 2 padding characters that the length calls for, and no "=" is left |
| `Base64.UnpaddedLength` | kong/plugins/attest/sdk/mybase64.py:17-20 | the output has ceil(4n/3) characters, never 1 modulo 4, and lacks as many as the padding had |
| `Base64.RepadDecodes` | kong/plugins/attest/sdk/mybase64.py:8-20 | padding the output to a multiple of 4 gives back the encoding, and decoding that the bytes |
| `Base64.OutputsExactly` | kong/plugins/attest/sdk/mybase64.py:8-20 | a string is an output if and only if it has no "=" and decodes after padding |
| `Percent.FromUtf8Utf8` | kong/plugins/api-version/sdk/decrypt.py:19-21 | decoding the UTF-8 bytes of any string gives back the string |
| `Percent.UnescapeAll` | kong/plugins/api-version/sdk/decrypt.py:19-21 | percent-escaped bytes are read back in front of any text |
| `Percent.UnquoteQuoted` | kong/plugins/api-version/sdk/decrypt.py:19-21 | a quoted string is undone in front of any text, so quoting cancels inside a longer string |
| `Signing.UnquoteEncoded` | kong/plugins/api-version/sdk/decrypt.py:19-21 | unquoting the whole encoded form gives the bytes of the plain join |
| `Signing.SortStrIsPlain` | kong/plugins/api-version/sdk/decrypt.py:17-21 | for every map the result is the plain `&`-join of `key=value` in key order without None entries |
| `Signing.SortStrAscends` | kong/plugins/api-version/sdk/decrypt.py:17-21 | said without sorting: the result joins the one list that holds exactly the parameters with a value and whose keys ascend by code point |
| `Sorting.BeforeIff` | kong/plugins/api-version/sdk/decrypt.py:20-20 | the order of keys: a proper prefix first, else the smaller character at the first difference |
| `Signing.OrderIrrelevant` | kong/plugins/api-version/sdk/decrypt.py:17-21 | it depends only on the map with None entries dropped, not on insertion order |
| `Signing.ReadPlainIff` | kong/plugins/api-version/sdk/decrypt.py:17-21 | for all pairs: splitting the joined text at "&" and cutting each piece at its first "=" gives the pairs back if and only if no key has "=" or "&" and no value "&" |
| `Signing.ReadSortStrIff` | kong/plugins/api-version/sdk/decrypt.py:17-21 | for every map: reading its text gives the sorted parameters back under exactly that condition |
| `Signing.SortStrTellsMap` | kong/plugins/api-version/sdk/decrypt.py:17-21 | so over such maps equal texts mean equal maps, None entries dropped |
| `Signing.TextTellsMapIff` | kong/plugins/api-version/sdk/decrypt.py:17-21 | for every map: no other map has its text if and only if it has no parameter, or one without "=" in key and value |
| `Signing.SeparatorInValueCollides` | kong/plugins/api-version/sdk/decrypt.py:17-21 | a value that goes on with "&" and a later key's pair gives the same text as the two pairs |
| `Signing.SignedTextIsSortStr` | kong/plugins/api-version/sdk/decrypt.py:34-43 | for every payload, None included, the signed text is appid, then payload if given, then timestamp |
| `Signing.RecomputeSent` | kong/plugins/api-version/sdk/decrypt.py:54-58 | dropping the signature from what is sent, replacing the payload by its sorted text and canonicalising gives exactly the signed text |
| `Signing.Dict.DeepCopy` | kong/plugins/api-version/sdk/decrypt.py:31-32 | a fresh object with the same items |
| `Signing.BaseFields` | kong/plugins/api-version/sdk/decrypt.py:35-37 | the map filled key by key |
| `Signing.AddSign` | kong/plugins/api-version/sdk/decrypt.py:42-55 | signs the canonical text of the fields and appends the signature |
| `Signing.PayloadFields` | kong/plugins/api-version/sdk/decrypt.py:38-57 | the payload's text is signed, then the object takes its place without moving |
| `Signing.PrepareParams` | kong/plugins/api-version/sdk/decrypt.py:24-58 | returns the fields to send, in order, with the signature of the signed text and a fresh copy of the payload; nothing of the caller's is modified |
| `Hooks.Registry.constructor` | kong/hooks.lua:4-4 | no hooks |
| `Hooks.Registry.RegisterHook` | kong/hooks.lua:38-51 | appends the hook to its name's list and changes no other; registered lists are never empty |
| `Hooks.Registry.ClearHooks` | kong/hooks.lua:69-71 | no hooks again |
| `Hooks.Registry.RunHook` | kong/hooks.lua:54-66 | the chain's result, or the first argument for an unknown name, or an error for a final nil; every low-level hook is called exactly once and an ordinary one exactly when the accumulator is unset or has a truthy first value, in order |
| `Hooks.ChainSnoc` | kong/hooks.lua:61-63 | running one more hook at the end is calling it on the accumulator so far |
| `Hooks.OrdinaryHooks` | kong/hooks.lua:14-21 | with ordinary hooks only the result is that of the first hook with no value or a first one nil or false, else of the last |
| `Hooks.CalledUpToFirstFailure` | kong/hooks.lua:14-21 | and a hook is called if and only if no earlier one fails |
| `Hooks.LowLevelDecides` | kong/hooks.lua:31-48 | what runs before a low-level hook matters only through what the hook makes of it |
| `Hooks.UnpackDefined` | kong/hooks.lua:61-65 | the final unpack fails if and only if the last hook is a low-level one that returned nil |

## Left out

- The insides of the semaphore, of the lock library, of `pcall` and of the test for a phase that can yield. How long a wait lasts is left open: it may end or time out at any moment. An expiry of 0 means never; a call with a negative expiry never gets its lock (the library's own error for it is just another error answer). Whether a phase can yield is an input of each call.
- The elapsed time that `with_worker_mutex` passes to `fn`, the arguments of `error` other than the message, and all logging.
- A crash of a coroutine in the middle of `with_coroutine_mutex`. A crash of a worker is modelled for `with_worker_mutex`.
- NeverStuck: fairness between waiters of one name is not modelled; the lemma says that some call can go on, and `DrainIsBounded` that this cannot last for ever.
- Message texts, colours, timing, stack-frame positions and hints of expect.py, and errors raised while a message template is filled in. A recorded failure holds path, attribute and value.
- Verbs: lists hold strings or versions; a version is the string it is made of, compared by a given order, and `equal` on lists and dictionaries compares what is written (True and 1 are equal at the top). `contain` with a dictionary as its argument on a non-empty list is taken to raise.
- GreaterThanMeansAll and LessThanMeansAll: the order is any strict weak order; that version numbers have one is not proved.
- Names that Python finds before `__getattr__` is asked (real methods and fields of `ExpectChain`) are not `Dot` operations; `to` does nothing.
- The `diff` process: whether the golden file differs is an input. Its options ignore changes in blank lines and spaces at line ends, so what `diff` accepts is coarser than equality of texts.
- How files are found, how ELF and DWARF data are read, `config.transform`, and the final encoding of the manifest as UTF-8. An option without effect on the output (`merge_rpaths_runpaths`) has no field.
- ParsePrintIff: is about the parser given here; keys that a cleverer parser could tell apart, with a colon among their first ten characters say, do not occur in `explain`.
- SameEntriesSameFile: a link's directory flag is never shown, and a scalar is its text, so an OpenSSL version "None" is not told from a missing one.
- What the dispatched tests do (local responses, properties, the outgoing call) beyond the action they end with; whether the host refuses the call is an input. A run of `PhaseGate` ends at a trap, and nothing else changes request headers between callbacks.
- Repeated values of one header reach the filters as one value, the first; the host's own choice, limits and forbidden names are not modelled. Case is ASCII case.
- JSON text, the clock, HMAC and the HTTPS request. The time stamp, the signature function and the bytes to encode are inputs.
- Signing: payload values are texts or None, as `str` would give them. Strings hold Unicode scalar values only, so unpaired surrogates, which Python refuses to encode, cannot occur. An invalid UTF-8 sequence becomes one replacement character a byte, which can differ from Python; encoded text never has one.
- Hooks: hook functions return and do not raise or register hooks, and a low-level hook returns nil or a packed array. That a hook is a function is a matter of types here.
- `KeyValuePair` and `TestConfig` parsing, the command-line scripts, and the fixed tables of `config.py` and `suites.py`: parsing of test input, input and output around the functions modelled, and data without behaviour.
