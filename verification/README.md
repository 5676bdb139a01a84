# Verification model of the MCP execution stack

This project models, in Dafny 4.11, how a WebAssembly MCP tool is found, checked,
run, retried and rendered, and proves what that machinery keeps. It covers the
runner and its worker threads, the two retry loops above it, the shared OAuth token
cache, the local and HTTP tool stores, the path check, the digest gate, the adapter's
request parser, OAuth gate and renderer, and the secret-requirement normaliser.

`dafny verify dfyconfig.toml` checks the whole project. Automatic induction is switched
off throughout; every induction is written out.

## How it is organised

| file | what it models |
|---|---|
| `Prelude.dfy`, `Text.dfy`, `TextLaws.dfy`, `Json.dfy`, `Errors.dfy` | shared datatypes, the string operations used by the classifiers and what they compute, JSON values, requests and errors |
| `Execution.dfy` | one guest run and the layers that turn it into an answer; the guest is arbitrary |
| `Classification.dfy`, `AttemptEnds.dfy` | what the composed layers do, stated on what the guest did |
| `Retry.dfy`, `ExecRetries.dfy`, `Invoke.dfy`, `Backoff.dfy` | the two retry loops and their pauses |
| `Protocol.dfy` | the transition system of caller, detached workers, one-shot channels and clock |
| `Refinement.dfy` | both loops on top of that transition system |
| `TokenCache.dfy`, `TokenCalls.dfy` | the token cache under any number of threads and as one object, and how often it calls its broker |
| `FileTree.dfy`, `Lexical.dfy`, `PathSafety.dfy`, `Confinement.dfy` | pathname resolution with symbolic links (IEEE Std 1003.1-2017, Base Definitions, section 4.13), how a path is read, the root check, and where an accepted path leads |
| `Digest.dfy`, `StableSort.dfy`, `Store.dfy`, `Download.dfy`, `Gate.dfy` | streaming digest, listing, fetching, the download cache, resolve and verify before running |
| `Requests.dfy`, `Adapter.dfy`, `Render.dfy` | the adapter's parser, OAuth gate with its effect trace, and result renderer |
| `Describe.dfy` | secret requirements and their ordered deduplication |

Oracles stand for everything outside: a `Guest` value says what each step of a run
would observe, a `Router` answers arbitrarily and may answer differently each time, a
`Try` says how far a download attempt gets, `Reader.Read` may return short reads or
fail, and `Backend`, `broker` and `jitter` are arbitrary functions. No field of any of
them is constrained unless a lemma says so.

## Where the code and its documents differ

The model follows the code in each case.

- `greentic-mcp/ABI.md:26` and `greentic-mcp/README.md:74` say that traps are
  transient and retried. The code retries a trap exactly when the input carries a
  marker or it is a string call's and its text mentions "transient":
  `Classification.TrapIsRetriedIff`, with an instance in `Classification.TrapNotRetried`.
- `exec` reports a transient failure with the bare code `transient`. The executor
  retries it, the retry helper does not. `Classification.TransientTestsDisagree` gives
  the exact set of errors on which the two tests differ.
- `greentic-mcp/src/auth.rs:18` says the cache avoids repeated broker calls for the
  same tuple. Concurrent misses do repeat them: `TokenCalls.ConcurrentMissesCallTwice`.
  `TokenCalls.NoRepeatedCallIff` names the two ways this happens, and
  `TokenCalls.BeginIsSafeIff` what a caller must see before a call to rule it out.
- `crates/mcp-exec/src/path_safety.rs:5-6` promises that an accepted path stays within
  the root. Its spelling does; opening it may not, in two ways: after a trailing slash
  (`Confinement.ResultMayOpenOutside`) and when the candidate needs more link expansions
  than are allowed (`Confinement.PlainResultMayOpenOutside`). `Confinement.EscapesIff`
  proves that there are no others.
- A path accepted with a missing leaf may name a link, and then normalising it again
  does not give it back. `PathSafety.MissingTarget` says exactly when;
  `PathSafety.LinkMayBeAccepted` is such a path.
- `crates/mcp-adapter/README.md:36` speaks of an unknown `operation` value used as the
  tool. In the code that is the operation name of the runtime; an unknown `operation`
  field of the payload is rejected: `Requests.RejectedRequest`.

## Model

| member | source | states |
|---|---|---|
| Classification.RunSyncOk | crates/mcp-exec/src/runner.rs:181-362 | a run succeeds exactly with a reply of the guest or of its router; the router's answer holds its result, its question or its refusal |
| Classification.RunSyncReply | crates/mcp-exec/src/runner.rs:241-362 | the same over all replies, with the transient reply codes singled out |
| Classification.RunSyncErr | crates/mcp-exec/src/runner.rs:228-350 | a missing action arises exactly from a flagged mock without that action; without a marker `ToolTransient` arises exactly from a string call that traps with a text mentioning "transient" |
| Classification.ToolTransientMentionsTransient | crates/mcp-exec/src/runner.rs:94-106 | every `ToolTransient` a worker sends carries a text that mentions "transient", whatever the case |
| Classification.MarkedAttempt | greentic-mcp/src/executor.rs:198-260 | on marked input every end is retried except a missing action and a reply without a transient code; a time-out is retried |
| Classification.UnmarkedAttempt | greentic-mcp/src/executor.rs:198-260 | on other input a time-out is final, and the retried ends are exactly a transient reply code and a non-router trap mentioning "transient" |
| Classification.SuccessfulAttempt | crates/mcp-exec/src/lib.rs:103-121 | an attempt succeeds exactly if the router completed or asks back, or the guest gave a reply without an error code; its bytes are that answer printed |
| Classification.RefusedAttempt | crates/mcp-exec/src/router.rs:138-157 | a call the router refuses ends in the tool's own error MCP_TOOL_ERROR with the refusal's text, tool and status as payload, and is final |
| AttemptEnds.ReplyEnds | crates/mcp-exec/src/lib.rs:103-121 | a reply is the result, or with an error code the payload of the tool's error, or says there is no such action |
| AttemptEnds.ErrorCodeIs | crates/mcp-exec/src/lib.rs:103-107 | the error code is the text `code` of the member `error` |
| AttemptEnds.MissingActionEnds | crates/mcp-exec/src/lib.rs:80-85 | a mock without the action ends in not-found |
| AttemptEnds.RouterSuccessEnds | crates/mcp-exec/src/router.rs:76-88 | a router that completes or asks back is a success with its body |
| AttemptEnds.LacksRouterIff | crates/mcp-exec/src/router.rs:26-37 | which instantiation failures mean that there is no router |
| AttemptEnds.PlainFailureEnds | crates/mcp-exec/src/runner.rs:189-215 | bytes that are neither component nor mock, and link failures, are runner errors with their own text, marked or not |
| AttemptEnds.PastRouterEnds | crates/mcp-exec/src/runner.rs:259-362 | so are a failed instantiation, a mistyped export, a late answer and an answer that is not JSON |
| AttemptEnds.StringCallEnds | crates/mcp-exec/src/runner.rs:260-350 | a trap or panic of a string call is transient on marked input, and a trap that says so on any; otherwise internal; what the guest said stays at the end of the text |
| AttemptEnds.RouterTrapEnds | crates/mcp-exec/src/runner.rs:241-255 | a trapping router is transient on marked input and internal on any other, with its own text |
| AttemptEnds.NoExportEnds | crates/mcp-exec/src/runner.rs:314-324 | a component with none of the exports is transient on marked input and a Wasmtime error on any other |
| AttemptEnds.UnwoundEnds | crates/mcp-exec/src/runner.rs:94-106 | a worker that unwinds reports its panic, as transient on marked input |
| AttemptEnds.EveryGuestEnds | crates/mcp-exec/src/runner.rs:181-362 | these cases leave out no guest |
| AttemptEnds.ToolIsTold | greentic-mcp/src/executor.rs:202-215 | a tool's error keeps its code and its message, or its payload without one |
| AttemptEnds.FatalIsTold | greentic-mcp/src/executor.rs:216-243 | a final time-out is told as one, any other final error as an execution failure |
| AttemptEnds.MarkerIff | crates/mcp-exec/src/runner.rs:371-381 | an input is marked by a `fail` or `message` text that contains the word or a `flaky` that is true, and by nothing else |
| Classification.TransientFailureSaysSo | greentic-mcp/src/executor.rs:198-244 | a retried failure always says "transient" to its reader; a final one is never reported as transient |
| Classification.TransientTestsDisagree | greentic-mcp/src/lib.rs:111-117 | the two transient tests differ on exactly three kinds of error |
| Classification.RetryHelperTest | greentic-mcp/src/lib.rs:111-117 | the helper retries exactly time-outs, the caller's or a late string call's, and non-router replies with a dotted transient code, so never a trap or a panic |
| Classification.TrapIsRetriedIff | crates/mcp-exec/src/runner.rs:241-350 | a trap of a string call, of the router or of instantiation is retried if and only if the input is marked or it is a string call's and mentions "transient" |
| Classification.TrapNotRetried | greentic-mcp/ABI.md:26 | a concrete trap that is not retried |
| Protocol.ReachInv | crates/mcp-exec/src/runner.rs:82-118 | the invariant holds after every interleaving |
| Protocol.AttemptsAreSound | crates/mcp-exec/src/runner.rs:82-118 | at most the allowed number of workers is spawned, each sends at most once, and attempt k ends with worker k's own answer to request k, or past its deadline with no answer waiting |
| Protocol.EndIsRecorded | crates/mcp-exec/src/runner.rs:110-118 | what each of the caller's steps records as the end of an attempt |
| Protocol.HistoryIsStable | crates/mcp-exec/src/runner.rs:107-118 | no step rewrites an ended attempt or a computed answer, so a late answer stays with its own attempt |
| Protocol.DisconnectNeverHappens | crates/mcp-exec/src/runner.rs:115-117 | the branch for a closed channel is unreachable |
| Protocol.PausesAreKept | greentic-mcp/src/lib.rs:90-104 | consecutive attempts are a whole pause apart in every interleaving |
| Protocol.FinishedStopsCorrectly | greentic-mcp/src/lib.rs:68-106 | a finished run saw only retryable ends before its last and did not stop early |
| Protocol.LiveWorkersBound | crates/mcp-exec/src/runner.rs:82-118 | an unfinished worker is the one waited for or one that timed out, so live workers are at most the time-outs plus one while waiting |
| Protocol.NoOverlapWhenTimeoutsAreFinal | greentic-mcp/src/executor.rs:43-71 | if time-outs are not retried, no attempt starts while a worker is unfinished |
| Protocol.AllWorkersMayRunAtOnce | greentic-mcp/src/lib.rs:68-106 | if they are retried, some interleaving has all allowed workers running at once |
| Protocol.CallerAlwaysProceeds | crates/mcp-exec/src/runner.rs:110-118 | the caller is never stuck: time alone enables its next step |
| Retry.StopIsUnique | greentic-mcp/src/lib.rs:68-106 | where a bounded retry loop stops is determined by its backend |
| TextLaws.MentionsIff | crates/mcp-exec/src/runner.rs:229 | a text mentions "transient" if some stretch of it is that word, each letter in either case |
| TextLaws.TrimIs | crates/mcp-adapter/src/lib.rs:573 | trimming takes away the white space at both ends and nothing else |
| ExecRetries.MaxAttempts | greentic-mcp/src/lib.rs:68 | the number of attempts is the larger of one and the configured maximum |
| ExecRetries.AtAttempt | greentic-mcp/src/lib.rs:73-76 | only the tenant's attempt counter changes, and a missing tenant stays missing |
| ExecRetries.ExecWithRetries | greentic-mcp/src/lib.rs:63-109 | calls run up to the first outcome that is not retryable or the maximum, each on the request with its own attempt number, pausing in between; the last outcome is returned; the loop never runs out |
| ExecRetries.RunIsUnique | greentic-mcp/src/lib.rs:63-109 | that contract determines every call, pause and result from the backend |
| ExecRetries.RunMeaning | greentic-mcp/src/lib.rs:68-117 | a run, without the loop's own functions: which errors are retried, at most max(1, max_attempts) calls, pause i is base·i if that is below 2^64 seconds and the base otherwise, and the last outcome is the result |
| ExecRetries.EndsAreSeen | greentic-mcp/src/lib.rs:78-96 | the loop sees the end of `exec` on the worker's answer or the time-out, its error if it gave up before, or a lost task |
| ExecRetries.OverflowPersists | greentic-mcp/src/lib.rs:97-101 | once a pause product overflows, all later ones do |
| ExecRetries.TotalPauseBound | greentic-mcp/src/lib.rs:97-104 | n calls pause at most base·n(n−1)/2 in all, with equality exactly when base·(n−1) is below 2^64 seconds |
| ExecRetries.PauseFallsShort | greentic-mcp/src/lib.rs:97-101 | a pause that fell back to the base is shorter than the product it replaced |
| ExecRetries.RunPauses | greentic-mcp/src/lib.rs:97-104 | every run of the loop pauses for at most base·n(n−1)/2 over its n calls, with equality exactly when base·(n−1) is below 2^64 seconds |
| Backoff.JitteredIsNearest | greentic-mcp/src/retry.rs:15-17 | within one millisecond and the 64-bit cap a delay is the whole number nearest to the exact product, a half rounded up; outside it is the bound |
| Backoff.ScaledIs | greentic-mcp/src/retry.rs:8-13 | no multiplication saturates: the scaled base is max(base,1)·2^min(a,16), capped at 2^64−1 |
| Backoff.DelayRange | greentic-mcp/src/retry.rs:8-18 | a delay lies between half and three halves of the scaled base, rounded, floored at one and capped |
| Backoff.GrowsOverTwoAttempts | greentic-mcp/src/retry.rs:8-18 | below the cap the delay two attempts later is at least as long, whatever the two draws |
| Backoff.MayShrinkOverOneAttempt | greentic-mcp/src/retry.rs:8-18 | one attempt later it can be shorter |
| Backoff.TotalDelay | greentic-mcp/src/executor.rs:61-68 | the first n uncapped delays sum to between b(2^n−1)/2 and 3b(2^n−1)/2 + n/2 |
| Invoke.Invoke | greentic-mcp/src/executor.rs:37-74 | attempts run up to the first success or final failure or min(retries+1, 2^32−1), one pause fewer than attempts; 32-bit counters never overflow and the trailing error is never returned |
| Invoke.RunIsUnique | greentic-mcp/src/executor.rs:37-74 | that contract determines every attempt, pause and result |
| Invoke.RunMeaning | greentic-mcp/src/executor.rs:37-74 | a run, without the loop's own functions: one attempt and the configured retries, none by default, all but the last transient; the result is the last attempt's bytes parsed, with their `structuredContent`, or its failure |
| Invoke.EndsAreSeen | greentic-mcp/src/executor.rs:76-93 | the loop sees the printed reply or the mapped error of an attempt, and a lost task as a final error |
| Invoke.RunPauses | greentic-mcp/src/executor.rs:61-68 | below the cap the n pauses of a run take between b(2^n−1)/2 and 3b(2^n−1)/2 + n/2 milliseconds in all |
| Invoke.TransientIffExhausted | greentic-mcp/src/executor.rs:61-64 | a transient error is returned exactly when all allowed attempts were made and all were transient, and it says so |
| Invoke.UnmarkedTimeoutIsFinal | greentic-mcp/src/executor.rs:222-228 | on unmarked input an attempt that times out is the last and its time-out is the result |
| Refinement.RetriesRefineLoop | greentic-mcp/src/lib.rs:63-109 | every finished interleaving under `exec_with_retries` is a run of the sequential loop; each answered turn was answered to its own request, and the recorded times keep every turn's pause |
| Refinement.InvokeRefinesLoop | greentic-mcp/src/executor.rs:37-74 | every finished interleaving under `invoke` is a run of its sequential loop, with answers to its request and recorded times that keep every turn's pause |
| Refinement.InvokeNeverOverlaps | greentic-mcp/src/executor.rs:43-71 | under `invoke` on unmarked input no attempt starts while an earlier worker is unfinished |
| Refinement.RetriesMayOverlap | greentic-mcp/src/lib.rs:68-106 | under `exec_with_retries` all allowed workers may be unfinished at once |
| Refinement.MarkedInvokeMayOverlap | greentic-mcp/src/executor.rs:43-71 | under `invoke` on marked input likewise |
| TokenCache.TokensAreIssued | greentic-mcp/src/auth.rs:32-45 | every cached or returned token was issued by the broker for exactly that key, so errors are never cached; a returned error is the broker's answer to that caller's own call |
| TokenCache.KeysNeverLeave | greentic-mcp/src/auth.rs:43 | keys never leave, and only an insertion changes a value, at its own key |
| TokenCalls.BrokerCalls | greentic-mcp/src/auth.rs:38-43 | broker calls for a key are the lookups before it first entered the cache, less the calls still to be made; each such lookup is still on its way to the cache, failed, or led there |
| TokenCalls.NoRepeatedCallIff | greentic-mcp/src/auth.rs:18-22 | at rest, the broker was called at most once for a key exactly when no two threads were between a miss and its insertion at once, and none was there after a broker error |
| TokenCalls.OneCallIfCached | greentic-mcp/src/auth.rs:32-45 | if every call for a key after the first begins when the key is cached, the broker is called at most once for it |
| TokenCalls.OneCallAfterToken | greentic-mcp/src/auth.rs:32-45 | so it is if every later call begins after one has returned a token |
| TokenCalls.BeginIsSafeIff | greentic-mcp/src/auth.rs:32-45 | the condition is exact: after such a history, one more call cannot lead to a second broker call, whatever the interleaving, if and only if it is the first for the key or the key is cached |
| TokenCalls.ConcurrentMissesCallTwice | greentic-mcp/src/auth.rs:38-43 | two concurrent misses call twice and one thread holds a token that is no longer cached |
| TokenCalls.SequentialSuccessesAtMostOne | greentic-mcp/src/auth.rs:32-45 | if the calls for a key do not overlap each other, the broker succeeds at most once for it, whatever happens to other keys |
| TokenCache.CachedBroker.constructor | greentic-mcp/src/auth.rs:25-30 | a new cache is empty |
| TokenCache.CachedBroker.GetToken | greentic-mcp/src/auth.rs:32-45 | new cache, answer and broker calls of one uninterrupted call |
| TokenCache.CallIsUninterruptedRun | greentic-mcp/src/auth.rs:32-45 | the object's method is a run of the thread protocol with that effect |
| FileTree.WalkConcat | crates/mcp-exec/src/path_safety.rs:16-19 | resolving a joined path is resolving its second part where the first leads, link budget included |
| FileTree.WalkDeterministic | crates/mcp-exec/src/path_safety.rs:19-22 | where a path leads does not depend on the link allowance |
| FileTree.WalkReachesCanonical | crates/mcp-exec/src/path_safety.rs:12-22 | what resolution reaches exists and is not a link |
| FileTree.WalkLiteral | crates/mcp-exec/src/path_safety.rs:12-22 | a canonical place, spelled out, resolves to itself without expanding a link |
| FileTree.SameNodeThroughCanonicalRoot | crates/mcp-exec/src/store.rs:112-121 | an entry named under a directory's path and under its canonical path is the same node |
| Lexical.PlainWayIsSpelled | crates/mcp-exec/src/path_safety.rs:12-22 | a path that meets no link leads where it is spelled: a name added for each name, one dropped for each `..` |
| Lexical.LinkIsItsTarget | crates/mcp-exec/src/path_safety.rs:12-22 | a link in a path may be replaced by its target, relative to its directory or from the top, for one expansion |
| Lexical.WalkFails | crates/mcp-exec/src/path_safety.rs:12-22 | what is missing, below a file, or behind a link too many is not found |
| Lexical.ReadsThePlace | crates/mcp-exec/src/resolve.rs:26 | a place is read as the content of the file there, and as nothing otherwise |
| Lexical.RelativeFromHere | crates/mcp-exec/src/path_safety.rs:12-14 | a relative path is read from the current directory |
| Lexical.PlainCandidate | crates/mcp-exec/src/path_safety.rs:7-43 | a candidate that meets no link is accepted exactly if the place it spells is under the root, as that place, and otherwise escapes |
| Lexical.UpEscapes | crates/mcp-exec/src/path_safety.rs:5-6 | leaving by `..` for a neighbour of the root is refused |
| Lexical.RefusedAtOnce | crates/mcp-exec/src/path_safety.rs:8-14 | absolute candidates and unresolved roots are refused |
| Lexical.MissingTargetIff | crates/mcp-exec/src/path_safety.rs:16-36 | when the target does not resolve, exactly which candidates are accepted, and as what |
| PathSafety.ExistingTarget | crates/mcp-exec/src/path_safety.rs:7-43 | an existing target is accepted exactly when its own place is under the root; the result is that place, free of links, opens the same node and normalises to itself |
| PathSafety.MissingTarget | crates/mcp-exec/src/path_safety.rs:20-36 | otherwise the result's parent is canonical, and normalising again gives it back exactly unless it is a link that resolves |
| PathSafety.LinkMayBeAccepted | crates/mcp-exec/src/path_safety.rs:20-36 | such a link exists and is accepted |
| Confinement.AcceptedIsConfinedIff | crates/mcp-exec/src/path_safety.rs:5-43 | an accepted path is spelled under the canonical root, and opening it stays within the root unless the target does not resolve and the result is a link that leads outside |
| Confinement.EscapesIff | crates/mcp-exec/src/path_safety.rs:5-43 | told on the candidate: an accepted path leads outside exactly when the candidate ends in a slash or a dot and, without it, opens a regular file outside the root, or when it runs out of link expansions and its last name, looked up in the canonical parent, opens outside; in the second case it leads outside once more links are allowed |
| Confinement.PlainCandidateIsConfinedIff | crates/mcp-exec/src/store.rs:112-119 | a candidate that ends in neither slash nor dot is confined if and only if it does not run out of links in that way |
| Confinement.ResultMayOpenOutside | crates/mcp-exec/src/path_safety.rs:19-27 | an accepted path that opens a file outside the root |
| Confinement.PlainResultMayOpenOutside | crates/mcp-exec/src/path_safety.rs:19-27 | an accepted path without a trailing slash that opens a file outside the root, for lack of links |
| Digest.Reader.Read | crates/mcp-exec/src/store.rs:176 | a read returns any non-empty part of what is left, or fails, and zero only at the end |
| Digest.ComputeSha256 | crates/mcp-exec/src/store.rs:169-183 | whatever the sequence of short reads, the streaming digest is the one-shot digest of the whole content, and it fails exactly when a read has failed |
| StableSort.SortByNameIsStable | crates/mcp-exec/src/store.rs:130 | sorting orders by name and keeps the items of each name in their order |
| TextLaws.StrLeIff | crates/mcp-exec/src/store.rs:130 | the order of names is that of the first difference, a name coming after its prefixes |
| StableSort.StableSortIsUnique | crates/mcp-exec/src/store.rs:130 | there is only one such result, so any stable sort gives it |
| StableSort.StableSortIsPermutation | crates/mcp-exec/src/store.rs:130 | it holds the same items |
| StableSort.FindAfterSort | crates/mcp-exec/src/store.rs:134-140 | the first match after sorting is the first match before, even when names collide |
| Store.WasmNameIff | crates/mcp-exec/src/store.rs:97-102 | the kept names are exactly a non-empty stem, a dot, and "wasm", each letter in either case |
| Store.SafeEntry | crates/mcp-exec/src/store.rs:112-119 | a kept entry that passes the path check is the file it names |
| Store.ListLocal | crates/mcp-exec/src/store.rs:76-132 | the listing fails exactly when the directory is unreadable or a kept entry fails the path check, and is otherwise the stable sort of the kept entries, each with the digest of its file unless reading that fails |
| Store.FetchLocal | crates/mcp-exec/src/store.rs:134-140 | fetching by name is the first kept entry of that stem in directory order |
| Store.FirstInDirectory | crates/mcp-exec/src/store.rs:87-140 | the entry so found is the first of the directory's names that is a regular file with that stem and extension |
| Store.DigestIsOfBytesRead | crates/mcp-exec/src/store.rs:120-127 | the digest recorded through the checked path is that of the bytes read through the display path |
| Download.TempIsNotDest | crates/mcp-exec/src/store.rs:220-222 | the temporary name never is the cached name |
| Download.TempName | crates/mcp-exec/src/store.rs:220 | it is the tool's name with the extension `download` |
| Download.AttemptsAre | crates/mcp-exec/src/store.rs:194-206 | one to three attempts, all but the last failed; a cached file is the last attempt's whole body |
| Download.OneFetch | crates/mcp-exec/src/store.rs:142-167 | a hit makes no request and changes nothing; a miss makes at most three and returns the third error if all fail; no other file is touched |
| Download.FetchEnds | crates/mcp-exec/src/store.rs:142-167 | how a fetch ends, for every name, set-up error, client error, directory and three attempts: what content it gives, or which error |
| Download.CachedIsOneCompleteBody | crates/mcp-exec/src/store.rs:209-225 | after any history with failures and crashes, from any directory without it, a cached file is the complete body of the response to one request that was made |
| Download.CachedForGood | crates/mcp-exec/src/store.rs:158-160 | once cached, the directory never changes again and no request is made |
| Download.HttpStore.DownloadOnce | crates/mcp-exec/src/store.rs:209-225 | directory, end and request count of one attempt |
| Download.HttpStore.DownloadWithRetry | crates/mcp-exec/src/store.rs:185-207 | directory, end and requests of the retry loop, and a pause of 2, 4, 6 seconds after each failure |
| Download.HttpStore.FetchHttp | crates/mcp-exec/src/store.rs:142-167 | directory, end and requests of a whole fetch |
| Gate.RunsOnlyWhatIsPermitted | crates/mcp-exec/src/verify.rs:16-38 | bytes reach the runner exactly when resolved, permitted and the engine builds; a pinned component runs only its digest's bytes, even with unverified artifacts allowed; and which error is told otherwise |
| Gate.ExecLocal | crates/mcp-exec/src/lib.rs:58-76 | on a local store and unchanged tree, what runs is the first kept entry of that name, is permitted and lies under the root; what is not permitted does not run |
| Gate.ExecHttp | crates/mcp-exec/src/resolve.rs:19-43 | on the HTTP store, bytes run exactly if the store serves them, cached or just stored, and they are permitted |
| Requests.AcceptedRequest | crates/mcp-adapter/src/lib.rs:458-501 | an accepted request has the operation, tool and arguments the contract means; arguments are an object and a call has a tool |
| Requests.RejectedRequest | crates/mcp-adapter/src/lib.rs:525-570 | a request is rejected, as a configuration error, in exactly four cases |
| Requests.OperationIs | crates/mcp-adapter/src/lib.rs:572-578 | the operations are the words "list" and "call", in any case, between any white space |
| Requests.ShorthandIsExplicitCall | crates/mcp-adapter/src/lib.rs:503-517 | the shorthand is the explicit call of the tool of that name with that payload |
| Adapter.MetaToValue | crates/mcp-adapter/src/lib.rs:804-812 | each key holds the last value given for it, and no other key is there |
| Adapter.MetaObjectIsUnique | crates/mcp-adapter/src/lib.rs:804-812 | only one object does |
| Adapter.MetaMember | crates/mcp-adapter/src/lib.rs:804-816 | a member is the value of the last entry of its key, parsed if it is JSON |
| Adapter.SecretKeyChoice | crates/mcp-adapter/src/lib.rs:442-456 | a required token entry wins wherever it stands; otherwise only the first required entry is looked at |
| Adapter.TokenEntryIff | crates/mcp-adapter/src/lib.rs:442-456 | what makes an entry required, and a token entry |
| Adapter.ClientIdChoice | crates/mcp-adapter/src/lib.rs:354-366 | the client id's key is the first setup field's that ends in `client_id` |
| Adapter.GateMeaning | crates/mcp-adapter/src/lib.rs:273-330 | a tool that declares OAuth is called only if it was given a token with some character that is not white space, or its secret is stored; every other tool is called |
| Adapter.HasTokenIff | crates/mcp-adapter/src/lib.rs:291-299 | the token argument is the declaration's own or `access_token`, and blank counts as absent |
| Adapter.LookUpOrSignIn | crates/mcp-adapter/src/lib.rs:318-424 | without a token the gate opens exactly when the token's secret is stored, and otherwise yields the card for the client id found, or an error |
| Adapter.OauthSignInCard | crates/mcp-adapter/src/lib.rs:273-431 | the gate opens exactly when the tool is unknown, declares no OAuth, was given a token or has one stored; secrets are asked for only by an unauthenticated OAuth tool |
| Adapter.HandleInvoke | crates/mcp-adapter/src/lib.rs:238-266 | a parse error has no effect; a list lists once; a call is a call outcome of the request's own tool and arguments |
| Adapter.CallsToolIff | crates/mcp-adapter/src/lib.rs:246-264 | the tool is called at most once, exactly when the tools can be listed and nothing stands in the way, and only then is there a response |
| Adapter.FindToolIsFirst | crates/mcp-adapter/src/lib.rs:281 | the tool of a name is the first of that name |
| Adapter.CallErrors | crates/mcp-adapter/src/lib.rs:832-858 | a tool's error keeps its text and names the tool, with a status for each kind |
| Render.RenderContentBlock | crates/mcp-adapter/src/lib.rs:690-789 | the content entry reads back to the block, and the message is that entry without the hidden keys |
| Render.AnnotationsReadBack | crates/mcp-adapter/src/lib.rs:791-802 | rendered annotations read back |
| Render.RenderBlocks | crates/mcp-adapter/src/lib.rs:622-638 | content and messages stand one for one, in order; result annotations are those of the first block that has any |
| Render.RenderingKeepsTypes | crates/mcp-adapter/src/lib.rs:690-789 | every message field, its type included, equals that of its content entry |
| Render.RenderingIsFaithful | crates/mcp-adapter/src/lib.rs:622-638 | two block lists with the same content rendering are equal |
| Render.RenderToolResult | crates/mcp-adapter/src/lib.rs:622-655 | the whole answer holds such lists, the metadata object and the result's other fields under their keys, and nothing else |
| Describe.StringIsKeyObject | crates/mcp-exec/src/describe.rs:195-206 | a text entry is read like the object with just that key |
| Describe.ObjectEntry | crates/mcp-exec/src/describe.rs:207-259 | when an object entry is read and what each field becomes: `required` wins over `optional`, a nested scope over an inline one over the runtime scope, text is the default format |
| Describe.EntryExamples | crates/mcp-exec/src/describe.rs:237-247 | the examples are the array's entries, a text as it is and anything else printed |
| Describe.FormatWords | crates/mcp-exec/src/describe.rs:277-285 | the words for each format, in any case, between any white space |
| Describe.EntriesAre | crates/mcp-exec/src/describe.rs:178-193 | the entries of an array, of an object, and of anything else |
| Describe.Dedup | crates/mcp-exec/src/describe.rs:306-321 | the loop over a set of seen identities computes the specified deduplication |
| Describe.IdentityIs | crates/mcp-exec/src/describe.rs:312-317 | two requirements count as one exactly if their keys and their scopes are equal |
| Describe.DedupedKeepsIdentities | crates/mcp-exec/src/describe.rs:306-321 | no identity is lost or invented |
| Describe.DedupedIsDistinct | crates/mcp-exec/src/describe.rs:306-321 | no identity appears twice |
| Describe.DedupIdempotent | crates/mcp-exec/src/describe.rs:306-321 | deduplicating twice changes nothing |
| Describe.DedupConcat | crates/mcp-exec/src/describe.rs:306-321 | deduplicating a longer list only appends what is new |
| Describe.DedupedAreFirstEntries | crates/mcp-exec/src/describe.rs:178-193 | the result holds, in order, the first readable entry of each identity and misses none |
| Describe.FirstEntriesAreUnique | crates/mcp-exec/src/describe.rs:178-193 | only one list does |
| Describe.SecretRequirements | crates/mcp-exec/src/describe.rs:161-176 | the descriptor chosen, the legacy flag, and a distinct, complete list of its first entries |
| Describe.StringEntryIsKeyObject | crates/mcp-exec/src/describe.rs:195-206 | replacing any text entry by its key object changes nothing |
| Describe.WrappingChangesNothing | crates/mcp-exec/src/describe.rs:178-193 | nor does wrapping the array under either key |

## Left out

- Wasmtime, WASI, TLS, HTTP and key-value hosts, fuel and epochs: replaced by the arbitrary guest.
- The wall-clock check after a call: the guest decides whether it fires; its timer starts after the call.
- The time-out `invoke_blocking` picks: a parameter; the results hold for every time-out.
- JSON and CBOR libraries: JSON values are a datatype; where a lemma needs it, a round trip is assumed of the values it concerns, the request's arguments mostly, and `Json.SomeCodecRoundTrips` shows that any list of values can have it. No law is asked of all values: a number here is any real, and no printer tells all reals apart. A non-finite annotation priority is not captured.
- The SHA-256 function: abstract, with the law that updating with a and then b is updating with a+b; `Digest.SomeShaIsLawful` shows the law can be met.
- The rounding error of 64-bit floats in the backoff: jitter is exact.
- Lower-casing outside ASCII, which neither makes nor breaks the word "transient"; names that are not UTF-8.
- Two processes downloading into one cache directory: they share one temporary name; one downloader at a time is assumed.
- Paths inside the configured name of an HTTP tool: its file is a plain name in the cache directory.
- A directory changing during a listing, an error in the middle of one, and permission errors other than an unreadable directory or file.
- Storage failures while a token call holds the lock, and poisoning of that lock.
- Losing the blocking task of an attempt after its worker started: an attempt is lost before or never.
- The key constructor of the secret types library: an arbitrary partial function.
- The text of the sign-in card's payload, its scheme and its telemetry: the external renderer sees the declaration, the arguments and the client id, and may answer anything.
- Payloads of the adapter that are not JSON objects, tool-list rendering and elicitations.
- `fetch_oauth_token`, `resolve_component_path`, `list_tools`, `describe_tool`'s own calls, protocol versions, configuration, tool maps, composition and both binaries.
