# A model of Bun's scripts and bundler runtime

This project models, in Dafny, the self-contained algorithms of the repository's CI test runner, of the JavaScript
that its bundler puts into every bundle, and of its table generators, and proves what they are for.

| module | what it models |
|---|---|
| `Lpt`, `LptTightness`, `AnyOrderTightness`, `Sharding`, `ShardBalance`, `ShardAgreement` | how a run is divided among shards: every shard computes the whole division alone and keeps its part |
| `OutputFilter` | the filter that takes workflow commands out of live output, chunk by chunk |
| `Limiter` | the concurrency limiter that hands a free slot to the next in line |
| `TestResults` | retries, parallel buckets, and the three lists that every test ends up in |
| `AotDriver`, `AotResults` | the process that compiles and runs many programs and may die with some in its hands |
| `LineCompression` | how the output of a passing test file is shortened in place |
| `XmlText` | the text of JUnit reports, written by one script and read by another |
| `CiTimes` | the times of test files taken from the timestamps of a log |
| `BuildArgs` | the command line of the build script |
| `Completions` | the package names for completions: a binary writer, an index, and the Rust reader that it emits |
| `UnicodeTables`, `GenUnicodeTable` | three-stage tables of code points with shared blocks, packed into words, and the emitted lookup |
| `EsmWrappers`, `Namespaces`, `Base64`, `Disposal` | run-once module wrappers, live namespaces, inlined bytes, and `using` |
| `Lists`, `Bits` | lists, multisets, the stable sort and bitwise operators that the modules share |

Where the source changes variables in place the model does too: a class with the variables of the closure, or a method
with the loop. Each such method is proved against a function, and the theorems are about that function and about every
run of it. The environment is left open: a child process, the interleaving of asynchronous calls, a disposer, an import
graph or a log may be anything.

Some promises turned out to hold only under a condition, which is then proved to be the exact one where it is stated as
"if and only if": the lookup of a Unicode table (false of code point 0), the completions (ASCII names, filed in the
order in which they are sorted), a bucket without a report (no file listed twice), the limiter (a concurrency of at
least 1), a `--key=value` argument (one line), and the error of an import cycle (all its modules had been started and
none had ended at the throw). Shards agree whatever the order of the builds if and only if no build without files costs
as much as one with files, and more than nothing: with such a tie the comparator, which the comment in the runner calls
stable for equal costs, is inconsistent. The driver in test/aot/run-parallel.ts:1229-1245 prints no build without files,
so that this takes another driver.

`dafny verify dfyconfig.toml` checks the whole project.

## Model

| member | source | states |
|---|---|---|
| `Lpt.SpreadIsOneItem` | scripts/runner.node.ts:3507-3513 | While items are dealt in any order to the leftmost least loaded bin, two bins never differ by more than the largest item dealt so far. |
| `Lpt.AnyOrderIsBounded` | scripts/runner.node.ts:3507-3513 | Dealt in any order, the fullest bin takes at most (2 - 1/m) times as long as in any other assignment of the same items to m bins. |
| `AnyOrderTightness.AnyOrderBoundIsTight` | scripts/runner.node.ts:3507-3513 | That factor is reached for every number m of bins: dealt m(m-1) items of 1 and then one of m, the rule takes 2m - 1 where m is enough. |
| `Lpt.LongestFirstIsBounded` | scripts/runner.node.ts:3494-3513 | Dealt longest first, at most (4/3 - 1/(3m)) times, against every assignment (Graham 1969). |
| `LptTightness.LongestFirstBoundIsTight` | scripts/runner.node.ts:3494-3513 | That factor is reached for every number m of bins: on the 2m + 1 items 2m-1, 2m-1, ..., m+1, m+1, m, m, m the rule takes 4m - 1 where 3m is enough. |
| `Lpt.PackingIsUnique` | scripts/runner.node.ts:3507-3513 | The rule leaves no choice: any two packings of the same costs are equal, so shards that compute it apart agree. |
| `Sharding.PackOne` | scripts/runner.node.ts:3507-3514 | One turn of the loop keeps `load` equal to the sum of the assigned costs and `assigned` equal to the tests dealt, with the item in the leftmost least loaded bin. |
| `Sharding.Pack` | scripts/runner.node.ts:3505-3514 | The loop ends with that for all items. |
| `Sharding.RelevantTests` | scripts/runner.node.ts:3478-3518 | The branch for several shards keeps exactly the tests of its own shard, and one shard keeps all. |
| `Sharding.ItemsHoldTheTests` | scripts/runner.node.ts:3491-3504 | With a deal that lists each program once, the items hold each available test as often as it is available, sorted or not. |
| `Sharding.ShardsPartitionTheTests` | scripts/runner.node.ts:3378-3382 | With distinct tests and a deal that lists each program once, every available test is in exactly one shard, once, and no other test is in any. |
| `Sharding.ShardKeepsTheOrder` | scripts/runner.node.ts:3515-3518 | A shard runs its tests strictly in the order in which they were found. |
| `ShardAgreement.ShardsAgree` | scripts/runner.node.ts:3494-3518 | For non-negative costs, distinct tests and a deal that lists each program once, permuting the list of builds changes no shard when no build without files costs as much as one with files, and more than nothing. |
| `ShardAgreement.ShardsAgreeIff` | scripts/runner.node.ts:3494-3518 | With distinct tests and a deal that lists each program once, shards agree for every number of shards and every order of the builds if and only if there is no such tie. |
| `ShardAgreement.EmptyBuildDividesShards` | scripts/runner.node.ts:3503-3504 | A plan with such a tie: listed the other way round, two builds put a test in different shards, because a missing index makes the comparator NaN. |
| `ShardBalance.ShardsAreBalanced` | scripts/runner.node.ts:3485-3518 | The shards are a division of the tests and the builds, each shard running exactly its part, and for non-negative durations the slowest shard takes at most (4/3 - 1/(3m)) times as long as in any other division; a test takes its `costOf`, a build a quarter of its `ms`. |
| `OutputFilter.LiveOutputFilter.Filter` | scripts/runner.node.ts:185-216 | One chunk updates `pending` and `atLineStart` and gives out what the transition `Step` says, from every state. |
| `OutputFilter.LiveOutputFilter.End` | scripts/runner.node.ts:217-222 | The end gives out what is held back unless it is a command, and resets the filter. |
| `OutputFilter.ReplaceIsReference` | scripts/runner.node.ts:213-215 | The two whole-text replacements equal a filter that treats the text line by line if and only if the text does not end with a command without its line end, which the replacements keep and that filter drops. |
| `OutputFilter.EachLineIs` | scripts/runner.node.ts:168-173 | What becomes of each line of a text, whatever stands around it: outside GitHub a line that shows "::" first goes, in GitHub one with "::group::" or "::endgroup::"; in Buildkite "--- ", "+++ ", "~~~ " or "^^^ " at the very start becomes a space; every other line stays verbatim. |
| `OutputFilter.WrittenSoFar` | scripts/runner.node.ts:185-216 | After every chunk, what was written is the line filter applied to exactly the input without `pending`. |
| `OutputFilter.OnlyStartsAreHeld` | scripts/runner.node.ts:175-202 | Only a line start whose visible text begins with "::", or may yet become that or a group marker, is held back. |
| `OutputFilter.ChunksDoNotMatter` | scripts/runner.node.ts:164-224 | For every text, every split into chunks and every mode, the outputs of `filter` followed by `end()` are the line filter applied to the whole text. |
| `OutputFilter.Pipe` | scripts/runner.node.ts:2816-2828 | A child stream is written as the line filter of its whole text. |
| `Limiter.Limit.Enter` | scripts/runner.node.ts:978-983 | A call takes a free slot and starts, or joins the line. |
| `Limiter.Limit.Leave` | scripts/runner.node.ts:986-991 | A call that settled, either way, hands its slot to the first in line, or frees it. |
| `Limiter.StepKeepsValid` | scripts/runner.node.ts:975-993 | Every call, resumption and settlement keeps the invariant of the protocol. |
| `Limiter.LimitIsKept` | scripts/runner.node.ts:970-993 | In every interleaving `running` is the number of tasks granted or executing, at most `concurrency`, exactly `concurrency` while anyone waits, and slots go out in the order of the calls. |
| `Limiter.GrantsFollowSettles` | scripts/runner.node.ts:987-990 | A call with k calls before it in line has its slot after at most k + 1 settlements. |
| `Limiter.RunsEnd` | scripts/runner.node.ts:975-993 | Without new calls every run is bounded. |
| `Limiter.QuiescenceIsCompletion` | scripts/runner.node.ts:975-993 | When nothing can be resumed and nothing runs, every call is through. |
| `Limiter.ConcurrencyMustBePositive` | scripts/runner.node.ts:975-993 | Every call is let in by every run that settles its tasks if and only if the concurrency is at least 1. |
| `TestResults.FlakyIff` | scripts/runner.node.ts:1292-1326 | A test is flaky exactly when its first pass, within the allowed tries, follows only failures that are no always-failures. |
| `TestResults.AlwaysFailureFails` | scripts/runner.node.ts:1320-1324 | A failure that must not be ignored fails the test whatever later tries would do. |
| `TestResults.TestEndsIn` | scripts/runner.node.ts:1292-1326 | A test adds its first result to the passes if that passed, to the flaky ones if a later try passed and only ordinary failures came before, and to the failures otherwise. |
| `TestResults.Ledger.RunTest` | scripts/runner.node.ts:1259-1326 | The retry loop pushes to exactly the list that the verdict names, the first failure where there was one. |
| `TestResults.OneEntryOfOneTest` | scripts/runner.node.ts:1259-1326 | One call adds one entry for its own file and none for another, exactly if it may try at all. |
| `TestResults.ReadReport` | scripts/runner.node.ts:1629-1636 | The loop over the report finds the failed and the incomplete files in order. |
| `TestResults.ReadOutput` | scripts/runner.node.ts:1638-1658 | The loop over the output lines, with its `list` variable, finds the files that the lines list. |
| `TestResults.ListAfterIff` | scripts/runner.node.ts:1638-1652 | A list is open exactly when its heading came and only indented lines since. |
| `TestResults.ListedIff` | scripts/runner.node.ts:1638-1658 | The output lists a file as failed or unfinished exactly where a line says how it ended or stands in the list of that heading. |
| `TestResults.RunParallelBucket` | scripts/runner.node.ts:1626-1701 | A bucket adds the accepted files, then the verdict of each file that runs alone, in that order. |
| `TestResults.ReportReruns` | scripts/runner.node.ts:1626-1636 | The two sets hold exactly the files with a failing suite and the files without a suite or with aborted cases only. |
| `TestResults.AcceptedIff` | scripts/runner.node.ts:1630-1665 | With a report, a file is accepted without a solo run exactly if the batch exited ok or its suite is present, has no failures and is not all "(aborted)". |
| `TestResults.AcceptedWithoutReport` | scripts/runner.node.ts:1628-1661 | Without a report, after a failed batch, a file is accepted without a solo run exactly if the output lists some file and not this one; with nothing listed all files run alone. |
| `TestResults.BucketEntriesFor` | scripts/runner.node.ts:1626-1701 | Which entries a bucket adds for each file, and to which list: a plain pass if it is accepted, otherwise what its own run alone ends in, twice if the output lists it both ways. |
| `TestResults.OneEntryWithReport` | scripts/runner.node.ts:1626-1701 | With a report, or when the batch was ok, every file of the bucket gets exactly one entry in the three lists together. |
| `TestResults.OneEntryWithoutReport` | scripts/runner.node.ts:1637-1661 | Without a report this holds if and only if the output lists no file both as failed and as unfinished: such a file runs twice. |
| `TestResults.TwoEntriesForOneFile` | scripts/runner.node.ts:1653-1661 | An output that ends a file once crashed and once unfinished gives it two entries. |
| `AotDriver.SplitJoined` | scripts/runner.node.ts:1032-1033 | Splitting a joined text into lines is splitting the first part and then its unfinished line with the rest. |
| `AotDriver.LinesMakeUpTheText` | scripts/runner.node.ts:1032-1033 | The complete lines and the unfinished one make up the output, and none holds a line feed. |
| `AotDriver.DriverOutput.Chunk` | scripts/runner.node.ts:1031-1053 | After any chunks `verdicts`, `started` and the unexpected line are those of the complete lines of the whole output. |
| `AotDriver.RunAotDriver` | scripts/runner.node.ts:1013-1066 | One run gives back what its whole output and its end mean. |
| `AotDriver.VerdictsAre` | scripts/runner.node.ts:1043-1047 | A program has a verdict exactly if a complete line gives it one, and then it is the one of the last such line. |
| `AotDriver.RunMeans` | scripts/runner.node.ts:1056-1065 | A run counts as dead exactly if it ended with neither 0 nor 1 or printed a complete line of no use; unfinished are exactly the programs begun without a verdict, each once. |
| `AotDriver.DriversGiveRuns` | scripts/runner.node.ts:1013-1066 | Whatever the driver prints and however it ends, a run names only files it was given, each once, and no unfinished program has a verdict. |
| `AotDriver.NextIsShorter` | scripts/runner.node.ts:1792-1806 | What is left after a round is shorter by at least the unfinished programs, so the loop ends. |
| `AotDriver.RunAotPrograms` | scripts/runner.node.ts:1778-1808 | The loop reports what its specification says, in that order, and starts exactly the processes of its specification, at most two per program. |
| `AotDriver.OneEntryPerProgram` | scripts/runner.node.ts:1778-1808 | Against any driver, every program gets exactly one entry in the result lists and no other file gets any. |
| `AotResults.ResultOfProgram` | scripts/runner.node.ts:1740-1808 | Every program is started, and the last process that was started with it decides: its last verdict line puts it in `okResults` (pass, skip) or in `failedResults` (with stage and message); without one it fails for a bad exit code, or else for the first useless line, or else for having no result. Nothing is flaky. |
| `AotDriver.ReportsAreEarned` | scripts/runner.node.ts:1786-1806 | Each report is the verdict that some process the loop started gave for that program, or blames a process it started on the program that gave none: one that ran it alone, or one with nothing unfinished or no sign of death. |
| `AotDriver.OnlyKillersAreBlamed` | scripts/runner.node.ts:1798-1806 | If only some programs make the driver die, every other program is reported with the verdict of a process that the loop started on it, and none is blamed for a crash. |
| `LineCompression.AddLine` | scripts/runner.node.ts:2846-2861 | One line keeps the lines so far equal to the grouping of the lines that are settled, followed by the open run. |
| `LineCompression.Compress` | scripts/runner.node.ts:2843-2862 | The loop with its in-place splice equals a pure grouping of the lines that are no commands. |
| `LineCompression.VisibleIs` | scripts/runner.node.ts:2846-2847 | The lines that are grouped are those that are no commands, in order. |
| `LineCompression.RunBecomes` | scripts/runner.node.ts:2853-2858 | A run of four or more quiet lines that another line ends keeps its first and last line, a shorter one all. |
| `LineCompression.OpenRunStays` | scripts/runner.node.ts:2853-2862 | A run that nothing ends stays whole. |
| `LineCompression.SpliceRun` | scripts/runner.node.ts:2855-2858 | The splice cuts exactly the inside of the run although the line that ended the run is already there. |
| `LineCompression.NothingIsLost` | scripts/runner.node.ts:2853-2858 | Kept lines and omitted counts add up to the number of lines. |
| `LineCompression.FailuresStay` | scripts/runner.node.ts:2848-2860 | Every line that does not stand for a test that passed stays, verbatim and in order. |
| `XmlText.EscapeUnit` | scripts/runner.node.ts:4257-4264 | The five passes turn a character into its entity and no pass touches what another wrote. |
| `XmlText.EntitiesAre` | scripts/runner.node.ts:4257-4264 | The five entities are those of XML. |
| `XmlText.NumericIs` | scripts/buildkite.ts:502 | Anywhere in a text `&#n;` stands for the code unit n modulo 2^16. |
| `XmlText.NumericIsRead` | scripts/buildkite.ts:500-508 | `&#n;` is read as the code unit n, by all the passes together. |
| `XmlText.EscapedIsInert` | scripts/runner.node.ts:4257-4264 | Escaped text holds no markup delimiter and no quote. |
| `XmlText.UnescapeInvertsEscape` | scripts/buildkite.ts:500-508 | `unescapeXml(escapeXml(s)) == s` for every string, though both are chains of passes over the whole string. |
| `UnicodeTables.Generator.AddCodePoint` | misctools/unicode-generator.ts:44-59 | A code point gets the index of the first equal element, at the next place of the block. |
| `UnicodeTables.Generator.FinishBlock` | misctools/unicode-generator.ts:70-88 | A finished block is found or added, also a partial last one, and all earlier blocks stay where they are. |
| `UnicodeTables.Generator.Generate` | misctools/unicode-generator.ts:30-96 | The builder succeeds if and only if indexes and blocks fit in 16 bits, and then its tables are correct for every code point. |
| `UnicodeTables.LookupIsGet` | misctools/unicode-generator.ts:30-96 | `stage3[stage2[stage1[cp >> 8] + (cp & 255)]]` is in bounds and stands for what the context says, for every code point, also in a last block that is not full. |
| `GenUnicodeTable.PackWord` | misctools/gen-unicode-table.ts:29-35 | A word has bit j set exactly if the j-th bit is 1. |
| `GenUnicodeTable.BitsToU64Array` | misctools/gen-unicode-table.ts:26-39 | Bit k of the input is bit k % 64 of word k / 64, for every k. |
| `GenUnicodeTable.GenerateTable` | misctools/gen-unicode-table.ts:41-64 | It fails exactly above 256 distinct blocks; otherwise the emitted lookup is in bounds for every number and true exactly for the code points whose value differs from that of 0. |
| `GenUnicodeTable.LookupIsCheckIffZeroIsNot` | misctools/gen-unicode-table.ts:41-64 | The emitted lookup equals the predicate on every code point if and only if the predicate is false of 0; otherwise it is its opposite everywhere. Above the maximum it is false. |
| `EsmWrappers.Bundle.Init` | src/runtime.js:331-340 | A wrapper runs its body at most once and answers with its result or its error, over any import graph. |
| `EsmWrappers.CallKeeps` | src/runtime.js:331-340 | A call keeps the state consistent, undoes nothing, and has started its module. |
| `EsmWrappers.BodiesRunOnce` | src/runtime.js:331-340 | However often and in whatever order entries are called, no body runs twice and each that started has ended. |
| `EsmWrappers.RunEvaluatesTheReachable` | src/runtime.js:331-340 | A run in which nothing throws evaluates exactly the modules that its entry reaches, cycles included. |
| `EsmWrappers.AnswersStay` | src/runtime.js:331-340 | Once the body of a module has ended, its wrapper answers as it did then whatever is called in between, in particular with the same error, and runs nothing. Inside its own evaluation the answer is `undefined`. |
| `EsmWrappers.AnswersAreValues` | src/runtime.js:331-340 | After any calls of entries, the wrapper of a module that ran answers with the value that its body returned, or throws its error. |
| `EsmWrappers.AcyclicRunPutsImportsFirst` | src/runtime.js:331-340 | When no module reaches itself through its imports, every module that ends without an error ends after all its imports. |
| `EsmWrappers.AcyclicIsRanked` | src/runtime.js:331-340 | A graph has no import cycle if and only if its modules can be ranked so that every import goes down. |
| `EsmWrappers.ErrorStaysWithTheStack` | src/runtime.js:330-340 | When an entry throws, over any graph without `try`, there is one moment of the throw: before it no body with a `throw` has ended, and next ends the one that threw. From then on exactly the bodies of a path of imports from the entry to that one end, innermost first; the error is that of its first `throw`. A module keeps the error and throws it again exactly if it is on that path: started, and not ended before the throw. |
| `EsmWrappers.CycleSharesItsErrorIff` | src/runtime.js:330-340 | The modules of a cycle share its error, as section 16.2.1.5 of ECMA-262 asks, if and only if all had been started and none had ended at that same moment of the throw. |
| `EsmWrappers.ThrowIsOne` | src/runtime.js:330-340 | A log has at most one moment of the throw. |
| `EsmWrappers.CycleDoesNotShareItsError` | src/runtime.js:330-340 | A cycle whose second module had ended at the moment of the throw: it does not throw what the first one threw. |
| `Base64.BuildTable` | src/runtime.js:352-356 | The table has value i exactly at the code of the i-th letter. |
| `Base64.ToBytes` | src/runtime.js:350-369 | The decoder fills an array of the computed length; writes past its end change nothing. |
| `Base64.LengthIsRestored` | src/runtime.js:357-358 | The length computed from the padding is the length of the encoded bytes, for every sequence of bytes. |
| `Base64.ByteIsRestored` | src/runtime.js:359-367 | Each byte of the output is the byte that was encoded. |
| `Base64.DecodeEncoded` | src/runtime.js:350-369 | The table decoder inverts base64 with padding (section 4 of RFC 4648) for every sequence of bytes. |
| `Namespaces.Runtime.ToESM` | src/runtime.js:59-85 | The conversion, with its cache per mode, does what the transition says and returns that namespace. |
| `Namespaces.Runtime.ReExport` | src/runtime.js:27-49 | `export *` into one or two targets does what the transition says. |
| `Namespaces.StepKeeps` | src/runtime.js:27-85 | Every step keeps all properties that exist, and getters only ever lead to older properties, so no chain of getters is circular. |
| `Namespaces.NamespaceIsLive` | src/runtime.js:74-81 | After any later events, each key that the module had at its conversion reads as the current value in the module. |
| `Namespaces.DefaultFollowsTheRule` | src/runtime.js:68-71 | Where the rule for the mode says so, "default" is the module itself for good. |
| `Namespaces.DefaultReadsAs` | src/runtime.js:66-81 | What "default" reads after any events: in node mode the module itself; otherwise the current "default" of an object or function whose `__esModule` reads truthy and that has its own "default", and the module itself in every other case. A byte view that has both gets neither. |
| `Namespaces.NamespaceHasKeys` | src/runtime.js:66-81 | The keys of a new namespace are the own keys of an object or function that is no byte view, and "default" by that rule. |
| `Namespaces.SameNamespaceAgain` | src/runtime.js:60-65 | After any later events, the same module and mode give the same namespace if and only if the module is no function. |
| `Namespaces.ReExportAdds` | src/runtime.js:31-36 | One `export *` adds exactly the missing own keys other than "default". |
| `Namespaces.ReExportReachesBoth` | src/runtime.js:31-46 | Both targets get the keys that they lack, and no other object changes. |
| `Namespaces.ReExportIsLive` | src/runtime.js:31-36 | What it added reads as the current value in its module after any later events. |
| `Namespaces.FirstProviderWins` | src/runtime.js:31-36 | Of any list of `export *`, the first module that has a key provides it, own keys win over all, and "default" never comes along. |
| `Disposal.Dispose.Next` | src/runtime.bun.js:23-34 | `next` disposes up to the first promise it waits for; what is left and the error so far make up the same outcome. |
| `Disposal.Dispose.Run` | src/runtime.bun.js:18-36 | Resumed by promises or not, disposal calls what the fold calls and ends with its error, and throws at once exactly when nothing was awaited. |
| `Disposal.CallsReverseRegistration` | src/runtime.bun.js:23-26 | Every disposer on the stack is called exactly once, in the reverse order of registration. |
| `Disposal.FoldWrapsAllErrors` | src/runtime.bun.js:19-22 | The final error nests the first error and those of all failed disposals, the latest outermost; there is none exactly if there were none. |
| `Disposal.StackHoldsAccepted` | src/runtime.bun.js:4-16 | The stack holds the accepted resources in order, up to the first declaration that is refused. |
| `Disposal.AsyncGoesFirst` | src/runtime.bun.js:4-16 | What `__using` registers or refuses: `await using` takes the async disposer first, `using` only the plain one, and the entry tells them apart. |
| `Disposal.OneDisposed` | src/runtime.bun.js:18-34 | What one disposer throws, or its awaited promise is rejected with, becomes the error or suppresses the one there is. |
| `Disposal.RunBlock` | src/runtime.bun.js:4-36 | A block calls the disposer of each accepted resource once, last first, whatever was refused or thrown. |
| `CiTimes.ParseLog` | scripts/ci-slowest-tests.ts:27-79 | The map has exactly the files that headers or summaries name, each with the sum of its clamped spans and inline times, where a span ends at the next delimiter or with the log. |
| `CiTimes.TotalSplits` | scripts/ci-slowest-tests.ts:33-41 | The time of a file is what summaries report plus what its spans take. |
| `CiTimes.SpanIsWorth` | scripts/ci-slowest-tests.ts:33-41 | A span counts up to the next header, summary or phase, in the concurrent phase at most 500 ms. |
| `CiTimes.LastSpanIsWorth` | scripts/ci-slowest-tests.ts:33-41 | The last span ends with the last timestamp, with the same limit. |
| `CiTimes.SpansAreDisjoint` | scripts/ci-slowest-tests.ts:42-72 | With a clock that does not run backwards every span is non-negative and ends before the next one begins. |
| `CiTimes.SpansFit` | scripts/ci-slowest-tests.ts:42-77 | The spans of any files together are non-negative and fit between the first and the last timestamp. |
| `CiTimes.SpentSplits` | scripts/ci-slowest-tests.ts:33-41 | No span counts for two files. |
| `Completions.Write` | misctools/generate-add-completions.ts:43-61 | The writer emits the count and the length-prefixed names, or fails when a number does not fit. |
| `Completions.BufferIs` | misctools/generate-add-completions.ts:47-61 | The count takes four bytes and the length of a name two, little-endian, and the bytes of the name follow. |
| `Completions.BuildTable` | misctools/generate-add-completions.ts:129-146 | The emitted reader returns the names in the buffer, or runs out of bounds exactly where the buffer ends early. |
| `Completions.ReaderInvertsWriter` | misctools/generate-add-completions.ts:43-61 | The reader gets the names back if and only if all of them are ASCII: the prefix counts code units and the bytes are UTF-8. |
| `Completions.SizesAgree` | misctools/generate-add-completions.ts:45-58 | UNCOMPRESSED_SIZE is the length of the buffer if and only if all names are ASCII. |
| `Completions.Group` | misctools/generate-add-completions.ts:26-40 | The groups hold the number of names per first letter, and BIGGEST_LIST is the largest group. |
| `Completions.MakeIndex` | misctools/generate-add-completions.ts:76-84 | Each letter gets the number of names of the letters before it and its own. |
| `Completions.PackagesNeverPanic` | misctools/generate-add-completions.ts:153-162 | `get_packages` is never out of bounds, whatever the names are, however they are filed and in whatever order. |
| `Completions.PackagesOfLetter` | misctools/generate-add-completions.ts:17-162 | For any names that are not empty (empty lines are dropped), it returns exactly the sorted names filed under the letter if and only if before each of them as many names of other letters begin lower as are filed under earlier letters. |
| `Completions.UpperCaseIsMisfiled` | misctools/generate-add-completions.ts:28-34 | The first letter is lower-cased for the groups and not for the sort: of "B" and "a" the list for "a" is "B". |
| `Completions.PackagesOfLowerNames` | misctools/generate-add-completions.ts:153-162 | When every first letter is its own lower case, the list is right if and only if no name begins below "a" or none begins with the letter. |
| `Completions.CompletionsAreFound` | misctools/generate-add-completions.ts:15-162 | From the lines of the file to the list of a letter: for ASCII names that begin with their own lower case and not below "a", what comes out is the sorted sublist. |
| `Completions.BiggestListIsReached` | misctools/generate-add-completions.ts:39-40 | When every name begins with a letter, some letter has a list of that length. |
| `BuildArgs.ParseArgs` | scripts/build.ts:516-647 | The loop with its index and its flag routes every argument as a recursive reading of the list does, errors included. |
| `BuildArgs.ParseFlag` | scripts/build.ts:536-632 | However a flag is written, with `=` or with its value as the next argument, it has its effect and nothing else. |
| `BuildArgs.FlagsComeBack` | scripts/build.ts:529-633 | Any flags in any order, then `--`: the flags take effect in turn and what follows is kept verbatim, even if it looks like a flag. |
| `BuildArgs.ToolComesBack` | scripts/build.ts:536-540 | The same before `-t`: all that follows belongs to the tool. |
| `BuildArgs.LastOverrideWins` | scripts/build.ts:622-632 | The last override of a field is the one that counts. |
| `BuildArgs.ListsKeepOrder` | scripts/build.ts:544-552 | Targets and ninja arguments keep their order, whatever stands between. |
| `BuildArgs.WrittenIsKeyed` | scripts/build.ts:585-600 | `--key=value` is read as the key and the whole value if and only if the value is one line; otherwise it ends the flags. |
| `BuildArgs.SpacedIsKeyed` | scripts/build.ts:585-612 | `--key` alone waits for its value, in either spelling of the key. |
| `BuildArgs.ConvertInvertsSpell` | scripts/build.ts:649-659 | A boolean, a number and a text are read back from the way they are spelt. |
| `BuildArgs.BooleansAre` | scripts/build.ts:654-659 | A boolean is one of on, true, yes, 1, off, false, no, 0, in any case, and nothing else. |
| `BuildArgs.CamelInvertsKebab` | scripts/build.ts:593-595 | A field may be spelt with a dash and a small letter for each capital. |
| `BuildArgs.WordsAre` | scripts/build.ts:536-583 | The words and short flags that are no `--key`. |
| `BuildArgs.ParseInvertsPrint` | scripts/build.ts:516-647 | For any flags in any order and any arguments of the program, parsing what was printed gives back the record if and only if no printed value has a line break; otherwise the flag with the line break and all after it go to the program. |

## Left out

- ShardAgreement.ShardsAgreeIff: where the comparator is inconsistent, ECMA-262 leaves the order open; the model takes the order of a stable insertion sort.
- ShardBalance.ShardsAreBalanced: costs and loads are exact non-negative reals; the rounding of `Float64Array` is not modelled.
- Completions.Write: names are encoded by UTF-8; which bytes other than the ASCII ones come out is not stated apart from their number.
- OutputFilter.ChunksDoNotMatter: an ANSI escape is one symbol, so no chunk ends inside one, and U+2028 and U+2029, which the patterns also take for line ends, do not occur.
- TestResults.OneEntryOfOneTest: the test function is a table of results by try; the waiting between tries, titles and annotations are not modelled.
- AotDriver.RunAotPrograms: how a failure of the driver is put into words is left open, paths are identified with files, and a line counts as what `JSON.parse` makes of it.
- TestResults.ReadOutput: the patterns for headings and for the end of a file are a given classification of lines.
- CiTimes.ParseLog: the patterns for timestamps, headers and phases are a given classification of lines; `isPhaseGroupHeader` is part of it.
- XmlText.UnescapeInvertsEscape: a numeric reference is the exact number modulo 65536, where `Number` rounds very long digit strings; escaped text holds none.
- UnicodeTables.Generator.Generate: a block is its own key; that SHA-256 digests of different blocks differ is taken for granted. It is the first call on its generator; a second one would find places of the first call in `blockMap` while `stage2` starts empty again, and give wrong tables.
- Base64.ToBytes: the branch for engines with `Uint8Array.fromBase64` is the engine's own.
- Namespaces.Runtime.ToESM: properties are plain values; getters on the module itself, deleted properties, property order and prototypes beyond a table of inherited values are not modelled, and keys of the `WeakMap` are never collected.
- EsmWrappers.BodiesRunOnce: a body is a list of wrapper calls, some in a `try`, and throws; the rest of its code is not modelled, nor are asynchronous bodies.
- Disposal.RunBlock: a promise is what becomes of it; when other jobs run between two disposals is not modelled.
- Completions.BuildTable: compression with zstd is taken to be inverted by its decompression.
- BuildArgs.ParseInvertsPrint: the table of configuration fields is arbitrary; numbers are exact, where `Number` rounds above 2^53.
- `parseJunitFileSuites` in scripts/buildkite.ts: its result is an arbitrary map; the reading of the report itself would only add easy members.
- `__commonJS`, `__toCommonJS` and `__decorateElement` in src/runtime.js: the first runs a body once as `__esm` does but remembers no error, the second copies getters as `__toESM` does, the third is a list of JavaScript object operations.
- `unescapeGitHubAction`: its counterpart is not part of the repository, so there is no round trip.
- Filters by name, `--bail`, docker, vendored tests, timeouts, uploads, annotations, core dumps and report formatting in scripts/runner.node.ts: input and output without an algorithm of their own.
- `isAlwaysFailure` is an arbitrary predicate on error texts, and the expected durations are an arbitrary non-negative function.
