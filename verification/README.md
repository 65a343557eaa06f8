# polylens2otel: verified models

A Dafny 4.11 model of the stateful parts of polylens2otel, the exporter that turns
Poly Lens and Poly phone data into OpenTelemetry signals, with proofs of what those
parts guarantee over every input, every failure and every run.
`dafny verify dfyconfig.toml` checks all of it.

Whatever the program cannot control (server replies, failing writes, crashes, clocks,
random numbers) is an arbitrary script or parameter; nothing about it is assumed.
The hash, the RFC 3339 parser and formatter, the wall-clock layout, the time zone and
the case mapping of text outside ASCII are function parameters. The facts used about
them are stated as predicates. About formats as such: texts that parse hold no NUL
(`LensCdr.NulFree`, `CallLogs.NulFree`), a wall clock has two spellings
(`CallLogHistory.TwoSpellings`), stored records decode to what was encoded
(`AtomicFile.RoundTrips`), hashes print as hex (`Digest.HexHash`). About the times a
history lists, and no others: that they print without loss (`Watermarks.Faithful`,
`Migration.Prints`) or as no earlier a time (`Watermarks.KeepsUp`).

| file | part of the system |
|---|---|
| `Watermarks.dfy` | the persisted watermark; the frozen and the advancing row loop |
| `AtomicFile.dfy` | the disk both collectors keep their watermarks on, and the file replacement |
| `NewRows.dfy` | what a watermark says of the rows offered in the past; which rows are new, and which late |
| `LensCdr.dfy`, `CdrHistory.dfy`, `CdrCompleteness.dfy` | the call-detail collector, whole histories of its runs, and which rows they log |
| `Scheduler.dfy` | all collectors at once, under every interleaving |
| `CallLogs.dfy`, `CallLogOutcome.dfy` | one phone's turn in a call-log run; what it does, said of the phone's three groups |
| `CallLogHistory.dfy`, `CallLogCompleteness.dfy`, `Migration.dfy` | histories of such turns through changing zones, which calls they log, the watermark migration |
| `PhoneFleet.dfy` | a call-log run over all phones, and histories of such runs |
| `GoStrings.dfy`, `DigestParams.dfy`, `Digest.dfy`, `Handshake.dfy` | byte strings, the Digest parameter reader and writer, the authorization, the 401 handshake |
| `Backoff.dfy`, `Retry.dfy`, `TokenCache.dfy` | waits, retries and the token cache of the Lens client |
| `LensStream.dfy`, `StreamLanguage.dfy`, `StreamOutcome.dfy` | the device stream, the language of its traces, and what it does for each script |
| `Basics.dfy`, `TaggedLogs.dfy` | notions shared by several parts; a log with several sources |
| `ShelfGrid.dfy`, `TenantEmitter.dfy`, `EnvNames.dfy`, `PhoneStatus.dfy` | dashboard grid, tenant fan-out, environment names, phone status gauges |

## What the proofs found

- The documentation promises a log for each new row (docs/signals.md, line 68). Both
  collectors know a row only by its device and start time and keep only the latest start, so
  over a history that began without a file the call-detail collector logs every row that was
  new to a saved run, each on its own, exactly when no two of these rows share a device and a
  start time and none of them starts before a row that an earlier saved run was offered
  (`CdrCompleteness.EachNewRowIsLoggedIff`). A record that appears only after one of a later
  call, as a long call's does, is lost for good (`CdrCompleteness.LateRowIsLost`). Rows whose
  times cannot be read are never logged and are not counted here.
- The phone loop besides tests rows against the watermark it is advancing, over groups joined
  as placed, received, missed. It logs every new call exactly when, in addition, each run
  lists its new calls in time order across the groups
  (`CallLogCompleteness.EachNewCallIsLoggedIff`). A received call that is older than a placed
  one, or has the same start time, is lost even though each group is ordered
  (`CallLogHistory.ReceivedCallIsLost`). The model follows the code.
- A stored start is printed and read again. A key is logged at most once more than there
  are unsaved runs exactly as long as starts print as no earlier a time
  (`CdrHistory.BoundHoldsIff`, `CallLogHistory.BoundHoldsIff`). Go reads the offset
  `+24:60` and prints it as `+25:00`, which it cannot read, and it drops the seconds of
  an offset such as London's before 1847; two calls at such a start displace each other
  from the file and are logged again and again with every run saved
  (`CdrHistory.LoggedEveryOtherRun`, `CallLogHistory.LoggedAgain`).
- When a phone's zone is changed, however often, that bound survives exactly if no zone puts
  a wall clock in play later than an earlier zone did
  (`CallLogHistory.ZoneChangesKeepBoundIff`).
- A call-log run ends at the first phone that errs, so a phone behind one that always errs
  is never read (`PhoneFleet.StarvedBehindAnError`).
- Migration of a legacy watermark commutes with collection exactly when the zone keeps the
  wall clocks in play in strict order, so not across a clock that is set back
  (`Migration.CommutesIffOrderKept`).
- Collectors run as if alone exactly when no two of them share a file, that is when no
  tenant is configured twice (`Scheduler.SequentialIffApart`); two that share one can log a
  row twice although every run was saved (`Scheduler.SharedFileDuplicates`).
- The Digest reader turns each byte of a quoted value into text on its own, so a value comes
  back unchanged exactly when it is ASCII (`DigestParams.ReencodeIff`).
- A probe answered at once with a success other than 200, 201, 202 or 204 counts as
  unreachable, and with any success after the challenge as reachable
  (`Handshake.SuccessesDifferIff`).
- A token is used for as long as it was promised exactly when that is at most 9223372036
  seconds (`TokenCache.HonouredIff`). A longer promise wraps around; the token is minted
  again at once exactly when what is left of it is at most a minute
  (`TokenCache.MintsAgainIff`).
- An odd backoff cap is reached one unit early (`Backoff.WaitIsCappedDoubling`).
- An environment name leads back to its key exactly when the key has no capital and no
  underscore before an underscore or a dot (`EnvNames.EnvRoundTripIff`).

## Model

| member | source | states |
|---|---|---|
| Watermarks.IsNew | internal/collectors/lenscdr/collector.go:166-181 | A row is new if and only if its key is unseen and it is not older than the readable stored start; a blank or unreadable start lets every unseen key through. |
| Watermarks.AdvanceStores | internal/collectors/lenscdr/collector.go:183-196 | However times print, one advance stores the start of a later row, or of any over a blank or unreadable start, with its key alone, adds a key at an equal start, and ignores an older row. |
| Watermarks.AdvanceExact | internal/collectors/lenscdr/collector.go:183-196 | One advance raises the stored start to the maximum, restarts the keys at a later row, appends at an equal one and ignores an older one. |
| Watermarks.AdvanceAllExact | internal/collectors/lenscdr/collector.go:183-196 | After any emissions the stored start is their maximum with the old one and the stored keys are exactly those emitted at it, in order. |
| Watermarks.FrozenAdmissible | internal/collectors/lenscdr/collector.go:84-134 | Testing against the loaded watermark emits distinct, unstored keys not older than it, and every such key among the rows. |
| Watermarks.AdvancingAgainstFrozen | internal/collectors/phone/calllogs.go:79-102 | For any row order the advancing loop reaches the same watermark as the frozen loop and emits a time-ordered subsequence of its rows; each row it leaves out is older than the new watermark. |
| Watermarks.AdvancingEqualsFrozenIff | internal/collectors/phone/calllogs.go:79-102 | The two loops emit the same rows if and only if the rows the frozen loop takes arrive in time order. |
| Watermarks.FrozenIsWantedIff | internal/collectors/lenscdr/collector.go:106-134 | The frozen loop emits every row that is not too old and not stored, repeats included, if and only if no two of them share a key. |
| Watermarks.AdvancingIsWantedIff | internal/collectors/phone/calllogs.go:79-102 | The advancing loop emits every such row if and only if no two share a key and they arrive in time order. |
| Watermarks.OrderedInputOrderedOutput | internal/collectors/phone/calllogs.go:123-134 | Rows joined in time order make the frozen loop take its rows in time order. |
| Watermarks.BarredStays | internal/collectors/lenscdr/collector.go:166-196 | A key that is older than the watermark, or as old and stored, is not emitted by any admissible run and stays barred after it, where starts print as no earlier times. |
| Watermarks.EmittedIsBarred | internal/collectors/lenscdr/collector.go:133-134 | An emitted key is barred by the watermark advanced over the run. |
| LensCdr.DedupeKeyInjective | internal/collectors/lenscdr/collector.go:164 | Two rows with readable start times have the same key only if device and start time agree, whatever bytes the device ID holds. |
| LensCdr.ScanIsFrozen | internal/collectors/lenscdr/collector.go:106-135 | Wherever a run is stopped, it has emitted what the frozen loop emits for some prefix of its rows, all of them if it was not stopped. |
| LensCdr.ItemExact | internal/collectors/lenscdr/collector.go:152-164 | A row counts if and only if both of its times can be read, and then under its device and start time as written, with the start read. |
| LensCdr.EmittedIsReadable | internal/collectors/lenscdr/collector.go:106-131 | Whatever happens to a run, each log stands for an offered row whose two times can be read. |
| LensCdr.Collector.CollectEdge | internal/collectors/lenscdr/collector.go:106-134 | One row is skipped, or logged and taken into the watermark and the seen set, or ends the run. |
| LensCdr.Collector.CollectPages | internal/collectors/lenscdr/collector.go:90-144 | Pages are followed until one is the last, each query after the first from the cursor of the page before; a failed query or a missing cursor ends the run after the rows before it. |
| LensCdr.FlattenExact | internal/collectors/lenscdr/collector.go:136-143 | A run is offered the rows of the pages up to the last, and all of them if and only if a page that is reached through cursors says it is the last. |
| LensCdr.StoppedIff | internal/collectors/lenscdr/collector.go:106-134 | Reading is cut short if and only if the process dies at some row, or a row that is readable, unseen and not too old cannot be encoded or logged. |
| LensCdr.DisturbedAt | internal/collectors/lenscdr/collector.go:116-131 | At the first such row, what was logged is what the rows before it yield, and that row besides if its log was delivered. |
| LensCdr.SavedIff | internal/collectors/lenscdr/collector.go:80-149 | A run is saved if and only if its file can be read and decoded, a last page is reached, no row cuts it short and the rename takes effect; otherwise the file stays, and over a file that cannot be read nothing is logged. |
| LensCdr.Collector.Collect | internal/collectors/lenscdr/collector.go:76-150 | A run adds its logs, replaces its file by way of a temporary one only after the last page, changes no other file, and reports success exactly when the file was replaced and it lived to say so. |
| LensCdr.SavedRunIsComplete | internal/collectors/lenscdr/collector.go:84-144 | A saved run emits exactly one log for each device and start time that some row has whose two times can be read, which is unstored and starts at or after the loaded start. |
| LensCdr.SavedRunLogsEveryRowIff | internal/collectors/lenscdr/collector.go:84-144 | Of the rows the loaded watermark lets through, a saved run emits each and not only each key if and only if no two share a device and a start time. |
| LensCdr.OrderAndPagingDoNotMatter | internal/collectors/lenscdr/collector.go:84-144 | Permuting rows or splitting pages differently changes neither the emitted keys nor the stored start nor the set of stored keys. |
| CdrHistory.BoundedDuplication | internal/collectors/lenscdr/collector.go:76-150 | Over every history of runs, saved or failed or killed anywhere, whose listed starts print as no earlier times, a key is logged at most once more than there are unsaved runs, and a key a saved run logged is barred. |
| NewRows.CoversMore | internal/collectors/lenscdr/collector.go:183-196 | After a saved run of either loop the watermark describes all that saved runs were ever offered: their latest start, and every key that starts then. |
| NewRows.WantsIffTimely | internal/collectors/lenscdr/collector.go:166-181 | Such a watermark lets a row through if and only if its key was never offered and no row offered before starts later. |
| CdrCompleteness.EachNewRowIsLoggedIff | internal/collectors/lenscdr/collector.go:76-150 | Over every history from an empty state, the saved runs log exactly the readable rows new to them, each on its own, if and only if no two of these share a device and start time and none starts before a row offered earlier; with every run saved that is the whole log. |
| CdrCompleteness.EachKeyIsLoggedIff | internal/collectors/lenscdr/collector.go:84-144 | Over every such history each key offered to a saved run is logged if and only if every row's key was offered before or the row is not older than any offered before. |
| CdrCompleteness.LateRowIsLost | internal/collectors/lenscdr/collector.go:177-178 | Once a saved run was offered a row, no row that starts before it is ever logged again. |
| CdrCompleteness.LateRowExample | internal/collectors/lenscdr/collector.go:177-178 | Two saved runs of one row each, the second with an earlier start and listed for the first time: it is in no log. |
| CdrHistory.BoundHoldsIff | internal/collectors/lenscdr/collector.go:166-196 | Over a set of start times the bound holds for every history if and only if each of them that can be read prints as no earlier a time. |
| CdrHistory.LoggedEveryOtherRun | internal/collectors/lenscdr/collector.go:183-196 | For every start that prints as an earlier or an unreadable time, two devices calling then are logged beyond the bound though every run is saved. |
| CdrHistory.NeverAgainAfterSave | internal/collectors/lenscdr/collector.go:145-149 | After a saved run logged a key, no later history logs it again. |
| CdrHistory.BoundIsReached | internal/collectors/lenscdr/collector.go:145-149 | The bound is tight: n lost saves and one kept log the same row n + 1 times. |
| CdrHistory.WatermarkIsExact | internal/collectors/lenscdr/collector.go:133-145 | From an empty state the file holds the maximum start saved runs emitted and exactly their keys at it, and saved runs never emit a key twice. |
| CdrHistory.StoredStartNeverDecreases | internal/collectors/lenscdr/collector.go:183-196 | Over every history the stored start never moves back. |
| AtomicFile.Volume.Save | internal/collectors/lenscdr/collector.go:228-252 | However a save ends, other files are untouched and the file is the old or the complete new one, the new one exactly when the rename took effect; a temporary file survives only a death. |
| AtomicFile.Volume.Replace | internal/collectors/phone/calllogs.go:269-298 | A record saved so is what the next read gives exactly when the rename took effect, and otherwise the file reads as before. |
| Scheduler.NoInterference | internal/collector/scheduler.go:22-43 | For every interleaving of collectors with files of their own, each collector's state, file and logs are those of taking its own turns alone. |
| Scheduler.EachTenantIsSequential | internal/collectors/lenscdr/register.go:14-18 | At every moment each tenant's logs and file are those of one sequential history of its own runs. |
| Scheduler.EachTenantFinishes | internal/collector/scheduler.go:22-43 | Given a turn to load, one per row and one to finish for each run, a tenant's runs have all ended, with the logs and the file of all of them in sequence. |
| Scheduler.BoundedDuplicationConcurrently | internal/collector/scheduler.go:22-43 | The duplication bound holds for each tenant at every moment of every interleaving. |
| Scheduler.SequentialIffApart | internal/collectors/lenscdr/register.go:14-18 | Every collector is sequential in every process and interleaving if and only if no two share a file; with a path per tenant, if and only if no tenant is configured twice. |
| Scheduler.SharedFileDuplicates | internal/collectors/lenscdr/register.go:14-18 | In any registry, two collectors that share a file can log the same row twice with both runs saved. |
| CallLogs.ScanIsAdvancing | internal/collectors/phone/calllogs.go:79-102 | Wherever a run is stopped, it has emitted what the advancing loop emits for some prefix of the joined entries. |
| CallLogs.SavedRunAgainstFrozen | internal/collectors/phone/calllogs.go:79-113 | A saved run whose listed starts print without loss leaves version 1 and the frozen loop's watermark, emits in time order, and emits all the frozen loop would exactly when those are in time order over the joined groups. |
| CallLogs.SavedRunLogsEveryCallIff | internal/collectors/phone/calllogs.go:79-113 | Of the calls the loaded watermark lets through, a saved run logs each, with its direction, if and only if no two share a start time and the joined groups hold them in time order. |
| CallLogCompleteness.EachNewCallIsLoggedIff | internal/collectors/phone/calllogs.go:55-116 | Over every history in one zone from an empty state, the saved runs log exactly the readable calls new to them, each on its own with its direction, if and only if no two of these share a start time, none starts before a call offered earlier, and each run lists its new ones in time order; with every run saved that is the whole log. |
| CallLogCompleteness.LateCallIsLost | internal/collectors/phone/calllogs.go:204-213 | Once a saved run was offered a call, no call that starts before it is ever logged again. |
| CallLogs.CountsAddUp | internal/collectors/phone/calllogs.go:99-110 | A saved run reports for each direction with calls exactly how many it logged, and these add up to all of them. |
| CallLogs.Collector.CollectEntries | internal/collectors/phone/calllogs.go:79-102 | The row loop logs the scanned calls and ends with the checkpoint advanced over them, their keys seen and their directions counted; it fails exactly when the scan was stopped. |
| CallLogs.Collector.SendCounts | internal/collectors/phone/calllogs.go:103-110 | Counts go out in the order placed, received, missed, none for a direction without calls, none after a rejected one. |
| CallLogs.Collector.Collect | internal/collectors/phone/calllogs.go:56-114 | One phone's turn: nothing without probe, zone, file and listing; then rows, counts and save, stopping at the first failure with the file unchanged; no other file changes, and the run goes on exactly after an unreachable phone or a complete turn. |
| CallLogOutcome.EntriesAreAllCalls | internal/collectors/phone/calllogs.go:123-134 | The joined list is the placed records, then the received, then the missed, each under its own direction. |
| CallLogOutcome.LoggedIsListed | internal/collectors/phone/calllogs.go:79-101 | Each logged call stands for a record of the group of its direction, under the phone's identifier and that record's start time. |
| CallLogOutcome.SavedTurnLogsAllIff | internal/collectors/phone/calllogs.go:79-113 | A saved turn logs one call, under its group's direction, for every readable record of the three groups if and only if these have distinct start times, none stored or too old, in time order within and across the groups. |
| CallLogOutcome.CountsAreGroupSizes | internal/collectors/phone/calllogs.go:99-110 | Such a turn reports for each group with readable records how many there are, and nothing for the others. |
| CallLogOutcome.CountsExact | internal/collectors/phone/calllogs.go:103-110 | Counts go out for placed, received, missed in this order, one for each with calls, up to the first that is rejected. |
| CallLogOutcome.LoadExact | internal/collectors/phone/calllogs.go:235-267 | A watermark is loaded if and only if the file is neither corrupt nor unreadable, empty without a file; only version 0 is re-read, keeping its keys and the wall clock its start shows. |
| CallLogOutcome.StoppedIff | internal/collectors/phone/calllogs.go:79-102 | Reading is cut short if and only if the process dies at some entry, or one that is readable, unseen and not older than the advanced checkpoint cannot be logged. |
| CallLogOutcome.TurnSavedIff | internal/collectors/phone/calllogs.go:56-114 | A turn is saved if and only if the phone answers with a zone and its calls, the file can be read, no entry cuts it short, no count is rejected and the rename takes effect; the run goes on exactly after a completed turn or a phone that does not answer. |
| CallLogHistory.BoundedDuplication | internal/collectors/phone/calllogs.go:55-116 | Over every history whose listed starts print as no earlier times, through any zones that never move the call later, a call is logged at most once more than there are unsaved runs. |
| CallLogHistory.BoundHoldsIff | internal/collectors/phone/calllogs.go:204-228 | In one zone and over a set of wall clocks the bound holds for every history if and only if the zone prints each of them as no earlier a time. |
| CallLogHistory.ZoneChangesKeepBoundIff | internal/collectors/phone/calllogs.go:61-85 | Through any sequence of zones the bound holds for every history over a set of wall clocks if and only if no zone puts one of them later than an earlier zone. |
| CallLogHistory.LoggedAgain | internal/collectors/phone/calllogs.go:204-228 | Where either condition fails there is a history, every run of it saved, in which a call is logged twice. |
| CallLogHistory.NeverAgainAfterSave | internal/collectors/phone/calllogs.go:99-113 | A call a saved run logged is not logged by any later run, through any zones that never move it later. |
| CallLogHistory.SkippedForGood | internal/collectors/phone/calllogs.go:204-228 | A call the frozen loop would take but a saved run skipped is never logged by any later run. |
| CallLogHistory.ReceivedCallIsLost | internal/collectors/phone/calllogs.go:123-134 | In every saved run, for any placed and received call of its listing, the received one older or with the same start time: the run logs no received call at that time, nor does any later run. |
| CallLogHistory.HistoryStoresBarred | internal/collectors/phone/calllogs.go:215-228 | In every history in one zone from an empty state the file stores no key that starts after it, which is what the above asks of the file. |
| CallLogHistory.MigratesAtMostOnce | internal/collectors/phone/calllogs.go:250-273 | Once any run was saved, in whatever zones, the file has version 1 and loads the same in every zone. |
| Migration.MigrationCommutesWithCollection | internal/collectors/phone/calllogs.go:235-267 | If the zone keeps the wall clocks in order, migrating and collecting in the zone logs call for call and counts what the UTC code would, and the files left agree after migration. |
| Migration.MigrationCommutesWithHistories | internal/collectors/phone/calllogs.go:235-273 | The same over every sequence of runs, whichever of them is the first to be saved. |
| Migration.CommutesIffOrderKept | internal/collectors/phone/calllogs.go:256-267 | The row loops correspond for every legacy watermark and listing if and only if the zone keeps those wall clocks in strict order. |
| Migration.OrderIsNeeded | internal/collectors/phone/calllogs.go:256-267 | For any two wall clocks out of order, after the old code stored a call at the later one, the two treat a call at the earlier one differently. |
| Migration.LegacyIsWritten | internal/collectors/phone/calllogs.go:215-228 | That legacy watermark is what the UTC code stores after logging the call. |
| PhoneFleet.CallLogsCollector.Collect | internal/collectors/phone/calllogs.go:55-116 | A run takes the phones' turns in order up to the first that ends it, each on its own file. |
| PhoneFleet.PhonesAreIndependent | internal/collectors/phone/calllogs.go:55-116 | Where phones have files of their own, a phone that is reached has the turn it would have had alone and one behind an error has none; a phone is reached if and only if no earlier one ends the run. |
| PhoneFleet.EachPhoneIsSequential | internal/collectors/phone/calllogs.go:55-116 | Over every sequence of runs each phone's file and logs are those of the history of the turns it had. |
| PhoneFleet.EachPhoneIsBounded | internal/collectors/phone/calllogs.go:55-116 | The duplication bound holds for each phone over the turns it had. |
| PhoneFleet.StarvedBehindAnError | internal/collectors/phone/calllogs.go:61-76 | Behind a phone whose zone or listing fails in every run, a phone is never logged and its file never changes. |
| DigestParams.ParseDigestValues | internal/phoneclient/digest.go:79-127 | The reader ends on every byte string, never reads outside it, and computes the recursive reading. |
| DigestParams.ScanQuoted | internal/phoneclient/digest.go:94-115 | The inner loop decodes up to the closing quote, or runs to the end exactly when there is none. |
| DigestParams.UnquoteEscape | internal/phoneclient/digest.go:94-131 | Decoding undoes escaping for every byte string, whatever follows, up to the re-encoding of bytes outside ASCII. |
| DigestParams.ReencodeIff | internal/phoneclient/digest.go:99-110 | A quoted value comes back unchanged if and only if it is ASCII. |
| DigestParams.ReadRender | internal/phoneclient/digest.go:79-131 | Reading back any written parameter list gives for each key the last value written. |
| Digest.OffersDigest | internal/phoneclient/digest.go:15-18 | A challenge that passes the prefix test is long enough for the slice that follows. |
| Digest.OffersDigestIsPrefixTest | internal/phoneclient/digest.go:15 | On ASCII challenges the test is whether the trimmed, lower-cased text starts with the scheme name and a space. |
| Digest.SelectQop | internal/phoneclient/digest.go:70-77 | The client chooses auth if and only if some comma-separated part, trimmed, is auth. |
| GoStrings.SplitExact | internal/phoneclient/digest.go:71 | The parts hold no comma and, joined by commas, make up the value. |
| GoStrings.TrimsFront | internal/phoneclient/digest.go:72 | Trimming leaves the rest of a text from the first character that is no space on. |
| GoStrings.TrimsBack | internal/phoneclient/digest.go:72 | And the part of it before the spaces at its end. |
| Digest.DigestAuthorization | internal/phoneclient/digest.go:14-68 | The loop over the challenge and the list of parts yield the header or error of the model that the following rows characterise. |
| Digest.RefusalsExact | internal/phoneclient/digest.go:18-38 | Over any written challenge: incomplete if and only if it gives no realm or no nonce; else unsupported if and only if it names an algorithm that is neither MD5 nor SHA-256 in any case; else without randomness if and only if it lists auth and there is none; else answered. |
| Digest.NotDigestIff | internal/phoneclient/digest.go:15-17 | A challenge is refused as no Digest if and only if it fails the prefix test. |
| Digest.HeaderCarries | internal/phoneclient/digest.go:45-67 | Whatever bytes the fields hold, a server reading the header finds every field, re-encoded. |
| Digest.ResponseIsExpected | internal/phoneclient/digest.go:41-62 | The client's digest is the one section 3.4.1 of RFC 7616, or without qop section 3.2.2.1 of RFC 2617, gives under the settled algorithm for the fields read. |
| Digest.ServerAccepts | internal/phoneclient/digest.go:14-68 | For ASCII fields and any password, with and without qop, the server recovers every field and its recomputed digest equals the one sent. |
| Digest.ExchangeSucceeds | internal/phoneclient/digest.go:14-131 | A written ASCII challenge that names MD5 or SHA-256 in any case, or no algorithm, is understood and answered, and the answer accepted by a server that computes under the algorithm it named, or MD5 if it named none. |
| Handshake.Client.SendRequest | internal/phoneclient/client.go:275-319 | One plain exchange or, asked for digest and met with 401, a second one with the answer to that challenge; failed transport, failed close and an unusable challenge are errors. |
| Handshake.Client.AuthenticatedRequest | internal/phoneclient/client.go:261-273 | A plain request first; only a 401 leads to a request with digest, and its response is returned; the exchanges made are a safe trace, and a 401 comes back only after credentials were sent. |
| Handshake.Client.Probe | internal/phoneclient/client.go:163-194 | A plain probe first; only a 401 with a challenge leads to a request with digest; the exchanges are a safe trace and each state has exactly its stated causes. |
| Handshake.AuthenticatedTraceIsSafe | internal/phoneclient/client.go:261-319 | For every reply script: at most three exchanges of the same method, endpoint and body, each but the last met with 401; credentials only in the last, answering the challenge of the reply before it. |
| Handshake.ProbeTraceIsSafe | internal/phoneclient/client.go:163-194 | The same for a probe. |
| Handshake.AuthenticatedResult | internal/phoneclient/client.go:261-319 | What comes back is the reply to the last exchange unless that failed, and a 401 comes back only after credentials were sent. |
| Handshake.AuthenticatedExact | internal/phoneclient/client.go:261-319 | Which exchanges an operation makes and what it returns, for each way the first three replies can go. |
| Handshake.ProbeExchanges | internal/phoneclient/client.go:163-194 | A probe makes one exchange, two after a challenge, and three if the second plain request is challenged too and that challenge can be answered. |
| Handshake.ProbeFailure | internal/phoneclient/client.go:163-194 | An unreachable probe reports the transport, close or challenge that failed, or the status that was not expected. |
| Handshake.ProbeStates | internal/phoneclient/client.go:163-194 | A probe errs exactly when unreachable, is api_disabled exactly when the first reply is 404, and the other states have exactly their stated causes. |
| Handshake.ThirdExchangeIsAccepted | internal/phoneclient/client.go:261-319 | A phone that challenges twice, the second time with ASCII Digest fields and a supported algorithm or none, receives an Authorization its server side accepts under the algorithm it meant. |
| Handshake.SuccessesDifferIff | internal/phoneclient/client.go:185-192 | For every status from 200 to 299: after the challenge it is reachable, and met at once it is classified differently if and only if it is not 200, 201, 202 or 204. |
| Backoff.Compute | internal/lensclient/client.go:240-252 | The doubling loop never overflows 64 bits, takes at most 63 rounds and computes the closed form. |
| Backoff.WaitIsCappedDoubling | internal/lensclient/client.go:240-252 | The wait lies within its bounds and is the capped doubling, except one unit more when an odd cap is one above it. |
| Backoff.WaitIsMonotone | internal/lensstream/stream.go:236-248 | Waits never shrink from one failure to the next. |
| Retry.Settle | internal/lensclient/client.go:77-91 | Every accepted configuration has at least one attempt and valid backoff bounds, and exactly the stated ones are refused. |
| Retry.Do | internal/lensclient/client.go:181-215 | The request ends correctly, waits the successive backoffs, and waits at most one cap per retry in total. |
| Retry.CorrectIsUnique | internal/lensclient/client.go:181-215 | Being correct fixes the number of attempts and the verdict. |
| Retry.SucceedsIffReachable | internal/lensclient/client.go:183-228 | A request succeeds if and only if some attempt within the limit succeeds and is reached through retryable failures and undisturbed waits. |
| Retry.WaitsIffTransient | internal/lensclient/client.go:206-228 | A wait and another attempt follow an attempt if and only if it was not the last allowed and failed without a status, with 429 or a server error, or with a 400 whose lower-cased body mentions a limit. |
| TokenCache.Client.AccessToken | internal/lensclient/client.go:144-179 | A hit returns the cached token and has more than a minute left; a mint stores and, if its metrics are accepted, returns the reply's token with its lifetime; any other reply is an error and leaves the cache unchanged. |
| TokenCache.HandsOutLatest | internal/lensclient/client.go:144-179 | From an empty cache, every token returned is the one in the reply of the latest minting call, this one included. |
| TokenCache.MintsAreSpaced | internal/lensclient/client.go:147-168 | If every lifetime is at least e, successive mints are at least e minus a minute apart. |
| TokenCache.MintsPerWindow | internal/lensclient/client.go:147-168 | A window of length w holds at most 1 + w / (e - 1 minute) mints. |
| TokenCache.PromisesSpaceMints | internal/lensclient/client.go:147-168 | The same in what the replies say: if each promises at least s seconds, more than 60, and at most 9223372036, mints are s - 60 seconds apart and a window holds accordingly many. |
| TokenCache.HonouredIff | internal/lensclient/client.go:147-168 | A minted token is found in the cache until a minute before its promised end if and only if it was promised for at most 9223372036 seconds. |
| TokenCache.MintsAgainIff | internal/lensclient/client.go:147-168 | A call right after a mint mints again if and only if the lifetime left after 64-bit wrapping is at most a minute; within the range, if and only if the reply said at most 60 seconds. |
| TokenCache.LifetimeExactIff | internal/lensclient/client.go:168 | The 64-bit duration is the promised lifetime if and only if that is at most 9223372036 seconds, and it is never longer. |
| TokenCache.HugeLifetimesWrap | internal/lensclient/client.go:168 | One second beyond the range the lifetime is negative; 18446744173 seconds become less than two minutes. |
| LensStream.Stream.EmitDevice | internal/lensstream/stream.go:180-214 | A payload with id and tenant yields the connected gauge with the device's state, a count of one and a zero age, for its tenant and id, in order until one is rejected; any other payload is an error and yields nothing. |
| LensStream.Stream.Session | internal/lensstream/stream.go:110-178 | A session sends its messages, gauges and points in order up to the first failure, clears the gauge, closes what it opened, and returns that failure joined with a failed close. |
| LensStream.SessionErrs | internal/lensstream/stream.go:110-178 | No session returns without an error, however many frames it reads. |
| LensStream.Stream.Run | internal/lensstream/stream.go:62-86 | Invalid settings do nothing; otherwise sessions follow one another with a count and a backoff between them until a round ends the loop, as a session without an error would. |
| StreamOutcome.LiveExact | internal/lensstream/stream.go:162-177 | A subscription yields the three points of every update in order, until the first frame that completes it, is an error, cannot be read, or brings a bad or rejected update, and ends with that error. |
| StreamOutcome.SomewhereEnds | internal/lensstream/stream.go:162-177 | Every sequence of frames has a read that ends the subscription, none before it doing so. |
| StreamOutcome.ConnectedExact | internal/lensstream/stream.go:162-206 | The connected points of a session are one per update processed, with that update's state, tenant and id, and one more if the update that ended it had its first point accepted. |
| StreamOutcome.SessionReaches | internal/lensstream/stream.go:110-160 | Each step of a session is taken if and only if all before it succeeded; the gauge is cleared exactly when set and the connection closed exactly when open. |
| StreamOutcome.SessionFailure | internal/lensstream/stream.go:110-159 | A session that gets no subscription ends with the error of the first step that failed. |
| StreamOutcome.RunExact | internal/lensstream/stream.go:66-85 | A run is one session per round, each after the first preceded by one count and that round's backoff, until the first round that stops it, and of that round what came before it stopped. |
| StreamLanguage.EveryRunIsInTheLanguage | internal/lensstream/stream.go:62-178 | For every script the trace is accepted by the protocol automaton. |
| StreamLanguage.EachEventFollows | internal/lensstream/stream.go:140-176 | Subscribe directly follows the acknowledgement, points follow the gauge or points, and each later session follows one count and one wait. |
| StreamLanguage.FirstIsBegin | internal/lensstream/stream.go:66-78 | Nothing happens before the first session begins; in particular it is not preceded by a count or a wait. |
| StreamLanguage.CountsMatchState | internal/lensstream/stream.go:62-178 | Gauges set exceed gauges cleared exactly while a subscription is live, and reconnect counts number the sessions begun before. |
| StreamLanguage.GaugesAlternate | internal/lensstream/stream.go:157-160 | Connected 1 and 0 alternate at every prefix and balance whenever no subscription is live. |
| StreamLanguage.WaitsGrow | internal/lensstream/stream.go:66-77 | The wait after the k-th reconnect count is the k-th backoff. |
| StreamLanguage.EndsOnlyIf | internal/lensstream/stream.go:66-85 | No run ends by a session that succeeded; a run goes on unless some round stops it, and fails exactly when the first that does could not count its reconnect uncancelled. |
| ShelfGrid.Grid | grafana/v2.py:217-235 | The loop over x, y and row height places the panels as the layout function does. |
| ShelfGrid.PlacedInOrder | grafana/v2.py:217-235 | Every panel is placed once, in order, at a non-negative position. |
| ShelfGrid.PanelsDoNotOverlap | grafana/v2.py:217-235 | No two panels overlap, whatever their widths. |
| ShelfGrid.WithinColumnsIff | grafana/v2.py:220-233 | A panel lies within the 24 columns if and only if it is at most 24 wide. |
| ShelfGrid.NewShelfIff | grafana/v2.py:217-235 | A panel stands right of the one before it if and only if both fit within 24 columns from where that one stands, and otherwise starts a shelf right below the tallest panel of the last. |
| ShelfGrid.FewShelves | grafana/v2.py:217-235 | The shelves in use number at most 2 * (total width) / 24 + 1. |
| TenantEmitter.Scope.SetTenants | cmd/polylens2otel/tenant_emitter.go:34-51 | The shared list becomes the cleaned list. |
| TenantEmitter.CleanIsExact | cmd/polylens2otel/tenant_emitter.go:34-51 | The cleaned list holds each trimmed non-blank tenant exactly once and nothing else. |
| TenantEmitter.Sink.Emit | cmd/polylens2otel/tenant_emitter.go:53-81 | An emission sends one record, or one per tenant the shared scope holds at that moment. |
| TenantEmitter.ChainKeepsScopeOrTenant | cmd/polylens2otel/tenant_emitter.go:108-117 | Any chain of calls keeps the shared scope until a non-blank tenant is chosen and then stamps the last one named. |
| TenantEmitter.OneRecordPerTenant | internal/telemetry/emitter.go:102-116 | Without a choice one record per tenant in scope, or one for discovery; with one exactly one record for it. |
| TenantEmitter.RecordsCarry | internal/telemetry/emitter.go:35-44 | Every record carries its name and exactly the attributes with a key among those of the emitter, of the chain's devices where not empty, of its tenants and of the call, and a fanned one its tenant besides. |
| TenantEmitter.ReplaceTenants | cmd/polylens2otel/tenant_emitter.go:34-117 | A later replacement is seen by all descendants without a chosen tenant and by none with one. |
| EnvNames.DecodeEncode | internal/configdoc/main.go:267-269 | Leftmost replacement undoes the encoding of dots exactly on keys without an underscore before an underscore or dot. |
| EnvNames.EnvRoundTripIff | internal/config/config.go:202-205 | For every ASCII key the loader recovers the key from its documented name if and only if it has no capital and meets that condition. |
| EnvNames.EnvNamesDistinct | internal/configdoc/main.go:267-269 | No two such keys share a name. |
| EnvNames.EnvNamesCollide | internal/configdoc/main.go:267-269 | Every lower-case key outside the condition shares its name with another key, one inside it, which is the key the loader reads from that name. |
| EnvNames.NameIsUpper | internal/configdoc/main.go:267-269 | A documented name starts with the prefix and holds no lower-case letter and no dot. |
| EnvNames.PrefixIsTakenOff | internal/config/config.go:202-205 | The loader takes the prefix off a name and reads any other name as it stands. |
| PhoneStatus.Collector.Collect | internal/collectors/phone/collectors.go:76-122 | Phones are handled in order until an emission or a statistics error ends the run, each with its gauges first. |
| PhoneStatus.StatusIsExact | internal/collectors/phone/collectors.go:76-122 | Each reported phone yields exactly its four state gauges, and statistics are read exactly for reported phones whose state is ok. |
| PhoneStatus.TargetExact | internal/collectors/phone/collectors.go:76-122 | A phone's gauges go out up to the first that is rejected; then for one that is ok a read and, if that succeeds, uptime, packets received and packets sent, up to the first that is rejected. |
| PhoneStatus.GoesOnIff | internal/collectors/phone/collectors.go:76-122 | A run succeeds if and only if no phone has a gauge rejected, its statistics missing or one of their points rejected. |
| PhoneStatus.RunUpTo | internal/collectors/phone/collectors.go:76-122 | The trace of a run is that of its phones one after another, up to and with the first that ends it. |
| PhoneStatus.ReportedIff | internal/collectors/phone/collectors.go:76-95 | A phone is reported if and only if its gauges are accepted and no phone before it ended the run. |
| PhoneStatus.OneHot | internal/collectors/phone/collectors.go:76-95 | Exactly one of the four gauges is 1, that of the reported state; failed probes and unknown states report unreachable. |
| PhoneStatus.StatusFollowsReplies | internal/collectors/phone/collectors.go:76-122 | Told by the phones' replies to the probe: exactly the gauge of the state they amount to is 1, and statistics are read exactly for reported phones whose probe was accepted, at once or after the challenge. |

## Left out

- HTTP, TLS and WebSocket transports, JSON coding and operating-system file calls are scripts of replies and failures; JSON is taken to return what was stored.
- Hash internals and the random cnonce are parameters; watermark paths are any function that keeps tenants apart.
- CdrHistory.WatermarkIsExact: for histories whose listed starts print without loss; after one that does not, the file names another time than the latest.
- CallLogs.SavedRunLogsEveryCallIff: for listings whose starts print without loss, as do the comparisons of the two row loops.
- CallLogCompleteness.EachNewCallIsLoggedIff: in one zone, because a change of zone changes the start by which a stored key is compared; what is logged twice through changes of zone is stated for any sequence of them.
- The reading of the zone name from the phone; a zone is whatever the run is given, or none.
- Counters of records read and emitted, log bodies and attributes of the collectors.
- RunOnce's span, duration and availability gauges; a panic it recovers is a run that dies. Intervals and tickers only decide which interleaving happens.
- Redirects of the HTTP client, response decoding and the create-request errors of the phone client.
- Error texts, redaction and mutation rejection of the Lens client.
- StartSpan and LogEvent of the tenant emitter, which fan out like the metrics; the instrument caches.
- Panel identifiers, dashboard content and rules; collapsing of duplicate phone lines; Lens polling collectors and device pagination; start-up wiring.
