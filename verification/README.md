# A verified model of the Signal client's protocol and persistence logic

The client sends end-to-end encrypted messages to every device of a recipient, links itself to an
account over a provisioning socket on a WiFi link that may drop, keeps its state in a key-value
store (PDDB), and keeps the server stocked with one-time pre-keys. This project models that logic in
Dafny and proves what it promises over whole runs. Cryptography, HTTP, PDDB and Xous IPC are
parameters or nondeterministic events.

| part | modules |
|---|---|
| shared types, decimal text, composite keys, UTF-8 | `Common`, `Decimal`, `Keys`, `Utf8` |
| session dictionary | `Sessions` |
| multi-device send | `Send` (the protocol on values), `SendClient` (the loops over the store), `SendSafety` and `SendRuns` (any server), `SendConvergence` (a server that holds a device map), `SendServer` (one such server), `SendContent` (what is sent is what is read) |
| provisioning worker and its page | `WsWorker` |
| WiFi observer and its condition variable | `Observer` |
| retry-once linking and flap watchers | `FlapRecovery`, `FlapNotice`, `LinkRun` (joined to the workers) |
| conversation list | `PeerJson`, `Peers` |
| pre-keys | `Prekeys` (the device), `PrekeyRuns` (whole runs with a server), `KyberStore` |
| account | `Account` (the store), `AccountCache` (the fields in memory against it) |
| byte-level transforms | `CtrMode`, `Padding`, `Proto`, `Content` |

Where the source works by changing things step by step, the model has a class or a method with a loop
whose `ensures` ties it to a function on values, and the properties are proved about that function.
Protocols with several threads are state machines over their steps. `dafny verify dfyconfig.toml`
checks everything.

## What the environment is

- **Server.** `Send.Env.reply` gives the answer to each request from its position in the run and its
  content, so a statement for all `Env` covers every server, adaptive ones included. The serde parsers
  and `from_utf8_lossy` are functions of the environment; where it matters that the latter leaves
  valid UTF-8 alone, the lemma says so.
- **Encryption** needs a session and returns that session's registration id
  (src/manager/outgoing.rs:265-270); an entity carries the content that decrypting it yields. Every
  text inside a `BadResponse` other than the mismatch marker is shortened.
- **Clocks.** The 30 s budget is an arbitrary predicate of the run; the worker's three clock readings
  per iteration are arbitrary inputs, with no assumption that they grow.
- **Store.** Writes do not fail and are atomic, except where a property is about that: the account's
  writes that do not truncate, a record or counter write cut between its delete and its write, and
  prefixes of the link batch.
- **Random keys** are inputs; the generator gives no key pair twice.

## Where the code and its documentation disagree

- `FlapWatcher::new` says that a flap between the observer's creation and the watcher's is not lost
  (src/manager/cancellation.rs:101-104). It is lost if the link is already down when the watcher reads
  its seed (`FlapNotice.FlapBeforeSeedIsMissed`), or if the listeners for the update are cloned after
  that reading and before the watcher is registered (`FlapNotice.FlapDuringSetupIsMissed`).
  `FlapNotice.NoticedExactlyWhen` gives the exact condition.
- The recipient path's fallback device (src/manager/send.rs:569-573) never reaches the server, because
  encrypting without a session fails first: `SendSafety.OnlySessionsAreEncrypted`.
- Own sync transcripts carry the destination under tag 7 and are read under tag 1
  (src/manager/outgoing.rs:67-104, src/manager/main_ws.rs:135-145), so this client drops every
  transcript it sends: `Content.OwnTranscriptsAreDropped`.
- A transcript that does carry a destination under tag 1 is delivered only if byte 8 of the destination
  is a character boundary; otherwise cutting the author label panics the receive worker
  (src/manager/main_ws.rs:767): `Content.TagOneDeliveredExactlyWhen`, `Content.AccentedDestinationPanics`.
- `link` uses `set_new` on keys that `new` has just written, against `set_new`'s own precondition
  (src/account.rs:606-618): "true" over "false" never reloads as true (`Account.FlagsNeverReload`), and a
  device id can keep digits of an older one (`Account.StaleDigitSurvives`). The fields in memory say
  otherwise until the account is read again (`AccountCache.CacheOutrunsStore`).
- `generate_one_time_prekeys` says that later cycles do not collide because the counter has advanced
  (src/manager/prekeys.rs:160-166). That holds over every failed upload and every crash but one: if the
  power goes between the counter's delete and its write, the counter is seeded anew and ids can collide
  (`PrekeyRuns.TornCounterLosesAnAdvertisedKey`); `PrekeyRuns.ReseedKeepsExactlyWhen` says exactly when.
- Escape-then-parse of peer records does not restore control characters below 0x20 other than newline,
  carriage return and tab: `PeerJson.RoundTripExactlyWhenClean` gives the exact condition.

## Model

| member | source | states |
|---|---|---|
| `Sessions.SessionKeyInjective` | src/manager/stores.rs:385-388 | Different (name, device) pairs have different text keys, even when names contain dots. |
| `Sessions.KeyDeviceExact` | src/manager/stores.rs:397-407 | Stripping `u.` from a session's key and parsing gives its device id if the session is u's, and nothing for anyone else's. |
| `Sessions.DeviceIdsExact` | src/manager/stores.rs:390-411 | The enumeration is strictly ascending and lists exactly the live devices of the name. |
| `Sessions.LoadRefines` | src/manager/stores.rs:416-423 | A load from the text-keyed dictionary finds exactly what the pair-keyed map holds. |
| `Sessions.StoreRefines` | src/manager/stores.rs:425-435 | A store updates exactly one pair. |
| `Sessions.DeleteRefines` | src/manager/stores.rs:385-388 | A delete removes exactly one pair. |
| `Sessions.TextKeysRefinePairs` | src/manager/stores.rs:385-435 | Over every run of stores and deletes the dictionary behaves as a map from (name, device). |
| `Sessions.SessionStore.Load` | src/manager/stores.rs:416-423 | Returns the record of that address in the abstract map, or none. |
| `Sessions.SessionStore.Save` | src/manager/stores.rs:425-435 | Changes that address and no other. |
| `Sessions.SessionStore.Delete` | src/manager/stores.rs:385-388 | Removes that address and no other; a missing one is fine. |
| `Sessions.SessionStore.DeviceIdsFor` | src/manager/stores.rs:397-411 | List, strip, parse, sort and dedup, in any listing order, give exactly the ascending live devices. |
| `KyberStore.Base64Injective` | src/manager/stores.rs:331-331 | The unpadded URL-safe encoding of a base key determines the key. |
| `KyberStore.Base64Vectors` | src/manager/stores.rs:331-331 | The encoding agrees with the vectors of RFC 4648 and uses its URL-safe alphabet. |
| `KyberStore.MarkKeyInjective` | src/manager/stores.rs:331-337 | Different (kyber, ec, base) tuples have different marks. |
| `KyberStore.MarkIsNoRecord` | src/manager/stores.rs:311-337 | No mark is ever the key of a record. |
| `KyberStore.MarksAreExact` | src/manager/stores.rs:318-359 | After every run a tuple is refused exactly when the run has used it before. |
| `KyberStore.RecordsAreExact` | src/manager/stores.rs:295-359 | After every run each id reads back the record saved last; marks disturb no record. |
| `KyberStore.AcceptedAtMostOnce` | src/manager/stores.rs:318-359 | Of two uses of one tuple the later is refused; the earlier is accepted iff it is the first. |
| `KyberStore.Store.Get` | src/manager/stores.rs:295-304 | Returns the record saved last under the id in the store's history, or none. |
| `KyberStore.Store.SaveRecord` | src/manager/stores.rs:306-316 | Extends the history by that save. |
| `KyberStore.Store.MarkKyberUsed` | src/manager/stores.rs:318-359 | Succeeds iff the tuple is new to the history; a refusal changes nothing. |
| `SendSafety.MarkerIsExact` | src/manager/send.rs:417-479 | For every response: a repair is chosen iff the status is 409/410, and a UTF-8 body is then recovered unchanged; done iff 200/204; backoff iff unreachable, 429 or 5xx. |
| `SendSafety.BackoffValues` | src/manager/send.rs:863-867 | The three delays are 500, 1000 and 2000 ms. |
| `SendSafety.BackoffCaps` | src/manager/send.rs:863-867 | Every later delay is 4000 ms. |
| `SendSafety.TargetsExact` | src/manager/send.rs:560-563 | What an attempt addresses is ascending and exactly the live devices other than the excluded one. |
| `SendSafety.OnlySessionsAreEncrypted` | src/manager/send.rs:560-605 | With no session for the recipient the fallback device cannot be encrypted to: the attempt fails before any PUT. |
| `SendSafety.EncryptAllExact` | src/manager/outgoing.rs:253-318 | Encryption succeeds iff every device has a session, and then yields one entity per device with that session's registration id. |
| `SendSafety.RepairExtends` | src/manager/send.rs:883-945 | A repair makes only GETs for this account, never sleeps, and touches no other account's sessions. |
| `SendSafety.AttemptExtends` | src/manager/send.rs:558-653 | An attempt stops without a request, or makes exactly one PUT and reports delivery iff it was accepted. |
| `SendSafety.SubmitIsSafe` | src/manager/send.rs:527-655 | Against any server: at most 3 PUTs and 3500 ms of sleep; each PUT addresses, in ascending order, exactly the devices with a session at that moment other than the excluded one, each under its session's registration id; success iff the last PUT got 200/204; other accounts untouched. |
| `SendSafety.SyncPutSkipsSelf` | src/manager/send.rs:560-568 | No sync-leg PUT addresses the sending device, whatever sessions exist. |
| `SendSafety.TwoLegTrace` | src/manager/send.rs:798-861 | In every run the trace splits: first only requests for the recipient's account, whose PUTs carry the message's timestamp and the data content in every entity; then only requests for the own account, whose PUTs carry the same timestamp and the transcript and skip the sending device; none of the latter without an accepted recipient PUT; the result is the recipient leg's. |
| `SendSafety.SyncLegFollows` | src/manager/send.rs:826-860 | After a successful recipient leg the sync leg does run: discovery first if no other own device is known, otherwise a PUT, unless the budget is spent; after a failed one nothing more is sent and its error is returned. |
| `SendRuns.DecisionOf` | src/manager/send.rs:417-479 | Each answer's decision, status by status, the final errors 401, 404, 413 and 428 included. |
| `SendRuns.ProcessLaw` | src/manager/send.rs:1017-1054 | The entry with the requested id, or else the first entry, gives the session, filed under the requested device; anything unusable is an error. |
| `SendRuns.FetchOneLaw` | src/manager/send.rs:905-943 | One GET per device: 404 is passed over, a bundle becomes that device's session, anything else aborts with its own error and leaves the sessions alone. |
| `SendRuns.FetchAllLaw` | src/manager/send.rs:904-944 | The missing devices are asked for in order up to the first answer that is neither 404 nor a usable bundle; there is an error iff there is such an answer; each device ends with the session given to it last, or with what it had. |
| `SendRuns.DropLaw` | src/manager/send.rs:871-881 | Exactly the named devices of the account lose their sessions. |
| `SendRuns.RepairObeys` | src/manager/send.rs:883-945 | A repair drops exactly the extras and then fetches the missing by that law. |
| `SendRuns.AttemptObeys` | src/manager/send.rs:558-653 | An attempt with nobody to address or an impossible fallback id stops without a request; any other makes one PUT and does what its answer calls for: done, pause and retry, repair and retry, drop the stale and retry, or stop with that answer's error. |
| `SendRuns.SubmitLaw` | src/manager/send.rs:527-655 | Every call against any server is a row of at most three such attempts within the budget, and ends as the last one says or exhausted. |
| `SendRuns.AnswerDecides` | src/manager/send.rs:608-653 | In every call, a PUT answered transiently is followed at once by another from the same sessions while attempts and budget remain, and otherwise ends the call exhausted; success, a final error and an unreadable mismatch end it there with that outcome. |
| `SendRuns.SleepIsExact` | src/manager/send.rs:647-651 | The time slept is exactly 500, 1000 and 2000 ms for a first, second and third PUT answered transiently; exhaustion means three PUTs or a spent budget. |
| `SendRuns.EstablishLaw` | src/manager/send.rs:991-1014 | Discovery establishes the usable entries up to the first unusable one, a device ending with its last entry's session; an error iff there is an unusable one. |
| `SendRuns.DiscoverLaw` | src/manager/send.rs:971-988 | Discovery makes one request; 404 means no devices, any other failure its own error, and neither changes a session. |
| `SendRuns.FailedDiscoverySkips` | src/manager/send.rs:732-762 | A sync leg whose discovery fails or finds nobody ends there, without an error and without a PUT. |
| `SendContent.WhatIsSentIsRead` | src/manager/outgoing.rs:177-248 | For one plaintext, in every run: each entity of a recipient PUT strips and decodes to exactly the body and timestamp sent, each entity of an own-account PUT to a transcript of them. |
| `SendConvergence.RepairShrinks` | src/manager/send.rs:897-944 | Against a truthful 409 every step of the repair, aborted or not, keeps or shrinks the difference between sessions and registered devices, and no step touches another account's sessions. |
| `SendConvergence.RepairView` | src/manager/send.rs:897-944 | If every bundle request is answered with a bundle or 404, the repair ends without error and leaves the known registered devices and a session for exactly the missing ones that have a bundle. |
| `SendConvergence.SubmitFollowsCourse` | src/manager/send.rs:527-655 | Against a server that holds a device map, the loop's statuses, outcome and final sessions are those of a small machine on two maps. |
| `SendConvergence.FanOutConverges` | src/manager/send.rs:527-655 | Any non-empty session set converges: one PUT iff it already matches, else 409 then 200; the accepted PUT addresses exactly the registered devices, which then are the sessions. |
| `SendConvergence.SyncLegConverges` | src/manager/send.rs:707-792 | The leg never fails and the sessions end up being the other own devices; if there are any, the last PUT is accepted by exactly them (one PUT if they match or were just discovered, else 409 and 200); if there are none, nothing is sent or a 409 clears what was left. |
| `SendConvergence.DiscoverView` | src/manager/send.rs:959-1015 | With no other own device known, discovery leaves exactly the listed devices as sessions, and reports none iff none is listed. |
| `SendConvergence.CourseTable` | src/manager/send.rs:549-646 | Every possible course of statuses, outcomes and final sessions for a server that also checks registration ids, an empty device map included. |
| `SendConvergence.AbsentCourse` | src/manager/send.rs:928-939 | With an unknown registered device that has no bundle, skipped 404s never end the call: it is 409 three times and exhausted, or nobody is left to send to. |
| `SendConvergence.DeliveryExactlyWhen` | src/manager/send.rs:527-655 | Against a server that holds a device map, with or without the staleness check and with any bundles missing: delivered iff a session and a registered device exist, and either nothing is stale and every unknown device has a bundle, or the sets match, not all are stale and the stale ones have bundles. |
| `SendConvergence.NextCallSucceeds` | src/manager/send.rs:549-558 | After 409, 410, 409 and RetryExhausted the sessions equal the server's map, and the next call is accepted on its first PUT. |
| `SendServer.ServerLists` | src/manager/send.rs:959-1015 | That server also lists its devices as the sync leg's result assumes. |
| `SendServer.ServerServes` | src/manager/send.rs:2139-2178 | For every registered device map there is a server that answers as the convergence results assume, with or without the staleness check. |
| `SendClient.Client.DropSessions` | src/manager/send.rs:897-903 | The delete loop leaves the sessions the protocol names; ids out of range are skipped. |
| `SendClient.Client.HandleStale` | src/manager/send.rs:871-881 | Drops exactly the stale devices' sessions. |
| `SendClient.Client.FetchOne` | src/manager/send.rs:905-943 | One missing device: session stored on an acceptable bundle, skipped on 404, otherwise the error that aborts. |
| `SendClient.Client.HandleMismatched` | src/manager/send.rs:883-945 | Extras dropped, then missing devices fetched in order up to the first error. |
| `SendClient.Client.Targets` | src/manager/send.rs:560-563 | The live devices of the name without the excluded one. |
| `SendClient.Client.EncryptAll` | src/manager/send.rs:584-605 | One entity per device in order, or the first error. |
| `SendClient.Client.AfterPut` | src/manager/send.rs:615-653 | What each decision does to sessions, requests and time slept. |
| `SendClient.Client.OneAttempt` | src/manager/send.rs:560-653 | One turn of the loop equals the protocol's attempt. |
| `SendClient.Client.Submit` | src/manager/send.rs:527-655 | The retry loop over the mutable store equals the protocol's run: result, requests, sleep and sessions. |
| `SendClient.Client.Discover` | src/manager/send.rs:959-1015 | Establishes every listed device but the excluded one, in order, up to the first rejected bundle. |
| `SendClient.Client.SubmitSync` | src/manager/send.rs:707-792 | Discovery only when no other own device is known, then the loop with the sending device excluded. |
| `SendClient.Client.SubmitBoth` | src/manager/send.rs:798-861 | The two legs in order, the second only after success, its failure not reported. |
| `WsWorker.AnsweredExactlyOnce` | src/manager/ws_server.rs:273-396 | Every call is given back exactly once and in order; a result and a parked caller never coexist after an iteration; nothing stays parked once the loop ends. |
| `WsWorker.FirstResultWins` | src/manager/ws_server.rs:273-396 | Whatever is handed over first, also when the loop has ended, is the earliest terminal event of the run read off the inputs alone, or Cancelled if there was none; a flap never overwrites it. |
| `WsWorker.EarliestIsOwed` | src/manager/ws_server.rs:273-396 | While the loop runs: if a terminal event has happened, the earliest one is pending or was the first result handed over; if none has, nothing is pending or handed over. |
| `WsWorker.BlockedCallerGetsFirst` | src/manager/ws_server.rs:168-202 | A caller that blocks is answered iff a terminal event has happened or the loop has ended; its first answer is the earliest terminal event, else Cancelled after a Cancel, else the page untouched after a receive error. |
| `WsWorker.FirstEventDecides` | src/manager/ws_server.rs:320-386 | Told from the clocks and the socket alone: the first iteration that is not uneventful makes the blocked caller's answer Cancelled on a flap, else TimedOut at the deadline, else Error on a failed keepalive, else the frame itself if it has at most 8192 bytes and Error if longer, Closed on a close, Error on a read error. |
| `WsWorker.UneventfulParks` | src/manager/ws_server.rs:320-386 | While nothing terminal happens the blocked caller stays parked. |
| `WsWorker.TrafficIsExact` | src/manager/ws_server.rs:326-347 | While nothing terminal happens, each iteration reads once, and pings first exactly when 25 seconds have passed since something was sent. |
| `WsWorker.PagesNotFilled` | src/manager/ws_server.rs:279-285 | A call without a page takes a pending result with it, and a call while another is parked sends the parked page back as it came. |
| `WsWorker.CancelDiscardsNothingOwed` | src/manager/ws_server.rs:286-294 | In every run, a caller parked when Cancel arrives is told Cancelled and no result is pending; if nobody was served before, there has been no terminal event at all. |
| `WsWorker.DeadlineReleases` | src/manager/ws_server.rs:320-395 | No caller stays parked past the first iteration at or after the deadline. |
| `WsWorker.NoSocketAfterFlap` | src/manager/ws_server.rs:295-358 | From the iteration that receives FlapCancel on, the socket is never read or written. |
| `WsWorker.DeliveredFits` | src/manager/ws_server.rs:346-440 | Every binary result handed over has at most 8192 bytes, so the copy into the page is in bounds. |
| `WsWorker.Worker.Receive` | src/manager/ws_server.rs:274-318 | One message changes the loop's variables as the step function says. |
| `WsWorker.Worker.Iterate` | src/manager/ws_server.rs:273-396 | One iteration in its order: IPC, deadline, keepalive, socket, delivery. |
| `WsWorker.Worker.Loop` | src/manager/ws_server.rs:234-396 | The loop over any inputs equals the run that the lemmas are about. |
| `WsWorker.Page.Fill` | src/manager/ws_server.rs:408-440 | A frame that fits is copied to the front of the page with its length and status. |
| `WsWorker.Page.Take` | src/manager/ws_server.rs:185-201 | Reads status and bytes back; an unknown status or a length above the page is an error. |
| `WsWorker.Lend` | src/manager/ws_server.rs:168-202 | The page carries every result byte for byte, and one that comes back untouched reads as an error. |
| `Observer.NoLostWakeup` | src/manager/wifi_observer.rs:182-246 | In every interleaving, a waiter blocked while the link is up implies an updater that has written and not yet notified. |
| `Observer.OkMeansConnectedSeen` | src/manager/wifi_observer.rs:182-201 | Ok is returned only by a call during which the snapshot was Connected. |
| `Observer.TimeoutMeansDownSeen` | src/manager/wifi_observer.rs:182-201 | A timeout is returned only by a call during which the snapshot was not Connected. |
| `Observer.LastChangeMonotone` | src/manager/wifi_observer.rs:230-246 | The snapshot's time never goes back, even when stamped updates are written out of order. |
| `Observer.NewestIsShown` | src/manager/wifi_observer.rs:230-246 | A written update that is not older than what is shown is shown until one at least as new is written; an older one changes nothing. |
| `Observer.ShownWasWritten` | src/manager/wifi_observer.rs:230-246 | Only written updates are ever shown. |
| `Observer.StampIsTheClock` | src/manager/wifi_observer.rs:248-286 | An update carries the time at which it was stamped. |
| `FlapRecovery.AtMostTwoAttempts` | src/manager.rs:191-220 | In every interleaving at most two attempts begin, and at most one FlapCancel goes to each worker. |
| `FlapRecovery.SecondOnlyAfterFlapAndReconnect` | src/manager.rs:191-220 | The second attempt begins only after the first failed with its own token set and the link was later up during the wait. |
| `FlapRecovery.FirstWorkerIsLeftAlone` | src/manager/ws_server.rs:129-137 | By the time attempt two begins, attempt one's flag is set and its one FlapCancel is out; none is ever sent to it again. |
| `FlapRecovery.LeftoverListenerIsHarmless` | src/manager/cancellation.rs:97-114 | While attempt two runs, attempt one's listener changes neither the second token nor the second flag and sends nothing. |
| `FlapRecovery.ReturnsOkExactlyWhen` | src/manager.rs:191-220 | In every run link goes on with an attempt's result iff one of its attempts succeeded. |
| `FlapNotice.NoticedExactlyWhen` | src/manager/cancellation.rs:97-114 | In every run and for both attempts, between callbacks: the token is set, and exactly one FlapCancel sent, iff among the link when the watcher's seed was read and the links at the clonings after it subscribed the link was up and next it was not. |
| `FlapNotice.DropAfterSubscribeIsNoticed` | src/manager.rs:361-366 | A drop cloned after the watcher subscribed, when it last observed the link up, always sets the token and puts out exactly one FlapCancel. |
| `FlapNotice.FlapDuringSetupIsMissed` | src/manager/cancellation.rs:101-114 | A run in which the link drops between the watcher's reading and its subscription, and no token is ever set. |
| `FlapNotice.FlapBeforeSeedIsMissed` | src/manager/cancellation.rs:101-114 | A run in which the link drops before the watcher reads it, and no token is ever set. |
| `LinkRun.CancelledIsRetried` | src/manager.rs:191-220 | In every run of link with its workers, an attempt whose wait says Cancelled has its own token set; a first attempt then goes on to wait for the link. |
| `LinkRun.FlapEndsTheAttempt` | src/manager.rs:361-397 | If an attempt's FlapCancel reaches its worker before any other terminal event, the worker answers Cancelled, the attempt can only fail, its token is set, and a first attempt goes on to wait for the link. |
| `LinkRun.FrameMeansSuccess` | src/manager.rs:377-403 | If the worker's first terminal event is a frame that fits, the attempt can only succeed. |
| `PeerJson.NoKeyInValue` | src/manager/peers.rs:172-191 | No field name with its quotes and colon starts inside a printed string, whatever quoted text it holds. |
| `PeerJson.ReadsWhatWasPrinted` | src/manager/peers.rs:41-63 | Every field is read from where it was printed: numbers exactly, strings up to the control-character escapes. |
| `PeerJson.RoundTripExactlyWhenClean` | src/manager/peers.rs:41-63 | Parsing undoes printing iff neither string has a control character below 0x20 other than newline, carriage return or tab. |
| `PeerJson.StableAfterOnePass` | src/manager/peers.rs:172-223 | After one pass, printing and parsing changes nothing. |
| `PeerJson.MissingFieldsDefault` | src/manager/peers.rs:51-63 | A missing field reads as the empty string or zero. |
| `PeerJson.EscapesOfJson` | src/manager/peers.rs:172-186 | The escapes are those of section 7 of RFC 8259. |
| `PeerJson.JsonEscape` | src/manager/peers.rs:172-186 | The escaping loop computes the escape function the round trip is about. |
| `PeerJson.ReadString` | src/manager/peers.rs:192-211 | The character loop computes the parse function the round trip is about, the unterminated cases included. |
| `Peers.TruncateKeepsMost` | src/manager/peers.rs:157-170 | A long body is cut to the longest prefix of whole characters within 80 bytes, then marked; a short one is kept. |
| `Peers.TruncateSnippet` | src/manager/peers.rs:157-170 | Stepping back from byte 80 to a character boundary gives that prefix. |
| `Peers.RecordIsExact` | src/manager/peers.rs:93-134 | After any run, through the JSON form at each step, a peer's record shows its last message and its unseen count. |
| `Peers.UnreadIsExact` | src/manager/peers.rs:93-134 | Unread equals the unfocused inbound messages since the last clear, capped at u32::MAX, for every body. |
| `Peers.SortPermutes` | src/manager/peers.rs:153-153 | Sorting by time loses and invents no record. |
| `Peers.PeerBook.RecordInbound` | src/manager/peers.rs:93-107 | The stored text changes as the run's inbound event says. |
| `Peers.PeerBook.RecordOutbound` | src/manager/peers.rs:111-122 | The stored text changes as the run's outbound event says. |
| `Peers.PeerBook.ClearUnread` | src/manager/peers.rs:126-134 | The stored text changes as the run's clear event says. |
| `Peers.PeerBook.ListSorted` | src/manager/peers.rs:139-155 | Every record exactly once, newest first, in whatever order the keys are listed. |
| `Prekeys.CounterAfter` | src/manager/prekeys.rs:183-184 | After n keys the counter is ((start - 1 + n) mod 0xFFFFFF) + 1, always an id in 1..=0xFFFFFF. |
| `Prekeys.ConsecutiveIdsDiffer` | src/manager/prekeys.rs:183-184 | Any 0xFFFFFF consecutive ids are distinct. |
| `Prekeys.CounterRoundTrip` | src/manager/prekeys.rs:210-239 | A written counter reads back exactly when it is an id; any other number makes the reader reseed. |
| `Prekeys.CounterMayBePadded` | src/manager/prekeys.rs:210-213 | White space around the stored number does not matter. |
| `Prekeys.FiledHolds` | src/manager/prekeys.rs:181-196 | In a batch of at most 0xFFFFFF keys every one is on file under its own id afterwards. |
| `Prekeys.FiledKeeps` | src/manager/prekeys.rs:181-196 | A batch changes no record but those of its own ids. |
| `Prekeys.NextBatchStarts` | src/manager/prekeys.rs:167-239 | The next batch starts past this one iff it met no fault, at the same id after a failed save, and anew after a failed write of the seed or of the counter. |
| `Prekeys.Device.ReadOrInitCounter` | src/manager/prekeys.rs:210-227 | Returns the stored id, or persists the seed and returns it when the text is missing, unparsable or out of range; if that write fails, an error and no counter. |
| `Prekeys.Device.WriteCounter` | src/manager/prekeys.rs:229-239 | The new text reads back as the id written; an error leaves no counter, since the old text is deleted first. |
| `Prekeys.Device.FileKeys` | src/manager/prekeys.rs:179-196 | The loop files each key under consecutive wrapped ids; a store error leaves the earlier keys filed and the failing id deleted. |
| `Prekeys.Device.Generate` | src/manager/prekeys.rs:167-204 | The disk is as `BatchLeaves` says for every fault: records first, counter after; a failed save leaves the counter unmoved, a failed counter write leaves every record and no counter; the batch is returned iff no fault was met; a count of zero touches nothing. |
| `Prekeys.Device.RunReplenish` | src/manager/prekey_replenish.rs:72-130 | Failed, skipped and replenished exactly by status, threshold, generation (every store fault included) and upload; whatever is uploaded is already on file under distinct ids, however the upload ends. |
| `Prekeys.Device.ReplenishAci` | src/manager/prekey_replenish.rs:137-163 | Below ten keys in stock a batch of a hundred is generated and sent once, all on file under distinct ids; skipped iff ten or more. |
| `PrekeyRuns.AdvertisedIsHeld` | src/manager/prekeys.rs:153-204 | Over every run of generation, crashes, lost or late uploads, hand-outs and consume-then-remove, each key a peer may come to use has its private record under its id until 2^24-1 further key pairs are generated. |
| `PrekeyRuns.OutstandingIdsDiffer` | src/manager/prekeys.rs:153-204 | Within that window two outstanding keys never share an id. |
| `PrekeyRuns.HandedOutCanBeUsed` | src/manager/stores.rs:194-221 | A bundle handed to a peer within the window can be used and its record removed. |
| `PrekeyRuns.ConsumedIsGone` | src/manager/stores.rs:214-221 | After a key has been used its record is gone and no peer can have it any more. |
| `PrekeyRuns.UploadSendsTheBatch` | src/manager/prekey_replenish.rs:106-126 | An upload puts every key of its batch on its way and changes nothing on disk. |
| `PrekeyRuns.HeldExactlyUntilRewritten` | src/manager/prekeys.rs:153-239 | Over every run, torn writes of records and of the counter included, an outstanding key is on file iff no later key pair was given its id. |
| `PrekeyRuns.WholeTurnOverwrites` | src/manager/prekeys.rs:181-196 | The bound is met: a run without torn writes at whose end a key is still advertised, exactly 2^24-1 further key pairs have been generated, and its record is gone. |
| `PrekeyRuns.GenerationIsARun` | src/manager/prekeys.rs:167-204 | The generator's records, counter and upload body are those of a run of the machine's steps. |
| `PrekeyRuns.ReseedKeepsExactlyWhen` | src/manager/prekeys.rs:210-239 | In any run, after a crash inside the counter's write and the next batch, a key on file stays there iff the batch, counted from the new seed, stops short of its id. |
| `PrekeyRuns.TornCounterLosesAnAdvertisedKey` | src/manager/prekeys.rs:229-239 | With a crash between the counter's delete and its write, the third key pair ever made overwrites one that the server still advertises. |
| `Account.SetReadsBack` | src/account.rs:725-744 | After `set` the key reads back as exactly what was set, and no other key changes. |
| `Account.SetNewReadsBackExactlyWhen` | src/account.rs:751-758 | After `set_new` the key reads back as written iff nothing longer was there (or the value fills the 256-byte read). |
| `Account.FlagsNeverReload` | src/account.rs:404-440 | Over any old dictionary, after `new` and `link` neither flag reloads as true. |
| `Account.ReloadAfterPrefix` | src/account.rs:404-440 | After every durable prefix of link's writes, over any old dictionary: the account reloads iff six needed texts read out, with the fields of the prefix as they read out and both flags false. |
| `Account.RegisteredAfterPrefix` | src/account.rs:495-511 | Over any old dictionary the reloaded account is registered iff the password and the ACI id are in the prefix and readable and the device id's text, old digits included, does not read as zero. |
| `Account.ReloadWhenFresh` | src/account.rs:404-511 | Without leftovers the account always reloads, and is registered iff the password, a non-zero device id and the ACI id are all in the prefix. |
| `Account.DeviceIdReloadsExactlyWhen` | src/account.rs:128-145 | Over any old dictionary the linked device id reloads iff the text stored before `new` was no longer than it. |
| `Account.AciUnderItsKeys` | src/account.rs:406-408 | After every prefix of link's writes over any dictionary, the ACI keys and id read out under their own keys, each from its own step on. |
| `Account.PniUnderItsKeys` | src/account.rs:409-411 | The same for the PNI. |
| `Account.DeviceTextsUnderTheirKeys` | src/account.rs:404-415 | The same for the password, the device name, the number and the profile key. |
| `Account.RegistrationIdsUnderTheirKeys` | src/account.rs:419-423 | The two registration ids are laid, as digits, over whatever was under their own keys. |
| `Account.EntropyPoolUnderItsKey` | src/account.rs:416-418 | The entropy pool is written under its key iff the provisioning message has one. |
| `Account.ClearedForGood` | src/account.rs:113-126 | What `new` clears and `link` gives no value reads as nothing. |
| `Account.GetIsExact` | src/account.rs:701-723 | A read gives the first 256 bytes if they are UTF-8 and nothing otherwise. |
| `Account.StaleDigitSurvives` | src/account.rs:128-145 | Device id 3 linked over an old 12 reloads as 32. |
| `AccountCache.ReadBackExactlyWhen` | src/account.rs:701-758 | Over every run of `set` and `set_new` on any dictionary, each key reads back as its last written value iff that write was `set`, or `set_new` over nothing longer, or it fills the 256-byte read; deleted keys read as nothing and untouched ones as before. |
| `AccountCache.TextAgreesExactlyWhen` | src/account.rs:564-669 | Any of the twelve cached texts agrees with the store after any run whose last call gave a readable value under exactly that condition. |
| `AccountCache.NothingAgreesExactlyWhen` | src/account.rs:564-669 | If the last call gave nothing, they agree iff it was `set` or the calls before had left nothing readable. |
| `AccountCache.FlagAgreesExactlyWhen` | src/account.rs:564-669 | A cached flag agrees with the reloaded one iff it is false, or "true" was `set`, or `set_new` over nothing longer. |
| `AccountCache.DeviceIdAgreesExactlyWhen` | src/account.rs:564-669 | A cached non-zero device id agrees with the reloaded one iff it was `set`, or `set_new` over nothing longer. |
| `AccountCache.CacheOutrunsStore` | src/account.rs:404-440 | Right after `link`, over any dictionary, the cache says registered and multi-device while the same store reloads as neither. |
| `AccountCache.CachedAccount.SetKey` | src/account.rs:564-601 | Store and cached fields stay those of the history, extended by this call; the host key is refused and deleted. |
| `AccountCache.CachedAccount.SetNewKey` | src/account.rs:632-669 | The same for `set_new`. |
| `AccountCache.CachedAccount.PersistLink` | src/account.rs:404-429 | Extends the history by link's writes in order; which value each key then holds is said by the lemmas on prefixes. |
| `CtrMode.IncrementAdds` | src/manager/libsignal.rs:237-243 | The carry takes the block for n to the block for n + 1, wrapping at the end. |
| `CtrMode.CounterIsBlockIndex` | src/manager/libsignal.rs:228-243 | The counter block of block n stands for n mod 2^128. |
| `CtrMode.XorBitsDiffer` | src/manager/libsignal.rs:235-235 | A bit of the XOR is set iff the two bits differ. |
| `CtrMode.CtrIsItsOwnInverse` | src/manager/libsignal.rs:222-246 | For every block function and length the transform keeps the length and undoes itself. |
| `CtrMode.IncrementInPlace` | src/manager/libsignal.rs:238-243 | The in-place loop computes that carry. |
| `CtrMode.MaskChunk` | src/manager/libsignal.rs:234-236 | Output byte i of a chunk is its input byte XOR byte i of the cipher block. |
| `CtrMode.Aes256CtrEncrypt` | src/manager/libsignal.rs:222-246 | Output byte j is input byte j XOR byte j mod 16 of the cipher of block j div 16; an error iff the key is not 32 bytes. |
| `Padding.PaddedLenIsLeast` | src/manager/outgoing.rs:166-171 | The padded length is the least multiple of 160 strictly above the content's. |
| `Padding.StripUndoesPad` | src/manager/main_ws.rs:612-616 | Stripping undoes padding for every content, one ending in zeros or markers included. |
| `Padding.SignalPad` | src/manager/outgoing.rs:166-171 | The growing loop computes the padding. |
| `Padding.StripSignalPadding` | src/manager/main_ws.rs:612-616 | The popping loop computes the stripping, on any bytes. |
| `Proto.U64RoundTrip` | src/manager/main_ws.rs:131-132 | Every u64 varint reads back, in at most ten bytes. |
| `Proto.VarintIsBase128` | src/manager/outgoing.rs:67-104 | A varint is the base-128 digits, least significant first, with the high bit on all but the last. |
| `Proto.FieldsRoundTrip` | src/manager/outgoing.rs:67-104 | Reading undoes writing for every list of varint and length-delimited fields. |
| `Content.DataChain` | src/manager/outgoing.rs:177-210 | Encode, pad, strip, decode returns the same data message for every body and u64 timestamp. |
| `Content.TranscriptChain` | src/manager/outgoing.rs:212-248 | The transcript chain keeps the body and both timestamps; the destination survives iff written under the tag the receiver reads. |
| `Content.DataContentBytes` | src/manager/outgoing.rs:67-73 | The exact bytes of a data content: body under tag 1 and timestamp under tag 7 of the message under tag 1. |
| `Content.TranscriptBytes` | src/manager/outgoing.rs:75-104 | The exact bytes of a transcript: timestamp, message and destination under tags 2, 3 and 7. |
| `Content.BadFieldsAreRejected` | src/manager/main_ws.rs:127-163 | A text that is not UTF-8 or a known tag of the wrong type makes the message unreadable. |
| `Content.DeliveredEntry` | src/manager/main_ws.rs:737-762 | Whatever is delivered has the inner message's body and timestamp; the transcript's and the server's only stand in for a missing one. |
| `Content.OwnTranscriptsAreDropped` | src/manager/main_ws.rs:737-762 | Every transcript this client sends is dropped by its own receiver. |
| `Content.TagOneDeliveredExactlyWhen` | src/manager/main_ws.rs:737-767 | Under tag 1 a transcript is dropped iff body or destination is empty, otherwise delivered with its body and timestamp iff byte 8 of the destination is a character boundary, otherwise the receiver panics. |
| `Content.AccentedDestinationPanics` | src/manager/main_ws.rs:763-767 | Well-formed transcripts on which the receiver panics: a destination with byte 8 inside a character. |

## Left out

- libsignal's ratchet, X3DH, Kyber, sealed sender, HMAC, HKDF and the AES rounds: foreign code. Encryption failures other than a missing session (src/manager/outgoing.rs:266-296) are not modelled.
- HTTP, TLS, tungstenite and Xous IPC plumbing, including the worker's Ticktimer failure (src/manager/ws_server.rs:252-262): only their outcomes appear, as inputs.
- JSON bodies of requests and responses, base64 of pre-key material, account attributes, URLs and UI code: easy members or foreign code.
- Shared memory orderings: the state machines interleave whole steps; atomics are sequentially consistent in the source.
- FlapRecovery: the snapshot's out-of-order check is left to Observer, since one thread stamps and writes; `wait_for_connection` is one step that sees the link up or gives up, justified by `Observer.OkMeansConnectedSeen`.
- SendConvergence.FanOutConverges: the server's device map does not change during the call and the 30 s budget does not run out; `SendRuns` has no such assumption.
- WsWorker.DeadlineReleases: clocks and the deadline are unbounded naturals; u64 overflow is not modelled.
- Content.DataChain: bodies and recipients together are below 2^62 bytes, as any allocation is; protobuf groups (wire types 3 and 4) are rejected by the model's reader where prost skips them in unknown fields.
- Account.ReloadAfterPrefix: the host parse, the service environment and the two i64 fields of the account are not modelled.
- AccountCache.TextAgreesExactlyWhen: a value over 256 bytes or not UTF-8 never reads back whole; the lemma is about readable ones.
- AccountCache.CachedAccount.PersistLink: loops over the list of writes that the source spells out one by one.
- PrekeyRuns.AdvertisedIsHeld: assumes that no crash falls inside a write of the counter, with the run that shows what happens otherwise, and that the store is never rolled back; two replenishments at once are not modelled.
- Signed pre-keys, the identity store, sealed-sender receive dispatch, PNI keys and one-time Kyber keys: they would only add easy members.
