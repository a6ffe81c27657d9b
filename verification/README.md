# NermalProxy: a verified model

NermalProxy is an HTTP proxy with one dispatch thread and a pool of worker threads. The dispatch
thread accepts clients, hands slow work (reading the request, resolving and connecting to the host)
to the pool through a locked queue and a semaphore, and gets the results back over a pipe. It then
authenticates the session, checks its host against policies, relays bytes between the two sockets
of the session, and tears both down on an error or when there are too many.

The project models that life of a session as a step system and proves what every interleaving
keeps; it models the credential decision, the configuration file and the policies it sets up, the
host cache, the audit ledger and the relaying of bytes, and proves what each promises.

## How the files fit together

| files | content |
|---|---|
| `Lifecycle.dfy` | the state of all threads, the events and the steps |
| `LifecycleInvariant.dfy`, `Counting.dfy` | the invariant, and that every step keeps it |
| `LifecycleTheorems.dfy`, `LifecycleWitness.dfy` | carriers, faults, conservation, peers, leaks, ids; a run that faults |
| `Mediation.dfy`, `WorkOrder.dfy`, `Progress.dfy`, `Pruning.dfy` | complete mediation, the queue, termination, pruning |
| `Traffic.dfy`, `Audit.dfy` | the byte counters of every session, and the ledger, over all runs |
| `SocketManager.dfy`, `ProxyConnector.dfy`, `EventLoop.dfy` | the handlers, the worker code and the event loop as methods on objects, proved equal to steps |
| `CStrings.dfy`, `Base64.dfy`, `TimeMap.dfy`, `UserAuth.dfy` | scanning, decoding, schedules, the admission decision |
| `Policy.dfy` | domain lists and policies |
| `ConfigData.dfy`, `ConfigFile.dfy`, `ConfigRoundTrip.dfy`, `ConfigGaps.dfy`, `ConfigLines.dfy`, `DoConfig.dfy` | the multimap, the loader in its line buffer, printing and loading again, missing words, what each line says and which one stops the loader, start-up |
| `ConfiguredProxy.dfy` | what a configuration file promises, over every run: who is admitted, what is connected, what is audited |
| `HostCache.dfy`, `HostHistory.dfy` | the cache sweep as written, its runs, the clock, the resolver |
| `Ledger.dfy` | audit totals and the ring of log files |
| `Words.dfy`, `ClientSockets.dfy`, `Relay.dfy` | 64-bit sums; reads and partial writes of one socket; the two directions of a session and its counters |

A step is one action of one thread between two points where another thread can get in between. The
answers of the operating system (new descriptors, bytes, clock readings, resolved addresses, files)
are parameters of the steps and methods. A new descriptor is one that is not open. Objects that the
original updates in place are classes, each method proved against a function of the old state; the
theorems are about those functions and about all runs of them.

## What the code does not keep

These follow the code, not its intent. Each is stated exactly, with an input or a run that shows it.

- After a failed connect the connector reads the host of a session it has already given away. That
  is the only step that can dereference a missing session, and it does exactly when the failure
  message has been handled (`LifecycleTheorems.FaultsExactly`, `LifecycleWitness.LateReadFaults`).
- A socket that could not be connected is never closed (`LifecycleTheorems.StraysExactly`,
  `LifecycleWitness.SocketLeaks`).
- User name and password are scanned without a width into fields of 128 characters, and the token
  with a width of 1024 into a field of 1024. A request fits exactly when both are at most 127
  characters long (`UserAuth.FitsExactly`), one that the detector can receive does not
  (`UserAuth.OverlongUser`), and while all received requests fit no step writes past a field
  (`Mediation.NoOverflow`). The results about credentials are for requests that fit.
- The cache sweeps erase and then advance, so they step over the element behind every erased one and
  past the end after erasing the last (`HostCache.VisitedByParity`, `HostCache.LookupComplete`,
  `HostCache.LookupMisses`, `HostCache.ClearComplete`, `HostCache.ClearLeaves`).
- `Authenticate` answers true for every token that decodes; sessions are still admitted exactly as
  they should be as long as no user has an empty name (`UserAuth.AdmitsExactlyAuthorised`,
  `UserAuth.UnconfirmedAdmission`, `UserAuth.EmptyNameAdmits`). No file that loads can make such a
  user (`ConfigFile.LoadedExactly`, `DoConfig.ConfiguredNames`).
- A user called `<global>` takes the place of the global policy (`DoConfig.GlobalShadowed`,
  `DoConfig.GlobalIsShadowed`).
- `Timestamp` divides nanoseconds by ten million, not by a million as its name and the cache's
  milliseconds suggest. It is the true time exactly in the first millisecond of a second
  (`HostHistory.TimestampExact`) and up to 900 milliseconds late (`HostHistory.TimestampTrails`,
  `HostHistory.TimestampLate`).
- A value missing between commas in the configuration repeats the value before it. A line, and what
  loading keeps under a section and key, is what the file gives exactly when no piece is blank
  (`ConfigGaps.LineExactly`, `ConfigGaps.LoadedAsGiven`, `ConfigGaps.ValueRepeats`).
- The result of `read` is kept unsigned, so -1 is not seen as an error: it is returned as 2^64 - 1
  bytes, and none of the failures that are meant to be retried is. The write of that many bytes is
  refused, which ends the direction, so no byte is made up; but 2^64 - 1 is added to Tx. A direction
  stays active exactly when its read gives data and all of it is written
  (`ClientSockets.PassFaithful`), and Tx is one less than the server sent, modulo 2^64, exactly when
  a read of its active socket failed (`Relay.TxExactly`, `Relay.FailedExactly`, `Relay.TxWraps`).
- The byte counters of a session are not initialised. They count from what the memory held, and Tx is
  what the server sent exactly when that was 0 and no such read failed, or 1 and one did
  (`Relay.TxExactly`, `Traffic.CountersAccounted`, `Relay.TxWraps`).
- Pruning asks the socket it has just removed, and thereby destroyed, for its peer and its session
  (SocketManager.cpp:103-109), in every round; the loop over the sockets of the event loop advances
  from the element that the handler may just have removed (SocketManager.cpp:368-401), in every event
  that takes a session down. Both use freed memory, so what they do is undefined; the handlers here
  are what they do when it still holds what it held.
- A configuration line without a key, or without a first value, stores a buffer that was never
  written, and a word of 1024 characters or more is written past its buffer. An entry is free of that
  exactly when it has a key and a first value and all its words are shorter
  (`ConfigGaps.EntryDefinedExactly`, `ConfigGaps.MissingWord`, `ConfigGaps.MissingWordHere`). The
  results about loading are for files without such a line.
- A header without a name is meant to stop the loader; the test for it never succeeds, and the
  section it stands in goes on (`ConfigGaps.HeaderExactly`, `ConfigGaps.SectionGoesOn`).

## Model

| member | source | states |
|---|---|---|
| LifecycleInvariant.StepKeeps | SocketManager.cpp:93-341 | every step of every thread keeps the invariant: distinct increasing ids, one carrier a session, descriptors in use distinct and open, sockets in mirrored pairs behind the two fixed ones, the semaphore equation, the queue's history |
| LifecycleInvariant.AcceptKeeps | SocketManager.cpp:121-169 | accepting keeps the invariant: the new session is carried by its queued package, its descriptor by nothing else |
| LifecycleInvariant.HandleKeeps | SocketManager.cpp:214-341 | handling any message with any decision keeps the invariant |
| LifecycleInvariant.RelayKeeps | SocketManager.cpp:171-212 | relaying on, or tearing down, any pair keeps the invariant |
| LifecycleInvariant.TearDownDrops | SocketManager.cpp:179-199 | removing a socket and then its peer by descriptor removes exactly the two sockets of one pair |
| LifecycleInvariant.SocketFdsDistinct | SocketManager.cpp:72-84 | no two registered sockets have the same descriptor |
| LifecycleTheorems.RunKeeps | ProxyConnector.cpp:307-356 | the invariant holds after every run, for any number of workers and any interleaving |
| LifecycleTheorems.FaultsExactly | ProxyConnector.cpp:185-192 | in every reachable state no step pops an empty queue or dereferences a missing session, except the late read of the host, which does exactly when the failure message it sent has been fully handled |
| LifecycleWitness.LateReadFaults | ProxyConnector.cpp:185-192 | a run from the initial state that ends in that fault |
| LifecycleTheorems.ExactlyOneCarrier | SocketManager.cpp:214-341 | after every run a session is live if and only if some place (queue, worker, pipe, handler, socket pair) holds it, and no two places do |
| LifecycleTheorems.SessionsConserved | Session.cpp:130-181 | live sessions equal queued packages, busy workers, pipe messages, the one being handled and socket pairs together; so the pipe never holds more messages than there are sessions |
| LifecycleTheorems.ExactlyOnePeer | SocketManager.cpp:326-337 | after every run descriptors are distinct and each client socket has exactly one peer: swapped descriptors, same session, opposite direction |
| LifecycleTheorems.StraysExactly | ProxyConnector.cpp:135-192 | a descriptor becomes open without an owner exactly by a connect that failed |
| LifecycleTheorems.AcceptCreatesNext | Session.cpp:130-148 | in every reachable state the session found by descriptor after appending is the one just made, with a new id and clean fields |
| LifecycleTheorems.IdsNeverReused | Session.cpp:130-137 | an id that was given out and is not live is never live again |
| LifecycleWitness.SocketLeaks | ProxyConnector.cpp:135-192 | the same run leaves the socket open with no session and no owner |
| Mediation.NoOverflow | UserAuth.cpp:161-169 | in a run whose received requests fit, no step writes past a field of the credential scan |
| Mediation.CompleteMediation | SocketManager.cpp:233-309 | in a run whose received requests fit, a session with a socket was decided at an earlier detect-result step, and its present user and host pass the policies; with authentication on, its present user is authorised by its present request, address and that step's clock |
| Mediation.GrantWasDecided | ProxyConnector.cpp:369-386 | whatever carries the right to connect (package, worker, message, sockets) goes back to a step that admitted the session and allowed its host |
| Mediation.BasisKept | ProxyConnector.cpp:289-294 | no step changes user, host, request or address of a session that has been granted |
| Mediation.DetectionStores | ProxyConnector.cpp:289-303 | detecting writes just the host and request it found into its session, nothing into any other, and says whether it found them |
| Mediation.GrantExactly | SocketManager.cpp:220-312 | under the invariant: a connect package is queued if and only if detection succeeded, the decision admits and the policies allow; an admitted session whose host is denied gets the failure message; any other is closed and ends; the session keeps everything but its user |
| Mediation.EstablishedExactly | SocketManager.cpp:313-338 | a connected session gets its two sockets, unused and mirrored, the client's first; one that failed is closed and ends; nothing else changes |
| WorkOrder.QueueDiscipline | ProxyConnector.cpp:314-340 | packages leave the queue in the order they entered it, none twice; the queue's length is the semaphore plus the woken workers plus one between push and post; a pop never finds it empty |
| WorkOrder.HostSetOnce | ProxyConnector.cpp:289-294 | once a session has been detected, its host, request and address never change |
| WorkOrder.HostDetected | ProxyConnector.cpp:289-294 | after every run a session has no host and no request, or exactly those that its own detection found at some step |
| Progress.RankDecreases | ProxyConnector.cpp:119-303 | every step other than accept, relay and prune lowers the sum of stage ranks |
| Progress.InternalRunsEnd | SocketManager.cpp:214-341 | a run of such steps is no longer than the rank of the state it starts from |
| Progress.SomethingEnabled | ProxyConnector.cpp:314-340 | while a session is neither ended nor connected some such step can be taken |
| Progress.RestIsSettled | SocketManager.cpp:214-341 | in a reachable state where no such step can be taken every live session is connected |
| Traffic.SessionRelays | SocketManager.cpp:171-212 | after every run the counters of a live session are those of the relaying of exactly the events on its two sockets, its sockets have the two flows of that relaying, and a session without a pair that is not ending has relayed nothing |
| Traffic.CountersAccounted | SocketManager.cpp:202-209 | after every run, for each registered pair: Rx and Tx account for the two flows from where they started, and Tx is what the server sent, modulo its width, if and only if it started at 0 and no read failed, or at 1 and one did |
| Audit.RunConserves | Session.cpp:161-181 | over every run with write-outs at any moments, for every user and host: bytes, times and connections, logged and in memory together, are the plain sums over the sessions on record that ended, the first three modulo 2^64 |
| Audit.EndedOnce | Session.cpp:161-181 | over every run each session that was created is either live or was handed off exactly once |
| Audit.EndedCounters | Session.cpp:170-174 | each session is handed off with the counters of all the relaying that its sockets did in the whole run |
| Audit.RecordsJudged | Session.cpp:166-175 | each session handed off counts as one connection and is judged by the table of the run |
| Audit.LedgerReached | UserAuth.cpp:421-453 | the ledger of every run is one that hand-offs of just the sessions that ended and write-outs lead to, so `Ledger.PeriodsIndexed` and `Ledger.LastPeriodsKept` hold of it |
| Audit.ReachedInTurn | ProxyConnector.cpp:307-356 | states and ledgers that each run on from the ones before, in any order of threads, lie on runs from the first, and the states satisfy the invariant |
| Pruning.PruneRoundDrops | SocketManager.cpp:97-117 | a round drops the pair established first and its session, and keeps the invariant |
| Pruning.PruneOutcome | SocketManager.cpp:93-119 | from any even excess pruning ends at exactly 200 sockets: the two fixed ones and the latest pairs, and the sessions ended are exactly those of the first pairs |
| Pruning.ExcessExactly | SocketManager.cpp:94-94 | one round for every two sockets beyond 200 |
| SocketManager.SessionManager.CreateSession | Session.cpp:130-137 | appends a session with the next id and returns the first with that descriptor |
| SocketManager.SessionManager.GetSessionForClient | Session.cpp:139-148 | the first session with the descriptor, or the null result |
| SocketManager.SessionManager.GetSession | Session.cpp:150-159 | the first session with the id, or the null result |
| SocketManager.SessionManager.EndSession | Session.cpp:161-181 | the first session with the id is handed to the ledger and leaves the list; the others keep their order; without one nothing changes |
| SocketManager.ThreadPool.Dispatch | ProxyConnector.cpp:336-340 | the package goes to the back of the queue and the semaphore is raised |
| SocketManager.ThreadPool.Take | ProxyConnector.cpp:316-323 | the front of the queue, with the semaphore lowered |
| SocketManager.AsyncMessenger.WriteMessage | AsyncMessenger.cpp:49-57 | the message goes to the back of the pipe |
| SocketManager.AsyncMessenger.ReadMessage | AsyncMessenger.cpp:59-64 | the front of the pipe |
| SocketManager.SocketManager.constructor | main.cpp:251-268 | with any number of idle workers: the server and command sockets alone, and nothing pending, the initial state of the step system |
| SocketManager.SocketManager.HandleServerSocketRead | SocketManager.cpp:121-169 | equals the steps accept and post; false when accepting fails |
| SocketManager.SocketManager.ConnectProxy | ProxyConnector.cpp:369-386 | queues a connect package when the policies allow the host, and otherwise sends the failure message |
| SocketManager.SocketManager.HandleDetectResult | SocketManager.cpp:220-312 | equals the detect-result step with the push or the end of the session that follows it, for every decision; the ledger gets the session that ends and nothing else |
| SocketManager.SocketManager.HandleConnectResult | SocketManager.cpp:313-338 | equals the connect-result step: the pair of sockets in order, or the session closed, handed off and ended |
| SocketManager.SocketManager.HandleCommandSocketRead | SocketManager.cpp:214-341 | under the invariant the unchecked session is there, and the handler equals reading and handling the first message, with its hand-off |
| SocketManager.SocketManager.HandleClientSocketRead | SocketManager.cpp:171-212 | equals the relay step, for all answers to its read and writes: an inactive socket takes pair and session down and hands the session off, an active one relays and is counted |
| SocketManager.SocketManager.PruneExcessConnections | SocketManager.cpp:93-119 | equals the pruning rounds with their hand-offs, keeps the invariant and ends with at most 200 sockets |
| ProxyConnector.TakeWork | ProxyConnector.cpp:315-328 | a turn of a worker equals the steps wake and pop, and is a run |
| ProxyConnector.AsyncDetector | ProxyConnector.cpp:230-303 | equals the detect and send steps, and is a run: host and request are set when detection succeeds, and one message goes out |
| ProxyConnector.TryConnect | ProxyConnector.cpp:142-182 | connects to the first address that is not filtered and accepts, and fails exactly when there is none |
| ProxyConnector.AsyncConnector | ProxyConnector.cpp:119-228 | equals the connector's steps for what was resolved and accepted, and is a run; the host to clear from the cache is that of the session, and is reported exactly when a socket was opened and no address accepted |
| ProxyConnector.ConnectAndReport | ProxyConnector.cpp:119-228 | one message goes out, with the socket if and only if one was opened and some address accepted; an opened socket stays open |
| ProxyConnector.ConnectorOutcome | ProxyConnector.cpp:119-228 | those steps add one message to the pipe and leave an opened socket open, whether or not it connected |
| EventLoop.DispatchedReached | SocketManager.cpp:363-402 | what a ready descriptor stands for is a run of the step system, and what it does to the ledger is what that run does |
| EventLoop.DispatchedAccept | SocketManager.cpp:121-169 | a ready server socket makes one session, of the accepted descriptor and address, opens the descriptor and queues the detection; a failed accept changes nothing |
| EventLoop.DispatchedMessage | SocketManager.cpp:214-341 | a ready pipe has its front message handled, at the clock reading of the turn |
| EventLoop.DispatchedRelay | SocketManager.cpp:171-212 | a ready client socket passes on just what the system gives it; an inactive one goes with its peer, its session and both descriptors |
| EventLoop.TimedOutLogs | SocketManager.cpp:357-362 | a timeout writes one period out and clears the memory if and only if it is time to log |
| EventLoop.TimedOutReached | SocketManager.cpp:357-362 | so is a timeout: the pruning rounds, then the write-out |
| EventLoop.ProcessSockets | SocketManager.cpp:343-404 | every turn is a run of the step system with its ledger, keeps the invariant, and is pruning and the write-out, the steps of one ready descriptor, or nothing; it stops exactly when waiting or accepting fails |
| EventLoop.Dispatch | SocketManager.cpp:363-402 | the first socket with the descriptor gets its handler; a descriptor of no socket is passed over; a failed accept stops the loop |
| Base64.Base64Decode | UserAuth.cpp:243-298 | succeeds exactly when the text up to its NUL has a multiple of 4 characters, all of the alphabet or `=`; then holds the decoded bytes, with zeros, at least one, in the rest of the buffer; every write is inside |
| Base64.RoundTrip | UserAuth.cpp:243-298 | decoding the encoding (section 4 of RFC 4648) of any bytes gives them back, followed only by the zeros that fill the last group of three |
| Base64.ProgressStep | UserAuth.cpp:255-287 | the shifting accumulator holds the value of the open group after every character |
| Base64.AlphabetExactly | UserAuth.cpp:248-289 | each character of the alphabet of RFC 4648, section 4, has its index for a value, and no other character has one |
| Base64.DecodableExactly | UserAuth.cpp:243-298 | decodable texts are those of whole groups of four of these characters or `=` |
| Base64.GroupExactly | UserAuth.cpp:260-292 | three bytes are the number that four symbols write in base 64, with `=` counting as 0 |
| CStrings.SpacesAre | UserAuth.cpp:161-169 | a scan skips the six blanks of the C locale and nothing else |
| TimeMap.PermittedByCharacter | TimeMap.hpp:42-46 | within a day the half hour is open exactly when the character at 2 * hour + minute / 30 is not x or X |
| TimeMap.TimeMap.InitFromString | TimeMap.cpp:40-54 | a string of 48 characters sets the map, any other changes nothing |
| TimeMap.TimeMap.PermittedAtTime | TimeMap.cpp:56-63 | the entry of the half hour; false beyond the day |
| UserAuth.AuthManager.AddUser | UserAuth.cpp:126-128 | appends a user without addresses, unaudited, with an open week |
| UserAuth.AuthManager.AddUserIp | UserAuth.cpp:130-136 | adds the address to every user of that name and to no other |
| UserAuth.AuthManager.SetAudit | UserAuth.cpp:118-125 | sets the flag of every user of that name and of no other |
| UserAuth.AuthManager.IsAuditEnabled | UserAuth.cpp:109-116 | the flag of the first user of that name, false without one |
| UserAuth.AuthManager.SetWeeklyAccess | UserAuth.cpp:198-228 | changes one day of the first user of that name, and only for a known day and 48 characters |
| UserAuth.ScheduleSet | UserAuth.cpp:198-228 | setting a day opens and closes exactly that user's half hours of that day |
| UserAuth.DayNames | UserAuth.cpp:203-222 | the names of the seven days, from Sunday on, stand for the days of a broken-down time |
| UserAuth.AuthManager.AuthenticateIp | UserAuth.cpp:138-155 | the first user listing the address |
| UserAuth.AuthManager.CheckCredentials | UserAuth.cpp:230-241 | true exactly when an entry has this name and password |
| UserAuth.ScanField | UserAuth.cpp:162-169 | a scanned word and its NUL stay inside a field exactly when the word is shorter than it, and then the field holds the word |
| UserAuth.ScanCredentials | UserAuth.cpp:161-171 | credentials that fit come back from the two fields |
| UserAuth.FitsExactly | UserAuth.cpp:161-169 | a request with credentials fits its fields if and only if user name and password have at most 127 characters |
| UserAuth.OverlongUser | UserAuth.cpp:161-169 | a request of fewer than 4096 characters that does not fit |
| UserAuth.HeaderTokenExactly | SocketManager.cpp:236-245 | the token is the word behind the first header `Proxy-Authorization: Basic `, cut to 1024 characters, or nothing when only blanks follow |
| UserAuth.HeaderTokenNone | SocketManager.cpp:235-236 | a request has no token if and only if that header is nowhere in it |
| UserAuth.CredentialsExactly | UserAuth.cpp:157-169 | user and password of any decoded text: the words before and behind the first colon, or the first two words when one of them is missing |
| UserAuth.CodesKept | UserAuth.cpp:157-160 | decoded bytes are the codes of the characters that are scanned |
| UserAuth.AuthManager.AuthenticateToken | UserAuth.cpp:157-182 | for credentials that fit, true exactly for tokens that decode; the name is filled in exactly when an entry confirms it |
| UserAuth.AuthManager.AccessAllowedAtTime | UserAuth.cpp:184-196 | the schedule of the first user of that name now; false without one or without a clock |
| UserAuth.AuthManager.Decision | SocketManager.cpp:233-309 | the branch over token, address and schedule, with the user name it leaves on the session |
| UserAuth.AdmitsExactlyAuthorised | SocketManager.cpp:233-309 | with distinct, non-empty names and a request that fits, a session is admitted under a name if and only if an entry has it, is open now, and is confirmed by the credentials sent or, without any, first lists the address |
| UserAuth.RefusalsExactly | SocketManager.cpp:239-305 | for any table: the client is asked for credentials if and only if it sent none and no user lists its address; a refusal with 403 leaves the name of the credentials, or none when nobody has them; one without usable credentials leaves the user as it was |
| UserAuth.AllPass | SocketManager.cpp:233-234 | with authentication off every session passes under the user it had |
| UserAuth.UnconfirmedAdmission | UserAuth.cpp:157-182 | for any table, a token that fits and decodes but is not confirmed is admitted if and only if the first user with an empty name is open now |
| UserAuth.EmptyNameAdmits | UserAuth.cpp:157-182 | a table with an empty name that admits a user name and password nobody has |
| UserAuth.TokenRoundTrip | UserAuth.cpp:157-182 | a user name and password of any length come back from their Basic token (section 2 of RFC 7617) |
| UserAuth.CredentialDecision | SocketManager.cpp:235-280 | a request that carries the token of a user name and password is admitted exactly when an entry has both and is open now, and is refused with 403 otherwise |
| Policy.UserPolicyList.GetUserDomain | Policy.cpp:72-79 | the list name at an index of the first policy of the user |
| Policy.UserPolicyList.GetDomain | Policy.cpp:49-61 | the list name at an index, exactly while there is one |
| Policy.BlacklistList.IsAllowedInList | BlackList.cpp:101-108 | the first list of the name exists and omits the host |
| Policy.BlacklistList.HasList | BlackList.cpp:110-117 | some list has the name |
| Policy.IsAllowed | ProxyConnector.cpp:91-117 | ends, and is true exactly when every list named by the user's policy and by the global policy allows the host |
| Policy.ListAllowsMeaning | BlackList.cpp:85-108 | a list allows a host exactly when it is loaded and its first copy omits the host |
| Policy.OrderIrrelevant | ProxyConnector.cpp:91-117 | reordering the names in the policies changes no decision |
| Policy.MoreListsDenyMore | ProxyConnector.cpp:91-117 | naming more lists never turns a denial into a permission |
| ConfigData.Store.AddSection | ConfigFile.cpp:113-121 | the section of the name, made at the end when there is none |
| ConfigData.Store.AddValue | ConfigFile.cpp:93-130 | the value goes to the end of its section and key, which are made when missing; nothing else changes |
| ConfigData.RecordedExactly | ConfigFile.cpp:93-130 | for any stream of lines names stay distinct, and each section and key holds exactly the values the stream gave for it, in order, however often they were repeated |
| ConfigFile.StrChr | ConfigFile.cpp:152-158 | the first position of a character in the C string in the buffer |
| ConfigFile.StrRChr | ConfigFile.cpp:159-159 | the last position |
| ConfigFile.ScanWord | ConfigFile.cpp:163-193 | the first word of the C string in the buffer |
| ConfigFile.ConfigFile.ReadEntry | ConfigFile.cpp:184-197 | cutting at each comma in place records the values of the line in order |
| ConfigFile.ConfigFile.ParseLine | ConfigFile.cpp:151-199 | cutting comments, brackets and colon in place reads every line as the grammar of `ReadLine` does |
| ConfigFile.ConfigFile.LoadData | ConfigFile.cpp:136-205 | a file records the facts of its lines up to the first line with a word and no separator; a file that does not open changes nothing |
| ConfigFile.LoadedExactly | ConfigFile.cpp:136-205 | after loading, names are distinct, keys are not empty, and each value list is the in-order filter of the lines |
| ConfigRoundTrip.HeaderReads | ConfigFile.cpp:157-168 | a printed header reads as that header |
| ConfigRoundTrip.EntryReads | ConfigFile.cpp:174-197 | a printed entry reads as that key with those values |
| ConfigRoundTrip.PrintLoad | ConfigFile.cpp:136-205 | printing any configuration of distinct plain names and non-empty value lists and loading the text gives it back |
| ConfigGaps.ValuesExactly | ConfigFile.cpp:184-197 | the values of an entry are the words given if and only if no piece is blank |
| ConfigGaps.LineExactly | ConfigFile.cpp:151-199 | a line reads as it is given if and only if it is not an entry with a blank piece |
| ConfigGaps.StreamExactly | ConfigFile.cpp:136-205 | for all lines, sections and keys, the stream holds just the values given if and only if no line read for them has a blank piece |
| ConfigGaps.LoadedAsGiven | ConfigFile.cpp:136-205 | the same for what loading keeps |
| ConfigGaps.ValueRepeats | ConfigFile.cpp:188-195 | a value, nothing and another value read as the first one twice and the other |
| ConfigGaps.ValueRepeatsHere | ConfigFile.cpp:188-195 | the line `k:a,,b` gives two values and reads as three |
| ConfigGaps.HeaderExactly | ConfigFile.cpp:160-168 | the section becomes the first word in the brackets if and only if there is one; otherwise it goes on, mentioned again, and loading never stops there |
| ConfigGaps.EntryDefinedExactly | ConfigFile.cpp:171-197 | an entry stores no unwritten and no overlong word if and only if it has a key, its first piece has a word, and all words have fewer than 1024 characters |
| ConfigGaps.MissingWord | ConfigFile.cpp:171-197 | a key without a value, and a value without a key, are not so, for every word |
| ConfigGaps.MissingWordHere | ConfigFile.cpp:171-197 | the texts `k:` and `:v` are not readable |
| ConfigGaps.SectionGoesOn | ConfigFile.cpp:163-168 | empty brackets leave any section as it is |
| ConfigLines.LinesExactly | ConfigFile.cpp:146-150 | the lines of any text are all of it, in order, cut behind each newline and nowhere else |
| ConfigLines.TextIs | ConfigFile.cpp:151-155 | what is read of a line is just its part before the first NUL or `#` |
| ConfigLines.CommentCut | ConfigFile.cpp:151-155 | whatever follows a `#` changes nothing |
| ConfigLines.PlainLine | ConfigFile.cpp:171-179 | a line without a colon or a pair of brackets is passed over if and only if it is blank; a word in it ends the loading |
| ConfigLines.EntryExactly | ConfigFile.cpp:171-197 | a line with a colon and no pair of brackets gives, under the first word before the colon, one value for each piece between the commas: its first word or, without one, the value before |
| ConfigLines.NoiseDropped | ConfigFile.cpp:146-205 | blank lines and comments anywhere between other lines change nothing that is read |
| ConfigLines.NoisyPrintLoad | ConfigFile.cpp:136-205 | the round trip of every printable configuration with any blank lines and comments between its lines |
| DoConfig.ValueAt | ConfigFile.cpp:56-69 | the value at an index, exactly while there is one |
| DoConfig.LoadLists | main.cpp:144-154 | one list for every entry whose file opens, in order |
| DoConfig.ConfiguredList | main.cpp:144-154 | a list is loaded if and only if the configuration names it and the file it gives first opens, and it holds the hosts of that file |
| DoConfig.KeepLoaded | main.cpp:171-182 | the names of loaded lists, in order |
| DoConfig.ConfigureUser | main.cpp:163-216 | appends the user with password, addresses, audit flag and week as configured, and the policy of the loaded lists |
| DoConfig.FirstIs | ConfigFile.cpp:71-77 | the first value, and the empty text when there is none |
| DoConfig.EnabledExactly | main.cpp:138-139 | a setting is on if and only if its first value is `enabled` |
| DoConfig.AttributesExactly | ConfigFile.cpp:93-130 | the entries of a section are all those under its name, in order |
| DoConfig.KeyGiven | ConfigFile.cpp:93-130 | a loaded file has a key if and only if its lines give it a value |
| DoConfig.NothingConfigured | main.cpp:94-230 | without a file there is nothing but an empty global policy, and without authentication there are no users |
| DoConfig.DoConfig | main.cpp:94-230 | the user table, lists and policies are those the loaded file means |
| DoConfig.ConfiguredNames | main.cpp:160-165 | the configured table has the distinct non-empty names that the admission decision relies on |
| DoConfig.ConfiguredCredentials | main.cpp:160-165 | a name and password are good exactly when the file gives that password first under that name |
| DoConfig.ConfiguredAccess | main.cpp:199-214 | access is open exactly for listed users, except in half hours that an enabled schedule of 48 characters closes |
| DoConfig.ConfiguredDecision | main.cpp:156-218 | with authentication on, Basic credentials are admitted exactly when the configuration lists the user with that password and leaves the half hour open |
| DoConfig.TextDecision | main.cpp:94-230 | the same from the text of the file, the password read off the stream of its lines |
| DoConfig.ConfiguredIp | main.cpp:185-190 | the user of an address is the first in the file whose section lists it |
| DoConfig.ConfiguredAddress | main.cpp:185-190 | with authentication on, a request without credentials is admitted under a name if and only if it is that user's and the file leaves the half hour open |
| DoConfig.TextAddress | main.cpp:94-230 | the same from the text, with the addresses read off the stream of its lines |
| DoConfig.ConfiguredAudit | main.cpp:192-197 | auditing is on for exactly the users that the file lists and whose `audit` is `enabled` |
| DoConfig.TextAudit | main.cpp:94-230 | the same from the text |
| DoConfig.ConfiguredPolicy | main.cpp:171-182 | with no user called `<global>`, a host is allowed exactly when the loaded lists of the user and all lists of the global policy allow it |
| DoConfig.ConfiguredHosts | main.cpp:144-182 | the same from the files alone: kept from the hosts in the opened files of the user's lists and in those of the global lists, and from all hosts when one of the latter does not open |
| DoConfig.UnloadedDenial | main.cpp:220-229 | a policy that names a list which is not loaded is the global one |
| DoConfig.GlobalShadowed | main.cpp:220-229 | the global policy in force is the configured one exactly unless a user called `<global>` has other lists |
| DoConfig.GlobalIsShadowed | main.cpp:220-229 | a file that names a global list and has an empty global policy in force |
| ConfiguredProxy.ConfiguredMediation | main.cpp:94-230 | for every loaded file without a user called `<global>` and every run: the host of a connected session is in no opened file of its user's lists and in no file of a global list, and with authentication on the file lists its user, leaves the half hour of the decision open, and gives the password or the address of its request |
| ConfiguredProxy.FileDecision | main.cpp:94-230 | for every loaded file with authentication on and every request that fits: a session is admitted under a name if and only if the file lists it, leaves the half hour open, and gives the password of the request or, without credentials, lists its address there first |
| ConfiguredProxy.ConfiguredGrant | main.cpp:94-230 | for every loaded file without a user called `<global>` and every run: a session whose host was detected is sent to connect if and only if all global lists open and omit the host and, with authentication on, the file lets in a user whose opened lists omit it too |
| ConfiguredProxy.ConfiguredLedger | main.cpp:192-197 | for every loaded file and every run: the rows of a user and host are the sums over all of their sessions that ended when the file has the user audited, and empty otherwise |
| HostCache.HostInfoCache.GetCachedResults | HostInfoManager.cpp:37-50 | the sweep as written: what is left and what is found are determined by which elements it reaches |
| HostCache.HostInfoCache.ClearCacheForHost | HostInfoManager.cpp:52-59 | the same sweep over the records of a host |
| HostCache.HostInfoCache.AddResult | HostInfoManager.cpp:61-67 | the record goes to the back, and the oldest leaves when there are more than 2048 |
| HostCache.VisitedByParity | HostInfoManager.cpp:40-48 | an element is reached exactly when the run of erasable elements before it is even; the sweep stays in the list exactly when the run at the end is |
| HostCache.HitsSound | HostInfoManager.cpp:44-47 | the results are exactly the reached, unexpired records of the host |
| HostCache.LookupComplete | HostInfoManager.cpp:37-50 | a lookup returns all unexpired records of the host exactly when none stands behind an odd run of expired ones |
| HostCache.ClearComplete | HostInfoManager.cpp:52-59 | clearing stays in the list and removes all records of the host exactly when no two are neighbours and the last record is of another host |
| HostCache.SortedExpiry | HostInfoManager.cpp:37-50 | with the oldest record first and one clock reading, a lookup passes over at most the oldest unexpired record, exactly when an odd number expired, and leaves the list exactly when all expired and their number is odd |
| HostCache.LookupMisses | HostInfoManager.cpp:40-48 | a cache where a good record is missed, and one where the sweep leaves the list |
| HostCache.ClearLeaves | HostInfoManager.cpp:52-59 | two neighbouring records of a host of which clearing leaves one |
| HostHistory.TimestampExact | Timestamp.cpp:36-44 | the stamp is the true time if and only if less than a millisecond of the second has passed |
| HostHistory.TimestampLate | Timestamp.cpp:36-44 | an instant whose stamp is 900 milliseconds late |
| HostHistory.TimestampTrails | Timestamp.cpp:36-44 | the stamp is monotone and trails the true milliseconds by 0 to 900 |
| HostHistory.DoRefines | HostInfoManager.cpp:37-67 | the steps on the history are those of the cache's list |
| HostHistory.HistoryRefined | HostInfoManager.cpp:37-67 | in every run of additions, lookups and clears the list is an order-preserving selection of at most 2048 additions, and each addition missing from it left at a step for a reason |
| HostHistory.LeavesOnlyFor | HostInfoManager.cpp:37-67 | the reasons: its age, the clearing of its host, or 2048 newer records |
| HostHistory.ServedInTime | HostInfoManager.cpp:41-47 | with a clock that never runs backwards the unsigned age never wraps, a record taken for good is at most 1,800,900 true milliseconds old and one taken for expired at least 1,799,100 |
| HostHistory.HitsInTime | HostInfoManager.cpp:37-50 | every record a lookup returns is one of the host, at most 1,800,900 true milliseconds old |
| HostHistory.RecordsAdded | HostInfoManager.cpp:61-67 | in every run each record is an earlier addition, with the host, address, version and stamp it was made with |
| HostHistory.HitsAdded | HostInfoManager.cpp:37-50 | every record a lookup returns has an address that was added for the host asked for |
| HostHistory.HostResolver.GetAddressesForHost | HostResolver.cpp:48-102 | what the cache finds, and otherwise one record of the host with the first IPv4 address of the system, version 4 and the stamp of now, which is remembered; nothing when there is none |
| HostHistory.HostResolver.ClearCacheForHost | HostResolver.cpp:104-106 | passes the clearing on |
| Ledger.GlobalStats.GetStats | UserAuth.cpp:421-430 | the entry of the user and the row of the host, made at the end when missing |
| Ledger.GlobalStats.EndSession | Session.cpp:166-176 | the totals of a session with a host go to its row exactly when authentication and the user's audit are on |
| Ledger.GlobalStats.LogAndReset | UserAuth.cpp:441-453 | every user's rows are written under the current index, memory is cleared, the index goes on and wraps |
| Ledger.AddedTo | UserAuth.cpp:312-326 | an addition changes the totals of its user and host by its amount and no others, and keeps keys unique |
| Ledger.InMemoryExactly | UserAuth.cpp:421-430 | the totals of a user and host are those of the row of that host in the entry of that user |
| Ledger.AuditedExactly | Session.cpp:166-171 | a session is recorded if and only if it has a host, authentication is on, and the first user of its name has auditing on |
| Ledger.AuditedUser | Session.cpp:166-171 | with distinct names, that is the user's own setting |
| Ledger.AuditConserved | UserAuth.cpp:421-453 | for every run, user and host: bytes, times and connections, logged and in memory together, are the plain sums over the sessions on record that ended, the first three modulo 2^64 |
| Ledger.PeriodsIndexed | UserAuth.cpp:441-453 | users and hosts stay unique, in memory and in every period, and the k-th period has index k mod 31 |
| Ledger.LastPeriodsKept | UserAuth.cpp:376-405 | although files are truncated and reused, the rows of each of the last 31 periods are still in theirs |
| ClientSockets.ClientSocket.Read | ClientSocket.cpp:67-99 | one read as written: its result unsigned, so -1 is 2^64 - 1 without an error; only the end of the stream makes the socket inactive, which the next read reports |
| ClientSockets.ClientSocket.Write | ClientSocket.cpp:101-138 | goes on after partial writes; a failure makes the socket inactive and reports 0, whatever was delivered before it |
| ClientSockets.DeliveredExactly | ClientSocket.cpp:112-130 | writing goes on over partial writes and retries until an answer completes the bytes, and then delivers all, or until the first error before that, and then delivers what was taken |
| ClientSockets.PassFaithful | ClientSocket.cpp:67-138 | one event keeps a direction faithful: it takes in just the bytes read and puts out those of them that were taken; it stays active, and reports a count, exactly when the read gives data and all of it is delivered; the count read is what came in, or 2^64 - 1 exactly when the read failed |
| Relay.HandleClientSocketRead | SocketManager.cpp:171-212 | an event on an inactive socket tears down; any other passes one read on, whatever it answers, and counts what was written in Rx or what was read in Tx |
| Relay.RelayFaithful | SocketManager.cpp:202-209 | for every run and every pattern of answers each direction delivers a prefix of its input, all of it while active and all but part of a buffer otherwise; beyond what they started with, Rx is what the writes reported, which never exceeds what reached the server, and Tx what the server sent, less one modulo 2^64 when a read of its socket failed |
| Relay.FailedExactly | ClientSocket.cpp:76-96 | such a read is recorded if and only if some event reads -1 from the still active socket of the server in the open session |
| Relay.TxExactly | SocketManager.cpp:202-209 | for every run: Tx is what the server sent, modulo its width, if and only if it started at 0 and no event read -1 from the active server socket of the open session, or at 1 and one did; from 0 it is otherwise one less |
| Relay.TxWraps | SocketManager.cpp:202-209 | a server that sends nothing and is counted for 7 bytes, or for 2^64 - 1 |
| Relay.InactiveStays | ClientSocket.cpp:148-152 | an inactive direction never relays again, a closed session never changes, and it closes with the first event that finds its direction inactive |

## Left out

- Raw system calls, `epoll`, socket options, response strings and keep-alive: their results are parameters, their effects on open descriptors are kept.
- Failed or partial pipe writes and failed `epoll` registration: the code ignores these results; they are assumed to succeed.
- Batches of several events: `EventLoop.ProcessSockets` takes one ready descriptor a turn, so stale events for a descriptor reused within a batch do not arise.
- HTTP request scanning in the detector: its outcome (host and request, or failure) is a parameter; port and transparent mode are not kept.
- Session pointers: a session is named by its id, and a step that uses a pointer after the session has ended is a fault of the step system.
- Integer widths of descriptors, ids, connection counts and log indices: unbounded here; byte counters, connection times and the age of a cache record are 64-bit words.
- Timestamps of sessions: how long a session was connected is a parameter of its hand-off.
- A write of more than 2^63 - 1 bytes is taken to fail, as the system call refuses such counts.
- Logging, `Print` functions, CSV text and failing log writes: a log file is the sequence of rows written to it.
- IPv6 results, `inet_pton` and the port number: an address either can be used or not.
- `Daemonize`, verbosity, log redirection and the port setting in `DoConfig`.
- Lists read from files in `BlackList.cpp`: a file is the set of hosts it holds, or cannot be opened.
- `DumpUserStats`, `ReadyToLog` and the time of the last log: when to log is left to the caller.
- LifecycleTheorems.ExactlyOnePeer: about registered sockets between the steps of the dispatch thread; the moment between registering the two sockets of a pair is not a state.
- SocketManager.SocketManager.PruneExcessConnections: keeps the socket it removes, whose peer and session the original asks for after destroying it. So does EventLoop.Dispatch, which stops at the socket it found.
- SocketManager.AsyncMessenger.WriteMessage: the write to the pipe succeeds, so its boolean result is not kept.
- ProxyConnector.AsyncDetector: what the scan of the request finds is a parameter.
- UserAuth.AuthManager.AuthenticateToken: requires that user name and password fit their fields, past which the original writes; `UserAuth.FitsExactly` says exactly when they do. So do UserAuth.AuthManager.Decision, the handlers and the event loop for the request of the message they handle.
- UserAuth.AdmitsExactlyAuthorised: for requests that fit, as are UserAuth.UnconfirmedAdmission and Mediation.CompleteMediation.
- ConfigFile.ConfigFile.ParseLine: has the requirement of `ConfigFile.ConfigFile.LoadData`.
- DoConfig.DoConfig: has the requirement of `ConfigFile.ConfigFile.LoadData`.
- HostHistory.HostResolver.GetAddressesForHost: has the requirement of `HostCache.HostInfoCache.GetCachedResults`.
- HostHistory.HostResolver.ClearCacheForHost: has the requirement of `HostCache.HostInfoCache.ClearCacheForHost`.
- ConfigFile.ConfigFile.LoadData: requires that no line has an empty key, an empty first value or a word of 1024 characters or more, for which the original reads or writes outside what it initialised.
- HostCache.HostInfoCache.GetCachedResults: requires that the sweep does not step past the end of the list, where the original is undefined; `HostCache.VisitedByParity` says exactly when.
- HostCache.HostInfoCache.ClearCacheForHost: has the same requirement.
- ProxyConnector.AsyncConnector: the addresses come from the resolver as a parameter, and clearing the cache is left to the caller.
