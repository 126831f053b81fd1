# op-forward: verified model

op-forward runs 1Password's `op` on a host on behalf of virtual machines. A daemon on the host holds one
access token and one refresh token, mirrors them into three files and rotates both on request; a proxy on
each virtual machine reads copies of those files, sends the command, refreshes when it is refused, and hands
the exit status to a shell shim that may fall back to a local `op`. This project models that machinery in
Dafny and proves what holds over every run of it, for any number of clients, any interleaving, any failing
write and any crash.

`dafny verify dfyconfig.toml` checks everything.

## How the model is laid out

| file | what it is about |
|---|---|
| `Tokens.dfy`, `Lifecycle.dfy` | tokens and files; the daemon as a step system (start-up in four steps, the refresh handler in seven, an access check in two, a clock, crashes) and its invariant |
| `Rotation.dfy`, `Agreement.dfy`, `Witnesses.dfy` | theorems over whole runs: who is accepted and when, memory against disk, what a restart finds, and two constructed runs in which a replaced value is accepted |
| `Server.dfy` | the daemon as objects with fields and methods; the refresh handler, the access check and the start-up, successful or not, are shown to be stretches of the step system |
| `Proxy.dfy`, `Doctor.dfy` | the two clients, as objects whose methods are proved against functions of the old state, and what those functions guarantee |
| `Recovery.dfy` | the proxy together with the step system: what daemon restarts mean for a client, and what one run leaves for the next |
| `Execution.dfy`, `ExitContract.dfy` | 64-bit timeout arithmetic, the meaning of a finished `op`, and the path of its exit status through proxy, process and shim |
| `Optional.dfy`, `Text.dfy`, `TimeText.dfy`, `TokenFile.dfy`, `Publish.dfy` | strings, RFC 3339 instants, the token file format, and stage-then-rename publication |
| `Endpoint.dfy`, `UnixListener.dfy` | endpoint addresses; starting on a Unix socket path |
| `Redaction.dfy`, `ShimStamp.dfy` | the log line; the shim's version marker |

Choices a reader should know:

- Instants are integers counting nanoseconds since 1 January of year 1, read by all parties from one clock. One reading serves
  for both tokens of a rotation, for one whole start-up (in `Server.Serve`; the step system lets the clock move between its steps)
  and for one doctor run. That there is one clock is an assumption of the lifetime theorems: Go compares a token still in the
  daemon's memory on the monotonic reading and a loaded one on wall time, and the two can drift apart while the host sleeps.
- In the step system a client is only the bearer values it presents, and any value may be presented at any
  time. This covers every number and behaviour of clients, so nothing is assumed about them.
- `generate` is modelled as drawing a value that never existed before; that is what its 256 random bits are for.
- The three token files have distinct paths and only the daemon writes them. A file is seen in the lifecycle as
  `LoadFromPath` sees it; `Publish.EveryStateIsASaveOrNone` is the proof that this view is exact.
- Each individual save may fail, and every theorem says which saves it depends on.

## Where the code falls short of the obvious claim

Unless it is a single fact, each of these is stated as an exact condition and proved in both directions.

- `Agreement.OldValueReturnsExactlyWhenNoSaveLanded`: rotation is only as durable as the `refresh.token` saves, whose
  failures are logged and ignored. After any number of starts, completed or not, a rotated-out value is accepted again exactly
  when it was in `refresh.token` at its rotation, neither its successor's save nor any later one landed before the latest start,
  the stored expiry has not passed, and that process has not rotated since. Without a restart it is accepted under no condition
  (`Agreement.NotBackWithoutARestart`). `Witnesses.RotatedOutValueComesBack` builds such a run.
- `Recovery.NextRunPassesExactlyWhen`: the daemon rotates before its answer is on its way. If the answer to a granted refresh is
  lost, the client's files stay as they were and its next run cannot authenticate, however calm; the condition is exact.
  Copying `refresh.token` again repairs it (`Proxy.CopiedRefreshTokenRepairs`).
- `Rotation.LatePassExactlyWhenReadBefore`: `/op/execute` passes with an access token that has left memory exactly when the
  request's locked read came before the swap and the token was acceptable at that read.
  `Witnesses.ReplacedAccessTokenPasses` builds such a run, with every save working.
- `Server.SecondServeDisplacesTheAccessToken`: a second `serve` rewrites `access.token` before it discovers that it
  cannot bind, leaving a value that the running daemon never accepts.
- `Execution.LimitIsTheCappedRequest`, `Execution.OverflowIsNeverStarted`: large timeouts wrap around 64 bits; a limit that
  comes out as zero or less is an error before `op` starts.
- `Execution.ClientOutlivesExactlyWhen`: the client stays 5 s longer than the daemon for every positive timeout, because a
  client timeout that wraps to zero or less means waiting without limit; with an explicit 0, which the daemon reads as 60 s,
  it gives up after 5 s, and likewise for the values above -5000.
- `ExitContract.CompletedRunIsRelayed`, `ExitContract.RunsTwiceExactlyWhen`: 127 stands for a forwarding failure, so a command
  runs on the host and again locally exactly when its reply was lost or undecodable, or, before the deadline, waiting for it
  failed or its status has low byte 127.
- `UnixListener.TakeoverExactlyWhenProbeSilent`: a live daemon that misses the probe loses its socket path.
- `TokenFile.LoadUndoesSave`, `TimeText.ParseUndoesFormat`: a five-digit year is written but cannot be read back.
- `Endpoint.TcpReparsesExactlyWhenHostIsPlain`: a host given with its own brackets, or empty, prints to something
  that does not parse back to it.
- `docs/protocol.md:212-214` calls both previous tokens invalid as soon as a refresh answer is produced; the first and third points are the exceptions.
- `docs/protocol.md:224` lists a 500 for a failed token generation; no code produces it, and the model has none.

## Model

| member | source | states |
|---|---|---|
| Lifecycle.RunInv | internal/daemon/server.go:270-343 | in every state of every run: both in-memory tokens are known generated or pre-existing ones with the expiry fixed at generation (cut to the second if loaded), they differ, every file's relation to memory is the one its last save left, also in the middle of a refresh |
| Lifecycle.StepInv | internal/daemon/server.go:282-328 | each step of start-up, refresh, access check, clock and crash keeps that invariant |
| Rotation.RotatedOutNeverAccepted | internal/daemon/server.go:282-328 | once the successor of a refresh value has reached refresh.token, /token/refresh never accepts the old value again, in this process or after any crashes and restarts |
| Rotation.SingleWinner | internal/daemon/server.go:282-343 | of all refresh requests that present one value to one daemon process, however interleaved, at most one is answered with a new pair |
| Rotation.ForgottenAccessNeverRead | internal/daemon/server.go:326-328 | after rotation or the end of the process, no later locked read finds the old access value acceptable |
| Rotation.VerdictIsTheLockPointCheck | internal/daemon/server.go:347-358 | the verdict of authenticateAccess, whenever it is reached, is the check on the token pair as it was at its locked read |
| Rotation.LatePassExactlyWhenReadBefore | internal/daemon/server.go:352-357 | an access token that has left memory passes if and only if the request's own locked read came before that and accepted the token there; then it left by rotation, not by a restart |
| Rotation.NoBearerPassesBoth | internal/daemon/server.go:285-287 | in every reachable state the two in-memory values differ, also after a mirrored access value was promoted by migration, so no bearer passes both handlers |
| Rotation.AcceptedOnlyWithinLifetime | internal/auth/token.go:45-63 | a generated value is accepted only from its generation until 30 days (refresh) or 1 hour (access) later, across any number of saves, loads, migrations and restarts |
| Rotation.PlantedOnlyBeforeItsExpiry | internal/auth/token.go:144-160 | a value that was on disk before the run is never accepted past the latest expiry it had there |
| Rotation.ClientNeverWrongAboutExpiry | cmd/proxy.go:300-317 | if a client judges a saved daemon-issued token valid and the daemon still holds its value, the daemon accepts it |
| Agreement.AgreementIsPerFile | internal/daemon/server.go:308-328 | with the token lock free, each file shows the in-memory token exactly when this process's last save of that file succeeded |
| Agreement.MemoryAndDiskAgree | cmd/serve.go:32-61 | if no save failed so far, then with the lock free all three files hold the in-memory pair cut to the second (a refresh token found on disk is held as found) |
| Agreement.RestartFindsPreviousOrNew | internal/auth/token.go:187-202 | after a crash at any point, inside the refresh handler or not, the next start holds exactly the token refresh.token showed, unless it has expired; that is the new token if it had been saved, else the one in memory if its own save had succeeded |
| Agreement.OldValueReturnsExactlyWhenNoSaveLanded | internal/daemon/server.go:314-318 | after any number of starts a rotated-out value is accepted if and only if it was in refresh.token at its rotation, neither its successor's save nor any later rotation's landed before the latest start, the expiry on disk has not passed, and nothing was rotated since that start |
| Agreement.NotBackWithoutARestart | internal/daemon/server.go:326-328 | until the daemon is started again a value being rotated out is never accepted, whether or not any save landed |
| Agreement.AcceptedWhenLoaded | internal/auth/token.go:192-201 | a daemon accepts a value from before its latest start if and only if refresh.token held it at that start, it is unexpired there, and nothing was rotated since |
| Witnesses.RotatedOutValueComesBack | internal/daemon/server.go:314-318 | from any files with a good refresh token there is a legal run of 17 steps in which one refresh value is granted, rotated out, and granted again |
| Witnesses.ReplacedAccessTokenPasses | internal/daemon/server.go:352-357 | from any files with a good refresh token there is a legal run of 13 steps, every save working, in which a request passes with an access token already replaced |
| Server.BearerArrives | internal/daemon/server.go:367-377 | the Authorization header a client builds yields exactly the value put in, whatever characters it has |
| Server.BearerExactlyWhen | internal/daemon/server.go:367-377 | no other header yields a value: not another scheme, another case, or nothing after it |
| Server.TokenDirectory.MigrateLegacyToken | internal/auth/token.go:207-232 | session.token becomes refresh.token only if the latter is absent and the former loads unexpired; nothing else changes |
| Server.TokenDirectory.LoadOrGenerateRefresh | internal/auth/token.go:187-202 | a stored unexpired token is returned and nothing written; otherwise a new one is made and saved, and a failed save is an error that leaves the file |
| Server.Server.AuthenticateAccess | internal/daemon/server.go:347-358 | true if and only if the bearer is the in-memory, unexpired access value |
| Server.Server.HandleTokenRefresh | internal/daemon/server.go:270-343 | a granted request swaps both tokens and changes each of the three files exactly as its own save went; a denied one or one that is not a POST changes nothing |
| Server.Server.HandleExecute | internal/daemon/server.go:193-257 | op is started at most once, only after authentication, never for a request answered 401; the tokens are untouched |
| Server.Serve | cmd/serve.go:26-67 | the daemon's memory and the three files after start-up, which saves are fatal and what a fatal one leaves behind |
| Server.StartServesWith | cmd/serve.go:26-36 | the refresh token of a start: the stored one while good; else, if there is none, the old session token if its migration works and its expiry cut to the second has not passed; else a new one |
| Server.SavesAreThreeSteps | internal/daemon/server.go:308-324 | the three saves of the handler are three steps that change only the files and the record of outcomes, each as its own outcome says |
| Server.AccessCheckIsTwoSteps | internal/daemon/server.go:347-358 | an access check is a locked read and a verdict, which together change nothing and, undisturbed, answer as AuthenticateAccess does |
| Server.RefreshIsSevenSteps | internal/daemon/server.go:282-343 | a granted refresh is a legal path of seven steps under the lock that ends with the memory and files of HandleTokenRefresh |
| Server.StartupIsFourSteps | cmd/serve.go:26-67 | a successful start is a legal path of four steps that ends with the memory and files of Serve |
| Server.FailedStartIsThoseStepsCutShort | cmd/serve.go:33-50 | a start with a fatal save failure is the first two or three of these steps and ends with no daemon and the files of Serve |
| Server.SecondServeDisplacesTheAccessToken | cmd/serve.go:45-67 | a second start leaves in access.token a value the running daemon accepts at no time, while an unexpired refresh.token stays |
| Proxy.AtMostOneLaunch | cmd/proxy.go:100-144 | a run sends at most two execute requests and one refresh and starts op at most once, whatever the files, the other clients and the network do |
| Proxy.RunSendsAndRelays | cmd/proxy.go:64-185 | for arbitrary answers: the requests of a run in order, and its result, which is the answer after a refresh, or a first answer other than 401, or nothing |
| Proxy.RetryOnlyAfterNoLaunch | cmd/proxy.go:103-144 | a retry follows only a first attempt that was not made or whose reply was a 401, which starts nothing |
| Proxy.Client.ExecuteWithAuth | cmd/proxy.go:189-212 | one execute request with this bearer, answered by the daemon's check on its current pair, or lost |
| Proxy.Client.AttemptRefresh | cmd/proxy.go:226-264 | one refresh request; the daemon's memory rotates and its three files are written exactly when it grants it, also if the answer is lost |
| Proxy.Client.StoreAndRetry | cmd/proxy.go:134-144 | both files take the new tokens as far as their own saves succeed, and one execute request goes out with the new access token in any case |
| Proxy.Client.RenewAndRetry | cmd/proxy.go:111-144 | which refresh value is used, what is written here, what is sent and returned, and what the daemon's memory and files then hold |
| Proxy.Client.RunProxy | cmd/proxy.go:59-186 | the whole run, field by field: requests sent, files left here, error value, the daemon's memory and files, at most one launch |
| Proxy.SoloRunIsARun | cmd/proxy.go:64-144 | the run against one daemon alone is an instance of the run with arbitrary answers |
| Proxy.RecoversExactlyWhen | cmd/proxy.go:64-144 | with nothing failing, a run passes authentication if and only if its first token is accepted, or its refresh value is the daemon's current unexpired one and the retry comes within the hour |
| Proxy.SuccessIsTheHostsAnswer | cmd/proxy.go:139-185 | with nothing failing, a run that gets through relays the host's own answer to its request, with or without a refresh |
| Proxy.HolderOfTheRefreshValueRecovers | cmd/proxy.go:111-185 | holding the daemon's refresh value, any access and legacy files lead to the host's own answer; if a refresh happened, both files load to exactly the daemon's in-memory pair, else neither side changed |
| Proxy.RefreshLeavesHostAndClientAlike | cmd/proxy.go:127-136 | a recovery that refreshed, with every save working, leaves host and client with files that load to the same tokens |
| Proxy.CopiedRefreshTokenRepairs | cmd/proxy.go:354-361 | what the error message advises works: a machine that is given the host's refresh.token file recovers, whatever its other two files contain, while that token is unexpired |
| Recovery.ClientsRecoverAfterARestart | internal/daemon/server.go:267-269 | a client holding the last refresh value saved when the daemon was killed, at any point, gets through to the daemon running after any number of starts, unless that value expired or was rotated out since |
| Recovery.NextRunPassesExactlyWhen | cmd/proxy.go:127-139 | after a granted refresh, the client's next run with nothing failing passes if and only if the answer arrived and the new refresh token or the new access token was stored and is still good; a lost answer locks the client out |
| Recovery.CallerSeesTheHostsStatus | cmd/install.go:47-60 | from host to caller, through proxy, process and shim, also after a refresh: success exactly when op ended in time with low byte 0, and any other low byte but 127 unchanged |
| Recovery.SessionTokenStandsIn | cmd/proxy.go:66-69 | access.token and refresh.token count if they hold anything; session.token stands in for either only if they do not |
| Recovery.UpgradeKeepsClients | internal/auth/token.go:204-231 | a client and a host that hold only the same session.token keep working across the upgrade: it becomes the refresh token and the client's next run gets through |
| TokenFile.ReadAgreesWithLoad | cmd/proxy.go:300-317 | for every file content the client calls a token valid exactly when the daemon would load an unexpired token from it, and both see the same value |
| TokenFile.TwoLinesAreRead | cmd/proxy.go:307-316 | of two lines the client takes the first as the value whatever the second is, valid only if that parses and has not passed; the daemon loads them only if it parses |
| TokenFile.OneLineIsAValue | cmd/proxy.go:300-311 | a single line in any white space is a value to the client, never valid, and no token to the daemon; a missing file has no value |
| TokenFile.LoadedValueFits | internal/auth/token.go:146-160 | every loaded value is non-empty, on one line and without leading white space, hence safe to save again |
| TokenFile.LoadUndoesSave | internal/auth/token.go:126-160 | loading a saved token gives the value and the expiry cut to the second if and only if the value fits on one line and the expiry lies before the year 10000 on the writer's clock, in every zone |
| TokenFile.SecondCycleChangesNothing | internal/auth/token.go:126-160 | whatever was loaded, one save and load cuts the expiry to the second, and a second cycle in any zone changes nothing |
| TimeText.DayNumberOfDate | internal/auth/token.go:155 | the parser's arithmetic day number undoes counting days one by one through the Gregorian calendar |
| TimeText.DateOfDayNumber | internal/auth/token.go:155 | and counting as many days as the day number says leads to the date, for every valid date |
| TimeText.FourDigitYearExactlyWhen | internal/auth/token.go:130 | the year has four digits exactly on the first 3652059 days, which is the bound the round trips are stated with |
| TimeText.ParseUndoesFormat | internal/auth/token.go:130 | parsing a printed instant gives it cut to the second, in every whole-minute zone, up to the end of year 9999, and fails from then on |
| TimeText.FormatUndoesParse | internal/auth/token.go:155-158 | an accepted text of the years 1 to 9999 is a valid date and time, perhaps a fraction, and a zone; printed in that zone its instant gives the same text again without the fraction, so nothing else is accepted |
| Publish.NeverHalfPublished | internal/auth/token.go:131-141 | in every observable state of a publication the path has its complete old contents, or, only as the last state of a successful one, the complete new contents; no third path is touched |
| Publish.StagingRemainsExactlyWhen | internal/auth/token.go:132-140 | the staging file is left behind if and only if the write broke off, or neither rename nor removal worked |
| Publish.EveryStateIsASaveOrNone | internal/auth/token.go:126-160 | through LoadFromPath every observable state of SaveToPath is the old token or, in the last state of a successful save, the new one cut to the second |
| Publish.FileSystem.WriteFile | internal/auth/token.go:132 | a write truncates, proceeds in pieces and may stop anywhere; only its own path changes |
| Publish.FileSystem.SaveToPath | internal/auth/token.go:126-142 | success exactly when every call succeeded; on a reported failure the path keeps its old contents; the states passed through are those of the specification |
| Publish.FileSystem.WriteTokenFile | cmd/proxy.go:325-341 | the same for the client's writer |
| Publish.FileSystem.ReplaceBinaryAt | cmd/update.go:215-228 | the same for the binary, which is staged beside its target |
| Publish.ReaderSeesLastLanded | internal/auth/token.go:126-142 | after any sequence of writers, each killed anywhere, the path holds the complete data of the last publication that finished |
| Publish.ReaderNeverSeesAMixture | internal/auth/token.go:126-142 | also while a further writer is at work a reader sees that, or at the very end the new data |
| Execution.LimitIsBounded | internal/executor/op.go:95-101 | the execution limit is at most 300 s for every request, 60 s for non-positive ones, and the server can write its answer for 10 s more |
| Execution.LimitIsTheCappedRequest | internal/executor/op.go:95-101 | the limit is the requested time capped at 300 s if and only if the product stays within 64 bits (up to 9223372036854 ms) or wraps to the cap or more |
| Execution.OverflowIsNeverStarted | internal/executor/op.go:95-118 | a request whose limit is zero or less is an infrastructure error and op is not started; that needs an overflow, and 9223372036855 ms is the first case |
| Execution.ClientOutlivesTheLimit | cmd/proxy.go:95 | for 1 to 9223372031854 ms the client's timeout is positive and at least 5 s above the limit |
| Execution.ClientOutlivesExactlyWhen | cmd/proxy.go:95-96 | for every 64-bit timeout: the client stays 5 s longer than the daemon if and only if the timeout is positive or the client's own is not between 0 and 65 s; short of overflow that fails exactly for -4999 to 0 |
| Execution.InterpretRun | internal/executor/op.go:131-165 | a failed start is an error; past the deadline the status is 124 whatever the child's was; else the child's own output and status, or an error if it could not be waited for |
| Execution.Execute | internal/executor/op.go:87-126 | op is started exactly when the arguments are accepted, op is found, launchable and starts, and the limit is positive |
| Execution.Answer | internal/daemon/server.go:193-257 | 401 exactly for an unauthenticated POST, and nothing is started without authentication |
| Execution.AnswersExactlyWhen | internal/daemon/server.go:195-256 | which of the six statuses a request gets, in terms of the request and the host alone; what a 200 carries: the refusal with status 1, the timeout with 124, or the child's own output and status; and when op is started |
| ExitContract.RunShim | cmd/install.go:42-63 | which op-forward binary is run, the recorded one before the one on PATH; when none is; and where the script ends: the proxy's status, the real op, or 1 |
| ExitContract.ShimNeverEndsWith127 | cmd/install.go:47-63 | the shim never ends with 127 itself, and with 1 exactly when it relays a 1 or has nothing left to run |
| ExitContract.ZeroExactlyWhen | main.go:23-37 | a process ends with 0 exactly when its command reports nothing or a status with low byte 0; any other kind of error is 1 |
| ExitContract.CompletedRunIsRelayed | cmd/install.go:47-60 | for a completed run the caller sees its status, which is 1 for refused arguments, 124 past the deadline and else the child's own, and the real op stays out of it, if and only if the low byte is not 127; every code 0 to 255 but 127 arrives unchanged |
| ExitContract.ChildsOwnStatusArrives | internal/executor/op.go:151-164 | what op printed is in the reply, and the low byte of its own status reaches the caller if it ended in time and that byte is not 127 |
| ExitContract.SuccessExactlyWhen | internal/executor/op.go:131-165 | the caller is told of success if and only if op started on the host and ended in time with a status of low byte 0 |
| ExitContract.RefusedArgumentsAreStatus1 | internal/executor/op.go:88-93 | refused arguments are status 1 with the reason, and nothing is started |
| ExitContract.DeadlineIsStatus124 | internal/executor/op.go:139-149 | past the deadline of a run that started, the caller of the shim sees 124 whatever the child's status was |
| ExitContract.RealOpRunsExactlyWhen | cmd/install.go:47-60 | the real op is started if and only if it can be and there is no op-forward binary, no usable reply, or a relayed low byte of 127 |
| ExitContract.RunsTwiceExactlyWhen | cmd/install.go:47-60 | with a proxy and a real op at hand, a command runs on the host and again locally if and only if op started there and its reply was lost or undecodable or, before the deadline, waiting failed or the status has low byte 127 |
| Doctor.RenewsExactlyWhen | cmd/doctor.go:497-538 | doctor asks for a renewal if and only if the daemon is in reach, renewal is allowed, a valid refresh token exists and the access token is missing, expired or rejected; at most once, and otherwise no file changes |
| Doctor.RenewalLeaves | cmd/doctor.go:446-467 | a renewal is done if and only if the answer was complete and both writes worked; each file is the new one exactly when it was reached and its write worked |
| Doctor.DaemonOpExactlyWhen | cmd/doctor.go:481-568 | over whole runs, which answer is consulted, when one is judged at all, and exactly when daemon_op fails, warns or is ok |
| Doctor.DoctorReadsAsTheProxyDoes | cmd/doctor.go:596-613 | doctor finds a valid value in a file exactly when the proxy does, the same one, and prefers access.token |
| Doctor.ReportsAgreeWithWhatWasDone | cmd/doctor.go:481-568 | if renewal failed, daemon_op and tokens have the same status, summary and action; each mentions a renewal exactly when it was done, which means both files hold what the daemon issued |
| Doctor.RenewalDoneLeavesTheIssuedPair | cmd/doctor.go:454-467 | renewal done means that both token files load to the very pair the daemon issued |
| Doctor.FailedSecondWriteLeavesTheOldRefreshToken | cmd/doctor.go:454-465 | whatever led to the renewal, a failed second write is reported and leaves the new access token beside the old refresh token |
| Doctor.Doctor.RenewAccessToken | cmd/doctor.go:439-468 | one refresh call; access file first, refresh file only after it; the recorded state and finding |
| Doctor.Doctor.CheckDaemonOp | cmd/doctor.go:481-568 | the finding, the renewal state and the files; under --no-refresh no refresh call and no write |
| Doctor.TokensFailExactlyWhen | cmd/doctor.go:615-653 | over whole runs the tokens check fails if and only if renewal failed or no file held a valid token, and warns if and only if there was a valid access token but no valid refresh token |
| Doctor.Doctor.CheckTokens | cmd/doctor.go:615-653 | the tokens finding for each renewal state and validity of the files, which TokensFailExactlyWhen is about |
| Doctor.Doctor.Run | cmd/doctor.go:249-287 | the checks in order, at most one refresh call, exit code 1 exactly when some check failed, and the overall status |
| Doctor.FoldStatuses | cmd/doctor.go:275-285 | fail if any check failed, else warn if any warned, else ok; exit code 1 exactly for fail |
| Doctor.JudgesExactlyWhen | cmd/doctor.go:540-567 | daemon_op fails if and only if there is no answer, an unknown status, an unreadable body or a failing component; it warns if and only if the daemon refused in a known way or some component warns and none fails; it is ok if and only if some component is ok and none objects |
| Doctor.FoldOpComponents | cmd/doctor.go:805-842 | the fold of any number of components equals its recursive specification |
| Doctor.WorstIsTheFirstMostSevere | cmd/doctor.go:806-814 | the status comes from the first component of the highest severity |
| Doctor.ActionExactly | cmd/doctor.go:806-822 | the action is that of the first most severe component, except that when all is well the last skipped component with advice is heard |
| Endpoint.SplitUndoesJoin | internal/endpoint/endpoint.go:54-64 | splitting a joined host and port gives them back, with and without brackets |
| Endpoint.SplitsExactlyWhen | internal/endpoint/endpoint.go:54 | exactly what splits into host and port: the two around a colon, brackets around a host that needs or has them, and no other bracket or colon |
| Endpoint.IntExactlyWhen | internal/endpoint/endpoint.go:61 | a sign or none, any number of zeros and a decimal number are a port exactly when the number fits 64 bits |
| Endpoint.EveryIntIsPadded | internal/endpoint/endpoint.go:61 | and nothing else is |
| Endpoint.TcpAcceptsExactlyWhen | internal/endpoint/endpoint.go:53-64 | after tcp:// exactly a non-empty host and a numeric port are accepted and joined; the extra refusal of ports with /, ? or # is implied |
| Endpoint.AcceptsExactlyWhen | internal/endpoint/endpoint.go:47-79 | exactly the strings of the two schemes with a good host and port, or, except on Windows, an absolute path, are accepted |
| Endpoint.AfterUnix | internal/endpoint/endpoint.go:65-75 | after unix:// what is accepted, and that it denotes its cleaned path |
| Endpoint.UnixPathIsKept | internal/endpoint/endpoint.go:75 | a path of proper parts is the address, unchanged |
| Endpoint.PartsOfAbsolute | internal/endpoint/endpoint.go:75 | every absolute path is a slash before each of its parts, which is what the next four rules are about |
| Endpoint.CleanKeepsProperParts | internal/endpoint/endpoint.go:75 | cleaning keeps proper parts, all of them in order |
| Endpoint.CleanIgnoresDot | internal/endpoint/endpoint.go:75 | an empty or . part changes nothing, wherever it is |
| Endpoint.CleanCancelsParent | internal/endpoint/endpoint.go:75 | a proper part and a .. after it cancel, wherever they are |
| Endpoint.CleanAtTheRoot | internal/endpoint/endpoint.go:75 | a .. at the root changes nothing, and no parts at all are the root |
| Endpoint.CleanTwice | internal/endpoint/endpoint.go:75 | a cleaned path is absolute and cleaning it again changes nothing |
| Endpoint.ParseUndoesString | internal/endpoint/endpoint.go:47-90 | for every accepted string, parsing the printed endpoint gives the same endpoint |
| Endpoint.ItoaIsInt | internal/endpoint/endpoint.go:58-63 | every 64-bit integer prints to a port that the parser accepts |
| Endpoint.TcpReparsesExactlyWhenHostIsPlain | internal/endpoint/endpoint.go:83-90 | an endpoint built from host and port prints to something that parses back to it if and only if the host is not empty and has no brackets |
| UnixListener.Machine.ListenUnix | internal/endpoint/transport_unix.go:14-63 | the outcome and the whole state afterwards; umask restored, non-sockets untouched, the socket never in any mode but 0600, a success bound inside a private directory |
| UnixListener.Machine.PrepareDir | internal/endpoint/transport_unix.go:15-30 | the directory is created only where there is none, and accepted only if it is one, owned, and closed to group and others |
| UnixListener.Machine.ClearPath | internal/endpoint/transport_unix.go:31-41 | only a socket that does not answer the probe is removed |
| UnixListener.StartSucceedsExactlyWhen | internal/endpoint/transport_unix.go:14-63 | a start succeeds if and only if the calls it needs work, the directory is new or the user's own and closed, and the path is free or holds a removable dead socket; it then listens with mode 0600 |
| UnixListener.FailedStartLeaves | internal/endpoint/transport_unix.go:14-63 | a failed start adds no listener and changes the path only by removing a dead socket |
| UnixListener.AtMostOneLiveListener | internal/endpoint/transport_unix.go:14-63 | over any sequence of non-overlapping starts and deaths, with or without the socket being unlinked, and live listeners answering probes: at most one live listener, its socket at the path with mode 0600, and the umask of the beginning |
| UnixListener.StartsSpareNonSocketsAndBindPrivately | internal/endpoint/transport_unix.go:31-34 | no start changes a non-socket at the path, and a start that adds a listener bound inside a private directory |
| UnixListener.TakeoverExactlyWhenProbeSilent | internal/endpoint/transport_unix.go:35-40 | while a listener is live, another start takes the path over, leaving two, exactly when the probe goes unanswered |
| Redaction.SanitizeArgsForLog | internal/daemon/server.go:381-402 | the single pass prints the slots of SlotsExactly |
| Redaction.SlotsExactly | internal/daemon/server.go:384-400 | an argument is replaced by [REDACTED] exactly when the maximal run of --password/-p arguments ending just before it has odd length; every other stays verbatim in place |
| Redaction.LineIndependentOfHidden | internal/daemon/server.go:385-388 | the log line is the same whatever stood in the place of a hidden argument, a flag included |
| Redaction.JoinTakesApart | internal/daemon/server.go:401 | the line is the slots, in order, with a blank between any two |
| Redaction.HiddenExactlyAfterAShownFlag | internal/daemon/server.go:383-400 | so an argument is hidden if and only if the one before it is a flag that is not itself hidden |
| ShimStamp.StampKeepsExactlyPlain | cmd/install.go:156-164 | stamping leaves a version alone if and only if it consists of the allowed characters |
| ShimStamp.StampIdempotent | cmd/install.go:156-164 | stamping twice is stamping once |
| ShimStamp.ParseUndoesRender | cmd/install.go:144-180 | reading the marker of a rendered shim gives the stamped version, for every version and every pair of paths, newlines and placeholders included |
| ShimStamp.RenderedShimNamesItsPaths | cmd/install.go:31-37 | in a script of the template's form each path lands in its own place; the real op's always verbatim, the binary's unless it contains a placeholder filled in after it |
| ShimStamp.ScriptEndsTheSearch | cmd/install.go:166-179 | a marker after the first line of script is not read |
| ShimStamp.OlderShimIsUnstamped | cmd/doctor.go:351-354 | a shim with the signature and no marker in its header is judged unstamped, whatever its script contains |
| ShimStamp.NoShimExactlyWhenUnsigned | cmd/doctor.go:342-349 | a file is no shim exactly when the signature occurs nowhere in it |
| ShimStamp.RenderedShimIsCurrentExactlyForItsWriter | cmd/doctor.go:342-361 | doctor calls a rendered shim current for the binary that wrote it, and for another exactly when both versions have the same stamp |

## Left out

- HTTP, JSON, headers other than the bearer, the body limit and the response codes of intermediaries: requests and
  replies are values, a lost reply is a case of its own. A bearer value travels unchanged; that net/http trims header values and refuses
  control characters matters only for values no daemon generates.
- Running `op` itself, terminals, Windows pipes, peer credentials, biometric prompts and `/health/op`'s probing: only how a run ended is used.
- Randomness and constant-time comparison: a drawn value is one never seen before, comparison is equality.
- Two simultaneous writers of one staging file and overlapping starts on one socket path: the code makes no promise there.
- Environment overrides that make two token paths the same file, and deletion or editing of the host's token files by hand during a run.
- Modes and ownership of token files and their directory, and power loss: a crash ends a process, not the file system.
- Argument validation, version comparison, `internal/opcheck`, flag and environment precedence, launchd, downloads, release scripts,
  message wording (doctor's wording is replaced by names for what is said): tables and short scans.
- Doctor.Doctor.Run: takes the findings about the binary, the shim, the endpoint, the daemon's health and the local `op` as given; only daemon_op and tokens are modelled.
- TimeText.ParseUndoesFormat: the parser is the strict form of section 5.6 of RFC 3339; Go also accepts a one-digit hour, a comma before
  the fraction and a zone hour of 24, none of which is ever printed. Zones with seconds in their offset are not modelled.
- Endpoint.CleanTwice: `filepath.Clean` is modelled for absolute paths, the only ones the parser passes to it.
- ExitContract.RunShim: paths are plain strings; how the shell would read one that contains quotes or `$` is not modelled.
- Server.Serve: stops where the listener starts; binding is module UnixListener.
- `ShouldRenew`, `Renew`, `LoadOrGenerate`, `Save` and `Load` are never called by the daemon or the proxy.
- `IsLoopback`, `BaseURL` and the listen and dial rules of the TCP transport.
