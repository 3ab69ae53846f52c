# openclaw-railway-template wrapper core, in Dafny

This project models the decision logic of the wrapper server that fronts an OpenClaw
gateway (`src/server.js`). It also models the start-up script that patches the Control UI
bundle (`src/patch-control-ui-instance.js`). Each part is proved against the promises the
code makes.

The parts:

- **Origins** (`origins.dfy`). Builds the Control UI origin allow-list:
  - header reading, origin normalisation and comma/space-separated origin lists;
  - the platform domain, and the origin inferred from a request;
  - the sorted, de-duplicated desired list.
- **OriginSync** (`origin_sync.dfy`). The cache in front of the
  `config set gateway.controlUi.allowedOrigins` command:
  - seeding from the persisted list;
  - skipping when nothing changed, and joining an in-flight sync;
  - updating the cache only on success, and restarting only after a real update;
  - the 60-second debounce.
  - Pure step functions carry the proofs. The class `OriginSyncCache` updates its fields
    in place and is proved equal to them.
- **Supervisor** (`supervisor.dfy`). The gateway process life cycle:
  - start or join, the health probe, spawn errors and exits;
  - the `_manualRestart` flag, the 2-second auto-restart timer;
  - recovery with its 5-second cool-down, and graceful shutdown.
  - It is an event-driven state machine. Each asynchronous continuation is an event, and
    the class `GatewaySupervisor` holds the module-level variables.
- **SetupAuth** (`setup_auth.dfy`). The `/setup` guard:
  - the per-IP fixed-window rate limiter (50 attempts per 60 s) and its cleanup sweep;
  - HTTP Basic credentials, as in section 2 of RFC 7617, with the password compared by
    digest.
- **GatewayToken** (`gateway_token.dfy`). Chooses the gateway token: environment first,
  then the persisted file, then 32 fresh random bytes in hex.
- **CommandOutput** (`command_output.dfy`). Truncation of command output for display, and
  the "loose" JSON reading that falls back to the outermost bracket window.
- **CronJobs** (`cron_jobs.dfy`). The depth-limited walk that gathers cron jobs from any
  JSON shape, de-duplicated by `id::name`. The walk is a class that appends to its job
  list and seen-set, proved equal to a pure collection function.
- **Automation** (`automation.dfy`). Validates and normalises the automation settings,
  builds the delivery arguments, and builds the morning cron expression.
- **Onboard** (`onboard.dfy`). Validates the `/setup/api/run` body and builds the
  `openclaw onboard` argument vector.
- **ControlUiPatch** (`control_ui_patch.dfy`). The insertion of the `instanceId`
  expression into a bundle, and the walk over the asset directory.

Supporting modules: `text.dfy` holds the JavaScript string operations the code relies on
(`trim`, `split`, `indexOf`, `parseInt`, `String(n)`). `string_sets.dfy` holds insertion-ordered
de-duplication (`new Set`) and a code-point order (equal to `.sort()`'s code-unit order inside
the Basic Multilingual Plane). `json.dfy` holds a JSON value type with property lookup,
JavaScript truthiness, and `String(value)` with the values whose conversion throws. `timing.dfy` holds
time-stamp spacing.

What comes from outside the code becomes a parameter:

- the WHATWG URL parser (origin of a URL);
- `JSON.parse`, base64 decoding, SHA-256;
- `Intl` time-zone support;
- file reads and directory listings;
- random bytes, and the clock.

The order of asynchronous completions is an event sequence.

## Model

| member | source | states |
|---|---|---|
| Json.Get | src/server.js:1067-1073 | A property lookup finds a value exactly when some field has that key, and the value is one stored under it. |
| Json.OwnToStringThrows | src/server.js:1196-1198 | `String(...)` of a parsed object with an own `toString` property, such as `{"toString":1}`, throws, and so does that of an array holding one (its `join` converts each element). |
| Json.GetString | src/server.js:1067-1073 | The `typeof … === "string"` read: a string exactly when the property exists and holds a string. |
| Origins.FirstHeaderValue | src/server.js:137-141 | An absent or empty header reads as "", otherwise as the trimmed first value. It is a decision table; `InferRequestOrigin` relates it to the request. |
| Origins.NormalizeOrigin | src/server.js:143-151 | Blank input gives ""; any other input gives the URL origin of the trimmed input. |
| Origins.SplitOriginList | src/server.js:153-160 | Splitting on runs of commas and white space yields at least one piece, and no piece contains a separator. |
| Origins.SeparatorRuns | src/server.js:153-160 | There is one separator run fewer than there are pieces. |
| Origins.SeparatorRunsAreRuns | src/server.js:153-160 | What the list is cut at are non-empty runs of commas and white space. |
| Origins.SplitOriginListJoin | src/server.js:153-160 | Putting the separator runs back between the pieces gives the input again: nothing is lost or reordered. With `SplitOriginListInnerNonEmpty` this makes the pieces exactly the text between maximal separator runs. |
| Origins.SeparatorRunsStep | src/server.js:153-160 | The first cut is a non-empty separator run, followed by the runs of the text after it. |
| Origins.FirstPieceNonEmpty | src/server.js:153-160 | Text that starts with a non-separator has a non-empty first piece. |
| Origins.SplitOriginListInnerNonEmpty | src/server.js:153-160 | Only the first and last pieces can be empty (text that starts or ends with separators), so every run is maximal: "a,,b" gives ["a", "b"]. |
| Origins.NormalizeAll | src/server.js:153-160 | Every list item is normalised in place, none dropped or reordered. |
| Origins.ParseOriginList | src/server.js:153-160 | The parsed list has no duplicates and holds exactly the non-empty normalised origins of the pieces. |
| Origins.StripScheme | src/server.js:165 | The result is a suffix of the input; `StripAnyScheme` and `NoSchemeWithoutSlash` pin it down. |
| Origins.StripAnyScheme | src/server.js:165 | `https://` or `http://` in any letter case, followed by more text, is removed exactly. |
| Origins.NoSchemeWithoutSlash | src/server.js:165 | Text with no '/' has no scheme to remove and is kept whole. |
| Origins.CutIndex | src/server.js:165 | The cut point lies within the text and, when it is before the end, on a '/'; `CutIndexFirst` makes it the first '/' on the last line. |
| Origins.CutIndexNoSlash | src/server.js:165 | Text with no '/' is not cut. |
| Origins.NormalizeDomainHost | src/server.js:162-166 | The host is no longer than the trimmed input and, for single-line input, contains no '/'; it is the trimmed input with an `https://` or `http://` prefix (any letter case) stripped, cut at a '/' or kept whole. |
| Origins.BareHostUnchanged | src/server.js:162-166 | A bare host (no '/', no white space at its edges) is its own normalised domain. |
| Origins.DomainHostOfSchemeHost | src/server.js:162-166 | `https://` or `http://` in any letter case (such as `HTTPS://`) followed by a host and no path normalises to the host. |
| Origins.CutIndexFirst | src/server.js:162-166 | A '/' before the cut point can only occur when the rest of the value spans lines, because regex `.` stops at line terminators. |
| Origins.DomainHostOfUrl | src/server.js:162-166 | For an `https://` or `http://` URL with a host and a path, the normalised domain is exactly the host. |
| Origins.PlatformOrigins | src/server.js:168-183 | No platform domain gives no origin; a domain gives its `https://` and `http://` origins, in that order. It is a decision table; `ConfiguredOrigins` and `BuildDesired` relate it to the allow-list. |
| Origins.PublicUrlOrigin | src/server.js:171-173 | A non-blank `OPENCLAW_PUBLIC_URL` gives its origin; a blank but set one still wins over `PUBLIC_URL` and gives no origin; an unset one falls back to the origin of `PUBLIC_URL`. |
| Origins.ConfiguredOrigins | src/server.js:168-183 | Free of duplicates, and holding exactly the configured list, the public URL origin and the platform origin. |
| Origins.InferRequestOrigin | src/server.js:185-206 | No request gives ""; a usable `Origin` header wins; otherwise the origin of `scheme://host`, with the first `X-Forwarded-Host` entry before `Host` and the first `X-Forwarded-Proto` entry before the transport protocol; no host gives "". |
| Origins.PersistedOrigins | src/server.js:208-220 | The origins read back from the persisted config are exactly the non-empty normalised origins of its items. |
| Origins.BuildDesired | src/server.js:222-232 | The desired list is sorted and duplicate-free, and holds exactly the persisted, configured and inferred origins. |
| Origins.DesiredIgnoresPersistedOrder | src/server.js:222-232 | Persisted lists with the same members give the same desired list: order and repetition do not matter. |
| StringSets.Dedup | src/server.js:153-160 | `[...new Set(xs)]` has no duplicates and the same members, and leaves a duplicate-free list as it is. |
| StringSets.Sort | src/server.js:222-232 | `.sort()` of a duplicate-free list is sorted and a permutation of its input. |
| StringSets.SortedUnique | src/server.js:222-232 | Two sorted lists with the same members are equal, so the sync's list comparison is a set comparison. |
| StringSets.LtTransitive | src/server.js:222-232 | The code-point order standing for `.sort()` (equal to its code-unit order inside the Basic Multilingual Plane) is transitive. |
| StringSets.LtTotal | src/server.js:222-232 | Any two distinct strings are ordered one way or the other. |
| Text.Trim | src/server.js:137-141 | The result is a piece of the input with no white space at either edge; `TrimCutsEdges` and `TrimBlank` pin it down. |
| Text.TrimCutsEdges | src/server.js:137-141 | `trim()` removes white space from the two edges only: the result is the input between a white-space prefix and a white-space suffix. |
| Text.TrimBlank | src/server.js:143-151 | `trim()` gives "" exactly for text made of white space alone. |
| Text.TrimIdempotent | src/server.js:1095-1100 | Trimming twice is trimming once. |
| Text.Split | src/server.js:636-637 | `split` on one character gives at least one piece, no piece holds the separator, and the first piece is the text before the first separator. |
| Text.SplitJoin | src/server.js:636-637 | Joining the pieces with the separator gives the input back. |
| Text.SplitNoSep | src/server.js:1291 | Text without the separator splits into itself alone. |
| Text.ParseInt | src/server.js:1150-1155 | Empty text is NaN; text that starts with a digit gives a number that is not negative. `ParseIntOfDigits` and `ParseIntSkipsSpace` give the value. |
| Text.ReadSigned | src/server.js:1150-1155 | After the white space: empty text or a first character other than a digit or a sign is NaN; only a leading '-' gives a negative number. |
| Text.ParseIntOfDigits | src/server.js:1150-1155 | Text that starts with a digit is read as the value of its leading run of digits; what follows is ignored. |
| Text.ParseIntSkipsSpace | src/server.js:1150-1155 | White space before the number is skipped. |
| Text.ParseIntNatToString | src/server.js:1291-1292 | `parseInt` reads back the decimal form `String(n)` writes. |
| Text.NatToStringValue | src/server.js:1095-1100 | The decimal form of a natural number has the number as its value. |
| OriginSync.Initial | src/server.js:240-246 | The cache starts empty, with no sync in flight and a valid state. |
| OriginSync.Seed | src/server.js:332-336 | An empty cache takes the persisted origins; a non-empty one is kept; duplicate-freedom is kept. |
| OriginSync.Known | src/server.js:338-349 | The cached origins read back as a sorted list with the same members. |
| OriginSync.Begin | src/server.js:321-359 | Unconfigured or nothing desired gives a skip; the command is issued exactly when the seeded cache differs from the desired list and nothing is in flight; an in-flight sync is joined; the state stays valid. |
| OriginSync.Decide | src/server.js:338-359 | With the cache seeded: finished (skipped, with the desired list) exactly when the cache equals the desired list; otherwise it joins exactly when a sync is in flight, else it issues the desired list and marks it in flight. |
| OriginSync.Complete | src/server.js:361-391 | The in-flight marker clears; success replaces the cache with the sent list; failure keeps the old cache; the result reports ok and updated only on exit code 0. |
| OriginSync.JoinResult | src/server.js:351-359 | A joined sync reports skipped and not updated, ok exactly when the command succeeded, with the desired origins. It is a decision table; `SkippedNeverRestarts` relates it to the caller. |
| OriginSync.RestartAfter | src/server.js:393-403 | The four-way restart condition as a decision table; `CompletedRestarts`, `SkippedNeverRestarts` and `DebouncedNeverRestarts` relate it to the call that issued the command, the calls that finish early or join, and the debounced calls. |
| OriginSync.CompletedRestarts | src/server.js:361-396 | The call that issued the command restarts the gateway exactly when the command exited 0, a restart was asked for and the gateway is ready. |
| OriginSync.SkippedNeverRestarts | src/server.js:321-359 | Calls that finish early (unconfigured, nothing desired, already synced) or join the sync in flight never restart the gateway. |
| OriginSync.DebouncedNeverRestarts | src/server.js:407-414 | The same for the debounced entry point, which also finishes early within the interval. |
| OriginSync.MaybeBegin | src/server.js:407-414 | Within 60 s of the last sync nothing happens; otherwise the stamp moves to now and a sync begins. |
| OriginSync.SyncedOnce | src/server.js:338-349 | After a successful sync of the desired list, the same inputs issue nothing more. |
| OriginSync.FailedSyncRetried | src/server.js:373-379 | After a failed sync, the next call issues the same command again. |
| OriginSync.Step | src/server.js:407-414 | A call stamps the clock only when a debounced sync actually begins. |
| OriginSync.DebounceSpacing | src/server.js:244-246 | Over any call sequence, debounced syncs begin at least 60 s apart, and the last stamp is the cache's `lastSyncAt`. |
| OriginSync.OriginSyncCache.constructor | src/server.js:240-246 | A new cache is in the initial state. |
| OriginSync.OriginSyncCache.Ensure | src/server.js:321-359 | Updating the fields in place leaves the decision and state `Begin` describes. |
| OriginSync.OriginSyncCache.SeedFrom | src/server.js:332-336 | The seeding loop leaves the cache as `Seed` describes and touches nothing else. |
| OriginSync.OriginSyncCache.Settle | src/server.js:338-359 | The decision and the new fields are those of `Decide`. |
| OriginSync.OriginSyncCache.Finish | src/server.js:361-391 | Finishing the in-flight command updates the fields as `Complete` describes. |
| OriginSync.OriginSyncCache.MaybeEnsure | src/server.js:407-414 | The debounced entry point updates the fields as `MaybeBegin` describes. |
| Supervisor.Initial | src/server.js:234-239 | No process, nothing starting, not healthy, and not ready. |
| Supervisor.Marked | src/server.js:548 | Marking sets `_manualRestart` on the same process and leaves "no process" alone. |
| Supervisor.StartOrJoin | src/server.js:557-568 | A start already in progress is joined unchanged; otherwise a start begins exactly when there is no process and the wrapper is configured, with health cleared; with a process, only the probe starts. |
| Supervisor.EnsureRunning | src/server.js:536-570 | Unconfigured or ready changes nothing; a call during a start joins it unchanged; with no process and no start, a configured call begins a start with health cleared; an idle, unhealthy process is marked and killed exactly in that case; the invariant is kept. |
| Supervisor.Restart | src/server.js:580-594 | Health is cleared; a running process is marked and killed with a 750 ms grace; with no process, a start begins when configured and idle, and otherwise only health changes; processes, timers and the recovery state are untouched. |
| Supervisor.GraceElapsed | src/server.js:553-557 | After the kill grace the process slot is empty, and a start begins exactly when configured and idle. |
| Supervisor.SpawnDone | src/server.js:492 | Spawning gives a fresh pid that is not among the live processes, and moves to probing. |
| Supervisor.StartFailed | src/server.js:557-566 | A start that throws before its spawn ends without a handle and without becoming ready; nothing else changes. |
| Supervisor.ProbeDone | src/server.js:559-566 | The probe ends the start, and the gateway is ready exactly when the probe succeeded and a process exists. |
| Supervisor.ProcError | src/server.js:511-515 | A spawn error of a live process clears the process slot and health, and schedules no timer. |
| Supervisor.ProcExit | src/server.js:518-533 | The listener as written: an exit clears the slot and health, and removes the pid; an auto-restart is scheduled exactly when not shutting down, configured and the CURRENT handle is unmarked. |
| Supervisor.ProcExitOwn | src/server.js:518-533 | The corrected listener: the exit of the current handle acts as written; the exit of any other process only removes it from the live set, keeping handle, health and timers. |
| Supervisor.TimerFire | src/server.js:525-531 | The 2 s timer starts the gateway only when not shutting down, configured, idle and with no process. |
| Supervisor.RequestRecovery | src/server.js:256-285 | A refused request changes nothing; an accepted one stamps the time, marks the recovery and clears health; a running process is killed unmarked with a 500 ms grace; with no process a start begins at once, or the one in progress is joined. |
| Supervisor.ProxyRefused | src/server.js:1873-1880 | A refused proxy connection always leaves the gateway unhealthy and not ready; when the recovery request is refused only health changes, and when it is accepted the outcome is that of `RequestRecovery`; the invariant is kept. |
| Supervisor.RefusedDuringCooldownKills | src/server.js:1873-1880 | A refused connection to a ready gateway during the cool-down starts no recovery, yet the next ensure call marks and kills the process with a 500 ms grace. |
| Supervisor.RecoveryDone | src/server.js:282-284 | Settling a recovery clears only the recovery marker. |
| Supervisor.Shutdown | src/server.js:2029-2067 | Shutdown sets the flag and marks the running process before killing it, changing nothing else. |
| Supervisor.Step | src/server.js:234-239 | Every event keeps the invariant: the handle is a live process, live pids lie below the next pid, and while a start is in progress (config or probe) the gateway is not healthy. A process exit runs the listener as written (`Exited`, src/server.js:518-533) or the corrected one (`ExitedOwn`), so this and the run lemmas below hold for both programs. |
| Supervisor.StepAfterShutdown | src/server.js:2031 | After shutdown no event clears the flag, adds an auto-restart or starts a recovery. |
| Supervisor.StepStampsRecovery | src/server.js:260-262 | Only an accepted recovery request (direct, or from the proxy's error handler) moves the last-recovery time, and it moves to that request's time. |
| Supervisor.Run | src/server.js:234-239 | Any event sequence keeps the invariant, whether its exits go to the listener as written or to the corrected one. |
| Supervisor.ExitIgnoresExitingProcess | src/server.js:521 | The exit handler reads the flag of the current process, so the outcome does not depend on which process exited. |
| Supervisor.PromptExitAfterRestart | src/server.js:580-593 | An exit of the marked process during the restart grace schedules no auto-restart. |
| Supervisor.LateExitAfterRestart | src/server.js:518-533 | An old process that exits after its replacement spawned clears the new process slot and schedules an auto-restart. |
| Supervisor.RestartRetires | src/server.js:580-586 | A restart marks the process it kills. |
| Supervisor.StepKeepsRetired | src/server.js:492-533 | No event unmarks a killed process or gives its identity to a new one. |
| Supervisor.RunKeepsRetired | src/server.js:492-533 | The same over any event sequence. |
| Supervisor.RestartedExitNeverRestarts | src/server.js:580-594 | With the corrected listener, after a restart and any events, the old process's exit schedules no auto-restart and leaves another process's handle in place. |
| Supervisor.CrashRestartsOnce | src/server.js:518-533 | A crash of the unmarked gateway schedules exactly one auto-restart, and that timer starts the gateway. |
| Supervisor.EnsuresJoin | src/server.js:557-568 | Any number of ensure calls during a start leave the state unchanged. |
| Supervisor.ConcurrentEnsuresStartOnce | src/server.js:557-568 | Ensure calls with no process and no start: exactly one start begins when any of them sees the wrapper configured, and none otherwise. |
| Supervisor.RecoveryCooldown | src/server.js:256-262 | Accepted recoveries over any event sequence are at least 5 s apart. |
| Supervisor.ShutdownIsFinal | src/server.js:2029-2031 | After shutdown, no further event clears the flag, adds an auto-restart or starts a recovery. |
| Supervisor.GatewaySupervisor.constructor | src/server.js:234-239 | The module variables start in the initial state. |
| Supervisor.GatewaySupervisor.IsGatewayReady | src/server.js:576-578 | Ready exactly when a process exists, no start is in progress, and it is healthy. |
| Supervisor.GatewaySupervisor.StartOrJoinGateway | src/server.js:557-568 | The fields change as `StartOrJoin` describes. |
| Supervisor.GatewaySupervisor.EnsureGatewayRunning | src/server.js:536-570 | The fields change as `EnsureRunning` describes, including the start it begins or joins. |
| Supervisor.GatewaySupervisor.RestartGateway | src/server.js:580-594 | The fields change as `Restart` describes, including the start it begins without a process. |
| Supervisor.GatewaySupervisor.OnGraceElapsed | src/server.js:553-557 | The fields change as `GraceElapsed` describes. |
| Supervisor.GatewaySupervisor.OnSpawned | src/server.js:492 | The fields change as `SpawnDone` describes. |
| Supervisor.GatewaySupervisor.OnProbed | src/server.js:559-566 | The fields change as `ProbeDone` describes. |
| Supervisor.GatewaySupervisor.OnError | src/server.js:511-515 | The fields change as `ProcError` describes. |
| Supervisor.GatewaySupervisor.OnStartFailed | src/server.js:557-566 | The fields change as `StartFailed` describes. |
| Supervisor.GatewaySupervisor.OnExit | src/server.js:518-533 | The listener as written: the fields change as `ProcExit` describes, reading the mark of and clearing the current handle whichever process exited. |
| Supervisor.GatewaySupervisor.OnExitOwn | src/server.js:518-533 | The corrected listener: the fields change as `ProcExitOwn` describes. |
| Supervisor.GatewaySupervisor.OnTimer | src/server.js:525-531 | The fields change as `TimerFire` describes. |
| Supervisor.GatewaySupervisor.RequestGatewayRecovery | src/server.js:256-285 | The fields change as `RequestRecovery` describes, including the start it begins without a process. |
| Supervisor.GatewaySupervisor.OnProxyConnRefused | src/server.js:1873-1880 | The fields change as `ProxyRefused` describes. |
| Supervisor.GatewaySupervisor.OnRecoverySettled | src/server.js:282-284 | The fields change as `RecoveryDone` describes. |
| Supervisor.GatewaySupervisor.GracefulShutdown | src/server.js:2029-2067 | The fields change as `Shutdown` describes. |
| SetupAuth.Check | src/server.js:609-618 | A missing or expired window restarts at count 1; a live one is incremented; other IPs are untouched; limited exactly when the count exceeds 50. |
| SetupAuth.Expire | src/server.js:600-607 | The sweep keeps exactly the unexpired windows, unchanged. |
| SetupAuth.WindowBound | src/server.js:609-618 | Inside one window, every attempt adds one to the count, and at most 50 minus the earlier count are allowed. |
| SetupAuth.AtMostMaxPerWindow | src/server.js:596-619 | At most 50 attempts are allowed within one 60 s window from a fresh start. |
| SetupAuth.ClientIp | src/server.js:631 | The client key is `req.ip`, then the socket address, then "unknown", and never empty. |
| SetupAuth.PasswordOf | src/server.js:636-651 | Without a colon the password is ""; otherwise it is everything after the first colon. |
| SetupAuth.BasicPassword | src/server.js:636-651 | For a user-id without a colon, the password of `user-id ":" password` is given back, as in section 2 of RFC 7617. |
| SetupAuth.CheckCredentials | src/server.js:636-651 | Authorised exactly when the scheme is `Basic`, a credential is present and the password digests match; a missing or malformed header asks for auth. |
| SetupAuth.AcceptsValidCredentials | src/server.js:636-651 | A well-formed Basic header that carries the setup password is accepted. |
| SetupAuth.DoubleSpaceRefused | src/server.js:636-651 | Two spaces after `Basic` leave an empty credential, and auth is asked for again. |
| SetupAuth.SetupRateLimiter.constructor | src/server.js:596-599 | The limiter starts with no windows. |
| SetupAuth.SetupRateLimiter.IsRateLimited | src/server.js:609-618 | The map update and verdict are those of `Check`. |
| SetupAuth.SetupRateLimiter.Cleanup | src/server.js:600-607 | The deletion loop leaves exactly `Expire` of the old map. |
| SetupAuth.SetupRateLimiter.RequireSetupAuth | src/server.js:621-653 | No password configured gives 500 with no counting; otherwise the attempt is counted first, then it is rate-limited, or the credentials are checked. |
| GatewayToken.Hex | src/server.js:36 | The hex encoding is two lower-case hex digits per byte; `UnhexHex` shows it loses nothing. |
| GatewayToken.ByteDigits | src/server.js:36 | The two digits of a byte are hex digits that decode back to the byte. |
| GatewayToken.HexValueOfDigit | src/server.js:36 | A digit reads back as the number it was written for. |
| GatewayToken.UnhexHex | src/server.js:36 | Decoding the hex text gives the bytes back. |
| GatewayToken.HexInjective | src/server.js:36 | Different random bytes give different tokens. |
| GatewayToken.ResolveGatewayToken | src/server.js:22-46 | Env (trimmed) wins, then the trimmed file contents, else 64 hex digits of the random bytes, which are persisted; the token is never empty. |
| GatewayToken.TokenStableAcrossRestarts | src/server.js:22-46 | A generated token, once persisted, is read back from the file on the next start, whatever bytes that start would draw. |
| GatewayToken.ResolutionIdempotent | src/server.js:22-46 | Resolving again against what was persisted gives the same token. |
| CommandOutput.TrimOutputBlock | src/server.js:1095-1100 | Empty exactly for blank output; short output is the trimmed text; long output keeps the first `maxChars` characters followed by the truncation note. |
| CommandOutput.TruncationAccountsForAll | src/server.js:1095-1100 | The note that follows the kept characters holds the count between its 15 leading and 7 trailing characters, and `parseInt` reads that count back as the number of characters dropped. |
| CommandOutput.ShortOutputIdempotent | src/server.js:1095-1100 | Output that fits is unchanged by a second trimming. |
| CommandOutput.IndexOfChar | src/server.js:1032-1053 | `indexOf` gives -1 exactly when the character is absent; otherwise it gives its first position. |
| CommandOutput.LastIndexOf | src/server.js:1032-1053 | `lastIndexOf` gives a position of the character with none after it, or -1. |
| CommandOutput.BracketWindow | src/server.js:1032-1053 | The window runs from the first opening bracket to the last closing one; there is none exactly when no opener precedes a closer. |
| CommandOutput.ParseLooseJson | src/server.js:1032-1053 | Blank output gives nothing; the whole trimmed text is parsed first, then the bracket window, else nothing. |
| CommandOutput.WindowOfEmbedded | src/server.js:1032-1053 | JSON framed by bracket-free noise is exactly the bracket window. |
| CommandOutput.ParsesEmbeddedJson | src/server.js:1032-1053 | Output with log lines around its JSON still yields that JSON. |
| CronJobs.JobOf | src/server.js:1067-1084 | A job is found exactly when the node has a non-empty string id (`jobId` first, then `id`) and a non-empty name; it is enabled unless `enabled` is `false`. |
| CronJobs.Visit | src/server.js:1059-1089 | Nodes deeper than 8 yield nothing, and every job found has a non-empty id and name. |
| CronJobs.Collect | src/server.js:1074-1084 | Collecting only appends jobs and only grows the seen-set. |
| CronJobs.CollectAppend | src/server.js:1059-1089 | Collecting two visit sequences in turn is collecting their concatenation. |
| CronJobs.CollectFacts | src/server.js:1074-1084 | Collection keeps keys unique; each new job was met and was unseen; every met key ends up seen. |
| CronJobs.ExtractedFacts | src/server.js:1055-1093 | The extracted jobs have non-empty ids and names, unique `id::name` keys, and were all met by the walk. |
| CronJobs.ExtractedCoversMet | src/server.js:1055-1093 | Every job the walk meets is represented by an extracted job with the same key. |
| CronJobs.VisitNest | src/server.js:1059-1062 | Wrapping a node in `n` arrays visits it at depth `n`. |
| CronJobs.DepthCutoff | src/server.js:1060 | A lone job nested `n` arrays deep is found exactly when `n <= 8`. |
| CronJobs.EmptyJobIdHidesId | src/server.js:1067-1074 | A string `jobId` that is empty wins over `id`, so the node yields no job. |
| CronJobs.CronJobWalk.constructor | src/server.js:1056-1057 | The walk starts with no jobs and an empty seen-set. |
| CronJobs.CronJobWalk.Walk | src/server.js:1059-1089 | The recursive walk mutates the job list and seen-set as `Collect` over `Visit` describes. |
| CronJobs.CronJobWalk.WalkItems | src/server.js:1061-1063 | The array loop mutates the fields as `Collect` over `VisitItems` describes. |
| CronJobs.CronJobWalk.WalkValues | src/server.js:1086-1088 | The `Object.values` loop mutates the fields as `Collect` over `VisitValues` describes. |
| CronJobs.ExtractCronJobs | src/server.js:1055-1093 | The extracted list has unique keys and non-empty ids and names. |
| Automation.PayloadOf | src/server.js:1142-1145 | Anything but an object or array is rejected as not an object; an array reads as an empty body. |
| Automation.FieldsOf | src/server.js:1147-1148 | A flag is on unless it is literally `false`. The strings are what `String(value ?? default)` gives when it does not throw; `FirstThrow` says where it does. |
| Automation.TrimmedOrTrims | src/server.js:1165-1201 | The defaulted, stringified, trimmed read of a field is the trim of its string form. |
| Automation.Validate | src/server.js:1156-1223 | The checks alone never throw. Accepted settings are exactly the input's fields, with the hours as `parseInt` reads them, and are well formed (hours 1-24 when enabled, `HH:MM`, a valid time zone, a supported channel paired with a target, prompts of 1-2000 characters). |
| Automation.ValidateSound | src/server.js:1156-1222 | Each of the nine problems is reported exactly when its check fails and every earlier check passes, in the code's order; the input is accepted exactly when every check passes. |
| Automation.FirstThrow | src/server.js:1150-1199 | The first group of `String(...)` conversions that throws, in the code's order (hours, time, time zone, channel and target, the two prompts): none exactly when no read property throws, and every earlier group converts. |
| Automation.NormalizeBody | src/server.js:1142-1223 | Not-an-object is the only rejection of non-objects; accepted settings are well formed and keep the enabled flags. A call throws only when some conversion throws, and always when the hours' conversion does; a body with such a conversion is never accepted; a rejection is `Validate`'s, from a check made before the first conversion that throws; with no such conversion the outcome is `Validate`'s. |
| Automation.ThrowsExactly | src/server.js:1142-1223 | A body throws exactly when one of its conversions throws and none of the checks made before the first such conversion refuses it. |
| Automation.HoursCheckedFirst | src/server.js:1150-1163 | Hours the check refuses are refused whatever the later properties hold, even ones whose conversion throws. |
| Automation.EarlierRejectionWins | src/server.js:1150-1163 | Hours "0" with an unconvertible progress prompt give the hours error, not a throw. |
| Automation.ObjectPromptThrows | src/server.js:1196-1198 | `{"progressPrompt":{"toString":1}}` throws, while every earlier check passes. |
| Automation.ScalarsNeverThrow | src/server.js:1142-1223 | A body whose properties are null, booleans, numbers, strings or missing never throws: the checks decide it. |
| Automation.NormalizeAutomationPayload | src/server.js:1142-1223 | The same for a raw JSON payload, with the flags read from its properties; only an object can throw (an array reads as an empty body). |
| Automation.ValidateAccepts | src/server.js:1156-1223 | Input meeting every rule is accepted as exactly those settings. |
| Automation.DefaultsValid | src/server.js:104-114 | The default settings pass validation as they are. |
| Automation.EmptyObjectGivesDefaults | src/server.js:1142-1223 | `{}` and `[]` are accepted as the default settings. |
| Automation.EmptiedMorningPrompt | src/server.js:1203 | Blanking the morning prompt of accepted input makes it rejected for that reason. |
| Automation.EmptyMorningPromptRejected | src/server.js:1199-1203 | A body whose only field is an empty morning prompt is rejected. |
| Automation.HoursOnly | src/server.js:1150-1163 | A body with only valid hours gives the defaults with those hours. |
| Automation.LenientHours | src/server.js:1150-1155 | `"12abc"` is read as 12 hours, because `parseInt` stops at the first non-digit. |
| Automation.BuildDeliveryArgs | src/server.js:1225-1231 | Always `--announce`; channel and target are added exactly when both are set. |
| Automation.DeliveryFollowsChannel | src/server.js:1189-1231 | For accepted settings, delivery arguments appear exactly when a channel was chosen. |
| Automation.MorningCron | src/server.js:1291-1292 | For a valid `HH:MM`, the cron line is `minute hour * * *` in plain decimal, with an hour below 24 and a minute below 60. |
| Automation.MorningCronHalves | src/server.js:1291-1292 | The cron line is built from `parseInt` of the two halves around the colon. |
| Onboard.SetupPayloadOf | src/server.js:1506 | The body's `flow` and `authChoice` properties are read as they are. |
| Onboard.FirstNonString | src/server.js:1464-1468 | Names the first listed field holding a non-string, or nothing when all are strings or absent. |
| Onboard.ValidatePayload | src/server.js:1449-1479 | No error exactly when the body is acceptable; `ValidatePayloadSound` says which error each failure gives. |
| Onboard.ValidatePayloadSound | src/server.js:1449-1479 | Accepted exactly when the validation predicate holds; each of the five errors (bad flow, bad auth choice, a non-string field, a missing Ollama model, a model without the `ollama/` prefix) is reported exactly when its check fails and the earlier ones pass; a bad flow or auth choice whose conversion in the message throws gives `MessageThrew` instead of its error. |
| Onboard.ObjectFlowThrows | src/server.js:1450-1451 | `{"flow":{"toString":1}}` is refused as a flow, and building the message throws. |
| Onboard.NotAStringNamesField | src/server.js:1464-1468 | A type error names one of the six string fields that holds a non-string. |
| Onboard.AuthArgs | src/server.js:951-978 | Starts with `--auth-choice` and the passed-on choice; an empty secret adds nothing more. |
| Onboard.BuildOnboardArgs | src/server.js:929-982 | The 18 fixed arguments come first, ending with the flow; auth arguments follow exactly when an auth choice is given. |
| Onboard.PassedOnValuesAreKnown | src/server.js:929-982 | The flow passed on is a known flow, and the auth choice passed on is a listed choice or `skip`. |
| Onboard.SecretPlacement | src/server.js:956-978 | A secret follows only its provider's flag, or the token-provider arguments for `token`, and is otherwise not passed on. |
| Onboard.OllamaSkipsAuth | src/server.js:952-954 | The local Ollama choice is passed on as `skip` with no secret. |
| Onboard.OllamaNeedsModel | src/server.js:1469-1477 | An Ollama body whose model is missing or lacks the `ollama/` prefix is rejected with the matching error. |
| ControlUiPatch.ReplaceAt | src/patch-control-ui-instance.js:32-34 | The replacement lengthens the bundle by exactly the inserted expression. |
| ControlUiPatch.PatchSource | src/patch-control-ui-instance.js:19-41 | Already patched exactly when the storage key occurs; pattern missing exactly when neither the key nor the target occurs. |
| ControlUiPatch.ReplaceAtSplits | src/patch-control-ui-instance.js:24-34 | The expression goes between the two capture groups and nothing else changes. |
| ControlUiPatch.PatchInsertsAtFirstMatch | src/patch-control-ui-instance.js:24-34 | A patched bundle has the expression inserted at the first match of the target. |
| ControlUiPatch.PatchIdempotent | src/patch-control-ui-instance.js:19-22 | Patching a patched bundle again reports it as already patched. |
| ControlUiPatch.NeverUnchanged | src/patch-control-ui-instance.js:36-41 | The "no changes applied" branch can never be reached. |
| ControlUiPatch.NoReplacementPatterns | src/patch-control-ui-instance.js:33-34 | The inserted expression has no `$`, so `replace` inserts it literally. |
| ControlUiPatch.PatchBundle | src/patch-control-ui-instance.js:10-46 | A file is written exactly when it was read and patched, with the patched text; an unreadable file is not patched. |
| ControlUiPatch.BundleFiles | src/patch-control-ui-instance.js:57-59 | Exactly the regular files named `index-*.js` are kept. |
| ControlUiPatch.BundleFilesConcat | src/patch-control-ui-instance.js:57-59 | The filter keeps directory order: the bundles of two listings in turn are the bundles of the first, then those of the second. |
| ControlUiPatch.Writes | src/patch-control-ui-instance.js:66-71 | Every write is for a listed file with its patched contents, and every patchable file is written. |
| ControlUiPatch.PatchAll | src/patch-control-ui-instance.js:66-71 | The loop writes exactly `Writes` of the files, and the patched count equals the number of writes. |
| ControlUiPatch.WritesOfLonger | src/patch-control-ui-instance.js:66-71 | Handling one more file appends at most its own write. |
| ControlUiPatch.Run | src/patch-control-ui-instance.js:48-73 | A missing directory or no bundles gives no writes; otherwise every patchable bundle is written, and the patched count is at most the total. |

## Findings

| source | as written | input that shows it | evidently intended | confidence | as-written member | corrected member |
|---|---|---|---|---|---|---|
| src/server.js:518-533 | The `exit` listener reads `_manualRestart` of the current `gatewayProc`, not of the process that exited, and always sets `gatewayProc = null`. | `restartGateway()` on a running gateway whose process outlives the 750 ms grace: the grace ends, a new process is spawned, then the old one exits. The listener drops the new, running process's handle and schedules an auto-restart. | The mark is set "to prevent exit handler from scheduling a competing auto-restart" (src/server.js:583): a listener that acts only while its own process is the current handle. | not executed | Supervisor.LateExitAfterRestart | Supervisor.RestartedExitNeverRestarts |

The listener as written is `Supervisor.ProcExit` (event `Exited`, method
`GatewaySupervisor.OnExit`); the corrected one is `Supervisor.ProcExitOwn` (event `ExitedOwn`,
method `GatewaySupervisor.OnExitOwn`). The invariant, the recovery cool-down, the finality of
shutdown and the retirement of killed processes are proved over every event sequence, so
they hold for the program as written as well as for the corrected one; only
`RestartedExitNeverRestarts` needs the corrected listener. One consequence of the correction:
a process whose handle a spawn `error` already dropped schedules no auto-restart when it
exits.

## Left out

- HTTP routing, the forwarding itself, WebSocket upgrades, the 503 loading page, the
  PTY-backed TUI session and the setup UI pages are not modelled. They forward bytes or
  render HTML. The one supervisor decision in the proxy is modelled: on a refused
  connection the `error` handler clears the health flag and requests a recovery
  (src/server.js:1873-1880). This is the event `ProxyConnRefused`, `Supervisor.ProxyRefused`.
- Supervisor.EnsureRunning: the value handed back to the caller is not modelled. That is
  `{ ok: false, reason: "not configured" }`, `{ ok: true }`, or the rejection "Gateway did
  not become ready in time" of a start whose probe timed out (src/server.js:536-570). The
  model states only the supervisor state the call leaves. `ProbeDone` says when a start
  ends ready.
- Supervisor.Restart: the same holds for the value `restartGateway` hands back, which is
  that of `ensureGatewayRunning` (src/server.js:580-594).
- Spawning, killing, `fetch` probes, `sleep`, timers and `process.exit` are not performed.
  The supervisor receives their completions as events, and the order of promise
  completions is whatever event sequence is given.
- `waitForGatewayReady` (src/server.js:287-319) is reduced to its verdict: the probe's
  success is a parameter of `ProbeDone`.
- Filesystem reads and writes, `mkdir`, lock-file removal and `path.join` are not
  performed. File contents and directory entries are parameters. A bundle path is its
  entry name, and `ASSETS_DIR` is not modelled.
- Console logging and the error message texts are not modelled. Errors are datatype
  constructors; the HTTP status is kept only in `SetupAuth`.
- The `setInterval` scheduling of the rate-limiter sweep is not modelled. The sweep is a
  method the caller invokes.
- These are parameters, not models:
  - the WHATWG URL parser (`new URL(...).origin`);
  - `JSON.parse`, base64 decoding;
  - SHA-256 with `timingSafeEqual` (equality of digests);
  - `Intl.DateTimeFormat` time-zone checking;
  - `crypto.randomBytes`, and `Date.now()`.
- Strings are sequences of code points. JavaScript's UTF-16 length differs for characters
  outside the Basic Multilingual Plane; so do the 2000-character prompt limit and the
  `.sort()` order of such characters.
- `toLowerCase` is modelled for ASCII letters only.
- JSON numbers are integers, and `Object.values` order is the field order of the parsed
  object. Duplicate keys are not merged: the first occurrence is read, where `JSON.parse`
  keeps the last. `String(n)` of a number is its decimal digits, while JavaScript writes
  numbers from 1e21 up in exponent form: `String(1e21)` is "1e+21", which `parseInt` reads
  as 1. So `progressEveryHours: 1e21` is accepted as 1 hour by the code and rejected by the
  model.
- Origins.PersistedOrigins: persisted origins are read as a list of strings. Non-string
  items of the persisted array are not modelled.
- The side effects of `configureAutomations` (removing and re-creating cron jobs through
  the CLI) are not modelled; only its morning cron expression and delivery arguments are.
- Automation.NormalizeAutomationPayload: a `Threw` outcome stands for the TypeError the code
  throws. The route calls the normaliser outside its `try` (src/server.js:898), so what the
  client then receives is not modelled.
- Onboard.ValidatePayload: `MessageThrew` stands for the TypeError thrown while building the
  message (src/server.js:1451, 1454). The route's `catch` answers 500 (src/server.js:1641-1645);
  that reply is not modelled.
- Onboard.BuildOnboardArgs: requires a validated body. The only caller validates first
  (src/server.js:1507-1511), so behaviour on unvalidated bodies is not modelled.
- ControlUiPatch.Run: writes always succeed. In the code a failing `fs.writeFileSync`
  (src/patch-control-ui-instance.js:43) is not caught: `run` stops at that file, the
  script exits with the error, and later bundles stay unpatched.
- ControlUiPatch.NoReplacementPatterns: the `$` pattern language of `String.replace` is
  not modelled. Instead the inserted expression is proved to contain no `$`, and `$1`/`$2`
  are modelled as the two capture groups.
- What the inserted `instanceId` expression does in the browser (local storage, UUID
  generation) is not modelled. It is a constant string here.
- The remaining routes of src/server.js are not modelled: config import/export, backups,
  pairing, device approval, logs and status pages. They wrap CLI calls or files around the
  logic above.
