# SandTrap / Hermes SSH honeypot — a verified model of its core

SandTrap is an SSH honeypot. Every attacker who logs in is given a shell inside a throw-away
Docker container, and the session is recorded. This project models, in Dafny, the six parts of
the system that carry its logic:

- **Container pool** (`pool.dfy`, module `Pool`) keeps a ready list of started containers, a
  map from session id to the container bound to it, and an append-only list of stopped
  containers with their stop times. It allocates, releases, replaces and shuts down.
- **Security configuration builder** (`security.dfy`, module `Security`) validates and parses Docker memory
  limits such as `256m`. It translates a security policy into container-creation parameters and
  generates container names.
- **Session recorder** (`recorder.dfy`, module `Recording`) writes an asciicast v2 transcript:
  one header line, then one line per output, input or resize event.
- **Authentication manager** (`auth.dfy`, module `Auth`) checks static credentials and counts
  failures per connection. Once a connection's failures reach a threshold, the next attempt is
  accepted with any credentials.
- **Container I/O proxy** (`proxy.dfy`, module `Proxy`) opens a PTY exec in the container and
  runs two forwarding loops: SSH stdin to the container, and container output to SSH stdout.
- **SSH backend bookkeeping** (`backend.dfy`, module `SshBackend`) covers the per-connection
  server callbacks, the backend's map of session records, and the process factory that hands a
  session to the session handler.

Helper modules: `Wrappers` (`Option`, `Result`, `Outcome`), `Digits` (Python's `str()` of an
integer and its parse back) and `Terminal` (the `PTYRequest` record).

How the model is put together:

- Classes whose fields the source updates in place are Dafny classes. Their methods state the
  whole new state. These are `ContainerPool`, `SessionRecorder`, `AuthenticationManager`,
  `ContainerProxy`, `SessionInfo`, `SandTrapSshServer` and `AsyncSshBackend`.
- Each region the source runs under its asyncio lock is one atomic method. An operation that
  leaves the lock and takes it again is split at those points, and a method named after the
  source operation runs the parts without interruption.
- What the Docker daemon, the clock, the file system or the network would answer becomes a
  parameter: a create outcome, a stop predicate, the current clock reading, a write or close
  result, or a script of reads.
- Each forwarding loop is specified by a function over that script. The loop method is proved
  to produce exactly that function's trace.
- The properties are proved about the trace functions.

## Model

| member | source | states |
|---|---|---|
| Digits.IntToStringRoundTrip | src/hermes/session/proxy.py:93-94 | Every integer `str(n)` prints (the COLUMNS and LINES values) reads back as that integer. |
| Digits.IntToStringAlphabet | src/hermes/session/proxy.py:93-94 | `str(n)` is never empty. It starts with a minus sign exactly when n is negative, and every other character is a digit. |
| Security.MemoryLimitExamples | src/sandtrap/container/security.py:112-124 | "256m" and "1G" are valid memory limits. "", "256", "256mb", "-1m" and "0.5g" are not. "256m" is 256 MiB. |
| Security.ParseMemoryLimit | src/sandtrap/container/security.py:127-153 | Fails exactly when the validator rejects the string, with an error naming it. Otherwise the result is a whole number of KiB. |
| Security.ParseFormatRoundTrip | src/sandtrap/container/security.py:143-153 | Any digit string followed by a unit letter is valid. It parses to the number times 1024, 1024² or 1024³ for k, m or g. |
| Security.ParseDigitsThenUnit | src/sandtrap/container/security.py:143-153 | Every valid limit, leading zeros included, parses to the value of its digits times the unit's multiplier. |
| Security.LeadingZeroIgnored | src/sandtrap/container/security.py:143-153 | As `int()` ignores leading zeros, "0256m" and "256m" parse to the same size. |
| Security.ParseIsCaseInsensitive | src/sandtrap/container/security.py:145-153 | Upper- and lower-case unit letters give the same limit. |
| Security.SameSizeSameLimit | src/sandtrap/container/security.py:143-153 | Two unit letters with the same multiplier give the same limit for the same digits. |
| Security.BuildContainerConfig | src/sandtrap/container/security.py:44-94 | Fails, naming the limit, exactly when the memory limit is invalid. Otherwise image, name, network mode, memory and PID limits, security options and capabilities are copied unchanged. `detach`, `stdin_open`, `tty` and `cpu_period` are fixed. tmpfs maps /tmp to `size=<tmpfs_size>`. The role label is "target". The session-id label is present exactly when a non-empty session id is given, and holds that id. |
| Security.BuiltLabels | src/sandtrap/container/security.py:63-70 | A built configuration's labels are exactly role "target", version "mvp" and the creation timestamp, plus the session id exactly when a non-empty one is given. |
| Security.GenerateContainerName | src/sandtrap/container/pool.py:319-338 | The name is `sandtrap-target-<id>-<timestamp>`. With a non-empty session id, the id part is its first 8 characters, or all of it when shorter. With no session id or an empty one, the id part is the UUID text's first 8 characters. The id part is never longer than 8 characters. |
| Security.Take | src/sandtrap/container/pool.py:333-335 | `s[:n]` has length min(len(s), n) and is a prefix of s. |
| Auth.CredentialMapLastWins | src/hermes/server/auth.py:34-36 | A username is in the credential map iff it is configured. Its password is the one of its last entry in the list. |
| Auth.Decide | src/hermes/server/auth.py:44-75 | Accepts iff accept-all applies or the password matches the username's. An acceptance removes the connection's counter. A rejection adds one to it, starting from 0. Every other connection's counter is unchanged. |
| Auth.DecideAll | src/hermes/server/auth.py:44-75 | Running a sequence of attempts gives one answer per attempt. |
| Auth.FailuresAccumulate | src/hermes/server/auth.py:69-75 | Wrong attempts below the threshold are all refused. Each one adds exactly one to the counter. |
| Auth.ThresholdRun | src/hermes/server/auth.py:57-60 | With threshold N and a fresh connection, N wrong attempts are refused. The next attempt is accepted with any credentials, and the counter is removed, so counting starts again from zero. |
| Auth.DecideAllSplit | src/hermes/server/auth.py:44-75 | Running two batches of attempts one after the other is the same as running them concatenated. |
| Auth.DisabledNeverAcceptsAll | src/hermes/server/auth.py:87-88 | With threshold 0, no run of wrong attempts is ever accepted. |
| Auth.AuthenticationManager.constructor | src/hermes/server/auth.py:23-36 | The credential map is built from the configured list and no connection has failures. |
| Auth.AuthenticationManager.Validate | src/hermes/server/auth.py:44-75 | The answer and the new counters are exactly `Decide`'s. |
| Auth.AuthenticationManager.IncrementFailures | src/hermes/server/auth.py:93-95 | Only the given connection's counter changes, by +1 from its value or 0. |
| Auth.AuthenticationManager.ResetFailures | src/hermes/server/auth.py:97-100 | Only the given connection's counter is removed. |
| Auth.AuthenticationManager.CleanupConnection | src/hermes/server/auth.py:102-109 | Removes the connection's counter. An unknown id changes nothing. |
| Auth.BruteForceScenario | tests/unit/test_auth.py:93-106 | With root/toor and threshold 3, three wrong passwords are refused, the fourth attempt is accepted with any password, and the fifth is refused again. |
| Recording.ResizePayloadRoundTrip | src/sandtrap/session/recorder.py:85-87 | A resize payload `"{w}x{h}"` always reads back as the (w, h) it was made from. |
| Recording.SessionRecorder.constructor | src/sandtrap/session/recorder.py:23-38 | A new recorder is inactive, with no transcript, no sidecar and no events. Missing metadata is an empty map. |
| Recording.SessionRecorder.Start | src/sandtrap/session/recorder.py:45-70 | Disabled: nothing changes. On success the transcript is exactly one header (version 2, width, height, the integer timestamp, and `env` iff the metadata is non-empty) and the recorder is active. Any failure leaves it inactive and is not raised. |
| Recording.SessionRecorder.RecordEvent | src/sandtrap/session/recorder.py:134-154 | While active, unless the write raises, exactly one event stamped with the elapsed ticks is appended after all earlier lines. The count rises by one only when the flush succeeds too. A flush that raises leaves the line written but uncounted. Inactive or on a raising write, nothing is appended or counted. The recorder's invariant keeps every stamp between 0 and the latest clock reading. |
| Recording.SessionRecorder.RecordOutput | src/sandtrap/session/recorder.py:72-74 | Appends one "o" event carrying the decoded bytes, as `RecordEvent` does. |
| Recording.SessionRecorder.RecordInput | src/sandtrap/session/recorder.py:76-78 | Appends one "i" event carrying the decoded bytes, as `RecordEvent` does. |
| Recording.SessionRecorder.RecordResize | src/sandtrap/session/recorder.py:80-98 | Appends one "r" event whose payload is exactly `"{w}x{h}"`. |
| Recording.SessionRecorder.Stop | src/sandtrap/session/recorder.py:100-117 | Afterwards the recorder is inactive and the transcript is kept. A second call, or a call before `start`, changes nothing. The start tick is kept. |
| Recording.SessionRecorder.WriteMetadata | src/sandtrap/session/recorder.py:119-132 | Enabled and successful: the sidecar holds the metadata. A failure to open it leaves the sidecar as it was. A dump that raises after the open has truncated it leaves the sidecar truncated. Disabled: nothing changes. The transcript is never touched. |
| Recording.RecordingScenario | src/sandtrap/session/recorder.py:45-98 | Start at tick 5, then output "hi", input and resize 100x30 at ticks 7, 9 and 12, give a header plus three events in that order, stamped 2, 4 and 7 ticks after the start. |
| Recording.FailedFlushScenario | src/sandtrap/session/recorder.py:119-154 | A raising flush keeps its event line but not its count, a raising write leaves no line, and a raising dump leaves the sidecar truncated. |
| Recording.DisabledScenario | src/sandtrap/session/recorder.py:45-132 | With recording disabled, start, events, stop and metadata leave no transcript and no sidecar. |
| Pool.RetireAll | src/sandtrap/container/pool.py:347-353 | The entries a stop loop appends are the containers whose stop succeeded, each stamped with the time, each taken from the input, none missing. There are no duplicates when the input has none. |
| Pool.StopAll | src/sandtrap/container/pool.py:347-353 | The loop over the ready list appends exactly `RetireAll` of it. |
| Pool.StopEach | src/sandtrap/container/pool.py:201-207 | The loop over the active map visits every bound container exactly once. Its appends are `RetireAll` of that visiting order. |
| Pool.ContainerPool.constructor | src/sandtrap/container/pool.py:40-58 | The pool starts with empty collections and is not shut down. |
| Pool.ContainerPool.GetStats | src/sandtrap/container/pool.py:357-371 | Under the pool's ownership invariant, the total is the number of distinct containers the pool holds or has stopped, each counted once. The other three figures are the collections' sizes. |
| Pool.StatsTotalCountsEachContainerOnce | src/sandtrap/container/pool.py:357-371 | Because the three collections are disjoint and repeat nothing, their lengths add up to the number of distinct containers they hold. |
| Pool.ContainerPool.CreateContainer | src/sandtrap/container/pool.py:235-289 | A container is obtained iff the configuration builds and one of at most two attempts works. The container is new, carrying the configuration built for it. |
| Pool.ContainerPool.CleanupReadyContainers | src/sandtrap/container/pool.py:340-355 | The ready list ends empty. Exactly the ready containers whose stop succeeded are appended to the stopped list, in order. |
| Pool.ContainerPool.Initialize | src/sandtrap/container/pool.py:64-96 | Succeeds iff every one of the `size` creations works, extending the ready list by exactly `size` new containers. On failure the error is InitializationFailed, the ready list is empty, and the newly created containers are never enqueued. |
| Pool.ContainerPool.Allocate | src/sandtrap/container/pool.py:98-147 | With a ready container, it pops the last one and binds the session to it. With none, it creates exactly one on demand. If that fails, the error is AllocationFailed and the session is not bound. Each success schedules one replacement. The disjointness invariant is kept. |
| Pool.ContainerPool.Unbind | src/sandtrap/container/pool.py:163-168 | An unknown session changes nothing. Otherwise exactly that binding is popped, and its container is returned. It is then in no collection at all, so the stats count it nowhere until it is archived. |
| Pool.ContainerPool.Archive | src/sandtrap/container/pool.py:176-177 | The container is appended to the stopped list with its stop time, once, keeping the ownership invariant. |
| Pool.ContainerPool.Release | src/sandtrap/container/pool.py:149-187 | An unknown session changes nothing, so a double release never appends twice. Otherwise the binding is removed and the container never goes back to ready. It is appended to the stopped list once iff its stop succeeded. |
| Pool.ContainerPool.RaiseShutdownFlag | src/sandtrap/container/pool.py:197 | The shutdown flag is set, before the lock is taken. |
| Pool.ContainerPool.StopEverything | src/sandtrap/container/pool.py:199-212 | Empties the active map and the ready list. Exactly the bound containers, then the ready ones, whose stop succeeded are appended. A failed stop does not end the loop. |
| Pool.ContainerPool.Shutdown | src/sandtrap/container/pool.py:189-217 | Sets the shutdown flag and empties the active map and the ready list. Exactly the bound containers, then the ready ones, whose stop succeeded are appended. A failed stop does not end the loop. |
| Pool.ContainerPool.BeginReplacement | src/sandtrap/container/pool.py:298-302 | Already shut down: nothing is created. Otherwise a new, untracked container is created iff creation works. |
| Pool.ContainerPool.FinishReplacement | src/sandtrap/container/pool.py:304-313 | The new container is appended to ready iff the pool is still not shut down. Otherwise ready is unchanged. |
| Pool.ContainerPool.SpawnReplacement | src/sandtrap/container/pool.py:291-317 | Appends exactly one container iff not shut down and creation works. Otherwise nothing changes, and nothing is raised. |
| Pool.InitializeScenario | tests/unit/test_container_pool.py:64-68 | A pool of two that initialises reports two ready, none active and none stopped. |
| Pool.InitializeFailureScenario | src/sandtrap/container/pool.py:92-96 | A failed creation during initialisation gives InitializationFailed and an empty ready list. |
| Pool.AllocateScenario | src/sandtrap/container/pool.py:115-140 | Allocating from a pool of one leaves one active container and one pending replacement. |
| Pool.ReleaseTwiceScenario | src/sandtrap/container/pool.py:163-177 | Releasing the same session twice stops its container once. |
| Pool.OnDemandScenario | src/sandtrap/container/pool.py:120-137 | Two on-demand allocations get distinct containers. |
| Pool.ReplacementScenario | src/sandtrap/container/pool.py:298-306 | After an allocation, a successful replacement refills the ready list to one. |
| Pool.ShutdownScenario | src/sandtrap/container/pool.py:197-212 | After shutdown, nothing is ready and nothing is active. |
| Proxy.ExecRequestFor | src/hermes/session/proxy.py:82-96 | The exec gets a bash shell as root in /root, with a TTY and all three streams. Its environment is exactly TERM, COLUMNS and LINES. COLUMNS and LINES read back as the requested width and height. |
| Proxy.ExitFor | src/hermes/session/proxy.py:159-169 | A reset, a broken pipe and a cancellation have their own endings. Only a `BlockingIOError` or any other error reaches the generic handler. |
| Proxy.InboundRound | src/hermes/session/proxy.py:139-157 | A pass goes round again iff it read a non-empty chunk and sent it, either at once or on its one retry. An empty read ends the loop with end of stream. |
| Proxy.InboundRoundSends | src/hermes/session/proxy.py:141-157 | A pass sends its chunk exactly once if it goes round again, and nothing otherwise. |
| Proxy.InboundRoundOrder | src/hermes/session/proxy.py:148-157 | With a recorder, the chunk is recorded before it is sent. Without one, nothing is recorded. A sleep is followed only by the retried send. |
| Proxy.InboundForwardsInOrder | src/hermes/session/proxy.py:139-157 | The chunks sent are a prefix of the chunks read, in read order. At end of stream, or while still waiting, they are all of them. |
| Proxy.InboundNeverSendsEmpty | src/hermes/session/proxy.py:143-146 | The empty read that ends the stream is never forwarded. |
| Proxy.InboundRecordsThenSends | src/hermes/session/proxy.py:148-157 | Over the whole loop, every send is of bytes just recorded (with a recorder), nothing is recorded without one, and no send is retried twice. |
| Proxy.OutboundRound | src/hermes/session/proxy.py:185-204 | A pass goes round again iff the receive would block, or a non-empty chunk was written and drained. An empty read ends the loop with end of stream. |
| Proxy.OutboundRoundWrites | src/hermes/session/proxy.py:194-204 | A pass writes the chunk it received once iff the write works. |
| Proxy.OutboundRoundOrder | src/hermes/session/proxy.py:199-204 | Each chunk is recorded (with a recorder), written, then drained. |
| Proxy.OutboundForwardsInOrder | src/hermes/session/proxy.py:185-204 | The chunks written are a prefix of the chunks received, skipping receives that would block. At end of stream, or while still waiting, they are all of them. |
| Proxy.OutboundRecordsWritesDrains | src/hermes/session/proxy.py:199-204 | Over the whole loop, every write follows the recording of its bytes (with a recorder) and is followed by a drain. Nothing is recorded without a recorder. |
| Proxy.OutboundWouldBlockKeepsWaiting | src/hermes/session/proxy.py:187-192 | Receives that would block never end the loop. A run of them only sleeps. |
| Proxy.InboundPass | src/hermes/session/proxy.py:141-157 | One pass of the inbound loop body produces exactly `InboundRound`'s actions and ending. |
| Proxy.OutboundPass | src/hermes/session/proxy.py:186-204 | One pass of the outbound loop body produces exactly `OutboundRound`'s actions and ending. |
| Proxy.RunInbound | src/hermes/session/proxy.py:139-157 | The loop's trace and ending are exactly `Inbound`'s for the script. |
| Proxy.RunOutbound | src/hermes/session/proxy.py:185-204 | The loop's trace and ending are exactly `Outbound`'s for the script. |
| Proxy.ContainerProxy.constructor | src/hermes/session/proxy.py:32-61 | A new proxy is not running, has no socket, no tasks, an unset event and an empty trace. |
| Proxy.ContainerProxy.Start | src/hermes/session/proxy.py:63-122 | Succeeds iff nothing fails. On success the exec request is `ExecRequestFor(pty)`, the socket is non-blocking, the proxy runs, and both tasks exist. On failure the error is ExecCreationFailed, and the running flag and tasks are unchanged. |
| Proxy.ContainerProxy.SshToContainer | src/hermes/session/proxy.py:126-170 | The actions are exactly `Inbound`'s while running. When not running at the loop head, the loop does nothing. The shutdown event is set on every way out. |
| Proxy.ContainerProxy.ContainerToSsh | src/hermes/session/proxy.py:172-217 | The actions are exactly `Outbound`'s while running. When not running at the loop head, the loop does nothing. The shutdown event is set on every way out. |
| Proxy.ContainerProxy.HandleResize | src/hermes/session/proxy.py:219-237 | The resize is recorded iff a recorder is attached. Nothing else changes. |
| Proxy.ContainerProxy.WaitCompletion | src/hermes/session/proxy.py:239-246 | Completes exactly when the shutdown event is set. |
| Proxy.ContainerProxy.Stop | src/hermes/session/proxy.py:248-282 | When not running, nothing changes. Otherwise it stops running and cancels each unfinished task, whose `finally` sets the event. The socket is closed unless the close fails, and the failure is swallowed. |
| Proxy.DisconnectScenario | src/hermes/session/proxy.py:139-169 | A client that types "ls" and disconnects: the chunk is recorded and then sent, and the end of stream is not forwarded. The wait completes and `stop` closes the socket. |
| SshBackend.SessionInfo.constructor | src/hermes/server/backend.py:15-24 | A new session record has the given fields, is not authenticated and has no failed attempts. |
| SshBackend.AsyncSshBackend.MostRecent | src/sandtrap/server/asyncssh_backend.py:264-272 | There is no record iff the map is empty. Otherwise it returns a record held in the map. |
| SshBackend.AsyncSshBackend.Store | src/sandtrap/server/asyncssh_backend.py:73-74 | The map gets the entry. A new key goes last in the insertion order, and its record becomes the most recent one. An existing key keeps its place, so its new record is the most recent only if that key was the last inserted; otherwise the most recent record is unchanged. |
| SshBackend.AsyncSshBackend.Stop | src/sandtrap/server/asyncssh_backend.py:202-209 | Without a listener, nothing changes. Otherwise the listener is closed and forgotten. |
| SshBackend.TerminalRequest | src/sandtrap/server/asyncssh_backend.py:275-288 | The factory raises exactly when the size has one number. The terminal type falls back to "xterm" when absent or empty. |
| SshBackend.NoSizeDefaults | src/sandtrap/server/asyncssh_backend.py:276-280 | With no size, the terminal is 80x24 with zero pixel size. |
| SshBackend.FullSizeCarried | src/sandtrap/server/asyncssh_backend.py:276-280 | A four-number size is carried over exactly, zeros included. |
| SshBackend.CharacterSizeOnly | src/sandtrap/server/asyncssh_backend.py:276-280 | A two-number size gives the character size with zero pixel size. |
| SshBackend.SandTrapSshServer.ConnectionMade | src/sandtrap/server/asyncssh_backend.py:57-74 | Creates a fresh record: the connection id, an empty username, the peer address or "unknown"/0, not authenticated, no failures. The same record is filed in the backend's map under the id. |
| SshBackend.SandTrapSshServer.BeginAuth | src/sandtrap/server/asyncssh_backend.py:109-112 | Records the username on the session record, if there is one, and always returns true. |
| SshBackend.SandTrapSshServer.ValidatePassword | src/sandtrap/server/asyncssh_backend.py:125-137 | Without a connection id it refuses and neither the manager nor the record changes. Otherwise the answer is the manager's `Decide`. An acceptance marks the record authenticated and a rejection adds one failed attempt. |
| SshBackend.SandTrapSshServer.ConnectionLost | src/sandtrap/server/asyncssh_backend.py:88-93 | With a connection id, the manager forgets its counter. Without one, nothing changes. |
| SshBackend.ProcessFactory | src/sandtrap/server/asyncssh_backend.py:258-308 | The handler is called iff there is a connection, a session record, a PTY request and a handler. It receives the most recently filed record. Exit 0 iff the handler was called, whatever it did. Exit 1 when the connection, the records or the handler are missing. No exit at all when the size raises first. |
| SshBackend.LoginScenario | src/sandtrap/server/asyncssh_backend.py:99-137 | After a wrong then a right password, the handler's record is the server's own record. It carries the username, is authenticated and shows one failed attempt. |
| SshBackend.InterleavedScenario | src/sandtrap/server/asyncssh_backend.py:270-272 | When a second client connects before the first opens its shell, the first client's handler is given the second client's record. |
| SshBackend.NoConnectionScenario | src/sandtrap/server/asyncssh_backend.py:125-127 | A password check before `connection_made` is refused and leaves the manager's counters empty. |

Three predicates serve as the reference definitions in these rows and have no row of their own. `Auth.AcceptAllActive` is `_should_accept_all` (src/hermes/server/auth.py:77-91). `Security.IsValidMemoryLimit` is `_is_valid_memory_limit` (src/sandtrap/container/security.py:112-124). `Recording.SessionRecorder.Active` is the `active` property (src/sandtrap/session/recorder.py:41-43).

## Left out

- Docker SDK calls (create, start, stop, reload, exec_run, setblocking, close) are replaced by their outcomes, given as parameters. The daemon's own behaviour is not modelled.
- Pool.ContainerPool.CreateContainer: models "at most two attempts". It does not distinguish `DockerException` (retried) from other errors, and drops the two-second sleep between attempts. A container created by a first attempt whose start then fails is not tracked, in the source or here.
- Pool.ContainerPool.Initialize: the parallel creations of `asyncio.gather` are one atomic step. Containers created before a failure are simply never enqueued, which is what the source does.
- Pool.ContainerPool.Release: the container is stopped outside the lock, between `Unbind` and `Archive`. What other tasks do in that gap is not modelled; `Release` runs the three steps back to back.
- Pool.ContainerPool.Shutdown: the dict iteration order of `active_sessions` is returned as the ghost sequence `visited` instead of being fixed. One clock reading stamps every container stopped in one call.
- Pool.ContainerPool.Allocate: allocating a session id that is already bound overwrites the binding, as the source does. The container previously bound to that id is then held by no collection. The `reload` call is dropped because its failure is only logged.
- Pool.ContainerPool.FinishReplacement: stopping a replacement created during shutdown (with a timeout of 10 seconds) is not recorded anywhere, since the source does not track it.
- The asyncio machinery is not modelled: locks, `create_task`, `gather`, `run_in_executor`, the interleaving of tasks, cancellation, and event waits. Each lock-held region is one atomic method, and background tasks are counted by `pendingReplacements`.
- Proxy.ContainerProxy.WaitCompletion: suspension is not modelled; the method reports whether the wait would return now.
- Proxy.ContainerProxy.SshToContainer: the `_running` flag is read once at the loop head, since no other task runs between the steps of the model. A cancellation is a pass that ends with `Cancelled`. A script that runs out leaves the loop suspended.
- Proxy.ContainerProxy.Stop: a task cancelled before its first step is treated as started, so its `finally` sets the shutdown event.
- Proxy.ContainerProxy.Start: the socket taken from a failed exec whose `setblocking` raised is left open; the model keeps it as `Open(false)`. The user, working directory and command of the exec are fixed constants.
- Recording.SessionRecorder.WriteMetadata: a sidecar truncated by a failed dump may hold a partial JSON prefix; the model records only that it was truncated, not its bytes.
- Recording.SessionRecorder.Stop: a `close()` that raises is not modelled. In that case, lines still buffered after an earlier failed flush may never reach the file, yet the model keeps them in the transcript.
- The recorder's transcript is a sequence of line values, not JSON text. `json.dumps`, `round(elapsed, 6)` and the float clock are replaced by integer clock ticks. UTF-8 decoding with replacement is an opaque total function. Wall-clock timestamps and the metadata's JSON form are parameters.
- The proxy's recorder calls are entries in its action trace, not calls into a `SessionRecorder`. The two classes are related only through the shared event vocabulary.
- Security.IsValidMemoryLimit: matches ASCII digits only and no trailing newline. Python's `\d` also matches other Unicode digits, and its `$` also matches before a final newline, so "256m\n" passes the source's validator and then makes `int()` raise. This quirk is not reproduced.
- Security.BuildContainerConfig: the CPU quota arrives already converted to microseconds, because `int(cpu_quota * 100000)` is floating point. `format_cpu_quota` and the warning thresholds are also left out. The creation timestamp label is a parameter.
- Security.GenerateContainerName: the UUID and the timestamp are parameters. The source's name prefix "sandtrap-target-" is used; a test expecting "hermes-target-" is not followed.
- SshBackend.ProcessFactory: the session handler is external. It is recorded as the arguments it was called with, and whether it raises does not change the outcome. `container_session_handler`, the session orchestrator, is not part of this model.
- SshBackend.SandTrapSshServer.ConnectionLost: the session record stays in the backend's map forever, as in the source.
- The asyncssh listener in `AsyncSSHBackend.start`, logging, configuration loading (pydantic/YAML) and the entry point are not modelled.
