# labd command broker, modelled in Dafny

The broker in `__init__.py` lets a remote client start a Python worker
script, find out which port the worker listens on, and stop the worker
later. Each TCP connection carries one request, `<VERB> <payload>`. The
broker keeps four module-level registries: `events` maps a session id to a
one-shot flag, `ports` maps a session id to the port its child reported,
`processes` maps a port to a process handle, and `pid` counts sessions.

- `START <path parts>` takes the next session id and creates that
  session's event. It launches `python <WORKINGDIR>/<parts> <id>`, waits
  for the event, then registers the process under the reported port and
  replies with the port as decimal text.
- `PORT <id> <port>` is sent by the child over a new connection. It
  records the port, replies with one space and sets the event.
- `STOP <port>` terminates the process registered under that port and
  replies with one space.

The model has four modules:

- `Wire` (`wire.dfy`) covers the byte-level text rules. It models
  `bytes.split`, Python's `int()` on bytes (whitespace, sign, underscores),
  `str(n)` and strict UTF-8 decoding. It proves split/join and
  `int(str(n)) == n` round trips.
- `Protocol` (`protocol.dfy`) models `consume` and the verb match after
  `decode()` and `upper()`. It also models `os.path.join` and the child's
  command line.
- `Registry` (`registry.dfy`) is the registry as a state machine over
  values. Each handler step is a function on `State`. The lemmas cover the
  invariant, fresh and strictly increasing session ids, the effect of each
  verb, whole sessions, and the interleaving finding below.
- `Broker` (`broker.dfy`) holds the classes the program really mutates.
  `Broker` has the four registries as fields. Its methods `StartBegin`,
  `StartComplete`, `Port`, `Stop` and `HandleRequest` update the fields in
  place, and each is proved to take its `Registry` step. `Process` is an
  opaque handle with a `terminated` flag.

START suspends at its wait for the event (`__init__.py:27`), so it is
split there. `StartBegin` runs lines 22-27 up to the wait. `StartComplete`
runs lines 28-29 once the event is set. Every step runs atomically, as the
handlers share one event loop. This makes the cross-connection handshake a
sequence of steps.

Two behaviours of the source are easy to miss:

- STOP does not remove the `processes` entry. A second STOP for the same
  port finds the entry again.
- PORT for an unknown session id is not rejected up front. It writes
  `ports[id]` and the one-space reply, and only then fails with a
  `KeyError` on `events[id]`.

A START whose payload is not UTF-8 still uses up a session id, because
`pid += 1` comes before the decode. So the invariant says that
`events` holds only issued ids. It does not say that every issued id has
an event.

## Model

| member | source | states |
|---|---|---|
| `Wire.Split` | __init__.py:38 | `bytes.split(b" ")`. At least one field. `Wire.SplitJoin` and `Wire.JoinSplit` prove it inverse to joining with spaces, and `Wire.SplitAppendField` how it extends. |
| `Wire.ParseInt` | __init__.py:32 | `int()` on bytes, as at lines 32, 39 and 40, with `None` for ValueError. `Wire.DecimalRoundTrip` and `Wire.TrailingNewlineIgnored` state what it reads. |
| `Wire.Decimal` | __init__.py:29 | The text `f"{n}"`, as for the port here and the id at line 25. `Wire.DecimalAlphabet`, `Wire.DecimalRoundTrip` and `Wire.DecimalInjective` state its properties. |
| `Wire.ValidUtf8` | __init__.py:14 | The byte strings `decode()` accepts, here and at line 23, after section 4 of RFC 3629. `Wire.AsciiIsUtf8` and `Protocol.DecodeVerb` use it. |
| `Protocol.KeywordUpper` | __init__.py:21 | `str.upper()` as far as the keyword match can see. `Protocol.KeywordUpperAscii`, `Protocol.VerbCaseInsensitive` and `Protocol.LongSSelectsStop` state its behaviour. |
| `Protocol.PathJoin` | __init__.py:25 | `os.path.join(WORKINGDIR, *paths)` on POSIX. `Protocol.PathJoinPlain` gives its closed form for plain segments. |
| `Protocol.ChildCommand` | __init__.py:23-25 | The shell command START runs. `Protocol.CommandForRelativePath` and `Protocol.SessionIdIsLastArgument` state its shape. |
| `Registry.StartBegin` | __init__.py:22-27 | START up to its wait. `Registry.StartAllocatesFreshSession` and `Registry.StartBeginKeepsInv` state its effect. |
| `Registry.StartComplete` | __init__.py:28-29 | START after its wait, as written. It reads `ports[pid]` with the current counter. `Registry.StartCompleteKeepsInv` and `Registry.InterleavedStartsMisroute` state its effect. |
| `Registry.StartCompleteOwn` | __init__.py:28-29 | START after its wait, corrected to read `ports[own]`. `Registry.StartCompleteOwnRepliesOwnPort` and `Registry.InterleavedStartsOwnPorts` state its effect. |
| `Registry.Stop` | __init__.py:32-35 | STOP. `Registry.StopTerminatesRegistered` states its effect for every payload. |
| `Registry.Port` | __init__.py:38-44 | PORT. `Registry.PortRecordsAndSignals` states its effect on a well-formed report, `Registry.PortMalformed` its three error outcomes, and `Registry.PortKeepsInv` keeps the invariant. |
| `Registry.Dispatch` | __init__.py:16-44 | `handle_request` up to START's wait. The `...Request` lemmas tie each verb to its step, and `Registry.DispatchKeepsInv` keeps the invariant. |
| `Registry.Apply` | __init__.py:16-44 | One turn of the event loop: a request, or a START resumed after its wait. A resumption is not tied to a suspended START or a set event, so `Run` also admits runs the program cannot make; `Registry.ApplyKeepsInv`, `Registry.ApplyCounter` and `Registry.SessionIdsIncrease` hold for these extra runs too. |
| `Registry.Run` | __init__.py:16-44 | A sequence of such turns, with the session ids spawned. `Registry.SessionIdsIncrease` states its property. |
| `Protocol.Consume` | __init__.py:12-14 | The verb has no space. If the request has a space, `request == verb + " " + payload`. Otherwise the verb is the whole request and the payload is empty. |
| `Protocol.DecodeVerb` | __init__.py:14 | Decoding the verb fails (UnicodeDecodeError) exactly when the verb bytes are not well-formed UTF-8. |
| `Protocol.VerbCaseInsensitive` | __init__.py:21-37 | An ASCII verb selects START, STOP or PORT exactly when it is a casing of that word. Every other ASCII verb is unrecognised. Both directions are proved. |
| `Protocol.KeywordSelectsItself` | __init__.py:21-37 | "START", "STOP" and "PORT", written as the client sends them, select their own branches. |
| `Protocol.LongSSelectsStop` | __init__.py:31 | Because `upper()` is Unicode-aware, the UTF-8 verb "ſtop" (long s) also selects STOP. |
| `Protocol.KeywordUpperAscii` | __init__.py:21 | On ASCII text the upper-casing is per character and keeps the length. |
| `Protocol.PathJoinPlain` | __init__.py:25 | `os.path.join` of a base and plain relative segments puts exactly one '/' between neighbours. |
| `Protocol.CommandForRelativePath` | __init__.py:23-25 | For a plain working directory and plain payload parts, the child command is `python <dir>/<parts joined by '/'> <id>`. |
| `Protocol.SessionIdIsLastArgument` | __init__.py:25 | For every payload, the last space-separated argument of the command is the session id's decimal text, and it parses back to the id. |
| `Wire.SplitJoin` | __init__.py:38 | Joining the fields of `split(b" ")` with spaces restores the payload. No field contains a space. |
| `Wire.JoinSplit` | __init__.py:38 | Splitting the space-join of space-free fields returns those fields. |
| `Wire.SplitAppendField` | __init__.py:25 | Appending a space and a space-free field to some bytes appends exactly that field to their split. |
| `Wire.DecimalRoundTrip` | __init__.py:29 | `int()` of the decimal text of any integer gives back that integer. |
| `Wire.TrailingNewlineIgnored` | __init__.py:32 | `int()` reads a port sent with a trailing newline, such as "5001\n", as the port. |
| `Wire.DecimalInjective` | __init__.py:29 | Different ports have different reply texts. |
| `Wire.DecimalAlphabet` | __init__.py:25 | Decimal text is non-empty. It holds only digits and at most a leading minus sign. |
| `Wire.AsciiIsUtf8` | __init__.py:14 | ASCII bytes always decode. |
| `Registry.StartAllocatesFreshSession` | __init__.py:22-26 | START raises `pid` by exactly 1, and the new id had no event before. START spawns exactly when the payload decodes. Then it creates only that id's event, unset, and launches `ChildCommand` for the new id. If the payload does not decode, `events` is unchanged and UnicodeDecodeError is raised with nothing written. No port or process changes, and no other event. |
| `Registry.PortRecordsAndSignals` | __init__.py:38-44 | PORT with two integer fields sets `ports[sid] := port`. If `sid` has an event, PORT sets it and replies " ". Otherwise `events` is unchanged and PORT raises KeyError after writing " ". Other sessions are untouched. |
| `Registry.PortMalformed` | __init__.py:38-40 | A report whose first field is not an integer, which has no second field, or whose second field is not an integer raises ValueError, IndexError or ValueError before line 41, so nothing is recorded, no event is set and nothing is written. |
| `Registry.PortPayloadFields` | __init__.py:38-40 | The child's report "<sid> <port>" splits into two fields that parse to `sid` and `port`. |
| `Registry.ReportSignals` | __init__.py:38-44 | A well-formed report for a session with an event records the port, sets the event and replies " ". |
| `Registry.StopTerminatesRegistered` | __init__.py:32-35 | For every payload, STOP leaves the registry unchanged and does not remove the entry. A payload `int()` rejects raises ValueError. If `int()` reads a registered port, that handle is terminated. Any other port raises KeyError. |
| `Registry.StopOfDecimal` | __init__.py:32-35 | STOP of a port's decimal text terminates that port's handle when it is registered, and raises KeyError otherwise. |
| `Registry.UnrecognisedVerbIsSilent` | __init__.py:21-44 | A verb that matches no branch leaves `events`, `ports`, `processes` and `pid` unchanged and writes nothing. |
| `Registry.DispatchIgnoresVerbCase` | __init__.py:19-37 | Two casings of the same verb with the same payload take exactly the same step. |
| `Registry.RequestParts` | __init__.py:12-14 | `consume` of `verb + " " + payload` returns that verb and payload when the verb has no space. |
| `Registry.StartRequest` | __init__.py:19-21 | The request "START <payload>" takes the START step. |
| `Registry.PortRequest` | __init__.py:19-37 | The request "PORT <payload>" takes the PORT step. |
| `Registry.StopRequest` | __init__.py:19-31 | The request "STOP <payload>" takes the STOP step. |
| `Registry.StartBeginKeepsInv` | __init__.py:22-27 | START's first step keeps the invariant, on the spawn path and on the decode-failure path. |
| `Registry.PortKeepsInv` | __init__.py:38-44 | PORT keeps the invariant. The port is recorded before the event is set. |
| `Registry.DispatchKeepsInv` | __init__.py:16-44 | Every request keeps the invariant. Events exist only for issued ids, and a set event has its port recorded. |
| `Registry.DispatchKeepsCounter` | __init__.py:22 | No request lowers `pid`. A spawn uses the id just taken. |
| `Registry.StartCompleteKeepsInv` | __init__.py:28-29 | The completion of START keeps the invariant. |
| `Registry.StartCompleteOwnKeepsInv` | __init__.py:28-29 | The corrected completion keeps the invariant. |
| `Registry.ApplyKeepsInv` | __init__.py:16-44 | Every step keeps the invariant, whether a request or a resumed START. |
| `Registry.ApplyCounter` | __init__.py:22 | No step, whether a request or a resumption, lowers `pid`. A spawn uses `pid + 1`. |
| `Registry.SessionIdsIncrease` | __init__.py:10-22 | Over any run, the spawned session ids strictly increase. Each lies above the starting counter and at or below the final one, and none had an event before the run. |
| `Registry.SequentialSession` | __init__.py:21-44 | START, the child's PORT, the completion and STOP, with nothing in between: START spawns the command for `sid`. PORT sets `events[sid]`. START replies with the port's text, which parses back to the port, and binds the handle under the port. STOP terminates that handle. |
| `Registry.InterleavedStartsMisroute` | __init__.py:27-29 | Counterexample. START A, START B, PORT B, B's completion, PORT A, A's completion: A's START replies with B's port and rebinds B's port to A's process. |
| `Registry.InterleavedStartsOwnPorts` | __init__.py:27-29 | With the corrected completion, the same interleaving gives each START its own port and binds each handle under its own port. |
| `Registry.StartCompleteOwnRepliesOwnPort` | __init__.py:27-29 | Once a session's event is set, the corrected completion replies with that session's port. The reply parses back to the port. Only that port's binding changes. |
| `Broker.Process.constructor` | __init__.py:26 | A spawned process carries its command and is not terminated. |
| `Broker.Process.Terminate` | __init__.py:33-34 | After terminate and wait, the process is terminated. |
| `Broker.Broker.constructor` | __init__.py:7-10 | The registries start empty with `pid` at 0, and the invariant holds. |
| `Broker.Broker.StartBegin` | __init__.py:22-27 | The fields become `Registry.StartBegin`'s state. A spawn returns a fresh, unterminated process with that command, suspended on the new id. |
| `Broker.Broker.StartComplete` | __init__.py:27-29 | Called once `events[own]` is set. The fields and the reply are those of `Registry.StartComplete`, which reads `ports[pid]` as written. |
| `Broker.Broker.Stop` | __init__.py:32-35 | The registries are unchanged. The handle under the port is terminated and " " is replied. No other process changes. Errors are as in `Registry.Stop`. |
| `Broker.Broker.Port` | __init__.py:38-44 | The fields and the outcome are those of `Registry.Port`, and the invariant is kept. |
| `Broker.Broker.HandleRequest` | __init__.py:16-44 | The fields follow `Registry.Dispatch`. The returned value is the outcome, the suspended START or STOP's " ". Only STOP's target process changes. |
| `Broker.ClientSession` | libs/_serial.py:26-32 | A client's START, the child's report, the completion and STOP on one broker: the reply is the port's text and parses back to the port. The child carries the command for the next id. It ends up registered under the port and terminated. |

## Left out

- The asyncio server (`main`, `start_server`, `serve_forever`) is left out, `__init__.py:46-52`. So are `reader.read(1024)` and `writer.drain()`. This is network I/O. The model takes each request as complete bytes. It does not model the 1024-byte read limit or short reads.
- Process creation is left out. `create_subprocess_shell` becomes the `Process` constructor. The model keeps the command text but does not model how the shell reads it (word splitting, metacharacters, a missing script).
- `Broker.Process.Terminate`: terminate is modelled as idempotent. asyncio raises ProcessLookupError on a process already reaped, and this is not modelled. So a second STOP of the same port succeeds in the model. Children that exit on their own are not modelled.
- The spawn at `__init__.py:26` is also a suspension point. The model runs it in the same atomic step as lines 22-25. Line 27 evaluates `events[pid]` only after that await. If another START runs during the spawn, the waiting START can wait on the other session's event. That interleaving is not modelled.
- The `drain()` at `__init__.py:43` lets other handlers run between recording the port and setting the event. PORT is modelled as one atomic step.
- `Broker.Broker.StartComplete`: the scheduler's guarantee is taken as a precondition. A START resumes only after its event is set.
- `Registry.Apply`: a resumption is accepted in any state, not only after a suspended START whose event is set. `Run` therefore over-approximates the program's runs; every lemma about `Apply` and `Run` holds for the extra runs as well.
- `WORKINGDIR` is the package's real path, computed at import. It is the constructor parameter `workingDir`.
- `decode()` is modelled only as the UTF-8 validity check. After decoding, the payload is split and joined as bytes. This is exact for valid UTF-8, because the bytes of ' ' and '/' never occur inside a multi-byte character.
- `Protocol.KeywordUpper`: of Unicode upper-casing it keeps only what can spell START, STOP or PORT. These are ASCII letters, U+017F and the ligatures U+FB05 and U+FB06.
- `Wire.ParseInt` leaves out Python's limit on the digit count of `int()`. It cannot be reached within a 1024-byte request.
- An exception escaping a handler is modelled as a `Raised` outcome. How asyncio then logs it and leaves the connection is not modelled.
- Timeouts, typed "session not found" errors and removal of entries on STOP are not modelled. The source has none of them.
- `libs/_serial.py` and `examples/test_visa.py` are left out. They are call-forwarding proxies and a hardware script. `Broker.ClientSession` follows the proxy's START/STOP usage only.

## Findings

| source | as written | input that shows it | evidently intended | confidence | as-written member | corrected member |
|---|---|---|---|---|---|---|
| __init__.py:27-29 | After its wait, START reads `ports[pid]` and binds `processes[ports[pid]]` using the global counter. That counter may already name a later session. | From an empty registry: `START a`, `START b` (ids 1 and 2), `PORT 2 6`, B completes, `PORT 1 5`, A completes. A replies "6", and `processes[6]` becomes A's process. With `START a`, `START b`, `PORT 1 5`, A's completion raises KeyError on `ports[2]` instead. | START reads the port of the session it waited for (`ports[own]`). Then each START replies with its own child's port and registers its own process. | high; not executed | `Registry.StartComplete`, exhibited by `Registry.InterleavedStartsMisroute` | `Registry.StartCompleteOwn`, proved in `Registry.InterleavedStartsOwnPorts` and `Registry.StartCompleteOwnRepliesOwnPort` |

The `Broker` class keeps the behaviour as written, so it follows the source
as written, up to the points under "## Left out". The corrected completion is the one whose properties
(each START gets its own port) are proved.
