# run_red supervisor model

A Dafny model of the decision logic in `run_red.py`, the launcher of the
Red Discord bot. The script starts the bot as a child process and supervises
it. With the watchdog on, it emulates systemd's `WATCHDOG=1` heartbeat over a
datagram socket. Otherwise it waits for the child. A maintenance file holds
the bot stopped. Shutdown goes through an escalating signal ladder. Before
launching, the script reconciles credentials, prefix and roles with the stored
settings and adds `~/.local/bin` to `PATH`.

Modules, one per piece of the script:

- `Process`: the child as an abstract process (`Child`: running flag, exit
  status, the signals sent so far), and `stop_p` as `StopP`, specified by the
  value function `Stop` and the ladder `Ladder`.
- `Heartbeat` (with `Text`): the pulse parser, using Python's `split('=')`
  and `strip()`.
- `Supervisor`: `start` as a tick-driven state machine. `Advance`, `RunFrom`
  and `Run` give the meaning. `Supervise` is the imperative loop code, proved
  equal to `Run`.
- `Credentials`: `check_env` over a `Settings` object, with errors as a
  `Result`.
- `SearchPath`: `check_path` over the environment map.

The world the supervisor polls is a finite trace of `Tick`s, one per
iteration of whichever loop is running. That is a full poll interval, or less
in the watchdog loop when a datagram ends `recv` early. Each tick carries:

- the clock;
- the status the child exits with on its own, if it exits in that interval;
- whether the maintenance file exists;
- what the socket delivers: nothing, a decoded datagram, or an exception;
- whether the operator interrupts the supervisor;
- how the child answers a stop ladder begun in that interval: the status it
  exits with within 30 s of SIGINT, within 30 s of SIGTERM, and after SIGKILL.

A run ends as `Pending` (the trace ran out while supervising) or as
`Exited(code, signals, at)`.

In several places the code behaves differently from what one might expect
of a supervisor. The model follows the code:

- `stop_p` on a child that has already exited returns 0, not the child's
  status.
- In watchdog mode a child that exits on its own with a nonzero status still
  gives exit status 0, because `error` stays false and the final `stop_p`
  returns 0.
- The exit-status tests `ret is not 0` are modelled as `ret != 0`.
- After the maintenance file is removed, the supervisor does not resume
  supervising. It leaves through `finally` and exits 0, unless the simple
  loop had already recorded a nonzero child status before it saw the file
  (see the concurrency line under "## Left out"); then it exits 1.
- `check_env` and `check_path` are modelled as well, since they hold
  decision logic of their own.

The properties of `check_path` assume a home directory without `:`. With
one, the appended `.local/bin` path splits into two `PATH` components, so it
is never found as a component and every run appends it again
(`SearchPath.ColonHomeAppendsEveryRun`).

## Model

| member | source | states |
|---|---|---|
| `Text.Join` | red-discordbot/run_red.py:192 | definition of `sep.join(parts)`: the parts with one separator between neighbours, `""` for no parts |
| `Text.Strip` | red-discordbot/run_red.py:70 | definition of `strip()`: drop leading and trailing Python whitespace; its meaning is stated by `Text.Padding` and `Text.StripPadded` |
| `Text.Split` | red-discordbot/run_red.py:70 | `str.split` with a separator: at least one part, no part contains the separator, and joining the parts gives back the text |
| `Text.SplitJoin` | red-discordbot/run_red.py:189-192 | splitting a `:`-join of separator-free components gives back exactly those components |
| `Text.StripPadded` | red-discordbot/run_red.py:70 | `strip()` of whitespace + core + whitespace is the core, when the core neither starts nor ends with whitespace |
| `Text.Padding` | red-discordbot/run_red.py:70 | `strip()` removes only whitespace and all of it: every text is whitespace + its stripped form + whitespace, and the stripped form is empty or starts and ends with a non-whitespace character |
| `Heartbeat.IsPulse` | red-discordbot/run_red.py:69-71 | definition of the pulse test: the stripped `=`-parts of the payload are exactly `WATCHDOG`, `1`; characterised by `Heartbeat.PulseOfShape` and `Heartbeat.ShapeOfPulse` |
| `Heartbeat.StripEach` | red-discordbot/run_red.py:70 | the list comprehension strips every part and keeps the number and order of parts |
| `Heartbeat.PulseOfShape` | red-discordbot/run_red.py:69-72 | every payload `WATCHDOG=1`, with any whitespace around either word, is a pulse |
| `Heartbeat.ShapeOfPulse` | red-discordbot/run_red.py:69-72 | every pulse is exactly `WATCHDOG`, `=`, `1` with whitespace around the words: one `=` and no other characters |
| `Heartbeat.ExactMessageIsPulse` | red-discordbot/run_red.py:71 | the plain `WATCHDOG=1` message is a pulse |
| `Process.Ladder` | red-discordbot/run_red.py:28-38 | definition of the signals one ladder run sends to a running child; stated by `Process.LadderIsPrefix` and `Process.EscalationOnlyOnTimeout` |
| `Process.LadderStatus` | red-discordbot/run_red.py:30-39 | definition of the status the ladder returns: that of the first wait that does not time out; stated by `Process.StatusFromLastStep` |
| `Process.Stop` | red-discordbot/run_red.py:24-40 | definition of `stop_p` on a child state: the ladder on a running child, else no signal and 0; stated by `Process.StopProperties` and implemented by `Process.StopP` |
| `Process.Child.Poll` | red-discordbot/run_red.py:26 | `poll()` is None exactly while the child runs, else its status |
| `Process.Child.Send` | red-discordbot/run_red.py:29 | sending a signal appends it to the signal record and changes nothing else |
| `Process.Child.Wait` | red-discordbot/run_red.py:30 | a bounded wait returns the status when the child exits within the bound, times out otherwise, and answers an exited child at once |
| `Process.Child.WaitForExit` | red-discordbot/run_red.py:39 | the unbounded wait returns only with the child exited, and returns its status |
| `Process.StopP` | red-discordbot/run_red.py:25-40 | `stop_p` leaves the child in the state given by `Stop` and returns its value: SIGINT, then SIGTERM, then SIGKILL, each only after the previous wait timed out |
| `Process.LadderIsPrefix` | red-discordbot/run_red.py:25-40 | the signals sent form a non-empty prefix of SIGINT, SIGTERM, SIGKILL: SIGINT first, no step skipped or repeated |
| `Process.EscalationOnlyOnTimeout` | red-discordbot/run_red.py:29-38 | SIGTERM is sent iff the wait after SIGINT timed out; SIGKILL iff the wait after SIGTERM timed out too |
| `Process.StatusFromLastStep` | red-discordbot/run_red.py:30-39 | the status returned comes from the wait that followed the last signal sent |
| `Process.StopProperties` | red-discordbot/run_red.py:25-40 | after `stop_p` the child is never running; on a running child it returns the real status; on an exited child it sends nothing and returns 0; a second call sends nothing and returns 0 |
| `Supervisor.Observe` | red-discordbot/run_red.py:66-89 | definition of the child's own exit within a tick, seen by `poll()` or `wait()` |
| `Supervisor.Advance` | red-discordbot/run_red.py:62-98 | definition of one loop iteration: interrupt first, then the watchdog loop condition and its `else`, the simple wait loop, or the maintenance wait |
| `Supervisor.ExitCode` | red-discordbot/run_red.py:108-109 | definition of the exit decision: 1 on an error or a nonzero stop status, unless interrupted; bounded by `Supervisor.ExitStatusIsZeroOrOne` |
| `Supervisor.Finish` | red-discordbot/run_red.py:106-109 | definition of `finally`: `stop_p` once more, then the exit decision |
| `Supervisor.RunFrom` | red-discordbot/run_red.py:64-109 | definition of a run from a tick on: iterate `Advance` until the `try` block is left, then `Finish` |
| `Supervisor.Initial` | red-discordbot/run_red.py:61-63 | definition of the state after `Popen`: a running child with no signal sent, in the watchdog loop with `last_pet` the start time or in the simple loop |
| `Supervisor.Run` | red-discordbot/run_red.py:58-109 | definition of a whole run: exit 1 when `Popen` fails, else `RunFrom` the initial state; implemented by `Supervisor.Supervise` |
| `Supervisor.Supervise` | red-discordbot/run_red.py:58-109 | the imperative loops of `start` (watchdog loop with its `else`, simple wait loop, maintenance wait, `finally`) produce exactly the outcome of the tick semantics `Run` |
| `Supervisor.InterruptSuppressesFailure` | red-discordbot/run_red.py:100-109 | an operator interrupt ends the run no later than the tick it arrives in, and a run ending at an interrupt exits 0 whatever the child's status |
| `Supervisor.InterruptStopsChild` | red-discordbot/run_red.py:100-109 | an interrupt leaves through `finally`, which sends a running child through the whole stop ladder (nothing to an exited one) and exits 0 |
| `Supervisor.SilentChildTimesOut` | red-discordbot/run_red.py:62-109 | with the child alive, no maintenance and no pulse, the run ends by the first tick where `now - last_pet >= timer`; the child goes through the ladder and the exit status is 1 |
| `Supervisor.PulsesPreventTimeout` | red-discordbot/run_red.py:63-74 | while every tick is within the timer of the loop start or of an earlier pulse, and the clock does not go backwards, the watchdog never fires |
| `Supervisor.PulseResetsLastPet` | red-discordbot/run_red.py:66-74 | the watchdog stays armed: exactly when the loop condition holds and no fault occurs, the next state is the watchdog loop again, with `last_pet` set to the current time on a pulse and kept otherwise, whatever the clock does |
| `Supervisor.LastPetNeverDecreases` | red-discordbot/run_red.py:63-74 | with a clock that does not go backwards, `last_pet` never decreases and never passes the current time; any other step leaves the watchdog loop |
| `Supervisor.MaintenanceHoldsChildStopped` | red-discordbot/run_red.py:77-98 | in maintenance the supervisor sleeps while the file exists, sends no further signal, and exits 0 at the first tick without the file or with an interrupt |
| `Supervisor.MaintenanceTakesPrecedence` | red-discordbot/run_red.py:66-98 | a maintenance file seen by either loop's condition wins over a watchdog timeout and over the child's own exit: the child is stopped and the run can only exit 0 (the race at run_red.py:89-94, where it exits 1, is outside the model) |
| `Supervisor.SimpleModeReportsChildStatus` | red-discordbot/run_red.py:86-109 | without the watchdog, timed-out waits keep the loop going with no signal and no error; the first wait that completes ends the run with status 0 for child status 0 and 1 otherwise, with no signal sent |
| `Supervisor.WatchdogModeIgnoresChildStatus` | red-discordbot/run_red.py:66-109 | with the watchdog, the child's own exit ends the run with status 0 whatever the child's status, with no signal sent |
| `Supervisor.FaultFails` | red-discordbot/run_red.py:103-109 | an unexpected exception in the watchdog loop stops the child through the ladder and exits 1 |
| `Supervisor.ExitStatusIsZeroOrOne` | red-discordbot/run_red.py:106-109 | every run that ends exits with 0 or 1, at a tick of the trace |
| `Credentials.Lookup` | red-discordbot/run_red.py:113 | definition of `os.environ.get(name, option)` |
| `Credentials.Effective` | red-discordbot/run_red.py:113-165 | definition of the six values `check_env` reads (lines 113-115, 146, 157 and 165); stated by `Credentials.EnvironmentOverridesOptions` |
| `Credentials.EnvironmentOverridesOptions` | red-discordbot/run_red.py:113-115 | for all six of token, email, password, prefix, admin role and mod role: a set variable wins over the option, even when empty; an unset one leaves the option; an empty one makes the value count as not given |
| `Credentials.Reject` | red-discordbot/run_red.py:117-128 | definition of the rejection chain; characterised by `Credentials.AcceptedCredentials` and `Credentials.RejectionOrder` |
| `Credentials.AcceptedCredentials` | red-discordbot/run_red.py:117-128 | the checks accept exactly: a token alone of at least 50 characters without `@`, an email alone with `@` and a password, or neither |
| `Credentials.RejectionOrder` | red-discordbot/run_red.py:117-128 | token-and-email is reported first; each later rejection is reported only when the earlier rules passed |
| `Credentials.ApplyCredentials` | red-discordbot/run_red.py:117-142 | a rejection changes no field; a token overwrites only the token; otherwise an email sets email and password; with neither, missing stored credentials is an error |
| `Credentials.ApplyPrefix` | red-discordbot/run_red.py:146-155 | a given prefix makes the prefix list exactly `[prefix]`; with none, an empty list is an error; the warning fires only when a different stored list is replaced |
| `Credentials.ReplaceRole` | red-discordbot/run_red.py:157-171 | the stored role changes exactly when a different role is given, and then only to that role; the warning fires exactly when a stored role other than the default is really replaced |
| `Credentials.DefaultRoleOnlyWarns` | red-discordbot/run_red.py:157-171 | the default role name never affects the stored role, only the warning |
| `Credentials.CheckEnv` | red-discordbot/run_red.py:112-172 | succeeds exactly when the credentials pass the chain, some credentials are given or stored, and some prefix is given or stored; fails with each rejection, the missing credentials or the missing prefix exactly in its case; rejections write nothing; the credential, prefix and role updates; each of the four warnings exactly in its case |
| `SearchPath.UserBin` | red-discordbot/run_red.py:187-188 | definition of `os.path.join(home, '.local/bin')` |
| `SearchPath.Augmented` | red-discordbot/run_red.py:189-192 | definition of the new `PATH`: unchanged when the directory is a component, else with it appended |
| `SearchPath.CheckPath` | red-discordbot/run_red.py:186-192 | without `PATH` it fails (`KeyError`); otherwise only `PATH` changes, and not at all when the directory is already a component |
| `SearchPath.JoinAppend` | red-discordbot/run_red.py:191-192 | appending a component and joining adds `:` and the component at the end of the text |
| `SearchPath.AppendsWhenAbsent` | red-discordbot/run_red.py:189-192 | an absent directory becomes the last component; the existing components keep their order |
| `SearchPath.ContainsUserBin` | red-discordbot/run_red.py:186-192 | after the update `~/.local/bin` is a component of `PATH` |
| `SearchPath.Idempotent` | red-discordbot/run_red.py:186-192 | running the update twice gives the same `PATH` as running it once |
| `SearchPath.ColonHomeAppendsEveryRun` | red-discordbot/run_red.py:187-192 | for a home containing `:` the directory is always appended, so a second run changes `PATH` again |

## Left out

- The argument parser, `main`, `--nop`, the `RED_PY` override, the interactive setup and `get_answer` (run_red.py:175-262). These are console and command-line wiring.
- The `Settings` class and `save_settings` are not part of this model. `Settings` holds only the fields `check_env` reads and writes. `loginCredentials` is a stored flag rather than derived from the credentials. An `Ok` result of `CheckEnv` stands for the call to `save_settings`.
- Building the child's command line (`sys.executable`, the bot script, `args.split()`) and `Popen` itself. Spawning is a success flag; on failure the run exits 1 with no child to signal.
- Socket creation and binding, and the `NOTIFY_SOCKET` variable (run_red.py:49-56). Each tick delivers what `recv(64).decode("utf-8")` would give, so the 64-byte truncation and UTF-8 decoding happen outside the model.
- Real concurrency of the child. Its own exit is an event applied at the start of a tick, unless an interrupt arrives in that tick first. Every check within one loop iteration reads the same tick. So the check at run_red.py:94, after a completed wait, sees the same snapshot as the loop condition. The race where the file appears during that wait is not captured. In the source, that wait's nonzero status has already set `error` (run_red.py:90), so after the maintenance wait `finally` exits 1 (run_red.py:108-109); in the model the file seen in that tick wins over the child's exit and the run exits 0.
- Interrupts arrive only at tick boundaries in the three loops. An interrupt inside `stop_p` or inside `finally` is not modelled.
- Time is an integer clock per tick. `sleep` and the poll interval are one tick. A pulse sets `last_pet` to the tick's clock, the value the loop condition read; the source calls `time()` again after `recv` returns (run_red.py:72), so after a pulse the model's deadline can come up to one poll interval earlier. The 30-second bounds of `stop_p` are not timed; the oracle says whether the child exits within each bound.
- `print` and `traceback` output.
- The choice of the watchdog from `--watchdog` or `RED_WATCHDOG=1` (run_red.py:47) is not modelled; `Config.watchdog` holds its outcome.
- Supervisor.PulsesPreventTimeout: assumes a clock that does not go backwards, because the source uses the wall clock `time()`.
- SearchPath.ContainsUserBin: holds only for a home directory without `:`; SearchPath.AppendsWhenAbsent and SearchPath.Idempotent have the same condition.
- Credentials.CheckEnv: returns the warnings as a set, so the order in which they are printed is not kept.
