# WAN failover for a MikroTik router — Dafny model

The daemon watches several WAN uplinks of a MikroTik router. Once per run it
connects to the router over SSH. Then, for each configured WAN in list order, it
pings a public host through that WAN's interface and turns the outcome into an
up/down verdict. It reads each route governed by that WAN, identified by the
route's `comment`, with a RouterOS `:put [/ip route get … disabled]` query. Then
it enables or disables the route with `/ip route enable|disable [find where
comment="…"]`.

This project models the decision logic of `src/main.rs` as pure functions. The
I/O becomes inputs:

- **Router.** A `Table`: a map from route comment to the route's `disabled` flag.
- **Reads.** A `Replier`: the raw text the router returns for a status query in
  the current table, or `None` when opening the channel, running the command or
  reading the reply fails.
- **Writes.** `lands: Command -> bool` says whether `exec` of a write reached the
  router. A write that lands updates the table.
- **Probe.** A `ProbeOutcome` per WAN: the `ping` process could not be launched,
  or it exited with a success or failure status.
- **Output.** A trace of events: each command sent (a query counts as sent once
  attempted) and each log line, without its timestamp.

Modules:

- `Results`: `Option` and `Result` (`results.dfy`).
- `SeqFacts`: small sequence lemmas (`seqfacts.dfy`).
- `Text`: Rust's `str::trim` (`text.dfy`).
- `RouterProtocol`: the command templates, their rendering and decoding, and the
  reply parser of `get_status_route` (`protocol.dfy`).
- `Probe`: the verdict of `ping_to_interface` (`probe.dfy`).
- `Reconciler`: the route loop of `check_and_update_wan` (`reconciler.dfy`).
- `Failover`: `check_and_update_wan` and `main` (`failover.dfy`).
- `Scenarios`: worked examples against a RouterOS-like replier (`scenarios.dfy`).

Two behaviours of the code are easy to miss:

- **Down always writes.** On a down verdict the code disables every route it read
  successfully, including routes that are already disabled; up, by contrast,
  writes only to a route read as disabled. `DownDisablesEveryReadRoute` proves
  this. `DownOnDisabledKeepsTable` proves the redundant writes leave the router
  unchanged. A reconciler that skipped converged routes would send nothing here.
- **First read failure aborts the WAN.** The `?` on the read makes a failed read
  end the whole WAN: the WAN's later routes are neither read nor written,
  and the next WAN is processed. `ReadFailureAbortsWan` proves the abort;
  `NextWanProcessed` proves the next WAN still runs in full.

## Model

| member | source | states |
|---|---|---|
| `Text.TrimStartSpec` | src/main.rs:47 | trimming the start keeps a suffix of the reply, removes only whitespace, and stops at the first non-whitespace character |
| `Text.TrimEndSpec` | src/main.rs:47 | trimming the end keeps a prefix, removes only whitespace, and stops at the last non-whitespace character |
| `Text.TrimSpec` | src/main.rs:47 | `Trim`, the model of `str::trim`: the trimmed reply is the slice between a whitespace-only prefix and a whitespace-only suffix, and has no whitespace at either end |
| `Text.TrimPadded` | src/main.rs:47 | adding any amount of Unicode whitespace around text with none at its ends leaves the trim result unchanged |
| `RouterProtocol.SetRoute` | src/main.rs:21-26 | `set_status_route` picks a write for exactly the given comment, and picks enable exactly when asked to enable |
| `RouterProtocol.DecodeRender` | src/main.rs:22-39 | `Render`, the three `format!` templates: each command is recovered from its text, whatever characters the comment contains, because the comment is spliced in verbatim |
| `RouterProtocol.RenderDecode` | src/main.rs:22-39 | any text the decoder accepts is exactly the rendering of the command it returns |
| `RouterProtocol.RenderInjective` | src/main.rs:22-39 | distinct commands (kind or comment) have distinct texts |
| `RouterProtocol.WritesDifferInVerb` | src/main.rs:22-26 | enable and disable differ only in the verb: the disable text is the enable text with `enable` (offsets 10 to 16) replaced by `disable` |
| `RouterProtocol.QueryUsesWriteSelector` | src/main.rs:36-39 | the query prints the `disabled` property of the route found by the same `[find where comment="…"]` selector the writes use |
| `RouterProtocol.ReadStatusSpec` | src/main.rs:41-54 | `ReadStatus`, the whole of `get_status_route`: a failed channel open, exec or read gives `None`; otherwise the result is `Some(enabled)` exactly when the reply is the flag text for `!enabled` with only whitespace around it |
| `RouterProtocol.ParsedIsPadded` | src/main.rs:47-54 | a reply parsed as `Some(enabled)` is the flag text for `!enabled` with only whitespace around it |
| `RouterProtocol.ParseStatusSpec` | src/main.rs:47-54 | `ParseStatus`, the trim and match on the reply: the parse is `Some(enabled)` exactly when the reply is the padded flag text `"true"` (for disabled) or `"false"` (for enabled) |
| `RouterProtocol.ParseStatusRejects` | src/main.rs:47-54 | the parse is `None` exactly when the reply is neither padded flag, which includes empty and whitespace-only replies |
| `RouterProtocol.ParseRouterReply` | src/main.rs:44-54 | the router's flag text, with any line ending or blank padding, parses to the opposite of the `disabled` flag |
| `Probe.IsUp` | src/main.rs:68-76 | `ping_to_interface`'s outcome mapping: the verdict is up exactly when `ping` ran and exited successfully; a launch failure and a failed exit both give down |
| `Reconciler.Apply` | src/main.rs:28-32 | a write that did not reach the router changes nothing; one that did sets only that route's flag; no route is added or removed |
| `Reconciler.VisitSpec` | src/main.rs:89-98 | `Visit`, one iteration of the route loop: it is queried; a failed read gives an error naming it, with no write and no change; otherwise there is at most one write, toward the verdict. Up writes only when the route reads disabled. Down writes whenever the read succeeded. A truthful router that takes every write ends with the route enabled exactly when the verdict is up |
| `Reconciler.ReconcileSpec` | src/main.rs:88-101 | `Reconcile`, the route loop of `check_and_update_wan`: queries go in order to a prefix of the routes, all of them on success; an error names the last route queried; writes go only to queried routes and only toward the verdict; other routes are unchanged |
| `Reconciler.ReconcileAppend` | src/main.rs:88-101 | a pass over `a + b` is the pass over `a`, then, only if that succeeded, the pass over `b` from the state `a` left |
| `Reconciler.ReadFailureAbortsWan` | src/main.rs:88-90 | when routes before `c` succeeded and the read of `c` fails, the pass fails naming `c`; the trace is the earlier routes' trace plus the query of `c`; no later route is queried or written |
| `Reconciler.Converges` | src/main.rs:88-101 | after a successful pass on a truthful router that takes every write, each of the WAN's routes is enabled exactly when the verdict is up |
| `Reconciler.UpPassOnEnabledIsQuiet` | src/main.rs:92-98 | an up pass over routes that are already enabled writes nothing and changes nothing |
| `Reconciler.SecondUpPassIsQuiet` | src/main.rs:88-101 | idempotence: right after a successful up pass that took effect, a second up pass writes nothing and changes nothing |
| `Reconciler.DownDisablesEveryReadRoute` | src/main.rs:95-97 | a down pass writes one disable per successfully read route, in order, whatever the route's state |
| `Reconciler.DownOnDisabledKeepsTable` | src/main.rs:95-97 | a down pass over routes that are all already disabled leaves the router unchanged |
| `Reconciler.DecisionTable` | src/main.rs:92-98 | on a truthful router that takes every write: up enables only a disabled route, down always disables, and the route ends enabled exactly when the verdict is up |
| `Reconciler.UpDownUpWritesTwice` | src/main.rs:92-98 | for an enabled route, verdicts up, down, up give no write, then one disable, then one enable, and the router ends where it started |
| `Failover.CheckAndUpdateWanSpec` | src/main.rs:86-101 | `CheckAndUpdateWan`, i.e. `check_and_update_wan`: a WAN pass meets the route-loop contract for the probe's verdict; a WAN whose probe failed only ever disables routes, and one whose probe succeeded only ever enables them |
| `Failover.ProcessWanSpec` | src/main.rs:131-146 | `ProcessWan`, one iteration of `main`'s WAN loop: a WAN's error is only logged: the commands sent and the router state are those of its pass, a failure adds trace events but no command, and the WAN's first route is always queried |
| `Failover.RunWansFrame` | src/main.rs:131-147 | `RunWans`, `main`'s WAN loop: the loop keeps the set of routes and leaves every route no WAN governs unchanged |
| `Failover.RunWansAppend` | src/main.rs:131-147 | WAN isolation: running `a + b` runs all of `a`, then all of `b` from the state `a` left, whatever errors `a` met |
| `Failover.NextWanProcessed` | src/main.rs:131-147 | whatever errors the earlier WANs met, the next WAN is processed in full from the router state they left |
| `Failover.Main` | src/main.rs:104-150 | `Main`, i.e. `main`: it fails exactly when the SSH connection fails, in which case nothing is sent to the router; otherwise it succeeds whatever errors the WANs met |
| `Scenarios.RouterOsReplyIsTruthful` | src/main.rs:44-54 | a router that prints the `disabled` flag followed by CRLF answers every query about an existing route, and answers truthfully |
| `Scenarios.DownWanWithTwoEnabledRoutes` | src/main.rs:88-101 | a down WAN with two enabled routes reads both, disables both, and succeeds |
| `Scenarios.UpWanWithUnreadableRoute` | src/main.rs:88-90 | an up WAN whose only route gives an unparseable reply fails naming that route and writes nothing |

## Left out

- `src/ssh_connect.rs` is not part of this model: the TCP connection, the SSH handshake, password authentication and the build-time credentials. `main` gets the connection outcome as an input.
- The ssh2 channel mechanics (`channel_session`, `exec`, `read_to_string`). A read is an abstract reply or `None`. A UTF-8 decoding failure in `read_to_string` is one of the `None` cases.
- `channel_session().unwrap()` in `set_status_route` panics when no channel opens. The model assumes the channel opens for writes. A swallowed `exec` failure is the `lands` parameter.
- Spawning `ping` and its argument vector (`-I`, `-c`, `-W`, destination). The process outcome is an input, one per WAN in list order.
- Timestamps (`log_time` and `chrono`). Log lines are kept as their message text only.
- The hard-coded WAN table and the default ping destination, count and timeout. These are configuration, and the probe is an input.
- How RouterOS interprets a command beyond setting one route's flag. This covers a comment matching several routes and quotes or brackets inside a comment. A comment matching no route is modelled as a write that changes nothing.
- Reconciler.Converges: proved only for routes present in the router table, on a router that answers truthfully and takes every write. With failed writes the source promises no convergence.
- Reconciler.SecondUpPassIsQuiet: the idempotence is stated for up verdicts only. A second down pass writes again, because the code disables on every down verdict.
