/** The daemon's entry point: connect once, then run one reconciliation
    pass per configured WAN, in list order, logging and swallowing each
    WAN's error. */
module Failover {
  import opened Results
  import opened RouterProtocol
  import opened Probe
  import opened Reconciler
  import opened SeqFacts

  /** A monitored uplink: its display name, the interface `ping` goes out
      through, and the comments of the routes its health governs. */
  datatype WanInterface = WanInterface(name: string, vlan: string, routes: seq<string>)

  /** `check_and_update_wan`: the probe outcome for the WAN's interface
      becomes the verdict, then its routes are reconciled. */
  function CheckAndUpdateWan(wan: WanInterface, probe: ProbeOutcome, t: Table, reply: Replier, lands: Command -> bool): Pass {
    Reconcile(wan.name, IsUp(probe), wan.routes, t, reply, lands)
  }

  /** A WAN pass keeps the route-loop contract for the probe's verdict: a
      WAN whose probe did not succeed only ever has routes disabled, and one
      whose probe succeeded only ever has routes enabled. */
  lemma CheckAndUpdateWanSpec(wan: WanInterface, probe: ProbeOutcome, t: Table, reply: Replier, lands: Command -> bool)
    ensures var p := CheckAndUpdateWan(wan, probe, t, reply, lands);
      && PassContract(probe == Exited(true), wan.routes, t, p)
      && (probe != Exited(true) ==> forall w :: w in Writes(p.trace) ==> w == Disable(w.comment))
      && (probe == Exited(true) ==> forall w :: w in Writes(p.trace) ==> w == Enable(w.comment))
  {
    ReconcileSpec(wan.name, IsUp(probe), wan.routes, t, reply, lands);
  }

  /** The log line `main` prints for a failed WAN. */
  function ErrorLine(name: string, e: WanError): string {
    "Error processing " + name + ": " + Message(e)
  }

  /** What a stretch of the run did and the router state it left. */
  datatype Run = Run(trace: seq<Event>, table: Table)

  /** One iteration of `main`'s WAN loop: the WAN's pass, followed by a log
      line when it failed. */
  function ProcessWan(wan: WanInterface, probe: ProbeOutcome, t: Table, reply: Replier, lands: Command -> bool): Run {
    var p := CheckAndUpdateWan(wan, probe, t, reply, lands);
    var tail := if p.result.Err? then [Logged(ErrorLine(wan.name, p.result.error))] else [];
    Run(p.trace + tail, p.table)
  }

  /** A WAN's error is only logged: the commands sent and the router state
      are those of the pass itself, a failure adds exactly a log line, and
      the WAN's first route is always queried. */
  lemma ProcessWanSpec(wan: WanInterface, probe: ProbeOutcome, t: Table, reply: Replier, lands: Command -> bool)
    ensures var p := CheckAndUpdateWan(wan, probe, t, reply, lands);
      var r := ProcessWan(wan, probe, t, reply, lands);
      && Queries(r.trace) == Queries(p.trace)
      && Writes(r.trace) == Writes(p.trace)
      && r.table == p.table
      && (p.result.Err? <==> |r.trace| > |p.trace|)
      && (wan.routes != [] ==> |Queries(r.trace)| > 0 && Queries(r.trace)[0] == wan.routes[0])
  {
    var p := CheckAndUpdateWan(wan, probe, t, reply, lands);
    CheckAndUpdateWanSpec(wan, probe, t, reply, lands);
    var tail := if p.result.Err? then [Logged(ErrorLine(wan.name, p.result.error))] else [];
    QueriesAppend(p.trace, tail);
    WritesAppend(p.trace, tail);
    assert Queries(tail) == [] && Writes(tail) == [] by {
      if tail != [] {
        assert tail[1..] == [];
      }
    }
  }

  /** The comments of every route some WAN of the list governs. */
  function Governed(wans: seq<WanInterface>): set<string> {
    if wans == [] then {} else (set c | c in wans[0].routes) + Governed(wans[1..])
  }

  /** `main`'s loop over the WANs, the `j`-th with probe outcome
      `probes[j]`. */
  function RunWans(wans: seq<WanInterface>, probes: seq<ProbeOutcome>, t: Table, reply: Replier, lands: Command -> bool): Run
    requires |probes| == |wans|
    decreases |wans|
  {
    if wans == [] then Run([], t)
    else
      var first := ProcessWan(wans[0], probes[0], t, reply, lands);
      var rest := RunWans(wans[1..], probes[1..], first.table, reply, lands);
      Run(first.trace + rest.trace, rest.table)
  }

  /** The loop keeps the set of routes, and routes no WAN governs keep
      their state. */
  lemma {:induction false} RunWansFrame(wans: seq<WanInterface>, probes: seq<ProbeOutcome>, t: Table, reply: Replier, lands: Command -> bool)
    requires |probes| == |wans|
    ensures var r := RunWans(wans, probes, t, reply, lands);
      && r.table.Keys == t.Keys
      && forall c :: c in t && c !in Governed(wans) ==> r.table[c] == t[c]
    decreases |wans|
  {
    if wans != [] {
      var first := ProcessWan(wans[0], probes[0], t, reply, lands);
      ProcessWanSpec(wans[0], probes[0], t, reply, lands);
      CheckAndUpdateWanSpec(wans[0], probes[0], t, reply, lands);
      RunWansFrame(wans[1..], probes[1..], first.table, reply, lands);
    }
  }

  lemma RunWansUnfold(ws: seq<WanInterface>, ps: seq<ProbeOutcome>, t: Table, reply: Replier, lands: Command -> bool)
    requires |ps| == |ws| && ws != []
    ensures var first := ProcessWan(ws[0], ps[0], t, reply, lands);
      var rest := RunWans(ws[1..], ps[1..], first.table, reply, lands);
      RunWans(ws, ps, t, reply, lands) == Run(first.trace + rest.trace, rest.table)
  {
  }

  /** WAN isolation: running `a + b` runs all of `a` and then all of `b`
      from the state `a` left, whatever errors `a` met. */
  lemma {:induction false} RunWansAppend(a: seq<WanInterface>, b: seq<WanInterface>, pa: seq<ProbeOutcome>, pb: seq<ProbeOutcome>, t: Table, reply: Replier, lands: Command -> bool)
    requires |pa| == |a| && |pb| == |b|
    ensures var ra := RunWans(a, pa, t, reply, lands);
      var rb := RunWans(b, pb, ra.table, reply, lands);
      RunWans(a + b, pa + pb, t, reply, lands) == Run(ra.trace + rb.trace, rb.table)
    decreases |a|
  {
    if a == [] {
      assert a + b == b && pa + pb == pb;
    } else {
      var first := ProcessWan(a[0], pa[0], t, reply, lands);
      var ra' := RunWans(a[1..], pa[1..], first.table, reply, lands);
      var rb := RunWans(b, pb, ra'.table, reply, lands);
      assert RunWans(a, pa, t, reply, lands) == Run(first.trace + ra'.trace, ra'.table) by {
        RunWansUnfold(a, pa, t, reply, lands);
      }
      assert RunWans(a + b, pa + pb, t, reply, lands) == Run(first.trace + (ra'.trace + rb.trace), rb.table) by {
        ConsAppend(a, b);
        ConsAppend(pa, pb);
        RunWansUnfold(a + b, pa + pb, t, reply, lands);
        RunWansAppend(a[1..], b, pa[1..], pb, first.table, reply, lands);
      }
      ConcatAssoc(first.trace, ra'.trace, rb.trace);
    }
  }

  /** Whatever errors the WANs in `before` met, the next WAN is processed
      in full, from the router state they left. */
  lemma NextWanProcessed(before: seq<WanInterface>, w: WanInterface, pBefore: seq<ProbeOutcome>, p: ProbeOutcome,
                         t: Table, reply: Replier, lands: Command -> bool)
    requires |pBefore| == |before|
    ensures var r := RunWans(before, pBefore, t, reply, lands);
      var here := ProcessWan(w, p, r.table, reply, lands);
      RunWans(before + [w], pBefore + [p], t, reply, lands) == Run(r.trace + here.trace, here.table)
  {
    var r := RunWans(before, pBefore, t, reply, lands);
    var here := ProcessWan(w, p, r.table, reply, lands);
    assert RunWans([w], [p], r.table, reply, lands) == Run(here.trace, here.table) by {
      RunWansUnfold([w], [p], r.table, reply, lands);
      assert [w][1..] == [] && [p][1..] == [];
      AppendEmpty(here.trace);
    }
    RunWansAppend(before, [w], pBefore, [p], t, reply, lands);
  }

  /** How the session attempt ended. */
  datatype Connection = Connected | ConnectFailed(reason: string)

  /** What `main` returns, what it did and the router state it left. */
  datatype Exit = Exit(result: Result<string>, trace: seq<Event>, table: Table)

  /** `main`: without a session nothing is sent and the process fails; with
      one, every WAN is processed and the process succeeds whatever errors
      the WANs met. */
  function Main(conn: Connection, wans: seq<WanInterface>, probes: seq<ProbeOutcome>, t: Table, reply: Replier, lands: Command -> bool): (e: Exit)
    requires |probes| == |wans|
    ensures e.result.Ok? <==> conn.Connected?
    ensures conn.ConnectFailed? ==> Queries(e.trace) == [] && Writes(e.trace) == [] && e.table == t
    ensures conn.Connected? ==> e.table.Keys == t.Keys
  {
    match conn
    case ConnectFailed(reason) =>
      var trace := [Logged("Error connecting via SSH: " + reason)];
      assert trace[1..] == [];
      Exit(Err(reason), trace, t)
    case Connected =>
      var r := RunWans(wans, probes, t, reply, lands);
      RunWansFrame(wans, probes, t, reply, lands);
      Exit(Ok, r.trace, r.table)
  }
}
