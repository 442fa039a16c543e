/** One pass of `check_and_update_wan`: with one fresh verdict for a WAN,
    read each of its routes from the router in order and issue the writes
    the verdict calls for. */
module Reconciler {
  import opened Results
  import opened RouterProtocol
  import opened SeqFacts

  /** The router's route entries, by comment, as the `disabled` flag. */
  type Table = map<string, bool>

  /** The raw reply to a status query for a comment in the router's current
      state; `None` when opening the channel, running the command or reading
      the reply fails. */
  type Replier = (Table, string) -> Option<string>

  /** Something observable the pass does. `Sent(Query(c))` records that a
      status query for `c` was attempted. */
  datatype Event = Sent(command: Command) | Logged(line: string)

  /** Why a pass stopped. */
  datatype WanError = RouteStatusUnavailable(route: string)

  function Message(e: WanError): string {
    "Failed to get route status: " + e.route
  }

  /** What a pass returns, what it did, and the router state it left. */
  datatype Pass = Pass(result: Result<WanError>, trace: seq<Event>, table: Table)

  /** The comments of the status queries in a trace, in order. */
  function Queries(trace: seq<Event>): (qs: seq<string>)
    ensures |qs| <= |trace|
  {
    if trace == [] then []
    else
      var head := if trace[0].Sent? && trace[0].command.Query? then [trace[0].command.comment] else [];
      head + Queries(trace[1..])
  }

  /** The enable and disable commands in a trace, in order. */
  function Writes(trace: seq<Event>): (ws: seq<Command>)
    ensures forall i :: 0 <= i < |ws| ==> IsWrite(ws[i])
  {
    if trace == [] then []
    else
      var head := if trace[0].Sent? && IsWrite(trace[0].command) then [trace[0].command] else [];
      head + Writes(trace[1..])
  }

  lemma {:induction false} QueriesAppend(a: seq<Event>, b: seq<Event>)
    ensures Queries(a + b) == Queries(a) + Queries(b)
    decreases |a|
  {
    if a != [] {
      ConsAppend(a, b);
      QueriesAppend(a[1..], b);
    } else {
      AppendEmpty(b);
    }
  }

  lemma {:induction false} WritesAppend(a: seq<Event>, b: seq<Event>)
    ensures Writes(a + b) == Writes(a) + Writes(b)
    decreases |a|
  {
    if a != [] {
      ConsAppend(a, b);
      WritesAppend(a[1..], b);
    } else {
      AppendEmpty(b);
    }
  }

  /** The events of one visited route: its query, then possibly a log line
      and a write. */
  lemma VisitEvents(c: string, line: string, w: Command)
    requires IsWrite(w)
    ensures Queries([Sent(Query(c))]) == [c] && Writes([Sent(Query(c))]) == []
    ensures Queries([Sent(Query(c)), Logged(line), Sent(w)]) == [c]
    ensures Writes([Sent(Query(c)), Logged(line), Sent(w)]) == [w]
  {
    var e := [Sent(Query(c)), Logged(line), Sent(w)];
    assert e[1..][1..][1..] == [];
    assert Queries(e[1..][1..]) == [];
    assert Writes(e[1..][1..]) == [w];
    assert Queries(e[1..]) == [];
    assert Writes(e[1..]) == [w];
  }

  /** The router's effect of an enable (`enable == true`) or disable of the
      route with comment `c`, when the command reached it (`landed`). A
      comment that matches no route selects nothing. */
  function Apply(t: Table, c: string, enable: bool, landed: bool): (t': Table)
    ensures t'.Keys == t.Keys
    ensures landed && c in t ==> t'[c] == !enable
    ensures forall k :: k in t && k != c ==> t'[k] == t[k]
    ensures !landed ==> t' == t
  {
    if landed && c in t then t[c := !enable] else t
  }

  /** Every reply that parses tells the truth about the route. */
  ghost predicate Truthful(reply: Replier) {
    forall t: Table, c: string {:trigger reply(t, c)} ::
      c in t && ReadStatus(reply(t, c)).Some? ==> ReadStatus(reply(t, c)).value == !t[c]
  }

  /** Every write reaches the router. */
  ghost predicate AllLand(lands: Command -> bool) {
    forall w :: lands(w)
  }

  /** The body of the route loop for one route `c`: read it, and on success
      issue the write the verdict calls for. Up enables a disabled route and
      leaves an enabled one alone; down disables the route whatever its
      state. The WAN's `name` only appears in the log lines. */
  function Visit(name: string, isUp: bool, c: string, t: Table, reply: Replier, lands: Command -> bool): Pass {
    match ReadStatus(reply(t, c))
    case None =>
      Pass(Err(RouteStatusUnavailable(c)), [Sent(Query(c))], t)
    case Some(enabled) =>
      if isUp && !enabled then
        var w := SetRoute(c, true);
        Pass(Ok, [Sent(Query(c)), Logged(name + " Nuevamente activa"), Sent(w)], Apply(t, c, true, lands(w)))
      else if !isUp then
        var w := SetRoute(c, false);
        Pass(Ok, [Sent(Query(c)), Logged(name + " Caída"), Sent(w)], Apply(t, c, false, lands(w)))
      else
        Pass(Ok, [Sent(Query(c))], t)
  }

  /** One route: it is queried; a failed read is an error naming it, with
      no write and no change; otherwise at most one write, toward the
      verdict. Up writes only to a route read as disabled, down to every
      route read. On a truthful router that takes every write the route
      ends enabled exactly when the verdict is up. */
  lemma VisitSpec(name: string, isUp: bool, c: string, t: Table, reply: Replier, lands: Command -> bool)
    ensures var p := Visit(name, isUp, c, t, reply, lands);
      && Queries(p.trace) == [c]
      && (p.result.Err? <==> ReadStatus(reply(t, c)).None?)
      && (p.result.Err? ==> p.result.error == RouteStatusUnavailable(c) && Writes(p.trace) == [] && p.table == t)
      && (Writes(p.trace) == [] || Writes(p.trace) == [SetRoute(c, isUp)])
      && (isUp ==> (Writes(p.trace) != [] <==> ReadStatus(reply(t, c)) == Some(false)))
      && (!isUp ==> (Writes(p.trace) != [] <==> ReadStatus(reply(t, c)).Some?))
      && (p.table == t || (c in t && p.table == t[c := !isUp]))
      && (Truthful(reply) && AllLand(lands) && c in t && p.result.Ok? ==> p.table[c] == !isUp)
  {
    VisitEvents(c, name, SetRoute(c, isUp));
    VisitEvents(c, name + " Nuevamente activa", SetRoute(c, true));
    VisitEvents(c, name + " Caída", SetRoute(c, false));
  }

  /** Runs `next` after `first`, which succeeded. */
  function Then(first: Pass, next: Pass): Pass {
    Pass(next.result, first.trace + next.trace, next.table)
  }

  /** What a pass `p` of the route loop over `routes` from table `t`
      guarantees (`ReconcileSpec`). */
  ghost predicate PassContract(isUp: bool, routes: seq<string>, t: Table, p: Pass) {
    && |Queries(p.trace)| <= |routes| && Queries(p.trace) == routes[..|Queries(p.trace)|]
    && (p.result.Ok? ==> Queries(p.trace) == routes)
    && (p.result.Err? ==>
         && |Queries(p.trace)| > 0
         && p.result.error == RouteStatusUnavailable(routes[|Queries(p.trace)| - 1]))
    && (forall w :: w in Writes(p.trace) ==> w.comment in Queries(p.trace) && w == SetRoute(w.comment, isUp))
    && p.table.Keys == t.Keys
    && (forall k :: k in t && k !in routes ==> p.table[k] == t[k])
  }

  /** A successful visit of the first route followed by a pass over the
      others keeps the contract. */
  lemma ThenKeepsContract(isUp: bool, routes: seq<string>, t: Table, v: Pass, rest: Pass)
    requires routes != []
    requires v.result.Ok? && Queries(v.trace) == [routes[0]]
    requires Writes(v.trace) == [] || Writes(v.trace) == [SetRoute(routes[0], isUp)]
    requires v.table == t || (routes[0] in t && v.table == t[routes[0] := !isUp])
    requires PassContract(isUp, routes[1..], v.table, rest)
    ensures PassContract(isUp, routes, t, Then(v, rest))
  {
    var p := Then(v, rest);
    QueriesAppend(v.trace, rest.trace);
    WritesAppend(v.trace, rest.trace);
    assert routes == [routes[0]] + routes[1..];
    assert Queries(p.trace) == routes[..|Queries(p.trace)|];
  }

  /** The route loop of `check_and_update_wan` with verdict `isUp`: routes
      are visited in order and the first failed read ends the pass (the `?`
      on the read). */
  function Reconcile(name: string, isUp: bool, routes: seq<string>, t: Table, reply: Replier, lands: Command -> bool): Pass
    decreases |routes|
  {
    if routes == [] then Pass(Ok, [], t)
    else
      var v := Visit(name, isUp, routes[0], t, reply, lands);
      if v.result.Err? then v
      else Then(v, Reconcile(name, isUp, routes[1..], v.table, reply, lands))
  }

  /** Every pass keeps the route-loop contract: queries go to a prefix of
      the routes, all of them on success; writes go only to queried routes
      and only toward the verdict; routes of other WANs are untouched. */
  lemma {:induction false} ReconcileSpec(name: string, isUp: bool, routes: seq<string>, t: Table, reply: Replier, lands: Command -> bool)
    ensures PassContract(isUp, routes, t, Reconcile(name, isUp, routes, t, reply, lands))
    decreases |routes|
  {
    if routes != [] {
      var v := Visit(name, isUp, routes[0], t, reply, lands);
      VisitSpec(name, isUp, routes[0], t, reply, lands);
      if v.result.Ok? {
        var rest := Reconcile(name, isUp, routes[1..], v.table, reply, lands);
        ReconcileSpec(name, isUp, routes[1..], v.table, reply, lands);
        ThenKeepsContract(isUp, routes, t, v, rest);
      }
    }
  }

  /** A pass over `a + b` is the pass over `a` and, only if that succeeded,
      the pass over `b` from the state `a` left. */
  lemma {:induction false} ReconcileAppend(name: string, isUp: bool, a: seq<string>, b: seq<string>, t: Table, reply: Replier, lands: Command -> bool)
    ensures var pa := Reconcile(name, isUp, a, t, reply, lands);
      Reconcile(name, isUp, a + b, t, reply, lands) ==
        if pa.result.Err? then pa else Then(pa, Reconcile(name, isUp, b, pa.table, reply, lands))
    decreases |a|
  {
    if a == [] {
      AppendEmpty(b);
    } else {
      var v := Visit(name, isUp, a[0], t, reply, lands);
      var pa := Reconcile(name, isUp, a, t, reply, lands);
      var pab := Reconcile(name, isUp, a + b, t, reply, lands);
      assert pab == if v.result.Err? then v else Then(v, Reconcile(name, isUp, a[1..] + b, v.table, reply, lands)) by {
        ConsAppend(a, b);
        ReconcileUnfold(name, isUp, a + b, t, reply, lands);
      }
      assert pa == if v.result.Err? then v else Then(v, Reconcile(name, isUp, a[1..], v.table, reply, lands)) by {
        ReconcileUnfold(name, isUp, a, t, reply, lands);
      }
      if v.result.Ok? {
        ReconcileAppend(name, isUp, a[1..], b, v.table, reply, lands);
        var pa' := Reconcile(name, isUp, a[1..], v.table, reply, lands);
        if pa'.result.Ok? {
          var pb := Reconcile(name, isUp, b, pa'.table, reply, lands);
          ConcatAssoc(v.trace, pa'.trace, pb.trace);
        }
      }
    }
  }

  lemma FailedReadStops(name: string, isUp: bool, routes: seq<string>, t: Table, reply: Replier, lands: Command -> bool)
    requires routes != [] && ReadStatus(reply(t, routes[0])).None?
    ensures Reconcile(name, isUp, routes, t, reply, lands) == Pass(Err(RouteStatusUnavailable(routes[0])), [Sent(Query(routes[0]))], t)
  {
  }

  /** When the routes `done` before route `c` were read and handled and
      the read of `c` fails, the pass ends there with an error naming `c`:
      nothing more is written, and none of the `later` routes is even
      queried. */
  lemma ReadFailureAbortsWan(name: string, isUp: bool, done: seq<string>, c: string, later: seq<string>, t: Table, reply: Replier, lands: Command -> bool)
    requires Reconcile(name, isUp, done, t, reply, lands).result.Ok?
    requires ReadStatus(reply(Reconcile(name, isUp, done, t, reply, lands).table, c)).None?
    ensures var before := Reconcile(name, isUp, done, t, reply, lands);
      var p := Reconcile(name, isUp, done + [c] + later, t, reply, lands);
      && p.result == Err(RouteStatusUnavailable(c))
      && p.trace == before.trace + [Sent(Query(c))]
      && p.table == before.table
      && Writes(p.trace) == Writes(before.trace)
      && Queries(p.trace) == done + [c]
  {
    var before := Reconcile(name, isUp, done, t, reply, lands);
    ReconcileSpec(name, isUp, done, t, reply, lands);
    var stop := [Sent(Query(c))];
    FailedReadStops(name, isUp, [c] + later, before.table, reply, lands);
    assert done + [c] + later == done + ([c] + later);
    ReconcileAppend(name, isUp, done, [c] + later, t, reply, lands);
    WritesAppend(before.trace, stop);
    QueriesAppend(before.trace, stop);
    VisitEvents(c, name, Enable(c));
  }

  /** After a successful pass in which every write reached a truthful
      router, every route of the WAN is enabled exactly when the verdict is
      up. */
  lemma {:induction false} Converges(name: string, isUp: bool, routes: seq<string>, t: Table, reply: Replier, lands: Command -> bool)
    requires Truthful(reply) && AllLand(lands)
    requires forall c :: c in routes ==> c in t
    ensures var p := Reconcile(name, isUp, routes, t, reply, lands);
      p.result.Ok? ==> forall c :: c in routes ==> c in p.table && p.table[c] == !isUp
    decreases |routes|
  {
    if routes != [] {
      var v := Visit(name, isUp, routes[0], t, reply, lands);
      VisitSpec(name, isUp, routes[0], t, reply, lands);
      if v.result.Ok? {
        Converges(name, isUp, routes[1..], v.table, reply, lands);
        var rest := Reconcile(name, isUp, routes[1..], v.table, reply, lands);
        ReconcileSpec(name, isUp, routes[1..], v.table, reply, lands);
        forall c | c in routes
          ensures rest.result.Ok? ==> c in rest.table && rest.table[c] == !isUp
        {
          if c !in routes[1..] {
            assert c == routes[0];
          }
        }
      }
    }
  }

  /** An up pass over routes a truthful router reports enabled writes
      nothing and changes nothing. */
  lemma {:induction false} UpPassOnEnabledIsQuiet(name: string, routes: seq<string>, t: Table, reply: Replier, lands: Command -> bool)
    requires Truthful(reply)
    requires forall c :: c in routes ==> c in t && !t[c]
    ensures var p := Reconcile(name, true, routes, t, reply, lands);
      Writes(p.trace) == [] && p.table == t
    decreases |routes|
  {
    if routes != [] {
      var v := Visit(name, true, routes[0], t, reply, lands);
      if v.result.Ok? {
        assert v.table == t;
        UpPassOnEnabledIsQuiet(name, routes[1..], t, reply, lands);
        var rest := Reconcile(name, true, routes[1..], t, reply, lands);
        WritesAppend(v.trace, rest.trace);
      }
    }
  }

  /** Idempotence: right after a successful up pass that took effect, a
      second up pass issues no write and leaves the router as it was. */
  lemma SecondUpPassIsQuiet(name: string, routes: seq<string>, t: Table, reply: Replier, lands: Command -> bool)
    requires Truthful(reply) && AllLand(lands)
    requires forall c :: c in routes ==> c in t
    requires Reconcile(name, true, routes, t, reply, lands).result.Ok?
    ensures var first := Reconcile(name, true, routes, t, reply, lands);
      var second := Reconcile(name, true, routes, first.table, reply, lands);
      Writes(second.trace) == [] && second.table == first.table
  {
    Converges(name, true, routes, t, reply, lands);
    var first := Reconcile(name, true, routes, t, reply, lands);
    UpPassOnEnabledIsQuiet(name, routes, first.table, reply, lands);
  }

  /** One disable command per comment, in order. */
  function DisableAll(comments: seq<string>): (ws: seq<Command>)
    ensures |ws| == |comments|
    ensures forall i :: 0 <= i < |ws| ==> ws[i] == Disable(comments[i])
  {
    if comments == [] then [] else [Disable(comments[0])] + DisableAll(comments[1..])
  }

  /** The routes whose read succeeded: all queried ones, but the last when
      the pass failed. */
  function ReadOk(p: Pass): seq<string> {
    var qs := Queries(p.trace);
    if p.result.Err? && qs != [] then qs[..|qs| - 1] else qs
  }

  lemma ReadOkThen(c: string, v: Pass, rest: Pass)
    requires v.result.Ok? && Queries(v.trace) == [c]
    requires rest.result.Err? ==> Queries(rest.trace) != []
    ensures ReadOk(Then(v, rest)) == [c] + ReadOk(rest)
  {
    QueriesAppend(v.trace, rest.trace);
    if rest.result.Err? {
      DropLastCons(c, Queries(rest.trace));
    }
  }

  lemma DisableAllCons(c: string, comments: seq<string>)
    ensures DisableAll([c] + comments) == [Disable(c)] + DisableAll(comments)
  {
    assert ([c] + comments)[1..] == comments;
  }

  /** Down always writes: a down pass disables, in order, every route it
      read successfully, whatever state the route was in. */
  lemma {:induction false} DownDisablesEveryReadRoute(name: string, routes: seq<string>, t: Table, reply: Replier, lands: Command -> bool)
    ensures var p := Reconcile(name, false, routes, t, reply, lands);
      Writes(p.trace) == DisableAll(ReadOk(p))
    decreases |routes|
  {
    var p := Reconcile(name, false, routes, t, reply, lands);
    if routes != [] {
      var v := Visit(name, false, routes[0], t, reply, lands);
      var rest := Reconcile(name, false, routes[1..], v.table, reply, lands);
      assert p == if v.result.Err? then v else Then(v, rest) by {
        ReconcileUnfold(name, false, routes, t, reply, lands);
      }
      VisitSpec(name, false, routes[0], t, reply, lands);
      if v.result.Ok? {
        DownDisablesEveryReadRoute(name, routes[1..], v.table, reply, lands);
        ReconcileSpec(name, false, routes[1..], v.table, reply, lands);
        assert Writes(p.trace) == [Disable(routes[0])] + Writes(rest.trace) by {
          WritesAppend(v.trace, rest.trace);
        }
        ReadOkThen(routes[0], v, rest);
        DisableAllCons(routes[0], ReadOk(rest));
      }
    }
  }

  /** A down pass over routes that are all disabled already leaves the
      router as it was, even though it writes to each route it reads. */
  lemma {:induction false} DownOnDisabledKeepsTable(name: string, routes: seq<string>, t: Table, reply: Replier, lands: Command -> bool)
    requires forall c :: c in routes ==> c in t && t[c]
    ensures Reconcile(name, false, routes, t, reply, lands).table == t
    decreases |routes|
  {
    if routes != [] {
      var v := Visit(name, false, routes[0], t, reply, lands);
      assert v.table == t;
      if v.result.Ok? {
        DownOnDisabledKeepsTable(name, routes[1..], t, reply, lands);
      }
    }
  }

  /** Every status query about an existing route gets a flag back. */
  ghost predicate Answers(reply: Replier) {
    forall t: Table, c: string {:trigger reply(t, c)} :: c in t ==> ReadStatus(reply(t, c)).Some?
  }

  lemma ReconcileUnfold(name: string, isUp: bool, routes: seq<string>, t: Table, reply: Replier, lands: Command -> bool)
    requires routes != []
    ensures var v := Visit(name, isUp, routes[0], t, reply, lands);
      Reconcile(name, isUp, routes, t, reply, lands) ==
        if v.result.Err? then v else Then(v, Reconcile(name, isUp, routes[1..], v.table, reply, lands))
  {
  }

  lemma SingleRoutePass(name: string, isUp: bool, c: string, t: Table, reply: Replier, lands: Command -> bool)
    ensures Reconcile(name, isUp, [c], t, reply, lands) == Visit(name, isUp, c, t, reply, lands)
  {
    var v := Visit(name, isUp, c, t, reply, lands);
    ReconcileUnfold(name, isUp, [c], t, reply, lands);
    assert [c][1..] == [];
    if v.result.Ok? {
      assert v.trace + [] == v.trace;
    }
  }

  /** The decision for one route of a router that answers truthfully and
      takes every write: up enables a disabled route and leaves an enabled
      one alone; down disables the route whether or not it already is. In
      every case the route ends enabled exactly when the verdict is up. */
  lemma DecisionTable(name: string, isUp: bool, c: string, t: Table, reply: Replier, lands: Command -> bool)
    requires Truthful(reply) && Answers(reply) && AllLand(lands)
    requires c in t
    ensures var v := Visit(name, isUp, c, t, reply, lands);
      && v.result.Ok?
      && v.table == t[c := !isUp]
      && Writes(v.trace) == (if isUp then (if t[c] then [Enable(c)] else []) else [Disable(c)])
  {
    var v := Visit(name, isUp, c, t, reply, lands);
    VisitSpec(name, isUp, c, t, reply, lands);
    assert ReadStatus(reply(t, c)) == Some(!t[c]);
    if t[c] == !isUp {
      assert t[c := !isUp] == t;
    }
  }

  lemma RestoreEntry<K, V>(m: map<K, V>, k: K, v: V)
    requires k in m
    ensures m[k := v][k := m[k]] == m
  {
  }

  /** A flap of one enabled route, with verdicts up, down, up against a
      router that answers truthfully and takes every write: the first pass
      writes nothing, the second disables the route, the third enables it
      again, and the router ends where it started. */
  lemma UpDownUpWritesTwice(name: string, c: string, t: Table, reply: Replier, lands: Command -> bool)
    requires Truthful(reply) && Answers(reply) && AllLand(lands)
    requires c in t && !t[c]
    ensures var p1 := Reconcile(name, true, [c], t, reply, lands);
      var p2 := Reconcile(name, false, [c], p1.table, reply, lands);
      var p3 := Reconcile(name, true, [c], p2.table, reply, lands);
      && Writes(p1.trace) == []
      && Writes(p2.trace) == [Disable(c)]
      && Writes(p3.trace) == [Enable(c)]
      && p3.table == t
  {
    var p1 := Reconcile(name, true, [c], t, reply, lands);
    assert Writes(p1.trace) == [] && p1.table == t by {
      SingleRoutePass(name, true, c, t, reply, lands);
      DecisionTable(name, true, c, t, reply, lands);
    }
    var p2 := Reconcile(name, false, [c], t, reply, lands);
    assert Writes(p2.trace) == [Disable(c)] && p2.table == t[c := true] by {
      SingleRoutePass(name, false, c, t, reply, lands);
      DecisionTable(name, false, c, t, reply, lands);
    }
    var t2 := t[c := true];
    var p3 := Reconcile(name, true, [c], t2, reply, lands);
    assert Writes(p3.trace) == [Enable(c)] && p3.table == t2[c := false] by {
      SingleRoutePass(name, true, c, t2, reply, lands);
      DecisionTable(name, true, c, t2, reply, lands);
    }
    RestoreEntry(t, c, true);
  }
}
