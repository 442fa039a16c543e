/** Worked scenarios against a router that prints each route's `disabled`
    flag followed by a line break, as RouterOS's `:put` does. */
module Scenarios {
  import opened Results
  import opened Text
  import opened RouterProtocol
  import opened Reconciler
  import opened SeqFacts

  /** RouterOS's reply to a status query; a comment that matches no route
      gives an empty reply. */
  function RouterOsReply(t: Table, c: string): Option<string> {
    if c in t then Some(DisabledFlag(t[c]) + "\r\n") else Some("")
  }

  lemma RouterOsReplyReads(t: Table, c: string)
    requires c in t
    ensures ReadStatus(RouterOsReply(t, c)) == Some(!t[c])
  {
    assert AllWhiteSpace("\r\n");
    ParseRouterReply(t[c], [], "\r\n");
    assert [] + DisabledFlag(t[c]) + "\r\n" == DisabledFlag(t[c]) + "\r\n";
  }

  /** The RouterOS reply is truthful and always answers. */
  lemma RouterOsReplyIsTruthful()
    ensures Truthful(RouterOsReply) && Answers(RouterOsReply)
  {
    forall t: Table, c: string | c in t
      ensures ReadStatus(RouterOsReply(t, c)) == Some(!t[c])
    {
      RouterOsReplyReads(t, c);
    }
  }

  lemma BothDisabled()
    ensures map["R1" := false, "R2" := false]["R1" := true]["R2" := true] == map["R1" := true, "R2" := true]
  {
  }

  /** Two enabled routes of a WAN that is down: the pass reads both,
      disables both, and succeeds. */
  lemma DownWanWithTwoEnabledRoutes(lands: Command -> bool)
    requires AllLand(lands)
    ensures var t := map["R1" := false, "R2" := false];
      var p := Reconcile("WAN 3", false, ["R1", "R2"], t, RouterOsReply, lands);
      && p.result == Ok
      && Queries(p.trace) == ["R1", "R2"]
      && Writes(p.trace) == [Disable("R1"), Disable("R2")]
      && p.table == map["R1" := true, "R2" := true]
  {
    var t := map["R1" := false, "R2" := false];
    var routes := ["R1", "R2"];
    RouterOsReplyIsTruthful();
    var v := Visit("WAN 3", false, "R1", t, RouterOsReply, lands);
    var t1 := t["R1" := true];
    assert v.result.Ok? && v.table == t1 && Writes(v.trace) == [Disable("R1")] && Queries(v.trace) == ["R1"] by {
      DecisionTable("WAN 3", false, "R1", t, RouterOsReply, lands);
      VisitSpec("WAN 3", false, "R1", t, RouterOsReply, lands);
    }
    var w := Visit("WAN 3", false, "R2", t1, RouterOsReply, lands);
    assert w.result.Ok? && w.table == t1["R2" := true] && Writes(w.trace) == [Disable("R2")] && Queries(w.trace) == ["R2"] by {
      DecisionTable("WAN 3", false, "R2", t1, RouterOsReply, lands);
      VisitSpec("WAN 3", false, "R2", t1, RouterOsReply, lands);
    }
    assert Reconcile("WAN 3", false, routes[1..], t1, RouterOsReply, lands) == w by {
      assert routes[1..] == ["R2"];
      SingleRoutePass("WAN 3", false, "R2", t1, RouterOsReply, lands);
    }
    var p := Reconcile("WAN 3", false, routes, t, RouterOsReply, lands);
    assert p == Then(v, w) by {
      ReconcileUnfold("WAN 3", false, routes, t, RouterOsReply, lands);
    }
    WritesAppend(v.trace, w.trace);
    QueriesAppend(v.trace, w.trace);
    Pair(Disable("R1"), Disable("R2"));
    Pair("R1", "R2");
    BothDisabled();
  }

  /** An up WAN whose only route answers with something that is not a flag:
      the pass fails naming the route and writes nothing. */
  lemma UpWanWithUnreadableRoute(t: Table, lands: Command -> bool)
    ensures var reply := (u: Table, c: string) => Some("no such item");
      var p := Reconcile("WAN 1", true, ["R1"], t, reply, lands);
      && p.result == Err(RouteStatusUnavailable("R1"))
      && Writes(p.trace) == []
      && p.table == t
  {
    var reply := (u: Table, c: string) => Some("no such item");
    var s := "no such item";
    assert s[0] == 'n' && s[|s| - 1] == 'm';
    assert Trim(s) == s by {
      TrimPadded([], s, []);
      assert [] + s + [] == s;
    }
    assert ParseStatus(s) == None;
    SingleRoutePass("WAN 1", true, "R1", t, reply, lands);
  }
}
