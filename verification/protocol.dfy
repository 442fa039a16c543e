/** The RouterOS command language as the failover daemon speaks it: three
    command templates that locate a route by its comment, and the textual
    reply to a status query. */
module RouterProtocol {
  import opened Results
  import opened Text
  import opened SeqFacts

  /** A command sent to the router. Every command selects the route entry
      whose `comment` equals the given one. */
  datatype Command =
    | Query(comment: string)     // print the route's `disabled` flag
    | Enable(comment: string)
    | Disable(comment: string)

  predicate IsWrite(c: Command) {
    c.Enable? || c.Disable?
  }

  /** The write `set_status_route` chooses for a wanted enablement. */
  function SetRoute(comment: string, enable: bool): (c: Command)
    ensures IsWrite(c) && c.comment == comment
    ensures c.Enable? <==> enable
  {
    if enable then Enable(comment) else Disable(comment)
  }

  /** The fixed text around the comment. Every command locates the route
      with the selector `[find where comment="…"]`. */
  const RouteMenu: string := "/ip route "
  const FindOpen: string := " [find where comment=\""
  const WriteTail: string := "\"]"
  const EnableHead: string := RouteMenu + "enable" + FindOpen
  const DisableHead: string := RouteMenu + "disable" + FindOpen
  const QueryHead: string := ":put [/ip route get" + FindOpen
  const QueryTail: string := WriteTail + " disabled]"

  /** The command text handed to the router; the label is spliced in
      verbatim, without any escaping. */
  function Render(c: Command): string {
    match c
    case Enable(l) => EnableHead + l + WriteTail
    case Disable(l) => DisableHead + l + WriteTail
    case Query(l) => QueryHead + l + QueryTail
  }

  /** `s` is `head`, then anything, then `tail`. */
  predicate Framed(s: string, head: string, tail: string) {
    && |head| + |tail| <= |s|
    && s[..|head|] == head
    && s[|s| - |tail|..] == tail
  }

  function Inner(s: string, head: string, tail: string): string
    requires Framed(s, head, tail)
  {
    s[|head|..|s| - |tail|]
  }

  /** Recovers the command from its text; `None` for any text that is not
      one of the three templates. */
  function Decode(s: string): Option<Command> {
    if Framed(s, EnableHead, WriteTail) then Some(Enable(Inner(s, EnableHead, WriteTail)))
    else if Framed(s, DisableHead, WriteTail) then Some(Disable(Inner(s, DisableHead, WriteTail)))
    else if Framed(s, QueryHead, QueryTail) then Some(Query(Inner(s, QueryHead, QueryTail)))
    else None
  }

  lemma FramedConcat(head: string, l: string, tail: string)
    ensures Framed(head + l + tail, head, tail)
    ensures Inner(head + l + tail, head, tail) == l
  {
    var s := head + l + tail;
    assert s[..|head|] == head;
    assert s[|s| - |tail|..] == tail;
    assert s[|head|..|s| - |tail|] == l;
  }

  lemma Unframed(s: string, head: string, tail: string)
    requires Framed(s, head, tail)
    ensures head + Inner(s, head, tail) + tail == s
  {
    assert s == s[..|head|] + s[|head|..|s| - |tail|] + s[|s| - |tail|..];
  }

  /** Every command is recovered from its text: the encoding loses nothing,
      whatever characters the label holds. */
  lemma DecodeRender(c: Command)
    ensures Decode(Render(c)) == Some(c)
  {
    var s := Render(c);
    match c
    case Enable(l) =>
      FramedConcat(EnableHead, l, WriteTail);
    case Disable(l) =>
      assert s[10] == 'd' && EnableHead[10] == 'e';
      assert !Framed(s, EnableHead, WriteTail);
      FramedConcat(DisableHead, l, WriteTail);
    case Query(l) =>
      assert s[0] == ':';
      assert s[..|EnableHead|][0] == ':' && EnableHead[0] == '/';
      assert s[..|DisableHead|][0] == ':' && DisableHead[0] == '/';
      FramedConcat(QueryHead, l, QueryTail);
  }

  /** Every text the decoder accepts is the rendering of what it returns. */
  lemma RenderDecode(text: string)
    ensures Decode(text).Some? ==> Render(Decode(text).value) == text
  {
    if Framed(text, EnableHead, WriteTail) {
      Unframed(text, EnableHead, WriteTail);
    } else if Framed(text, DisableHead, WriteTail) {
      Unframed(text, DisableHead, WriteTail);
    } else if Framed(text, QueryHead, QueryTail) {
      Unframed(text, QueryHead, QueryTail);
    }
  }

  /** Distinct commands have distinct texts. */
  lemma RenderInjective(c: Command, d: Command)
    ensures Render(c) == Render(d) ==> c == d
  {
    DecodeRender(c);
    DecodeRender(d);
  }

  /** The enable command is the route menu, the verb, and the selector
      `[find where comment="…"]` that locates the route. */
  lemma EnableLayout(comment: string)
    ensures Render(Enable(comment)) == RouteMenu + "enable" + (FindOpen + comment + WriteTail)
  {
    ConcatAssoc(RouteMenu + "enable", FindOpen, comment);
    ConcatAssoc(RouteMenu + "enable", FindOpen + comment, WriteTail);
  }

  /** Enable and disable differ only in the verb: the disable command is
      the enable command with `enable`, at offsets 10 to 16, replaced by
      `disable`. */
  lemma WritesDifferInVerb(comment: string)
    ensures var e := Render(Enable(comment));
      && e[10..16] == "enable"
      && Render(Disable(comment)) == e[..10] + "disable" + e[16..]
  {
    EnableLayout(comment);
    ConcatAssoc(RouteMenu + "disable", FindOpen, comment);
    ConcatAssoc(RouteMenu + "disable", FindOpen + comment, WriteTail);
  }

  /** The query prints the `disabled` property of the route that the
      enable command's selector finds. */
  lemma QueryUsesWriteSelector(comment: string)
    ensures var e := Render(Enable(comment));
      Render(Query(comment)) == ":put [/ip route get" + e[16..] + " disabled]"
  {
    EnableLayout(comment);
    ConcatAssoc(":put [/ip route get", FindOpen, comment);
    ConcatAssoc(":put [/ip route get", FindOpen + comment, WriteTail);
    ConcatAssoc(":put [/ip route get" + FindOpen + comment, WriteTail, " disabled]");
  }

  /** How the router prints a route's `disabled` flag. */
  function DisabledFlag(disabled: bool): string {
    if disabled then "true" else "false"
  }

  /** `get_status_route`'s reading of the reply text: `Some(enabled)`. The
      router prints the `disabled` flag, so `true` means disabled. */
  function ParseStatus(reply: string): Option<bool> {
    var trimmed := Trim(reply);
    if trimmed == "true" then Some(false)
    else if trimmed == "false" then Some(true)
    else None
  }

  /** The outcome of a status query: `None` when the channel could not be
      opened, the command could not be run or the reply could not be read
      (modelled as `raw == None`), or when the reply is not a flag. */
  function ReadStatus(raw: Option<string>): (r: Option<bool>)
    ensures raw.None? ==> r.None?
  {
    match raw
    case None => None
    case Some(reply) => ParseStatus(reply)
  }

  /** `s` is `token` surrounded by whitespace only (possibly none). */
  ghost predicate Padded(s: string, token: string) {
    exists p, q :: AllWhiteSpace(p) && AllWhiteSpace(q) && s == p + token + q
  }

  /** A status query yields `Some(enabled)` exactly when the reply was read
      and is the flag text for `!enabled` with only whitespace around it;
      any I/O failure yields `None`. */
  lemma ReadStatusSpec(raw: Option<string>, enabled: bool)
    ensures ReadStatus(raw) == Some(enabled) <==> raw.Some? && Padded(raw.value, DisabledFlag(!enabled))
  {
    if raw.Some? {
      ParseStatusSpec(raw.value, enabled);
    }
  }

  /** A reply the parser accepts is the flag text with whitespace around it. */
  lemma ParsedIsPadded(reply: string, enabled: bool)
    requires ParseStatus(reply) == Some(enabled)
    ensures Padded(reply, DisabledFlag(!enabled))
  {
    var token := Trim(reply);
    TrimSpec(reply);
    var i := |reply| - |TrimStart(reply)|;
    Split3(reply, i, i + |token|);
    var p, q := reply[..i], reply[i + |token|..];
    assert AllWhiteSpace(p) && AllWhiteSpace(q) && reply == p + DisabledFlag(!enabled) + q;
  }

  /** The parser accepts exactly the padded flag texts, and reads the flag
      inverted into an enablement. */
  lemma ParseStatusSpec(reply: string, enabled: bool)
    ensures ParseStatus(reply) == Some(enabled) <==> Padded(reply, DisabledFlag(!enabled))
  {
    if ParseStatus(reply) == Some(enabled) {
      ParsedIsPadded(reply, enabled);
    }
    if Padded(reply, DisabledFlag(!enabled)) {
      var p, q :| AllWhiteSpace(p) && AllWhiteSpace(q) && reply == p + DisabledFlag(!enabled) + q;
      ParseRouterReply(!enabled, p, q);
    }
  }

  /** Everything that is not a padded flag, the empty reply and
      whitespace-only replies included, is rejected. */
  lemma ParseStatusRejects(reply: string)
    ensures ParseStatus(reply).None? <==> !Padded(reply, "true") && !Padded(reply, "false")
  {
    ParseStatusSpec(reply, true);
    ParseStatusSpec(reply, false);
  }

  /** The reply the router gives for a route, with whatever line ending or
      blank padding, parses to that route's enablement. */
  lemma ParseRouterReply(disabled: bool, p: string, q: string)
    requires AllWhiteSpace(p) && AllWhiteSpace(q)
    ensures ParseStatus(p + DisabledFlag(disabled) + q) == Some(!disabled)
  {
    assert Bare(DisabledFlag(disabled));
    TrimPadded(p, DisabledFlag(disabled), q);
  }
}
