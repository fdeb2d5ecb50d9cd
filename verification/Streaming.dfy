// The three consumers of a job's token stream: the chat generator, the chat collector
// and the raw passthrough generator.

module Streaming {

  import opened Common
  import opened ToolCalls

  /** What `subscribe_tokens` yields, or how it fails. An absent text field is "". */
  datatype Event =
    | Delta(content: string, reasoning: string, tools: seq<Fragment>)
    | LegacyReasoning(text: string)
    | LegacyText(text: string)
    | Done(text: string, thoughts: string, calls: seq<Call>, usage: bool)
    | Failure(message: string, code: int)
    | Raise

  predicate Last(e: Event)
  {
    e.Done? || e.Failure? || e.Raise?
  }

  /** The output the grid has seen so far. */
  datatype Totals = Totals(content: string, reasoning: string, tools: Calls)

  const NOTHING := Totals("", "", map[])

  // What one event adds to each of the three.

  function ContentOf(e: Event): string
  {
    match e
    case Delta(content, _, _) => content
    case LegacyText(text) => text
    case _ => ""
  }

  function ReasoningOf(e: Event): string
  {
    match e
    case Delta(_, reasoning, _) => reasoning
    case LegacyReasoning(text) => text
    case _ => ""
  }

  function ToolsOf(e: Event): seq<Fragment>
  {
    if e.Delta? then e.tools else []
  }

  /** All of it in order: the texts put together, the fragments merged. */
  function Seen(es: seq<Event>): Totals
  {
    Totals(Flat(es, ContentOf), Flat(es, ReasoningOf), Merge(map[], Flat(es, ToolsOf)))
  }

  /** One event more. */
  lemma {:induction false} SeenNext(es: seq<Event>, content: string, reasoning: string, tools: seq<Fragment>, text: string)
    ensures Seen(es + [Delta(content, reasoning, tools)]) ==
            Totals(Seen(es).content + content, Seen(es).reasoning + reasoning, Merge(Seen(es).tools, tools))
    ensures Seen(es + [LegacyReasoning(text)]) == Seen(es).(reasoning := Seen(es).reasoning + text)
    ensures Seen(es + [LegacyText(text)]) == Seen(es).(content := Seen(es).content + text)
  {
    var was := Seen(es);
    assert Seen(es + [Delta(content, reasoning, tools)]) ==
           Totals(was.content + content, was.reasoning + reasoning, Merge(was.tools, tools)) by {
      AddOne(es, Delta(content, reasoning, tools));
    }
    assert Seen(es + [LegacyReasoning(text)]) == was.(reasoning := was.reasoning + text) by {
      AddOne(es, LegacyReasoning(text));
      assert was.content + "" == was.content;
    }
    assert Seen(es + [LegacyText(text)]) == was.(content := was.content + text) by {
      AddOne(es, LegacyText(text));
      assert was.reasoning + "" == was.reasoning;
    }
  }

  lemma {:induction false} AddOne(es: seq<Event>, e: Event)
    ensures Seen(es + [e]) ==
            Totals(Seen(es).content + ContentOf(e), Seen(es).reasoning + ReasoningOf(e), Merge(Seen(es).tools, ToolsOf(e)))
  {
    FlatNext(es, e, ContentOf);
    FlatNext(es, e, ReasoningOf);
    FlatNext(es, e, ToolsOf);
    MergeAppend(map[], Flat(es, ToolsOf), ToolsOf(e));
  }

  /** How many events come before the first terminal one. */
  function Body(es: seq<Event>): (n: nat)
    ensures n <= |es|
    ensures forall i :: 0 <= i < n ==> !Last(es[i])
    ensures n < |es| ==> Last(es[n])
  {
    if es == [] || Last(es[0]) then 0 else 1 + Body(es[1..])
  }

  // ---- the chat generator ------------------------------------------------------------

  /** A relayed chunk carries the fields of its event; the older events give one of them. */
  datatype Chunk = Role | Part(content: string, reasoning: string, tools: seq<Fragment>)
                 | Problem(message: string, invalid: bool) | Finish | Usage | Mark

  /** Everything a consumer does besides sending chunks. */
  datatype Effects = Effects(cancels: nat, observed: seq<nat>, releases: nat)

  /** The chunk carries exactly what the event said. */
  ghost predicate Carries(c: Chunk, e: Event)
  {
    match e
    case Delta(content, reasoning, tools) => c == Part(content, reasoning, tools)
    case LegacyReasoning(text) => c == Part("", text, [])
    case LegacyText(text) => c == Part(text, "", [])
    case _ => false
  }

  function Relay(e: Event): Chunk
  {
    Part(ContentOf(e), ReasoningOf(e), ToolsOf(e))
  }

  function Relays(es: seq<Event>): (cs: seq<Chunk>)
    ensures |cs| == |es|
  {
    seq(|es|, i requires 0 <= i < |es| => Relay(es[i]))
  }

  /** What follows the relayed events. `extra` says whether a usage chunk is due even if
      the worker sent no usage. */
  function Tail(e: Option<Event>, extra: bool): seq<Chunk>
  {
    match e
    case Some(Failure(m, code)) => [Problem(m, code == 400), Mark]
    case Some(Done(_, _, _, usage)) => if usage || extra then [Finish, Usage, Mark] else [Finish, Mark]
    case Some(Raise) => []
    case _ => [Mark]
  }

  function Ending(es: seq<Event>): Option<Event>
  {
    if Body(es) < |es| then Some(es[Body(es)]) else None
  }

  /** The chunks of an undisturbed stream. */
  function Script(es: seq<Event>, extra: bool): seq<Chunk>
  {
    [Role] + Relays(es[..Body(es)]) + Tail(Ending(es), extra)
  }

  /** How many chunks a client must have read for its leaving to be no disconnect. */
  function Safe(es: seq<Event>, extra: bool): nat
  {
    var n := 1 + Body(es);
    match Ending(es)
    case Some(Done(_, _, _, usage)) => if usage || extra then n + 2 else n + 1
    case _ => n
  }

  /** The first `m` chunks, or all of them. */
  function FirstOf(cs: seq<Chunk>, m: nat): seq<Chunk>
  {
    if m < |cs| then cs[..m] else cs
  }

  /** The block for the end-of-stream event. `over` means the generator is being closed
      at one of these chunks, or has returned. */
  method SendEnd(e: Event, extra: bool, patience: nat, sent0: seq<Chunk>)
    returns (sent: seq<Chunk>, over: bool, terminal: bool)
    requires e.Done? || e.Failure?
    requires |sent0| <= patience
    ensures !over ==> e.Done? && |sent| <= patience && sent + [Mark] == sent0 + Tail(Some(e), extra)
    ensures over ==> sent == FirstOf(sent0 + Tail(Some(e), extra), patience + 1)
    ensures over && e.Done? ==> patience < |sent0| + |Tail(Some(e), extra)| - 1
    ensures terminal <==> e.Failure?
  {
    if e.Failure? {
      sent := sent0 + [Problem(e.message, e.code == 400)];
      assert sent0 + Tail(Some(e), extra) == sent + [Mark];
      if patience < |sent| {
        return sent, true, true;
      }
      return sent + [Mark], true, true;
    }
    sent := sent0 + [Finish];
    if patience < |sent| {
      assert (sent0 + Tail(Some(e), extra))[..|sent|] == sent;
      return sent, true, false;
    }
    if e.usage || extra {
      sent := sent + [Usage];
      if patience < |sent| {
        assert (sent0 + Tail(Some(e), extra))[..|sent|] == sent;
        return sent, true, false;
      }
    }
    assert sent + [Mark] == sent0 + Tail(Some(e), extra);
    return sent, false, false;
  }

  /** One event is added up and turned into its chunk. */
  method RelayOne(ghost before: seq<Event>, seen: Totals, e: Event) returns (next: Totals, chunk: Chunk)
    requires seen == Seen(before) && !Last(e)
    ensures next == Seen(before + [e]) && chunk == Relay(e) && Carries(chunk, e)
  {
    match e
    case Delta(content, reasoning, tools) =>
      SeenNext(before, content, reasoning, tools, "");
      var acc := MergeToolCallDeltas(seen.tools, tools);
      next := Totals(seen.content + content, seen.reasoning + reasoning, acc);
      chunk := Part(content, reasoning, tools);
    case LegacyReasoning(text) =>
      SeenNext(before, "", "", [], text);
      next, chunk := seen.(reasoning := seen.reasoning + text), Part("", text, []);
    case LegacyText(text) =>
      SeenNext(before, "", "", [], text);
      next, chunk := seen.(content := seen.content + text), Part(text, "", []);
  }

  /** The loop over the events before the end of the stream. `over` means the client left
      while the last of these chunks was being sent. */
  method RelayEvents(es: seq<Event>, patience: nat)
    returns (sent: seq<Chunk>, seen: Totals, k: nat, over: bool)
    requires patience > 0
    ensures k == (if patience <= Body(es) then patience else Body(es))
    ensures over <==> patience <= Body(es)
    ensures seen == Seen(es[..k])
    ensures sent == [Role] + Relays(es[..k]) && |sent| == k + 1
  {
    sent, seen, k, over := [Role], NOTHING, 0, false;
    while k < |es| && !over && !Last(es[k])
      invariant 0 <= k <= Body(es)
      invariant seen == Seen(es[..k])
      invariant sent == [Role] + Relays(es[..k]) && |sent| == k + 1
      invariant if over then k == patience else k < patience
    {
      assert es[..k + 1] == es[..k] + [es[k]];
      var chunk;
      seen, chunk := RelayOne(es[..k], seen, es[k]);
      sent := sent + [chunk];
      assert Relays(es[..k + 1]) == Relays(es[..k]) + [chunk];
      k := k + 1;
      over := patience < |sent|;
    }
  }

  lemma FirstOfPrefix(head: seq<Chunk>, tail: seq<Chunk>, m: nat)
    requires m <= |head| && (m < |head| || tail != [])
    ensures FirstOf(head + tail, m) == head[..m]
  {
  }

  /** The script when the client leaves among the relayed events. */
  lemma LeftEarly(es: seq<Event>, extra: bool, k: nat)
    requires k <= Body(es)
    ensures |Relays(es[..k])| == k
    ensures k < Body(es) || Tail(Ending(es), extra) != [] ==> FirstOf(Script(es, extra), k + 1) == [Role] + Relays(es[..k])
  {
    var n := Body(es);
    var all, some := Relays(es[..n]), Relays(es[..k]);
    assert some == all[..k];
    var head, tail := [Role] + all, Tail(Ending(es), extra);
    if k < n || tail != [] {
      FirstOfPrefix(head, tail, k + 1);
      assert head[..k + 1] == [Role] + all[..k];
    }
  }

  function Smaller(a: nat, b: nat): nat
  {
    if a < b then a else b
  }

  /** Chunk by chunk: the role, one chunk for each event up to the first terminal one, and the closing chunks
      that one calls for, as far as the client read. */
  ghost predicate Sends(sent: seq<Chunk>, es: seq<Event>, extra: bool, patience: nat)
  {
    var n := Body(es);
    && sent != [] && sent[0] == Role
    && (forall i :: 0 <= i < n && i + 1 < |sent| ==> Carries(sent[i + 1], es[i]))
    && match Ending(es)
       case None => |sent| == Smaller(patience, n + 1) + 1 && (n + 1 < |sent| ==> sent[n + 1] == Mark)
       case Some(Failure(message, code)) =>
         && |sent| == Smaller(patience, n + 2) + 1
         && (n + 1 < |sent| ==> sent[n + 1] == Problem(message, code == 400))
         && (n + 2 < |sent| ==> sent[n + 2] == Mark)
       case Some(Done(_, _, _, usage)) =>
         && |sent| == Smaller(patience, n + if usage || extra then 3 else 2) + 1
         && (n + 1 < |sent| ==> sent[n + 1] == Finish)
         && (n + 2 < |sent| ==> sent[n + 2] == if usage || extra then Usage else Mark)
         && (n + 3 < |sent| ==> sent[n + 3] == Mark)
       case _ => |sent| == Smaller(patience, n) + 1
  }

  lemma ScriptParts(es: seq<Event>, extra: bool, i: nat)
    requires i < Body(es)
    ensures Script(es, extra)[0] == Role && Carries(Script(es, extra)[i + 1], es[i])
  {
    assert Script(es, extra)[i + 1] == Relays(es[..Body(es)])[i] == Relay(es[i]);
  }

  lemma ScriptTail(es: seq<Event>, extra: bool, i: nat)
    requires i < |Tail(Ending(es), extra)|
    ensures |Script(es, extra)| == Body(es) + 1 + |Tail(Ending(es), extra)|
    ensures Script(es, extra)[Body(es) + 1 + i] == Tail(Ending(es), extra)[i]
  {
  }

  lemma ScriptSends(es: seq<Event>, extra: bool, patience: nat)
    ensures Sends(FirstOf(Script(es, extra), patience + 1), es, extra, patience)
  {
    var n, script, tail := Body(es), Script(es, extra), Tail(Ending(es), extra);
    var sent := FirstOf(script, patience + 1);
    forall i | 0 <= i < n && i + 1 < |sent| ensures Carries(sent[i + 1], es[i]) {
      ScriptParts(es, extra, i);
    }
    forall i: nat | i < |tail| && n + 1 + i < |sent| ensures sent[n + 1 + i] == tail[i] {
      ScriptTail(es, extra, i);
    }
    assert n + 1 < |sent| ==> tail != [] && sent[n + 1 + 0] == tail[0];
    assert n + 2 < |sent| ==> |tail| > 1 && sent[n + 1 + 1] == tail[1];
    assert n + 3 < |sent| ==> |tail| > 2 && sent[n + 1 + 2] == tail[2];
  }

  /** Only a client that is being sent the last mark, or an error, is no longer to be waited for. */
  lemma LastSent(es: seq<Event>, extra: bool, patience: nat)
    ensures var sent := FirstOf(Script(es, extra), patience + 1);
            && sent != []
            && (sent[|sent| - 1].Mark? || sent[|sent| - 1].Problem? <==> Ending(es) != Some(Raise) && patience >= Safe(es, extra))
  {
    var n, sent := Body(es), FirstOf(Script(es, extra), patience + 1);
    ScriptSends(es, extra, patience);
    if 1 < |sent| <= n + 1 {
      assert Carries(sent[|sent| - 2 + 1], es[|sent| - 2]);
    }
  }

  // What a client puts together from the chunks it was sent.

  function PartContent(c: Chunk): string
  {
    if c.Part? then c.content else ""
  }

  function PartReasoning(c: Chunk): string
  {
    if c.Part? then c.reasoning else ""
  }

  function PartTools(c: Chunk): seq<Fragment>
  {
    if c.Part? then c.tools else []
  }

  function Heard(cs: seq<Chunk>): Totals
  {
    Totals(Flat(cs, PartContent), Flat(cs, PartReasoning), Merge(map[], Flat(cs, PartTools)))
  }

  /** A client hears what the grid has seen, from as many events as it was sent. */
  lemma {:induction false} HeardIsSeen(es: seq<Event>, tail: seq<Chunk>)
    requires forall i :: 0 <= i < |tail| ==> !tail[i].Part?
    ensures Heard([Role] + Relays(es) + tail) == Seen(es)
  {
    HeardFlat(es, tail, PartContent, ContentOf);
    HeardFlat(es, tail, PartReasoning, ReasoningOf);
    HeardFlat(es, tail, PartTools, ToolsOf);
  }

  lemma {:induction false} HeardFlat<T>(es: seq<Event>, tail: seq<Chunk>, f: Chunk -> seq<T>, g: Event -> seq<T>)
    requires forall i :: 0 <= i < |tail| ==> f(tail[i]) == []
    requires f(Role) == [] && forall e :: f(Relay(e)) == g(e)
    ensures Flat([Role] + Relays(es) + tail, f) == Flat(es, g)
  {
    var parts := Relays(es);
    assert Flat([Role] + parts + tail, f) == Flat([Role], f) + Flat(parts, f) + Flat(tail, f) by {
      FlatAppend([Role] + parts, tail, f);
      FlatAppend([Role], parts, f);
    }
    FlatEmpty([Role], f);
    FlatEmpty(tail, f);
    FlatAlike(parts, f, es, g);
  }

  lemma {:induction false} HeardOf(es: seq<Event>, extra: bool, patience: nat)
    ensures Heard(FirstOf(Script(es, extra), patience + 1)) == Seen(es[..Smaller(patience, Body(es))])
  {
    var n, tail := Body(es), Tail(Ending(es), extra);
    var k := Smaller(patience, n);
    var sent := FirstOf(Script(es, extra), patience + 1);
    var rest := sent[k + 1..];
    assert sent == [Role] + Relays(es[..k]) + rest;
    assert forall i :: 0 <= i < |rest| ==> rest[i] == tail[i];
    HeardIsSeen(es[..k], rest);
  }

  /** The `try` of `_stream_openai`: what was sent, whether it ended by itself, and the dry run if it was
      observed on the way. */
  method RunStream(es: seq<Event>, extra: bool, patience: nat, tokens: Totals -> nat)
    returns (sent: seq<Chunk>, seen: Totals, terminal: bool, observed: seq<nat>)
    requires patience > 0
    ensures sent == FirstOf(Script(es, extra), patience + 1)
    ensures seen == Seen(es[..Smaller(patience, Body(es))])
    ensures terminal <==> Ending(es) != Some(Raise) && patience >= Safe(es, extra)
    ensures observed == [] || observed == [tokens(seen)]
  {
    var k, over;
    observed, terminal := [], false;
    sent, seen, k, over := RelayEvents(es, patience);
    LeftEarly(es, extra, k);
    if !over && k < |es| {
      if es[k].Raise? {
        over := true;
      } else {
        sent, over, terminal := SendEnd(es[k], extra, patience, sent);
        observed := if over then [] else [tokens(seen)];
      }
    }
    if !over {
      terminal := true;
      sent := sent + [Mark];
    }
  }

  /** `_stream_openai`. The client reads `patience` chunks and leaves while the next one is
      being sent; a number larger than there are chunks means it stays. */
  method StreamOpenAI(es: seq<Event>, extra: bool, slot: bool, patience: nat, tokens: Totals -> nat)
    returns (sent: seq<Chunk>, fx: Effects)
    ensures sent == FirstOf(Script(es, extra), patience + 1) && Sends(sent, es, extra, patience)
    ensures patience == 0 ==> fx == Effects(0, [], 0)
    ensures patience > 0 ==>
              && fx.observed == [tokens(Heard(sent))] == [tokens(Seen(es[..Smaller(patience, Body(es))]))]
              && fx.releases == (if slot then 1 else 0)
              && fx.cancels == (if Ending(es) != Some(Raise) && patience >= Safe(es, extra) then 0 else 1)
              && fx.cancels == if sent[|sent| - 1].Mark? || sent[|sent| - 1].Problem? then 0 else 1
  {
    sent, fx := [Role], Effects(0, [], 0);
    ScriptSends(es, extra, patience);
    HeardOf(es, extra, patience);
    LastSent(es, extra, patience);
    if patience == 0 {
      return;
    }
    var seen, terminal, observed;
    sent, seen, terminal, observed := RunStream(es, extra, patience, tokens);
    // finally
    if !terminal {
      fx := fx.(cancels := fx.cancels + 1);
    }
    if observed == [] {
      observed := [tokens(seen)];
    }
    fx := fx.(observed := observed);
    if slot {
      fx := fx.(releases := fx.releases + 1);
    }
  }

  // ---- the chat collector --------------------------------------------------------------

  /** A reply; no calls are an empty list. */
  datatype Reply = Reply(content: string, reasoning: string, calls: seq<Call>)

  datatype Collected = Returned(reply: Reply) | Raised(status: int)

  function FromDeltas(t: Totals): Reply
  {
    Reply(t.content, t.reasoning, InOrder(t.tools))
  }

  /** The assembled fields of the last event win over what the deltas gave. */
  function Assembled(t: Totals, e: Option<Event>): Reply
  {
    match e
    case Some(Done(text, thoughts, calls, _)) =>
      Reply(Either(text, t.content), Either(thoughts, t.reasoning), if calls != [] then calls else InOrder(t.tools))
    case _ => FromDeltas(t)
  }

  /** `_collect_response`. */
  method CollectResponse(es: seq<Event>, tokens: Reply -> nat) returns (r: Collected, fx: Effects)
    ensures match Ending(es)
            case Some(Failure(_, code)) => r == Raised(if code != 0 then code else 502) && fx == Effects(0, [], 0)
            case Some(Raise) => r == Raised(500) && fx == Effects(1, [], 0)
            case e => r == Returned(Assembled(Seen(es[..Body(es)]), e)) &&
                      fx == Effects(if e.None? then 1 else 0, [tokens(r.reply)], 0)
    ensures r.Returned? ==>
              var (body, last) := (es[..Body(es)], Ending(es));
              var (text, thoughts, calls) := if last.Some? && last.value.Done? then (last.value.text, last.value.thoughts, last.value.calls) else ("", "", []);
              && r.reply.content == (if text != "" then text else Flat(body, ContentOf))
              && r.reply.reasoning == (if thoughts != "" then thoughts else Flat(body, ReasoningOf))
              && (if calls != [] then r.reply.calls == calls else ListsCalls(r.reply.calls, Merge(map[], Flat(body, ToolsOf))))
  {
    var content, reasoning, acc, calls: seq<Call> := "", "", map[], [];
    var terminal, k, raised := false, 0, None;
    while k < |es|
      invariant 0 <= k <= Body(es)
      invariant Totals(content, reasoning, acc) == Seen(es[..k])
      invariant calls == [] && !terminal && raised.None?
    {
      assert es[..k + 1] == es[..k] + [es[k]];
      match es[k]
      case Failure(_, code) =>
        terminal, raised := true, Some(if code != 0 then code else 502);
        break;
      case Raise =>
        raised := Some(500);
        break;
      case Done(text, thoughts, given, _) =>
        content := if text != "" then text else content;
        reasoning := if thoughts != "" then thoughts else reasoning;
        calls := if given != [] then given else calls;
        terminal := true;
        break;
      case Delta(c, r', fs) =>
        SeenNext(es[..k], c, r', fs, "");
        content, reasoning := content + c, reasoning + r';
        acc := MergeToolCallDeltas(acc, fs);
        k := k + 1;
      case LegacyReasoning(x) =>
        SeenNext(es[..k], "", "", [], x);
        reasoning, k := reasoning + x, k + 1;
      case LegacyText(x) =>
        SeenNext(es[..k], "", "", [], x);
        content, k := content + x, k + 1;
    }
    assert k == Body(es);
    SeenIndexed(es[..k]);
    InOrderExactly(InOrder(Seen(es[..k]).tools), Seen(es[..k]).tools);
    fx := Effects(if terminal then 0 else 1, [], 0);
    if raised.Some? {
      return Raised(raised.value), fx;
    }
    var reply := Reply(content, reasoning, if calls != [] then calls else InOrder(acc));
    fx := fx.(observed := [tokens(reply)]);
    return Returned(reply), fx;
  }

  lemma SeenIndexed(es: seq<Event>)
    ensures Indexed(Seen(es).tools)
  {
    MergeIndexed(map[], Flat(es, ToolsOf));
  }

  /** An assembled field of the last event is absent or says what the deltas said. */
  ghost predicate Repeats(e: Event, t: Totals)
    requires e.Done?
  {
    && (e.text == "" || e.text == t.content)
    && (e.thoughts == "" || e.thoughts == t.reasoning)
    && (e.calls == [] || ListsCalls(e.calls, t.tools))
  }

  /** The collector returns what the generator relayed exactly when every assembled field of the last
      event is absent or repeats the deltas; calls are repeated when the list holds exactly the merged
      ones in the order of their indices. */
  lemma AssembledVersusRelayed(es: seq<Event>)
    requires Ending(es).Some? && Ending(es).value.Done?
    ensures var (e, t) := (Ending(es).value, Seen(es[..Body(es)]));
            Assembled(t, Some(e)) == FromDeltas(t) <==> Repeats(e, t)
  {
    SeenIndexed(es[..Body(es)]);
    InOrderExactly(Ending(es).value.calls, Seen(es[..Body(es)]).tools);
  }

  /** A job read both ways, up to such a last event: a client that puts its chunks together has what the
      collector returns, both count the same tokens, and neither cancels the worker. */
  method ReadBothWays(es: seq<Event>, extra: bool, patience: nat, tokens: Reply -> nat)
    returns (sent: seq<Chunk>, reply: Collected, streamed: Effects, collected: Effects)
    requires Ending(es).Some? && Ending(es).value.Done? && patience >= Safe(es, extra)
    requires Repeats(Ending(es).value, Seen(es[..Body(es)]))
    ensures reply.Returned? && reply.reply.content == Heard(sent).content && reply.reply.reasoning == Heard(sent).reasoning
    ensures ListsCalls(reply.reply.calls, Heard(sent).tools)
    ensures streamed.observed == collected.observed == [tokens(reply.reply)]
    ensures streamed.cancels == collected.cancels == 0
  {
    var count: Totals -> nat := t => tokens(FromDeltas(t));
    sent, streamed := StreamOpenAI(es, extra, false, patience, count);
    reply, collected := CollectResponse(es, tokens);
    AssembledVersusRelayed(es);
    HeardOf(es, extra, patience);
    SeenIndexed(es[..Body(es)]);
    InOrderExactly(reply.reply.calls, Seen(es[..Body(es)]).tools);
    assert Body(es) < patience && count(Seen(es[..Body(es)])) == tokens(FromDeltas(Seen(es[..Body(es)])));
  }

  predicate Streamed(t: Totals)
  {
    t.content != "" || t.reasoning != "" || t.tools != map[]
  }

  /** The DONE that the worker's connection publishes after these events: what it accumulated itself, or
      the worker's own report when nothing was streamed. */
  function WorkerDone(body: seq<Event>, text: string, thoughts: string, usage: bool): Event
  {
    var t := Seen(body);
    if Streamed(t) then Done(t.content, t.reasoning, InOrder(t.tools), usage)
    else Done(text, thoughts, [], usage)
  }

  lemma {:induction false} BodyOf(body: seq<Event>, e: Event)
    requires Last(e) && forall i :: 0 <= i < |body| ==> !Last(body[i])
    ensures Body(body + [e]) == |body|
  {
    if body != [] {
      assert (body + [e])[1..] == body[1..] + [e];
      BodyOf(body[1..], e);
    }
  }

  /** For every stream the grid's own worker connection can publish, both readers agree, unless nothing
      was streamed and the worker reported some output at the end. */
  lemma WorkerStreamAgrees(body: seq<Event>, text: string, thoughts: string, usage: bool)
    requires forall i :: 0 <= i < |body| ==> !Last(body[i])
    ensures var e := WorkerDone(body, text, thoughts, usage);
            && Ending(body + [e]) == Some(e) && (body + [e])[..Body(body + [e])] == body
            && (Assembled(Seen(body), Some(e)) == FromDeltas(Seen(body)) <==>
                  Seen(body) != NOTHING || (text == "" && thoughts == ""))
            && (Seen(body) == NOTHING ==> Assembled(Seen(body), Some(e)) == Reply(text, thoughts, []))
  {
    BodyOf(body, WorkerDone(body, text, thoughts, usage));
  }

  // ---- the raw passthrough --------------------------------------------------------------

  /** `subscribe_tokens` for a raw job: upstream events, others that are skipped, the end. */
  datatype RawEvent = Raw(name: string, data: string) | Other | RawDone | RawFailure(message: string) | RawRaise

  datatype RawChunk = Frame(name: string, data: string) | ErrorFrame(message: string)

  predicate RawLast(e: RawEvent)
  {
    e.RawDone? || e.RawFailure? || e.RawRaise?
  }

  function FrameOf(e: RawEvent): seq<RawChunk>
  {
    if e.Raw? then [Frame(e.name, e.data)] else []
  }

  /** The upstream events as frames, in order, without the skipped ones. */
  function Frames(es: seq<RawEvent>): seq<RawChunk>
  {
    Flat(es, FrameOf)
  }

  /** Each upstream event is the next frame, under its name and with its data; the others make none. */
  lemma {:induction false} FramesNext(es: seq<RawEvent>, name: string, data: string)
    ensures Frames(es + [Raw(name, data)]) == Frames(es) + [Frame(name, data)]
    ensures Frames(es + [Other]) == Frames(es)
  {
    FlatNext(es, Raw(name, data), FrameOf);
    FlatNext(es, Other, FrameOf);
  }

  /** The text that the frames hold. */
  function Texts(cs: seq<RawChunk>, text: string -> string): string
  {
    Flat(cs, (c: RawChunk) => if c.Frame? then text(c.data) else "")
  }

  /** `stream_passthrough`. It sends nothing before its `try`, so what it does at the end
      it does on every exit; `stop` is the event at which the client left, if it did. */
  method StreamPassthrough(es: seq<RawEvent>, patience: nat, text: string -> string, tokens: string -> nat)
    returns (sent: seq<RawChunk>, fx: Effects, ghost stop: nat)
    ensures stop <= |es| && forall i :: 0 <= i < stop ==> es[i].Raw? || es[i].Other?
    ensures stop == |es| || es[stop] in {RawDone, RawRaise} || es[stop].RawFailure? || (|Frames(es[..stop])| == patience + 1 && sent == Frames(es[..stop]))
    ensures |Frames(es[..stop])| <= patience + 1
    ensures sent == Frames(es[..stop]) + (if stop < |es| && es[stop].RawFailure? && |Frames(es[..stop])| <= patience
                                          then [ErrorFrame(es[stop].message)] else [])
    ensures fx.observed == [tokens(Texts(Frames(es[..stop]), text))] && fx.releases == 0
    ensures fx.cancels == if stop < |es| && (es[stop].RawDone? || es[stop].RawFailure?) && |Frames(es[..stop])| <= patience
                          then 0 else 1
  {
    var relayed, observed, terminal := "", false, false;
    sent, fx, stop := [], Effects(0, [], 0), 0;
    var k, left := 0, false;
    while k < |es| && !left && !RawLast(es[k])
      invariant 0 <= k <= |es| && stop == k
      invariant forall i :: 0 <= i < k ==> !RawLast(es[i])
      invariant sent == Frames(es[..k]) && relayed == Texts(sent, text)
      invariant if left then |sent| == patience + 1 else |sent| <= patience
    {
      assert es[..k + 1] == es[..k] + [es[k]];
      if es[k].Raw? {
        FramesNext(es[..k], es[k].name, es[k].data);
        relayed := relayed + text(es[k].data);
        sent := sent + [Frame(es[k].name, es[k].data)];
        assert sent[..|sent| - 1] == Frames(es[..k]);
        left := patience < |sent|;
      } else {
        FramesNext(es[..k], "", "");
      }
      k, stop := k + 1, stop + 1;
    }
    if k < |es| && !left {
      match es[k]
      case RawFailure(m) =>
        terminal := true;
        sent := sent + [ErrorFrame(m)];
      case RawDone =>
        fx := fx.(observed := [tokens(relayed)]);
        observed, terminal := true, true;
      case _ =>
    }
    if !terminal {
      fx := fx.(cancels := 1);
    }
    if !observed {
      fx := fx.(observed := [tokens(relayed)]);
    }
  }
}
