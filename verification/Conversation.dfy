/** The conversation object and the loop that drives it, against the
    specification of the transcript. */
module Conversation {
  import opened Common
  import opened Texts
  import opened Transcript
  import opened Told

  /** The last MAX_MENTIONED characters of what the operator has named. */
  function Bounded(s: string): (r: string)
    ensures |r| <= MAX_MENTIONED && |r| <= |s| && r == s[|s| - |r|..]
    ensures if |s| <= MAX_MENTIONED then r == s else |r| == MAX_MENTIONED
  {
    if |s| > MAX_MENTIONED then s[|s| - MAX_MENTIONED..] else s
  }

  lemma TurnNext(blocks: seq<Block>, k: nat)
    requires k < |blocks|
    ensures TurnTexts(blocks[..k + 1]) == TurnTexts(blocks[..k]) +
              if blocks[k].Text? && TrimSpace(blocks[k].text) != "" then [TrimSpace(blocks[k].text)] else []
    ensures ToolUses(blocks[..k + 1]) == ToolUses(blocks[..k]) + if blocks[k].ToolUse? then [blocks[k]] else []
  {
    assert blocks[..k + 1][..k] == blocks[..k];
  }

  /** Splits an assistant turn into what it says and the tools it asks for. */
  method ReadTurn(blocks: seq<Block>)
    returns (turnText: seq<string>, toolUses: seq<Block>, ghost textsAt: seq<nat>, ghost usesAt: seq<nat>)
    ensures PicksTexts(blocks, turnText, textsAt) && PicksUses(blocks, toolUses, usesAt)
    ensures turnText == TurnTexts(blocks) && toolUses == ToolUses(blocks)
  {
    turnText, toolUses := [], [];
    for k := 0 to |blocks|
      invariant turnText == TurnTexts(blocks[..k]) && toolUses == ToolUses(blocks[..k])
    {
      var b := blocks[k];
      TurnNext(blocks, k);
      if b.Text? {
        var t := TrimSpace(b.text);
        if t != "" {
          turnText := turnText + [t];
        }
      } else if b.ToolUse? {
        toolUses := toolUses + [b];
      }
    }
    assert blocks[..|blocks|] == blocks;
    textsAt := TextsPicked(blocks);
    usesAt := UsesPicked(blocks);
  }

  /** Runs the tools of one round in order. */
  method Dispatch(round: nat, uses: seq<Block>, world: World)
    returns (results: seq<Block>, done: seq<Action>, ghost doneAt: seq<nat>)
    requires forall k | 0 <= k < |uses| :: uses[k].ToolUse?
    ensures TellsOutcomes(results, uses, world, round) && PicksActions(done, uses, world, round, doneAt)
    ensures results == Results(round, uses, world) && done == Performed(round, uses, world)
  {
    results, done := [], [];
    for k := 0 to |uses|
      invariant results == Results(round, uses[..k], world) && done == Performed(round, uses[..k], world)
    {
      var o := world.ToolOutcome(round, k);
      assert uses[..k + 1][..k] == uses[..k];
      results := results + [ToolResult(uses[k].id, o.content, o.isError)];
      if o.summary != "" {
        done := done + [Action(uses[k].name, o.summary, o.isError)];
      }
    }
    assert uses[..|uses|] == uses;
    OutcomesTold(round, uses, world);
    doneAt := ActionsPicked(round, uses, world);
  }

  /** The text of a turn that ends the loop, and what a refusal adds to the reply. */
  method Final(ghost blocks: seq<Block>, turnText: seq<string>, stop: StopReason) returns (final: string, refusal: seq<string>)
    requires turnText == TurnTexts(blocks)
    ensures final == FinalText(blocks, stop) && refusal == if stop.Refusal? then [REFUSAL] else []
  {
    final, refusal := Join(turnText, "\n\n"), [];
    if stop.Refusal? {
      final := REFUSAL;
      refusal := [final];
    }
    if TrimSpace(final) == "" {
      final := "Done.";
    }
  }

  /** What one answer of the model does to the transcript: it closes it, or its tools are run and their
      results appended. */
  method TakeTurn(world: World, round: nat, blocks: seq<Block>, stop: StopReason, msgs: seq<Turn>, texts: seq<string>, actions: seq<Action>)
    returns (done: bool, messages: seq<Turn>, said: seq<string>, acted: seq<Action>)
    ensures done <==> !stop.ToolUseStop? || ToolUses(blocks) == []
    ensures var m := Trimmed(msgs + [Assistant(blocks)]);
      if done then
        && messages == m[..|m| - 1] + [Assistant([Text(FinalText(blocks, stop))])] && acted == actions
        && said == if stop.Refusal? then texts + TurnTexts(blocks) + [REFUSAL] else texts + TurnTexts(blocks)
      else
        && messages == Trimmed(m + [User(Results(round, ToolUses(blocks), world))])
        && said == texts + TurnTexts(blocks) && acted == actions + Performed(round, ToolUses(blocks), world)
  {
    acted := actions;
    messages := TrimHistory(msgs + [Assistant(blocks)]);
    var turnText, toolUses, _, _ := ReadTurn(blocks);
    said := texts + turnText;
    if !stop.ToolUseStop? || |toolUses| == 0 {
      var final, refusal := Final(blocks, turnText, stop);
      said := said + refusal;
      messages := messages[..|messages| - 1] + [Assistant([Text(final)])];
      return true, messages, said, acted;
    }
    var results, ran, _ := Dispatch(round, toolUses, world);
    acted := acted + ran;
    messages := TrimHistory(messages + [User(results)]);
    return false, messages, said, acted;
  }

  /** The operator's text as used, and the user turn's text. */
  method Compose(messages: seq<Turn>, text: string, domain: string) returns (entered: string, seed: string)
    ensures entered == Entered(text) && (entered != "" ==> seed == Seed(messages, text, domain))
    ensures FirstOf(text, entered) && (entered == "" <==> Blank(text))
    ensures entered != "" ==> seed == if messages == [] && !Blank(domain) then About(domain) + entered else entered
  {
    entered, seed := TrimSpace(text), "";
    if entered == "" {
      return;
    }
    if |entered| > MAX_USER_CHARS {
      entered := entered[..MAX_USER_CHARS];
    }
    var first := |messages| == 0;
    seed := entered;
    if first && TrimSpace(domain) != "" {
      seed := About(domain) + entered;
    }
  }

  lemma RunReturns(world: World, first: seq<Turn>, messages: seq<Turn>, reply: Option<Reply>, sent: seq<seq<Turn>>)
    requires first != [] && Returned(Rounds(world, first, 0, [], [], []), messages, reply, sent)
    ensures CallTold(world, first, sent, messages, reply)
  {
    var r := Rounds(world, first, 0, [], [], []);
    CallConverses(world, first, r);
    CallReturns(world, first, r, messages, reply, sent);
  }

  class Conversation {
    var messages: seq<Turn>
    var mentioned: string

    ghost predicate Valid()
      reads this
    {
      Kept(messages) && |mentioned| <= MAX_MENTIONED
    }

    constructor ()
      ensures Valid() && messages == [] && mentioned == ""
    {
      messages, mentioned := [], "";
    }

    /** The tool-use loop; `sent` lists the requests it made. */
    method Run(world: World) returns (reply: Option<Reply>, ghost sent: seq<seq<Turn>>)
      requires messages != []
      modifies this`messages
      ensures CallTold(world, old(messages), sent, messages, reply)
      ensures Returned(Rounds(world, old(messages), 0, [], [], []), messages, reply, sent)
    {
      var texts: seq<string>, actions: seq<Action> := [], [];
      sent := [];
      for i := 0 to MAX_ITERATIONS
        invariant Rounds(world, messages, i, texts, actions, sent) == Rounds(world, old(messages), 0, [], [], [])
      {
        ghost var before, said, acted, log := messages, texts, actions, sent;
        sent := sent + [messages];
        var resp := world.Answer(i);
        if resp.Failed? {
          RunReturns(world, old(messages), messages, None, sent);
          return None, sent;
        }
        RoundsUnfold(world, before, i, said, acted, log);
        var done;
        done, messages, texts, actions := TakeTurn(world, i, resp.blocks, resp.stop, messages, texts, actions);
        if done {
          reply := Some(Reply(Join(texts, "\n\n"), actions));
          RunReturns(world, old(messages), messages, reply, sent);
          return;
        }
      }
      texts := texts + [Closing()];
      messages := messages + [Assistant([Text(Closing())])];
      reply := Some(Reply(Join(texts, "\n\n"), actions));
      RunReturns(world, old(messages), messages, reply, sent);
    }

    /** One user turn; the transcript before it comes back when the call fails. */
    method Send(seed: string, world: World) returns (reply: Option<Reply>, ghost sent: seq<seq<Turn>>)
      modifies this`messages
      ensures var first := old(messages) + [User([Text(seed)])];
        CallTold(world, first, sent, messages, reply) && Returned(Rounds(world, first, 0, [], [], []), messages, reply, sent)
      ensures reply.None? ==> messages == old(messages)
    {
      var snapshot := messages;
      messages := messages + [User([Text(seed)])];
      reply, sent := Run(world);
      if reply.None? {
        messages := snapshot;
      }
    }

    /** One user message. A failed call rolls the transcript back completely. */
    method Chat(text: string, domain: string, world: World) returns (reply: Option<Reply>, ghost sent: seq<seq<Turn>>)
      requires Valid()
      modifies this
      ensures Valid() && AllSendable(sent)
      ensures messages == AfterMessage(old(messages), text, domain, world)
      ensures Blank(text) ==> reply == None && sent == [] && unchanged(this)
      ensures !Blank(text) ==>
                && Returned(Answer(old(messages), text, domain, world), messages, reply, sent)
                && sent != [] && Opens(old(messages), text, domain, sent[0])
                && CallTold(world, sent[0], sent, messages, reply)
                && (reply.None? ==> messages == old(messages))
                && mentioned == Bounded(old(mentioned) + (" " + Entered(text) + " " + domain))
    {
      sent := [];
      var entered, seed := Compose(messages, text, domain);
      if entered == "" {
        return None, [];
      }
      mentioned := Bounded(mentioned + (" " + entered + " " + domain));
      MessageKeepsTranscript(messages, text, domain, world);
      MessageOpens(messages, text, domain);
      reply, sent := Send(seed, world);
    }
  }
}
