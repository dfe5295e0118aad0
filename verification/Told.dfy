/** What the model is told and what the operator is answered, over a whole call of the loop
    (internal/ai/agent.go, run), stated on the requests themselves. */
module Told {
  import opened Common
  import opened Texts
  import opened Transcript

  // ----- What is picked from an answer ---------------------------------------------

  /** `uses` are exactly the tool uses among the blocks, in order. */
  ghost predicate PicksUses(blocks: seq<Block>, uses: seq<Block>, at: seq<nat>) {
    && Positions(at, |blocks|) && |uses| == |at|
    && (forall j | 0 <= j < |at| :: uses[j] == blocks[at[j]])
    && (forall i | 0 <= i < |blocks| :: blocks[i].ToolUse? <==> i in at)
  }

  /** `texts` are exactly the texts that are not blank, trimmed, in order. */
  ghost predicate PicksTexts(blocks: seq<Block>, texts: seq<string>, at: seq<nat>) {
    && Positions(at, |blocks|) && |texts| == |at|
    && (forall j | 0 <= j < |at| :: blocks[at[j]].Text? && TrimmedText(blocks[at[j]].text, texts[j]))
    && (forall i | 0 <= i < |blocks| :: blocks[i].Text? && !Blank(blocks[i].text) <==> i in at)
  }

  /** Result k carries the content and the error flag of the k-th outcome, under the k-th use's id. */
  ghost predicate TellsOutcomes(results: seq<Block>, uses: seq<Block>, world: World, round: nat) {
    && |results| == |uses|
    && (forall k | 0 <= k < |uses| :: uses[k].ToolUse? &&
          results[k] == ToolResult(uses[k].id, world.ToolOutcome(round, k).content, world.ToolOutcome(round, k).isError))
  }

  /** The actions are exactly the outcomes with a summary, in order, under the tools' names. */
  ghost predicate PicksActions(done: seq<Action>, uses: seq<Block>, world: World, round: nat, at: seq<nat>) {
    && Positions(at, |uses|) && |done| == |at|
    && (forall j | 0 <= j < |at| :: uses[at[j]].ToolUse? &&
          done[j] == Action(uses[at[j]].name, world.ToolOutcome(round, at[j]).summary, world.ToolOutcome(round, at[j]).isError))
    && (forall k | 0 <= k < |uses| :: world.ToolOutcome(round, k).summary != "" <==> k in at)
  }

  lemma {:induction false} UsesPicked(blocks: seq<Block>) returns (at: seq<nat>)
    ensures PicksUses(blocks, ToolUses(blocks), at)
  {
    at := [];
    if blocks != [] {
      var n := |blocks| - 1;
      at := UsesPicked(blocks[..n]);
      PositionsNext(at, n);
      if blocks[n].ToolUse? { at := at + [n]; }
    }
  }

  lemma TextPassed(blocks: seq<Block>, texts: seq<string>, at: seq<nat>)
    requires blocks != [] && PicksTexts(blocks[..|blocks| - 1], texts, at)
    requires !Last(blocks).Text? || Blank(Last(blocks).text)
    ensures PicksTexts(blocks, texts, at)
  {
  }

  lemma TextPicked(blocks: seq<Block>, texts: seq<string>, at: seq<nat>, text: string)
    requires blocks != [] && PicksTexts(blocks[..|blocks| - 1], texts, at)
    requires Last(blocks).Text? && !Blank(Last(blocks).text) && TrimmedText(Last(blocks).text, text)
    ensures PicksTexts(blocks, texts + [text], at + [|blocks| - 1])
  {
    PositionsNext(at, |blocks| - 1);
  }

  lemma TextsNext(blocks: seq<Block>, at: seq<nat>) returns (more: seq<nat>)
    requires blocks != [] && PicksTexts(blocks[..|blocks| - 1], TurnTexts(blocks[..|blocks| - 1]), at)
    ensures PicksTexts(blocks, TurnTexts(blocks), more)
  {
    var texts := TurnTexts(blocks[..|blocks| - 1]);
    if Last(blocks).Text? && !Blank(Last(blocks).text) {
      var text := TrimSpace(Last(blocks).text);
      TextPicked(blocks, texts, at, text);
      assert TurnTexts(blocks) == texts + [text];
      return at + [|blocks| - 1];
    }
    TextPassed(blocks, texts, at);
    assert TurnTexts(blocks) == texts;
    return at;
  }

  lemma {:induction false} TextsPicked(blocks: seq<Block>) returns (at: seq<nat>)
    ensures PicksTexts(blocks, TurnTexts(blocks), at)
  {
    at := [];
    if blocks != [] {
      at := TextsPicked(blocks[..|blocks| - 1]);
      at := TextsNext(blocks, at);
    }
  }

  lemma {:induction false} OutcomesTold(round: nat, uses: seq<Block>, world: World)
    requires forall k | 0 <= k < |uses| :: uses[k].ToolUse?
    ensures TellsOutcomes(Results(round, uses, world), uses, world, round)
  {
    if uses != [] {
      OutcomesTold(round, uses[..|uses| - 1], world);
    }
  }

  lemma {:induction false} ActionsPicked(round: nat, uses: seq<Block>, world: World) returns (at: seq<nat>)
    requires forall k | 0 <= k < |uses| :: uses[k].ToolUse?
    ensures PicksActions(Performed(round, uses, world), uses, world, round, at)
  {
    at := [];
    if uses != [] {
      var n := |uses| - 1;
      at := ActionsPicked(round, uses[..n], world);
      PositionsNext(at, n);
      if world.ToolOutcome(round, n).summary != "" { at := at + [n]; }
    }
  }

  // ----- One request after the other ---------------------------------------------------

  /** The answer asks for tools. */
  predicate Asks(r: Response) {
    r.Answered? && r.stop.ToolUseStop? && ToolUses(r.blocks) != []
  }

  /** `after` is `before` without the first `c` turns. */
  ghost predicate CutAt(before: seq<Turn>, after: seq<Turn>, c: nat) { c <= |before| && after == before[c..] }

  ghost predicate CutInFront(before: seq<Turn>, after: seq<Turn>) { exists c :: CutAt(before, after, c) }

  /** `after` is `before`, cut at the front only, with these two turns at its end. */
  ghost predicate Continues(before: seq<Turn>, answer: Turn, results: Turn, after: seq<Turn>) {
    |after| >= 2 && CutInFront(before, after[..|after| - 2]) && after[|after| - 2] == answer && Last(after) == results
  }

  /** The transcript after round `i`: the request of that round, the answer as it came, and the outcomes of
      its tool uses. */
  ghost predicate RoundTold(world: World, i: nat, before: seq<Turn>, after: seq<Turn>) {
    && Asks(world.Answer(i)) && after != []
    && Continues(before, Assistant(world.Answer(i).blocks), Last(after), after)
    && Last(after).User?
    && TellsOutcomes(Last(after).blocks, ToolUses(world.Answer(i).blocks), world, i)
  }

  ghost predicate AllTold(world: World, sent: seq<seq<Turn>>) {
    forall i | 0 <= i < |sent| - 1 :: RoundTold(world, i, sent[i], sent[i + 1])
  }

  lemma TrimmedIsSuffix(t: seq<Turn>) returns (c: nat)
    requires t != []
    ensures c < |t| && Trimmed(t) == t[c..] && (c > 0 ==> CleanCut(t[c]))
  {
    c := 0;
    if |t| > MAX_MESSAGES && FirstCut(t, |t| - MAX_MESSAGES).Some? {
      c := FirstCut(t, |t| - MAX_MESSAGES).value;
    }
  }

  /** A cut before the last two turns; the last turn alone is a tool result and never a clean cut. */
  lemma CutPair(t: seq<Turn>, answer: Turn, results: Turn, d: nat)
    requires d <= |t|
    ensures var after := (t + [answer] + [results])[d..];
      |after| == |t| - d + 2 && after[..|t| - d] == t[d..] && after[|after| - 2] == answer && Last(after) == results
  {
  }

  /** Two turns appended, with a trim after each, are the last two turns; only the front is cut. */
  lemma TwoAppended(before: seq<Turn>, answer: Turn, results: Turn)
    requires before != [] && answer.Assistant? && results.User? && IsToolResult(results.blocks)
    ensures Continues(before, answer, results, Trimmed(Trimmed(before + [answer]) + [results]))
  {
    var c := TrimmedIsSuffix(before + [answer]);
    var m := before[c..] + [answer];
    assert (before + [answer])[c..] == m;
    var d := TrimmedIsSuffix(m + [results]);
    CutPair(before[c..], answer, results, d);
    assert before[c..][d..] == before[c + d..];
    assert CutAt(before, (m + [results])[d..][..|before| - c - d], c + d);
  }

  lemma RoundTells(world: World, i: nat, before: seq<Turn>)
    requires before != [] && Asks(world.Answer(i))
    ensures var blocks := world.Answer(i).blocks;
      RoundTold(world, i, before, Trimmed(Trimmed(before + [Assistant(blocks)]) + [User(Results(i, ToolUses(blocks), world))]))
  {
    var blocks := world.Answer(i).blocks;
    OutcomesTold(i, ToolUses(blocks), world);
    TwoAppended(before, Assistant(blocks), User(Results(i, ToolUses(blocks), world)));
  }

  // ----- The end of a call ------------------------------------------------------------------

  /** The texts of the first `n` answers. */
  function Said(world: World, n: nat): seq<string> {
    if n == 0 then []
    else Said(world, n - 1) + if world.Answer(n - 1).Answered? then TurnTexts(world.Answer(n - 1).blocks) else []
  }

  /** The actions of the first `n` rounds. */
  function Acted(world: World, n: nat): seq<Action> {
    if n == 0 then []
    else Acted(world, n - 1) +
         if world.Answer(n - 1).Answered? then Performed(n - 1, ToolUses(world.Answer(n - 1).blocks), world) else []
  }

  /** The last text of a call that ends with the answer `r`. */
  ghost predicate EndsWith(r: Response, text: string)
    requires r.Answered?
  {
    if r.stop.Refusal? then text == REFUSAL
    else if Blank(Join(TurnTexts(r.blocks), "\n\n")) then text == "Done."
    else text == Join(TurnTexts(r.blocks), "\n\n")
  }

  /** How a call that made the requests `sent` ends well. */
  ghost predicate EndsWell(world: World, sent: seq<seq<Turn>>, messages: seq<Turn>, reply: Reply) {
    var n := |sent|;
    && n > 0 && world.Answer(n - 1).Answered? && messages != []
    && Last(messages).Assistant? && |Last(messages).blocks| == 1 && Last(messages).blocks[0].Text?
    && var text := Last(messages).blocks[0].text;
    if Asks(world.Answer(n - 1)) then
      && n == MAX_ITERATIONS && text == Closing()
      && RoundTold(world, n - 1, sent[n - 1], messages[..|messages| - 1])
      && reply == Reply(Join(Said(world, n) + [Closing()], "\n\n"), Acted(world, n))
    else
      && EndsWith(world.Answer(n - 1), text)
      && CutInFront(sent[n - 1], messages[..|messages| - 1])
      && reply == Reply(Join(Said(world, n) + (if world.Answer(n - 1).stop.Refusal? then [REFUSAL] else []), "\n\n"), Acted(world, n - 1))
  }

  /** Every round is told, and the call ends well or with a failed answer. */
  ghost predicate Conversed(world: World, r: Result) {
    && r.sent != [] && AllTold(world, r.sent)
    && match r
       case Failure(sent) => world.Answer(|sent| - 1).Failed?
       case Success(messages, reply, sent) => EndsWell(world, sent, messages, reply)
  }

  /** A call of the loop returned `r`: on success the transcript is the one of the result. */
  ghost predicate Returned(r: Result, messages: seq<Turn>, reply: Option<Reply>, sent: seq<seq<Turn>>) {
    && sent == r.sent
    && reply == (if r.Success? then Some(r.reply) else None)
    && (r.Success? ==> messages == r.messages)
  }

  lemma CallReturns(world: World, first: seq<Turn>, r: Result, messages: seq<Turn>, reply: Option<Reply>, sent: seq<seq<Turn>>)
    requires Conversed(world, r) && r.sent[0] == first && Returned(r, messages, reply, sent)
    ensures CallTold(world, first, sent, messages, reply)
  {
  }

  /** What the operator is answered and what is kept after a call that made the requests `sent`. */
  ghost predicate CallTold(world: World, first: seq<Turn>, sent: seq<seq<Turn>>, messages: seq<Turn>, reply: Option<Reply>) {
    && sent != [] && sent[0] == first && AllTold(world, sent)
    && (reply.None? <==> world.Answer(|sent| - 1).Failed?)
    && (reply.Some? ==> EndsWell(world, sent, messages, reply.value))
  }

  /** The first request of a message: the transcript and one turn with the operator's text. */
  ghost predicate Opens(messages: seq<Turn>, text: string, domain: string, request: seq<Turn>) {
    exists entered :: FirstOf(text, entered) && request == messages + [Prompt(messages, domain, entered)]
  }

  ghost function Prompt(messages: seq<Turn>, domain: string, entered: string): Turn {
    User([Text((if messages == [] && !Blank(domain) then About(domain) else "") + entered)])
  }

  lemma MessageOpens(messages: seq<Turn>, text: string, domain: string)
    ensures Opens(messages, text, domain, Prompted(messages, text, domain))
  {
    assert "" + Entered(text) == Entered(text);
    assert Prompted(messages, text, domain) == messages + [Prompt(messages, domain, Entered(text))];
  }

  lemma FinalMessages(msgs: seq<Turn>, answer: Turn, last: Turn)
    requires msgs != []
    ensures var m := Trimmed(msgs + [answer]);
      m != [] && var messages := m[..|m| - 1] + [last];
      CutInFront(msgs, messages[..|messages| - 1]) && Last(messages) == last
  {
    var c := TrimmedIsSuffix(msgs + [answer]);
    var m := Trimmed(msgs + [answer]);
    var messages := m[..|m| - 1] + [last];
    assert messages[..|messages| - 1] == msgs[c..];
    assert CutAt(msgs, messages[..|messages| - 1], c);
  }

  /** What the loop returns in the round of the answer that ends it. */
  ghost predicate Finals(msgs: seq<Turn>, r: Response, said: seq<string>, actions: seq<Action>, messages: seq<Turn>, reply: Reply)
    requires r.Answered?
  {
    && messages != [] && Last(messages) == Assistant([Text(FinalText(r.blocks, r.stop))])
    && CutInFront(msgs, messages[..|messages| - 1])
    && reply == Reply(Join(said + TurnTexts(r.blocks) + (if r.stop.Refusal? then [REFUSAL] else []), "\n\n"), actions)
  }

  lemma FinalRound(world: World, msgs: seq<Turn>, round: nat, said: seq<string>, actions: seq<Action>, sent: seq<seq<Turn>>, whole: Result)
    requires round < MAX_ITERATIONS && msgs != [] && world.Answer(round).Answered? && !Asks(world.Answer(round))
    requires whole == Rounds(world, msgs, round, said, actions, sent)
    ensures whole.Success? && whole.sent == sent + [msgs]
    ensures Finals(msgs, world.Answer(round), said, actions, whole.messages, whole.reply)
  {
    var r := world.Answer(round);
    FinalMessages(msgs, Assistant(r.blocks), Assistant([Text(FinalText(r.blocks, r.stop))]));
    assert said + TurnTexts(r.blocks) + [] == said + TurnTexts(r.blocks);
  }

  lemma FinalEnds(r: Response)
    requires r.Answered?
    ensures EndsWith(r, FinalText(r.blocks, r.stop))
  {
    assert !IsSpace(REFUSAL[0]);
  }

  lemma FinalTurn(world: World, msgs: seq<Turn>, round: nat, sent: seq<seq<Turn>>, messages: seq<Turn>, reply: Reply)
    requires |sent| == round && world.Answer(round).Answered? && !Asks(world.Answer(round))
    requires Finals(msgs, world.Answer(round), Said(world, round), Acted(world, round), messages, reply)
    ensures EndsWell(world, sent + [msgs], messages, reply)
  {
    FinalEnds(world.Answer(round));
    assert Said(world, round + 1) == Said(world, round) + TurnTexts(world.Answer(round).blocks);
    assert (sent + [msgs])[round] == msgs;
  }

  lemma ToldNext(world: World, sent: seq<seq<Turn>>, msgs: seq<Turn>, next: seq<Turn>)
    requires AllTold(world, sent + [msgs]) && RoundTold(world, |sent|, msgs, next)
    ensures AllTold(world, sent + [msgs] + [next])
  {
    var more := sent + [msgs] + [next];
    forall i | 0 <= i < |more| - 1 ensures RoundTold(world, i, more[i], more[i + 1]) {
      if i < |sent| {
        assert RoundTold(world, i, (sent + [msgs])[i], (sent + [msgs])[i + 1]);
      }
    }
  }

  /** The loop's variables before round `round`, all earlier answers having asked for tools. */
  ghost predicate Going(world: World, round: nat, msgs: seq<Turn>, said: seq<string>, done: seq<Action>, sent: seq<seq<Turn>>) {
    && round <= MAX_ITERATIONS && msgs != [] && |sent| == round && AllTold(world, sent + [msgs])
    && said == Said(world, round) && done == Acted(world, round)
    && forall i | 0 <= i < round :: Asks(world.Answer(i))
  }

  lemma ClosingTurn(world: World, msgs: seq<Turn>, said: seq<string>, done: seq<Action>, sent: seq<seq<Turn>>, whole: Result)
    requires Going(world, MAX_ITERATIONS, msgs, said, done, sent)
    requires whole == Rounds(world, msgs, MAX_ITERATIONS, said, done, sent)
    ensures Conversed(world, whole) && whole.sent == sent
  {
    var n := MAX_ITERATIONS - 1;
    assert RoundTold(world, n, (sent + [msgs])[n], (sent + [msgs])[n + 1]);
    assert whole.messages[..|whole.messages| - 1] == msgs;
    forall i | 0 <= i < |sent| - 1 ensures RoundTold(world, i, sent[i], sent[i + 1]) {
      assert RoundTold(world, i, (sent + [msgs])[i], (sent + [msgs])[i + 1]);
    }
  }

  /** The loop ends in this round. */
  lemma LastTurn(world: World, msgs: seq<Turn>, round: nat, said: seq<string>, done: seq<Action>, sent: seq<seq<Turn>>, whole: Result)
    requires Going(world, round, msgs, said, done, sent) && round < MAX_ITERATIONS && !Asks(world.Answer(round))
    requires whole == Rounds(world, msgs, round, said, done, sent)
    ensures Conversed(world, whole) && whole.sent == sent + [msgs]
  {
    if world.Answer(round).Answered? {
      FinalRound(world, msgs, round, said, done, sent, whole);
      FinalTurn(world, msgs, round, sent, whole.messages, whole.reply);
    }
  }

  /** A round that runs tools, and what it makes of the loop's variables. */
  lemma ToolTurn(world: World, msgs: seq<Turn>, round: nat, said: seq<string>, done: seq<Action>, sent: seq<seq<Turn>>, whole: Result)
    returns (next: seq<Turn>, more: seq<string>, ran: seq<Action>)
    requires Going(world, round, msgs, said, done, sent) && round < MAX_ITERATIONS && Asks(world.Answer(round))
    requires whole == Rounds(world, msgs, round, said, done, sent)
    ensures Going(world, round + 1, next, more, ran, sent + [msgs])
    ensures whole == Rounds(world, next, round + 1, more, ran, sent + [msgs])
  {
    var uses := ToolUses(world.Answer(round).blocks);
    next := Trimmed(Trimmed(msgs + [Assistant(world.Answer(round).blocks)]) + [User(Results(round, uses, world))]);
    more, ran := said + TurnTexts(world.Answer(round).blocks), done + Performed(round, uses, world);
    RoundsUnfold(world, msgs, round, said, done, sent);
    RoundTells(world, round, msgs);
    ToldNext(world, sent, msgs, next);
  }

  lemma {:induction false} RoundsConverse(world: World, msgs: seq<Turn>, round: nat, said: seq<string>, done: seq<Action>,
                                          sent: seq<seq<Turn>>, whole: Result)
    requires Going(world, round, msgs, said, done, sent) && whole == Rounds(world, msgs, round, said, done, sent)
    ensures Conversed(world, whole) && whole.sent[0] == (sent + [msgs])[0]
    decreases MAX_ITERATIONS - round
  {
    if round == MAX_ITERATIONS {
      ClosingTurn(world, msgs, said, done, sent, whole);
    } else if Asks(world.Answer(round)) {
      var next, more, ran := ToolTurn(world, msgs, round, said, done, sent, whole);
      RoundsConverse(world, next, round + 1, more, ran, sent + [msgs], whole);
    } else {
      LastTurn(world, msgs, round, said, done, sent, whole);
    }
  }

  /** A call of the loop from the transcript `msgs`, whatever the endpoint and the tools answer. */
  lemma CallConverses(world: World, msgs: seq<Turn>, r: Result)
    requires msgs != [] && r == Rounds(world, msgs, 0, [], [], [])
    ensures Conversed(world, r) && r.sent[0] == msgs
  {
    RoundsConverse(world, msgs, 0, [], [], [], r);
  }
}
