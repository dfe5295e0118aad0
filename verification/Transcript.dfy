/** The assistant's conversation transcript: a bounded tool-use loop against an
    arbitrary model endpoint, with trimming, a closing turn and rollback.

    The endpoint and the tools are arbitrary, so nothing is assumed about what
    they answer or when a call fails. */
module Transcript {
  import opened Common
  import opened Texts

  const MAX_ITERATIONS := 16
  const MAX_MESSAGES := 80
  const MAX_USER_CHARS := 8000
  const MAX_MENTIONED := 16384

  datatype Block =
    | Text(text: string)
    | ToolUse(id: string, name: string, input: string)
    | ToolResult(id: string, content: string, isError: bool)
    | Other(raw: string)

  datatype Turn = User(blocks: seq<Block>) | Assistant(blocks: seq<Block>)

  datatype StopReason = ToolUseStop | Refusal | OtherStop

  datatype Response = Failed | Answered(blocks: seq<Block>, stop: StopReason)

  datatype Outcome = Outcome(content: string, isError: bool, summary: string)

  datatype Action = Action(tool: string, summary: string, isError: bool)

  datatype Reply = Reply(text: string, actions: seq<Action>)

  /** What the outside does during one call of the loop: the endpoint's answer in
      each round (silence is a failed call) and the outcome of each tool use. */
  datatype World = World(answers: seq<Response>, outcomes: seq<seq<Outcome>>) {
    function Answer(round: nat): Response {
      if round < |answers| then answers[round] else Failed
    }

    function ToolOutcome(round: nat, k: nat): Outcome {
      if round < |outcomes| && k < |outcomes[round]| then outcomes[round][k] else Outcome("", true, "")
    }
  }

  // ----- What the API accepts ------------------------------------------------

  function ToolUses(blocks: seq<Block>): (uses: seq<Block>)
    ensures forall k | 0 <= k < |uses| :: uses[k].ToolUse?
  {
    if blocks == [] then []
    else ToolUses(blocks[..|blocks| - 1]) + (if Last(blocks).ToolUse? then [Last(blocks)] else [])
  }

  /** A turn of one text block that is not blank. */
  predicate Plain(t: Turn) {
    |t.blocks| == 1 && t.blocks[0].Text? && !Blank(t.blocks[0].text)
  }

  /** One result for each tool use, in order. */
  predicate Answers(results: seq<Block>, uses: seq<Block>)
    requires forall k | 0 <= k < |uses| :: uses[k].ToolUse?
  {
    |results| == |uses| && forall k | 0 <= k < |uses| :: results[k].ToolResult? && results[k].id == uses[k].id
  }

  /** Turn `i` may follow turn `i - 1`: roles alternate from the user, and a user
      turn answers the tool uses before it exactly, or is plain text if none. */
  predicate TurnOk(t: seq<Turn>, i: nat)
    requires i < |t|
  {
    if i % 2 == 1 then t[i].Assistant?
    else t[i].User? && if i > 0 && ToolUses(t[i - 1].blocks) != []
                       then Answers(t[i].blocks, ToolUses(t[i - 1].blocks)) else Plain(t[i])
  }

  ghost predicate WellFormed(t: seq<Turn>) {
    forall i {:trigger TurnOk(t, i)} | 0 <= i < |t| :: TurnOk(t, i)
  }

  /** A transcript that may be kept: empty, or ending on a text-only assistant turn. */
  ghost predicate Stored(t: seq<Turn>) {
    WellFormed(t) && (t != [] ==> Last(t).Assistant? && Plain(Last(t)))
  }

  /** A transcript that may be sent: it ends on a user turn. */
  ghost predicate Sendable(t: seq<Turn>) {
    WellFormed(t) && t != [] && Last(t).User?
  }

  // ----- Trimming --------------------------------------------------------------

  predicate IsToolResult(blocks: seq<Block>) {
    blocks != [] && blocks[0].ToolResult?
  }

  predicate CleanCut(t: Turn) {
    t.User? && !IsToolResult(t.blocks)
  }

  /** The first clean cut at or after `i`, if there is one. */
  function FirstCut(msgs: seq<Turn>, i: nat): (c: Option<nat>)
    ensures c.Some? ==> i <= c.value < |msgs| && CleanCut(msgs[c.value]) && forall k | i <= k < c.value :: !CleanCut(msgs[k])
    ensures c.None? ==> forall k | i <= k < |msgs| :: !CleanCut(msgs[k])
    decreases |msgs| - i
  {
    if i >= |msgs| then None else if CleanCut(msgs[i]) then Some(i) else FirstCut(msgs, i + 1)
  }

  function Trimmed(msgs: seq<Turn>): (r: seq<Turn>)
    ensures msgs != [] ==> r != []
  {
    if |msgs| <= MAX_MESSAGES then msgs
    else match FirstCut(msgs, |msgs| - MAX_MESSAGES)
      case Some(c) => msgs[c..]
      case None => msgs
  }

  method TrimHistory(msgs: seq<Turn>) returns (kept: seq<Turn>)
    ensures kept == Trimmed(msgs)
  {
    if |msgs| <= MAX_MESSAGES {
      return msgs;
    }
    var i := |msgs| - MAX_MESSAGES;
    while i < |msgs|
      invariant i <= |msgs|
      invariant FirstCut(msgs, i) == FirstCut(msgs, |msgs| - MAX_MESSAGES)
    {
      if CleanCut(msgs[i]) {
        return msgs[i..];
      }
      i := i + 1;
    }
    return msgs;
  }

  // ----- One round, and the loop -------------------------------------------------

  function TurnTexts(blocks: seq<Block>): seq<string> {
    if blocks == [] then []
    else TurnTexts(blocks[..|blocks| - 1]) +
         (if Last(blocks).Text? && !Blank(Last(blocks).text) then [TrimSpace(Last(blocks).text)] else [])
  }

  /** The outcomes of the first tool uses of a turn, as result blocks. */
  function Results(round: nat, uses: seq<Block>, world: World): (rs: seq<Block>)
    requires forall k | 0 <= k < |uses| :: uses[k].ToolUse?
    ensures Answers(rs, uses)
  {
    if uses == [] then []
    else
      var n := |uses| - 1;
      var o := world.ToolOutcome(round, n);
      Results(round, uses[..n], world) + [ToolResult(uses[n].id, o.content, o.isError)]
  }

  /** The actions reported: the outcomes that carry a summary. */
  function Performed(round: nat, uses: seq<Block>, world: World): seq<Action>
    requires forall k | 0 <= k < |uses| :: uses[k].ToolUse?
  {
    if uses == [] then []
    else
      var n := |uses| - 1;
      var o := world.ToolOutcome(round, n);
      Performed(round, uses[..n], world) + (if o.summary != "" then [Action(uses[n].name, o.summary, o.isError)] else [])
  }

  const REFUSAL := "I can't help with that request."

  function Closing(): (text: string)
    ensures !Blank(text)
  {
    var text := "I stopped to avoid running too long.";
    assert text[0] == 'I' && !IsSpace(text[0]);
    text
  }

  /** The text that closes a terminal turn. */
  function FinalText(blocks: seq<Block>, stop: StopReason): (text: string)
    ensures !Blank(text)
  {
    var joined := if stop.Refusal? then REFUSAL else Join(TurnTexts(blocks), "\n\n");
    assert !IsSpace("Done."[0]);
    if Blank(joined) then "Done." else joined
  }

  /** What the rounds from `round` on make of a transcript. `sent` lists the
      requests made, in order. */
  datatype Result =
    | Failure(sent: seq<seq<Turn>>)
    | Success(messages: seq<Turn>, reply: Reply, sent: seq<seq<Turn>>)

  function Rounds(world: World, msgs: seq<Turn>, round: nat,
                  texts: seq<string>, actions: seq<Action>, sent: seq<seq<Turn>>): Result
    requires round <= MAX_ITERATIONS
    decreases MAX_ITERATIONS - round
  {
    if round == MAX_ITERATIONS then
      Success(msgs + [Assistant([Text(Closing())])], Reply(Join(texts + [Closing()], "\n\n"), actions), sent)
    else
      var r, log := world.Answer(round), sent + [msgs];
      if r.Failed? then Failure(log)
      else
        var m, uses, said := Trimmed(msgs + [Assistant(r.blocks)]), ToolUses(r.blocks), texts + TurnTexts(r.blocks);
        if !r.stop.ToolUseStop? || uses == [] then
          var final := FinalText(r.blocks, r.stop);
          Success(m[..|m| - 1] + [Assistant([Text(final)])],
                  Reply(Join(if r.stop.Refusal? then said + [REFUSAL] else said, "\n\n"), actions), log)
        else
          Rounds(world, Trimmed(m + [User(Results(round, uses, world))]), round + 1,
                 said, actions + Performed(round, uses, world), log)
  }

  // ----- The loop keeps the transcript valid and bounded ------------------------------

  /** `msgs` still holds the prompt `base` ends on, at index `a`, with the turns
      before it cut at the front only. */
  ghost predicate Keeps(base: seq<Turn>, msgs: seq<Turn>, a: nat) {
    a < |msgs| && a < |base| && msgs[..a + 1] == base[|base| - 1 - a..]
  }

  ghost predicate KeepsPrompt(base: seq<Turn>, msgs: seq<Turn>) {
    exists a :: Keeps(base, msgs, a)
  }

  lemma SuffixWellFormed(t: seq<Turn>, c: nat)
    requires WellFormed(t) && c < |t| && CleanCut(t[c])
    ensures c % 2 == 0 && WellFormed(t[c..])
  {
    assert TurnOk(t, c);
    forall i | 0 <= i < |t[c..]| ensures TurnOk(t[c..], i) {
      assert TurnOk(t, c + i);
    }
  }

  lemma CutKeeps(base: seq<Turn>, t: seq<Turn>, a: nat, c: nat)
    requires Keeps(base, t, a) && c <= a
    ensures Keeps(base, t[c..], a - c) && t[c..][a - c] == t[a]
  {
    assert t[c..][..a - c + 1] == t[..a + 1][c..];
  }

  /** Trimming cuts at a prompt no later than the one being answered. */
  lemma TrimKeeps(base: seq<Turn>, t: seq<Turn>, a: nat) returns (b: nat)
    requires WellFormed(t) && Keeps(base, t, a) && CleanCut(t[a]) && |t| - a <= MAX_MESSAGES
    ensures WellFormed(Trimmed(t)) && Keeps(base, Trimmed(t), b) && Trimmed(t)[b] == t[a]
    ensures |Trimmed(t)| - b == |t| - a && |Trimmed(t)| % 2 == |t| % 2
    ensures |Trimmed(t)| <= MAX_MESSAGES && Last(Trimmed(t)) == Last(t)
  {
    b := a;
    if |t| > MAX_MESSAGES {
      var c := FirstCut(t, |t| - MAX_MESSAGES).value;
      SuffixWellFormed(t, c);
      CutKeeps(base, t, a, c);
      b := a - c;
    }
  }

  lemma AppendWellFormed(t: seq<Turn>, turn: Turn)
    requires WellFormed(t) && TurnOk(t + [turn], |t|)
    ensures WellFormed(t + [turn])
  {
    forall i | 0 <= i < |t + [turn]| ensures TurnOk(t + [turn], i) {
      if i < |t| {
        assert TurnOk(t, i);
      }
    }
  }

  lemma AppendKeeps(base: seq<Turn>, t: seq<Turn>, a: nat, turn: Turn)
    requires Keeps(base, t, a)
    ensures Keeps(base, t + [turn], a)
  {
    assert (t + [turn])[..a + 1] == t[..a + 1];
  }

  /** The transcript as round `round` is about to send it. */
  ghost predicate RoundOk(base: seq<Turn>, msgs: seq<Turn>, round: nat, a: nat) {
    && WellFormed(msgs) && Keeps(base, msgs, a) && Plain(msgs[a]) && msgs[a].User?
    && |msgs| == a + 1 + 2 * round && |msgs| % 2 == 1
    && |msgs| <= MAX_MESSAGES + (if round == 0 then 1 else 0)
  }

  ghost predicate AllSendable(sent: seq<seq<Turn>>) {
    forall k | 0 <= k < |sent| :: Sendable(sent[k]) && |sent[k]| <= MAX_MESSAGES + 1
  }

  ghost predicate ResultOk(base: seq<Turn>, r: Result) {
    && AllSendable(r.sent)
    && (r.Success? ==> Stored(r.messages) && |r.messages| <= MAX_MESSAGES && KeepsPrompt(base, r.messages))
  }

  /** The turn a round appends for the model's answer, trimmed. */
  lemma AnswerAppended(base: seq<Turn>, msgs: seq<Turn>, round: nat, a: nat, blocks: seq<Block>) returns (b: nat)
    requires RoundOk(base, msgs, round, a) && round < MAX_ITERATIONS
    ensures var m := Trimmed(msgs + [Assistant(blocks)]);
      WellFormed(m) && Keeps(base, m, b) && m[b] == msgs[a] && |m| == b + 2 + 2 * round && |m| % 2 == 0
      && |m| <= MAX_MESSAGES && Last(m) == Assistant(blocks)
  {
    var t := msgs + [Assistant(blocks)];
    AppendWellFormed(msgs, Assistant(blocks));
    AppendKeeps(base, msgs, a, Assistant(blocks));
    b := TrimKeeps(base, t, a);
  }

  lemma ClosedOk(base: seq<Turn>, msgs: seq<Turn>, round: nat, a: nat, text: string, reply: Reply, sent: seq<seq<Turn>>)
    requires RoundOk(base, msgs, round, a) && round > 0 && AllSendable(sent) && !Blank(text)
    ensures ResultOk(base, Success(msgs + [Assistant([Text(text)])], reply, sent))
  {
    AppendWellFormed(msgs, Assistant([Text(text)]));
    AppendKeeps(base, msgs, a, Assistant([Text(text)]));
    assert Stored(msgs + [Assistant([Text(text)])]);
  }

  lemma ClosingOk(base: seq<Turn>, msgs: seq<Turn>, round: nat, a: nat, reply: Reply, sent: seq<seq<Turn>>)
    requires RoundOk(base, msgs, round, a) && round > 0 && AllSendable(sent)
    ensures ResultOk(base, Success(msgs + [Assistant([Text(Closing())])], reply, sent))
  {
    ClosedOk(base, msgs, round, a, Closing(), reply, sent);
  }

  lemma TerminalOk(base: seq<Turn>, m: seq<Turn>, b: nat, final: string, reply: Reply, sent: seq<seq<Turn>>)
    requires WellFormed(m) && Keeps(base, m, b) && b < |m| - 1 && |m| % 2 == 0 && |m| <= MAX_MESSAGES
    requires !Blank(final) && AllSendable(sent)
    ensures ResultOk(base, Success(m[..|m| - 1] + [Assistant([Text(final)])], reply, sent))
  {
    var t := m[..|m| - 1] + [Assistant([Text(final)])];
    forall i | 0 <= i < |t| ensures TurnOk(t, i) {
      assert TurnOk(m, i);
    }
    assert t[..b + 1] == m[..b + 1];
    assert Keeps(base, t, b);
  }

  lemma ResultsAppended(base: seq<Turn>, m: seq<Turn>, round: nat, b: nat, results: seq<Block>) returns (c: nat)
    requires WellFormed(m) && Keeps(base, m, b) && m[b].User? && Plain(m[b]) && round < MAX_ITERATIONS
    requires |m| == b + 2 + 2 * round && |m| % 2 == 0
    requires ToolUses(Last(m).blocks) != [] && Answers(results, ToolUses(Last(m).blocks))
    ensures RoundOk(base, Trimmed(m + [User(results)]), round + 1, c)
  {
    AppendWellFormed(m, User(results));
    AppendKeeps(base, m, b, User(results));
    c := RoundTrimmed(base, m + [User(results)], round + 1, b);
  }

  lemma RoundTrimmed(base: seq<Turn>, t: seq<Turn>, round: nat, b: nat) returns (c: nat)
    requires WellFormed(t) && Keeps(base, t, b) && t[b].User? && Plain(t[b])
    requires 0 < round <= MAX_ITERATIONS && |t| == b + 1 + 2 * round && |t| % 2 == 1
    ensures RoundOk(base, Trimmed(t), round, c)
  {
    c := TrimKeeps(base, t, b);
  }

  lemma RequestOk(base: seq<Turn>, msgs: seq<Turn>, round: nat, a: nat, sent: seq<seq<Turn>>)
    requires RoundOk(base, msgs, round, a) && AllSendable(sent)
    ensures AllSendable(sent + [msgs])
  {
    assert TurnOk(msgs, |msgs| - 1);
  }

  /** What a round that is not the last makes of the transcript. */
  lemma RoundsUnfold(world: World, msgs: seq<Turn>, round: nat,
                     texts: seq<string>, actions: seq<Action>, sent: seq<seq<Turn>>)
    requires round < MAX_ITERATIONS && world.Answer(round).Answered?
    ensures var whole, r, log := Rounds(world, msgs, round, texts, actions, sent), world.Answer(round), sent + [msgs];
      var m, uses, said := Trimmed(msgs + [Assistant(r.blocks)]), ToolUses(r.blocks), texts + TurnTexts(r.blocks);
      if !r.stop.ToolUseStop? || uses == [] then
        whole.Success? && whole.sent == log && whole.messages == m[..|m| - 1] + [Assistant([Text(FinalText(r.blocks, r.stop))])]
      else
        whole == Rounds(world, Trimmed(m + [User(Results(round, uses, world))]), round + 1,
                        said, actions + Performed(round, uses, world), log)
  {
  }

  lemma SameResult(base: seq<Turn>, r: Result, q: Result)
    requires ResultOk(base, r) && r.Success? == q.Success? && r.sent == q.sent && (r.Success? ==> r.messages == q.messages)
    ensures ResultOk(base, q)
  {
  }

  /** The loop ends in this round: no round left, a failed call, or a turn without tool uses to run. */
  predicate Ends(world: World, round: nat) {
    var r := world.Answer(round);
    round == MAX_ITERATIONS || r.Failed? || !r.stop.ToolUseStop? || ToolUses(r.blocks) == []
  }

  lemma LastRound(base: seq<Turn>, world: World, msgs: seq<Turn>, a: nat,
                  texts: seq<string>, actions: seq<Action>, sent: seq<seq<Turn>>)
    requires RoundOk(base, msgs, MAX_ITERATIONS, a) && AllSendable(sent)
    ensures ResultOk(base, Rounds(world, msgs, MAX_ITERATIONS, texts, actions, sent))
  {
    ClosingOk(base, msgs, MAX_ITERATIONS, a, Reply("", []), sent);
    SameResult(base, Success(msgs + [Assistant([Text(Closing())])], Reply("", []), sent),
               Rounds(world, msgs, MAX_ITERATIONS, texts, actions, sent));
  }

  lemma FailedRound(base: seq<Turn>, world: World, msgs: seq<Turn>, round: nat, a: nat,
                    texts: seq<string>, actions: seq<Action>, sent: seq<seq<Turn>>)
    requires round < MAX_ITERATIONS && RoundOk(base, msgs, round, a) && AllSendable(sent) && world.Answer(round).Failed?
    ensures ResultOk(base, Rounds(world, msgs, round, texts, actions, sent))
  {
    RequestOk(base, msgs, round, a, sent);
    SameResult(base, Failure(sent + [msgs]), Rounds(world, msgs, round, texts, actions, sent));
  }

  lemma FinalRound(base: seq<Turn>, world: World, msgs: seq<Turn>, round: nat, a: nat,
                   texts: seq<string>, actions: seq<Action>, sent: seq<seq<Turn>>)
    requires round < MAX_ITERATIONS && RoundOk(base, msgs, round, a) && AllSendable(sent) && world.Answer(round).Answered?
    requires !world.Answer(round).stop.ToolUseStop? || ToolUses(world.Answer(round).blocks) == []
    ensures ResultOk(base, Rounds(world, msgs, round, texts, actions, sent))
  {
    var r, log, whole := world.Answer(round), sent + [msgs], Rounds(world, msgs, round, texts, actions, sent);
    RequestOk(base, msgs, round, a, sent);
    RoundsUnfold(world, msgs, round, texts, actions, sent);
    var b := AnswerAppended(base, msgs, round, a, r.blocks);
    var m, final := Trimmed(msgs + [Assistant(r.blocks)]), FinalText(r.blocks, r.stop);
    TerminalOk(base, m, b, final, Reply("", []), log);
    SameResult(base, Success(m[..|m| - 1] + [Assistant([Text(final)])], Reply("", []), log), whole);
  }

  lemma EndingRound(base: seq<Turn>, world: World, msgs: seq<Turn>, round: nat, a: nat,
                    texts: seq<string>, actions: seq<Action>, sent: seq<seq<Turn>>)
    requires round <= MAX_ITERATIONS && RoundOk(base, msgs, round, a) && AllSendable(sent) && Ends(world, round)
    ensures ResultOk(base, Rounds(world, msgs, round, texts, actions, sent))
  {
    if round == MAX_ITERATIONS {
      LastRound(base, world, msgs, a, texts, actions, sent);
    } else if world.Answer(round).Failed? {
      FailedRound(base, world, msgs, round, a, texts, actions, sent);
    } else {
      FinalRound(base, world, msgs, round, a, texts, actions, sent);
    }
  }

  lemma NextRound(base: seq<Turn>, world: World, msgs: seq<Turn>, round: nat, a: nat,
                  texts: seq<string>, actions: seq<Action>, sent: seq<seq<Turn>>)
    returns (next: seq<Turn>, c: nat, said: seq<string>, done: seq<Action>, log: seq<seq<Turn>>)
    requires round < MAX_ITERATIONS && RoundOk(base, msgs, round, a) && AllSendable(sent) && world.Answer(round).Answered?
    requires world.Answer(round).stop.ToolUseStop? && ToolUses(world.Answer(round).blocks) != []
    ensures RoundOk(base, next, round + 1, c) && AllSendable(log)
    ensures Rounds(world, msgs, round, texts, actions, sent) == Rounds(world, next, round + 1, said, done, log)
  {
    var r := world.Answer(round);
    var m, uses := Trimmed(msgs + [Assistant(r.blocks)]), ToolUses(r.blocks);
    var b := AnswerAppended(base, msgs, round, a, r.blocks);
    var results := Results(round, uses, world);
    c := ResultsAppended(base, m, round, b, results);
    next, said, log := Trimmed(m + [User(results)]), texts + TurnTexts(r.blocks), sent + [msgs];
    done := actions + Performed(round, uses, world);
    RequestOk(base, msgs, round, a, sent);
    RoundsUnfold(world, msgs, round, texts, actions, sent);
  }

  lemma {:induction false} RoundsLeadTo(base: seq<Turn>, world: World, msgs: seq<Turn>, round: nat, a: nat,
                                        texts: seq<string>, actions: seq<Action>, sent: seq<seq<Turn>>, whole: Result)
    requires round <= MAX_ITERATIONS && RoundOk(base, msgs, round, a) && AllSendable(sent)
    requires whole == Rounds(world, msgs, round, texts, actions, sent)
    ensures ResultOk(base, whole)
    decreases MAX_ITERATIONS - round
  {
    if Ends(world, round) {
      EndingRound(base, world, msgs, round, a, texts, actions, sent);
    } else {
      var next, c, said, done, log := NextRound(base, world, msgs, round, a, texts, actions, sent);
      RoundsLeadTo(base, world, next, round + 1, c, said, done, log, whole);
    }
  }

  /** Whatever the endpoint and the tools answer, every request sent is one the
      API accepts, and a transcript that is kept is valid and bounded. */
  lemma RoundsKeepTranscript(base: seq<Turn>, world: World, msgs: seq<Turn>, round: nat, a: nat,
                             texts: seq<string>, actions: seq<Action>, sent: seq<seq<Turn>>)
    requires round <= MAX_ITERATIONS && RoundOk(base, msgs, round, a) && AllSendable(sent)
    ensures ResultOk(base, Rounds(world, msgs, round, texts, actions, sent))
  {
    RoundsLeadTo(base, world, msgs, round, a, texts, actions, sent, Rounds(world, msgs, round, texts, actions, sent));
  }

  // ----- One user message ---------------------------------------------------------

  /** The operator's text as it is used: trimmed, then cut to the limit. */
  function Entered(text: string): (r: string)
    ensures r == "" <==> Blank(text)
    ensures r != "" ==> !Blank(r)
    ensures FirstOf(text, r)
  {
    var t := TrimSpace(text);
    var r := if |t| > MAX_USER_CHARS then t[..MAX_USER_CHARS] else t;
    assert r != "" ==> !IsSpace(r[0]);
    assert IsFirst(t, r);
    r
  }

  /** `r` is as much of `t` as the limit allows. */
  ghost predicate IsFirst(t: string, r: string) {
    r <= t && (|t| <= MAX_USER_CHARS ==> r == t) && (|t| > MAX_USER_CHARS ==> |r| == MAX_USER_CHARS)
  }

  /** `r` is as much of the trimmed text as the limit allows. */
  ghost predicate FirstOf(text: string, r: string) {
    exists t :: TrimmedText(text, t) && IsFirst(t, r)
  }

  /** What the first message says about its domain. */
  function About(domain: string): string {
    "(This conversation is about the domain " + domain + ".)\n\n"
  }

  lemma NotBlankBehind(a: string, b: string)
    ensures !Blank(b) ==> !Blank(a + b)
  {
    if !Blank(b) {
      var i :| 0 <= i < |b| && !IsSpace(b[i]);
      assert (a + b)[|a| + i] == b[i];
    }
  }

  /** The text of the user turn; the first one names the domain of the chat. */
  function Seed(messages: seq<Turn>, text: string, domain: string): (r: string)
    ensures !Blank(Entered(text)) ==> !Blank(r)
  {
    if messages == [] && !Blank(domain) then
      NotBlankBehind(About(domain), Entered(text));
      About(domain) + Entered(text)
    else Entered(text)
  }

  function Prompted(messages: seq<Turn>, text: string, domain: string): seq<Turn> {
    messages + [User([Text(Seed(messages, text, domain))])]
  }

  function Answer(messages: seq<Turn>, text: string, domain: string, world: World): Result {
    Rounds(world, Prompted(messages, text, domain), 0, [], [], [])
  }

  /** The transcript after a message; a blank message or a failed call changes nothing. */
  function AfterMessage(messages: seq<Turn>, text: string, domain: string, world: World): seq<Turn> {
    var r := Answer(messages, text, domain, world);
    if Blank(text) || r.Failure? then messages else r.messages
  }

  ghost predicate Kept(messages: seq<Turn>) {
    Stored(messages) && |messages| <= MAX_MESSAGES
  }

  lemma PromptOk(messages: seq<Turn>, prompt: Turn)
    requires Kept(messages) && prompt.User? && Plain(prompt)
    ensures RoundOk(messages + [prompt], messages + [prompt], 0, |messages|)
  {
    var base := messages + [prompt];
    if messages != [] {
      assert TurnOk(messages, |messages| - 1);
      assert ToolUses(messages[|messages| - 1].blocks) == [] by {
        var blocks := messages[|messages| - 1].blocks;
        assert ToolUses(blocks[..0]) == [] && !Last(blocks).ToolUse?;
      }
    }
    AppendWellFormed(messages, prompt);
    assert base[..|messages| + 1] == base[|base| - 1 - |messages|..];
  }

  /** One message on a kept transcript: the requests sent are acceptable, the new
      transcript is kept, and the turn just answered and the turns before it are
      only ever shortened at the front. */
  lemma MessageKeepsTranscript(messages: seq<Turn>, text: string, domain: string, world: World)
    requires Kept(messages) && !Blank(text)
    ensures AllSendable(Answer(messages, text, domain, world).sent)
    ensures Kept(AfterMessage(messages, text, domain, world))
    ensures var r := Answer(messages, text, domain, world); r.Success? ==> KeepsPrompt(Prompted(messages, text, domain), r.messages)
  {
    var base := Prompted(messages, text, domain);
    PromptOk(messages, Last(base));
    RoundsKeepTranscript(base, world, base, 0, |messages|, [], [], []);
  }

  datatype Message = Message(text: string, domain: string, world: World)

  function AfterMessages(calls: seq<Message>): seq<Turn> {
    if calls == [] then []
    else
      var c := Last(calls);
      AfterMessage(AfterMessages(calls[..|calls| - 1]), c.text, c.domain, c.world)
  }

  /** After any sequence of messages, failed ones included, the transcript is one
      that may be kept, and the next message makes only acceptable requests. */
  lemma {:induction false} ConversationStaysValid(calls: seq<Message>, text: string, domain: string, world: World)
    ensures Kept(AfterMessages(calls))
    ensures !Blank(text) ==> AllSendable(Answer(AfterMessages(calls), text, domain, world).sent)
  {
    if calls != [] {
      var c, before := Last(calls), calls[..|calls| - 1];
      ConversationStaysValid(before, c.text, c.domain, c.world);
      if !Blank(c.text) {
        MessageKeepsTranscript(AfterMessages(before), c.text, c.domain, c.world);
      }
    }
    if !Blank(text) {
      MessageKeepsTranscript(AfterMessages(calls), text, domain, world);
    }
  }
}
