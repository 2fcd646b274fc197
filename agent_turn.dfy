/** One agent's turn: choose the speaker, assemble its prompt, ask its
    language model for a reply and append that reply to the history. The
    evaluator's configuration is a value: nothing in it changes after
    construction. */
module AgentTurn {
  import opened Wrappers
  import opened Chat
  import opened Arith

  /** The evaluator's configuration. `agentCount` is the number of language
      model handles; the external capabilities are parameters:
      `render` fills the prompt template and joins its messages with
      newlines, `generate(i, prompt)` is model `i`'s reply (None when the call
      raises), `matcher` is the first match of the score pattern, with both
      groups read as integers. */
  datatype Evaluator = Evaluator(
    agentCount: nat,
    agentSequence: seq<string>,
    roleDescription: map<string, string>,
    finalPrompt: string,
    maxTurn: int,
    render: PromptVars -> string,
    generate: (nat, string) -> Option<string>,
    matcher: string -> Option<(int, int)>)
  {
    /** At least one agent, and one model handle per agent in the sequence. */
    predicate Valid()
    {
      agentCount >= 1 && |agentSequence| == agentCount
    }
  }

  /** The turn may run on `st`: the agent sequence the STATE carries (the
      turn reads the state's copy, not the evaluator's) names one agent per
      model handle. Kept apart from `Evaluator.Valid` because a turn reads
      nothing else of the evaluator's sequence. */
  predicate Runnable(cfg: Evaluator, st: State)
  {
    cfg.agentCount >= 1 && |st.agentSequence| == cfg.agentCount
  }

  /** The agent whose turn it is. */
  function Speaker(cfg: Evaluator, st: State): string
    requires Runnable(cfg, st)
  {
    st.agentSequence[st.turn % cfg.agentCount]
  }

  /** Is `turn` in the last round (rounds counted from zero)? */
  predicate IsFinalRound(turn: nat, agentCount: nat, maxTurn: int)
    requires agentCount >= 1
  {
    turn / agentCount + 1 == maxTurn
  }

  /** The final directive is in the last round exactly: the turns from
      `agentCount * (maxTurn - 1)` up to, not including,
      `agentCount * maxTurn`; no turn gets it when `maxTurn <= 0`. */
  lemma FinalRoundWindow(turn: nat, agentCount: nat, maxTurn: int)
    requires agentCount >= 1
    ensures IsFinalRound(turn, agentCount, maxTurn)
        <==> maxTurn >= 1 && agentCount * (maxTurn - 1) <= turn < agentCount * maxTurn
  {
    var k := agentCount;
    if maxTurn >= 1 && k * (maxTurn - 1) <= turn < k * maxTurn {
      assert k * maxTurn == k * (maxTurn - 1) + k;
      DivFromBounds(turn, k, maxTurn - 1);
    }
    if IsFinalRound(turn, k, maxTurn) {
      var q := turn / k;
      assert k * q <= turn < k * q + k;
      assert k * maxTurn == k * q + k;
    }
  }

  function FinalDirective(cfg: Evaluator, turn: nat): string
    requires cfg.agentCount >= 1
  {
    if IsFinalRound(turn, cfg.agentCount, cfg.maxTurn) then cfg.finalPrompt else ""
  }

  /** The template variables of the speaker's prompt. */
  function PromptFor(cfg: Evaluator, st: State): PromptVars
    requires Runnable(cfg, st) && Speaker(cfg, st) in cfg.roleDescription
  {
    var speaker := Speaker(cfg, st);
    PromptVars(
      st.sourceText, st.comparedTextOne, st.comparedTextTwo,
      VisibleHistory(st.chatHistory, speaker),
      cfg.roleDescription[speaker], speaker,
      FinalDirective(cfg, st.turn))
  }

  /** The reply of model `agentIdx` to the speaker's rendered prompt. */
  function Reply(cfg: Evaluator, st: State, agentIdx: nat): Option<string>
    requires Runnable(cfg, st) && Speaker(cfg, st) in cfg.roleDescription
  {
    cfg.generate(agentIdx, cfg.render(PromptFor(cfg, st)))
  }

  /** The node function of agent `agentIdx`: one turn. It succeeds exactly
      when the speaker has a role description and the model replies; it then
      appends one broadcast message from the speaker holding the reply,
      advances `turn` by one and leaves every other part of the state as it
      was. */
  function Step(cfg: Evaluator, st: State, agentIdx: nat): (r: Result<State, Failure>)
    requires Runnable(cfg, st)
    ensures r.Ok? <==> Speaker(cfg, st) in cfg.roleDescription && Reply(cfg, st, agentIdx).Some?
    ensures Speaker(cfg, st) !in cfg.roleDescription ==> r == Err(MissingRole(Speaker(cfg, st)))
    ensures (Speaker(cfg, st) in cfg.roleDescription && Reply(cfg, st, agentIdx).None?)
              ==> r == Err(BackendFailure(agentIdx, st.turn))
    ensures r.Ok? ==>
              && r.value.turn == st.turn + 1
              && |r.value.chatHistory| == |st.chatHistory| + 1
              && r.value.chatHistory[..|st.chatHistory|] == st.chatHistory
              && r.value.chatHistory[|st.chatHistory|].role == Speaker(cfg, st)
              && r.value.chatHistory[|st.chatHistory|].receiver == Broadcast
              && r.value.chatHistory[|st.chatHistory|].content == Reply(cfg, st, agentIdx).value
              && r.value.(chatHistory := st.chatHistory, turn := st.turn) == st
  {
    var speaker := Speaker(cfg, st);
    if speaker !in cfg.roleDescription then
      Err(MissingRole(speaker))
    else
      match Reply(cfg, st, agentIdx)
      case None => Err(BackendFailure(agentIdx, st.turn))
      case Some(reply) =>
        var msg := ChatMessage(speaker, Broadcast, reply);
        Ok(st.(chatHistory := st.chatHistory + [msg], turn := st.turn + 1))
  }
}
