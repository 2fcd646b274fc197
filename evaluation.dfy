/** Evaluating one item and a batch of items: run the conversation from the
    item's texts, then score the reply each agent gave in the last round. A
    reply that does not match the score pattern is kept with the score
    (0, 0); a failing turn or a missing input field aborts the item, and the
    batch with it. */
module Evaluation {
  import opened Wrappers
  import opened Chat
  import opened AgentTurn
  import opened TurnMachine
  import opened Arith

  /** An input item: the question and the named candidate responses. */
  datatype Item = Item(question: string, response: map<string, string>)

  /** One agent's entry in a result. */
  datatype AgentEvaluation = AgentEvaluation(role: string, evaluation: string, score: (int, int))

  datatype EvaluationResult = EvaluationResult(
    question: string,
    response: map<string, string>,
    evaluation: seq<AgentEvaluation>)

  const FirstResponse: string := "gpt35"
  const SecondResponse: string := "vicuna"

  /** The state a conversation about `item` starts from. */
  function InitialState(cfg: Evaluator, item: Item): Result<State, Failure>
  {
    if FirstResponse !in item.response then Err(MissingResponse(FirstResponse))
    else if SecondResponse !in item.response then Err(MissingResponse(SecondResponse))
    else Ok(State(item.question, item.response[FirstResponse], item.response[SecondResponse],
                  [], cfg.agentSequence, cfg.roleDescription, 0))
  }

  /** The whole conversation about `item`. */
  function Conversation(cfg: Evaluator, item: Item): Result<State, Failure>
    requires cfg.Valid()
  {
    match InitialState(cfg, item)
    case Err(e) => Err(e)
    case Ok(init) => Steps(cfg, init, TotalTurns(cfg))
  }

  /** The last `n` messages of `history`. */
  function LastRound(history: seq<ChatMessage>, n: nat): seq<ChatMessage>
    requires n <= |history|
  {
    history[|history| - n..]
  }

  /** A successful conversation has one message per turn, `TotalTurns` in
      all; its last `|agentSequence|` messages are the last round, spoken in
      sequence order. */
  lemma ConversationShape(cfg: Evaluator, item: Item)
    requires cfg.Valid() && Conversation(cfg, item).Ok?
    ensures var h := Conversation(cfg, item).value.chatHistory;
            && |h| == TotalTurns(cfg) == Conversation(cfg, item).value.turn
            && |cfg.agentSequence| <= |h|
            && (forall i {:trigger LastRound(h, |cfg.agentSequence|)[i]} :: 0 <= i < |cfg.agentSequence| ==>
                  LastRound(h, |cfg.agentSequence|)[i].role == cfg.agentSequence[i])
  {
    var init := InitialState(cfg, item).value;
    assert Conversation(cfg, item) == Steps(cfg, init, TotalTurns(cfg));
    RunLastRound(cfg, init);
  }

  /** Over the whole conversation the agents speak in turn: message t is
      agent t mod k's, and every message is a broadcast. */
  lemma ConversationSpeakers(cfg: Evaluator, item: Item)
    requires cfg.Valid() && Conversation(cfg, item).Ok?
    ensures var h := Conversation(cfg, item).value.chatHistory;
            forall t :: 0 <= t < |h| ==>
              h[t].role == cfg.agentSequence[t % cfg.agentCount] && h[t].receiver == Broadcast
  {
    var init := InitialState(cfg, item).value;
    assert Conversation(cfg, item) == Steps(cfg, init, TotalTurns(cfg));
    RunSpeakers(cfg, init);
  }

  /** Over a run from the initial state, message t is agent t mod k's. */
  lemma RunSpeakers(cfg: Evaluator, init: State)
    requires cfg.Valid() && init.chatHistory == [] && init.turn == 0
    requires init.agentSequence == cfg.agentSequence
    requires Steps(cfg, init, TotalTurns(cfg)).Ok?
    ensures var h := Steps(cfg, init, TotalTurns(cfg)).value.chatHistory;
            forall t :: 0 <= t < |h| ==>
              h[t].role == cfg.agentSequence[t % cfg.agentCount] && h[t].receiver == Broadcast
  {
    var total := TotalTurns(cfg);
    StepsShape(cfg, init, total);
    var h := Steps(cfg, init, total).value.chatHistory;
    forall t | 0 <= t < |h|
      ensures h[t].role == cfg.agentSequence[t % cfg.agentCount] && h[t].receiver == Broadcast
    {
      assert init.turn + t - |init.chatHistory| == t;
    }
  }

  /** A run from the initial state ends with a full last round. */
  lemma RunLastRound(cfg: Evaluator, init: State)
    requires cfg.Valid() && init.chatHistory == [] && init.turn == 0
    requires init.agentSequence == cfg.agentSequence
    requires Steps(cfg, init, TotalTurns(cfg)).Ok?
    ensures var h := Steps(cfg, init, TotalTurns(cfg)).value.chatHistory;
            && |h| == TotalTurns(cfg) == Steps(cfg, init, TotalTurns(cfg)).value.turn
            && |cfg.agentSequence| <= |h|
            && (forall i {:trigger LastRound(h, |cfg.agentSequence|)[i]} :: 0 <= i < |cfg.agentSequence| ==>
                  LastRound(h, |cfg.agentSequence|)[i].role == cfg.agentSequence[i])
  {
    var total := TotalTurns(cfg);
    StepsShape(cfg, init, total);
    var h := Steps(cfg, init, total).value.chatHistory;
    var k := cfg.agentCount;
    LastRoundPosition(cfg, 0);
    forall i | 0 <= i < k
      ensures LastRound(h, k)[i].role == cfg.agentSequence[i]
    {
      LastRoundPosition(cfg, i);
      var t := total - k + i;
      assert LastRound(h, k)[i] == h[t];
      assert h[t].role == init.agentSequence[(init.turn + t - |init.chatHistory|) % k];
    }
  }

  /** Position i of the last round is taken by agent i. */
  lemma LastRoundPosition(cfg: Evaluator, i: nat)
    requires cfg.Valid() && i < cfg.agentCount
    ensures cfg.agentCount <= TotalTurns(cfg)
    ensures (TotalTurns(cfg) - cfg.agentCount + i) % cfg.agentCount == i
  {
    var k := cfg.agentCount;
    var rounds := if cfg.maxTurn >= 1 then cfg.maxTurn else 1;
    MulAtMost(k, 1, rounds);
    var t := TotalTurns(cfg) - k + i;
    assert t == k * (rounds - 1) + i;
    DivFromBounds(t, k, rounds - 1);
  }

  /** The state in which turn t of a successful conversation starts is the
      state after t turns: its turn counter is t and its history is the first
      t messages of the final history. Every message is a broadcast, so the
      filter then shows any agent all t earlier replies, in order. */
  lemma EveryAgentSeesAllEarlierReplies(cfg: Evaluator, item: Item, agent: string, t: nat)
    requires cfg.Valid() && Conversation(cfg, item).Ok?
    requires t <= TotalTurns(cfg)
    ensures var h := Conversation(cfg, item).value.chatHistory;
            var before := Steps(cfg, InitialState(cfg, item).value, t);
            && t <= |h|
            && before.Ok?
            && Runnable(cfg, before.value)
            && before.value.turn == t
            && before.value.chatHistory == h[..t]
            && VisibleHistory(before.value.chatHistory, agent) == Contents(h[..t])
  {
    var init := InitialState(cfg, item).value;
    var total := TotalTurns(cfg);
    assert Conversation(cfg, item) == Steps(cfg, init, total);
    StepsPrefix(cfg, init, t, total);
    var h := Conversation(cfg, item).value.chatHistory;
    ConversationSpeakers(cfg, item);
    AllBroadcastSeesAll(h[..t], agent);
  }

  /** The prompt of turn t < TotalTurns: it is rendered for agent t mod k,
      from all t earlier replies, with that agent's role text, and with the
      final directive exactly when turn t is in the last round. */
  lemma PromptAtTurn(cfg: Evaluator, item: Item, t: nat)
    requires cfg.Valid() && Conversation(cfg, item).Ok?
    requires t < TotalTurns(cfg)
    ensures var h := Conversation(cfg, item).value.chatHistory;
            var before := Steps(cfg, InitialState(cfg, item).value, t);
            && t < |h|
            && before.Ok?
            && Runnable(cfg, before.value)
            && Speaker(cfg, before.value) == cfg.agentSequence[t % cfg.agentCount]
            && Speaker(cfg, before.value) in cfg.roleDescription
            && var p := PromptFor(cfg, before.value);
               && p.agentName == cfg.agentSequence[t % cfg.agentCount]
               && p.roleDescription == cfg.roleDescription[p.agentName]
               && p.chatHistory == Contents(h[..t])
               && (p.finalPrompt == if cfg.maxTurn >= 1 && TotalTurns(cfg) - cfg.agentCount <= t
                                    then cfg.finalPrompt else "")
  {
    var init := InitialState(cfg, item).value;
    assert Conversation(cfg, item) == Steps(cfg, init, TotalTurns(cfg));
    RunPromptAt(cfg, init, t);
  }

  /** Every message among the first t of a run from the initial state is a
      broadcast. */
  lemma BroadcastPrefix(cfg: Evaluator, init: State, t: nat)
    requires cfg.Valid() && init.chatHistory == [] && init.turn == 0
    requires init.agentSequence == cfg.agentSequence
    requires Steps(cfg, init, TotalTurns(cfg)).Ok? && t <= TotalTurns(cfg)
    ensures var h := Steps(cfg, init, TotalTurns(cfg)).value.chatHistory;
            t <= |h| && forall i :: 0 <= i < |h[..t]| ==> h[..t][i].receiver == Broadcast
  {
    RunSpeakers(cfg, init);
    RunLastRound(cfg, init);
  }

  /** `PromptAtTurn` for any run from an initial state. */
  lemma RunPromptAt(cfg: Evaluator, init: State, t: nat)
    requires cfg.Valid() && init.chatHistory == [] && init.turn == 0
    requires init.agentSequence == cfg.agentSequence
    requires Steps(cfg, init, TotalTurns(cfg)).Ok? && t < TotalTurns(cfg)
    ensures var h := Steps(cfg, init, TotalTurns(cfg)).value.chatHistory;
            var before := Steps(cfg, init, t);
            && t < |h|
            && before.Ok?
            && Runnable(cfg, before.value)
            && Speaker(cfg, before.value) == cfg.agentSequence[t % cfg.agentCount]
            && Speaker(cfg, before.value) in cfg.roleDescription
            && var p := PromptFor(cfg, before.value);
               && p.agentName == cfg.agentSequence[t % cfg.agentCount]
               && p.roleDescription == cfg.roleDescription[p.agentName]
               && p.chatHistory == Contents(h[..t])
               && (p.finalPrompt == if cfg.maxTurn >= 1 && TotalTurns(cfg) - cfg.agentCount <= t
                                    then cfg.finalPrompt else "")
  {
    RunStateAt(cfg, init, t);
    BroadcastPrefix(cfg, init, t);
    BroadcastPrompt(cfg, Steps(cfg, init, t).value);
    FinalDirectiveOnLastRound(cfg, t);
  }

  /** The state in which turn t < TotalTurns of a successful run starts. */
  lemma RunStateAt(cfg: Evaluator, init: State, t: nat)
    requires cfg.Valid() && init.chatHistory == [] && init.turn == 0
    requires init.agentSequence == cfg.agentSequence
    requires Steps(cfg, init, TotalTurns(cfg)).Ok? && t < TotalTurns(cfg)
    ensures var h := Steps(cfg, init, TotalTurns(cfg)).value.chatHistory;
            var before := Steps(cfg, init, t);
            && t < |h|
            && before.Ok?
            && Runnable(cfg, before.value)
            && before.value.turn == t
            && before.value.chatHistory == h[..t]
            && Speaker(cfg, before.value) == cfg.agentSequence[t % cfg.agentCount]
            && Speaker(cfg, before.value) in cfg.roleDescription
  {
    var total := TotalTurns(cfg);
    StepsPrefix(cfg, init, t, total);
    StepsExtend(cfg, init, total);
    var before := Steps(cfg, init, t).value;
    StepsFirstTurn(cfg, before, total - t);
  }

  /** The prompt of a speaker whose history holds only broadcasts. */
  lemma BroadcastPrompt(cfg: Evaluator, st: State)
    requires Runnable(cfg, st) && Speaker(cfg, st) in cfg.roleDescription
    requires forall i :: 0 <= i < |st.chatHistory| ==> st.chatHistory[i].receiver == Broadcast
    ensures var p := PromptFor(cfg, st);
            && p.agentName == Speaker(cfg, st)
            && p.roleDescription == cfg.roleDescription[Speaker(cfg, st)]
            && p.chatHistory == Contents(st.chatHistory)
            && p.finalPrompt == FinalDirective(cfg, st.turn)
  {
    AllBroadcastSeesAll(st.chatHistory, Speaker(cfg, st));
  }

  /** The configuration of the shipped entry point: two agents, two rounds.
      Four turns, General Public, Critic, General Public, Critic; the final
      directive on the last two; one entry per agent in the result. */
  lemma TwoAgentsTwoRounds(cfg: Evaluator, item: Item)
    requires cfg.Valid() && cfg.agentSequence == ["General Public", "Critic"] && cfg.maxTurn == 2
    ensures TotalTurns(cfg) == 4
    ensures forall t: nat :: t < 4 ==> (IsFinalRound(t, cfg.agentCount, cfg.maxTurn) <==> 2 <= t)
    ensures Conversation(cfg, item).Ok? ==>
              var h := Conversation(cfg, item).value.chatHistory;
              |h| == 4
              && [h[0].role, h[1].role, h[2].role, h[3].role]
                 == ["General Public", "Critic", "General Public", "Critic"]
    ensures EvaluationOf(cfg, item).Ok? ==>
              |EvaluationOf(cfg, item).value.evaluation| == 2
              && EvaluationOf(cfg, item).value.evaluation[0].role == "General Public"
              && EvaluationOf(cfg, item).value.evaluation[1].role == "Critic"
  {
    forall t: nat | t < 4
      ensures IsFinalRound(t, cfg.agentCount, cfg.maxTurn) <==> 2 <= t
    {
      FinalDirectiveOnLastRound(cfg, t);
    }
    if Conversation(cfg, item).Ok? {
      ConversationShape(cfg, item);
      ConversationSpeakers(cfg, item);
    }
  }

  /** The score recorded for a reply: the matched pair, or (0, 0). */
  function ScoreOf(cfg: Evaluator, reply: string): (int, int)
  {
    match cfg.matcher(reply)
    case Some(pair) => pair
    case None => (0, 0)
  }

  /** Agent `i`'s entry, from its message of the last round. */
  function Entry(cfg: Evaluator, history: seq<ChatMessage>, i: nat): AgentEvaluation
    requires i < |cfg.agentSequence| <= |history|
  {
    var reply := history[|history| - |cfg.agentSequence| + i].content;
    AgentEvaluation(cfg.agentSequence[i], reply, ScoreOf(cfg, reply))
  }

  /** Every agent's entry, in sequence order. */
  function Entries(cfg: Evaluator, history: seq<ChatMessage>): seq<AgentEvaluation>
    requires |cfg.agentSequence| <= |history|
  {
    seq(|cfg.agentSequence|, i requires 0 <= i < |cfg.agentSequence| => Entry(cfg, history, i))
  }

  /** The result of evaluating `item`. It exists exactly when the
      conversation completes; it then copies the item's question and
      responses and holds one entry per agent, in sequence order: entry i
      is by agent i, who spoke the i-th of the last `|agentSequence|`
      messages, keeps that message's text and scores it with the matched
      pair, or (0, 0) when the pattern does not match. */
  function EvaluationOf(cfg: Evaluator, item: Item): (r: Result<EvaluationResult, Failure>)
    requires cfg.Valid()
    ensures r.Ok? <==> Conversation(cfg, item).Ok?
    ensures r.Err? ==> r.error == Conversation(cfg, item).error
    ensures r.Ok? ==>
              && r.value.question == item.question
              && r.value.response == item.response
              && |r.value.evaluation| == |cfg.agentSequence|
    ensures r.Ok? ==>
              var h := Conversation(cfg, item).value.chatHistory;
              var n := |cfg.agentSequence|;
              n <= |h|
              && forall i {:trigger r.value.evaluation[i]} :: 0 <= i < n ==>
                   var e := r.value.evaluation[i];
                   && e.role == cfg.agentSequence[i] == LastRound(h, n)[i].role
                   && e.evaluation == LastRound(h, n)[i].content
                   && (cfg.matcher(e.evaluation).Some? ==> e.score == cfg.matcher(e.evaluation).value)
                   && (cfg.matcher(e.evaluation).None? ==> e.score == (0, 0))
  {
    match Conversation(cfg, item)
    case Err(e) => Err(e)
    case Ok(final) =>
      ConversationShape(cfg, item);
      var h := final.chatHistory;
      Ok(EvaluationResult(item.question, item.response, Entries(cfg, h)))
  }

  /** `evaluate`: run the conversation, then score each agent's last reply. */
  method Evaluate(cfg: Evaluator, item: Item) returns (res: Result<EvaluationResult, Failure>)
    requires cfg.Valid()
    ensures res == EvaluationOf(cfg, item)
  {
    var init := InitialState(cfg, item);
    if init.Err? {
      return Err(init.error);
    }
    var final := RunConversation(cfg, init.value);
    assert final == Conversation(cfg, item) by {
      assert Conversation(cfg, item) == Steps(cfg, init.value, TotalTurns(cfg));
    }
    if final.Err? {
      return Err(final.error);
    }
    var history := final.value.chatHistory;
    var n := |cfg.agentSequence|;
    LastRoundPosition(cfg, 0);
    var results: seq<AgentEvaluation> := [];
    for i := 0 to n
      invariant |results| == i
      invariant forall j :: 0 <= j < i ==> results[j] == Entry(cfg, history, j)
    {
      var reply := history[|history| - n + i].content;
      var m := cfg.matcher(reply);
      if m.Some? {
        results := results + [AgentEvaluation(cfg.agentSequence[i], reply, m.value)];
      } else {
        results := results + [AgentEvaluation(cfg.agentSequence[i], reply, (0, 0))];
      }
    }
    assert results == Entries(cfg, history);
    return Ok(EvaluationResult(item.question, item.response, results));
  }

  /** `evaluate_batch`: evaluate the items in order. It succeeds exactly when
      every item does, with the items' results in input order; otherwise it
      fails with the failure of the first item that fails. */
  method EvaluateBatch(cfg: Evaluator, items: seq<Item>) returns (res: Result<seq<EvaluationResult>, Failure>)
    requires cfg.Valid()
    ensures res.Ok? <==> forall i :: 0 <= i < |items| ==> EvaluationOf(cfg, items[i]).Ok?
    ensures res.Ok? ==>
              |res.value| == |items|
              && forall i :: 0 <= i < |items| ==> res.value[i] == EvaluationOf(cfg, items[i]).value
    ensures res.Err? ==>
              exists f :: 0 <= f < |items|
                && (forall i :: 0 <= i < f ==> EvaluationOf(cfg, items[i]).Ok?)
                && EvaluationOf(cfg, items[f]) == Err(res.error)
  {
    var outputs: seq<EvaluationResult> := [];
    for i := 0 to |items|
      invariant |outputs| == i
      invariant forall j :: 0 <= j < i ==>
                  EvaluationOf(cfg, items[j]).Ok? && outputs[j] == EvaluationOf(cfg, items[j]).value
    {
      var result := Evaluate(cfg, items[i]);
      if result.Err? {
        return Err(result.error);
      }
      outputs := outputs + [result.value];
    }
    return Ok(outputs);
  }
}
