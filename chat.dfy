/** The records shared by every turn of a conversation (`ChatMessage`,
    `State`), the variables handed to the prompt template, and the filter
    that decides which earlier messages an agent is shown. */
module Chat {

  /** One message of the shared history. `receiver` lists the agents the
      message is addressed to; the one-element list ["all"] broadcasts it. */
  datatype ChatMessage = ChatMessage(role: string, receiver: seq<string>, content: string)

  /** The state threaded through the conversation. Every turn returns a new
      value of it; `turn` counts the turns taken so far. */
  datatype State = State(
    sourceText: string,
    comparedTextOne: string,
    comparedTextTwo: string,
    chatHistory: seq<ChatMessage>,
    agentSequence: seq<string>,
    roleDescription: map<string, string>,
    turn: nat)

  /** The variables the prompt template is rendered with. */
  datatype PromptVars = PromptVars(
    sourceText: string,
    comparedTextOne: string,
    comparedTextTwo: string,
    chatHistory: seq<string>,
    roleDescription: string,
    agentName: string,
    finalPrompt: string)

  /** Why an evaluation stopped before producing a result. */
  datatype Failure =
    | MissingRole(agent: string)               // role_description has no entry for the speaker
    | BackendFailure(agentIdx: nat, turn: nat) // the language model call raised
    | MissingResponse(key: string)             // the input item lacks a compared response

  const Broadcast: seq<string> := ["all"]

  /** May `agent` see message `m`? */
  predicate Visible(m: ChatMessage, agent: string)
  {
    agent in m.receiver || m.receiver == Broadcast
  }

  /** The contents of the messages of `history` that `agent` may see, in
      history order (the comprehension that builds `agent_history`). */
  function VisibleHistory(history: seq<ChatMessage>, agent: string): (r: seq<string>)
    ensures |r| <= |history|
  {
    if history == [] then []
    else
      var last := history[|history| - 1];
      VisibleHistory(history[..|history| - 1], agent)
        + (if Visible(last, agent) then [last.content] else [])
  }

  /** The positions in `history` of the messages `agent` may see. */
  function VisibleIndices(history: seq<ChatMessage>, agent: string): seq<nat>
  {
    if history == [] then []
    else
      VisibleIndices(history[..|history| - 1], agent)
        + (if Visible(history[|history| - 1], agent) then [|history| - 1] else [])
  }

  /** The contents of every message of `history`, in order. */
  function Contents(history: seq<ChatMessage>): (r: seq<string>)
    ensures |r| == |history|
  {
    seq(|history|, i requires 0 <= i < |history| => history[i].content)
  }

  /** `idx` lists, strictly increasing, exactly the positions of the messages
      of `history` that `agent` may see, and `r` holds their contents in
      that order: `r` is the subsequence of the history visible to `agent`. */
  ghost predicate SelectsVisible(history: seq<ChatMessage>, agent: string, idx: seq<nat>, r: seq<string>)
  {
    && |idx| == |r|
    && (forall j :: 0 <= j < |idx| ==>
          idx[j] < |history| && Visible(history[idx[j]], agent) && r[j] == history[idx[j]].content)
    && (forall j, j' :: 0 <= j < j' < |idx| ==> idx[j] < idx[j'])
    && (forall i :: 0 <= i < |history| && Visible(history[i], agent) ==> i in idx)
  }

  /** The filter keeps exactly the visible messages, in their original order,
      and nothing else; in particular an empty history shows nothing. */
  lemma {:induction false} VisibleHistoryExact(history: seq<ChatMessage>, agent: string)
    ensures SelectsVisible(history, agent, VisibleIndices(history, agent), VisibleHistory(history, agent))
    ensures history == [] ==> VisibleHistory(history, agent) == []
  {
    if history != [] {
      var front := history[..|history| - 1];
      VisibleHistoryExact(front, agent);
      var idx, r := VisibleIndices(history, agent), VisibleHistory(history, agent);
      var idx0, r0 := VisibleIndices(front, agent), VisibleHistory(front, agent);
      forall j | 0 <= j < |idx0|
        ensures idx0[j] < |history| - 1 && history[idx0[j]] == front[idx0[j]]
      {
      }
      forall i | 0 <= i < |history| && Visible(history[i], agent)
        ensures i in idx
      {
        if i < |history| - 1 {
          assert front[i] == history[i];
          assert i in idx0;
        } else {
          assert idx == idx0 + [i];
        }
      }
    }
  }

  /** Appending a broadcast message shows its content to every agent, after
      what the agent saw before. */
  lemma VisibleAfterBroadcast(history: seq<ChatMessage>, m: ChatMessage, agent: string)
    requires m.receiver == Broadcast
    ensures VisibleHistory(history + [m], agent) == VisibleHistory(history, agent) + [m.content]
  {
    assert (history + [m])[..|history|] == history;
  }

  /** A history made only of broadcasts is shown to every agent in full. */
  lemma {:induction false} AllBroadcastSeesAll(history: seq<ChatMessage>, agent: string)
    requires forall i :: 0 <= i < |history| ==> history[i].receiver == Broadcast
    ensures VisibleHistory(history, agent) == Contents(history)
  {
    if history != [] {
      var front := history[..|history| - 1];
      AllBroadcastSeesAll(front, agent);
      assert Contents(history) == Contents(front) + [history[|history| - 1].content];
    }
  }
}
