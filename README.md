# Multi-agent evaluator: the turn-taking core in Dafny

`MultiAgentEvaluator` (utils.py) has `k` language-model agents, where `k` is the
number of model handles. They hold a round-robin conversation about a source text and
two candidate responses. After the conversation, each agent's reply from the last round
is scored by a pattern match. This project models the part of that object that has real
control flow:

- **choosing the speaker and filtering its context** (`AgentTurn.Speaker`,
  `Chat.VisibleHistory`). The speaker at turn t is `agent_sequence[t mod k]`. The
  speaker sees the contents of the messages addressed to it or broadcast to `["all"]`.
- **the final-round flag** (`AgentTurn.IsFinalRound`). It is set when
  `turn div k + 1 == max_turn`.
- **one turn** (`AgentTurn.Step`). A turn renders a prompt, calls model `agentIdx`, and
  returns a new state with one broadcast message appended and `turn + 1`.
- **the turn-sequencing graph** (`TurnMachine.RunConversation`). The graph is
  `START -> agent0 -> ... -> agent{k-1}`, with a conditional edge back to `agent0`. The
  model replaces it with an explicit loop over the current node, following the same
  edges. The loop is proved equal to the round-robin specification
  `TurnMachine.Steps`, which invokes model t mod k at turn t.
- **post-processing** (`Evaluation.Evaluate`, `Evaluation.EvaluateBatch`). Evaluation
  takes the last `|agent_sequence|` replies and scores each one with the matched pair,
  or `(0, 0)` when the pattern does not match. A batch evaluates its items in order.

The evaluator never changes its own fields after construction. So it is the value
`AgentTurn.Evaluator`, and the conversation state is the value `Chat.State`. The external
capabilities are function-valued fields of `Evaluator`:

- `render` fills the chat prompt template and joins its messages with newlines.
- `generate(i, prompt)` is the reply of model handle `i`. It returns `None` when the call
  raises.
- `matcher` is the first match of the configured score pattern, with both groups read as
  integers.

The model captures three cases in which the Python code raises an exception. Each
becomes a `Chat.Failure` value, and that failure aborts the item and the whole batch:

- a speaker with no entry in `role_description` (a `KeyError`);
- an item without a `"gpt35"` or `"vicuna"` response (a `KeyError`);
- a failing model call.

Preconditions (`Evaluator.Valid`): `k >= 1` and `|agent_sequence| == k`. With no model
handles, the graph cannot even be built: its START edge names a node `agent0` that does
not exist. The entry point's comment (main.py:25) asks for one handle per agent.

Behaviour of the code that the model keeps:

- `max_turn <= 0` is not rejected. The first round runs anyway, because START leads to
  `agent0` unconditionally. No turn then gets the final directive.
- A receiver list is compared with `["all"]` as a whole list, not as a set.
- The first failing item ends the batch, and the results of earlier items are not
  returned.

## Model

| member | source | states |
|---|---|---|
| `Chat.VisibleHistory` | utils.py:37-40 | the context shown to an agent is never longer than the history |
| `Chat.VisibleHistoryExact` | utils.py:37-40 | the filter keeps exactly the messages whose receiver list contains the agent or equals `["all"]`. It keeps their contents in history order, at strictly increasing positions (a subsequence), and nothing else. An empty history shows nothing |
| `Chat.VisibleAfterBroadcast` | utils.py:37-40 | appending a broadcast message extends every agent's context by exactly that message's content |
| `Chat.AllBroadcastSeesAll` | utils.py:37-40 | a history made only of broadcasts is shown in full to every agent |
| `AgentTurn.FinalRoundWindow` | utils.py:41 | the final directive is set exactly for turns in `[k*(max_turn-1), k*max_turn)`, and never when `max_turn <= 0` |
| `AgentTurn.Step` | utils.py:35-54 | one turn succeeds exactly when the speaker `agent_sequence[turn mod k]` has a role description and model `agentIdx` replies. Otherwise it fails with `MissingRole` or `BackendFailure`. On success the earlier history is kept, and exactly one message is appended: `{role: speaker, receiver: ["all"], content: reply}`. `turn` grows by exactly 1, and the texts, `agent_sequence` and `role_description` are unchanged. The reply is the model's answer to the prompt rendered from the source and compared texts, the speaker's filtered context, its role text, its name and the final directive |
| `TurnMachine.ContinueAtRoundEnd` | utils.py:68-69 | after r complete rounds, the conditional edge continues exactly when `r < max_turn` |
| `TurnMachine.StepsShape` | utils.py:36-54 | n successful round-robin turns advance `turn` by n and keep the old history as a prefix. They append n broadcasts, the j-th spoken by `agent_sequence[(turn+j) mod k]`, and change nothing else. `turn == |chat_history|` is preserved |
| `TurnMachine.StepsExtend` | utils.py:53-54 | n successful turns advance `turn` by n, append n messages after the old history, and leave the texts, `agent_sequence` and `role_description` unchanged |
| `TurnMachine.StepsSpeakers` | utils.py:36-53 | the j-th message appended by n successful turns is a broadcast spoken by `agent_sequence[(turn+j) mod k]` |
| `TurnMachine.StepsSplit` | utils.py:57-69 | a successful run of `a + b` turns is a successful run of `a` turns, whose state still satisfies the turn's preconditions, followed by `b` more turns from that state |
| `TurnMachine.StepsPrefix` | utils.py:35-54 | the state after the first `a` turns of a successful `n`-turn run is reached, is `a` turns further on, keeps `agent_sequence`, and its history is the matching prefix of the final history. The remaining `n - a` turns continue from it to the same final state |
| `TurnMachine.StepsFirstTurn` | utils.py:35-47 | a run that succeeds takes its first turn successfully, so its first speaker has a role description |
| `TurnMachine.FinalDirectiveOnLastRound` | utils.py:41 | during a run, turn t carries the final directive exactly when it is one of the last k turns and `max_turn >= 1` |
| `TurnMachine.NextNode` | utils.py:59-65 | inside a round, the next node is the next agent and turns remain. After the last agent, the turn count is a whole number of rounds, between 1 and the number of rounds to run |
| `TurnMachine.RunConversation` | utils.py:57-69 | walking the graph (START to agent0, agent i to agent i+1, the continue test only after the last agent) gives the round-robin run `Steps`, where model t mod k is invoked at turn t. The run halts after exactly `k*max_turn` turns, or after k turns when `max_turn <= 0`. On success, `turn` and the number of new messages both equal that count |
| `Evaluation.RunSpeakers` | utils.py:71-81 | in a run from the initial state, message t is spoken by `agent_sequence[t mod k]` and is a broadcast |
| `Evaluation.RunLastRound` | utils.py:71-85 | a run from the initial state has `turn == |chat_history| ==` the total turn count. Its last k messages are spoken by `agent_sequence[0..k)` in order |
| `Evaluation.ConversationShape` | utils.py:71-85 | the conversation about an item has the total turn count of messages, and its last round is spoken in sequence order |
| `Evaluation.ConversationSpeakers` | utils.py:71-81 | every message of an item's conversation is a broadcast by `agent_sequence[t mod k]` |
| `Evaluation.EveryAgentSeesAllEarlierReplies` | utils.py:35-40 | for every t up to the total turn count, the state in which turn t of an item's conversation starts is `Steps` from the initial state for t turns. That state exists, has `turn == t`, and its history is the first t messages of the final history. The filter applied to that state's history shows any agent the contents of all t earlier replies, in order |
| `Evaluation.PromptAtTurn` | utils.py:35-51 | the prompt variables of turn t of an item's conversation, computed from the state at turn t: the agent is `agent_sequence[t mod k]` and has a role description, the role text is its entry, the context is the contents of all t earlier replies, and the final directive is present exactly when turn t is one of the last k turns and `max_turn >= 1` |
| `Evaluation.RunStateAt` | utils.py:35-54 | in a successful run from the initial state, the state at turn t (t below the total) exists, has `turn == t` and the first t messages of the final history, and its speaker is `agent_sequence[t mod k]` with a role description |
| `Evaluation.BroadcastPrompt` | utils.py:36-51 | in a state whose history holds only broadcasts, the prompt is for the speaker, with its role text, the contents of the whole history, and the final directive of the current turn |
| `Evaluation.TwoAgentsTwoRounds` | main.py:43-51 | with agents General Public and Critic and `max_turn=2`, there are 4 turns, spoken GP, Critic, GP, Critic. The final directive is on turns 2 and 3 (zero-based), and a result has one entry per agent |
| `Evaluation.EvaluationOf` | utils.py:71-107 | an item's result exists exactly when its conversation completes, and otherwise carries the conversation's failure. The result copies `question` and `response` and has one entry per agent in `agent_sequence` order. Entry i keeps the role, which is also the speaker of the i-th message of the last round, and keeps the raw reply text. Its score is the matched pair, or `(0, 0)` on no match; a mismatch never aborts |
| `Evaluation.Evaluate` | utils.py:71-107 | `evaluate`, with its graph run and scoring loop, computes exactly `EvaluationOf` |
| `Evaluation.EvaluateBatch` | utils.py:109-115 | a batch succeeds exactly when every item does, and then returns one result per item in input order. Otherwise it fails with the failure of the first failing item |

## Left out

- The language-model call (utils.py:52) is a network call. It is the parameter `generate`, a fixed function of the handle index and the prompt. So the model assumes the same prompt to the same handle always gets the same reply, which real models do not promise.
- Prompt rendering through `ChatPromptTemplate` and the newline join (utils.py:29, 42-51) depend on a configured template. They are the parameter `render` over the computed template variables.
- The regular expression (utils.py:31, 86-89) comes from the configuration. It is the parameter `matcher`, which returns the first match's two groups as integers. A group that `int()` cannot parse (a `ValueError`) is not modelled.
- The langgraph runtime (utils.py:58-66, 81) is not modelled; its edges are followed by the loop in `TurnMachine.RunConversation`.
- TurnMachine.RunConversation: the langgraph runtime stops a graph run with a `GraphRecursionError` once it reaches its step limit (`recursion_limit`, 25 steps by default, and each agent node is one step); `evaluate` passes no other limit. So the real program fails on any item whose conversation needs more turns than that limit, about 25 turns (`k*max_turn`, or `k` when `max_turn <= 0`). The model has no step limit: its exact turn count, and the results of `Evaluation.Evaluate` and `Evaluation.EvaluateBatch`, hold for the real program only below that limit.
- `save_results` (utils.py:117-119) and `show_graph` (utils.py:121-124) only write files. The `print` and `tqdm` progress output is side effects only.
- main.py (environment variable, JSON and YAML loading, argument parsing, client construction) is configuration and I/O. Only its agent list and `max_turn=2` appear, in `Evaluation.TwoAgentsTwoRounds`.
- Exceptions other than the three modelled failures (a model reply without `.content`, interruption) are not modelled.
