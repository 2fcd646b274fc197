/** The conversation driver. The source builds a graph of nodes
    agent0 .. agent{k-1}: START leads to agent0 unconditionally, agent i
    leads to agent i+1, and only after the last agent a conditional edge
    either goes back to agent0 or ends. `RunConversation` walks that graph
    with an explicit loop; `Steps` is its specification, the plain
    round-robin in which turn t is taken by model t mod k. */
module TurnMachine {
  import opened Wrappers
  import opened Chat
  import opened AgentTurn
  import opened Arith

  /** The conditional edge after the last agent: continue while fewer than
      `maxTurn` rounds are complete. */
  predicate ShouldContinue(cfg: Evaluator, st: State)
    requires cfg.agentCount >= 1
  {
    st.turn / cfg.agentCount < cfg.maxTurn
  }

  /** At the end of round `r` (zero-based rounds, so `r` rounds are done) the
      conversation continues exactly when `r < maxTurn`. */
  lemma ContinueAtRoundEnd(cfg: Evaluator, st: State, rounds: nat)
    requires cfg.agentCount >= 1 && st.turn == cfg.agentCount * rounds
    ensures ShouldContinue(cfg, st) <==> rounds < cfg.maxTurn
  {
    DivFromBounds(st.turn, cfg.agentCount, rounds);
  }

  /** The number of turns a conversation takes: `maxTurn` full rounds, but
      always at least the first one, which START enters unconditionally. */
  function TotalTurns(cfg: Evaluator): nat
    requires cfg.Valid()
  {
    if cfg.maxTurn >= 1 then cfg.agentCount * cfg.maxTurn else cfg.agentCount
  }

  /** `n` turns from `st`, turn t invoking model t mod k; the first failing
      turn ends the run with its failure. */
  function Steps(cfg: Evaluator, st: State, n: nat): Result<State, Failure>
    requires Runnable(cfg, st)
    decreases n
  {
    if n == 0 then Ok(st)
    else
      match Step(cfg, st, st.turn % cfg.agentCount)
      case Err(e) => Err(e)
      case Ok(next) => Steps(cfg, next, n - 1)
  }

  /** What `n` successful turns do: `turn` advances by `n`; the history keeps
      its old messages and gains `n` broadcasts, the j-th of them spoken by
      `agentSequence[(turn + j) mod k]`; nothing else changes. So a state
      whose turn counts its messages still does afterwards. */
  lemma StepsShape(cfg: Evaluator, st: State, n: nat)
    requires Runnable(cfg, st)
    ensures Steps(cfg, st, n).Ok? ==>
              var s := Steps(cfg, st, n).value;
              && s.turn == st.turn + n
              && |s.chatHistory| == |st.chatHistory| + n
              && s.chatHistory[..|st.chatHistory|] == st.chatHistory
              && (forall i :: |st.chatHistory| <= i < |s.chatHistory| ==>
                    s.chatHistory[i].role
                      == st.agentSequence[(st.turn + i - |st.chatHistory|) % cfg.agentCount]
                    && s.chatHistory[i].receiver == Broadcast)
              && s.(chatHistory := st.chatHistory, turn := st.turn) == st
    ensures Steps(cfg, st, n).Ok? && st.turn == |st.chatHistory| ==>
              Steps(cfg, st, n).value.turn == |Steps(cfg, st, n).value.chatHistory|
  {
    StepsExtend(cfg, st, n);
    StepsSpeakers(cfg, st, n);
  }

  /** `n` successful turns advance `turn` by `n`, append `n` messages after
      the old history and change nothing else. */
  lemma {:induction false} StepsExtend(cfg: Evaluator, st: State, n: nat)
    requires Runnable(cfg, st)
    ensures Steps(cfg, st, n).Ok? ==>
              var s := Steps(cfg, st, n).value;
              && s.turn == st.turn + n
              && |s.chatHistory| == |st.chatHistory| + n
              && s.chatHistory[..|st.chatHistory|] == st.chatHistory
              && s.(chatHistory := st.chatHistory, turn := st.turn) == st
    decreases n
  {
    if n > 0 {
      var r := Step(cfg, st, st.turn % cfg.agentCount);
      if r.Ok? {
        var next := r.value;
        assert Steps(cfg, st, n) == Steps(cfg, next, n - 1);
        StepsExtend(cfg, next, n - 1);
        if Steps(cfg, next, n - 1).Ok? {
          var s := Steps(cfg, next, n - 1).value;
          var h := |st.chatHistory|;
          assert s.chatHistory[..h] == next.chatHistory[..h + 1][..h];
        }
      }
    }
  }

  /** The j-th message appended by `n` successful turns is a broadcast by
      `agentSequence[(turn + j) mod k]`. */
  lemma {:induction false} StepsSpeakers(cfg: Evaluator, st: State, n: nat)
    requires Runnable(cfg, st)
    ensures Steps(cfg, st, n).Ok? ==>
              var s := Steps(cfg, st, n).value;
              && |st.chatHistory| <= |s.chatHistory|
              && forall i :: |st.chatHistory| <= i < |s.chatHistory| ==>
                   s.chatHistory[i].role
                     == st.agentSequence[(st.turn + i - |st.chatHistory|) % cfg.agentCount]
                   && s.chatHistory[i].receiver == Broadcast
    decreases n
  {
    if n > 0 {
      var r := Step(cfg, st, st.turn % cfg.agentCount);
      if r.Ok? {
        var next := r.value;
        assert Steps(cfg, st, n) == Steps(cfg, next, n - 1);
        StepsSpeakers(cfg, next, n - 1);
        StepsExtend(cfg, next, n - 1);
        if Steps(cfg, next, n - 1).Ok? {
          var s := Steps(cfg, next, n - 1).value;
          var h := |st.chatHistory|;
          forall i | h <= i < |s.chatHistory|
            ensures s.chatHistory[i].role
                      == st.agentSequence[(st.turn + i - h) % cfg.agentCount]
                    && s.chatHistory[i].receiver == Broadcast
          {
            if i == h {
              assert s.chatHistory[h] == s.chatHistory[..h + 1][h] == next.chatHistory[h];
              assert next.chatHistory[h].role == Speaker(cfg, st);
              assert st.turn + i - h == st.turn;
            } else {
              assert next.turn + i - (h + 1) == st.turn + i - h;
            }
          }
        }
      }
    }
  }

  /** A successful run of `a + b` turns is a run of `a` turns followed by a
      run of `b` turns from the state the first part reaches. */
  lemma {:induction false} StepsSplit(cfg: Evaluator, st: State, a: nat, b: nat)
    requires Runnable(cfg, st)
    ensures Steps(cfg, st, a + b).Ok? ==>
              && Steps(cfg, st, a).Ok?
              && Runnable(cfg, Steps(cfg, st, a).value)
              && Steps(cfg, st, a + b) == Steps(cfg, Steps(cfg, st, a).value, b)
    decreases a
  {
    StepsShape(cfg, st, a);
    if a > 0 {
      var r := Step(cfg, st, st.turn % cfg.agentCount);
      if r.Ok? {
        StepsSplit(cfg, r.value, a - 1, b);
        assert Steps(cfg, st, a + b) == Steps(cfg, r.value, (a - 1) + b);
      }
    }
  }

  /** The state after the first `a` turns of a successful run of `n >= a`
      turns: `a` turns further on, its history the matching prefix of the
      final history, and the rest of the run continues from it. */
  lemma StepsPrefix(cfg: Evaluator, st: State, a: nat, n: nat)
    requires Runnable(cfg, st) && a <= n && Steps(cfg, st, n).Ok?
    ensures var mid := Steps(cfg, st, a);
            && mid.Ok?
            && Runnable(cfg, mid.value)
            && mid.value.agentSequence == st.agentSequence
            && mid.value.turn == st.turn + a
            && |st.chatHistory| + a <= |Steps(cfg, st, n).value.chatHistory|
            && mid.value.chatHistory == Steps(cfg, st, n).value.chatHistory[..|st.chatHistory| + a]
            && Steps(cfg, mid.value, n - a) == Steps(cfg, st, n)
  {
    assert a + (n - a) == n;
    StepsSplit(cfg, st, a, n - a);
    var mid := Steps(cfg, st, a).value;
    StepsExtend(cfg, st, a);
    StepsExtend(cfg, mid, n - a);
  }

  /** A run that succeeds has a first turn that succeeds, so its first
      speaker has a role description. */
  lemma StepsFirstTurn(cfg: Evaluator, st: State, n: nat)
    requires Runnable(cfg, st) && n >= 1 && Steps(cfg, st, n).Ok?
    ensures Step(cfg, st, st.turn % cfg.agentCount).Ok?
    ensures Speaker(cfg, st) in cfg.roleDescription
  {
  }

  /** Turn t of a run from turn 0 gets the final directive exactly when it is
      one of the last `agentCount` turns and `maxTurn >= 1`. */
  lemma FinalDirectiveOnLastRound(cfg: Evaluator, turn: nat)
    requires cfg.Valid() && turn < TotalTurns(cfg)
    ensures IsFinalRound(turn, cfg.agentCount, cfg.maxTurn)
        <==> cfg.maxTurn >= 1 && TotalTurns(cfg) - cfg.agentCount <= turn
  {
    FinalRoundWindow(turn, cfg.agentCount, cfg.maxTurn);
    assert cfg.agentCount * (cfg.maxTurn - 1) == cfg.agentCount * cfg.maxTurn - cfg.agentCount;
  }

  /** The graph run from the initial state: it takes exactly
      `TotalTurns(cfg)` turns (or stops at the first failing one), the node
      that runs turn t being agent t mod k, and returns the final state. */
  method RunConversation(cfg: Evaluator, init: State) returns (res: Result<State, Failure>)
    requires cfg.Valid() && Runnable(cfg, init) && init.turn == 0
    ensures res == Steps(cfg, init, TotalTurns(cfg))
    ensures res.Ok? ==> res.value.turn == TotalTurns(cfg)
                        && |res.value.chatHistory| == |init.chatHistory| + TotalTurns(cfg)
  {
    var k := cfg.agentCount;
    var total := TotalTurns(cfg);
    var rounds: nat := if cfg.maxTurn >= 1 then cfg.maxTurn else 1;
    var st := init;
    var node := 0;  // START -> agent0
    while true
      invariant Runnable(cfg, st)
      invariant 0 <= node < k && node == st.turn % k
      invariant st.turn < total == k * rounds
      invariant |st.chatHistory| == |init.chatHistory| + st.turn
      invariant Steps(cfg, st, total - st.turn) == Steps(cfg, init, total)
      decreases total - st.turn
    {
      var r := Step(cfg, st, node);
      if r.Err? {
        return r;
      }
      NextNode(st.turn, k, rounds, node);
      st := r.value;
      if node < k - 1 {
        node := node + 1;  // agent{node} -> agent{node+1}
      } else if ShouldContinue(cfg, st) {
        MulLess(k, st.turn / k, rounds);
        node := 0;         // the last agent -> agent0
      } else {
        return Ok(st);     // the last agent -> END
      }
    }
  }

  /** Where the graph goes after node `node` ran turn `turn`: inside a round
      to the next node, with turns still to come; after the last node the
      turn count is a whole number of rounds, at least one and at most
      `rounds`. */
  lemma NextNode(turn: nat, k: nat, rounds: nat, node: nat)
    requires k >= 1 && node == turn % k && turn < k * rounds
    ensures node < k - 1 ==> (turn + 1) % k == node + 1 && turn + 1 < k * rounds
    ensures node == k - 1 ==>
              (turn + 1) % k == 0 && turn + 1 == k * ((turn + 1) / k) && 1 <= (turn + 1) / k <= rounds
  {
    var q := turn / k;
    assert turn == k * q + node;
    MulCancelLess(k, q, rounds);
    if node < k - 1 {
      DivFromBounds(turn + 1, k, q);
      NotAMultiple(turn + 1, k, k * rounds, rounds);
    } else {
      assert turn + 1 == k * (q + 1);
      DivFromBounds(turn + 1, k, q + 1);
    }
  }

  /** After a turn that ends inside a round, the run is not over yet. */
  lemma NotAMultiple(turn: nat, k: nat, total: nat, rounds: nat)
    requires k >= 1 && total == k * rounds && turn <= total && turn % k != 0
    ensures turn < total
  {
    if turn == total {
      assert turn == k * rounds + 0;
      DivFromBounds(turn, k, rounds);
    }
  }
}
