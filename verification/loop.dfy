/** The `while True` loop of the assistant as a fold over the collaborator
    outcomes of successive turns. The fold is written for any turn
    function `step`, so its facts hold whatever one turn does; the session
    instantiates it with the assistant's own turn. */
module TurnLoop {
  import opened Effects

  /** The effects of one turn and whether it breaks out of the loop. */
  datatype TurnResult = TurnResult(trace: seq<Event>, exit: bool)

  /** The effects of a run of turns, whether it broke out of the loop, and
      how many turns it used. */
  datatype LoopResult = LoopResult(trace: seq<Event>, exited: bool, used: nat)

  /** Runs turns one after the other and stops right after the first turn
      that asks to exit; every other turn is followed by the next. */
  function Loop<I>(step: I -> TurnResult, inputs: seq<I>): (r: LoopResult)
    ensures r.used <= |inputs|
    ensures r.exited ==> 0 < r.used && step(inputs[r.used - 1]).exit
    ensures !r.exited ==> r.used == |inputs|
    ensures forall j :: 0 <= j < r.used && !(r.exited && j == r.used - 1) ==> !step(inputs[j]).exit
  {
    if inputs == [] then LoopResult([], false, 0)
    else
      var first := step(inputs[0]);
      if first.exit then LoopResult(first.trace, true, 1)
      else
        var rest := Loop(step, inputs[1..]);
        assert forall j :: 1 <= j < |inputs| ==> inputs[j] == inputs[1..][j - 1];
        LoopResult(first.trace + rest.trace, rest.exited, rest.used + 1)
  }

  /** The loop breaks out exactly when some turn asks to exit. */
  lemma LoopExitedIff<I>(step: I -> TurnResult, inputs: seq<I>)
    ensures Loop(step, inputs).exited <==> exists i :: 0 <= i < |inputs| && step(inputs[i]).exit
  {
  }

  /** The effects of each turn, turn by turn. */
  function TurnTraces<I>(step: I -> TurnResult, inputs: seq<I>): seq<seq<Event>>
  {
    seq(|inputs|, i requires 0 <= i < |inputs| => step(inputs[i]).trace)
  }

  /** The loop's effects are those of the turns it used, in order. */
  lemma {:induction false} LoopTrace<I>(step: I -> TurnResult, inputs: seq<I>)
    ensures Loop(step, inputs).trace == Flatten(TurnTraces(step, inputs)[..Loop(step, inputs).used])
    decreases |inputs|
  {
    if inputs != [] {
      var all := TurnTraces(step, inputs);
      if step(inputs[0]).exit {
        assert all[..1][1..] == [];
      } else {
        var n := Loop(step, inputs[1..]).used;
        LoopTrace(step, inputs[1..]);
        assert all[..n + 1][0] == step(inputs[0]).trace;
        assert all[..n + 1][1..] == TurnTraces(step, inputs[1..])[..n];
      }
    }
  }

  /** The loop's result when `used` turns with effects `trace` came before
      a run whose result is `rest`. */
  function After(trace: seq<Event>, used: nat, rest: LoopResult): LoopResult {
    LoopResult(trace + rest.trace, rest.exited, used + rest.used)
  }

  /** The loop as the program runs it: one turn after another, breaking
      out after the turn that asks to exit. */
  method RunLoop<I>(step: I -> TurnResult, inputs: seq<I>) returns (trace: seq<Event>, exited: bool, used: nat)
    ensures LoopResult(trace, exited, used) == Loop(step, inputs)
  {
    trace, exited, used := [], false, 0;
    while used < |inputs|
      invariant used <= |inputs|
      invariant Loop(step, inputs) == After(trace, used, Loop(step, inputs[used..]))
    {
      var r := step(inputs[used]);
      assert inputs[used..][0] == inputs[used];
      assert inputs[used..][1..] == inputs[used + 1..];
      trace := trace + r.trace;
      used := used + 1;
      if r.exit {
        exited := true;
        break;
      }
    }
  }
}
