/**
 * The fallback ladder as one generic definition: attempts are made in order,
 * the first success ends the ladder, and when every attempt fails the last
 * failure is what remains. Each provider ladder of the service is proved to
 * be an instance of it.
 */
module Cascade {
  import opened Options
  import opened Platform

  /** One rung: the effects of attempting it, and whether it produced a value. */
  type Attempt<T, E> = Run<Result<T, E>>

  /** Try the rungs in order until one succeeds. */
  function FirstSuccess<T, E>(rungs: seq<Attempt<T, E>>): (r: Attempt<T, E>)
    requires |rungs| > 0
    decreases |rungs|
  {
    if rungs[0].result.Success? || |rungs| == 1 then rungs[0]
    else After(rungs[0].effects, FirstSuccess(rungs[1..]))
  }

  /** The effects of the given rungs, one after the other. */
  function Effects<T, E>(rungs: seq<Attempt<T, E>>): seq<Effect> {
    if rungs == [] then [] else rungs[0].effects + Effects(rungs[1..])
  }

  /** One step of the ladder: the first rung, and the rest only if it failed. */
  lemma FirstSuccessCons<T, E>(first: Attempt<T, E>, rest: seq<Attempt<T, E>>)
    requires |rest| > 0
    ensures FirstSuccess([first] + rest) ==
            if first.result.Success? then first else After(first.effects, FirstSuccess(rest))
  {
    assert ([first] + rest)[1..] == rest;
  }

  /** Index of the first rung that succeeds, if any. */
  function FirstWinner<T, E>(rungs: seq<Attempt<T, E>>): (k: Option<nat>)
    ensures k.Some? ==> k.value < |rungs| && rungs[k.value].result.Success?
    ensures k.Some? ==> forall j :: 0 <= j < k.value ==> rungs[j].result.Failure?
    ensures k.None? ==> forall j :: 0 <= j < |rungs| ==> rungs[j].result.Failure?
  {
    if rungs == [] then None
    else if rungs[0].result.Success? then Some(0)
    else match FirstWinner(rungs[1..])
      case None => None
      case Some(k) => Some(k + 1)
  }

  /**
   * The first success wins: its value is the result, and only the rungs up
   * to and including it have any effect.
   */
  lemma {:induction false} FirstSuccessWins<T, E>(rungs: seq<Attempt<T, E>>, k: nat)
    requires k < |rungs| && rungs[k].result.Success?
    requires forall j :: 0 <= j < k ==> rungs[j].result.Failure?
    ensures FirstSuccess(rungs) == Run(Effects(rungs[..k + 1]), rungs[k].result)
    decreases k
  {
    if k == 0 {
      assert Effects(rungs[..1]) == rungs[0].effects + Effects(rungs[1..1]);
      assert rungs[0].effects + [] == rungs[0].effects;
    } else {
      var tail := rungs[1..];
      FirstSuccessWins(tail, k - 1);
      assert rungs[..k + 1][1..] == tail[..k];
      assert FirstSuccess(rungs) == After(rungs[0].effects, FirstSuccess(tail));
    }
  }

  /**
   * Exhaustion: when every rung fails, every rung has been attempted and the
   * last failure is the result.
   */
  lemma {:induction false} FirstSuccessExhausted<T, E>(rungs: seq<Attempt<T, E>>)
    requires |rungs| > 0
    requires forall j :: 0 <= j < |rungs| ==> rungs[j].result.Failure?
    ensures FirstSuccess(rungs) == Run(Effects(rungs), rungs[|rungs| - 1].result)
    decreases |rungs|
  {
    if |rungs| == 1 {
      assert Effects(rungs) == rungs[0].effects + Effects(rungs[1..]);
      assert rungs[0].effects + [] == rungs[0].effects;
    } else {
      var tail := rungs[1..];
      FirstSuccessExhausted(tail);
      assert tail[|tail| - 1] == rungs[|rungs| - 1];
    }
  }

  /** The ladder succeeds exactly when some rung does. */
  lemma FirstSuccessSucceedsIff<T, E>(rungs: seq<Attempt<T, E>>)
    requires |rungs| > 0
    ensures FirstSuccess(rungs).result.Success? <==> FirstWinner(rungs).Some?
  {
    match FirstWinner(rungs)
    case Some(k) => FirstSuccessWins(rungs, k);
    case None => FirstSuccessExhausted(rungs);
  }
}
