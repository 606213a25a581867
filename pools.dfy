/**
 * Connection selection shared by both pools (`MySQLPool::execute`,
 * `SQLPool::execute`): scan the handlers in index order, skip busy ones,
 * dispatch to the first free one and stop the scan; when a scan yields no
 * result, wait and scan again. Other tasks change the busy flags while this
 * one waits, so the flags each scan sees are supplied as rounds.
 */
module Pools {

  import opened Wrappers

  /** The index of the first handler that is not busy, if any. */
  function FirstFree(busy: seq<bool>): (r: Option<nat>)
    ensures r.Some? ==> r.value < |busy| && !busy[r.value]
    ensures r.Some? ==> forall j :: 0 <= j < r.value ==> busy[j]
    ensures r.None? <==> forall j :: 0 <= j < |busy| ==> busy[j]
    decreases |busy|
  {
    if busy == [] then None
    else if !busy[0] then Some(0)
    else match FirstFree(busy[1..])
      case None => None
      case Some(i) => Some(i + 1)
  }

  /** One scan: the `foreach` with its `continue` on a busy handler and `break` after the dispatch. */
  method Scan(busy: seq<bool>) returns (chosen: Option<nat>)
    ensures chosen == FirstFree(busy)
  {
    chosen := None;
    var i := 0;
    while i < |busy|
      invariant 0 <= i <= |busy|
      invariant forall j :: 0 <= j < i ==> busy[j]
    {
      if busy[i] {
        i := i + 1;
        continue;
      }
      chosen := Some(i);
      break;
    }
    FirstFreeUnique(busy, chosen);
  }

  /** The two conditions that `FirstFree` meets pin its answer down. */
  lemma FirstFreeUnique(busy: seq<bool>, r: Option<nat>)
    requires r.Some? ==> r.value < |busy| && !busy[r.value] && forall j :: 0 <= j < r.value ==> busy[j]
    requires r.None? ==> forall j :: 0 <= j < |busy| ==> busy[j]
    ensures r == FirstFree(busy)
  {
  }

  /** With every handler free, the lowest index is chosen. */
  lemma AllFreePicksFirst(busy: seq<bool>)
    requires |busy| > 0 && forall j :: 0 <= j < |busy| ==> !busy[j]
    ensures FirstFree(busy) == Some(0)
  {
  }

  /**
   * The first scan that finds a free handler, over the busy flags each scan
   * sees: the scan's position and the handler chosen in it.
   */
  function FirstDispatch(scans: seq<seq<bool>>): (r: Option<(nat, nat)>)
    ensures r.Some? ==> && r.value.0 < |scans|
                        && FirstFree(scans[r.value.0]) == Some(r.value.1)
                        && forall j :: 0 <= j < r.value.0 ==> FirstFree(scans[j]).None?
    ensures r.None? <==> forall j :: 0 <= j < |scans| ==> FirstFree(scans[j]).None?
  {
    FirstDispatchFromMeaning(scans, 0);
    FirstDispatchFrom(scans, 0)
  }

  /** `FirstDispatch` over the scans from position `k` on, positions counted from the start. */
  function FirstDispatchFrom(scans: seq<seq<bool>>, k: nat): Option<(nat, nat)>
    decreases |scans| - k
  {
    if k >= |scans| then None
    else if FirstFree(scans[k]).Some? then Some((k, FirstFree(scans[k]).value))
    else FirstDispatchFrom(scans, k + 1)
  }

  lemma {:induction false} FirstDispatchFromMeaning(scans: seq<seq<bool>>, k: nat)
    ensures var r := FirstDispatchFrom(scans, k);
            && (r.Some? ==> && k <= r.value.0 < |scans|
                            && FirstFree(scans[r.value.0]) == Some(r.value.1)
                            && forall j :: k <= j < r.value.0 ==> FirstFree(scans[j]).None?)
            && (r.None? <==> forall j :: k <= j < |scans| ==> FirstFree(scans[j]).None?)
    decreases |scans| - k
  {
    if k < |scans| && FirstFree(scans[k]).None? {
      FirstDispatchFromMeaning(scans, k + 1);
    }
  }

  /**
   * One pass of the outer loop: the busy flags the scan sees and the value
   * `Async::await` gives back if a handler is dispatched to (None for null).
   */
  datatype Round<R> = Round(busy: seq<bool>, reply: Option<R>)

  /** How the observed rounds end: a non-null result from a handler, or still waiting. */
  datatype PoolOutcome<R> = Done(value: R, round: nat, handler: nat) | Waiting

  /** A round that leaves `$result` null: no free handler, or a null reply from the one chosen. */
  predicate Fruitless<R>(rd: Round<R>)
  {
    FirstFree(rd.busy).None? || rd.reply.None?
  }

  /** The outer `while ($result === null)` loop over the observed rounds. */
  function RunRounds<R>(rounds: seq<Round<R>>): (r: PoolOutcome<R>)
    ensures r.Done? ==> && r.round < |rounds|
                        && FirstFree(rounds[r.round].busy) == Some(r.handler)
                        && rounds[r.round].reply == Some(r.value)
                        && forall j :: 0 <= j < r.round ==> Fruitless(rounds[j])
    ensures r.Waiting? <==> forall j :: 0 <= j < |rounds| ==> Fruitless(rounds[j])
    decreases |rounds|
  {
    if rounds == [] then Waiting
    else if !Fruitless(rounds[0]) then Done(rounds[0].reply.value, 0, FirstFree(rounds[0].busy).value)
    else match RunRounds(rounds[1..])
      case Waiting => FruitlessShift(rounds, |rounds| - 1); Waiting
      case Done(v, k, h) => FruitlessShift(rounds, k); Done(v, k + 1, h)
  }

  /** A fruitless first round followed by `n` fruitless rounds makes `n + 1` of them. */
  lemma FruitlessShift<R>(rounds: seq<Round<R>>, n: nat)
    requires 0 < |rounds| && n < |rounds| && Fruitless(rounds[0])
    ensures (forall j :: 0 <= j < n ==> Fruitless(rounds[1..][j]))
            <==> (forall j :: 0 <= j < n + 1 ==> Fruitless(rounds[j]))
  {
    if forall j :: 0 <= j < n ==> Fruitless(rounds[1..][j]) {
      forall j | 0 <= j < n + 1 ensures Fruitless(rounds[j]) {
        if j > 0 {
          assert rounds[j] == rounds[1..][j - 1];
        }
      }
    }
  }

  /** The selection loop of `execute`; it returns only a non-null result. */
  method AwaitResult<R>(rounds: seq<Round<R>>) returns (r: PoolOutcome<R>)
    ensures r == RunRounds(rounds)
  {
    var result: Option<R> := None;
    var k := 0;
    while result.None? && k < |rounds|
      invariant 0 <= k <= |rounds|
      invariant result.None? ==> forall j :: 0 <= j < k ==> Fruitless(rounds[j])
      invariant result.Some? ==> k > 0 && !Fruitless(rounds[k - 1]) && result == rounds[k - 1].reply
                                 && forall j :: 0 <= j < k - 1 ==> Fruitless(rounds[j])
    {
      var chosen := Scan(rounds[k].busy);
      if chosen.Some? {
        result := rounds[k].reply;
      }
      k := k + 1;
    }
    if result.Some? {
      r := Done(result.value, k - 1, FirstFree(rounds[k - 1].busy).value);
    } else {
      r := Waiting;
    }
    RunRoundsUnique(rounds, r);
  }

  /** The conditions that `RunRounds` meets pin its answer down. */
  lemma RunRoundsUnique<R>(rounds: seq<Round<R>>, r: PoolOutcome<R>)
    requires r.Done? ==> && r.round < |rounds|
                         && FirstFree(rounds[r.round].busy) == Some(r.handler)
                         && rounds[r.round].reply == Some(r.value)
                         && forall j :: 0 <= j < r.round ==> Fruitless(rounds[j])
    requires r.Waiting? ==> forall j :: 0 <= j < |rounds| ==> Fruitless(rounds[j])
    ensures r == RunRounds(rounds)
  {
  }

  /** A pool with no handlers never dispatches, so `execute` never completes. */
  lemma NoHandlersNeverComplete<R>(rounds: seq<Round<R>>)
    requires forall j :: 0 <= j < |rounds| ==> rounds[j].busy == []
    ensures RunRounds(rounds) == Waiting
  {
  }

  /** A dispatch never goes to a busy handler, and goes to the lowest free index of its scan. */
  lemma DispatchSkipsBusy<R>(rounds: seq<Round<R>>)
    requires RunRounds(rounds).Done?
    ensures var r := RunRounds(rounds);
            !rounds[r.round].busy[r.handler] && forall j :: 0 <= j < r.handler ==> rounds[r.round].busy[j]
  {
  }
}
