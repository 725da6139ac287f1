/** `mapPool` (top20data.js): a worker pool that maps an asynchronous worker
    over a list with bounded concurrency. Runners share a cursor that hands
    out each index once; a worker that throws leaves `null` in its slot and
    does not stop the pool; every completion bumps a counter and reports
    progress. */
module Pool {
  import opened Wrappers

  /** A worker's outcome as the pool stores it: the value, or `null` when the
      worker threw. */
  function Settle<U, E>(outcome: Result<U, E>): (slot: Option<U>)
    ensures slot.Some? <==> outcome.Success?
    ensures slot.Some? ==> slot.value == outcome.value
  {
    match outcome
    case Success(v) => Some(v)
    case Failure(_) => None
  }

  /** The slots of a pool over `items`, filled one item after the other: what
      the pool returns whatever its concurrency and completion order. */
  function SettleAll<T, U, E>(items: seq<T>, worker: (T, nat) -> Result<U, E>): (slots: seq<Option<U>>)
  {
    seq(|items|, k requires 0 <= k < |items| => Settle(worker(items[k], k)))
  }

  /** The first `count` progress reports of a pool over `total` items: one per
      completion, `done` counting 1, 2, ..., and the total always `total`. */
  function ProgressReports(count: nat, total: nat): (reports: seq<(nat, nat)>)
  {
    seq(count, k requires 0 <= k < count => (k + 1, total))
  }

  /** Runs the pool. The scheduler is left open: at every step either an idle
      runner claims the next index (`idx = i++`) or any item in flight
      completes, its slot is written and `done` goes up. At most
      `concurrency` items are in flight at once.
      `progress` lists the `(done, total)` pairs given to `onProgress`, in
      call order; `claims` lists the claimed indices in claim order and
      `completions` the indices in completion order. */
  method MapPool<T, U, E>(items: seq<T>, worker: (T, nat) -> Result<U, E>, concurrency: nat)
    returns (results: array<Option<U>>, progress: seq<(nat, nat)>,
             ghost claims: seq<nat>, ghost completions: seq<nat>)
    requires concurrency >= 1
    ensures fresh(results) && results.Length == |items|
    ensures forall k :: 0 <= k < |items| ==> results[k] == Settle(worker(items[k], k))
    ensures results[..] == SettleAll(items, worker)
    ensures progress == ProgressReports(|items|, |items|)
    ensures claims == seq(|items|, k requires 0 <= k < |items| => k)
    ensures |completions| == |items|
    ensures forall k :: 0 <= k < |items| ==> k in completions
  {
    var n := |items|;
    results := new Option<U>[n](_ => None);
    var i, done := 0, 0;
    var inFlight: set<nat> := {};
    progress, claims, completions := [], [], [];
    while done < n
      invariant 0 <= done <= i <= n && results.Length == n
      invariant forall k :: k in inFlight ==> k < i
      invariant |inFlight| == i - done <= concurrency
      invariant claims == seq(i, k requires 0 <= k < i => k)
      invariant |completions| == done
      invariant forall k :: 0 <= k < i ==> (k in completions <==> k !in inFlight)
      invariant forall k :: k in completions ==> k < i
      invariant forall k :: 0 <= k < i && k !in inFlight ==> results[k] == Settle(worker(items[k], k))
      invariant progress == ProgressReports(done, n)
      decreases (n - i) + (n - done)
    {
      var preferClaim: bool :| true;
      if i < n && |inFlight| < concurrency && (preferClaim || inFlight == {}) {
        // an idle runner claims the next index
        var idx := i;
        i := i + 1;
        assert idx !in inFlight;
        inFlight := inFlight + {idx};
        claims := claims + [idx];
      } else {
        // some item in flight completes, successfully or not
        assert inFlight != {};
        var idx :| idx in inFlight;
        results[idx] := Settle(worker(items[idx], idx));
        inFlight := inFlight - {idx};
        completions := completions + [idx];
        assert ProgressReports(done + 1, n) == ProgressReports(done, n) + [(done + 1, n)];
        done := done + 1;
        progress := progress + [(done, n)];
      }
    }
    assert inFlight == {} by {
      assert |inFlight| == 0;
    }
  }
}
