/** The pool of bounded concurrency (pipeline/src/pool.ts). Workers are resumed in any order. */
module Pool {
  import opened Outcomes

  datatype Worker = Fresh | Waiting(index: nat) | Stopped

  function Workers(limit: int, n: nat): nat {
    var m := if limit < n then limit else n;
    if m > 1 then m else 1
  }

  function InFlight(ws: seq<Worker>): nat {
    if ws == [] then 0 else InFlight(ws[..|ws| - 1]) + if ws[|ws| - 1].Waiting? then 1 else 0
  }

  lemma {:induction false} InFlightBound(ws: seq<Worker>)
    ensures InFlight(ws) <= |ws|
  {
    if ws != [] { InFlightBound(ws[..|ws| - 1]); }
  }

  /** The calls made so far are those of the first `next` items, in their order; a result is
      there exactly when its call is no longer awaited, and no two workers await the same call. */
  ghost predicate Valid<T, R>(items: seq<T>, fn: (T, nat) -> R, next: nat, results: seq<Option<R>>, ws: seq<Worker>) {
    && |results| == |items| && next <= |items|
    && (forall i :: 0 <= i < |items| ==> results[i] == if i < next && !Awaited(ws, i) then Some(fn(items[i], i)) else None)
    && (forall w :: 0 <= w < |ws| && ws[w].Waiting? ==> ws[w].index < next)
    && (forall v, w :: 0 <= v < w < |ws| && ws[v].Waiting? && ws[w].Waiting? ==> ws[v].index != ws[w].index)
    && (forall w :: 0 <= w < |ws| && ws[w].Stopped? ==> next == |items|)
  }

  ghost predicate Awaited(ws: seq<Worker>, i: nat) { exists w :: 0 <= w < |ws| && ws[w] == Waiting(i) }

  /** The state of one pool. */
  class Run<T, R> {
    const items: seq<T>
    const fn: (T, nat) -> R
    var next: nat
    var results: seq<Option<R>>
    var workers: seq<Worker>
    /** The calls of `fn` in the order in which they were made, and how many were ever under way. */
    var calls: seq<nat>
    var peak: nat

    ghost predicate Ok()
      reads this
    {
      Valid(items, fn, next, results, workers) && calls == seq(next, i => i) && peak <= |workers|
    }

    constructor (items: seq<T>, limit: int, fn: (T, nat) -> R)
      ensures Ok() && this.items == items && this.fn == fn && next == 0 && |workers| == Workers(limit, |items|)
      ensures forall w :: 0 <= w < |workers| ==> workers[w] == Fresh
    {
      this.items, this.fn, next, calls, peak := items, fn, 0, [], 0;
      results := seq(|items|, _ => None);
      workers := seq(Workers(limit, |items|), _ => Fresh);
    }

    /** A worker runs until its next await: it stores the result it was waiting for and takes the
        next item, or stops. */
    method Turn(w: nat)
      requires Ok() && w < |workers| && !workers[w].Stopped?
      modifies this`next, this`results, this`workers, this`calls, this`peak
      ensures InFlight(workers) <= peak && old(peak) <= peak
      ensures Ok() && |workers| == |old(workers)|
      ensures workers == old(workers)[w := workers[w]] && !workers[w].Fresh?
      ensures next == old(next) + (if workers[w].Waiting? then 1 else 0) &&
        (workers[w].Stopped? <==> old(next) == |items|)
    {
      if workers[w].Waiting? {
        var i := workers[w].index;
        results := results[i := Some(fn(items[i], i))];
      }
      if next < |items| {
        workers := workers[w := Waiting(next)];
        calls := calls + [next];
        next := next + 1;
      } else {
        workers := workers[w := Stopped];
      }
      InFlightBound(workers);
      if InFlight(workers) > peak { peak := InFlight(workers); }
      TurnValid(items, fn, old(next), old(results), old(workers), w, next, results, workers);
    }
  }

  lemma TurnValid<T,
    R>(items: seq<T>, fn: (T, nat) -> R, next: nat, results: seq<Option<R>>, ws: seq<Worker>, w: nat,
    next': nat, results': seq<Option<R>>, ws': seq<Worker>)
    requires Valid(items, fn, next, results, ws) && w < |ws| && !ws[w].Stopped?
    requires results' == if ws[w].Waiting? then results[ws[w].index := Some(fn(items[ws[w].index], ws[w].index))] else results
    requires ws' == ws[w := if next < |items| then Waiting(next) else Stopped] &&
      next' == if next < |items| then next + 1 else next
    ensures Valid(items, fn, next', results', ws')
  {
    forall i: nat | i < |items| ensures Awaited(ws', i) <==> (i == next && next < |items|) || (Awaited(ws, i) && ws[w] != Waiting(i)) {
      if Awaited(ws, i) && ws[w] != Waiting(i) {
        var v :| 0 <= v < |ws| && ws[v] == Waiting(i);
        assert ws'[v] == Waiting(i);
      }
      if Awaited(ws', i) {
        var v :| 0 <= v < |ws'| && ws'[v] == Waiting(i);
        if v != w { assert ws[v] == Waiting(i); }
      }
      if i == next && next < |items| { assert ws'[w] == Waiting(i); }
    }
    forall v | 0 <= v < |ws'| && ws'[v].Stopped? ensures next' == |items| {
      if v != w { assert ws[v].Stopped?; }
    }
  }

  /** The workers that have not stopped yet. */
  function Awake(ws: seq<Worker>): nat {
    if ws == [] then 0 else Awake(ws[..|ws| - 1]) + if ws[|ws| - 1].Stopped? then 0 else 1
  }

  lemma {:induction false} AwakeUpdate(ws: seq<Worker>, w: nat, x: Worker)
    requires w < |ws| && !ws[w].Stopped?
    ensures Awake(ws[w := x]) == Awake(ws) - if x.Stopped? then 1 else 0
  {
    var n := |ws| - 1;
    if w == n {
      assert ws[w := x][..n] == ws[..n];
    } else {
      AwakeUpdate(ws[..n], w, x);
      assert ws[w := x][..n] == ws[..n][w := x];
    }
  }

  /** mapPool: in whatever order the calls resolve, each item is called once, in item order, never
      more than the allowed number of calls are under way, and the results follow the items. */
  method MapPool<T, R>(items: seq<T>, limit: int, fn: (T, nat) -> R)
    returns (r: seq<R>, calls: seq<nat>, peak: nat)
    ensures |r| == |items| && forall i :: 0 <= i < |items| ==> r[i] == fn(items[i], i)
    ensures calls == seq(|items|, i => i) && peak <= Workers(limit, |items|)
  {
    hide Valid, Workers;
    var run := new Run(items, limit, fn);
    for w := 0 to |run.workers|
      invariant run.Ok() && run.items == items && run.fn == fn && |run.workers| == Workers(limit, |items|)
      invariant forall v :: 0 <= v < |run.workers| ==> (run.workers[v].Fresh? <==> v >= w)
    {
      run.Turn(w);
    }
    while exists w :: 0 <= w < |run.workers| && run.workers[w].Waiting?
      invariant run.Ok() && run.items == items && run.fn == fn && |run.workers| == Workers(limit, |items|)
      invariant forall v :: 0 <= v < |run.workers| ==> !run.workers[v].Fresh?
      decreases |items| - run.next + Awake(run.workers)
    {
      var w :| 0 <= w < |run.workers| && run.workers[w].Waiting?;
      NextBound(items, fn, run.next, run.results, run.workers);
      ghost var before := run.workers;
      run.Turn(w);
      AwakeUpdate(before, w, run.workers[w]);
    }
    AllDone(items, limit, fn, run.next, run.results, run.workers);
    calls, peak := run.calls, run.peak;
    var results := run.results;
    r := seq(|items|, i requires 0 <= i < |items| => results[i].value);
  }

  lemma NextBound<T, R>(items: seq<T>, fn: (T, nat) -> R, next: nat, results: seq<Option<R>>, ws: seq<Worker>)
    requires Valid(items, fn, next, results, ws)
    ensures next <= |items|
  {
  }

  lemma AllDone<T,
    R>(items: seq<T>, limit: int, fn: (T, nat) -> R, next: nat, results: seq<Option<R>>, ws: seq<Worker>)
    requires Valid(items, fn, next, results, ws) && |ws| == Workers(limit, |items|) && forall w ::
      0 <= w < |ws| ==> ws[w].Stopped?
    ensures next == |items| == |results| && forall i :: 0 <= i < |items| ==> results[i] == Some(fn(items[i], i))
  {
    assert ws[0].Stopped?;
    assert forall i :: 0 <= i < |items| ==> !Awaited(ws, i);
  }
}
