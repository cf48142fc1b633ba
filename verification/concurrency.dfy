/** `mapWithConcurrency` of lib/concurrency.js as a state machine.
    The workers share one cursor.  A worker runs synchronously from its
    creation up to its first `await`, and from each resumption up to its
    next `await`; those stretches are the atomic steps here:
      - `Spawn`:  a new worker claims its first index (or finds none and ends);
      - `Resume`: a worker's mapper call settles, the result is stored at its
                  index, and the worker claims the next index (or ends).
    The mapper's value for an index is `mapper(items[i], i)`; when the call
    settles relative to the others is left to the scheduler. */
module Concurrency {
  import opened Outcomes

  datatype Worker = Running(index: nat) | Finished

  /** `index` (the shared cursor), the pre-sized `results` array (`None` is a
      hole), the workers, and the indices the mapper was started on, in order. */
  datatype Pool<R> = Pool(cursor: nat, results: seq<Option<R>>, workers: seq<Worker>, invoked: seq<nat>)

  const DefaultConcurrency := 3

  /** `Math.min(concurrency, items.length)` as an array length (never negative). */
  function WorkerCount(n: nat, concurrency: int): nat {
    if concurrency <= 0 then 0 else if concurrency < n then concurrency else n
  }

  /** `const i = index++; if (i >= items.length) break;` and, when an index
      was claimed, the start of `mapper(items[i], i)`. */
  function Claim<R>(p: Pool<R>, n: nat): (r: (Worker, Pool<R>))
    ensures r.1.cursor == p.cursor + 1
    ensures r.0.Running? <==> p.cursor < n
    ensures r.0.Running? ==> r.0.index == p.cursor
  {
    var i := p.cursor;
    if i >= n then (Finished, p.(cursor := i + 1))
    else (Running(i), p.(cursor := i + 1, invoked := p.invoked + [i]))
  }

  /** One more worker is created and runs to its first `await`. */
  function Spawn<R>(p: Pool<R>, n: nat): Pool<R> {
    var (w, q) := Claim(p, n);
    q.(workers := q.workers + [w])
  }

  function SpawnWorkers<R>(n: nat, count: nat): Pool<R> {
    if count == 0 then Pool(0, seq(n, _ => None), [], [])
    else Spawn(SpawnWorkers(n, count - 1), n)
  }

  /** The state once `Array.from` has created every worker. */
  function Start<T, R>(items: seq<T>, concurrency: int): Pool<R> {
    SpawnWorkers(|items|, WorkerCount(|items|, concurrency))
  }

  predicate CanResume<R>(p: Pool<R>, w: nat) {
    w < |p.workers| && p.workers[w].Running?
  }

  /** Worker `w`'s `await` returns: `results[i] = value`, then it claims again. */
  function Resume<T, R>(items: seq<T>, mapper: (T, nat) -> R, p: Pool<R>, w: nat): Pool<R>
    requires CanResume(p, w) && p.workers[w].index < |items| && |p.results| == |items|
  {
    var i := p.workers[w].index;
    var stored := p.(results := p.results[i := Some(mapper(items[i], i))]);
    var (next, q) := Claim(stored, |items|);
    q.(workers := q.workers[w := next])
  }

  // -------------------------------------------------------------- invariant

  function NumFinished(ws: seq<Worker>): (k: nat)
    ensures k <= |ws|
  {
    if ws == [] then 0 else NumFinished(ws[..|ws| - 1]) + (if ws[|ws| - 1].Finished? then 1 else 0)
  }

  lemma {:induction false} NumFinishedUpdate(ws: seq<Worker>, w: nat, x: Worker)
    requires w < |ws| && ws[w].Running?
    ensures NumFinished(ws[w := x]) == NumFinished(ws) + (if x.Finished? then 1 else 0)
  {
    if w < |ws| - 1 {
      assert ws[w := x][..|ws| - 1] == ws[..|ws| - 1][w := x];
      NumFinishedUpdate(ws[..|ws| - 1], w, x);
    } else {
      assert ws[w := x][..|ws| - 1] == ws[..|ws| - 1];
    }
  }

  lemma {:induction false} AllFinishedCount(ws: seq<Worker>)
    requires forall w | 0 <= w < |ws| :: ws[w].Finished?
    ensures NumFinished(ws) == |ws|
  {
    if ws != [] {
      AllFinishedCount(ws[..|ws| - 1]);
    }
  }

  function Claimed<R>(p: Pool<R>, n: nat): nat {
    if p.cursor < n then p.cursor else n
  }

  predicate IsRunningOn<R>(p: Pool<R>, i: nat) {
    exists w | 0 <= w < |p.workers| :: p.workers[w] == Running(i)
  }

  /** The mapper was started on 0, 1, ..., each claimed index once, in cursor order. */
  ghost predicate InvokedInOrder<R>(p: Pool<R>, n: nat) {
    && |p.invoked| == Claimed(p, n)
    && forall j | 0 <= j < |p.invoked| :: p.invoked[j] == j
  }

  /** A running worker holds a claimed index whose result is not stored yet. */
  ghost predicate RunningClaimed<R>(p: Pool<R>, n: nat) {
    forall w | 0 <= w < |p.workers| && p.workers[w].Running? ::
      p.workers[w].index < Claimed(p, n) && p.workers[w].index < |p.results|
      && p.results[p.workers[w].index].None?
  }

  /** No two workers hold the same index. */
  ghost predicate RunningDistinct<R>(p: Pool<R>) {
    forall w1, w2 | 0 <= w1 < |p.workers| && 0 <= w2 < |p.workers| && w1 != w2
      && p.workers[w1].Running? && p.workers[w2].Running? ::
      p.workers[w1].index != p.workers[w2].index
  }

  /** Results are positional: slot i only ever receives `mapper(items[i], i)`. */
  ghost predicate Positional<T, R>(items: seq<T>, mapper: (T, nat) -> R, p: Pool<R>) {
    && |p.results| == |items|
    && forall i | 0 <= i < |items| && p.results[i].Some? ::
         i < p.cursor && p.results[i] == Some(mapper(items[i], i))
  }

  /** A claimed index is either stored or in flight. */
  ghost predicate ClaimedAccounted<R>(p: Pool<R>, n: nat) {
    forall i | 0 <= i < n && i < p.cursor && i < |p.results| :: p.results[i].Some? || IsRunningOn(p, i)
  }

  /** Each claim past the end ended exactly one worker. */
  ghost predicate OvershootCounted<R>(p: Pool<R>, n: nat) {
    NumFinished(p.workers) == if p.cursor > n then p.cursor - n else 0
  }

  /** What holds between any two steps of one call. */
  ghost predicate Inv<T, R>(items: seq<T>, mapper: (T, nat) -> R, p: Pool<R>) {
    && Positional(items, mapper, p)
    && InvokedInOrder(p, |items|)
    && RunningClaimed(p, |items|)
    && RunningDistinct(p)
    && ClaimedAccounted(p, |items|)
    && OvershootCounted(p, |items|)
  }

  lemma {:induction false} SpawnWorkersShape<T, R>(items: seq<T>, mapper: (T, nat) -> R, count: nat)
    requires count <= |items|
    ensures var p: Pool<R> := SpawnWorkers(|items|, count);
      && p.cursor == count
      && p.results == seq(|items|, _ => None)
      && |p.workers| == count && (forall w | 0 <= w < count :: p.workers[w] == Running(w))
      && |p.invoked| == count && (forall j | 0 <= j < count :: p.invoked[j] == j)
  {
    if count > 0 {
      SpawnWorkersShape<T, R>(items, mapper, count - 1);
    }
  }

  /** The initial state: `min(concurrency, items.length)` workers, each
      running on its own index, the mapper started on 0, 1, ... in order,
      and no result stored. */
  lemma StartState<T, R>(items: seq<T>, mapper: (T, nat) -> R, concurrency: int)
    ensures var p: Pool<R> := Start(items, concurrency);
      && Inv(items, mapper, p)
      && |p.workers| == WorkerCount(|items|, concurrency)
      && p.results == seq(|items|, _ => None)
  {
    var count := WorkerCount(|items|, concurrency);
    SpawnWorkersShape<T, R>(items, mapper, count);
    var p: Pool<R> := Start(items, concurrency);
    assert forall i | 0 <= i < |items| && i < p.cursor :: p.workers[i] == Running(i);
    AllRunningCount(p.workers);
  }

  lemma {:induction false} AllRunningCount(ws: seq<Worker>)
    requires forall w | 0 <= w < |ws| :: ws[w].Running?
    ensures NumFinished(ws) == 0
  {
    if ws != [] {
      AllRunningCount(ws[..|ws| - 1]);
    }
  }

  /** Every step keeps the invariant, whichever running worker the
      scheduler resumes: the cursor grows by one, the worker count is fixed,
      and the settled value lands in its own slot. */
  lemma ResumeKeepsInv<T, R>(items: seq<T>, mapper: (T, nat) -> R, p: Pool<R>, w: nat)
    requires Inv(items, mapper, p) && CanResume(p, w)
    ensures p.workers[w].index < |items|
    ensures var q := Resume(items, mapper, p, w);
      && Inv(items, mapper, q)
      && q.cursor == p.cursor + 1
      && |q.workers| == |p.workers|
      && q.results[p.workers[w].index] == Some(mapper(items[p.workers[w].index], p.workers[w].index))
  {
    var q := Resume(items, mapper, p, w);
    ResumeShape(items, mapper, p, w);
    ResumeRunning(items, mapper, p, w);
    ResumeAccounted(items, mapper, p, w);
    NumFinishedUpdate(p.workers, w, q.workers[w]);
  }

  lemma ResumeShape<T, R>(items: seq<T>, mapper: (T, nat) -> R, p: Pool<R>, w: nat)
    requires Inv(items, mapper, p) && CanResume(p, w)
    ensures p.workers[w].index < |items|
    ensures var i := p.workers[w].index;
      var q := Resume(items, mapper, p, w);
      && q.cursor == p.cursor + 1
      && q.results == p.results[i := Some(mapper(items[i], i))]
      && q.workers == p.workers[w := if p.cursor < |items| then Running(p.cursor) else Finished]
      && q.invoked == (if p.cursor < |items| then p.invoked + [p.cursor] else p.invoked)
      && Positional(items, mapper, q)
      && InvokedInOrder(q, |items|)
  {
  }

  lemma ResumeRunning<T, R>(items: seq<T>, mapper: (T, nat) -> R, p: Pool<R>, w: nat)
    requires Inv(items, mapper, p) && CanResume(p, w)
    ensures RunningClaimed(Resume(items, mapper, p, w), |items|)
    ensures RunningDistinct(Resume(items, mapper, p, w))
  {
    ResumeShape(items, mapper, p, w);
  }

  lemma ResumeAccounted<T, R>(items: seq<T>, mapper: (T, nat) -> R, p: Pool<R>, w: nat)
    requires Inv(items, mapper, p) && CanResume(p, w)
    ensures ClaimedAccounted(Resume(items, mapper, p, w), |items|)
  {
    ResumeShape(items, mapper, p, w);
    var n := |items|;
    var i := p.workers[w].index;
    var q := Resume(items, mapper, p, w);
    forall k | 0 <= k < n && k < q.cursor && k < |q.results|
      ensures q.results[k].Some? || IsRunningOn(q, k)
    {
      if k == p.cursor {
        assert q.workers[w] == Running(k);
      } else if k != i && q.results[k].None? {
        assert IsRunningOn(p, k);
        var v :| 0 <= v < |p.workers| && p.workers[v] == Running(k);
        assert q.workers[v] == Running(k);
      }
    }
  }

  ghost predicate AllFinished<R>(p: Pool<R>) {
    forall w | 0 <= w < |p.workers| :: p.workers[w].Finished?
  }

  /** Once every worker has ended (and there was at least one), every index
      was claimed and `results[i] == mapper(items[i], i)` for each index. */
  lemma TerminalResults<T, R>(items: seq<T>, mapper: (T, nat) -> R, p: Pool<R>)
    requires Inv(items, mapper, p) && AllFinished(p) && |p.workers| >= 1
    ensures p.cursor > |items|
    ensures |p.invoked| == |items|
    ensures forall i | 0 <= i < |items| :: p.results[i] == Some(mapper(items[i], i))
  {
    AllFinishedCount(p.workers);
    forall i | 0 <= i < |items|
      ensures p.results[i] == Some(mapper(items[i], i))
    {
      if p.results[i].None? {
        assert false;
      }
    }
  }

  /** The indices whose mapper call is in flight. */
  function InFlight(ws: seq<Worker>): set<nat> {
    if ws == [] then {}
    else InFlight(ws[..|ws| - 1]) + (if ws[|ws| - 1].Running? then {ws[|ws| - 1].index} else {})
  }

  lemma {:induction false} InFlightMembers(ws: seq<Worker>, i: nat)
    ensures i in InFlight(ws) <==> exists w | 0 <= w < |ws| :: ws[w] == Running(i)
  {
    if ws != [] {
      var init := ws[..|ws| - 1];
      InFlightMembers(init, i);
      assert forall w | 0 <= w < |init| :: init[w] == ws[w];
    }
  }

  lemma {:induction false} InFlightSize(ws: seq<Worker>)
    ensures |InFlight(ws)| <= |ws|
  {
    if ws != [] {
      InFlightSize(ws[..|ws| - 1]);
    }
  }

  /** In flight are exactly the claimed indices whose result is not stored,
      and there are never more of them than `min(concurrency, items.length)`. */
  lemma InFlightBound<T, R>(items: seq<T>, mapper: (T, nat) -> R, concurrency: int, p: Pool<R>)
    requires Inv(items, mapper, p) && |p.workers| == WorkerCount(|items|, concurrency)
    ensures forall i: nat :: i in InFlight(p.workers) <==> i < Claimed(p, |items|) && p.results[i].None?
    ensures |InFlight(p.workers)| <= WorkerCount(|items|, concurrency)
  {
    InFlightSize(p.workers);
    forall i: nat
      ensures i in InFlight(p.workers) <==> i < Claimed(p, |items|) && p.results[i].None?
    {
      InFlightMembers(p.workers, i);
    }
  }

  /** Runs one call to completion under an arbitrary scheduler: `pick` names
      the worker whose mapper call settles next (any running worker when it
      names none).  The result has one slot per item; with at least one
      worker every slot holds `mapper(items[i], i)` whatever the completion
      order, and with none (concurrency below 1) every slot stays a hole. */
  method MapWithConcurrency<T, R>(items: seq<T>, mapper: (T, nat) -> R, pick: Pool<R> -> nat,
                                  concurrency: int := DefaultConcurrency)
    returns (results: seq<Option<R>>, calls: seq<nat>)
    ensures |results| == |items|
    ensures concurrency >= 1 ==> forall i | 0 <= i < |items| :: results[i] == Some(mapper(items[i], i))
    ensures concurrency < 1 ==> forall i | 0 <= i < |items| :: results[i] == None
    ensures concurrency >= 1 ==> calls == seq(|items|, i => i)
    ensures concurrency < 1 ==> calls == []
  {
    var p: Pool<R> := Start(items, concurrency);
    StartState(items, mapper, concurrency);
    while exists w | 0 <= w < |p.workers| :: p.workers[w].Running?
      invariant Inv(items, mapper, p)
      invariant |p.workers| == WorkerCount(|items|, concurrency)
      invariant concurrency < 1 ==> p == Start(items, concurrency)
      decreases |items| + |p.workers| - p.cursor
    {
      var w := pick(p);
      if !CanResume(p, w) {
        w :| 0 <= w < |p.workers| && p.workers[w].Running?;
      }
      ResumeKeepsInv(items, mapper, p, w);
      p := Resume(items, mapper, p, w);
    }
    if |p.workers| >= 1 {
      TerminalResults(items, mapper, p);
    }
    results := p.results;
    calls := p.invoked;
  }
}
