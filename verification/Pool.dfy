/** Asynchronous tasks run by a bounded number of workers, which share the next index and write into one result list.
    A step is what one worker does between two awaits; any worker that waits may be the next to go on. */
module Pool {
  import opened Text

  datatype Worker = New | Busy(task: nat) | Gone

  /** Workers that have not ended. */
  function Live(workers: seq<Worker>): nat
    decreases |workers|
  {
    if workers == [] then 0 else (if workers[0].Gone? then 0 else 1) + Live(workers[1..])
  }

  function InFlight(workers: seq<Worker>): (n: nat)
    ensures n <= |workers|
    decreases |workers|
  {
    if workers == [] then 0 else (if workers[0].Busy? then 1 else 0) + InFlight(workers[1..])
  }

  lemma {:induction false} LiveUpdate(workers: seq<Worker>, k: nat, w: Worker)
    requires k < |workers| && !workers[k].Gone?
    ensures Live(workers[k := w]) == Live(workers) - if w.Gone? then 1 else 0
    ensures Live(workers) > 0
    decreases k
  {
    if k > 0 {
      assert workers[k := w][1..] == workers[1..][k - 1 := w];
      LiveUpdate(workers[1..], k - 1, w);
    } else {
      assert workers[0 := w][1..] == workers[1..];
    }
  }

  lemma {:induction false} InFlightUpdate(workers: seq<Worker>, k: nat)
    requires k < |workers|
    ensures InFlight(workers[k := New]) <= InFlight(workers)
    decreases k
  {
    if k > 0 {
      assert workers[k := New][1..] == workers[1..][k - 1 := New];
      InFlightUpdate(workers[1..], k - 1);
    } else {
      assert workers[0 := New][1..] == workers[1..];
    }
  }

  lemma {:induction false} AllGone(workers: seq<Worker>)
    ensures Live(workers) == 0 <==> forall k | 0 <= k < |workers| :: workers[k].Gone?
    decreases |workers|
  {
    if workers != [] {
      AllGone(workers[1..]);
      if forall k | 0 <= k < |workers| :: workers[k].Gone? {
        assert workers[0].Gone? && forall k | 0 <= k < |workers[1..]| :: workers[1..][k] == workers[k + 1];
      }
      if Live(workers) == 0 {
        forall k | 0 <= k < |workers| ensures workers[k].Gone? {
          if k > 0 { assert workers[1..][k - 1] == workers[k]; }
        }
      }
    }
  }

  function UpTo(n: nat): seq<nat> { seq(n, k requires 0 <= k < n => k) }

  class Pool<R> {
    const count: nat
    /** What the tasks resolve to. */
    const result: nat -> R
    var out: seq<Option<R>>
    var next: nat
    var workers: seq<Worker>
    /** The tasks called, in order. */
    var called: seq<nat>
    /** The most tasks that were ever in flight. */
    ghost var peak: nat

    constructor (count: nat, result: nat -> R)
      ensures Valid() && this.count == count && this.result == result && workers == [] && next == 0
    {
      this.count, this.result := count, result;
      out, next, workers, called, peak := seq(count, _ => None), 0, [], [], 0;
    }

    /** Every index below `next` was called once, and either one worker is at it or its result is in its place. */
    ghost predicate Valid()
      reads this
    {
      && next <= count && |out| == count && called == UpTo(next) && InFlight(workers) <= peak <= |workers|
      && (forall k | 0 <= k < |workers| && workers[k].Busy? :: workers[k].task < next && out[workers[k].task] == None)
      && (forall i | next <= i < count :: out[i] == None)
      && (forall i | 0 <= i < next ::
            out[i] == Some(result(i)) || exists k | 0 <= k < |workers| :: workers[k] == Busy(i))
      && (forall j, k | 0 <= j < k < |workers| && workers[j].Busy? :: workers[j] != workers[k])
      && (forall k | 0 <= k < |workers| && workers[k].Gone? :: next == count)
    }

    /** The result that worker `k` waited for is stored. */
    method Store(k: nat)
      requires Valid() && k < |workers| && !workers[k].Gone?
      modifies `out, `workers
      ensures Valid() && workers == old(workers)[k := New] && Live(workers) == Live(old(workers))
    {
      LiveUpdate(workers, k, New);
      if workers[k].Busy? {
        var i := workers[k].task;
        out := out[i := Some(result(i))];
      }
      InFlightUpdate(workers, k);
      workers := workers[k := New];
      assert forall j | 0 <= j < |workers| && j != k :: workers[j] == old(workers)[j];
    }

    /** Worker `k` takes the next task, or ends. */
    method Take(k: nat)
      requires Valid() && k < |workers| && workers[k].New?
      modifies `next, `workers, `called, `peak
      ensures Valid() && |workers| == |old(workers)| && !workers[k].New?
      ensures forall j | 0 <= j < |workers| && j != k :: workers[j] == old(workers)[j]
      ensures count - next + Live(workers) == count - old(next) + Live(old(workers)) - 1
    {
      ghost var was := workers;
      if next < count {
        LiveUpdate(workers, k, Busy(next));
        workers := workers[k := Busy(next)];
        called := called + [next];
        next := next + 1;
      } else {
        LiveUpdate(workers, k, Gone);
        workers := workers[k := Gone];
      }
      peak := if InFlight(workers) <= peak then peak else InFlight(workers);
      forall i | 0 <= i < next && out[i] != Some(result(i))
        ensures exists j | 0 <= j < |workers| :: workers[j] == Busy(i)
      {
        if i == old(next) {
          assert workers[k] == Busy(i);
        } else {
          var j :| 0 <= j < |was| && was[j] == Busy(i);
          assert workers[j] == Busy(i);
        }
      }
    }

    /** One more worker, which takes its first task at once. */
    method Spawn()
      requires Valid()
      modifies `next, `workers, `called, `peak
      ensures Valid() && |workers| == |old(workers)| + 1
    {
      ghost var was := workers;
      SpawnedInFlight(workers);
      workers := workers + [New];
      forall i | 0 <= i < next && out[i] != Some(result(i))
        ensures exists j | 0 <= j < |workers| :: workers[j] == Busy(i)
      {
        var j :| 0 <= j < |was| && was[j] == Busy(i);
        assert workers[j] == Busy(i);
      }
      Take(|workers| - 1);
    }

    /** The workers go on, in any order, until all have ended. */
    method AwaitAll()
      requires Valid()
      modifies `next, `workers, `called, `peak, `out
      ensures Valid() && |workers| == |old(workers)| && (forall k | 0 <= k < |workers| :: workers[k].Gone?)
      ensures workers == [] ==> next == old(next)
    {
      AllGone(workers);
      while Live(workers) > 0
        invariant Valid() && |workers| == |old(workers)| && (workers == [] ==> next == old(next))
        invariant Live(workers) == 0 <==> forall k | 0 <= k < |workers| :: workers[k].Gone?
        decreases count - next + Live(workers)
      {
        var k :| 0 <= k < |workers| && !workers[k].Gone?;
        Store(k);
        Take(k);
        AllGone(workers);
      }
    }

    /** All tasks, with at most `n` in flight, whichever worker goes on at each moment: each is called once, in
        order, and its result is at its index; with `n` at 0 none is called. */
    method Run(n: nat)
      requires Valid() && workers == [] && next == 0
      modifies this
      ensures |out| == count && peak <= if n <= count then n else count
      ensures n >= 1 ==> called == UpTo(count) && forall i | 0 <= i < count :: out[i] == Some(result(i))
      ensures n == 0 ==> called == [] && forall i | 0 <= i < count :: out[i] == None
    {
      var size := if n <= count then n else count;
      while |workers| < size
        invariant |workers| <= size && Valid() && (size == 0 ==> next == 0)
      {
        Spawn();
      }
      AwaitAll();
      if size > 0 { assert workers[0].Gone?; }
    }
  }

  lemma {:induction false} SpawnedInFlight(workers: seq<Worker>)
    ensures InFlight(workers + [New]) == InFlight(workers)
    decreases |workers|
  {
    if workers == [] {
      assert workers + [New] == [New] && [New][1..] == [];
    } else {
      assert (workers + [New])[1..] == workers[1..] + [New];
      SpawnedInFlight(workers[1..]);
    }
  }
}
