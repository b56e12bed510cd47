/** What follows an attempt of the reconnecting stream: its end, only for a reason, or a wait, as long as the answer and
    the failures before ask for. */
module SseEnds {
  import opened Text
  import opened SseParser
  import opened SseStream

  /** The answer to the attempt that is over at `k`. */
  function AnswerAt(log: seq<Act>, env: Env, k: nat): Response
    requires k < |log| && 0 < Fetches(log[..k]) <= |env.world|
  {
    env.world[Fetches(log[..k]) - 1]
  }

  predicate HasAnswer(log: seq<Act>, env: Env, k: nat) {
    k < |log| && log[k].Over? && 0 < Fetches(log[..k]) <= |env.world|
  }

  /** A client error, but not 429, unless that says that there are too many streams. */
  predicate Final(r: Response) {
    r.Refused? && 400 <= r.status <= 499 && (r.status == 429 ==> r.tooMany)
  }

  /** Why a stream ends after an answer. */
  ghost predicate Reason(r: Response) {
    || Final(r) || (r.Rejected? && r.abort) || (r.Accepted? && r.ending.Broken? && r.ending.abort)
    || (r.Accepted? && exists n | 0 <= n <= |r.chunks| :: HasDone(EventsOf(Concat(r.chunks[..n]))))
  }

  /** After such an answer there is neither a wait nor a fetch. */
  lemma FinalIsFinal(log: seq<Act>, env: Env, k: nat, m: nat)
    requires Good(log, env) && HasAnswer(log, env, k) && Final(AnswerAt(log, env, k)) && k < m < |log|
    ensures !log[m].Fetch? && !log[m].Wait?
  {
    GoodAt(log, env, k);
    var f := FailureAt(log[..k]).value;
    assert log[..k][f] == log[f] && IsStop(log[f]);
    NothingFollows(log, env, f, m);
  }

  /** No fetch came after `j`. */
  predicate SameFetch(log: seq<Act>, j: nat) { forall i | j < i < |log| :: !log[i].Fetch? }

  lemma {:induction false} FailureStays(log: seq<Act>, env: Env, j: nat)
    requires Good(log, env) && j < |log| && log[j].Failure? && SameFetch(log, j)
    ensures FailureAt(log) == Some(j)
    decreases |log|
  {
    var n := |log| - 1;
    if j < n {
      assert SameFetch(log[..n], j);
      FailureStays(log[..n], env, j);
    }
  }

  lemma {:induction false} DoneIsDelivered(log: seq<Act>, j: nat)
    requires j < |log| && log[j].Done? && log[j].event.data == DONE && SameFetch(log, j)
    ensures HasDone(Delivered(log))
    decreases |log|
  {
    var n := |log| - 1;
    if j < n {
      assert SameFetch(log[..n], j);
      DoneIsDelivered(log[..n], j);
      var k :| 0 <= k < |Delivered(log[..n])| && Delivered(log[..n])[k].data == DONE;
      assert Delivered(log)[k].data == DONE;
    } else {
      assert Delivered(log)[|Delivered(log[..n])|].data == DONE;
    }
  }

  lemma {:induction false} PrefixDone(evs: seq<Event>)
    ensures HasDone(UpToDone(evs)) ==> HasDone(evs)
    decreases |evs|
  {
    if evs != [] {
      PrefixDone(evs[1..]);
      if evs[0].data == DONE {
        assert evs[0].data == DONE;
      } else if HasDone(UpToDone(evs)) {
        var k :| 0 <= k < |UpToDone(evs)| && UpToDone(evs)[k].data == DONE;
        assert UpToDone(evs[1..])[k - 1].data == DONE;
        var j :| 0 <= j < |evs[1..]| && evs[1..][j].data == DONE;
        assert evs[j + 1].data == DONE;
      }
    }
  }

  /** The stop that a log has seen is the one of its last attempt. */
  lemma StopIsLast(log: seq<Act>, env: Env, j: nat)
    requires Good(log, env) && j < |log| && IsStop(log[j])
    ensures SameFetch(log, j) && (log[j].Done? ==> log[j].event.data == DONE)
  {
    forall i | j < i < |log| ensures !log[i].Fetch? { NothingFollows(log, env, j, i); }
    GoodAt(log, env, j);
  }

  /** An attempt whose answer is over halts the stream only if the answer says so, or some text of it did. */
  lemma HaltIsAnswered(log: seq<Act>, env: Env)
    requires Good(log, env) && AnsweredLast(log, env) && Halted(log)
    ensures Reason(env.world[Fetches(log) - 1])
  {
    var j :| 0 <= j < |log| && IsStop(log[j]);
    StopIsLast(log, env, j);
    if log[j].Done? {
      DoneIsDelivered(log, j);
      var r := env.world[Fetches(log) - 1];
      assert Delivered(log) != [];
      var n :| 0 <= n <= |r.chunks| && Delivered(log) == UpToDone(EventsOf(Concat(r.chunks[..n])));
      PrefixDone(EventsOf(Concat(r.chunks[..n])));
    } else {
      FailureStays(log, env, j);
    }
  }

  lemma FinishedForAReason(log: seq<Act>, env: Env, over: Act)
    requires Good(log, env) && AnsweredLast(log, env) && over.Over? && Finished(log + [over], env)
    ensures Called(env.close, |log| + 1) || !env.reconnect || Reason(env.world[Fetches(log) - 1])
  {
    Snoc(log, over);
    if Halted(log) { HaltIsAnswered(log, env); }
    if Aborted(log + [over]) { AbortIsAnswered(log, over, env); }
  }

  /** The stream ends after an attempt only for a reason: it was closed, is not to reconnect, or the answer was final,
      was aborted, or held `[DONE]`. */
  lemma EndsForAReason(log: seq<Act>, env: Env, k: nat)
    requires Good(log, env) && k + 1 < |log| && log[k].Over? && log[k + 1].OnClose?
    ensures HasAnswer(log, env, k)
    ensures Called(env.close, k + 1) || !env.reconnect || Reason(AnswerAt(log, env, k))
  {
    GoodAt(log, env, k);
    GoodAt(log, env, k + 1);
    assert log[..k + 1] == log[..k] + [log[k]];
    FinishedForAReason(log[..k], env, log[k]);
  }

  lemma AbortIsAnswered(log: seq<Act>, over: Act, env: Env)
    requires over.Over? && AnsweredLast(log, env) && Aborted(log + [over])
    ensures Reason(env.world[Fetches(log) - 1])
  {
    Snoc(log, over);
    var f := FailureAt(log).value;
    assert (log + [over])[f] == log[f];
  }

  /** The attempt failed with an answer 429 that may be retried. */
  predicate FailedRetryable(log: seq<Act>) {
    FailureAt(log).Some? && log[FailureAt(log).value].outcome == BadStatus(429, false)
  }

  /** In an attempt, the penalty is what its failure says. */
  lemma {:induction false} PenaltyIs(log: seq<Act>, env: Env)
    requires Good(log, env) && log != [] && !log[|log| - 1].Wait?
    ensures !Closed(log) ==> Penalty(log) == if FailedRetryable(log) then 5000 else 0
    decreases |log|
  {
    var n := |log| - 1;
    if !Closed(log) {
      assert log == log[..n] + [log[n]];
      Snoc(log[..n], log[n]);
      if log[n].Fetch? {
        if log[..n] != [] { assert log[..n][n - 1].Wait?; }
      } else {
        assert log[..n] != [];
        assert Within(log[..n]);
        PenaltyIs(log[..n], env);
      }
    }
  }

  /** The wait after an attempt: five seconds at least after an answer 429 that may be retried, and else the backoff. */
  lemma WaitIs(log: seq<Act>, env: Env, k: nat)
    requires Good(log, env) && k + 1 < |log| && log[k].Over? && log[k + 1].Wait?
    ensures HasAnswer(log, env, k)
    ensures var backoff := Backoff(Failures(log[..k + 1]));
      log[k + 1].ms == if AnswerAt(log, env, k) == Refused(429, false) then Max(5000, backoff) else backoff
  {
    GoodAt(log, env, k);
    GoodAt(log, env, k + 1);
    var upTo := log[..k + 1];
    assert upTo == log[..k] + [log[k]];
    Snoc(log[..k], log[k]);
    PenaltyIs(upTo, env);
    FailureOfAnswer(log[..k], env);
    if FailureAt(upTo).Some? { assert upTo[FailureAt(upTo).value] == log[..k][FailureAt(upTo).value]; }
  }

  lemma FailureOfAnswer(log: seq<Act>, env: Env)
    requires AnsweredLast(log, env)
    ensures env.world[Fetches(log) - 1] == Refused(429, false) <==> FailedRetryable(log)
  {
  }
}
