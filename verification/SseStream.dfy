/** The reconnecting stream over the parser: what it does in every run against arbitrary answers, with `close()` called
    at any moment. */
module SseStream {
  import opened Text
  import opened SseParser

  // ---- what the world answers ------------------------------------------------------------------------------------

  /** How a body ends. `abort` says that the error is an AbortError, and `status` is the status it carries, 0 for
      none. */
  datatype Ending = Complete | Broken(abort: bool, status: nat)

  /** One fetch: it is rejected, answered with a status that is not a success, or opened and read chunk by chunk. */
  datatype Response =
    | Rejected(abort: bool, status: nat)
    | Refused(status: nat, tooMany: bool)
    | Accepted(chunks: seq<string>, ending: Ending)

  /** The world: its answers to the fetches, one after the other, whether `close()` is called when so many actions
      are done, and whether the stream is to reconnect. */
  datatype Env = Env(world: seq<Response>, close: nat -> bool, reconnect: bool)

  // ---- what the stream does --------------------------------------------------------------------------------------

  datatype Outcome = Failed(abort: bool, status: nat) | BadStatus(status: nat, tooMany: bool)

  /** The observable actions, with `Failure` where an attempt is found to have failed, `Over` where it ends, and `Pause`
      for a wait for the world at which nothing else is seen. */
  datatype Act =
    | Fetch(lastId: Option<string>)
    | Opened
    | Emit(event: Event)
    | Done(event: Event)
    | Failure(outcome: Outcome)
    | OnError
    | Over
    | Wait(ms: nat)
    | Pause
    | OnClose

  const BASE: nat := 500
  const CAP: nat := 15000
  const TOO_MANY_WAIT: nat := 5000
  const DONE := "[DONE]"

  function Pow2(n: nat): nat { if n == 0 then 1 else 2 * Pow2(n - 1) }

  function Backoff(attempt: nat): nat { Min(CAP, BASE * Pow2(Min(attempt, 10))) }

  predicate Fatal(status: nat, tooMany: bool) { 400 <= status < 500 && (status != 429 || tooMany) }

  // ---- what a log says -------------------------------------------------------------------------------------------

  predicate HasId(a: Act) { (a.Emit? || a.Done?) && a.event.id.Some? && a.event.id.value != [] }

  /** The last non-empty event id delivered, on any connection. */
  function LastId(log: seq<Act>): Option<string> {
    if log == [] then None
    else
      var n := |log| - 1;
      if HasId(log[n]) then log[n].event.id else LastId(log[..n])
  }

  /** Waits since the last connection that opened. */
  function Failures(log: seq<Act>): nat {
    if log == [] then 0
    else
      var n := |log| - 1;
      if log[n].Opened? then 0 else Failures(log[..n]) + if log[n].Wait? then 1 else 0
  }

  /** The least next wait: five seconds after an answer 429, until it has been waited for. */
  function Penalty(log: seq<Act>): nat {
    if log == [] then 0
    else
      var n := |log| - 1;
      if log[n].Wait? then 0
      else if log[n] == Failure(BadStatus(429, false)) then TOO_MANY_WAIT
      else Penalty(log[..n])
  }

  /** Calls of `onError` since the last fetch. */
  function Errors(log: seq<Act>): nat {
    if log == [] then 0
    else
      var n := |log| - 1;
      if log[n].Fetch? then 0 else Errors(log[..n]) + if log[n].OnError? then 1 else 0
  }

  /** Where the attempt since the last fetch failed, if it did. */
  function FailureAt(log: seq<Act>): (r: Option<nat>)
    ensures r.Some? ==> r.value < |log| && log[r.value].Failure?
  {
    if log == [] then None
    else
      var n := |log| - 1;
      if log[n].Fetch? then None else if log[n].Failure? then Some(n) else FailureAt(log[..n])
  }

  function Fetches(log: seq<Act>): nat {
    if log == [] then 0
    else
      var n := |log| - 1;
      Fetches(log[..n]) + if log[n].Fetch? then 1 else 0
  }

  /** The events delivered since the last fetch. */
  function Delivered(log: seq<Act>): seq<Event> {
    if log == [] then []
    else
      var n := |log| - 1;
      if log[n].Fetch? then []
      else if log[n].Emit? || log[n].Done? then Delivered(log[..n]) + [log[n].event]
      else Delivered(log[..n])
  }

  /** The connection has opened since the last fetch. */
  predicate OpenedIn(log: seq<Act>) {
    log != [] &&
    var n := |log| - 1;
    log[n].Opened? || (!log[n].Fetch? && OpenedIn(log[..n]))
  }

  /** An attempt is going on. */
  predicate Within(log: seq<Act>) {
    log != [] && var a := log[|log| - 1]; !a.Over? && !a.Wait? && !a.OnClose?
  }

  predicate IsStop(a: Act) {
    a.Done? || (a.Failure? && a.outcome.BadStatus? && Fatal(a.outcome.status, a.outcome.tooMany))
  }

  /** `[DONE]` or a fatal answer was seen. */
  predicate Halted(log: seq<Act>) { exists k | 0 <= k < |log| :: IsStop(log[k]) }

  predicate Closed(log: seq<Act>) { exists k | 0 <= k < |log| :: log[k].OnClose? }

  predicate Completed(log: seq<Act>) { exists k | 0 <= k < |log| :: log[k].Done? }

  /** `close()` has been called by the time the log has `n` actions; `close(n)` says whether it is at that point. */
  predicate Called(close: nat -> bool, n: nat) { n > 0 && (close(n) || Called(close, n - 1)) }

  predicate IsClosed(log: seq<Act>, env: Env) { Called(env.close, |log|) || Completed(log) }

  /** How often `onError` is due for the attempt since the last fetch. */
  function Due(log: seq<Act>, env: Env): nat {
    match FailureAt(log)
    case None => 0
    case Some(f) =>
      match log[f].outcome
      case Failed(abort, status) => if abort || status != 0 || Called(env.close, f + 1) then 0 else 1
      case BadStatus(status, _) => if status == 0 && !Called(env.close, f + 2) then 2 else 1
  }

  /** The attempt since the last fetch failed with `o`. */
  predicate FailedWith(log: seq<Act>, o: Outcome) {
    var f := FailureAt(log);
    f.Some? && log[f.value].outcome == o
  }

  predicate Aborted(log: seq<Act>) {
    var f := FailureAt(log);
    f.Some? && log[f.value].outcome.Failed? && log[f.value].outcome.abort
  }

  /** What the log says of the attempt since the last fetch is what the answer makes of it: how it failed, if it did,
      and the events of what was read, all of it unless the stream was closed. */
  predicate Answered(log: seq<Act>, r: Response, closed: bool) {
    match r
    case Rejected(abort, status) => FailedWith(log, Failed(abort, status)) && !OpenedIn(log) && Delivered(log) == []
    case Refused(status, tooMany) =>
      FailedWith(log, BadStatus(status, tooMany)) && !OpenedIn(log) && Delivered(log) == []
    case Accepted(chunks, ending) => OpenedIn(log) && ReadFrom(log, chunks, closed) && EndedBy(log, ending, closed)
  }

  /** The events are those of the chunks, or of some first ones when the stream was closed, up to `[DONE]`. */
  predicate ReadFrom(log: seq<Act>, chunks: seq<string>, closed: bool) {
    exists n | 0 <= n <= |chunks| ::
      Delivered(log) == UpToDone(EventsOf(Concat(chunks[..n]))) && (n == |chunks| || closed)
  }

  predicate EndedBy(log: seq<Act>, ending: Ending, closed: bool) {
    match ending
    case Complete => FailureAt(log) == None
    case Broken(abort, status) => FailedWith(log, Failed(abort, status)) || (FailureAt(log) == None && closed)
  }

  /** The answer to the last fetch. */
  predicate AnsweredLast(log: seq<Act>, env: Env) {
    0 < Fetches(log) <= |env.world| && Answered(log, env.world[Fetches(log) - 1], IsClosed(log, env))
  }

  /** There is to be no further attempt. */
  predicate Finished(log: seq<Act>, env: Env) {
    Called(env.close, |log|) || Halted(log) || !env.reconnect || Aborted(log)
  }

  /** The order of actions: fetches start attempts, and waits stand between them. */
  predicate Follows(log: seq<Act>, a: Act) {
    if log == [] then a.Fetch?
    else if Within(log) then !a.Fetch? && !a.Wait? && !a.OnClose?
    else a.OnClose? || if log[|log| - 1].Over? then a.Wait? else a.Fetch?
  }

  /** What may be done next after `log`. */
  predicate Allowed(log: seq<Act>, env: Env, a: Act) {
    && !Closed(log) && Follows(log, a)
    && match a
       case Fetch(id) => id == LastId(log) && (log != [] ==> !Finished(log, env))
       case Wait(ms) => ms == Max(Penalty(log), Backoff(Failures(log))) && !Finished(log, env)
       case Opened => !Halted(log) && FailureAt(log) == None
       case Emit(e) => !Halted(log) && OpenedIn(log) && FailureAt(log) == None && e.data != DONE
       case Done(e) => !Halted(log) && OpenedIn(log) && FailureAt(log) == None && e.data == DONE
       case Failure(_) => FailureAt(log) == None
       case OnError => FailureAt(log).Some?
       case Over => Errors(log) == Due(log, env) && AnsweredLast(log, env)
       case OnClose => Finished(log, env)
       case Pause => true
  }

  /** Every action of the log was allowed when it was done. */
  predicate Good(log: seq<Act>, env: Env)
    decreases |log|
  {
    log == [] ||
    var n := |log| - 1;
    Good(log[..n], env) && Allowed(log[..n], env, log[n])
  }

  predicate Waiting(log: seq<Act>) { log != [] && log[|log| - 1].Wait? }

  predicate Shut(log: seq<Act>) { log != [] && log[|log| - 1].OnClose? }

  /** How an action changes what the log says. */
  predicate Adds(log: seq<Act>, a: Act, more: seq<Act>) {
    && more == log + [a]
    && LastId(more) == (if HasId(a) then a.event.id else LastId(log))
    && Failures(more) == (if a.Opened? then 0 else Failures(log) + if a.Wait? then 1 else 0)
    && Penalty(more) == (if a.Wait? then 0
                         else if a == Failure(BadStatus(429, false)) then TOO_MANY_WAIT
                         else Penalty(log))
    && Errors(more) == (if a.Fetch? then 0 else Errors(log) + if a.OnError? then 1 else 0)
    && FailureAt(more) == (if a.Fetch? then None else if a.Failure? then Some(|log|) else FailureAt(log))
    && Delivered(more) == (if a.Fetch? then []
                           else if a.Emit? || a.Done? then Delivered(log) + [a.event]
                           else Delivered(log))
    && OpenedIn(more) == (a.Opened? || (!a.Fetch? && OpenedIn(log)))
    && Within(more) == (!a.Over? && !a.Wait? && !a.OnClose?)
    && Fetches(more) == Fetches(log) + (if a.Fetch? then 1 else 0)
    && Halted(more) == (Halted(log) || IsStop(a))
    && Closed(more) == (Closed(log) || a.OnClose?)
    && Completed(more) == (Completed(log) || a.Done?)
  }

  lemma Snoc(log: seq<Act>, a: Act)
    ensures Adds(log, a, log + [a])
  {
    var l := log + [a];
    assert l[..|l| - 1] == log && l[|log|] == a;
    SnocSeen(log, a);
  }

  lemma SnocSeen(log: seq<Act>, a: Act)
    ensures Halted(log + [a]) == (Halted(log) || IsStop(a))
    ensures Closed(log + [a]) == (Closed(log) || a.OnClose?)
    ensures Completed(log + [a]) == (Completed(log) || a.Done?)
  {
    var l := log + [a];
    if Halted(log) {
      var k :| 0 <= k < |log| && IsStop(log[k]);
      assert IsStop(l[k]);
    }
    if Closed(log) {
      var k :| 0 <= k < |log| && log[k].OnClose?;
      assert l[k].OnClose?;
    }
    if Completed(log) {
      var k :| 0 <= k < |log| && log[k].Done?;
      assert l[k].Done?;
    }
    assert l[|log|] == a;
  }

  lemma GoodSnoc(log: seq<Act>, a: Act, env: Env)
    requires Good(log, env) && Allowed(log, env, a)
    ensures Good(log + [a], env)
  {
    var l := log + [a];
    assert l[..|l| - 1] == log;
  }

  lemma ClosedSnoc(log: seq<Act>, a: Act, env: Env)
    ensures IsClosed(log + [a], env) == (IsClosed(log, env) || a.Done? || env.close(|log| + 1))
  {
    SnocSeen(log, a);
  }

  // ---- the events of a connection --------------------------------------------------------------------------------

  /** The events up to `[DONE]`, that one included. */
  function UpToDone(evs: seq<Event>): seq<Event> {
    if evs == [] then []
    else if evs[0].data == DONE then [evs[0]]
    else [evs[0]] + UpToDone(evs[1..])
  }

  predicate HasDone(evs: seq<Event>) { exists k | 0 <= k < |evs| :: evs[k].data == DONE }

  lemma DoneHead(e: Event, rest: seq<Event>)
    ensures UpToDone([e] + rest) == if e.data == DONE then [e] else [e] + UpToDone(rest)
    ensures HasDone([e] + rest) <==> e.data == DONE || HasDone(rest)
  {
    var evs := [e] + rest;
    assert evs[1..] == rest && evs[0] == e;
    if HasDone(rest) {
      var k :| 0 <= k < |rest| && rest[k].data == DONE;
      assert evs[k + 1].data == DONE;
    }
    if HasDone(evs) && e.data != DONE {
      var k :| 0 <= k < |evs| && evs[k].data == DONE;
      assert rest[k - 1].data == DONE;
    }
  }

  lemma {:induction false} NoneDone(evs: seq<Event>)
    requires !HasDone(evs)
    ensures UpToDone(evs) == evs
    decreases |evs|
  {
    if evs != [] {
      assert evs == [evs[0]] + evs[1..];
      DoneHead(evs[0], evs[1..]);
      NoneDone(evs[1..]);
    }
  }

  lemma EventsJoined(a: seq<Event>, b: seq<Event>, c: seq<Event>)
    ensures a + (b + c) == a + b + c
  {
  }

  lemma {:induction false} UpToDoneBoth(a: seq<Event>, b: seq<Event>)
    ensures UpToDone(a + b) == if HasDone(a) then UpToDone(a) else UpToDone(a) + UpToDone(b)
    decreases |a|
  {
    if a == [] {
      assert a + b == b;
    } else {
      var e, rest := a[0], a[1..];
      assert a == [e] + rest && a + b == [e] + (rest + b);
      UpToDoneBoth(rest, b);
      DoneHead(e, rest);
      DoneHead(e, rest + b);
      EventsJoined([e], UpToDone(rest), UpToDone(b));
    }
  }

  lemma UpToDoneAppend(a: seq<Event>, b: seq<Event>)
    ensures HasDone(a) ==> UpToDone(a + b) == UpToDone(a)
    ensures !HasDone(a) ==> UpToDone(a) == a && UpToDone(a + b) == a + UpToDone(b)
  {
    UpToDoneBoth(a, b);
    if !HasDone(a) { NoneDone(a); }
  }

  /** All events of a text, fed at once to a new parser. */
  function EventsOf(text: string): seq<Event> { Events(INITIAL, Lines(text)) }

  lemma MoreText(text: string, chunk: string)
    ensures var lines := Lines(Rest(text) + chunk);
      && Rest(text + chunk) == Rest(Rest(text) + chunk)
      && CurAfter(INITIAL, Lines(text + chunk)) == CurAfter(CurAfter(INITIAL, Lines(text)), lines)
      && EventsOf(text + chunk) == EventsOf(text) + Events(CurAfter(INITIAL, Lines(text)), lines)
  {
    CutAnywhere(text, chunk);
    LinesAppend(INITIAL, Lines(text), Lines(Rest(text) + chunk));
  }

  /** Nothing has happened but events. */
  predicate SameAttempt(was: seq<Act>, log: seq<Act>) {
    && FailureAt(log) == FailureAt(was) && Errors(log) == Errors(was) && Fetches(log) == Fetches(was)
    && Failures(log) == Failures(was) && OpenedIn(log) == OpenedIn(was) && Within(log) == Within(was)
  }

  /** The body of a connection is being read. */
  predicate InBody(log: seq<Act>) { Within(log) && OpenedIn(log) && FailureAt(log) == None && Errors(log) == 0 }

  /** An attempt has just started. */
  predicate Asking(log: seq<Act>) {
    && Within(log) && !OpenedIn(log) && FailureAt(log) == None && Errors(log) == 0 && Delivered(log) == []
    && !Halted(log) && !Completed(log)
  }

  // ---- the stream ------------------------------------------------------------------------------------------------

  class EventStream {
    const env: Env
    var attempt: nat
    var lastId: Option<string>
    var minWait: nat
    var closed: bool
    var log: seq<Act>

    constructor (env: Env)
      ensures Valid() && log == [] && this.env == env
    {
      this.env := env;
      attempt, lastId, minWait, closed, log := 0, None, 0, false, [];
    }

    /** The log is good and `closed` is what it and `close()` make it. */
    ghost predicate Sound()
      reads this
    {
      Good(log, env) && !Closed(log) && closed == IsClosed(log, env)
    }

    /** Besides, the variables of the loop are what the log says. */
    ghost predicate Valid()
      reads this
    {
      Sound() && lastId == LastId(log) && attempt == Failures(log) && minWait == Penalty(log)
    }

    /** Do `a`. `close()` may be called meanwhile, and `[DONE]` closes the stream. */
    method Do(a: Act)
      requires Sound() && Allowed(log, env, a) && !a.OnClose?
      modifies `log, `closed
      ensures Sound() && Adds(old(log), a, log) && |log| == |old(log)| + 1
    {
      Snoc(log, a);
      GoodSnoc(log, a, env);
      ClosedSnoc(log, a, env);
      log := log + [a];
      if a.Done? || env.close(|log|) { closed := true; }
    }

    /** One parsed event. */
    method Deliver(e: Event)
      requires Valid() && !Halted(log) && InBody(log)
      modifies `log, `closed, `lastId
      ensures Valid() && Delivered(log) == Delivered(old(log)) + [e]
      ensures Halted(log) == (e.data == DONE) && Completed(log) == (Completed(old(log)) || e.data == DONE)
      ensures SameAttempt(old(log), log)
    {
      if e.id.Some? && e.id.value != [] { lastId := e.id; }
      if e.data == DONE {
        Do(Done(e));
      } else {
        Do(Emit(e));
      }
    }

    /** The events of one chunk, up to `[DONE]`. */
    method DeliverAll(evs: seq<Event>)
      requires Valid() && !Halted(log) && InBody(log)
      modifies `log, `closed, `lastId
      ensures Valid() && Delivered(log) == Delivered(old(log)) + UpToDone(evs)
      ensures Halted(log) == HasDone(evs) && Completed(log) == (Completed(old(log)) || HasDone(evs))
      ensures SameAttempt(old(log), log)
    {
      ghost var was := Delivered(log);
      var i := 0;
      while i < |evs|
        invariant 0 <= i <= |evs|
        invariant Valid() && !Halted(log) && InBody(log) && !HasDone(evs[..i])
        invariant Completed(log) == Completed(old(log))
        invariant Delivered(log) == was + evs[..i]
        invariant SameAttempt(old(log), log)
      {
        NextEvent(was, evs[..i], evs[i]);
        assert evs[..i + 1] == evs[..i] + [evs[i]];
        Deliver(evs[i]);
        if evs[i].data == DONE {
          FirstDone(evs, i);
          return;
        }
        i := i + 1;
      }
      UpToDoneAppend(evs, []);
      assert evs[..i] == evs;
    }

    /** The parser has been fed `text`, and its events were delivered. */
    ghost predicate Reading(parser: SSEParser, text: string)
      reads this, parser
    {
      && Valid() && !Halted(log) && !Completed(log) && InBody(log)
      && parser.buf == Rest(text) && parser.cur == CurAfter(INITIAL, Lines(text))
      && Delivered(log) == EventsOf(text) && !HasDone(EventsOf(text))
    }

    /** One chunk of the body. */
    method ReadChunk(parser: SSEParser, chunk: string, ghost text: string)
      requires Reading(parser, text)
      modifies `log, `closed, `lastId, parser
      ensures Valid() && Delivered(log) == UpToDone(EventsOf(text + chunk))
      ensures Halted(log) == Completed(log) == HasDone(EventsOf(text + chunk))
      ensures !Halted(log) ==> Reading(parser, text + chunk)
      ensures SameAttempt(old(log), log)
    {
      Do(Pause);
      NextChunk(text, chunk);
      var evs := parser.Feed(chunk);
      DeliverAll(evs);
    }

    /** The body of an answer that is a success, read to its end, to `[DONE]` or until the stream is closed: `n` of its
        chunks. */
    method ReadBody(chunks: seq<string>) returns (n: nat)
      requires Valid() && !Halted(log) && !Completed(log) && InBody(log) && Delivered(log) == []
      modifies `log, `closed, `lastId
      ensures n <= |chunks| && Valid() && Delivered(log) == UpToDone(EventsOf(Concat(chunks[..n])))
      ensures Halted(log) == Completed(log) == HasDone(EventsOf(Concat(chunks[..n])))
      ensures n < |chunks| || Completed(log) ==> closed
      ensures SameAttempt(old(log), log)
    {
      var parser := new SSEParser();
      n := 0;
      while n < |chunks|
        invariant 0 <= n <= |chunks| && fresh(parser)
        invariant Reading(parser, Concat(chunks[..n]))
        invariant SameAttempt(old(log), log)
        decreases |chunks| - n
      {
        ConcatSnoc(chunks, n);
        ReadChunk(parser, chunks[n], Concat(chunks[..n]));
        n := n + 1;
        if closed {
          Do(Pause);
          return;
        }
      }
      Do(Pause);
      NoneDone(EventsOf(Concat(chunks[..n])));
    }

    /** The `catch` of an attempt whose fetch was rejected or whose body broke. */
    method Lose(abort: bool, status: nat) returns (stop: bool)
      requires Valid() && !Halted(log) && !Completed(log) && Within(log) && FailureAt(log) == None && Errors(log) == 0
      modifies `log, `closed
      ensures Valid() && !Halted(log) && !Completed(log) && Within(log) && Errors(log) == Due(log, env)
      ensures FailedWith(log, Failed(abort, status)) && Delivered(log) == Delivered(old(log))
      ensures Fetches(log) == Fetches(old(log)) && OpenedIn(log) == OpenedIn(old(log))
      ensures stop ==> closed || Aborted(log)
      ensures !stop ==> !Aborted(log)
    {
      Do(Failure(Failed(abort, status)));
      if closed || abort { return true; }
      if status == 0 { Do(OnError); }
      return false;
    }

    /** An answer that is not a success is reported. */
    method Report(status: nat, tooMany: bool)
      requires Valid() && Asking(log)
      modifies `log, `closed, `minWait
      ensures Valid() && !Completed(log) && Halted(log) == Fatal(status, tooMany) && Errors(log) == 1
      ensures 2 <= |log| && FailureAt(log) == Some(|log| - 2) && log[|log| - 2] == Failure(BadStatus(status, tooMany))
      ensures Fetches(log) == Fetches(old(log)) && Within(log) && !OpenedIn(log) && Delivered(log) == []
    {
      Do(Failure(BadStatus(status, tooMany)));
      Do(OnError);
      if status == 429 && !tooMany { minWait := TOO_MANY_WAIT; }
    }

    /** An answer that is not a success, and the `catch` it may be thrown to. */
    method Refuse(status: nat, tooMany: bool) returns (stop: bool)
      requires Valid() && Asking(log)
      modifies `log, `closed, `minWait
      ensures Valid() && !Completed(log) && Within(log) && Errors(log) == Due(log, env) && !Aborted(log)
      ensures Answered(log, Refused(status, tooMany), closed) && Fetches(log) == Fetches(old(log))
      ensures stop ==> closed || Halted(log)
      ensures !stop ==> !Halted(log)
    {
      Do(Pause);
      Report(status, tooMany);
      if Fatal(status, tooMany) || closed { return true; }
      if status == 0 { Do(OnError); }
      return false;
    }

    /** An answer that is a success, and the `catch` for a body that breaks. */
    method Accept(chunks: seq<string>, ending: Ending) returns (stop: bool)
      requires Valid() && Asking(log)
      modifies `log, `closed, `attempt, `lastId
      ensures Valid() && Within(log) && Errors(log) == Due(log, env) && Fetches(log) == Fetches(old(log))
      ensures Answered(log, Accepted(chunks, ending), closed)
      ensures stop ==> closed || Aborted(log)
      ensures !stop && !closed ==> !Halted(log) && !Completed(log) && !Aborted(log)
    {
      attempt := 0;
      Do(Opened);
      var n := ReadBody(chunks);
      stop := false;
      assert ReadFrom(log, chunks, closed);
      if n == |chunks| && ending.Broken? && !closed {
        stop := Lose(ending.abort, ending.status);
        assert ReadFrom(log, chunks, closed);
      }
    }

    /** One pass of the `try`. */
    method Attempt(r: Response) returns (stop: bool)
      requires Valid() && !Halted(log) && !Completed(log)
      requires Allowed(log, env, Fetch(lastId))
      modifies `log, `closed, `minWait, `attempt, `lastId
      ensures Valid() && Within(log) && Errors(log) == Due(log, env) && Fetches(log) == Fetches(old(log)) + 1
      ensures Answered(log, r, closed)
      ensures stop ==> closed || Halted(log) || Aborted(log)
      ensures !stop && !closed ==> !Halted(log) && !Completed(log) && !Aborted(log)
    {
      Do(Fetch(lastId));
      match r {
        case Rejected(abort, status) => stop := Lose(abort, status);
        case Refused(status, tooMany) => stop := Refuse(status, tooMany);
        case Accepted(chunks, ending) => stop := Accept(chunks, ending);
      }
    }

    /** After the loop. */
    method Close()
      requires Sound() && log != [] && !Within(log) && Finished(log, env)
      modifies `log, `closed
      ensures Good(log, env) && Adds(old(log), OnClose, log) && closed
    {
      GoodSnoc(log, OnClose, env);
      Snoc(log, OnClose);
      closed := true;
      log := log + [OnClose];
    }

    /** One attempt, up to its end. */
    method Settle() returns (stop: bool)
      requires Valid() && !Halted(log) && !Completed(log) && !closed && Fetches(log) < |env.world|
      requires log != [] ==> Waiting(log) && env.reconnect && !Aborted(log)
      modifies `log, `closed, `minWait, `attempt, `lastId
      ensures Valid() && Fetches(log) == Fetches(old(log)) + 1 && log != [] && log[|log| - 1].Over? && !Within(log)
      ensures stop ==> closed || Halted(log) || Aborted(log)
      ensures !stop && !closed ==> !Halted(log) && !Completed(log) && !Aborted(log)
    {
      stop := Attempt(env.world[Fetches(log)]);
      Do(Over);
    }

    /** One turn of the loop: the last one, or one that ends with a wait. */
    method Turn() returns (over: bool)
      requires Valid() && !Halted(log) && !Completed(log) && !closed && Fetches(log) < |env.world|
      requires log != [] ==> Waiting(log) && env.reconnect && !Aborted(log)
      modifies `log, `closed, `minWait, `attempt, `lastId
      ensures Good(log, env) && Fetches(log) == Fetches(old(log)) + 1
      ensures if over then Shut(log)
              else Valid() && !Halted(log) && !Completed(log) && Waiting(log) && env.reconnect && !Aborted(log)
    {
      var stop := Settle();
      if stop || closed || !env.reconnect {
        Close();
        return true;
      }
      Do(Wait(Max(minWait, Backoff(attempt))));
      attempt, minWait := attempt + 1, 0;
      return false;
    }

    /** The stream against the answers of the world: it either ends, or has used them all up and would go on. */
    method Run() returns (over: bool)
      requires Valid() && log == []
      modifies this
      ensures Good(log, env) && !Within(log)
      ensures over ==> Shut(log) && 0 < Fetches(log) <= |env.world|
      ensures !over ==> Sound() && !closed && Fetches(log) == |env.world|
    {
      ghost var i := 0;
      while !closed && Fetches(log) < |env.world|
        invariant 0 <= i <= |env.world| && Valid() && !Halted(log) && !Completed(log)
        invariant log != [] ==> Waiting(log) && env.reconnect && !Aborted(log)
        invariant (log == [] ==> !closed) && Fetches(log) == i && (i == 0 <==> log == [])
        decreases |env.world| - i
      {
        over := Turn();
        i := i + 1;
        if over { return; }
      }
      over := closed;
      if closed { Close(); }
    }
  }

  lemma {:induction false} ConcatSnoc(chunks: seq<string>, n: nat)
    requires n < |chunks|
    ensures Concat(chunks[..n + 1]) == Concat(chunks[..n]) + chunks[n]
    decreases n
  {
    if n == 0 {
      assert chunks[..1] == [chunks[0]] && [chunks[0]][1..] == [];
    } else {
      ConcatSnoc(chunks[1..], n - 1);
      assert chunks[..n + 1][1..] == chunks[1..][..n] && chunks[..n][1..] == chunks[1..][..n - 1];
      assert chunks[0] + (Concat(chunks[1..][..n - 1]) + chunks[n]) ==
             chunks[0] + Concat(chunks[1..][..n - 1]) + chunks[n];
    }
  }

  lemma DoneAppend(a: seq<Event>, b: seq<Event>)
    requires !HasDone(a)
    ensures HasDone(a + b) == HasDone(b)
  {
    if HasDone(b) {
      var k :| 0 <= k < |b| && b[k].data == DONE;
      assert (a + b)[|a| + k].data == DONE;
    }
  }

  /** What a chunk after `text` gives. */
  lemma NextChunk(text: string, chunk: string)
    requires !HasDone(EventsOf(text))
    ensures var lines := Lines(Rest(text) + chunk);
      var evs := Events(CurAfter(INITIAL, Lines(text)), lines);
      && Rest(text + chunk) == Rest(Rest(text) + chunk)
      && CurAfter(INITIAL, Lines(text + chunk)) == CurAfter(CurAfter(INITIAL, Lines(text)), lines)
      && EventsOf(text) + UpToDone(evs) == UpToDone(EventsOf(text + chunk))
      && HasDone(EventsOf(text + chunk)) == HasDone(evs)
      && (!HasDone(evs) ==> EventsOf(text) + UpToDone(evs) == EventsOf(text + chunk))
  {
    MoreText(text, chunk);
    var evs := Events(CurAfter(INITIAL, Lines(text)), Lines(Rest(text) + chunk));
    UpToDoneAppend(EventsOf(text), evs);
    DoneAppend(EventsOf(text), evs);
    if !HasDone(evs) { NoneDone(evs); }
  }

  lemma NextEvent(was: seq<Event>, seen: seq<Event>, e: Event)
    requires !HasDone(seen)
    ensures was + seen + [e] == was + (seen + [e])
    ensures HasDone(seen + [e]) == (e.data == DONE)
  {
    DoneAppend(seen, [e]);
    assert [e][0] == e;
  }

  lemma FirstDone(evs: seq<Event>, i: nat)
    requires i < |evs| && !HasDone(evs[..i]) && evs[i].data == DONE
    ensures UpToDone(evs) == evs[..i] + [evs[i]] && HasDone(evs)
  {
    var rest := evs[i..];
    assert evs == evs[..i] + rest && rest[0] == evs[i];
    UpToDoneAppend(evs[..i], rest);
  }

  // ---- what every good log has -----------------------------------------------------------------------------------

  lemma {:induction false} GoodAt(log: seq<Act>, env: Env, k: nat)
    requires Good(log, env) && k < |log|
    ensures Good(log[..k], env) && Allowed(log[..k], env, log[k])
    decreases |log|
  {
    var n := |log| - 1;
    if k < n {
      GoodAt(log[..n], env, k);
      assert log[..n][..k] == log[..k];
    }
  }

  lemma {:induction false} CalledStays(close: nat -> bool, j: nat, k: nat)
    requires Called(close, j) && j <= k
    ensures Called(close, k)
    decreases k
  {
    if j < k { CalledStays(close, j, k - 1); }
  }

  /** After `[DONE]`, a fatal answer or `close()` there is neither a wait nor a fetch, and after the first two no event;
      `onClose` is the last action of all. */
  lemma NothingFollows(log: seq<Act>, env: Env, j: nat, k: nat)
    requires Good(log, env) && j < k < |log|
    ensures IsStop(log[j]) ==> !log[k].Fetch? && !log[k].Wait? && !log[k].Opened? && !log[k].Emit? && !log[k].Done?
    ensures Called(env.close, j) ==> !log[k].Fetch? && !log[k].Wait?
    ensures !log[j].OnClose?
  {
    GoodAt(log, env, k);
    assert log[..k][j] == log[j];
    if Called(env.close, j) { CalledStays(env.close, j, k); }
  }

  /** `x` is the id of the last event of the log that has one, if any has. */
  lemma {:induction false} LastIdIsLast(log: seq<Act>)
    ensures LastId(log) == None <==> forall k | 0 <= k < |log| :: !HasId(log[k])
    ensures forall k | 0 <= k < |log| && HasId(log[k]) && (forall j | k < j < |log| :: !HasId(log[j])) ::
      LastId(log) == log[k].event.id
    decreases |log|
  {
    if log != [] {
      var n := |log| - 1;
      var front := log[..n];
      LastIdIsLast(front);
      forall k | 0 <= k < |log| && HasId(log[k]) && (forall j | k < j < |log| :: !HasId(log[j]))
        ensures LastId(log) == log[k].event.id
      {
        if k < n {
          assert !HasId(log[n]) && front[k] == log[k];
          assert forall j | k < j < n :: front[j] == log[j];
        }
      }
      if LastId(log) == None {
        forall k | 0 <= k < |log| ensures !HasId(log[k]) {
          if k < n { assert front[k] == log[k]; }
        }
      } else if !HasId(log[n]) {
        var k :| 0 <= k < |front| && HasId(front[k]);
        assert HasId(log[k]);
      }
    }
  }

  /** The id of the event that is delivered, if any, empty without one. */
  function IdOf(a: Act): string {
    match a
    case Emit(e) => if e.id.Some? then e.id.value else ""
    case Done(e) => if e.id.Some? then e.id.value else ""
    case _ => ""
  }

  /** A reconnect carries the last id delivered on any connection before it that is not empty, and none if there is
      none. */
  lemma ReconnectsWithLastId(log: seq<Act>, env: Env, j: int, k: nat)
    requires Good(log, env) && -1 <= j < k < |log| && log[k].Fetch?
    requires (j >= 0 ==> IdOf(log[j]) != "") && forall i | j < i < k :: IdOf(log[i]) == ""
    ensures log[k].lastId == if j >= 0 then Some(IdOf(log[j])) else None
  {
    GoodAt(log, env, k);
    LastIdIsLast(log[..k]);
    if j >= 0 { assert log[..k][j] == log[j] && HasId(log[j]); }
  }

  /** How often an answer is reported while the stream is open: once for a failure, but not for an error that carries
      a status, and twice for an answer with status 0. */
  function Reports(r: Response): nat {
    match r
    case Rejected(abort, status) => if abort || status != 0 then 0 else 1
    case Refused(status, _) => if status == 0 then 2 else 1
    case Accepted(_, Complete) => 0
    case Accepted(_, Broken(abort, status)) => if abort || status != 0 then 0 else 1
  }

  /** Every attempt of a good log is over before the next one: after a fetch, its answer. */
  lemma AttemptEnds(log: seq<Act>, env: Env, k: nat) returns (m: nat)
    requires Good(log, env) && k < |log| && log[k].Fetch? && !Within(log)
    ensures k < m < |log| && log[m].Over? && Fetches(log[..m]) == Fetches(log[..k]) + 1
  {
    m := k + 1;
    assert log[..m] == log[..k] + [log[k]];
    Snoc(log[..k], log[k]);
    assert log[..|log|] == log;
    while !log[m].Over?
      invariant k < m < |log| && Within(log[..m]) && Fetches(log[..m]) == Fetches(log[..k]) + 1
      decreases |log| - m
    {
      StaysWithin(log, env, m);
      m := m + 1;
    }
  }

  /** An attempt goes on until it is over. */
  lemma StaysWithin(log: seq<Act>, env: Env, m: nat)
    requires Good(log, env) && m < |log| && Within(log[..m]) && !log[m].Over?
    ensures Within(log[..m + 1]) && Fetches(log[..m + 1]) == Fetches(log[..m])
  {
    GoodAt(log, env, m);
    assert log[..m + 1] == log[..m] + [log[m]];
    Snoc(log[..m], log[m]);
  }

  lemma {:induction false} ErrorsFollowFailure(log: seq<Act>, env: Env)
    requires Good(log, env) && Errors(log) > 0
    ensures FailureAt(log).Some? && FailureAt(log).value + 1 < |log|
    decreases |log|
  {
    var n := |log| - 1;
    if log[n].OnError? {
      assert FailureAt(log[..n]).value < n;
    } else {
      ErrorsFollowFailure(log[..n], env);
    }
  }

  /** The answer to the `n`-th fetch is reported as often as its kind says while the stream is open, never more
      often, and an answer that is not a success at least once. */
  lemma ReportsOnce(log: seq<Act>, env: Env, k: nat)
    requires Good(log, env) && k < |log| && log[k].Over?
    ensures 0 < Fetches(log[..k]) <= |env.world|
    ensures var r, errors := env.world[Fetches(log[..k]) - 1], Errors(log[..k]);
      && errors <= Reports(r)
      && (!IsClosed(log[..k], env) ==> errors == Reports(r))
      && (r.Refused? ==> errors >= 1)
  {
    GoodAt(log, env, k);
    DueIsReports(log[..k], env);
  }

  /** How often a failure is to be reported while the stream is open. */
  function Reported(o: Outcome): nat {
    match o
    case Failed(abort, status) => if abort || status != 0 then 0 else 1
    case BadStatus(status, _) => if status == 0 then 2 else 1
  }

  lemma DueIs(log: seq<Act>, env: Env, f: nat)
    requires FailureAt(log) == Some(f) && (log[f].outcome.BadStatus? ==> f + 2 <= |log|)
    ensures Due(log, env) <= Reported(log[f].outcome) && (log[f].outcome.BadStatus? ==> Due(log, env) >= 1)
    ensures !Called(env.close, |log|) ==> Due(log, env) == Reported(log[f].outcome)
  {
    if Called(env.close, f + 1) { CalledStays(env.close, f + 1, |log|); }
    if log[f].outcome.BadStatus? && Called(env.close, f + 2) { CalledStays(env.close, f + 2, |log|); }
  }

  /** Of an answer that made the attempt fail, or did not. */
  lemma DueOfAnswer(log: seq<Act>, r: Response, closed: bool)
    requires Answered(log, r, closed)
    ensures FailureAt(log).Some? ==> Reported(log[FailureAt(log).value].outcome) == Reports(r)
    ensures FailureAt(log).None? ==> !r.Refused? && !r.Rejected? && (!closed ==> Reports(r) == 0)
    ensures r.Refused? ==> FailureAt(log).Some? && log[FailureAt(log).value].outcome.BadStatus?
  {
  }

  lemma DueIsReports(log: seq<Act>, env: Env)
    requires Good(log, env) && Errors(log) == Due(log, env) && AnsweredLast(log, env)
    ensures var r := env.world[Fetches(log) - 1];
      && Errors(log) <= Reports(r)
      && (!IsClosed(log, env) ==> Errors(log) == Reports(r))
      && (r.Refused? ==> Errors(log) >= 1)
  {
    DueOfAnswer(log, env.world[Fetches(log) - 1], IsClosed(log, env));
    if FailureAt(log).Some? {
      if Errors(log) > 0 { ErrorsFollowFailure(log, env); }
      DueIs(log, env, FailureAt(log).value);
    }
  }

  lemma {:induction false} NoDoneDelivered(log: seq<Act>, env: Env)
    requires Good(log, env) && !Completed(log)
    ensures !HasDone(Delivered(log))
    decreases |log|
  {
    if log != [] && !log[|log| - 1].Fetch? {
      var n := |log| - 1;
      assert log == log[..n] + [log[n]];
      Snoc(log[..n], log[n]);
      NoDoneDelivered(log[..n], env);
      if log[n].Emit? { DoneAppend(Delivered(log[..n]), [log[n].event]); }
    }
  }

  lemma {:induction false} DoneStays(evs: seq<Event>)
    ensures HasDone(evs) ==> HasDone(UpToDone(evs))
    decreases |evs|
  {
    if evs != [] {
      if evs[0].data == DONE {
        assert UpToDone(evs)[0].data == DONE;
      } else if HasDone(evs) {
        var k :| 0 <= k < |evs| && evs[k].data == DONE;
        assert evs[1..][k - 1].data == DONE;
        DoneStays(evs[1..]);
        var j :| 0 <= j < |UpToDone(evs[1..])| && UpToDone(evs[1..])[j].data == DONE;
        assert UpToDone(evs)[j + 1].data == DONE;
      }
    }
  }

  /** The events delivered in an attempt are those of the answer. */
  lemma DeliversTheAnswer(log: seq<Act>, env: Env, k: nat)
    requires Good(log, env) && k < |log| && log[k].Over?
    ensures 0 < Fetches(log[..k]) <= |env.world|
    ensures match env.world[Fetches(log[..k]) - 1]
            case Accepted(chunks, _) =>
              && ReadFrom(log[..k], chunks, IsClosed(log[..k], env))
              && (!IsClosed(log[..k], env) ==> Delivered(log[..k]) == EventsOf(Concat(chunks)))
            case _ => Delivered(log[..k]) == []
  {
    GoodAt(log, env, k);
    match env.world[Fetches(log[..k]) - 1]
    case Accepted(chunks, _) =>
      if !IsClosed(log[..k], env) {
        assert chunks[..|chunks|] == chunks;
        NoDoneDelivered(log[..k], env);
        DoneStays(EventsOf(Concat(chunks)));
        if !HasDone(EventsOf(Concat(chunks))) { NoneDone(EventsOf(Concat(chunks))); }
      }
    case _ =>
  }

  /** The waits after failures in a row double from half a second and stay at 15 seconds. */
  lemma BackoffDoubles(n: nat)
    ensures Backoff(n) <= CAP && Backoff(0) == BASE
    ensures Backoff(n + 1) == Min(CAP, 2 * Backoff(n))
  {
    PowerGrows(Min(n, 10));
    if n >= 10 { PowerGrows(10); }
  }

  lemma {:induction false} PowerGrows(n: nat)
    ensures Pow2(n) >= n + 1
    ensures n >= 5 ==> Pow2(n) >= 32
    decreases n
  {
    if n > 0 { PowerGrows(n - 1); }
  }

  // ---- the failing cases -----------------------------------------------------------------------------------------

  lemma Then(log: seq<Act>, env: Env, a: Act) returns (more: seq<Act>)
    requires Good(log, env) && Allowed(log, env, a)
    ensures more == log + [a] && Good(more, env) && Adds(log, a, more)
  {
    more := log + [a];
    Snoc(log, a);
    GoodSnoc(log, a, env);
  }

  function OneAnswer(r: Response): Env { Env([r], n => false, true) }

  lemma {:induction false} NeverCalled(r: Response, n: nat)
    ensures !Called(OneAnswer(r).close, n)
    decreases n
  {
    if n > 0 { NeverCalled(r, n - 1); }
  }

  /** An answer with status 0, as an opaque or error response has, is reported twice. */
  lemma StatusZeroReportsTwice() returns (log: seq<Act>)
    ensures var env := OneAnswer(Refused(0, false));
      Good(log, env) && log != [] && log[|log| - 1].Over? && Errors(log) == 2
  {
    var env := OneAnswer(Refused(0, false));
    var once := ReportedOnce(env);
    log := Then(once, env, OnError);
    NeverCalled(Refused(0, false), 3);
    log := Then(log, env, Over);
  }

  lemma ReportedOnce(env: Env) returns (log: seq<Act>)
    ensures Good(log, env) && !Closed(log) && Within(log) && Errors(log) == 1 && Fetches(log) == 1
    ensures !OpenedIn(log) && Delivered(log) == [] && |log| == 3 && log[1] == Failure(BadStatus(0, false))
    ensures FailureAt(log) == Some(1) && !Completed(log)
  {
    var asked := Then([], env, Fetch(None));
    var failed := Then(asked, env, Failure(BadStatus(0, false)));
    log := Then(failed, env, OnError);
  }

  /** A rejection whose error carries a status is not reported at all. */
  lemma StatusCarriedReportsNever(status: nat) returns (log: seq<Act>)
    requires status != 0
    ensures var env := OneAnswer(Rejected(false, status));
      Good(log, env) && log != [] && log[|log| - 1].Over? && Errors(log) == 0
  {
    var env := OneAnswer(Rejected(false, status));
    var asked := Then([], env, Fetch(None));
    var failed := Then(asked, env, Failure(Failed(false, status)));
    log := Then(failed, env, Over);
  }
}
