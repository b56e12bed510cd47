/** What a request record makes of the frames it takes, whoever sends them, and what the other end of the pipes sees
    of it in every run. */
module FlowReceiver {
  import opened Text
  import opened FlowControl
  import opened FlowProtocol

  // ---- one record, any frames ------------------------------------------------------------------------------------

  /** The record after taking `fs`, and all it writes for them. */
  function Taken(p: Params, s: Stream, fs: seq<Frame>): (Stream, seq<Frame>)
    decreases |fs|
  {
    if fs == [] then (s, [])
    else
      var n := |fs| - 1;
      var (mid, out) := Taken(p, s, fs[..n]);
      (OnFrame(p, mid, fs[n]).0, out + OnFrame(p, mid, fs[n]).1)
  }

  function Payload(fs: seq<Frame>): seq<Byte>
    decreases |fs|
  {
    if fs == [] then []
    else var n := |fs| - 1; Payload(fs[..n]) + if fs[n].Data? then fs[n].bytes else []
  }

  function CreditOf(fs: seq<Frame>): nat
    decreases |fs|
  {
    if fs == [] then 0 else var n := |fs| - 1; CreditOf(fs[..n]) + if fs[n].Credit? then fs[n].n else 0
  }

  function EventsOf(fs: seq<Frame>): nat
    decreases |fs|
  {
    if fs == [] then 0 else var n := |fs| - 1; EventsOf(fs[..n]) + if fs[n].Event? then 1 else 0
  }

  function CancelsOf(fs: seq<Frame>): nat
    decreases |fs|
  {
    if fs == [] then 0 else var n := |fs| - 1; CancelsOf(fs[..n]) + if fs[n].Cancel? then 1 else 0
  }

  predicate HasData(fs: seq<Frame>) { exists k | 0 <= k < |fs| :: fs[k].Data? }

  predicate HasResult(fs: seq<Frame>) { exists k | 0 <= k < |fs| :: fs[k].Res? }

  predicate AtThreshold(limit: Option<nat>, count: nat) { limit.Some? && count >= limit.value }

  /** A threshold is reached: of bytes once a DATA frame was taken, of events once an event was. */
  predicate Reached(s: Stream, hadData: bool) {
    (hadData && AtThreshold(s.cancelAfter, |s.got|)) || (s.events > 0 && AtThreshold(s.cancelAfterEvents, s.events))
  }

  /** One frame: a cancel is written exactly when a threshold is reached for the first time. */
  lemma FrameCancels(p: Params, s: Stream, f: Frame, hadData: bool)
    requires s.cancelSent <==> Reached(s, hadData)
    ensures var (s', out) := OnFrame(p, s, f);
      && (s'.cancelSent <==> Reached(s', hadData || f.Data?)) && (s.cancelSent ==> s'.cancelSent) && |out| <= 1
      && ((out != [] && out[0].Cancel?) <==> (s'.cancelSent && !s.cancelSent))
      && (out != [] ==> Addressed(f) && (out[0] == Cancel(f.id) || out[0].Credit?))
  {
  }

  /** Whatever frames a fresh record takes, for every `grant` and thresholds: its bytes, events, result and credit are
      those of the frames, its window is what was granted and not used, and it has sent one cancel if a threshold was
      reached and none otherwise. */
  lemma {:induction false} TakesAll(p: Params, s: Stream, fs: seq<Frame>)
    requires s == Fresh(p, s.upload, s.grant, s.cancelAfter, s.cancelAfterEvents)
    ensures var (r, out) := Taken(p, s, fs);
      && r.got == Payload(fs) && r.events == EventsOf(fs) && (r.res <==> HasResult(fs))
      && r.sendCredit == p.window + CreditOf(fs) && r.recvWindow == p.window + CreditOf(out) - |Payload(fs)|
      && (r.cancelSent <==> Reached(r, HasData(fs))) && CancelsOf(out) == (if r.cancelSent then 1 else 0)
      && r.cancelAfter == s.cancelAfter && r.cancelAfterEvents == s.cancelAfterEvents
    decreases |fs|
  {
    if fs != [] {
      var n := |fs| - 1;
      var front, f := fs[..n], fs[n];
      TakesAll(p, s, front);
      var (mid, out) := Taken(p, s, front);
      OneMoreTaken(fs, front, f);
      FrameCancels(p, mid, f, HasData(front));
      FrameTaken(p, mid, f);
      WindowTaken(p, mid, f);
      var more := OnFrame(p, mid, f).1;
      CreditSnoc(out, more);
    }
  }

  lemma OneMoreTaken(fs: seq<Frame>, front: seq<Frame>, f: Frame)
    requires fs != [] && front == fs[..|fs| - 1] && f == fs[|fs| - 1]
    ensures HasData(fs) <==> HasData(front) || f.Data?
    ensures HasResult(fs) <==> HasResult(front) || f.Res?
  {
    assert fs[|fs| - 1] == f && forall k | 0 <= k < |front| :: front[k] == fs[k];
  }

  lemma CreditSnoc(out: seq<Frame>, more: seq<Frame>)
    requires |more| <= 1
    ensures CreditOf(out + more) == CreditOf(out) + CreditIn(more)
    ensures CancelsOf(out + more) == CancelsOf(out) + (if more != [] && more[0].Cancel? then 1 else 0)
  {
    if more == [] { assert out + more == out; } else { assert (out + more)[..|out + more| - 1] == out; }
  }

  lemma FrameTaken(p: Params, s: Stream, f: Frame)
    ensures var s' := OnFrame(p, s, f).0;
      && s'.got == s.got + (if f.Data? then f.bytes else []) && s'.events == s.events + (if f.Event? then 1 else 0)
      && s'.res == (s.res || f.Res?) && s'.sendCredit == s.sendCredit + (if f.Credit? then f.n else 0)
      && s'.cancelAfter == s.cancelAfter && s'.cancelAfterEvents == s.cancelAfterEvents
  {
    if f.Data? { assert s.got + f.bytes == Accounted(s, f.bytes).got; } else { assert s.got + [] == s.got; }
  }

  lemma WindowTaken(p: Params, s: Stream, f: Frame)
    ensures var (s', out) := OnFrame(p, s, f);
      s'.recvWindow + (if f.Data? then |f.bytes| else 0) == s.recvWindow + CreditIn(out)
  {
    if f.Data? {
      var taken := Accounted(s, f.bytes);
      assert taken.recvWindow == s.recvWindow - |f.bytes|;
    }
  }

  /** Credit is written in batches of at least a quarter of the window, and only by a record that grants. */
  lemma {:induction false} CreditsAreBatches(p: Params, s: Stream, fs: seq<Frame>)
    ensures Taken(p, s, fs).0.grant == s.grant
    ensures forall f | f in Taken(p, s, fs).1 && f.Credit? :: s.grant && 4 * f.n > p.window - 4
    decreases |fs|
  {
    if fs != [] {
      var n := |fs| - 1;
      CreditsAreBatches(p, s, fs[..n]);
      BatchGranted(p, Taken(p, s, fs[..n]).0, fs[n]);
    }
  }

  lemma BatchGranted(p: Params, s: Stream, f: Frame)
    ensures OnFrame(p, s, f).0.grant == s.grant
    ensures forall g | g in OnFrame(p, s, f).1 && g.Credit? :: s.grant && 4 * g.n > p.window - 4
  {
  }

  /** The first `k + 1` frames hold more bytes than the window and the credit written for the first `k`. */
  predicate Exceeds(p: Params, s: Stream, fs: seq<Frame>, k: nat)
    requires k < |fs|
  {
    fs[k].Data? && |Payload(fs[..k + 1])| > p.window + CreditOf(Taken(p, s, fs[..k]).1)
  }

  predicate AnyExceeds(p: Params, s: Stream, fs: seq<Frame>) { exists k | 0 <= k < |fs| :: Exceeds(p, s, fs, k) }

  lemma OneMoreExceeds(p: Params, s: Stream, fs: seq<Frame>)
    requires fs != []
    ensures var n := |fs| - 1; AnyExceeds(p, s, fs) <==> AnyExceeds(p, s, fs[..n]) || Exceeds(p, s, fs, n)
  {
    var n := |fs| - 1;
    var front := fs[..n];
    forall k | 0 <= k < n ensures Exceeds(p, s, fs, k) == Exceeds(p, s, front, k) {
      assert front[..k + 1] == fs[..k + 1] && front[..k] == fs[..k] && front[k] == fs[k];
    }
    if AnyExceeds(p, s, front) {
      var k :| 0 <= k < n && Exceeds(p, s, front, k);
      assert Exceeds(p, s, fs, k);
    }
  }

  lemma LastExceeds(p: Params, s: Stream, fs: seq<Frame>)
    requires fs != [] && s == Fresh(p, s.upload, s.grant, s.cancelAfter, s.cancelAfterEvents)
    ensures var n := |fs| - 1; var mid := Taken(p, s, fs[..n]).0;
      Exceeds(p, s, fs, n) <==> fs[n].Data? && |fs[n].bytes| > mid.recvWindow
  {
    var n := |fs| - 1;
    TakesAll(p, s, fs[..n]);
    assert fs[..n + 1] == fs;
  }

  /** The record says that there was a violation exactly if some DATA frame was larger than what was left. */
  lemma {:induction false} ViolationIsSeen(p: Params, s: Stream, fs: seq<Frame>)
    requires s == Fresh(p, s.upload, s.grant, s.cancelAfter, s.cancelAfterEvents)
    ensures Taken(p, s, fs).0.violation <==> AnyExceeds(p, s, fs)
    decreases |fs|
  {
    if fs != [] {
      var n := |fs| - 1;
      ViolationIsSeen(p, s, fs[..n]);
      OneMoreExceeds(p, s, fs);
      LastExceeds(p, s, fs);
      FrameViolates(p, Taken(p, s, fs[..n]).0, fs[n]);
    }
  }

  lemma FrameViolates(p: Params, s: Stream, f: Frame)
    ensures OnFrame(p, s, f).0.violation == (s.violation || (f.Data? && |f.bytes| > s.recvWindow))
  {
  }

  // ---- every run -------------------------------------------------------------------------------------------------

  /** Cancels of the request in a pipe. */
  function Cancels(log: seq<Frame>, id: int): nat
    decreases |log|
  {
    if log == [] then 0 else Cancels(log[..|log| - 1], id) + if log[|log| - 1] == Cancel(id) then 1 else 0
  }

  /** DATA frames have data. */
  predicate Solid(log: seq<Frame>) { forall f | f in log && f.Data? :: f.bytes != [] }

  /** What `peer` has been sent is what the record of `me` says. */
  predicate Told(me: Endpoint, peer: Endpoint, id: int) {
    if id in me.reqs then
      && (me.reqs[id].cancelSent <==> Reached(me.reqs[id], me.reqs[id].got != []))
      && Cancels(peer.Log(), id) == if me.reqs[id].cancelSent then 1 else 0
    else Cancels(peer.Log(), id) == 0
  }

  lemma CancelsSnoc(log: seq<Frame>, f: Frame, id: int)
    ensures Cancels(log + [f], id) == Cancels(log, id) + if f == Cancel(id) then 1 else 0
  {
    assert (log + [f])[..|log + [f]| - 1] == log;
  }

  /** The pipe to `peer` with at most one more frame. */
  lemma CancelsAppended(peer: Endpoint, out: seq<Frame>, id: int)
    requires |out| <= 1
    ensures Cancels(Append(peer, out).Log(), id) ==
            Cancels(peer.Log(), id) + if out != [] && out[0] == Cancel(id) then 1 else 0
  {
    if out == [] {
      assert Append(peer, out) == peer;
    } else {
      assert Append(peer, out).Log() == peer.Log() + [out[0]];
      CancelsSnoc(peer.Log(), out[0], id);
    }
  }

  /** The invariant of both pipes. */
  ghost predicate AllTold(a: Endpoint, b: Endpoint) {
    Solid(a.Log()) && Solid(b.Log()) && forall id :: Told(a, b, id) && Told(b, a, id)
  }

  lemma TakeKeepsLog(e: Endpoint)
    requires e.inbox != []
    ensures Take(e).Log() == e.Log()
  {
  }

  lemma SolidAppended(e: Endpoint, out: seq<Frame>)
    requires Solid(e.Log()) && forall f | f in out && f.Data? :: f.bytes != []
    ensures Solid(Append(e, out).Log())
  {
  }

  /** A move that takes no frame sends no cancel, and only what has data as DATA. */
  lemma SendTells(p: Params, me: Endpoint, peer: Endpoint, m: Move, id: int)
    requires p.Ok() && MoveEnabled(me, m) && !m.Receive? && Solid(peer.Log())
    requires Told(me, peer, id) && Told(peer, me, id)
    ensures var (me', peer') := Moved(p, me, peer, m);
      Told(me', peer', id) && Told(peer', me', id) && Solid(peer'.Log()) && me'.Log() == me.Log()
  {
    match m
    case SendChunk(i) =>
      var f := Chunk(p, i, me.reqs[i]).1;
      CancelsAppended(peer, [f], id);
      SolidAppended(peer, [f]);
    case SendEnd(i) =>
      CancelsAppended(peer, [End(i)], id);
      SolidAppended(peer, [End(i)]);
    case Say(f) =>
      CancelsAppended(peer, [f], id);
      SolidAppended(peer, [f]);
  }

  lemma AnswerIsSolid(p: Params, s: Stream, f: Frame)
    ensures forall g | g in OnFrame(p, s, f).1 :: !g.Data?
  {
  }

  lemma GotGrows(p: Params, s: Stream, f: Frame)
    requires f.Data? ==> f.bytes != []
    ensures OnFrame(p, s, f).0.got != [] <==> s.got != [] || f.Data?
  {
  }

  /** A frame handed to its request: it answers with a cancel exactly when it has to. */
  lemma HandedTells(p: Params, me: Endpoint, peer: Endpoint, id: int)
    requires p.Ok() && me.inbox != [] && Addressed(me.inbox[0]) && me.inbox[0].id in me.reqs
    requires Solid(me.Log()) && Solid(peer.Log()) && Told(me, peer, me.inbox[0].id)
    requires Told(me, peer, id) && Told(peer, me, id)
    ensures var (me', peer') := Moved(p, me, peer, Receive);
      Told(me', peer', id) && Told(peer', me', id) && Solid(peer'.Log()) && me'.Log() == me.Log()
  {
    var f := me.inbox[0];
    var R := me.reqs[f.id];
    var (s, out) := OnFrame(p, R, f);
    assert f in me.Log();
    FrameCancels(p, R, f, R.got != []);
    GotGrows(p, R, f);
    TakeKeepsLog(me);
    CancelsAppended(peer, out, id);
    AnswerIsSolid(p, R, f);
    SolidAppended(peer, out);
  }

  lemma MoveTells(p: Params, me: Endpoint, peer: Endpoint, m: Move)
    requires p.Ok() && MoveEnabled(me, m) && AllTold(me, peer)
    ensures var (me', peer') := Moved(p, me, peer, m); AllTold(me', peer')
  {
    var (me', peer') := Moved(p, me, peer, m);
    forall id ensures Told(me', peer', id) && Told(peer', me', id) && Solid(peer'.Log()) && me'.Log() == me.Log() {
      assert Told(me, peer, id) && Told(peer, me, id);
      if !m.Receive? {
        SendTells(p, me, peer, m, id);
      } else if Addressed(me.inbox[0]) && me.inbox[0].id in me.reqs {
        assert Told(me, peer, me.inbox[0].id);
        HandedTells(p, me, peer, id);
      } else {
        TakeKeepsLog(me);
      }
    }
    assert Told(me', peer', 0);
  }

  lemma OpenTells(p: Params, sys: System, st: Step)
    requires p.Ok() && Enabled(sys, st) && st.Open? && AllTold(sys.a, sys.b)
    requires st.id !in sys.a.reqs && st.id !in sys.b.reqs
    ensures AllTold(Next(p, sys, st).a, Next(p, sys, st).b)
  {
    var v := Next(p, sys, st);
    forall id ensures Told(v.a, v.b, id) && Told(v.b, v.a, id) {
      assert Told(sys.a, sys.b, id) && Told(sys.b, sys.a, id);
    }
  }

  lemma {:induction false} RunTells(p: Params, sys: System, steps: seq<Step>)
    requires p.Ok() && CanRun(p, sys, steps) && Inv(p, sys) && AllTold(sys.a, sys.b)
    ensures AllTold(Run(p, sys, steps).a, Run(p, sys, steps).b)
    decreases |steps|
  {
    if steps != [] {
      StepTells(p, sys, steps[0]);
      StepKeepsInv(p, sys, steps[0]);
      RunTells(p, Next(p, sys, steps[0]), steps[1..]);
    }
  }

  lemma StepTells(p: Params, sys: System, st: Step)
    requires p.Ok() && Enabled(sys, st) && Inv(p, sys) && AllTold(sys.a, sys.b)
    ensures AllTold(Next(p, sys, st).a, Next(p, sys, st).b)
  {
    match st
    case ByA(m) => MoveTells(p, sys.a, sys.b, m);
    case ByB(m) =>
      assert AllTold(sys.b, sys.a);
      MoveTells(p, sys.b, sys.a, m);
    case Open(id, _, _, _, _, _, _, _, _) =>
      assert id !in sys.ids;
      OpenTells(p, sys, st);
  }

  /** In every run, for every request and both ends: a cancel is on its way to the other end, or has arrived, exactly
      once if a threshold was reached, and never otherwise. */
  lemma CancelsAreSent(p: Params, steps: seq<Step>, id: int)
    requires p.Ok() && CanRun(p, START, steps)
    ensures var sys := Run(p, START, steps);
      id in sys.ids ==>
        id in sys.a.reqs && id in sys.b.reqs && CancelSent(sys.a, sys.b, id) && CancelSent(sys.b, sys.a, id)
  {
    forall i ensures Flow(p, START.a, START.b, i) && Flow(p, START.b, START.a, i) {}
    forall i ensures Told(START.a, START.b, i) && Told(START.b, START.a, i) {}
    RunTells(p, START, steps);
    RunKeepsInv(p, START, steps);
    var sys := Run(p, START, steps);
    assert Told(sys.a, sys.b, id) && Told(sys.b, sys.a, id);
  }

  predicate CancelSent(me: Endpoint, peer: Endpoint, id: int)
    requires id in me.reqs
  {
    var R := me.reqs[id];
    && (R.cancelSent <==> Reached(R, R.got != []))
    && Cancels(peer.Log(), id) == if R.cancelSent then 1 else 0
  }

  // ---- after a result --------------------------------------------------------------------------------------------

  /** The result of the request is in, and as much of its upload was sent as in `was`. */
  predicate Settled(e: Endpoint, id: int, was: Stream) {
    id in e.reqs && var s := e.reqs[id];
    s.res && s.upload == was.upload && s.sent == was.sent && s.ended == was.ended
  }

  lemma MoveKeepsSettled(p: Params, me: Endpoint, peer: Endpoint, m: Move, id: int, was: Stream)
    requires p.Ok() && MoveEnabled(me, m)
    ensures var (me', peer') := Moved(p, me, peer, m);
      (Settled(me, id, was) ==> Settled(me', id, was)) && peer'.reqs == peer.reqs
  {
    if m.Receive? && Addressed(me.inbox[0]) && me.inbox[0].id in me.reqs {
      FrameLeavesUpload(p, me.reqs[me.inbox[0].id], me.inbox[0]);
    }
  }

  lemma FrameLeavesUpload(p: Params, s: Stream, f: Frame)
    ensures var s' := OnFrame(p, s, f).0;
      s'.upload == s.upload && s'.sent == s.sent && s'.ended == s.ended && (s.res ==> s'.res)
  {
  }

  lemma StepKeepsSettled(p: Params, sys: System, st: Step, id: int, was: Stream)
    requires p.Ok() && Enabled(sys, st) && id in sys.ids
    ensures id in Next(p, sys, st).ids
    ensures Settled(sys.a, id, was) ==> Settled(Next(p, sys, st).a, id, was)
    ensures Settled(sys.b, id, was) ==> Settled(Next(p, sys, st).b, id, was)
  {
    match st
    case ByA(m) => MoveKeepsSettled(p, sys.a, sys.b, m, id, was);
    case ByB(m) => MoveKeepsSettled(p, sys.b, sys.a, m, id, was);
    case Open(_, _, _, _, _, _, _, _, _) =>
  }

  lemma {:induction false} RunKeepsSettled(p: Params, sys: System, steps: seq<Step>, id: int, was: Stream)
    requires p.Ok() && CanRun(p, sys, steps) && id in sys.ids
    ensures Settled(sys.a, id, was) ==> Settled(Run(p, sys, steps).a, id, was)
    ensures Settled(sys.b, id, was) ==> Settled(Run(p, sys, steps).b, id, was)
    decreases |steps|
  {
    if steps != [] {
      StepKeepsSettled(p, sys, steps[0], id, was);
      RunKeepsSettled(p, Next(p, sys, steps[0]), steps[1..], id, was);
    }
  }

  /** What `peer` has been sent of the request says how much of its upload went out. */
  lemma SentIs(p: Params, me: Endpoint, peer: Endpoint, id: int)
    requires id in me.reqs && id in peer.reqs && Flow(p, me, peer, id)
    ensures var s := me.reqs[id];
      && s.sent <= |Upload(s)| && Bytes(peer.Log(), id) == Upload(s)[..s.sent]
      && Ends(peer.Log(), id) == if s.ended && s.upload.Some? then 1 else 0
  {
  }

  /** Once the result of a request is in, no more of its upload is sent to `peer`, nor its end. */
  predicate Unsent(was: Endpoint, peer: Endpoint, peer': Endpoint, id: int)
    requires id in was.reqs
  {
    was.reqs[id].res ==>
      Bytes(peer'.Log(), id) == Bytes(peer.Log(), id) && Ends(peer'.Log(), id) == Ends(peer.Log(), id)
  }

  /** In every run, from the moment the result of a request is in. */
  lemma ResultEndsUpload(p: Params, before: seq<Step>, after: seq<Step>, id: int)
    requires p.Ok() && CanRun(p, START, before) && CanRun(p, Run(p, START, before), after)
    requires id in Run(p, START, before).ids
    ensures var sys := Run(p, START, before); var sys' := Run(p, sys, after);
      id in sys.a.reqs && id in sys.b.reqs && Unsent(sys.a, sys.b, sys'.b, id) && Unsent(sys.b, sys.a, sys'.a, id)
  {
    forall i ensures Flow(p, START.a, START.b, i) && Flow(p, START.b, START.a, i) {}
    RunKeepsInv(p, START, before);
    var sys := Run(p, START, before);
    RunKeepsInv(p, sys, after);
    RunKeepsIds(p, sys, after, id);
    var sys' := Run(p, sys, after);
    RunKeepsSettled(p, sys, after, id, sys.a.reqs[id]);
    RunKeepsSettled(p, sys, after, id, sys.b.reqs[id]);
    BothSent(p, sys, id);
    BothSent(p, sys', id);
  }

  lemma BothSent(p: Params, sys: System, id: int)
    requires Inv(p, sys) && id in sys.ids
    ensures id in sys.a.reqs && id in sys.b.reqs
    ensures var s := sys.a.reqs[id];
      && s.sent <= |Upload(s)| && Bytes(sys.b.Log(), id) == Upload(s)[..s.sent]
      && Ends(sys.b.Log(), id) == if s.ended && s.upload.Some? then 1 else 0
    ensures var s := sys.b.reqs[id];
      && s.sent <= |Upload(s)| && Bytes(sys.a.Log(), id) == Upload(s)[..s.sent]
      && Ends(sys.a.Log(), id) == if s.ended && s.upload.Some? then 1 else 0
  {
    assert Flow(p, sys.a, sys.b, id) && Flow(p, sys.b, sys.a, id);
    SentIs(p, sys.a, sys.b, id);
    SentIs(p, sys.b, sys.a, id);
  }

  // ---- what a record counts --------------------------------------------------------------------------------------

  function EventsIn(log: seq<Frame>, id: int): nat
    decreases |log|
  {
    if log == [] then 0 else EventsIn(log[..|log| - 1], id) + if log[|log| - 1] == Event(id) then 1 else 0
  }

  /** Events taken and not counted: those that came before the request was there. */
  function Uncounted(e: Endpoint, id: int): int
    requires id in e.reqs
  {
    EventsIn(e.seen, id) - e.reqs[id].events
  }

  lemma TakeCounts(e: Endpoint, id: int)
    requires e.inbox != []
    ensures EventsIn(Take(e).seen, id) == EventsIn(e.seen, id) + if e.inbox[0] == Event(id) then 1 else 0
  {
    assert Take(e).seen[..|Take(e).seen| - 1] == e.seen;
  }

  lemma MoveCounts(p: Params, me: Endpoint, peer: Endpoint, m: Move, id: int)
    requires p.Ok() && MoveEnabled(me, m) && id in me.reqs && id in peer.reqs
    ensures var (me', peer') := Moved(p, me, peer, m);
      && id in me'.reqs && id in peer'.reqs
      && Uncounted(me', id) == Uncounted(me, id) && Uncounted(peer', id) == Uncounted(peer, id)
  {
    if m.Receive? {
      TakeCounts(me, id);
      if Addressed(me.inbox[0]) && me.inbox[0].id in me.reqs { FrameTaken(p, me.reqs[me.inbox[0].id], me.inbox[0]); }
    }
  }

  /** From the moment a request is there, it counts every event that its end takes. */
  lemma {:induction false} RunCounts(p: Params, sys: System, steps: seq<Step>, id: int)
    requires p.Ok() && CanRun(p, sys, steps) && id in sys.ids && id in sys.a.reqs && id in sys.b.reqs
    ensures var v := Run(p, sys, steps);
      && id in v.a.reqs && id in v.b.reqs
      && Uncounted(v.a, id) == Uncounted(sys.a, id) && Uncounted(v.b, id) == Uncounted(sys.b, id)
    decreases |steps|
  {
    if steps != [] {
      var st := steps[0];
      match st {
        case ByA(m) => MoveCounts(p, sys.a, sys.b, m, id);
        case ByB(m) => MoveCounts(p, sys.b, sys.a, m, id);
        case Open(_, _, _, _, _, _, _, _, _) =>
      }
      RunCounts(p, Next(p, sys, st), steps[1..], id);
    }
  }
}
