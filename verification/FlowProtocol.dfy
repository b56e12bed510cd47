/** Two drivers joined by two ordered pipes, any number of requests multiplexed on them, every interleaving. */
module FlowProtocol {
  import opened Text
  import opened FlowControl

  /** One driver: its requests, the frames on their way to it, and the frames it has already taken. */
  datatype Endpoint = Endpoint(reqs: map<int, Stream>, inbox: seq<Frame>, seen: seq<Frame>) {
    function Log(): seq<Frame> { seen + inbox }
  }

  datatype System = System(ids: seq<int>, a: Endpoint, b: Endpoint)

  /** What one endpoint does atomically: one turn of the upload loop, its `end`, taking one frame, or saying
      something outside the credit scheme (a result, an event, a push). */
  datatype Move = SendChunk(id: int) | SendEnd(id: int) | Receive | Say(f: Frame)

  datatype Step =
    | ByA(m: Move)
    | ByB(m: Move)
    | Open(id: int, upA: Option<seq<Byte>>, upB: Option<seq<Byte>>, grantA: bool, grantB: bool,
           caA: Option<nat>, caB: Option<nat>, caeA: Option<nat>, caeB: Option<nat>)

  predicate MoveEnabled(me: Endpoint, m: Move) {
    match m
    case SendChunk(id) => id in me.reqs && CanChunk(me.reqs[id])
    case SendEnd(id) => id in me.reqs && CanEnd(me.reqs[id])
    case Receive => me.inbox != []
    case Say(f) => f.Res? || f.Event? || f.Other?
  }

  function Append(e: Endpoint, fs: seq<Frame>): Endpoint { e.(inbox := e.inbox + fs) }

  function Take(e: Endpoint): Endpoint
    requires e.inbox != []
  {
    e.(inbox := e.inbox[1..], seen := e.seen + [e.inbox[0]])
  }

  function Put(e: Endpoint, id: int, s: Stream): Endpoint { e.(reqs := e.reqs[id := s]) }

  function Moved(p: Params, me: Endpoint, peer: Endpoint, m: Move): (Endpoint, Endpoint)
    requires p.Ok() && MoveEnabled(me, m)
  {
    match m
    case SendChunk(id) =>
      var (s, f) := Chunk(p, id, me.reqs[id]);
      (Put(me, id, s), Append(peer, [f]))
    case SendEnd(id) => (Put(me, id, me.reqs[id].(ended := true)), Append(peer, [End(id)]))
    case Receive =>
      var f := me.inbox[0];
      if Addressed(f) && f.id in me.reqs then
        var (s, out) := OnFrame(p, me.reqs[f.id], f);
        (Put(Take(me), f.id, s), Append(peer, out))
      else (Take(me), peer)
    case Say(f) => (me, Append(peer, [f]))
  }

  predicate Enabled(sys: System, st: Step) {
    match st
    case ByA(m) => MoveEnabled(sys.a, m)
    case ByB(m) => MoveEnabled(sys.b, m)
    case Open(id, _, _, _, _, _, _, _, _) => id !in sys.ids
  }

  function Next(p: Params, sys: System, st: Step): System
    requires p.Ok() && Enabled(sys, st)
  {
    match st
    case ByA(m) => var (a, b) := Moved(p, sys.a, sys.b, m); sys.(a := a, b := b)
    case ByB(m) => var (b, a) := Moved(p, sys.b, sys.a, m); sys.(a := a, b := b)
    case Open(id, upA, upB, gA, gB, cA, cB, eA, eB) =>
      System(sys.ids + [id],
             sys.a.(reqs := sys.a.reqs[id := Fresh(p, upA, gA, cA, eA)]),
             sys.b.(reqs := sys.b.reqs[id := Fresh(p, upB, gB, cB, eB)]))
  }

  const START := System([], Endpoint(map[], [], []), Endpoint(map[], [], []))

  /** `steps` can be taken one after the other from `sys`. */
  predicate CanRun(p: Params, sys: System, steps: seq<Step>)
    requires p.Ok()
    decreases |steps|
  {
    steps == [] || (Enabled(sys, steps[0]) && CanRun(p, Next(p, sys, steps[0]), steps[1..]))
  }

  function Run(p: Params, sys: System, steps: seq<Step>): System
    requires p.Ok() && CanRun(p, sys, steps)
    decreases |steps|
  {
    if steps == [] then sys else Run(p, Next(p, sys, steps[0]), steps[1..])
  }

  // ---- what a log of frames holds for one request ------------------------------------------------------------

  function Bytes(log: seq<Frame>, id: int): seq<Byte> {
    if log == [] then []
    else
      var f := log[|log| - 1];
      Bytes(log[..|log| - 1], id) + if f.Data? && f.id == id then f.bytes else []
  }

  function Credits(log: seq<Frame>, id: int): nat {
    if log == [] then 0
    else
      var f := log[|log| - 1];
      Credits(log[..|log| - 1], id) + if f.Credit? && f.id == id then f.n else 0
  }

  function Ends(log: seq<Frame>, id: int): nat {
    if log == [] then 0
    else Ends(log[..|log| - 1], id) + if log[|log| - 1] == End(id) then 1 else 0
  }

  /** No DATA of the request follows its `end`. */
  predicate Tidy(log: seq<Frame>, id: int) {
    log == [] ||
    (var f := log[|log| - 1];
     Tidy(log[..|log| - 1], id) && (f.Data? && f.id == id ==> Ends(log[..|log| - 1], id) == 0))
  }

  lemma Snoc(log: seq<Frame>, f: Frame, id: int)
    ensures Bytes(log + [f], id) == Bytes(log, id) + if f.Data? && f.id == id then f.bytes else []
    ensures Credits(log + [f], id) == Credits(log, id) + if f.Credit? && f.id == id then f.n else 0
    ensures Ends(log + [f], id) == Ends(log, id) + if f == End(id) then 1 else 0
    ensures Tidy(log + [f], id) <==> Tidy(log, id) && (f.Data? && f.id == id ==> Ends(log, id) == 0)
  {
    assert (log + [f])[..|log + [f]| - 1] == log;
  }

  lemma {:induction false} PrefixLog(log: seq<Frame>, more: seq<Frame>, id: int)
    ensures Bytes(log, id) <= Bytes(log + more, id) && Credits(log, id) <= Credits(log + more, id)
  {
    if more == [] {
      assert log + more == log;
    } else {
      var n := |more| - 1;
      PrefixLog(log, more[..n], id);
      assert log + more == (log + more[..n]) + [more[n]];
      Snoc(log + more[..n], more[n], id);
    }
  }

  // ---- one request, one direction ----------------------------------------------------------------------------

  /** What the two pipes hold for one direction of a request: bytes sent and received, credit granted and not yet
      taken by the sender, `end`s sent, and whether DATA stops at the `end`. */
  datatype Obs = Obs(sent: seq<Byte>, got: seq<Byte>, due: int, ends: nat, tidy: bool)

  function Observe(s: Endpoint, r: Endpoint, id: int): Obs {
    Obs(Bytes(r.Log(), id), Bytes(r.seen, id), Credits(s.Log(), id) - Credits(s.seen, id),
        Ends(r.Log(), id), Tidy(r.Log(), id))
  }

  function Upload(s: Stream): seq<Byte> { if s.upload.Some? then s.upload.value else [] }

  predicate Granting(r: Stream) { r.grant && !r.cancelSent && !r.res }

  /** Conservation of bytes and of credit between the sender's record and the receiver's. */
  predicate Conserved(p: Params, S: Stream, R: Stream, o: Obs) {
    && S.sent <= |Upload(S)| && S.sendCredit >= 0 && (S.upload.None? ==> S.ended)
    && o.sent == Upload(S)[..S.sent]
    && R.got == o.got && o.got <= o.sent && o.due >= 0
    && S.sendCredit + (|o.sent| - |o.got|) + R.unacked + o.due == p.window
    && R.recvWindow + R.unacked == p.window
    && !R.violation
    && (!R.grant ==> R.unacked == |R.got|)
    && (Granting(R) ==> R.unacked < p.Batch() || R.unacked == 0)
    && o.ends == (if S.ended && S.upload.Some? then 1 else 0)
    && (S.ended ==> S.sent == |Upload(S)|)
    && o.tidy
  }

  function CreditIn(fs: seq<Frame>): nat { if fs != [] && fs[0].Credit? then fs[0].n else 0 }

  lemma ChunkConserves(p: Params, id: int, S: Stream, R: Stream, o: Obs)
    requires p.Ok() && CanChunk(S) && Conserved(p, S, R, o)
    ensures o.ends == 0
    ensures var (S', f) := Chunk(p, id, S); f.Data? && f.id == id && Conserved(p, S', R, o.(sent := o.sent + f.bytes))
  {
    var (S', f) := Chunk(p, id, S);
    assert Upload(S)[..S.sent] + f.bytes == Upload(S)[..S'.sent];
  }

  lemma DataConserves(p: Params, id: int, S: Stream, R: Stream, o: Obs, data: seq<Byte>)
    requires Conserved(p, S, R, o) && o.got + data <= o.sent
    ensures var (R', out) := OnData(p, id, R, data);
      Conserved(p, S, R', o.(got := o.got + data, due := o.due + CreditIn(out)))
  {
  }

  /** The receiver's half is not touched by what its own upload does, and a taken frame that is not DATA or credit
      changes at most its flags. */
  lemma OtherConserves(p: Params, S: Stream, R: Stream, o: Obs, f: Frame)
    requires Conserved(p, S, R, o) && !f.Data?
    ensures var (R', out) := OnFrame(p, R, f); Conserved(p, S, R', o) && CreditIn(out) == 0
    ensures f.Credit? ==> (o.due >= f.n ==> Conserved(p, OnFrame(p, S, f).0, R, o.(due := o.due - f.n)))
    ensures !f.Credit? ==> Conserved(p, OnFrame(p, S, f).0, R, o)
  {
  }

  lemma DataKeepsSenderHalf(p: Params, S: Stream, R: Stream, o: Obs, id: int, data: seq<Byte>)
    requires Conserved(p, S, R, o)
    ensures Conserved(p, OnData(p, id, S, data).0, R, o)
  {
  }

  // ---- the invariant of the system ---------------------------------------------------------------------------

  predicate Flow(p: Params, s: Endpoint, r: Endpoint, id: int) {
    if id in s.reqs && id in r.reqs then Conserved(p, s.reqs[id], r.reqs[id], Observe(s, r, id))
    else Observe(s, r, id) == Obs([], [], 0, 0, true)
  }

  predicate Distinct(ids: seq<int>) { forall i, j | 0 <= i < j < |ids| :: ids[i] != ids[j] }

  /** Both ends have the requests that were opened. */
  ghost predicate Known(sys: System) {
    Distinct(sys.ids) && (forall id :: id in sys.ids <==> id in sys.a.reqs) && sys.a.reqs.Keys == sys.b.reqs.Keys
  }

  ghost predicate Inv(p: Params, sys: System) {
    && Known(sys)
    && (forall id :: Flow(p, sys.a, sys.b, id) && Flow(p, sys.b, sys.a, id))
  }

  lemma ObserveAppend(s: Endpoint, r: Endpoint, f: Frame, id: int)
    ensures var o, bytes := Observe(s, r, id), if f.Data? && f.id == id then f.bytes else [];
      && Observe(s, Append(r, [f]), id) ==
           o.(sent := o.sent + bytes, ends := o.ends + (if f == End(id) then 1 else 0),
              tidy := o.tidy && (f.Data? && f.id == id ==> o.ends == 0))
      && Observe(Append(s, [f]), r, id) == o.(due := o.due + (if f.Credit? && f.id == id then f.n else 0))
  {
    assert Append(r, [f]).Log() == r.Log() + [f] && Append(s, [f]).Log() == s.Log() + [f];
    Snoc(r.Log(), f, id);
    Snoc(s.Log(), f, id);
  }

  lemma ObserveTakeByReceiver(s: Endpoint, r: Endpoint, id: int)
    requires r.inbox != []
    ensures var o, f := Observe(s, r, id), r.inbox[0];
      var bytes := if f.Data? && f.id == id then f.bytes else [];
      Observe(s, Take(r), id) == o.(got := o.got + bytes) && o.got + bytes <= o.sent
  {
    assert Take(r).Log() == r.Log();
    Snoc(r.seen, r.inbox[0], id);
    PrefixLog(Take(r).seen, Take(r).inbox, id);
  }

  lemma ObserveTakeBySender(s: Endpoint, r: Endpoint, id: int)
    requires s.inbox != []
    ensures var o, f := Observe(s, r, id), s.inbox[0];
      var n := if f.Credit? && f.id == id then f.n else 0;
      Observe(Take(s), r, id) == o.(due := o.due - n) && o.due >= n
  {
    assert Take(s).Log() == s.Log();
    Snoc(s.seen, s.inbox[0], id);
    PrefixLog(Take(s).seen, Take(s).inbox, id);
  }

  /** At most one frame answers a frame; appending an answer that is not DATA or `end` moves only credit. */
  lemma ObserveAnswer(p: Params, s: Endpoint, r: Endpoint, S: Stream, f: Frame, id: int)
    requires Addressed(f)
    ensures var out := OnFrame(p, S, f).1;
      && Observe(s, Append(r, out), id) == Observe(s, r, id)
      && Observe(Append(s, out), r, id) ==
           Observe(s, r, id).(due := Observe(s, r, id).due + if f.id == id then CreditIn(out) else 0)
  {
    AnswersOnce(p, S, f);
    ObserveFew(s, r, f, OnFrame(p, S, f).1, id);
  }

  /** At most one frame is answered, a credit or a cancel of the same request. */
  lemma AnswersOnce(p: Params, S: Stream, f: Frame)
    requires Addressed(f)
    ensures var out := OnFrame(p, S, f).1; |out| <= 1 && forall g | g in out :: (g.Credit? || g.Cancel?) && g.id == f.id
  {
  }

  lemma ObserveFew(s: Endpoint, r: Endpoint, f: Frame, out: seq<Frame>, id: int)
    requires Addressed(f) && |out| <= 1 && forall g | g in out :: (g.Credit? || g.Cancel?) && g.id == f.id
    ensures Observe(s, Append(r, out), id) == Observe(s, r, id)
    ensures Observe(Append(s, out), r, id) ==
            Observe(s, r, id).(due := Observe(s, r, id).due + if f.id == id then CreditIn(out) else 0)
  {
    if out == [] {
      assert Append(r, out) == r && Append(s, out) == s;
    } else {
      assert out == [out[0]];
      ObserveAppend(s, r, out[0], id);
    }
  }

  /** The records of the endpoints play no part in what the pipes hold. */
  lemma ObservePut(s: Endpoint, r: Endpoint, id: int, i: int, S: Stream)
    ensures Observe(Put(s, i, S), r, id) == Observe(s, r, id) == Observe(s, Put(r, i, S), id)
  {
  }

  /** The flow is as the records and the pipes say. */
  lemma FlowIs(p: Params, s: Endpoint, r: Endpoint, id: int, S: Stream, R: Stream, o: Obs)
    requires id in s.reqs && id in r.reqs && s.reqs[id] == S && r.reqs[id] == R
    requires Observe(s, r, id) == o && Conserved(p, S, R, o)
    ensures Flow(p, s, r, id)
  {
  }

  predicate SameRecord(x: Endpoint, y: Endpoint, id: int) {
    (id in x.reqs <==> id in y.reqs) && (id in x.reqs ==> x.reqs[id] == y.reqs[id])
  }

  lemma FlowStays(p: Params, s: Endpoint, r: Endpoint, s': Endpoint, r': Endpoint, id: int)
    requires Flow(p, s, r, id) && Observe(s', r', id) == Observe(s, r, id)
    requires SameRecord(s, s', id) && SameRecord(r, r', id)
    ensures Flow(p, s', r', id)
  {
  }

  lemma ChunkKeepsOutflow(p: Params, me: Endpoint, peer: Endpoint, i: int, id: int)
    requires p.Ok() && MoveEnabled(me, SendChunk(i))
    requires me.reqs.Keys == peer.reqs.Keys && Flow(p, me, peer, id)
    ensures var (me', peer') := Moved(p, me, peer, SendChunk(i)); Flow(p, me', peer', id)
  {
    var (s, f) := Chunk(p, i, me.reqs[i]);
    var me', peer' := Put(me, i, s), Append(peer, [f]);
    ObserveAppend(me, peer, f, id);
    ObservePut(me, peer', id, i, s);
    if i == id {
      ChunkConserves(p, id, me.reqs[id], peer.reqs[id], Observe(me, peer, id));
      FlowIs(p, me', peer', id, s, peer.reqs[id], Observe(me', peer', id));
    } else {
      FlowStays(p, me, peer, me', peer', id);
    }
  }

  lemma EndConserves(p: Params, S: Stream, R: Stream, o: Obs)
    requires CanEnd(S) && Conserved(p, S, R, o)
    ensures Conserved(p, S.(ended := true), R, o.(ends := o.ends + 1))
  {
  }

  lemma EndKeepsOutflow(p: Params, me: Endpoint, peer: Endpoint, i: int, id: int)
    requires p.Ok() && MoveEnabled(me, SendEnd(i))
    requires me.reqs.Keys == peer.reqs.Keys && Flow(p, me, peer, id)
    ensures var (me', peer') := Moved(p, me, peer, SendEnd(i)); Flow(p, me', peer', id)
  {
    var s := me.reqs[i].(ended := true);
    var me', peer' := Put(me, i, s), Append(peer, [End(i)]);
    ObserveAppend(me, peer, End(i), id);
    ObservePut(me, peer', id, i, s);
    if i == id {
      EndConserves(p, me.reqs[id], peer.reqs[id], Observe(me, peer, id));
      FlowIs(p, me', peer', id, s, peer.reqs[id], Observe(me', peer', id));
    } else {
      FlowStays(p, me, peer, me', peer', id);
    }
  }

  lemma SendKeepsOutflow(p: Params, me: Endpoint, peer: Endpoint, m: Move, id: int)
    requires p.Ok() && MoveEnabled(me, m) && !m.Receive?
    requires me.reqs.Keys == peer.reqs.Keys && Flow(p, me, peer, id)
    ensures var (me', peer') := Moved(p, me, peer, m); Flow(p, me', peer', id)
  {
    match m
    case SendChunk(i) => ChunkKeepsOutflow(p, me, peer, i, id);
    case SendEnd(i) => EndKeepsOutflow(p, me, peer, i, id);
    case Say(f) =>
      ObserveAppend(me, peer, f, id);
      FlowStays(p, me, peer, me, Append(peer, [f]), id);
  }

  /** What a sender changes in its record is not what its flow as a receiver depends on. */
  lemma SentConserves(p: Params, S: Stream, R: Stream, o: Obs, sent: nat, credit: int, ended: bool)
    requires Conserved(p, S, R, o)
    ensures Conserved(p, S, R.(sent := sent, sendCredit := credit, ended := ended), o)
  {
  }

  /** A frame that is sent with a change of the sender's own half. */
  lemma SentKeepsInflow(p: Params, me: Endpoint, peer: Endpoint, i: int, sent: nat, credit: int, ended: bool, f: Frame,
                        id: int)
    requires i in me.reqs && !f.Credit? && me.reqs.Keys == peer.reqs.Keys && Flow(p, peer, me, id)
    ensures Flow(p, Append(peer, [f]), Put(me, i, me.reqs[i].(sent := sent, sendCredit := credit, ended := ended)), id)
  {
    var s := me.reqs[i].(sent := sent, sendCredit := credit, ended := ended);
    var me', peer' := Put(me, i, s), Append(peer, [f]);
    ObserveAppend(peer, me, f, id);
    ObservePut(peer', me, id, i, s);
    if i == id {
      SentConserves(p, peer.reqs[id], me.reqs[id], Observe(peer, me, id), sent, credit, ended);
      FlowIs(p, peer', me', id, peer.reqs[id], s, Observe(peer', me', id));
    } else {
      FlowStays(p, peer, me, peer', me', id);
    }
  }

  lemma SendKeepsInflow(p: Params, me: Endpoint, peer: Endpoint, m: Move, id: int)
    requires p.Ok() && MoveEnabled(me, m) && !m.Receive?
    requires me.reqs.Keys == peer.reqs.Keys && Flow(p, peer, me, id)
    ensures var (me', peer') := Moved(p, me, peer, m); Flow(p, peer', me', id)
  {
    match m
    case SendChunk(i) =>
      var (s, f) := Chunk(p, i, me.reqs[i]);
      SentKeepsInflow(p, me, peer, i, s.sent, s.sendCredit, s.ended, f, id);
    case SendEnd(i) =>
      SentKeepsInflow(p, me, peer, i, me.reqs[i].sent, me.reqs[i].sendCredit, true, End(i), id);
    case Say(f) =>
      ObserveAppend(peer, me, f, id);
      FlowStays(p, peer, me, Append(peer, [f]), me, id);
  }

  lemma InflowConserves(p: Params, S: Stream, R: Stream, o: Obs, f: Frame)
    requires Conserved(p, S, R, o) && Addressed(f) && (f.Data? ==> o.got + f.bytes <= o.sent)
    ensures var (R', out) := OnFrame(p, R, f);
      Conserved(p, S, R', o.(got := o.got + (if f.Data? then f.bytes else []), due := o.due + CreditIn(out)))
  {
    if f.Data? {
      DataConserves(p, f.id, S, R, o, f.bytes);
    } else {
      OtherConserves(p, S, R, o, f);
      assert o.got + [] == o.got;
    }
  }

  lemma OutflowConserves(p: Params, S: Stream, R: Stream, o: Obs, f: Frame)
    requires Conserved(p, S, R, o) && Addressed(f) && (f.Credit? ==> o.due >= f.n)
    ensures Conserved(p, OnFrame(p, S, f).0, R, o.(due := o.due - if f.Credit? then f.n else 0))
  {
    if f.Data? { DataKeepsSenderHalf(p, S, R, o, f.id, f.bytes); } else { OtherConserves(p, S, R, o, f); }
  }

  /** A frame handed to its request changes the flow towards it as the request says. */
  lemma HandedKeepsInflow(p: Params, me: Endpoint, peer: Endpoint, id: int)
    requires p.Ok() && me.inbox != [] && Addressed(me.inbox[0]) && me.inbox[0].id in me.reqs
    requires me.reqs.Keys == peer.reqs.Keys && Flow(p, peer, me, id)
    ensures var (me', peer') := Moved(p, me, peer, Receive); Flow(p, peer', me', id)
  {
    var f := me.inbox[0];
    var (s, out) := OnFrame(p, me.reqs[f.id], f);
    var me', peer' := Put(Take(me), f.id, s), Append(peer, out);
    var o := Observe(peer, me, id);
    ObserveTakeByReceiver(peer, me, id);
    ObserveAnswer(p, peer, Take(me), me.reqs[f.id], f, id);
    ObservePut(peer', Take(me), id, f.id, s);
    if f.id == id {
      InflowConserves(p, peer.reqs[id], me.reqs[id], o, f);
      FlowIs(p, peer', me', id, peer.reqs[id], s, Observe(peer', me', id));
    } else {
      FlowStays(p, peer, me, peer', me', id);
    }
  }

  lemma ReceiveKeepsInflow(p: Params, me: Endpoint, peer: Endpoint, id: int)
    requires p.Ok() && me.inbox != []
    requires me.reqs.Keys == peer.reqs.Keys && Flow(p, peer, me, id)
    ensures var (me', peer') := Moved(p, me, peer, Receive); Flow(p, peer', me', id)
  {
    var f := me.inbox[0];
    if Addressed(f) && f.id in me.reqs {
      HandedKeepsInflow(p, me, peer, id);
    } else {
      ObserveTakeByReceiver(peer, me, id);
      FlowStays(p, peer, me, peer, Take(me), id);
    }
  }

  lemma HandedKeepsOutflow(p: Params, me: Endpoint, peer: Endpoint, id: int)
    requires p.Ok() && me.inbox != [] && Addressed(me.inbox[0]) && me.inbox[0].id in me.reqs
    requires me.reqs.Keys == peer.reqs.Keys && Flow(p, me, peer, id)
    ensures var (me', peer') := Moved(p, me, peer, Receive); Flow(p, me', peer', id)
  {
    var f := me.inbox[0];
    var (s, out) := OnFrame(p, me.reqs[f.id], f);
    var me', peer' := Put(Take(me), f.id, s), Append(peer, out);
    var o := Observe(me, peer, id);
    ObserveTakeBySender(me, peer, id);
    ObserveAnswer(p, Take(me), peer, me.reqs[f.id], f, id);
    ObservePut(Take(me), peer', id, f.id, s);
    if f.id == id {
      OutflowConserves(p, me.reqs[id], peer.reqs[id], o, f);
      FlowIs(p, me', peer', id, s, peer.reqs[id], Observe(me', peer', id));
    } else {
      FlowStays(p, me, peer, me', peer', id);
    }
  }

  lemma ReceiveKeepsOutflow(p: Params, me: Endpoint, peer: Endpoint, id: int)
    requires p.Ok() && me.inbox != []
    requires me.reqs.Keys == peer.reqs.Keys && Flow(p, me, peer, id)
    ensures var (me', peer') := Moved(p, me, peer, Receive); Flow(p, me', peer', id)
  {
    var f := me.inbox[0];
    if Addressed(f) && f.id in me.reqs {
      HandedKeepsOutflow(p, me, peer, id);
    } else {
      ObserveTakeBySender(me, peer, id);
      FlowStays(p, me, peer, Take(me), peer, id);
    }
  }

  lemma MoveKeepsFlow(p: Params, me: Endpoint, peer: Endpoint, m: Move, id: int)
    requires p.Ok() && MoveEnabled(me, m)
    requires me.reqs.Keys == peer.reqs.Keys && Flow(p, me, peer, id) && Flow(p, peer, me, id)
    ensures var (me', peer') := Moved(p, me, peer, m); Flow(p, me', peer', id) && Flow(p, peer', me', id)
  {
    if m.Receive? {
      ReceiveKeepsInflow(p, me, peer, id);
      ReceiveKeepsOutflow(p, me, peer, id);
    } else {
      SendKeepsOutflow(p, me, peer, m, id);
      SendKeepsInflow(p, me, peer, m, id);
    }
  }

  lemma OpenKeepsFlow(p: Params, sys: System, st: Step, id: int)
    requires p.Ok() && Enabled(sys, st) && st.Open? && Inv(p, sys)
    ensures var sys' := Next(p, sys, st); Flow(p, sys'.a, sys'.b, id) && Flow(p, sys'.b, sys'.a, id)
  {
    assert Flow(p, sys.a, sys.b, id) && Flow(p, sys.b, sys.a, id);
  }

  lemma StepKeepsFlow(p: Params, sys: System, st: Step, id: int)
    requires p.Ok() && Enabled(sys, st) && Inv(p, sys)
    ensures var sys' := Next(p, sys, st); Flow(p, sys'.a, sys'.b, id) && Flow(p, sys'.b, sys'.a, id)
  {
    assert Flow(p, sys.a, sys.b, id) && Flow(p, sys.b, sys.a, id);
    match st
    case ByA(m) => MoveKeepsFlow(p, sys.a, sys.b, m, id);
    case ByB(m) => MoveKeepsFlow(p, sys.b, sys.a, m, id);
    case Open(_, _, _, _, _, _, _, _, _) => OpenKeepsFlow(p, sys, st, id);
  }

  lemma MoveKeepsKeys(p: Params, me: Endpoint, peer: Endpoint, m: Move)
    requires p.Ok() && MoveEnabled(me, m)
    ensures var (me', peer') := Moved(p, me, peer, m); me'.reqs.Keys == me.reqs.Keys && peer'.reqs == peer.reqs
  {
  }

  lemma StepKeepsKnown(p: Params, sys: System, st: Step)
    requires p.Ok() && Enabled(sys, st) && Known(sys)
    ensures Known(Next(p, sys, st))
  {
    match st
    case ByA(m) => MoveKeepsKeys(p, sys.a, sys.b, m);
    case ByB(m) => MoveKeepsKeys(p, sys.b, sys.a, m);
    case Open(_, _, _, _, _, _, _, _, _) =>
  }

  lemma StepKeepsInv(p: Params, sys: System, st: Step)
    requires p.Ok() && Enabled(sys, st) && Inv(p, sys)
    ensures Inv(p, Next(p, sys, st))
  {
    StepKeepsKnown(p, sys, st);
    var sys' := Next(p, sys, st);
    forall id ensures Flow(p, sys'.a, sys'.b, id) && Flow(p, sys'.b, sys'.a, id) {
      StepKeepsFlow(p, sys, st, id);
    }
  }

  /** The invariant holds after every run, whatever the interleaving. */
  lemma {:induction false} RunKeepsInv(p: Params, sys: System, steps: seq<Step>)
    requires p.Ok() && Inv(p, sys) && CanRun(p, sys, steps)
    ensures Inv(p, Run(p, sys, steps))
    decreases |steps|
  {
    if steps != [] {
      StepKeepsInv(p, sys, steps[0]);
      RunKeepsInv(p, Next(p, sys, steps[0]), steps[1..]);
    }
  }

  // ---- safety ------------------------------------------------------------------------------------------------

  /** Bytes of the request on their way from `s` to `r`. */
  function InFlight(r: Endpoint, id: int): int { |Bytes(r.Log(), id)| - |Bytes(r.seen, id)| }

  /** Credit granted for a request and not yet taken by its sender. */
  function CreditInFlight(s: Endpoint, id: int): int { Credits(s.Log(), id) - Credits(s.seen, id) }

  /** The state after any run: no credit is ever exceeded, at most a window is in flight, and what has arrived is a
      prefix of the upload. */
  lemma RunsAreSafe(p: Params, steps: seq<Step>, id: int)
    requires p.Ok() && CanRun(p, START, steps)
    ensures var sys := Run(p, START, steps);
      id in sys.ids ==> SafeOneWay(p, sys.a, sys.b, id) && SafeOneWay(p, sys.b, sys.a, id)
  {
    forall i ensures Flow(p, START.a, START.b, i) && Flow(p, START.b, START.a, i) {}
    RunKeepsInv(p, START, steps);
    var sys := Run(p, START, steps);
    assert Flow(p, sys.a, sys.b, id) && Flow(p, sys.b, sys.a, id);
  }

  predicate SafeOneWay(p: Params, s: Endpoint, r: Endpoint, id: int) {
    id in s.reqs && id in r.reqs &&
    var S, R := s.reqs[id], r.reqs[id];
    && !R.violation
    && 0 <= InFlight(r, id) <= p.window
    && S.sent <= |Upload(S)| && R.got <= Upload(S)[..S.sent]
    && 0 <= S.sendCredit <= p.window && 0 <= R.recvWindow <= p.window
    && R.recvWindow + R.unacked == p.window
    && S.sendCredit + InFlight(r, id) + R.unacked + CreditInFlight(s, id) == p.window && CreditInFlight(s, id) >= 0
    && Ends(r.Log(), id) <= 1 && (Ends(r.Log(), id) == 1 ==> Bytes(r.Log(), id) == Upload(S))
    && Tidy(r.Log(), id)
    && (!R.grant ==> |R.got| <= p.window)
  }

  // ---- after granting stops ----------------------------------------------------------------------------------

  /** The receiver of `id` no longer grants (it never did, it sent a cancel, or the result is in), and `budget` bounds
      all it will ever have received. */
  predicate Stopped(e: Endpoint, id: int, budget: int) {
    id in e.reqs && !Granting(e.reqs[id]) && |e.reqs[id].got| + e.reqs[id].recvWindow == budget
  }

  lemma FrameKeepsStopped(p: Params, S: Stream, f: Frame)
    requires !Granting(S)
    ensures var s := OnFrame(p, S, f).0; !Granting(s) && |s.got| + s.recvWindow == |S.got| + S.recvWindow
  {
  }

  lemma MoveKeepsStopped(p: Params, me: Endpoint, peer: Endpoint, m: Move, id: int, budget: int)
    requires p.Ok() && MoveEnabled(me, m)
    ensures var (me', peer') := Moved(p, me, peer, m);
      (Stopped(me, id, budget) ==> Stopped(me', id, budget)) && peer'.reqs == peer.reqs
  {
    if m.Receive? && Addressed(me.inbox[0]) && me.inbox[0].id == id && Stopped(me, id, budget) {
      FrameKeepsStopped(p, me.reqs[id], me.inbox[0]);
    }
  }

  lemma StepKeepsStopped(p: Params, sys: System, st: Step, id: int, budget: int)
    requires p.Ok() && Enabled(sys, st) && id in sys.ids
    ensures id in Next(p, sys, st).ids
    ensures Stopped(sys.a, id, budget) ==> Stopped(Next(p, sys, st).a, id, budget)
    ensures Stopped(sys.b, id, budget) ==> Stopped(Next(p, sys, st).b, id, budget)
  {
    match st
    case ByA(m) => MoveKeepsStopped(p, sys.a, sys.b, m, id, budget);
    case ByB(m) => MoveKeepsStopped(p, sys.b, sys.a, m, id, budget);
    case Open(_, _, _, _, _, _, _, _, _) =>
  }

  lemma {:induction false} RunKeepsStopped(p: Params, sys: System, steps: seq<Step>, id: int, budget: int)
    requires p.Ok() && CanRun(p, sys, steps) && id in sys.ids
    ensures Stopped(sys.a, id, budget) ==> Stopped(Run(p, sys, steps).a, id, budget)
    ensures Stopped(sys.b, id, budget) ==> Stopped(Run(p, sys, steps).b, id, budget)
    decreases |steps|
  {
    if steps != [] {
      StepKeepsStopped(p, sys, steps[0], id, budget);
      RunKeepsStopped(p, Next(p, sys, steps[0]), steps[1..], id, budget);
    }
  }

  /** After a cancel, after a result, or with granting off, at most one window more arrives, for ever. */
  lemma AtMostAWindowMore(p: Params, before: seq<Step>, after: seq<Step>, id: int)
    requires p.Ok() && CanRun(p, START, before) && CanRun(p, Run(p, START, before), after)
    requires id in Run(p, START, before).ids
    ensures var sys := Run(p, START, before); var sys' := Run(p, sys, after);
      && id in sys.a.reqs && id in sys'.a.reqs && id in sys.b.reqs && id in sys'.b.reqs
      && (!Granting(sys.a.reqs[id]) ==> |sys'.a.reqs[id].got| <= |sys.a.reqs[id].got| + p.window)
      && (!Granting(sys.b.reqs[id]) ==> |sys'.b.reqs[id].got| <= |sys.b.reqs[id].got| + p.window)
  {
    forall i ensures Flow(p, START.a, START.b, i) && Flow(p, START.b, START.a, i) {}
    RunKeepsInv(p, START, before);
    var sys := Run(p, START, before);
    RunKeepsInv(p, sys, after);
    var sys' := Run(p, sys, after);
    RunKeepsIds(p, sys, after, id);
    assert Flow(p, sys.a, sys.b, id) && Flow(p, sys.b, sys.a, id);
    assert Flow(p, sys'.a, sys'.b, id) && Flow(p, sys'.b, sys'.a, id);
    var A, B := sys.a.reqs[id], sys.b.reqs[id];
    RunKeepsStopped(p, sys, after, id, |A.got| + A.recvWindow);
    RunKeepsStopped(p, sys, after, id, |B.got| + B.recvWindow);
  }

  lemma {:induction false} RunKeepsIds(p: Params, sys: System, steps: seq<Step>, id: int)
    requires p.Ok() && CanRun(p, sys, steps) && id in sys.ids
    ensures id in Run(p, sys, steps).ids
    decreases |steps|
  {
    if steps != [] { RunKeepsIds(p, Next(p, sys, steps[0]), steps[1..], id); }
  }

  // ---- progress ----------------------------------------------------------------------------------------------

  function Left(S: Stream): nat {
    3 * (if S.sent <= |Upload(S)| then |Upload(S)| - S.sent else 0) + if S.ended then 0 else 2
  }

  function LeftAll(ids: seq<int>, reqs: map<int, Stream>): nat
    requires forall id | id in ids :: id in reqs
  {
    if ids == [] then 0
    else
      assert forall id | id in ids :: id in reqs;
      assert ids[0] in ids;
      Left(reqs[ids[0]]) + LeftAll(ids[1..], reqs)
  }

  /** A frame that may be answered weighs two, any other one. */
  function Weight(fs: seq<Frame>): nat {
    if fs == [] then 0 else (if fs[0].Data? || fs[0].Event? then 2 else 1) + Weight(fs[1..])
  }

  lemma {:induction false} WeightAppend(fs: seq<Frame>, more: seq<Frame>)
    ensures Weight(fs + more) == Weight(fs) + Weight(more)
  {
    if fs == [] {
      assert fs + more == more;
    } else {
      assert (fs + more)[1..] == fs[1..] + more;
      WeightAppend(fs[1..], more);
    }
  }

  lemma {:induction false} LeftUpdate(ids: seq<int>, reqs: map<int, Stream>, id: int, s: Stream)
    requires Distinct(ids) && forall i | i in ids :: i in reqs
    ensures LeftAll(ids, reqs[id := s]) ==
            LeftAll(ids, reqs) + if id in ids then Left(s) - Left(reqs[id]) else 0
  {
    if ids != [] {
      assert forall i, j | 0 <= i < j < |ids[1..]| :: ids[1..][i] != ids[1..][j];
      assert id in ids <==> id == ids[0] || id in ids[1..];
      assert ids[0] !in ids[1..];
      LeftUpdate(ids[1..], reqs, id, s);
    }
  }

  predicate Covered(sys: System) {
    Distinct(sys.ids) && (forall id | id in sys.ids :: id in sys.a.reqs && id in sys.b.reqs)
    && (forall id | id in sys.a.reqs :: id in sys.ids) && (forall id | id in sys.b.reqs :: id in sys.ids)
  }

  /** The measure of the work left: bytes and `end`s to send, frames to take. */
  function Measure(sys: System): nat
    requires Covered(sys)
  {
    LeftAll(sys.ids, sys.a.reqs) + LeftAll(sys.ids, sys.b.reqs) + Weight(sys.a.inbox) + Weight(sys.b.inbox)
  }

  lemma InvCovers(p: Params, sys: System)
    requires Inv(p, sys)
    ensures Covered(sys)
  {
  }

  /** Answering a frame weighs less than the frame did, and leaves the upload alone. */
  lemma AnswerIsLighter(p: Params, S: Stream, f: Frame)
    requires Addressed(f)
    ensures var (s, out) := OnFrame(p, S, f); Left(s) == Left(S) && Weight(out) < Weight([f])
  {
    var out := OnFrame(p, S, f).1;
    assert Weight([f]) == if f.Data? || f.Event? then 2 else 1;
    if out != [] { assert out == [out[0]] && Weight(out) == 1; }
  }

  function Load(ids: seq<int>, me: Endpoint, peer: Endpoint): nat
    requires forall id | id in ids :: id in me.reqs
  {
    LeftAll(ids, me.reqs) + Weight(me.inbox) + Weight(peer.inbox)
  }

  lemma SendWorks(p: Params, ids: seq<int>, me: Endpoint, peer: Endpoint, m: Move)
    requires p.Ok() && MoveEnabled(me, m) && (m.SendChunk? || m.SendEnd?)
    requires Distinct(ids) && (forall id | id in ids :: id in me.reqs) && m.id in ids
    ensures var (me', peer') := Moved(p, me, peer, m); Load(ids, me', peer') < Load(ids, me, peer)
  {
    var (me', peer') := Moved(p, me, peer, m);
    LeftUpdate(ids, me.reqs, m.id, me'.reqs[m.id]);
    WeightAppend(peer.inbox, peer'.inbox[|peer.inbox|..]);
    assert peer'.inbox == peer.inbox + peer'.inbox[|peer.inbox|..];
  }

  lemma ReceiveWorks(p: Params, ids: seq<int>, me: Endpoint, peer: Endpoint)
    requires p.Ok() && me.inbox != []
    requires Distinct(ids) && (forall id | id in ids :: id in me.reqs) && (forall id | id in me.reqs :: id in ids)
    ensures var (me', peer') := Moved(p, me, peer, Receive); Load(ids, me', peer') < Load(ids, me, peer)
  {
    var f := me.inbox[0];
    if Addressed(f) && f.id in me.reqs {
      var (s, out) := OnFrame(p, me.reqs[f.id], f);
      AnswerIsLighter(p, me.reqs[f.id], f);
      LeftUpdate(ids, me.reqs, f.id, s);
      WeightAppend(peer.inbox, out);
      assert Weight(me.inbox) == Weight([f]) + Weight(me.inbox[1..]);
    }
  }

  lemma MoveWorks(p: Params, ids: seq<int>, me: Endpoint, peer: Endpoint, m: Move)
    requires p.Ok() && MoveEnabled(me, m) && !m.Say?
    requires Distinct(ids) && (forall id | id in ids :: id in me.reqs) && (forall id | id in me.reqs :: id in ids)
    ensures var (me', peer') := Moved(p, me, peer, m);
      && me'.reqs.Keys == me.reqs.Keys && peer'.reqs == peer.reqs
      && Load(ids, me', peer') < Load(ids, me, peer)
  {
    if m.Receive? { ReceiveWorks(p, ids, me, peer); } else { SendWorks(p, ids, me, peer, m); }
  }

  predicate Works(st: Step) { !st.Open? && !st.m.Say? }

  /** What a step that is not protocol work may add to the measure. */
  function Added(p: Params, st: Step): nat {
    match st
    case Open(_, upA, upB, _, _, _, _, _, _) =>
      Left(Fresh(p, upA, true, None, None)) + Left(Fresh(p, upB, true, None, None))
    case _ => if Works(st) then 0 else 2
  }

  lemma StepMeasure(p: Params, sys: System, st: Step)
    requires p.Ok() && Enabled(sys, st) && Inv(p, sys)
    ensures Inv(p, Next(p, sys, st)) && Covered(sys) && Covered(Next(p, sys, st))
    ensures Measure(Next(p, sys, st)) + (if Works(st) then 1 else 0) <= Measure(sys) + Added(p, st)
  {
    StepKeepsInv(p, sys, st);
    InvCovers(p, sys);
    var sys' := Next(p, sys, st);
    InvCovers(p, sys');
    match st
    case ByA(m) =>
      if m.Say? { WeightAppend(sys.b.inbox, [m.f]); } else { MoveWorks(p, sys.ids, sys.a, sys.b, m); }
    case ByB(m) =>
      if m.Say? { WeightAppend(sys.a.inbox, [m.f]); } else { MoveWorks(p, sys.ids, sys.b, sys.a, m); }
    case Open(id, upA, upB, _, _, _, _, _, _) =>
      OpenMeasure(sys.ids, sys.a.reqs, id, sys'.a.reqs[id]);
      OpenMeasure(sys.ids, sys.b.reqs, id, sys'.b.reqs[id]);
  }

  lemma OpenMeasure(ids: seq<int>, reqs: map<int, Stream>, id: int, s: Stream)
    requires Distinct(ids) && id !in ids && forall i | i in ids :: i in reqs
    ensures LeftAll(ids + [id], reqs[id := s]) == LeftAll(ids, reqs) + Left(s)
  {
    LeftUpdate(ids, reqs, id, s);
    LeftSnoc(ids, reqs[id := s], id);
  }

  lemma {:induction false} LeftSnoc(ids: seq<int>, reqs: map<int, Stream>, id: int)
    requires id in reqs && forall i | i in ids :: i in reqs
    ensures LeftAll(ids + [id], reqs) == LeftAll(ids, reqs) + Left(reqs[id])
  {
    if ids != [] {
      assert (ids + [id])[1..] == ids[1..] + [id];
      LeftSnoc(ids[1..], reqs, id);
    }
  }

  function WorkIn(steps: seq<Step>): nat {
    if steps == [] then 0 else (if Works(steps[0]) then 1 else 0) + WorkIn(steps[1..])
  }

  function AddedIn(p: Params, steps: seq<Step>): nat {
    if steps == [] then 0 else Added(p, steps[0]) + AddedIn(p, steps[1..])
  }

  /** Every run does at most as much protocol work as the requests opened and the things said allow. */
  lemma {:induction false} WorkIsBounded(p: Params, sys: System, steps: seq<Step>)
    requires p.Ok() && Inv(p, sys) && CanRun(p, sys, steps)
    ensures Covered(sys) && WorkIn(steps) <= Measure(sys) + AddedIn(p, steps)
    decreases |steps|
  {
    InvCovers(p, sys);
    if steps != [] {
      StepMeasure(p, sys, steps[0]);
      WorkIsBounded(p, Next(p, sys, steps[0]), steps[1..]);
    }
  }

  /** With granting on and no cancel or result, an idle pair of pipes leaves the sender more than three quarters of the
      window as credit. */
  lemma IdleMeansCredit(p: Params, s: Endpoint, r: Endpoint, id: int)
    requires p.Ok() && id in s.reqs && id in r.reqs && Flow(p, s, r, id)
    requires s.inbox == [] && r.inbox == [] && Granting(r.reqs[id])
    ensures s.reqs[id].sendCredit > 0 && 4 * s.reqs[id].sendCredit > 3 * p.window
  {
    assert s.Log() == s.seen && r.Log() == r.seen;
  }

  /** A reachable state with no protocol move left has delivered everything: all bytes, and one `end` after them. */
  lemma NoDeadlock(p: Params, steps: seq<Step>, id: int)
    requires p.Ok() && CanRun(p, START, steps)
    requires forall m: Move | !m.Say? ::
      !MoveEnabled(Run(p, START, steps).a, m) && !MoveEnabled(Run(p, START, steps).b, m)
    requires id in Run(p, START, steps).ids
    ensures var sys := Run(p, START, steps); Done(sys.a, sys.b, id) && Done(sys.b, sys.a, id)
  {
    forall i ensures Flow(p, START.a, START.b, i) && Flow(p, START.b, START.a, i) {}
    RunKeepsInv(p, START, steps);
    var sys := Run(p, START, steps);
    StuckIsDone(p, sys.a, sys.b, id);
    StuckIsDone(p, sys.b, sys.a, id);
  }

  predicate Done(s: Endpoint, r: Endpoint, id: int) {
    id in s.reqs && id in r.reqs &&
    (Granting(r.reqs[id]) && !s.reqs[id].res ==>
       && r.reqs[id].got == Upload(s.reqs[id])
       && s.reqs[id].ended
       && Ends(r.seen, id) == (if s.reqs[id].upload.Some? then 1 else 0)
       && Tidy(r.seen, id))
  }

  lemma StuckIsDone(p: Params, s: Endpoint, r: Endpoint, id: int)
    requires p.Ok() && id in s.reqs && id in r.reqs && Flow(p, s, r, id)
    requires forall m: Move | !m.Say? :: !MoveEnabled(s, m) && !MoveEnabled(r, m)
    ensures Done(s, r, id)
  {
    assert !MoveEnabled(s, Receive) && !MoveEnabled(r, Receive);
    assert !MoveEnabled(s, SendChunk(id)) && !MoveEnabled(s, SendEnd(id));
    assert s.Log() == s.seen && r.Log() == r.seen;
    if Granting(r.reqs[id]) { IdleMeansCredit(p, s, r, id); }
  }

  /** What a run of one request's sends leaves. */
  function Fed(sys: System, id: int, s: Stream, fs: seq<Frame>): System {
    sys.(a := sys.a.(reqs := sys.a.reqs[id := s]), b := Append(sys.b, fs))
  }

  lemma FedTwice(sys: System, id: int, s: Stream, f: Frame, s': Stream, fs: seq<Frame>)
    ensures Fed(Fed(sys, id, s, [f]), id, s', fs) == Fed(sys, id, s', [f] + fs)
  {
    assert sys.a.reqs[id := s][id := s'] == sys.a.reqs[id := s'];
    assert sys.b.inbox + [f] + fs == sys.b.inbox + ([f] + fs);
  }

  lemma ChunkIsFed(p: Params, sys: System, id: int, s: Stream, f: Frame)
    requires p.Ok() && id in sys.a.reqs && CanChunk(sys.a.reqs[id]) && (s, f) == Chunk(p, id, sys.a.reqs[id])
    ensures Enabled(sys, ByA(SendChunk(id))) && Next(p, sys, ByA(SendChunk(id))) == Fed(sys, id, s, [f])
  {
  }

  lemma RunCons(p: Params, sys: System, st: Step, rest: seq<Step>)
    requires p.Ok() && Enabled(sys, st) && CanRun(p, Next(p, sys, st), rest)
    ensures CanRun(p, sys, [st] + rest) && Run(p, sys, [st] + rest) == Run(p, Next(p, sys, st), rest)
  {
    assert ([st] + rest)[1..] == rest;
  }

  /** One pass of the upload loop is a run of these steps: the loop adds no behaviour of its own. */
  lemma {:induction false} FeedIsARun(p: Params, sys: System, id: int) returns (steps: seq<Step>)
    requires p.Ok() && id in sys.a.reqs
    ensures CanRun(p, sys, steps)
    ensures var (s, fs) := Feed(p, id, sys.a.reqs[id]); Run(p, sys, steps) == Fed(sys, id, s, fs)
    decreases if CanChunk(sys.a.reqs[id]) then |Upload(sys.a.reqs[id])| - sys.a.reqs[id].sent + 1 else 0
  {
    var S := sys.a.reqs[id];
    if CanChunk(S) {
      var (s, f) := Chunk(p, id, S);
      ChunkIsFed(p, sys, id, s, f);
      var rest := FeedIsARun(p, Fed(sys, id, s, [f]), id);
      steps := [ByA(SendChunk(id))] + rest;
      RunCons(p, sys, steps[0], rest);
      FedTwice(sys, id, s, f, Feed(p, id, s).0, Feed(p, id, s).1);
    } else if CanEnd(S) {
      steps := [ByA(SendEnd(id))];
      RunCons(p, sys, steps[0], []);
    } else {
      steps := [];
      assert sys.a.reqs[id := S] == sys.a.reqs && Append(sys.b, []) == sys.b;
    }
  }
}
