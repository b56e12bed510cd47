/** The credit flow control of the node protocol: what one request record does with each frame, and what two
    drivers do together over a pair of ordered pipes. */
module FlowControl {
  import opened Text

  type Byte = bv8

  /** `window` is the credit of a fresh stream, `maxData` the largest payload of one DATA frame. */
  datatype Params = Params(window: nat, maxData: nat) {
    predicate Ok() { window >= 1 && maxData >= 1 }
    function Batch(): nat { window / 4 }
  }

  datatype Frame =
    | Data(id: int, bytes: seq<Byte>)
    | End(id: int)
    | Credit(id: int, n: nat)
    | Cancel(id: int)
    | Res(id: int)
    | Event(id: int)
    | Other

  /** The value of a request record. `got` is the bytes received so far (the source keeps their count and digest). */
  datatype Stream = Stream(
    upload: Option<seq<Byte>>, sent: nat, sendCredit: int, ended: bool, res: bool,
    got: seq<Byte>, recvWindow: int, unacked: nat, violation: bool,
    grant: bool, cancelAfter: Option<nat>, cancelAfterEvents: Option<nat>, events: nat, cancelSent: bool)

  function Fresh(p: Params, upload: Option<seq<Byte>>, grant: bool, ca: Option<nat>, cae: Option<nat>): Stream {
    Stream(upload, 0, p.window, upload.None?, false, [], p.window, 0, false, grant, ca, cae, 0, false)
  }

  // ---- one record -------------------------------------------------------------------------------------------

  predicate Feeding(s: Stream) { !s.ended && s.upload.Some? && !s.res }

  predicate CanChunk(s: Stream) { Feeding(s) && s.sent < |s.upload.value| && s.sendCredit > 0 }

  predicate CanEnd(s: Stream) { Feeding(s) && s.sent == |s.upload.value| }

  function ChunkLen(p: Params, s: Stream): (n: nat)
    requires p.Ok() && CanChunk(s)
    ensures 1 <= n <= p.maxData && n <= s.sendCredit && s.sent + n <= |s.upload.value|
    ensures n == p.maxData || n == s.sendCredit || s.sent + n == |s.upload.value|
  {
    Min(p.maxData, Min(s.sendCredit, |s.upload.value| - s.sent))
  }

  function Chunk(p: Params, id: int, s: Stream): (Stream, Frame)
    requires p.Ok() && CanChunk(s)
  {
    var n := ChunkLen(p, s);
    (s.(sent := s.sent + n, sendCredit := s.sendCredit - n), Data(id, s.upload.value[s.sent..s.sent + n]))
  }

  /** Everything one pass of the upload loop sends, and the record it leaves. */
  function Feed(p: Params, id: int, s: Stream): (r: (Stream, seq<Frame>))
    requires p.Ok()
    decreases if CanChunk(s) then |s.upload.value| - s.sent + 1 else 0
  {
    if CanChunk(s) then
      var (s', f) := Chunk(p, id, s);
      var (s'', fs) := Feed(p, id, s');
      (s'', [f] + fs)
    else if CanEnd(s) then (s.(ended := true), [End(id)])
    else (s, [])
  }

  predicate CancelDue(s: Stream) {
    !s.cancelSent && s.cancelAfter.Some? && |s.got| >= s.cancelAfter.value
  }

  predicate GrantDue(p: Params, s: Stream) {
    s.grant && s.unacked >= p.Batch() && !s.res && !s.cancelSent
  }

  /** The payload counted against the receive window. */
  function Accounted(s: Stream, data: seq<Byte>): Stream {
    s.(got := s.got + data, violation := s.violation || |data| > s.recvWindow,
       recvWindow := s.recvWindow - |data|, unacked := s.unacked + |data|)
  }

  function OnData(p: Params, id: int, s: Stream, data: seq<Byte>): (Stream, seq<Frame>) {
    var taken := Accounted(s, data);
    if CancelDue(taken) then (taken.(cancelSent := true), [Cancel(id)])
    else if GrantDue(p, taken) then
      (taken.(recvWindow := taken.recvWindow + taken.unacked, unacked := 0), [Credit(id, taken.unacked)])
    else (taken, [])
  }

  function OnEvent(id: int, s: Stream): (Stream, seq<Frame>) {
    var s := s.(events := s.events + 1);
    if s.cancelAfterEvents.Some? && !s.cancelSent && s.events >= s.cancelAfterEvents.value
    then (s.(cancelSent := true), [Cancel(id)])
    else (s, [])
  }

  /** What a record does with one incoming frame of its id: its new value and the frames it sends. */
  function OnFrame(p: Params, s: Stream, f: Frame): (Stream, seq<Frame>) {
    match f
    case Data(id, bytes) => OnData(p, id, s, bytes)
    case Credit(_, n) => (s.(sendCredit := s.sendCredit + n), [])
    case Res(_) => (s.(res := true), [])
    case Event(id) => OnEvent(id, s)
    case _ => (s, [])
  }

  predicate Addressed(f: Frame) { f.Data? || f.Credit? || f.Res? || f.Event? }

  // ---- the driver's objects ---------------------------------------------------------------------------------

  class Req {
    const rid: int
    const upload: Option<seq<Byte>>
    const grant: bool
    const cancelAfter: Option<nat>
    const cancelAfterEvents: Option<nat>
    var events: nat
    var res: bool
    var got: seq<Byte>
    var recvWindow: int
    var unacked: nat
    var violation: bool
    var sent: nat
    var sendCredit: int
    var ended: bool
    var cancelSent: bool

    constructor (p: Params, rid: int, upload: Option<seq<Byte>>, grant: bool, ca: Option<nat>, cae: Option<nat>)
      ensures View() == Fresh(p, upload, grant, ca, cae) && this.rid == rid
    {
      this.rid, this.upload, this.grant, cancelAfter, cancelAfterEvents := rid, upload, grant, ca, cae;
      events, res, got, unacked, violation, cancelSent := 0, false, [], 0, false, false;
      recvWindow, sendCredit := p.window, p.window;
      sent, ended := 0, upload.None?;
    }

    ghost function View(): Stream
      reads this
    {
      Stream(upload, sent, sendCredit, ended, res, got, recvWindow, unacked, violation,
             grant, cancelAfter, cancelAfterEvents, events, cancelSent)
    }
  }

  datatype QItem = Eof | Item(frame: Frame)

  /** What one upload pass over the first `k` of the requests `rs`, holding `was`, writes. */
  ghost function FeedWire(p: Params, rs: seq<Req>, was: seq<Stream>, k: nat): seq<Frame>
    requires p.Ok() && k <= |rs| == |was|
  {
    if k == 0 then [] else FeedWire(p, rs, was, k - 1) + Feed(p, rs[k - 1].rid, was[k - 1]).1
  }

  lemma FeedWireNext(p: Params, rs: seq<Req>, was: seq<Stream>, k: nat)
    requires p.Ok() && k < |rs| == |was|
    ensures FeedWire(p, rs, was, k + 1) == FeedWire(p, rs, was, k) + Feed(p, rs[k].rid, was[k]).1
  {
  }

  /** The frame one `pump` hands to a request, if the queue starts with one. */
  function Handled(q: seq<QItem>): Option<Frame> {
    if q != [] && q[0].Item? && Addressed(q[0].frame) then Some(q[0].frame) else None
  }

  /** The request `id` after the handled frame, if it is addressed to it, and what it writes for that frame. */
  function Handed(p: Params, id: int, s: Stream, handled: Option<Frame>): (Stream, seq<Frame>)
    requires handled.Some? ==> Addressed(handled.value)
  {
    if handled.Some? && handled.value.id == id then OnFrame(p, s, handled.value) else (s, [])
  }

  lemma FeedUnroll(p: Params, id: int, s: Stream, done: seq<Frame>)
    requires p.Ok() && CanChunk(s)
    ensures Feed(p, id, s).0 == Feed(p, id, Chunk(p, id, s).0).0
    ensures done + Feed(p, id, s).1 == done + [Chunk(p, id, s).1] + Feed(p, id, Chunk(p, id, s).0).1
  {
    FramesJoined(done, [Chunk(p, id, s).1], Feed(p, id, Chunk(p, id, s).0).1);
  }

  lemma FramesJoined(a: seq<Frame>, b: seq<Frame>, c: seq<Frame>)
    ensures a + (b + c) == a + b + c
  {
  }

  class Driver {
    const p: Params
    var active: seq<Req>         // the requests, keyed by their `rid`, oldest first
    var q: seq<QItem>
    var wire: seq<Frame>         // everything written to the node
    var closed: bool

    ghost predicate Valid()
      reads this
    {
      && p.Ok()
      && (forall i, j | 0 <= i < j < |active| :: active[i] != active[j])
      && (forall i, j | 0 <= i < j < |active| :: active[i].rid != active[j].rid)
    }

    /** The requests before position `k` have been fed, the others still hold `was`. */
    ghost predicate FedUpTo(was: seq<Stream>, k: nat)
      requires p.Ok()
      reads this, active
    {
      && |was| == |active|
      && (forall j {:trigger was[j]} | 0 <= j < |active| ::
            active[j].View() == if j < k then Feed(p, active[j].rid, was[j]).0 else was[j])
    }

    ghost function Written(fs: seq<Frame>): seq<Frame>
      reads `closed
    {
      if closed then [] else fs
    }

    lemma WrittenPlus(w: seq<Frame>, a: seq<Frame>, b: seq<Frame>)
      ensures w + Written(a) + Written(b) == w + Written(a + b)
    {
    }

    method Send(f: Frame)
      modifies `wire
      ensures wire == old(wire) + Written([f])
    {
      if !closed { wire := wire + [f]; }
    }

    method Account(r: Req, data: seq<Byte>)
      modifies r`got, r`violation, r`recvWindow, r`unacked
      ensures r.View() == Accounted(old(r.View()), data)
    {
      r.got := r.got + data;
      if |data| > r.recvWindow { r.violation := true; }
      r.recvWindow := r.recvWindow - |data|;
      r.unacked := r.unacked + |data|;
    }

    method OnDataFrame(r: Req, data: seq<Byte>)
      modifies r, `wire
      ensures r.View() == OnData(p, r.rid, old(r.View()), data).0
      ensures wire == old(wire) + Written(OnData(p, r.rid, old(r.View()), data).1)
    {
      Account(r, data);
      if r.cancelAfter.Some? && !r.cancelSent && |r.got| >= r.cancelAfter.value {
        r.cancelSent := true;
        Send(Cancel(r.rid));
      }
      if r.grant && r.unacked >= p.Batch() && !r.res && !r.cancelSent {
        Send(Credit(r.rid, r.unacked));
        r.recvWindow := r.recvWindow + r.unacked;
        r.unacked := 0;
      }
    }

    method OnEventFrame(r: Req)
      modifies r, `wire
      ensures r.View() == OnEvent(r.rid, old(r.View())).0
      ensures wire == old(wire) + Written(OnEvent(r.rid, old(r.View())).1)
    {
      r.events := r.events + 1;
      if r.cancelAfterEvents.Some? && !r.cancelSent && r.events >= r.cancelAfterEvents.value {
        r.cancelSent := true;
        Send(Cancel(r.rid));
      }
    }

    /** One turn of the upload loop. */
    method SendChunk(r: Req)
      requires p.Ok() && CanChunk(r.View())
      modifies r`sent, r`sendCredit, `wire
      ensures r.View() == Chunk(p, r.rid, old(r.View())).0
      ensures wire == old(wire) + Written([Chunk(p, r.rid, old(r.View())).1])
    {
      var n := Min(p.maxData, Min(r.sendCredit, |r.upload.value| - r.sent));
      Send(Data(r.rid, r.upload.value[r.sent..r.sent + n]));
      r.sent := r.sent + n;
      r.sendCredit := r.sendCredit - n;
    }

    method FeedUpload(r: Req)
      requires p.Ok()
      modifies r, `wire
      ensures r.View() == Feed(p, r.rid, old(r.View())).0
      ensures wire == old(wire) + Written(Feed(p, r.rid, old(r.View())).1)
    {
      if r.ended || r.upload.None? || r.res { return; }
      ghost var goal := Feed(p, r.rid, r.View());
      ghost var done: seq<Frame> := [];
      while r.sent < |r.upload.value| && r.sendCredit > 0
        invariant Feeding(r.View())
        invariant Feed(p, r.rid, r.View()).0 == goal.0
        invariant done + Feed(p, r.rid, r.View()).1 == goal.1
        invariant wire == old(wire) + Written(done)
        decreases |r.upload.value| - r.sent
      {
        ghost var s := r.View();
        SendChunk(r);
        FeedUnroll(p, r.rid, s, done);
        WrittenPlus(old(wire), done, [Chunk(p, r.rid, s).1]);
        done := done + [Chunk(p, r.rid, s).1];
      }
      if r.sent == |r.upload.value| {
        Send(End(r.rid));
        WrittenPlus(old(wire), done, [End(r.rid)]);
        r.ended := true;
      }
    }

    method FeedNext(ghost was: seq<Stream>, k: nat, ghost base: seq<Frame>, ghost done: seq<Frame>)
      requires Valid() && k < |active| && FedUpTo(was, k) && wire == base + Written(done)
      modifies active[k], `wire
      ensures FedUpTo(was, k + 1)
      ensures wire == base + Written(done + Feed(p, active[k].rid, was[k]).1)
    {
      FeedUpload(active[k]);
      WrittenPlus(base, done, Feed(p, active[k].rid, was[k]).1);
    }

    method FeedActive(ghost was: seq<Stream>)
      requires Valid() && FedUpTo(was, 0)
      modifies active, `wire
      ensures FedUpTo(was, |active|)
      ensures wire == old(wire) + Written(FeedWire(p, active, was, |active|))
    {
      var k := 0;
      ghost var done: seq<Frame> := [];
      while k < |active|
        invariant 0 <= k <= |active| && FedUpTo(was, k)
        invariant done == FeedWire(p, active, was, k) && wire == old(wire) + Written(done)
      {
        FeedNext(was, k, old(wire), done);
        FeedWireNext(p, active, was, k);
        done := done + Feed(p, active[k].rid, was[k]).1;
        k := k + 1;
      }
    }

    /** Hand a frame to the request it is addressed to, if that request is active. */
    method Dispatch(f: Frame) returns (k: nat)
      requires Valid()
      modifies active, `wire
      ensures k <= |active|
      ensures k == |active| && Addressed(f) ==> forall j | 0 <= j < |active| :: active[j].rid != f.id
      ensures k < |active| ==> Addressed(f)
      ensures forall j | 0 <= j < |active| && j != k :: active[j].View() == old(active[j].View())
      ensures if k < |active| then
                active[k].rid == f.id && active[k].View() == OnFrame(p, old(active[k].View()), f).0 &&
                wire == old(wire) + Written(OnFrame(p, old(active[k].View()), f).1)
              else wire == old(wire)
    {
      k := 0;
      if !Addressed(f) { return |active|; }
      while k < |active| && active[k].rid != f.id
        invariant 0 <= k <= |active|
        invariant forall j | 0 <= j < k :: active[j].rid != f.id
      {
        k := k + 1;
      }
      if k == |active| { return; }
      var r := active[k];
      match f {
        case Data(_, bytes) => OnDataFrame(r, bytes);
        case Res(_) => r.res := true;
        case Event(_) => OnEventFrame(r);
        case Credit(_, n) => r.sendCredit := r.sendCredit + n;
      }
    }

    /** Take at most one item from the queue; false once the node's stream has ended. */
    method TakeOne() returns (more: bool, ghost k: nat)
      requires Valid()
      modifies active, `wire, `q
      ensures var h := Handled(old(q));
        && (forall j | 0 <= j < |active| :: active[j].View() == Handed(p, active[j].rid, old(active[j].View()), h).0)
        && (k < |active| ==> h.Some? && active[k].rid == h.value.id)
        && wire == old(wire) + Written(if k < |active| then OnFrame(p, old(active[k].View()), h.value).1 else [])
      ensures more <==> (old(q) == [] || old(q)[0].Item?)
      ensures q == if old(q) == [] then [] else if more then old(q)[1..] else old(q)[1..] + [Eof]
    {
      if q == [] { return true, |active|; }
      var item := q[0];
      q := q[1..];
      if item.Eof? {
        q := q + [Eof];
        return false, |active|;
      }
      k := Dispatch(item.frame);
      more := true;
    }

    /** Feed every upload, then handle at most one queued frame. `was` is the value of each request before. */
    method Pump(ghost was: seq<Stream>) returns (more: bool, ghost k: nat)
      requires Valid() && FedUpTo(was, 0)
      modifies active, `wire, `q
      ensures var h := Handled(old(q));
        && (forall j | 0 <= j < |active| ::
              active[j].View() == Handed(p, active[j].rid, Feed(p, active[j].rid, was[j]).0, h).0)
        && (k < |active| ==> h.Some? && active[k].rid == h.value.id)
        && wire == old(wire) + Written(FeedWire(p, active, was, |active|)) + Written(
             if k < |active| then OnFrame(p, Feed(p, active[k].rid, was[k]).0, h.value).1 else [])
      ensures more <==> (old(q) == [] || old(q)[0].Item?)
      ensures q == if old(q) == [] then [] else if more then old(q)[1..] else old(q)[1..] + [Eof]
    {
      FeedActive(was);
      more, k := TakeOne();
    }
  }
}
