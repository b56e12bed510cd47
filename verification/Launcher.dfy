/** Any number of `open` and `stop` commands at once: the lock, the pid file, the children and the port. Every event
    is one step of one of them, or of the world around them. */
module Launcher {
  import opened Text

  type Pid = nat

  // ---- the world -------------------------------------------------------------------------------------------------

  /** Who listens on the console's port: a console of this user, another user's process, or anything else. */
  datatype Owner = Ours(pid: Pid) | OtherUsers | Stranger

  datatype Port = Free | Taken(owner: Owner, healthy: bool)

  datatype Answer = Console | OtherUser | Foreign | Down

  /** What an `open` that left the lock had found: the console `server`, a refusal, a start that failed, one that
      succeeded, or a child that had exited while `server` answered. */
  datatype Result =
    | Found(server: Pid)
    | Refused
    | Failed(tried: Option<Pid>)
    | Started(child: Pid, server: Pid)
    | Lost(child: Pid, server: Pid)

  /** Where an `open` is. `fd` is the pid file it opened, `server` the console whose answer ended its wait. */
  datatype Open =
    | Waiting
    | Locked
    | Opening
    | Spawning(fd: nat)
    | Truncating(fd: nat, child: Pid)
    | Writing(fd: nat, child: Pid)
    | Checking(fd: nat, child: Pid)
    | Polling(fd: nat, child: Pid)
    | Deciding(fd: nat, child: Pid)
    | Terminating(fd: nat, child: Pid)
    | Answered(fd: nat, child: Pid, server: Pid)
    | Removing(fd: nat, child: Pid, server: Pid)
    | Leaving(result: Result)
    | Browsing(result: Result)
    | Finished(result: Result, browser: bool)

  datatype Stop =
    | Reading
    | Opened(fd: nat)
    | Looking(pid: Pid)
    | Signalling(pid: Pid)
    | Ending(pid: Pid)
    | Forgetting(pid: Pid, ok: bool)
    | Stopped(pid: Pid)
    | NotStopped

  /** `files` are the contents of all pid files ever made; `pidFile` is the one in the directory, if any. Pids below
      `next` were given to the consoles of this user, those in `launched` by an `open`; those in `strangers` belong to
      other programs by now. */
  datatype World = World(
    lock: Option<nat>, opens: seq<Open>, stops: seq<Stop>,
    pidFile: Option<nat>, files: seq<Option<Pid>>,
    next: Pid, alive: set<Pid>, launched: set<Pid>, port: Port, strangers: set<Pid>)

  const START := World(None, [], [], None, [], 0, {}, {}, Free, {})

  datatype Event =
    | Arrive
    | Lock(i: nat)
    | Check(i: nat, seen: Answer)
    | OpenFile(i: nat, ok: bool)
    | Spawn(i: nat, ok: bool)
    | Truncate(i: nat)
    | Write(i: nat)
    | Poll(i: nat)
    | Deadline(i: nat, passed: bool)
    | Terminate(i: nat)
    | RemoveFile(i: nat)
    | Unlock(i: nat)
    | Browse(i: nat, ok: bool)
    | StopArrives
    | StopOpens(j: nat)
    | StopReads(j: nat)
    | StopLooks(j: nat)
    | StopSignals(j: nat)
    | StopPolls(j: nat)
    | StopGivesUp(j: nat)
    | StopRemoves(j: nat)
    | Outside
    | Exits(pid: Pid)
    | Recycles(pid: Pid)
    | StrangerExits(pid: Pid)
    | Binds(owner: Owner)
    | GetsHealthy
    | Leaves

  // ---- one step --------------------------------------------------------------------------------------------------

  predicate Live(w: World, pid: Pid) { pid in w.alive }

  /** What runs under a pid: a console of this user, another program, or nothing. */
  datatype Program = OwnConsole | Another | Nothing

  function ProgramOf(w: World, pid: Pid): Program {
    if Live(w, pid) then OwnConsole else if pid in w.strangers then Another else Nothing
  }

  /** What a check of the port may see. */
  predicate MaySee(w: World, seen: Answer) {
    match w.port
    case Free => seen.Down?
    case Taken(Ours(_), healthy) => if healthy then seen.Console? else seen.Down? || seen.Foreign?
    case Taken(OtherUsers, healthy) => seen.Down? || seen.Foreign? || (healthy && seen.OtherUser?)
    case Taken(Stranger, _) => seen.Down? || seen.Foreign?
  }

  predicate IsOpen(w: World, i: nat) { i < |w.opens| }

  predicate IsStop(w: World, j: nat) { j < |w.stops| }

  predicate Can(w: World, e: Event) {
    match e
    case Arrive => true
    case Lock(i) => IsOpen(w, i) && w.opens[i].Waiting? && w.lock == None
    case Check(i, seen) => IsOpen(w, i) && (w.opens[i].Locked? || w.opens[i].Checking?) && MaySee(w, seen)
    case OpenFile(i, _) => IsOpen(w, i) && w.opens[i].Opening?
    case Spawn(i, _) => IsOpen(w, i) && w.opens[i].Spawning?
    case Truncate(i) => IsOpen(w, i) && w.opens[i].Truncating? && w.opens[i].fd < |w.files|
    case Write(i) => IsOpen(w, i) && w.opens[i].Writing? && w.opens[i].fd < |w.files|
    case Poll(i) => IsOpen(w, i) && (w.opens[i].Polling? || w.opens[i].Answered?)
    case Deadline(i, _) => IsOpen(w, i) && w.opens[i].Deciding?
    case Terminate(i) => IsOpen(w, i) && w.opens[i].Terminating?
    case RemoveFile(i) => IsOpen(w, i) && w.opens[i].Removing?
    case Unlock(i) => IsOpen(w, i) && w.opens[i].Leaving?
    case Browse(i, _) => IsOpen(w, i) && w.opens[i].Browsing?
    case StopArrives => true
    case StopOpens(j) => IsStop(w, j) && w.stops[j].Reading?
    case StopReads(j) => IsStop(w, j) && w.stops[j].Opened?
    case StopLooks(j) => IsStop(w, j) && w.stops[j].Looking?
    case StopSignals(j) => IsStop(w, j) && w.stops[j].Signalling?
    case StopPolls(j) => IsStop(w, j) && w.stops[j].Ending?
    case StopGivesUp(j) => IsStop(w, j) && w.stops[j].Ending?
    case StopRemoves(j) => IsStop(w, j) && w.stops[j].Forgetting?
    case Outside => true
    case Exits(pid) => Live(w, pid)
    case Recycles(pid) => pid < w.next && ProgramOf(w, pid).Nothing?
    case StrangerExits(pid) => ProgramOf(w, pid).Another?
    case Binds(owner) => w.port.Free? && (owner.Ours? ==> Live(w, owner.pid))
    case GetsHealthy => w.port.Taken?
    case Leaves => w.port.Taken? && !w.port.owner.Ours?
  }

  function Without(w: World, pid: Pid): World {
    w.(alive := w.alive - {pid}, port := if w.port.Taken? && w.port.owner == Ours(pid) then Free else w.port)
  }

  /** What the `open` at `pc` does next, given what its step sees: the answer, whether its child lives, and so on. */
  function AfterCheck(w: World, pc: Open, seen: Answer, wildcard: bool): Open
    requires (pc.Locked? || pc.Checking?) && MaySee(w, seen)
  {
    if pc.Locked? then
      match seen
      case Console => Leaving(Found(w.port.owner.pid))
      case Down => if wildcard then Leaving(Refused) else Opening
      case _ => Leaving(Refused)
    else
      match seen
      case Console => Answered(pc.fd, pc.child, w.port.owner.pid)
      case OtherUser => Terminating(pc.fd, pc.child)
      case _ => Polling(pc.fd, pc.child)
  }

  function AfterPoll(w: World, pc: Open): Open
    requires pc.Polling? || pc.Answered?
  {
    if pc.Polling? then
      if Live(w, pc.child) then Deciding(pc.fd, pc.child) else Leaving(Failed(Some(pc.child)))
    else
      if Live(w, pc.child) then Leaving(Started(pc.child, pc.server)) else Removing(pc.fd, pc.child, pc.server)
  }

  function After(w: World, e: Event, wildcard: bool): World
    requires Can(w, e)
  {
    match e
    case Arrive => w.(opens := w.opens + [Waiting])
    case Lock(i) => w.(lock := Some(i), opens := w.opens[i := Locked])
    case Check(i, seen) => w.(opens := w.opens[i := AfterCheck(w, w.opens[i], seen, wildcard)])
    case OpenFile(i, ok) =>
      if !ok then w.(opens := w.opens[i := Leaving(Failed(None))])
      else if w.pidFile.Some? then w.(opens := w.opens[i := Spawning(w.pidFile.value)])
      else w.(opens := w.opens[i := Spawning(|w.files|)], pidFile := Some(|w.files|), files := w.files + [None])
    case Spawn(i, ok) =>
      if !ok then w.(opens := w.opens[i := Leaving(Failed(None))])
      else w.(opens := w.opens[i := Truncating(w.opens[i].fd, w.next)], next := w.next + 1,
              alive := w.alive + {w.next}, launched := w.launched + {w.next})
    case Truncate(i) =>
      var pc := w.opens[i];
      w.(opens := w.opens[i := Writing(pc.fd, pc.child)], files := w.files[pc.fd := None])
    case Write(i) =>
      var pc := w.opens[i];
      w.(opens := w.opens[i := Checking(pc.fd, pc.child)], files := w.files[pc.fd := Some(pc.child)])
    case Poll(i) => w.(opens := w.opens[i := AfterPoll(w, w.opens[i])])
    case Deadline(i, passed) =>
      var pc := w.opens[i];
      w.(opens := w.opens[i := if passed then Terminating(pc.fd, pc.child) else Checking(pc.fd, pc.child)])
    case Terminate(i) =>
      var child := w.opens[i].child;
      Without(w, child).(opens := w.opens[i := Leaving(Failed(Some(child)))])
    case RemoveFile(i) =>
      var pc := w.opens[i];
      w.(opens := w.opens[i := Leaving(Lost(pc.child, pc.server))], pidFile := None)
    case Unlock(i) =>
      var r := w.opens[i].result;
      w.(lock := None, opens := w.opens[i := if r.Refused? || r.Failed? then Finished(r, false) else Browsing(r)])
    case Browse(i, ok) => w.(opens := w.opens[i := Finished(w.opens[i].result, ok)])
    case StopArrives => w.(stops := w.stops + [Reading])
    case StopOpens(j) =>
      w.(stops := w.stops[j := match w.pidFile case None => NotStopped case Some(f) => Opened(f)])
    case StopReads(j) =>
      var fd := w.stops[j].fd;
      w.(stops := w.stops[j := if fd < |w.files| && w.files[fd].Some? then Looking(w.files[fd].value) else NotStopped])
    case StopLooks(j) =>
      var pid := w.stops[j].pid;
      w.(stops := w.stops[j := if ProgramOf(w, pid).OwnConsole? then Signalling(pid) else Forgetting(pid, false)])
    case StopSignals(j) => w.(stops := w.stops[j := Ending(w.stops[j].pid)])
    case StopPolls(j) =>
      var pid := w.stops[j].pid;
      w.(stops := w.stops[j := if ProgramOf(w, pid).Nothing? then Forgetting(pid, true) else Ending(pid)])
    case StopGivesUp(j) => w.(stops := w.stops[j := NotStopped])
    case StopRemoves(j) =>
      var pc := w.stops[j];
      w.(stops := w.stops[j := if pc.ok then Stopped(pc.pid) else NotStopped], pidFile := None)
    case Outside => w.(next := w.next + 1, alive := w.alive + {w.next})
    case Exits(pid) => Without(w, pid)
    case Recycles(pid) => w.(strangers := w.strangers + {pid})
    case StrangerExits(pid) => w.(strangers := w.strangers - {pid})
    case Binds(owner) => w.(port := Taken(owner, false))
    case GetsHealthy => w.(port := Taken(w.port.owner, true))
    case Leaves => w.(port := Free)
  }

  /** The events may happen one after the other from `w`. */
  predicate Runs(w: World, es: seq<Event>, wildcard: bool)
    decreases |es|
  {
    es == [] || (Can(w, es[0]) && Runs(After(w, es[0], wildcard), es[1..], wildcard))
  }

  function End(w: World, es: seq<Event>, wildcard: bool): World
    requires Runs(w, es, wildcard)
    decreases |es|
  {
    if es == [] then w else End(After(w, es[0], wildcard), es[1..], wildcard)
  }

  // ---- what every run keeps --------------------------------------------------------------------------------------

  /** It is inside the lock. */
  predicate Holds(pc: Open) { !pc.Waiting? && !pc.Browsing? && !pc.Finished? }

  /** It has a child and waits for a console to answer. */
  predicate Starting(pc: Open) {
    pc.Truncating? || pc.Writing? || pc.Checking? || pc.Polling? || pc.Deciding? || pc.Terminating? || pc.Answered?
  }

  /** The pid file in the directory is the one opened, or was removed. */
  predicate Mine(w: World, fd: nat) { fd < |w.files| && (w.pidFile == None || w.pidFile == Some(fd)) }

  /** The pid file names the child, or was removed. */
  predicate Named(w: World, child: Pid) {
    w.pidFile.Some? ==> w.pidFile.value < |w.files| && w.files[w.pidFile.value] == Some(child)
  }

  predicate Recorded(w: World, fd: nat, child: Pid) { Mine(w, fd) && w.files[fd] == Some(child) }

  /** The console that answered still does, unless it has exited. */
  predicate Served(w: World, pid: Pid) { pid < w.next && (Live(w, pid) ==> w.port == Taken(Ours(pid), true)) }

  predicate Dead(w: World, pid: Pid) { pid < w.next && !Live(w, pid) }

  predicate ResultOk(w: World, r: Result) {
    match r
    case Found(pid) => Served(w, pid)
    case Refused => true
    case Failed(child) => child.Some? ==> Dead(w, child.value)
    case Started(child, pid) => child < w.next && Served(w, pid)
    case Lost(child, pid) => Dead(w, child) && Served(w, pid)
  }

  /** A console was found, one way or the other. */
  predicate HasConsole(r: Result) { !r.Refused? && !r.Failed? }

  predicate OpenOk(w: World, pc: Open) {
    match pc
    case Waiting => true
    case Locked => true
    case Opening => true
    case Spawning(fd) => Mine(w, fd)
    case Truncating(fd, child) => Mine(w, fd) && child < w.next
    case Writing(fd, child) => Mine(w, fd) && child < w.next && w.files[fd] == None
    case Checking(fd, child) => Recorded(w, fd, child) && child < w.next
    case Polling(fd, child) => Recorded(w, fd, child) && child < w.next
    case Deciding(fd, child) => Recorded(w, fd, child) && child < w.next
    case Terminating(fd, child) => Recorded(w, fd, child) && child < w.next
    case Answered(fd, child, pid) => Recorded(w, fd, child) && child < w.next && Served(w, pid)
    case Removing(fd, child, pid) => Recorded(w, fd, child) && Dead(w, child) && Served(w, pid)
    case Leaving(r) =>
      && ResultOk(w, r)
      && (r.Started? ==> Named(w, r.child))
      && (r.Lost? ==> w.pidFile == None)
    case Browsing(r) => ResultOk(w, r) && HasConsole(r)
    case Finished(r, browser) => ResultOk(w, r) && (browser ==> HasConsole(r))
  }

  predicate StopOk(w: World, pc: Stop) {
    match pc
    case Looking(pid) => pid in w.launched
    case Signalling(pid) => pid in w.launched
    case Ending(pid) => pid in w.launched
    case Forgetting(pid, ok) => pid in w.launched && Dead(w, pid)
    case Stopped(pid) => pid in w.launched && Dead(w, pid)
    case _ => true
  }

  /** Pids, files and port make sense. */
  predicate Sane(w: World) {
    && (forall p | p in w.alive :: p < w.next) && (forall p | p in w.launched :: p < w.next)
    && (forall p | p in w.strangers :: p < w.next && !Live(w, p))
    && (w.port.Taken? && w.port.owner.Ours? ==> Live(w, w.port.owner.pid))
    && (w.pidFile.Some? ==> w.pidFile.value < |w.files|)
    && (forall f | 0 <= f < |w.files| && w.files[f].Some? :: w.files[f].value in w.launched)
  }

  predicate Excluded(w: World) {
    forall i | 0 <= i < |w.opens| && Holds(w.opens[i]) :: w.lock == Some(i)
  }

  predicate LockHeld(w: World) { w.lock.Some? ==> IsOpen(w, w.lock.value) && Holds(w.opens[w.lock.value]) }

  predicate Children(w: World) {
    forall i | 0 <= i < |w.opens| && (w.opens[i].Truncating? || w.opens[i].Writing?) :: w.opens[i].child in w.launched
  }

  ghost predicate Inv(w: World) {
    && Sane(w) && Excluded(w) && LockHeld(w) && Children(w)
    && (forall i | 0 <= i < |w.opens| :: OpenOk(w, w.opens[i]))
    && (forall j | 0 <= j < |w.stops| :: StopOk(w, w.stops[j]))
  }

  // ---- one step keeps it -----------------------------------------------------------------------------------------

  /** Old consoles only exit, and one that answers goes on doing so. */
  ghost predicate Ages(w: World, v: World) {
    && w.next <= v.next && w.launched <= v.launched
    && (forall p: Pid | p < w.next && Live(v, p) :: Live(w, p) && (w.port == Taken(Ours(p), true) ==> v.port == w.port))
  }

  predicate FilesStay(w: World, v: World) { v.files == w.files && (v.pidFile == None || v.pidFile == w.pidFile) }

  lemma OutsiderStays(w: World, v: World, pc: Open)
    requires OpenOk(w, pc) && Ages(w, v) && !Holds(pc)
    ensures OpenOk(v, pc)
  {
  }

  lemma OpenStays(w: World, v: World, pc: Open)
    requires OpenOk(w, pc) && Ages(w, v) && FilesStay(w, v)
    ensures OpenOk(v, pc)
  {
  }

  lemma StopStays(w: World, v: World, pc: Stop)
    requires StopOk(w, pc) && Ages(w, v)
    ensures StopOk(v, pc)
  {
  }

  /** The event is a step of the `open` number `i`. */
  predicate IsOf(e: Event, i: nat) {
    match e
    case Lock(k) => k == i
    case Check(k, _) => k == i
    case OpenFile(k, _) => k == i
    case Spawn(k, _) => k == i
    case Truncate(k) => k == i
    case Write(k) => k == i
    case Poll(k) => k == i
    case Deadline(k, _) => k == i
    case Terminate(k) => k == i
    case RemoveFile(k) => k == i
    case Unlock(k) => k == i
    case Browse(k, _) => k == i
    case _ => false
  }

  lemma SaneOpenStep(w: World, e: Event, wildcard: bool, i: nat)
    requires Inv(w) && Can(w, e) && IsOf(e, i)
    ensures Sane(After(w, e, wildcard))
  {
  }

  predicate OfStop(e: Event) {
    e.StopArrives? || e.StopOpens? || e.StopReads? || e.StopLooks? || e.StopSignals? || e.StopPolls? ||
    e.StopGivesUp? || e.StopRemoves?
  }

  /** A step of the world, or a new `open`. */
  predicate OfWorld(e: Event) {
    e.Arrive? || e.Outside? || e.Exits? || e.Recycles? || e.StrangerExits? || e.Binds? || e.GetsHealthy? || e.Leaves?
  }

  lemma SaneWorldStep(w: World, e: Event, wildcard: bool)
    requires Inv(w) && Can(w, e) && OfWorld(e)
    ensures Sane(After(w, e, wildcard))
  {
  }

  lemma AgesStep(w: World, e: Event, wildcard: bool)
    requires Inv(w) && Can(w, e)
    ensures Ages(w, After(w, e, wildcard))
  {
  }

  /** What the step of an `open` makes of it. */
  lemma OwnStep(w: World, e: Event, wildcard: bool, i: nat)
    requires Inv(w) && Can(w, e) && IsOf(e, i)
    ensures var v := After(w, e, wildcard); IsOpen(w, i) && |v.opens| == |w.opens| && OpenOk(v, v.opens[i])
  {
    assert OpenOk(w, w.opens[i]);
  }

  /** The step of an `open` and the others, which are outside the lock. */
  lemma OpenStep(w: World, e: Event, wildcard: bool, i: nat)
    requires Inv(w) && Can(w, e) && IsOf(e, i)
    ensures Inv(After(w, e, wildcard))
  {
    var v := After(w, e, wildcard);
    SaneOpenStep(w, e, wildcard, i);
    AgesStep(w, e, wildcard);
    LockStep(w, e, wildcard, i);
    ChildrenStep(w, e, wildcard, i);
    OwnStep(w, e, wildcard, i);
    forall k | 0 <= k < |v.opens| ensures OpenOk(v, v.opens[k]) {
      if k != i {
        OtherOpen(w, e, wildcard, i, k);
        if Holds(w.opens[k]) { OpenStays(w, v, w.opens[k]); } else { OutsiderStays(w, v, w.opens[k]); }
      }
    }
    forall j | 0 <= j < |v.stops| ensures StopOk(v, v.stops[j]) { StopStays(w, v, w.stops[j]); }
  }

  lemma LockStep(w: World, e: Event, wildcard: bool, i: nat)
    requires Inv(w) && Can(w, e) && IsOf(e, i)
    ensures var v := After(w, e, wildcard); Excluded(v) && LockHeld(v) && v.stops == w.stops
  {
  }

  lemma ChildrenStep(w: World, e: Event, wildcard: bool, i: nat)
    requires Inv(w) && Can(w, e) && IsOf(e, i)
    ensures Children(After(w, e, wildcard))
  {
  }

  lemma OtherOpen(w: World, e: Event, wildcard: bool, i: nat, k: nat)
    requires Inv(w) && Can(w, e) && IsOf(e, i) && k != i && k < |w.opens|
    ensures var v := After(w, e, wildcard);
      |v.opens| == |w.opens| && v.opens[k] == w.opens[k] && (Holds(w.opens[k]) ==> FilesStay(w, v))
  {
  }

  lemma StopStep(w: World, e: Event, wildcard: bool)
    requires Inv(w) && Can(w, e) && OfStop(e)
    ensures Inv(After(w, e, wildcard))
  {
    var v := After(w, e, wildcard);
    AgesStep(w, e, wildcard);
    forall k | 0 <= k < |v.opens| ensures OpenOk(v, v.opens[k]) { OpenStays(w, v, w.opens[k]); }
    forall j | 0 <= j < |v.stops| ensures StopOk(v, v.stops[j]) {
      if j < |w.stops| { StopStays(w, v, w.stops[j]); }
    }
  }

  lemma WorldStep(w: World, e: Event, wildcard: bool)
    requires Inv(w) && Can(w, e) && OfWorld(e)
    ensures Inv(After(w, e, wildcard))
  {
    var v := After(w, e, wildcard);
    SaneWorldStep(w, e, wildcard);
    AgesStep(w, e, wildcard);
    forall k | 0 <= k < |v.opens| ensures OpenOk(v, v.opens[k]) {
      if k < |w.opens| { OpenStays(w, v, w.opens[k]); }
    }
    forall j | 0 <= j < |v.stops| ensures StopOk(v, v.stops[j]) { StopStays(w, v, w.stops[j]); }
  }

  lemma StepKeepsInv(w: World, e: Event, wildcard: bool)
    requires Inv(w) && Can(w, e)
    ensures Inv(After(w, e, wildcard))
  {
    if OfStop(e) {
      StopStep(w, e, wildcard);
    } else if OfWorld(e) {
      WorldStep(w, e, wildcard);
    } else {
      OpenStep(w, e, wildcard, e.i);
    }
  }

  /** Whatever the interleaving. */
  lemma {:induction false} RunKeepsInv(w: World, es: seq<Event>, wildcard: bool)
    requires Inv(w) && Runs(w, es, wildcard)
    ensures Inv(End(w, es, wildcard))
    decreases |es|
  {
    if es != [] {
      StepKeepsInv(w, es[0], wildcard);
      RunKeepsInv(After(w, es[0], wildcard), es[1..], wildcard);
    }
  }

  // ---- what the users are promised -------------------------------------------------------------------------------

  /** The child of an `open` that started one. */
  function ChildOf(r: Result): Option<Pid> {
    match r
    case Failed(c) => c
    case Started(c, _) => Some(c)
    case Lost(c, _) => Some(c)
    case _ => None
  }

  /** The exit status of a finished `open`. */
  predicate Succeeded(pc: Open) { pc.Finished? && !pc.result.Refused? && !pc.result.Failed? && pc.browser }

  /** At most one `open` has a child and waits for a console. */
  predicate OneStart(w: World) {
    forall i, j | 0 <= i < |w.opens| && 0 <= j < |w.opens| && Starting(w.opens[i]) && Starting(w.opens[j]) :: i == j
  }

  /** From the moment the pid file is emptied it names nobody, and then the child. */
  predicate NamesChild(w: World, pc: Open) {
    && (pc.Writing? && w.pidFile.Some? ==> w.pidFile.value < |w.files| && w.files[w.pidFile.value] == None)
    && (pc.Checking? || pc.Polling? || pc.Deciding? || pc.Terminating? || pc.Answered? ==> Named(w, pc.child))
  }

  /** No browser is opened for a refusal or a start that failed. */
  predicate BrowserOk(pc: Open) {
    pc.Browsing? || (pc.Finished? && pc.browser) ==>
      pc.result.Found? || pc.result.Started? || pc.result.Lost?
  }

  /** A start that failed left no child; one that succeeded found a console that answers until it exits; a child
      found dead is dead. */
  predicate OpenKept(w: World, pc: Open) {
    pc.Finished? ==>
      match pc.result
      case Failed(c) => c.Some? ==> Dead(w, c.value)
      case Started(_, server) => Served(w, server)
      case Lost(c, server) => Dead(w, c) && Served(w, server)
      case Found(server) => Served(w, server)
      case Refused => true
  }

  /** None but a console that some `open` had started is signalled; after a success it has exited. */
  predicate StopKept(w: World, pc: Stop) {
    (pc.Signalling? || pc.Stopped? ==> pc.pid in w.launched) && (pc.Stopped? ==> Dead(w, pc.pid))
  }

  /** Over every run. */
  lemma RunsAreSafe(es: seq<Event>, wildcard: bool)
    requires Runs(START, es, wildcard)
    ensures var w := End(START, es, wildcard);
      && OneStart(w)
      && (forall i | 0 <= i < |w.opens| ::
            OpenKept(w, w.opens[i]) && NamesChild(w, w.opens[i]) && BrowserOk(w.opens[i]))
      && (forall j | 0 <= j < |w.stops| :: StopKept(w, w.stops[j]))
  {
    RunKeepsInv(START, es, wildcard);
    var w := End(START, es, wildcard);
    Kept(w);
  }

  lemma Kept(w: World)
    requires Inv(w)
    ensures OneStart(w)
    ensures forall i | 0 <= i < |w.opens| ::
      OpenKept(w, w.opens[i]) && NamesChild(w, w.opens[i]) && BrowserOk(w.opens[i])
    ensures forall j | 0 <= j < |w.stops| :: StopKept(w, w.stops[j])
  {
    forall i | 0 <= i < |w.opens|
      ensures OpenKept(w, w.opens[i]) && NamesChild(w, w.opens[i]) && BrowserOk(w.opens[i])
    {
      assert OpenOk(w, w.opens[i]);
    }
    forall j | 0 <= j < |w.stops| ensures StopKept(w, w.stops[j]) { assert StopOk(w, w.stops[j]); }
  }

  /** When an `open` comes to leave the lock after a start that succeeded, its child is alive, the pid file names it
      or is gone, and the console answers; when it found its child dead, the pid file is gone and another console
      answers. */
  lemma SuccessIsRecorded(es: seq<Event>, wildcard: bool, e: Event, i: nat)
    requires Runs(START, es, wildcard) && Can(End(START, es, wildcard), e)
    requires IsOpen(End(START, es, wildcard), i) && !End(START, es, wildcard).opens[i].Leaving?
    requires After(End(START, es, wildcard), e, wildcard).opens[i].Leaving?
    ensures var v := After(End(START, es, wildcard), e, wildcard);
      match v.opens[i].result
      case Started(c, server) => Live(v, c) && Named(v, c) && Served(v, server)
      case Lost(c, server) => Dead(v, c) && v.pidFile == None && Served(v, server)
      case Found(server) => Live(v, server) && Served(v, server)
      case Failed(c) => c.Some? ==> Dead(v, c.value)
      case Refused => true
  {
    RunKeepsInv(START, es, wildcard);
    ComesToLeave(End(START, es, wildcard), e, wildcard, i);
  }

  lemma ComesToLeave(w: World, e: Event, wildcard: bool, i: nat)
    requires Inv(w) && Can(w, e) && IsOpen(w, i) && !w.opens[i].Leaving? && After(w, e, wildcard).opens[i].Leaving?
    ensures var v := After(w, e, wildcard);
      && OpenOk(v, v.opens[i])
      && (v.opens[i].result.Started? ==> Live(v, v.opens[i].result.child))
      && (v.opens[i].result.Found? ==> Live(v, v.opens[i].result.server))
  {
    assert IsOf(e, i);
    OwnStep(w, e, wildcard, i);
  }

  /** From then until it has left the lock, the pid file goes on naming the child or is gone. */
  lemma LeavesRecorded(es: seq<Event>, wildcard: bool, i: nat)
    requires Runs(START, es, wildcard) && Can(End(START, es, wildcard), Unlock(i))
    ensures var w := End(START, es, wildcard);
      && (w.opens[i].result.Started? ==> Named(w, w.opens[i].result.child) && Served(w, w.opens[i].result.server))
      && (w.opens[i].result.Lost? ==> w.pidFile == None)
  {
    RunKeepsInv(START, es, wildcard);
    var w := End(START, es, wildcard);
    assert OpenOk(w, w.opens[i]);
  }

  lemma Removes(w: World, wildcard: bool, j: nat)
    requires Inv(w) && Can(w, StopRemoves(j))
    ensures var v := After(w, StopRemoves(j), wildcard);
      && Dead(w, w.stops[j].pid) && v.pidFile == None && !Live(v, w.stops[j].pid) && v.next == w.next
      && (v.stops[j].Stopped? ==> v.stops[j].pid == w.stops[j].pid)
  {
    assert StopOk(w, w.stops[j]);
  }

  lemma OnlyRemoves(w: World, e: Event, wildcard: bool, j: nat)
    requires Can(w, e) && IsStop(w, j) && !w.stops[j].Stopped? && After(w, e, wildcard).stops[j].Stopped?
    ensures e == StopRemoves(j)
  {
  }

  /** It comes to remove the file after a signal only when nothing runs under the pid. */
  lemma OnlyWhenNothing(w: World, e: Event, wildcard: bool, j: nat)
    requires Can(w, e) && IsStop(w, j) && w.stops[j].Ending? && After(w, e, wildcard).stops[j].Forgetting?
    ensures ProgramOf(w, w.stops[j].pid).Nothing?
  {
  }

  /** A `stop` removes the pid file only when the console it had read in it has exited, after a signal when nothing runs
      under the pid any more; and when it comes to report success, the file is gone. */
  lemma StopRemovesDead(es: seq<Event>, wildcard: bool, e: Event, j: nat)
    requires Runs(START, es, wildcard) && Can(End(START, es, wildcard), e)
    requires IsStop(End(START, es, wildcard), j)
    ensures var w := End(START, es, wildcard); var v := After(w, e, wildcard);
      && (e == StopRemoves(j) ==> Dead(w, w.stops[j].pid) && v.pidFile == None)
      && (w.stops[j].Ending? && v.stops[j].Forgetting? ==> ProgramOf(w, w.stops[j].pid).Nothing?)
      && (v.stops[j].Stopped? && !w.stops[j].Stopped? ==> Dead(v, v.stops[j].pid) && v.pidFile == None)
  {
    RunKeepsInv(START, es, wildcard);
    var w := End(START, es, wildcard);
    if After(w, e, wildcard).stops[j].Stopped? && !w.stops[j].Stopped? { OnlyRemoves(w, e, wildcard, j); }
    if e == StopRemoves(j) { Removes(w, wildcard, j); }
    if w.stops[j].Ending? && After(w, e, wildcard).stops[j].Forgetting? { OnlyWhenNothing(w, e, wildcard, j); }
  }

  /** It has started nothing and will not, unless it sees nobody on the port. */
  predicate Idle(pc: Open) {
    pc.Waiting? || pc.Locked? ||
    ((pc.Leaving? || pc.Browsing? || pc.Finished?) && (pc.result.Found? || pc.result.Refused?))
  }

  predicate AllIdle(w: World) { forall i | 0 <= i < |w.opens| :: Idle(w.opens[i]) }

  lemma StepStartsNothing(w: World, e: Event, wildcard: bool)
    requires Can(w, e) && AllIdle(w) && (wildcard || !e.Check? || e.seen != Down)
    ensures AllIdle(After(w, e, wildcard)) && After(w, e, wildcard).launched == w.launched
  {
  }

  lemma {:induction false} RunStartsNothing(w: World, es: seq<Event>, wildcard: bool)
    requires Runs(w, es, wildcard) && AllIdle(w) && (wildcard || forall e | e in es && e.Check? :: e.seen != Down)
    ensures AllIdle(End(w, es, wildcard)) && End(w, es, wildcard).launched == w.launched
    decreases |es|
  {
    if es != [] {
      StepStartsNothing(w, es[0], wildcard);
      RunStartsNothing(After(w, es[0], wildcard), es[1..], wildcard);
    }
  }

  /** With a host that binds every interface, or as long as somebody answers on the port, nothing is started, and every
      `open` that has left the lock found a console or was refused. */
  lemma NothingStarted(es: seq<Event>, wildcard: bool)
    requires Runs(START, es, wildcard) && (wildcard || forall e | e in es && e.Check? :: e.seen != Down)
    ensures AllIdle(End(START, es, wildcard)) && End(START, es, wildcard).launched == {}
  {
    RunStartsNothing(START, es, wildcard);
  }

  /** It is on its way to a refusal or a failure, or there. */
  predicate TurnedDown(pc: Open) {
    pc.Terminating? || ((pc.Leaving? || pc.Finished?) && (pc.result.Refused? || pc.result.Failed?))
  }

  predicate TurnsDown(e: Event, i: nat) { e == Check(i, OtherUser) || e == Deadline(i, true) }

  lemma StepTurnedDown(w: World, e: Event, wildcard: bool, i: nat)
    requires Can(w, e) && IsOpen(w, i)
    ensures IsOpen(After(w, e, wildcard), i)
    ensures TurnedDown(w.opens[i]) || TurnsDown(e, i) ==> TurnedDown(After(w, e, wildcard).opens[i])
  {
  }

  lemma {:induction false} RunTurnedDown(w: World, es: seq<Event>, wildcard: bool, i: nat)
    requires Runs(w, es, wildcard) && IsOpen(w, i)
    ensures IsOpen(End(w, es, wildcard), i)
    ensures TurnedDown(w.opens[i]) ==> TurnedDown(End(w, es, wildcard).opens[i])
    decreases |es|
  {
    if es != [] {
      StepTurnedDown(w, es[0], wildcard, i);
      RunTurnedDown(After(w, es[0], wildcard), es[1..], wildcard, i);
    }
  }

  /** An `open` that sees another user's console on the port, before a start or after it, or waits in vain, never
      succeeds, whatever happens later. */
  lemma TurnedDownForGood(before: seq<Event>, e: Event, after: seq<Event>, wildcard: bool, i: nat)
    requires Runs(START, before, wildcard) && Can(End(START, before, wildcard), e) && TurnsDown(e, i)
    requires Runs(After(End(START, before, wildcard), e, wildcard), after, wildcard)
    ensures var w := End(After(End(START, before, wildcard), e, wildcard), after, wildcard);
      IsOpen(w, i) && !Succeeded(w.opens[i]) && !w.opens[i].Browsing?
  {
    var w := End(START, before, wildcard);
    StepTurnedDown(w, e, wildcard, i);
    RunTurnedDown(After(w, e, wildcard), after, wildcard, i);
  }

  // ---- the failing case ------------------------------------------------------------------------------------------

  /** An `open` that reports an error after it started a child. */
  predicate FailedWithChild(pc: Open) { pc.Finished? && !Succeeded(pc) && ChildOf(pc.result).Some? }

  /** An `open` that comes to fail after it started a child leaves it alive exactly if it fails for want of a browser
      and the child was alive. */
  lemma FailsWithChild(w: World, e: Event, wildcard: bool, i: nat)
    requires Inv(w) && Can(w, e) && IsOpen(w, i) && !w.opens[i].Finished?
    requires FailedWithChild(After(w, e, wildcard).opens[i])
    ensures var v := After(w, e, wildcard); var child := ChildOf(v.opens[i].result).value;
      Live(v, child) <==> e == Browse(i, false) && Live(w, child)
  {
    assert OpenOk(w, w.opens[i]);
  }

  /** The `open` has not failed for want of a browser. */
  predicate Browsed(w: World, i: nat) {
    IsOpen(w, i) && FailedWithChild(w.opens[i]) ==> w.opens[i].result.Failed?
  }

  lemma StepBrowsed(w: World, e: Event, wildcard: bool, i: nat)
    requires Can(w, e) && Browsed(w, i) && e != Browse(i, false)
    ensures Browsed(After(w, e, wildcard), i)
  {
  }

  lemma {:induction false} RunBrowsed(w: World, es: seq<Event>, wildcard: bool, i: nat)
    requires Runs(w, es, wildcard) && Browsed(w, i) && Browse(i, false) !in es
    ensures Browsed(End(w, es, wildcard), i)
    decreases |es|
  {
    if es != [] {
      StepBrowsed(w, es[0], wildcard, i);
      RunBrowsed(After(w, es[0], wildcard), es[1..], wildcard, i);
    }
  }

  /** Where there is a browser to open, an `open` that fails after it started a child leaves it dead. */
  lemma FailureLeavesDead(es: seq<Event>, wildcard: bool, i: nat)
    requires Runs(START, es, wildcard) && IsOpen(End(START, es, wildcard), i) && Browse(i, false) !in es
    requires FailedWithChild(End(START, es, wildcard).opens[i])
    ensures var w := End(START, es, wildcard); Dead(w, ChildOf(w.opens[i].result).value)
  {
    RunKeepsInv(START, es, wildcard);
    RunBrowsed(START, es, wildcard, i);
    var w := End(START, es, wildcard);
    assert OpenOk(w, w.opens[i]);
  }

  /** After the check the `stop` has this pid until it ends. */
  predicate HasPid(pc: Stop, pid: Pid) {
    ((pc.Signalling? || pc.Ending? || pc.Forgetting? || pc.Stopped?) && pc.pid == pid) || pc.NotStopped?
  }

  lemma {:induction false} RunHasPid(w: World, es: seq<Event>, wildcard: bool, j: nat, pid: Pid)
    requires Runs(w, es, wildcard) && IsStop(w, j) && HasPid(w.stops[j], pid)
    ensures IsStop(End(w, es, wildcard), j) && HasPid(End(w, es, wildcard).stops[j], pid)
    decreases |es|
  {
    if es != [] { RunHasPid(After(w, es[0], wildcard), es[1..], wildcard, j, pid); }
  }

  /** Whether the pid is another program's after the events. */
  function Recycled(es: seq<Event>, pid: Pid, was: bool): bool
    decreases |es|
  {
    if es == [] then was
    else Recycled(es[1..], pid, es[0] == Recycles(pid) || (es[0] != StrangerExits(pid) && was))
  }

  lemma {:induction false} RunRecycles(w: World, es: seq<Event>, wildcard: bool, pid: Pid)
    requires Runs(w, es, wildcard)
    ensures pid in End(w, es, wildcard).strangers <==> Recycled(es, pid, pid in w.strangers)
    decreases |es|
  {
    if es != [] { RunRecycles(After(w, es[0], wildcard), es[1..], wildcard, pid); }
  }

  /** A `stop` comes to signal only what it has just seen to be a console that some `open` had started; and it signals
      another program exactly if the pid was given to one between the check and the signal. */
  lemma SignalsStranger(before: seq<Event>, after: seq<Event>, wildcard: bool, j: nat)
    requires Runs(START, before, wildcard) && Can(End(START, before, wildcard), StopLooks(j))
    requires Runs(After(End(START, before, wildcard), StopLooks(j), wildcard), after, wildcard)
    requires Can(End(After(End(START, before, wildcard), StopLooks(j), wildcard), after, wildcard), StopSignals(j))
    ensures var w := End(START, before, wildcard); var pid := w.stops[j].pid;
      var v := End(After(w, StopLooks(j), wildcard), after, wildcard);
      && ProgramOf(w, pid).OwnConsole? && pid in w.launched && v.stops[j].pid == pid
      && (ProgramOf(v, pid).Another? <==> Recycled(after, pid, false))
  {
    var w := End(START, before, wildcard);
    var pid, u := w.stops[j].pid, After(w, StopLooks(j), wildcard);
    RunKeepsInv(START, before, wildcard);
    assert StopOk(w, w.stops[j]);
    StepKeepsInv(w, StopLooks(j), wildcard);
    RunKeepsInv(u, after, wildcard);
    if u.stops[j].Signalling? { RunHasPid(u, after, wildcard, j, pid); } else { NeverSignals(u, after, wildcard, j); }
    RunRecycles(u, after, wildcard, pid);
  }

  /** A `stop` that turned its pid down does not signal it. */
  lemma {:induction false} NeverSignals(w: World, es: seq<Event>, wildcard: bool, j: nat)
    requires Runs(w, es, wildcard) && IsStop(w, j)
    requires w.stops[j].Forgetting? || w.stops[j].Stopped? || w.stops[j].NotStopped?
    ensures var v := End(w, es, wildcard); IsStop(v, j) && !v.stops[j].Signalling?
    decreases |es|
  {
    if es != [] { NeverSignals(After(w, es[0], wildcard), es[1..], wildcard, j); }
  }

  ghost predicate Reaches(w: World, v: World) { exists es :: Runs(w, es, false) && End(w, es, false) == v }

  lemma {:induction false} RunSnoc(w: World, es: seq<Event>, e: Event)
    requires Runs(w, es, false) && Can(End(w, es, false), e)
    ensures Runs(w, es + [e], false) && End(w, es + [e], false) == After(End(w, es, false), e, false)
    decreases |es|
  {
    if es == [] {
      assert [e][1..] == [] && [] + [e] == [e];
    } else {
      assert (es + [e])[1..] == es[1..] + [e];
      RunSnoc(After(w, es[0], false), es[1..], e);
    }
  }

  lemma Step(w: World, v: World, e: Event, u: World)
    requires Reaches(w, v) && Can(v, e) && u == After(v, e, false)
    ensures Reaches(w, u)
  {
    var es :| Runs(w, es, false) && End(w, es, false) == v;
    RunSnoc(w, es, e);
  }

  /** One `open`, its child spawned and recorded. */
  function Recording(port: Port, pc: Open): World {
    World(Some(0), [pc], [], Some(0), [Some(0)], 1, {0}, {0}, port, {})
  }

  function Beginning(lock: Option<nat>, pc: Open): World { START.(lock := lock, opens := [pc]) }

  lemma OpeningReached()
    ensures Reaches(START, Beginning(Some(0), Opening))
  {
    assert Runs(START, [], false) && End(START, [], false) == START;
    Step(START, START, Arrive, Beginning(None, Waiting));
    Step(START, Beginning(None, Waiting), Lock(0), Beginning(Some(0), Locked));
    Step(START, Beginning(Some(0), Locked), Check(0, Down), Beginning(Some(0), Opening));
  }

  lemma ChildRecorded()
    ensures Reaches(START, Recording(Free, Checking(0, 0)))
  {
    var w4 := Beginning(Some(0), Spawning(0)).(pidFile := Some(0), files := [None]);
    var w5 := w4.(opens := [Truncating(0, 0)], next := 1, alive := {0}, launched := {0});
    var w6 := w5.(opens := [Writing(0, 0)]);
    OpeningReached();
    Step(START, Beginning(Some(0), Opening), OpenFile(0, true), w4);
    Step(START, w4, Spawn(0, true), w5);
    Step(START, w5, Truncate(0), w6);
    Step(START, w6, Write(0), Recording(Free, Checking(0, 0)));
  }

  /** A start is going on, and one `stop` has come. */
  function WithStop(pc: Stop): World { Recording(Free, Checking(0, 0)).(stops := [pc]) }

  lemma PidRead()
    ensures Reaches(START, WithStop(Looking(0)))
  {
    ChildRecorded();
    Step(START, Recording(Free, Checking(0, 0)), StopArrives, WithStop(Reading));
    Step(START, WithStop(Reading), StopOpens(0), WithStop(Opened(0)));
    Step(START, WithStop(Opened(0)), StopReads(0), WithStop(Looking(0)));
  }

  /** A pid that is recycled after the check: the `stop` is about to signal another program. */
  lemma RecycledPid() returns (v: World)
    ensures Reaches(START, v) && Can(v, StopSignals(0)) && ProgramOf(v, v.stops[0].pid).Another?
  {
    PidRead();
    var w := WithStop(Signalling(0));
    var gone := w.(alive := {});
    v := gone.(strangers := {0});
    Step(START, WithStop(Looking(0)), StopLooks(0), w);
    Step(START, w, Exits(0), gone);
    Step(START, gone, Recycles(0), v);
  }

  /** Without a browser the error comes with a child that goes on running. */
  lemma BrowserFailureLeavesAlive() returns (v: World)
    ensures Reaches(START, v) && IsOpen(v, 0) && FailedWithChild(v.opens[0]) && v.opens[0].result.Started?
    ensures Live(v, v.opens[0].result.child)
  {
    ChildRecorded();
    var up := Taken(Ours(0), true);
    var w8 := Recording(Taken(Ours(0), false), Checking(0, 0));
    var w9 := Recording(up, Checking(0, 0));
    var w10 := Recording(up, Answered(0, 0, 0));
    var w11 := Recording(up, Leaving(Started(0, 0)));
    var w12 := Recording(up, Browsing(Started(0, 0))).(lock := None);
    v := Recording(up, Finished(Started(0, 0), false)).(lock := None);
    Step(START, Recording(Free, Checking(0, 0)), Binds(Ours(0)), w8);
    Step(START, w8, GetsHealthy, w9);
    Step(START, w9, Check(0, Console), w10);
    Step(START, w10, Poll(0), w11);
    Step(START, w11, Unlock(0), w12);
    Step(START, w12, Browse(0, false), v);
  }

  // ---- progress --------------------------------------------------------------------------------------------------

  /** The next step of an `open` that is not finished and may go on; its check sees what the port has to show. */
  function NextOf(w: World, i: nat): Event
    requires i < |w.opens|
  {
    match w.opens[i]
    case Waiting => Lock(i)
    case Opening => OpenFile(i, true)
    case Spawning(_) => Spawn(i, true)
    case Truncating(_, _) => Truncate(i)
    case Writing(_, _) => Write(i)
    case Polling(_, _) => Poll(i)
    case Answered(_, _, _) => Poll(i)
    case Deciding(_, _) => Deadline(i, true)
    case Terminating(_, _) => Terminate(i)
    case Removing(_, _, _) => RemoveFile(i)
    case Leaving(_) => Unlock(i)
    case Browsing(_) => Browse(i, true)
    case _ => Check(i, if w.port.Taken? && w.port.owner.Ours? && w.port.healthy then Console else Down)
  }

  /** Nobody waits for nothing: while some `open` is not finished, one can take a step, and it is the holder of the lock
      when there is one. */
  lemma NoDeadlock(es: seq<Event>, wildcard: bool, i: nat)
    requires Runs(START, es, wildcard) && IsOpen(End(START, es, wildcard), i)
    requires !End(START, es, wildcard).opens[i].Finished?
    ensures var w := End(START, es, wildcard);
      if w.opens[i].Waiting? && w.lock.Some? then
        IsOpen(w, w.lock.value) && Can(w, NextOf(w, w.lock.value))
      else Can(w, NextOf(w, i))
  {
    RunKeepsInv(START, es, wildcard);
    var w := End(START, es, wildcard);
    var k := if w.opens[i].Waiting? && w.lock.Some? then w.lock.value else i;
    assert OpenOk(w, w.opens[k]);
  }
}
