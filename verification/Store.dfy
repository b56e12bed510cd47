/** The observable store, whose subscribers may set, subscribe and unsubscribe while they are being called. */
module Store {
  import opened Text

  /** Field and selected values, equal when `Object.is` holds of them. */
  type Value = int

  /** `id` stands for the identity of the state object: every set makes a new one. */
  datatype State = State(id: nat, fields: map<string, Value>)

  datatype Patch = Fields(fields: map<string, Value>) | Update(update: State -> map<string, Value>)

  /** What a subscriber is called with: the state, or what its selector takes from it. */
  datatype View = Whole(state: State) | Part(value: Value)

  /** The arguments of one call of a callback, and which set it comes from. */
  datatype Call = Call(next: View, prev: State, nth: nat)

  type Selector = Option<State -> Value>

  function ViewOf(sel: Selector, state: State): View {
    match sel
    case None => Whole(state)
    case Some(f) => Part(f(state))
  }

  function Merged(state: State, patch: Patch): State {
    State(state.id + 1, state.fields + match patch case Fields(m) => m case Update(f) => f(state))
  }

  /** The state after the patches, in the order in which they were set. */
  function Replay(initial: State, history: seq<Patch>): State
    decreases |history|
  {
    if history == [] then initial
    else Merged(Replay(initial, history[..|history| - 1]), history[|history| - 1])
  }

  lemma ReplaySnoc(initial: State, history: seq<Patch>, patch: Patch)
    ensures Replay(initial, history + [patch]) == Merged(Replay(initial, history), patch)
  {
    assert (history + [patch])[..|history|] == history;
  }

  /** `prev` is the state just before the set it comes from. */
  predicate FromBefore(initial: State, history: seq<Patch>, prev: State, nth: nat) {
    nth < |history| && prev == Replay(initial, history[..nth])
  }

  predicate AllFromBefore(initial: State, history: seq<Patch>, calls: seq<Call>) {
    forall c | c in calls :: FromBefore(initial, history, c.prev, c.nth)
  }

  lemma StaysBefore(initial: State, history: seq<Patch>, more: seq<Patch>, prev: State, nth: nat)
    requires FromBefore(initial, history, prev, nth) && history <= more
    ensures FromBefore(initial, more, prev, nth)
  {
    assert more[..nth] == history[..nth];
  }

  lemma SetIsBefore(initial: State, history: seq<Patch>, patch: Patch, calls: seq<Call>)
    requires AllFromBefore(initial, history, calls)
    ensures AllFromBefore(initial, history + [patch], calls)
    ensures FromBefore(initial, history + [patch], Replay(initial, history), |history|)
  {
    forall c | c in calls ensures FromBefore(initial, history + [patch], c.prev, c.nth) {
      StaysBefore(initial, history, history + [patch], c.prev, c.nth);
    }
    assert (history + [patch])[..|history|] == history;
  }

  /** What a callback may do; a subscriber is named by its number in the order of subscription. */
  datatype Action = Set(patch: Patch) | Subscribe(sel: Selector) | Unsubscribe(n: nat)

  predicate Stutters(views: seq<View>) { exists k | 0 < k < |views| :: views[k - 1] == views[k] }

  class Subscriber {
    const sel: Selector
    var last: Option<View>
    /** The value at the subscription, for a selector, and then those it was called with. */
    ghost var seen: seq<View>

    constructor (sel: Selector, state: State)
      ensures this.sel == sel && Ok() && UpToDate(state)
    {
      this.sel := sel;
      last := if sel.Some? then Some(ViewOf(sel, state)) else None;
      seen := if sel.Some? then [ViewOf(sel, state)] else [];
    }

    /** `last` is what it last saw, and with a selector it never sees a value twice in a row. */
    ghost predicate Ok()
      reads this
    {
      && last == (if seen == [] then None else Some(seen[|seen| - 1]))
      && (sel.Some? ==> seen != [] && !Stutters(seen))
    }

    /** It last saw what the state gives now, or is without a selector and was never called. */
    predicate UpToDate(state: State)
      reads this
    {
      if last == None then sel.None? else last.value == ViewOf(sel, state)
    }

    method See(next: View)
      requires Ok() && (sel.Some? ==> last != Some(next))
      modifies this
      ensures Ok() && last == Some(next) && seen == old(seen) + [next]
    {
      last := Some(next);
      seen := seen + [next];
    }
  }

  function Without<T(==)>(s: seq<T>, x: T): (r: seq<T>)
    ensures forall y | y in s :: y in r <==> y != x
    ensures forall y | y in r :: y in s
    decreases |s|
  {
    if s == [] then []
    else if s[0] == x then Without(s[1..], x)
    else [s[0]] + Without(s[1..], x)
  }

  class Store {
    const initial: State
    var state: State
    var subs: seq<Subscriber>
    /** All subscribers ever, in order. */
    var made: seq<Subscriber>
    /** The calls of callbacks so far. */
    ghost var calls: seq<Call>
    /** How many calls. */
    var called: nat
    /** What the n-th call of a callback does. */
    const react: nat -> seq<Action>
    ghost var history: seq<Patch>
    ghost var repr: set<Subscriber>

    constructor (initial: map<string, Value>, react: nat -> seq<Action>)
      ensures Valid() && subs == [] && made == [] && calls == [] && history == []
      ensures state.fields == initial && this.react == react
    {
      this.initial, this.react := State(0, initial), react;
      state, subs, made, called, calls, history, repr := State(0, initial), [], [], 0, [], [], {};
    }

    ghost predicate Valid()
      reads this, repr
    {
      && called == |calls| && state == Replay(initial, history) && AllFromBefore(initial, history, calls)
      && (forall s | s in subs :: s in repr)
      && (forall s | s in made :: s in repr)
      && (forall s | s in repr :: s.Ok())
    }

    /** Nothing recorded is lost. */
    twostate predicate Grows()
      reads this, repr
    {
      && old(made) <= made && old(repr) <= repr && fresh(repr - old(repr))
      && old(history) <= history && old(calls) <= calls
      && (forall s | s in old(repr) :: old(s.seen) <= s.seen)
    }

    /** A subscriber that is behind was so before. */
    twostate predicate NoneFallsBehind()
      reads this, repr
      requires old(Valid()) && Valid() && Grows()
    {
      forall s | s in subs && !s.UpToDate(state) :: s in old(subs) && !old(s.UpToDate(state))
    }

    method AddSubscriber(sel: Selector)
      requires Valid()
      modifies `subs, `made, `repr
      ensures Valid() && Grows() && NoneFallsBehind()
      ensures |made| == |old(made)| + 1 && made[|old(made)|].sel == sel && subs == old(subs) + [made[|old(made)|]]
    {
      var s := new Subscriber(sel, state);
      subs, made, repr := subs + [s], made + [s], repr + {s};
    }

    method RemoveSubscriber(n: nat)
      requires Valid()
      modifies `subs
      ensures Valid() && NoneFallsBehind()
      ensures subs == if n < |made| then Without(old(subs), made[n]) else old(subs)
    {
      if n < |made| { subs := Without(subs, made[n]); }
    }

    /** Set `patch`; callbacks may nest `depth` deep. Afterwards every subscriber that was there before, and every
        one with a selector, last saw what the state gives. */
    method SetState(patch: Patch, depth: nat)
      requires Valid()
      modifies this`state, this`subs, this`made, this`calls, this`called, this`history, this`repr, repr
      ensures Valid() && Grows()
      ensures old(history) + [patch] <= history
      ensures forall s | s in subs :: s.UpToDate(state)
      ensures forall s | s in subs && s in old(subs) :: s.last == Some(ViewOf(s.sel, state))
      decreases depth, 4
    {
      var prev := state;
      ReplaySnoc(initial, history, patch);
      SetIsBefore(initial, history, patch, calls);
      state := Merged(state, patch);
      history := history + [patch];
      NotifyAll(subs, prev, |history| - 1, depth);
    }

    /** The subscribers of a snapshot, all of those registered. */
    method NotifyAll(snapshot: seq<Subscriber>, prev: State, ghost nth: nat, depth: nat)
      requires Valid() && snapshot == subs && FromBefore(initial, history, prev, nth)
      modifies this`state, this`subs, this`made, this`calls, this`called, this`history, this`repr, repr
      ensures Valid() && Grows()
      ensures forall s | s in subs :: s.UpToDate(state)
      ensures forall s | s in snapshot :: s.last.Some?
      decreases depth, 3
    {
      var i := 0;
      while i < |snapshot|
        invariant 0 <= i <= |snapshot|
        invariant Valid() && Grows()
        invariant forall s | s in subs && !s.UpToDate(state) :: s in snapshot[i..]
        invariant forall s | s in snapshot :: s in repr
        invariant forall s | s in snapshot[..i] :: s.last.Some?
      {
        StaysBefore(initial, old(history), history, prev, nth);
        Notify(snapshot[i], prev, nth, depth);
        i := i + 1;
      }
    }

    /** One subscriber of a snapshot. */
    method Notify(s: Subscriber, prev: State, ghost nth: nat, depth: nat)
      requires Valid() && s in repr && FromBefore(initial, history, prev, nth)
      modifies this`state, this`subs, this`made, this`calls, this`called, this`history, this`repr, repr
      ensures Valid() && Grows() && NoneFallsBehind()
      ensures s.last.Some? && (s in subs ==> s.UpToDate(state))
      ensures var next := ViewOf(s.sel, old(state));
        if s.sel.None? || old(s.last) != Some(next) then old(calls) + [Call(next, prev, nth)] <= calls
        else calls == old(calls) && state == old(state) && subs == old(subs)
      decreases depth, 2
    {
      var next := ViewOf(s.sel, state);
      if s.sel.None? || s.last != Some(next) {
        s.See(next);
        CallBack(next, prev, nth, depth);
      }
    }

    /** One action of a callback. */
    method Perform(a: Action, depth: nat)
      requires Valid() && depth > 0
      modifies this`state, this`subs, this`made, this`calls, this`called, this`history, this`repr, repr
      ensures Valid() && Grows() && NoneFallsBehind()
      ensures a.Set? ==> old(history) + [a.patch] <= history
      decreases depth, 0
    {
      match a {
        case Set(patch) => SetState(patch, depth - 1);
        case Subscribe(sel) => AddSubscriber(sel);
        case Unsubscribe(n) => RemoveSubscriber(n);
      }
    }

    /** A callback does what it does. */
    method CallBack(next: View, prev: State, ghost nth: nat, depth: nat)
      requires Valid() && FromBefore(initial, history, prev, nth)
      modifies this`state, this`subs, this`made, this`calls, this`called, this`history, this`repr, repr
      ensures Valid() && Grows() && NoneFallsBehind()
      ensures old(calls) + [Call(next, prev, nth)] <= calls
      decreases depth, 1
    {
      var acts := react(called);
      called, calls := called + 1, calls + [Call(next, prev, nth)];
      var i := 0;
      while i < |acts| && depth > 0
        invariant 0 <= i <= |acts|
        invariant Valid() && Grows() && NoneFallsBehind()
        invariant old(calls) + [Call(next, prev, nth)] <= calls
      {
        Perform(acts[i], depth);
        i := i + 1;
      }
    }
  }

  // ---- what a run of sets leaves ---------------------------------------------------------------------------------

  /** What the k-th patch gives: its fields, or what its function makes of the state just before it. */
  function Given(initial: State, history: seq<Patch>, k: nat): map<string, Value>
    requires k < |history|
  {
    match history[k]
    case Fields(m) => m
    case Update(f) => f(Replay(initial, history[..k]))
  }

  lemma GivenInFront(initial: State, history: seq<Patch>, n: nat)
    requires n <= |history|
    ensures forall k | 0 <= k < n :: Given(initial, history[..n], k) == Given(initial, history, k)
  {
    forall k | 0 <= k < n ensures Given(initial, history[..n], k) == Given(initial, history, k) {
      assert history[..n][..k] == history[..k];
    }
  }

  /** A field has the value that the last patch with it gave. */
  lemma {:induction false} LastPatchWins(initial: State, history: seq<Patch>, n: nat, key: string)
    requires n < |history| && key in Given(initial, history, n)
    requires forall k | n < k < |history| :: key !in Given(initial, history, k)
    ensures var fields := Replay(initial, history).fields;
      key in fields && fields[key] == Given(initial, history, n)[key]
    decreases |history|
  {
    var m := |history| - 1;
    GivenInFront(initial, history, m);
    if n < m {
      LastPatchWins(initial, history[..m], n, key);
      assert key !in Given(initial, history, m) && Given(initial, history[..m], n) == Given(initial, history, n);
    }
  }

  /** A field that no patch gives is as it was at first. */
  lemma {:induction false} UntouchedStays(initial: State, history: seq<Patch>, key: string)
    requires forall k | 0 <= k < |history| :: key !in Given(initial, history, k)
    ensures var fields := Replay(initial, history).fields;
      (key in fields <==> key in initial.fields) && (key in fields ==> fields[key] == initial.fields[key])
    decreases |history|
  {
    if history != [] {
      var m := |history| - 1;
      GivenInFront(initial, history, m);
      UntouchedStays(initial, history[..m], key);
      assert key !in Given(initial, history, m);
    }
  }

  /** Every set makes a new state object, so a subscriber without a selector can tell any two states apart. */
  lemma {:induction false} IdsCount(initial: State, history: seq<Patch>)
    ensures Replay(initial, history).id == initial.id + |history|
    decreases |history|
  {
    if history != [] { IdsCount(initial, history[..|history| - 1]); }
  }
}
