/**
 The lock order of every service (internal/indexbarrier/barrier.go and its callers): an image lock
 or a service mutex, then a path lock, then the barrier once. No reachable state is stuck, even
 though a rebuild that waits for the barrier keeps new readers out.
 */
module LockOrder {
  import opened Base
  import Runs

  type Actor = nat

  /** The lock taken first: of one image, of the credentials, or of the token mutations. */
  datatype First = ImageLock(id: nat) | CredentialsLock | MutationsLock

  /** The callers of the barrier, by the locks they take. */
  datatype Caller =
    | ChangeImage(id: nat)             // upload, delete, visibility, conversion
    | StoreAlias(id: nat, path: Bytes) // alias creation, import
    | DropAlias(path: Bytes)
    | ChangeCredentials                // login, profile, password
    | ChangeTokens                     // token creation and revocation
    | PlainChange                      // logout, cleanups
    | LoadAll                          // rebuild, loading of sessions and tokens

  function FirstOf(c: Caller): Option<First> {
    match c
    case ChangeImage(id) => Some(ImageLock(id))
    case StoreAlias(id, _) => Some(ImageLock(id))
    case ChangeCredentials => Some(CredentialsLock)
    case ChangeTokens => Some(MutationsLock)
    case _ => None
  }

  function PathOf(c: Caller): Option<Bytes> {
    match c
    case StoreAlias(_, p) => Some(p)
    case DropAlias(p) => Some(p)
    case _ => None
  }

  /** `Announced`: a writer that keeps new readers out and waits for the present ones. */
  datatype Stage = WantFirst | WantPath | WantBarrier | Announced | Inside | DropPath | DropFirst

  datatype Turn = Turn(caller: Caller, stage: Stage)

  datatype State = State(
    actors: map<Actor, Turn>, first: map<First, Actor>, path: map<Bytes, Actor>,
    readers: set<Actor>, writer: Option<Actor>)

  predicate HasFirst(t: Turn) { !t.stage.WantFirst? && FirstOf(t.caller).Some? }

  predicate HasPath(t: Turn) {
    !t.stage.WantFirst? && !t.stage.WantPath? && !t.stage.DropFirst? && PathOf(t.caller).Some?
  }

  predicate Reads(t: Turn) { t.stage.Inside? && !t.caller.LoadAll? }

  predicate Writes(t: Turn) { t.stage.Announced? || (t.stage.Inside? && t.caller.LoadAll?) }

  // ---------------------------------------------------------------- steps

  /** Nobody is in the way of the actor's next step. */
  predicate CanStep(s: State, a: Actor) {
    && a in s.actors
    && var t := s.actors[a];
    match t.stage
    case WantFirst => FirstOf(t.caller).Some? ==> FirstOf(t.caller).value !in s.first
    case WantPath => PathOf(t.caller).Some? ==> PathOf(t.caller).value !in s.path
    case WantBarrier => s.writer.None?
    case Announced => s.readers == {}
    case _ => true
  }

  function Step(s: State, a: Actor): State
    requires CanStep(s, a)
  {
    var t := s.actors[a];
    match t.stage
    case WantFirst =>
      s.(actors := s.actors[a := t.(stage := WantPath)],
         first := if FirstOf(t.caller).Some? then s.first[FirstOf(t.caller).value := a] else s.first)
    case WantPath =>
      s.(actors := s.actors[a := t.(stage := WantBarrier)],
         path := if PathOf(t.caller).Some? then s.path[PathOf(t.caller).value := a] else s.path)
    case WantBarrier =>
      if t.caller.LoadAll? then s.(actors := s.actors[a := t.(stage := Announced)], writer := Some(a))
      else s.(actors := s.actors[a := t.(stage := Inside)], readers := s.readers + {a})
    case Announced => s.(actors := s.actors[a := t.(stage := Inside)])
    case Inside =>
      s.(actors := s.actors[a := t.(stage := DropPath)], readers := s.readers - {a},
         writer := if t.caller.LoadAll? then None else s.writer)
    case DropPath =>
      s.(actors := s.actors[a := t.(stage := DropFirst)],
         path := if PathOf(t.caller).Some? then s.path - {PathOf(t.caller).value} else s.path)
    case DropFirst =>
      s.(actors := s.actors - {a},
         first := if FirstOf(t.caller).Some? then s.first - {FirstOf(t.caller).value} else s.first)
  }

  /** Besides, requests arrive, and a caller that failed before the barrier releases what it has. */
  datatype Event = Arrive(a: Actor, caller: Caller) | Advance(a: Actor) | GiveUp(a: Actor)

  predicate Enabled(s: State, e: Event) {
    match e
    case Arrive(a, _) => a !in s.actors
    case Advance(a) => CanStep(s, a)
    case GiveUp(a) => a in s.actors && s.actors[a].stage.WantBarrier?
  }

  function Apply(s: State, e: Event): State
    requires Enabled(s, e)
  {
    match e
    case Arrive(a, c) => s.(actors := s.actors[a := Turn(c, WantFirst)])
    case Advance(a) => Step(s, a)
    case GiveUp(a) => s.(actors := s.actors[a := s.actors[a].(stage := DropPath)])
  }

  predicate Initial(s: State) { s == State(map[], map[], map[], {}, None) }

  function Next(s: State, e: Event): Option<State> { if Enabled(s, e) then Some(Apply(s, e)) else None }

  function Run(s: State, events: seq<Event>): Option<State> { Runs.Run(Next, s, events) }

  // ---------------------------------------------------------------- no lock leaks

  /** The tables list exactly the locks that the actors' stages say they hold. */
  predicate FirstFine(s: State) {
    && (forall f :: f in s.first ==>
          s.first[f] in s.actors && HasFirst(s.actors[s.first[f]]) && FirstOf(s.actors[s.first[f]].caller) == Some(f))
    && (forall a :: a in s.actors && HasFirst(s.actors[a]) ==>
          FirstOf(s.actors[a].caller).value in s.first && s.first[FirstOf(s.actors[a].caller).value] == a)
  }

  predicate PathFine(s: State) {
    && (forall p :: p in s.path ==>
          s.path[p] in s.actors && HasPath(s.actors[s.path[p]]) && PathOf(s.actors[s.path[p]].caller) == Some(p))
    && (forall a :: a in s.actors && HasPath(s.actors[a]) ==>
          PathOf(s.actors[a].caller).value in s.path && s.path[PathOf(s.actors[a].caller).value] == a)
  }

  predicate BarrierFine(s: State) {
    && (forall a :: a in s.readers ==> a in s.actors && Reads(s.actors[a]))
    && (s.writer.Some? ==> s.writer.value in s.actors && Writes(s.actors[s.writer.value]))
    && (forall a :: a in s.actors && Reads(s.actors[a]) ==> a in s.readers)
    && (forall a :: a in s.actors && Writes(s.actors[a]) ==> s.writer == Some(a) && s.actors[a].caller.LoadAll?)
    && (forall a :: a in s.actors && s.actors[a].stage.Inside? && s.actors[a].caller.LoadAll? ==> s.readers == {})
  }

  predicate Inv(s: State) { FirstFine(s) && PathFine(s) && BarrierFine(s) }

  lemma FirstStep(s: State, a: Actor)
    requires FirstFine(s) && CanStep(s, a)
    ensures FirstFine(Step(s, a))
  {
    var t := Step(s, a);
    if a in t.actors { assert t.actors == s.actors[a := t.actors[a]]; }
  }

  lemma FirstKept(s: State, e: Event)
    requires FirstFine(s) && Enabled(s, e)
    ensures FirstFine(Apply(s, e))
  {
    if e.Advance? { FirstStep(s, e.a); }
  }

  lemma PathStep(s: State, a: Actor)
    requires PathFine(s) && CanStep(s, a)
    ensures PathFine(Step(s, a))
  {
    var t := Step(s, a);
    if a in t.actors { assert t.actors == s.actors[a := t.actors[a]]; }
  }

  lemma PathKept(s: State, e: Event)
    requires PathFine(s) && Enabled(s, e)
    ensures PathFine(Apply(s, e))
  {
    if e.Advance? { PathStep(s, e.a); }
  }

  lemma BarrierStep(s: State, a: Actor)
    requires BarrierFine(s) && CanStep(s, a)
    ensures BarrierFine(Step(s, a))
  {
    var t := Step(s, a);
    if a in t.actors { assert t.actors == s.actors[a := t.actors[a]]; }
  }

  lemma BarrierKept(s: State, e: Event)
    requires BarrierFine(s) && Enabled(s, e)
    ensures BarrierFine(Apply(s, e))
  {
    if e.Advance? { BarrierStep(s, e.a); }
  }

  lemma RunKept(s: State, events: seq<Event>)
    requires Inv(s) && Run(s, events).Some?
    ensures Inv(Run(s, events).value)
  {
    forall s, e | Inv(s) && Next(s, e).Some? ensures Inv(Next(s, e).value) {
      FirstKept(s, e);
      PathKept(s, e);
      BarrierKept(s, e);
    }
    Runs.InvariantHolds(Next, s => Inv(s), s, events);
  }

  // ---------------------------------------------------------------- somebody can always step

  function Rank(stage: Stage): nat {
    match stage
    case WantFirst => 7
    case WantPath => 6
    case WantBarrier => 5
    case Announced => 4
    case Inside => 3
    case DropPath => 2
    case DropFirst => 1
  }

  /** The furthest actor is never blocked: whatever it waits for is held only by actors further on. */
  lemma SomeoneCanStep(s: State)
    requires Inv(s) && s.actors != map[]
    ensures exists a :: CanStep(s, a)
  {
    if a: Actor :| a in s.actors && Rank(s.actors[a].stage) < 4 {
      assert CanStep(s, a);
    } else if a: Actor :| a in s.actors && s.actors[a].stage.Announced? {
      assert CanStep(s, a);
    } else if a: Actor :| a in s.actors && s.actors[a].stage.WantBarrier? {
      assert CanStep(s, a);
    } else if a: Actor :| a in s.actors && s.actors[a].stage.WantPath? {
      assert CanStep(s, a);
    } else {
      var a: Actor :| a in s.actors;
      assert CanStep(s, a);
    }
  }

  /** No reachable state is stuck. */
  lemma NeverStuck(s0: State, events: seq<Event>)
    requires Initial(s0) && Run(s0, events).Some? && Run(s0, events).value.actors != map[]
    ensures exists a :: CanStep(Run(s0, events).value, a)
  {
    RunKept(s0, events);
    SomeoneCanStep(Run(s0, events).value);
  }

  /** Rebuilds exclude changes; two holders of one lock are one actor. */
  lemma Exclusion(s: State, a: Actor, b: Actor)
    requires Inv(s) && a in s.actors && b in s.actors && a != b
    ensures s.actors[a].stage.Inside? && s.actors[a].caller.LoadAll? ==> !s.actors[b].stage.Inside?
    ensures HasFirst(s.actors[a]) && HasFirst(s.actors[b]) ==> FirstOf(s.actors[a].caller) != FirstOf(s.actors[b].caller)
    ensures HasPath(s.actors[a]) && HasPath(s.actors[b]) ==> PathOf(s.actors[a].caller) != PathOf(s.actors[b].caller)
  {
  }

  // ---------------------------------------------------------------- everybody can finish

  /** The steps still ahead, at most: actors paired with the stages before them. */
  ghost function Ahead(actors: map<Actor, Turn>): set<(Actor, nat)> {
    set a, i: nat | a in actors && i < Rank(actors[a].stage) :: (a, i)
  }

  lemma StepGetsOn(s: State, a: Actor)
    requires CanStep(s, a)
    ensures |Ahead(Step(s, a).actors)| < |Ahead(s.actors)|
  {
    var r := Rank(s.actors[a].stage);
    SmallerSet(Ahead(Step(s, a).actors), Ahead(s.actors), (a, r - 1));
  }

  function Advances(actors: seq<Actor>): seq<Event> {
    seq(|actors|, i requires 0 <= i < |actors| => Advance(actors[i]))
  }

  /** From every reachable state the present actors can all finish, without giving up. */
  lemma {:induction false} EveryoneCanFinish(s: State) returns (order: seq<Actor>)
    requires Inv(s)
    ensures Run(s, Advances(order)).Some? && Run(s, Advances(order)).value.actors == map[]
    decreases |Ahead(s.actors)|
  {
    if s.actors == map[] {
      order := [];
    } else {
      SomeoneCanStep(s);
      var a :| CanStep(s, a);
      StepGetsOn(s, a);
      FirstKept(s, Advance(a));
      PathKept(s, Advance(a));
      BarrierKept(s, Advance(a));
      var rest := EveryoneCanFinish(Step(s, a));
      order := [a] + rest;
      assert Advances(order)[1..] == Advances(rest);
    }
  }

  /** And any schedule finishes them: without arrivals no run is longer than the steps ahead. */
  lemma {:induction false} EveryScheduleEnds(s: State, order: seq<Actor>)
    requires Run(s, Advances(order)).Some?
    ensures |order| <= |Ahead(s.actors)|
    decreases |order|
  {
    if order != [] {
      StepGetsOn(s, order[0]);
      assert Advances(order)[1..] == Advances(order[1..]);
      EveryScheduleEnds(Step(s, order[0]), order[1..]);
    }
  }

  // ---------------------------------------------------------------- what a caller holds, and gives back

  /** Inside the barrier a caller holds its locks: those of its image, path or service, and its side of the barrier. */
  lemma InsideHolds(s: State, a: Actor)
    requires Inv(s) && a in s.actors && s.actors[a].stage.Inside?
    ensures match s.actors[a].caller
      case ChangeImage(id) => Lookup(s.first, ImageLock(id)) == Some(a) && a in s.readers
      case StoreAlias(id, path) => Lookup(s.first, ImageLock(id)) == Some(a) && Lookup(s.path, path) == Some(a) && a in s.readers
      case DropAlias(path) => Lookup(s.path, path) == Some(a) && a in s.readers
      case ChangeCredentials => Lookup(s.first, CredentialsLock) == Some(a) && a in s.readers
      case ChangeTokens => Lookup(s.first, MutationsLock) == Some(a) && a in s.readers
      case PlainChange => a in s.readers
      case LoadAll => s.writer == Some(a) && s.readers == {}
  {
  }

  /** Whatever is going on, a caller that arrives can get inside: once the present ones have finished, unhindered. */
  lemma ArrivalGetsIn(s: State, a: Actor, c: Caller) returns (before: seq<Actor>, after: seq<Actor>)
    requires Inv(s)
    ensures Run(s, Advances(before) + ([Arrive(a, c)] + Advances(after))).Some?
    ensures var t := Run(s, Advances(before) + ([Arrive(a, c)] + Advances(after))).value;
      Inv(t) && t.actors == map[a := Turn(c, Inside)]
  {
    before := EveryoneCanFinish(s);
    RunKept(s, Advances(before));
    after := if c.LoadAll? then [a, a, a, a] else [a, a, a];
    GetsInAlone(Run(s, Advances(before)).value, a, c, after);
    Runs.RunAppend(Next, s, Advances(before), [Arrive(a, c)] + Advances(after));
    RunKept(s, Advances(before) + ([Arrive(a, c)] + Advances(after)));
  }

  lemma GetsInAlone(s: State, a: Actor, c: Caller, after: seq<Actor>)
    requires Inv(s) && s.actors == map[] && after == if c.LoadAll? then [a, a, a, a] else [a, a, a]
    ensures Run(s, [Arrive(a, c)] + Advances(after)).Some?
    ensures Run(s, [Arrive(a, c)] + Advances(after)).value.actors == map[a := Turn(c, Inside)]
  {
    var e := [Arrive(a, c)] + Advances(after);
    assert s == State(map[], map[], map[], {}, None);
    ReachesBarrier(a, c);
    var s1 := Run(Apply(s, e[0]), Advances([a, a])).value;
    assert s1.actors == map[a := Turn(c, WantBarrier)];
    var rest := after[2..];
    assert e == [e[0]] + (Advances([a, a]) + Advances(rest));
    assert e[1..] == Advances([a, a]) + Advances(rest);
    Runs.RunAppend(Next, Apply(s, e[0]), Advances([a, a]), Advances(rest));
    var s2 := Step(s1, a);
    if c.LoadAll? {
      Runs.TraceRuns(Next, [s1, s2, Step(s2, a)], Advances(rest));
    } else {
      Runs.TraceRuns(Next, [s1, s2], Advances(rest));
    }
  }

  lemma ReachesBarrier(a: Actor, c: Caller)
    ensures var s := State(map[a := Turn(c, WantFirst)], map[], map[], {}, None);
      && Run(s, Advances([a, a])).Some?
      && var t := Run(s, Advances([a, a])).value;
      t.actors == map[a := Turn(c, WantBarrier)] && t.writer.None? && t.readers == {}
  {
    var s := State(map[a := Turn(c, WantFirst)], map[], map[], {}, None);
    var s1 := Step(s, a);
    Runs.TraceRuns(Next, [s, s1, Step(s1, a)], Advances([a, a]));
  }

  /** The actor is gone with all its locks, and every other one is where it was. */
  predicate Left(s: State, t: State, a: Actor) {
    && t.actors == s.actors - {a} && t.readers == s.readers - {a}
    && t.first == (map f | f in s.first && s.first[f] != a :: s.first[f])
    && t.path == (map p | p in s.path && s.path[p] != a :: s.path[p])
    && t.writer == if s.writer == Some(a) then None else s.writer
  }

  lemma Drops(s: State, a: Actor)
    requires FirstFine(s) && PathFine(s) && a in s.actors && s.actors[a].stage.DropPath?
    ensures Run(s, [Advance(a), Advance(a)]).Some?
    ensures var t := Run(s, [Advance(a), Advance(a)]).value;
      && t.actors == s.actors - {a} && t.readers == s.readers && t.writer == s.writer
      && t.first == (map f | f in s.first && s.first[f] != a :: s.first[f])
      && t.path == (map p | p in s.path && s.path[p] != a :: s.path[p])
  {
    var s1 := Step(s, a);
    Runs.TraceRuns(Next, [s, s1, Step(s1, a)], [Advance(a), Advance(a)]);
  }

  /** A caller that fails before the barrier gives back what it holds. */
  lemma GivingUpReleases(s: State, a: Actor)
    requires Inv(s) && a in s.actors && s.actors[a].stage.WantBarrier?
    ensures Run(s, [GiveUp(a), Advance(a), Advance(a)]).Some?
    ensures Left(s, Run(s, [GiveUp(a), Advance(a), Advance(a)]).value, a)
  {
    FirstKept(s, GiveUp(a));
    PathKept(s, GiveUp(a));
    Drops(Apply(s, GiveUp(a)), a);
    assert [GiveUp(a), Advance(a), Advance(a)][1..] == [Advance(a), Advance(a)];
  }

  /** So does one that has been inside. */
  lemma LeavingReleases(s: State, a: Actor)
    requires Inv(s) && a in s.actors && s.actors[a].stage.Inside?
    ensures Run(s, [Advance(a), Advance(a), Advance(a)]).Some?
    ensures Left(s, Run(s, [Advance(a), Advance(a), Advance(a)]).value, a)
  {
    FirstKept(s, Advance(a));
    PathKept(s, Advance(a));
    Drops(Step(s, a), a);
    assert [Advance(a), Advance(a), Advance(a)][1..] == [Advance(a), Advance(a)];
  }
}
