/** The automaton model: the NFA value, `is_valid`, the epsilon-closure and `accept`.

    An automaton has a set of states `q`, an alphabet `sigma`, a transition map `delta`
    from a state to a map from a symbol to the set of next states, one `initialState`
    and a set `f` of final states. Symbols are strings and the empty string is epsilon,
    as in the original engine; an input string is read one character at a time, so the
    symbol read for character `c` is the one-character string `[c]`. */
module Automata {

  type Symbol = string

  /** The reserved label of a transition taken without reading input. */
  const Epsilon: Symbol := ""

  datatype NFA<S> = NFA(
    q: set<S>,
    sigma: set<Symbol>,
    delta: map<S, map<Symbol, set<S>>>,
    initialState: S,
    f: set<S>)

  /** `is_valid`: the initial state is a state, the final states are states, and every
      transition leaves a state, is labelled by a symbol of the alphabet or by epsilon,
      and leads to states. */
  predicate IsValid<S>(a: NFA<S>) {
    && a.initialState in a.q
    && a.f <= a.q
    && (forall s :: s in a.delta ==> s in a.q && RowValid(a, a.delta[s]))
  }

  /** The transitions from one state are labelled in the alphabet or by epsilon and
      lead to states. */
  predicate RowValid<S>(a: NFA<S>, row: map<Symbol, set<S>>) {
    forall x :: x in row ==> (x in a.sigma || x == Epsilon) && row[x] <= a.q
  }

  /** No transition is labelled by epsilon. */
  predicate EpsilonFree<S>(a: NFA<S>) {
    forall s :: s in a.delta ==> Epsilon !in a.delta[s]
  }

  /** The destinations of the transitions from `s` on `x`; empty when there is no entry. */
  function Succ<S>(a: NFA<S>, s: S, x: Symbol): set<S> {
    if s in a.delta && x in a.delta[s] then a.delta[s][x] else {}
  }

  /** The destinations of the transitions on `x` from any state of `X`. */
  function Moves<S>(a: NFA<S>, X: set<S>, x: Symbol): set<S> {
    set s, t | s in X && t in Succ(a, s, x) :: t
  }

  /** Every state any transition leads to: a finite bound for the searches below. */
  function Targets<S>(a: NFA<S>): set<S> {
    set s, x, t | s in a.delta && x in a.delta[s] && t in a.delta[s][x] :: t
  }

  lemma SuccInTargets<S>(a: NFA<S>, s: S, x: Symbol)
    ensures Succ(a, s, x) <= Targets(a)
  {
  }

  lemma MovesInTargets<S>(a: NFA<S>, X: set<S>, x: Symbol)
    ensures Moves(a, X, x) <= Targets(a)
  {
    forall t | t in Moves(a, X, x) ensures t in Targets(a) {
      var s :| s in X && t in Succ(a, s, x);
      SuccInTargets(a, s, x);
    }
  }

  /** `V` has no epsilon transition leaving it. */
  predicate EpsClosed<S>(a: NFA<S>, V: set<S>) {
    forall s :: s in V ==> Succ(a, s, Epsilon) <= V
  }

  /** Breadth-first search over epsilon transitions. `visited` holds the states found so
      far and `frontier` the ones found last, whose epsilon successors are not yet
      explored; every other visited state has its epsilon successors visited. */
  function CloseFrom<S>(a: NFA<S>, U: set<S>, visited: set<S>, frontier: set<S>): (c: set<S>)
    requires frontier <= visited <= U
    requires Targets(a) <= U
    requires forall s :: s in visited && s !in frontier ==> Succ(a, s, Epsilon) <= visited
    ensures visited <= c <= U
    ensures EpsClosed(a, c)
    decreases |U - visited|
  {
    var next := Moves(a, frontier, Epsilon) - visited;
    if next == {} then
      assert Moves(a, frontier, Epsilon) <= visited by {
        forall t | t in Moves(a, frontier, Epsilon) ensures t in visited {
          assert t !in next;
        }
      }
      assert forall s :: s in frontier ==> Succ(a, s, Epsilon) <= Moves(a, frontier, Epsilon);
      visited
    else
      MovesInTargets(a, frontier, Epsilon);
      assert U - (visited + next) < U - visited;
      CloseFrom(a, U, visited + next, next)
  }

  /** The epsilon-closure of `F`: the least set that contains `F` and that no epsilon
      transition leaves. The search visits each state once, so it stops on epsilon cycles. */
  function EClosure<S>(a: NFA<S>, F: set<S>): (c: set<S>)
    ensures F <= c <= F + Targets(a)
    ensures EpsClosed(a, c)
  {
    CloseFrom(a, F + Targets(a), F, F)
  }

  /** The search adds only states that every epsilon-closed superset of `visited` holds. */
  lemma {:induction false} CloseFromLeast<S>(a: NFA<S>, U: set<S>, visited: set<S>, frontier: set<S>, V: set<S>)
    requires frontier <= visited <= U
    requires Targets(a) <= U
    requires forall s :: s in visited && s !in frontier ==> Succ(a, s, Epsilon) <= visited
    requires visited <= V && EpsClosed(a, V)
    ensures CloseFrom(a, U, visited, frontier) <= V
    decreases |U - visited|
  {
    var next := Moves(a, frontier, Epsilon) - visited;
    if next != {} {
      MovesInTargets(a, frontier, Epsilon);
      assert U - (visited + next) < U - visited;
      CloseFromLeast(a, U, visited + next, next, V);
    }
  }

  /** The epsilon-closure is the least epsilon-closed superset. */
  lemma ClosureLeast<S>(a: NFA<S>, F: set<S>, V: set<S>)
    requires F <= V && EpsClosed(a, V)
    ensures EClosure(a, F) <= V
  {
    CloseFromLeast(a, F + Targets(a), F, F, V);
  }

  /** One step of the simulation: the closure of the moves on the character `c`. */
  function Step<S>(a: NFA<S>, X: set<S>, c: char): set<S> {
    EClosure(a, Moves(a, X, [c]))
  }

  /** The states possible after reading `w` from the state set `X`; a step that leaves no
      possible state rejects at once. */
  function Run<S>(a: NFA<S>, X: set<S>, w: string): set<S>
    decreases |w|
  {
    if w == [] then X
    else
      var next := Step(a, X, w[0]);
      if next == {} then {} else Run(a, next, w[1..])
  }

  /** `accept`: simulate from the closure of the initial state and accept when a final
      state is possible at the end. */
  predicate Accept<S>(a: NFA<S>, w: string) {
    Run(a, EClosure(a, {a.initialState}), w) * a.f != {}
  }

  // ---------------------------------------------------------------------------
  // Facts about moves and the epsilon-closure

  lemma MovesUnion<S>(a: NFA<S>, X: set<S>, Y: set<S>, x: Symbol)
    ensures Moves(a, X + Y, x) == Moves(a, X, x) + Moves(a, Y, x)
  {
  }

  lemma MovesSingleton<S>(a: NFA<S>, s: S, x: Symbol)
    ensures Moves(a, {s}, x) == Succ(a, s, x)
  {
  }

  lemma MovesMono<S>(a: NFA<S>, X: set<S>, Y: set<S>, x: Symbol)
    requires X <= Y
    ensures Moves(a, X, x) <= Moves(a, Y, x)
  {
  }

  /** In a valid automaton a symbol outside the alphabet labels no transition. */
  lemma MovesOffAlphabet<S>(a: NFA<S>, X: set<S>, x: Symbol)
    requires IsValid(a) && x !in a.sigma && x != Epsilon
    ensures Moves(a, X, x) == {}
  {
    assert forall s :: Succ(a, s, x) == {};
  }

  lemma SuccInStates<S>(a: NFA<S>, s: S, x: Symbol)
    requires IsValid(a)
    ensures Succ(a, s, x) <= a.q
  {
    if s in a.delta && x in a.delta[s] {
      assert RowValid(a, a.delta[s]);
    }
  }

  lemma MovesInStates<S>(a: NFA<S>, X: set<S>, x: Symbol)
    requires IsValid(a)
    ensures Moves(a, X, x) <= a.q
  {
    forall s ensures Succ(a, s, x) <= a.q {
      SuccInStates(a, s, x);
    }
  }

  lemma ClosureMono<S>(a: NFA<S>, X: set<S>, Y: set<S>)
    requires X <= Y
    ensures EClosure(a, X) <= EClosure(a, Y)
  {
    ClosureLeast(a, X, EClosure(a, Y));
  }

  /** A set no epsilon transition leaves is its own closure. */
  lemma ClosureOfClosed<S>(a: NFA<S>, X: set<S>)
    requires EpsClosed(a, X)
    ensures EClosure(a, X) == X
  {
    ClosureLeast(a, X, X);
  }

  lemma ClosureIdempotent<S>(a: NFA<S>, X: set<S>)
    ensures EClosure(a, EClosure(a, X)) == EClosure(a, X)
  {
    ClosureOfClosed(a, EClosure(a, X));
  }

  lemma ClosureEmpty<S>(a: NFA<S>)
    ensures EClosure(a, {}) == {}
  {
    ClosureOfClosed(a, {});
  }

  /** Without epsilon transitions the closure changes nothing. */
  lemma ClosureEpsilonFree<S>(a: NFA<S>, X: set<S>)
    requires EpsilonFree(a)
    ensures EClosure(a, X) == X
  {
    assert EpsClosed(a, X);
    ClosureOfClosed(a, X);
  }

  lemma ClosureUnion<S>(a: NFA<S>, X: set<S>, Y: set<S>)
    ensures EClosure(a, X + Y) == EClosure(a, X) + EClosure(a, Y)
  {
    ClosureMono(a, X, X + Y);
    ClosureMono(a, Y, X + Y);
    ClosureLeast(a, X + Y, EClosure(a, X) + EClosure(a, Y));
  }

  /** In a valid automaton the closure of states holds only states. */
  lemma ClosureInStates<S>(a: NFA<S>, X: set<S>)
    requires IsValid(a) && X <= a.q
    ensures EClosure(a, X) <= a.q
  {
    forall s ensures Succ(a, s, Epsilon) <= a.q {
      SuccInStates(a, s, Epsilon);
    }
    ClosureLeast(a, X, a.q);
  }

  /** Every state of the closure of `X` is in the closure of one state of `X`. */
  lemma ClosureOfSingletons<S>(a: NFA<S>, X: set<S>, r: S)
    requires r in EClosure(a, X)
    ensures exists s :: s in X && r in EClosure(a, {s})
  {
    var W := set s, t | s in X && t in EClosure(a, {s}) :: t;
    forall t | t in W ensures Succ(a, t, Epsilon) <= W {
      var s :| s in X && t in EClosure(a, {s});
    }
    forall s | s in X ensures s in W {
      assert s in EClosure(a, {s});
    }
    ClosureLeast(a, X, W);
  }

  /** The closure of one state is that state and the closure of its epsilon successors. */
  lemma ClosureThrough<S>(a: NFA<S>, s: S)
    ensures EClosure(a, {s}) == {s} + EClosure(a, Succ(a, s, Epsilon))
  {
    var C := EClosure(a, {s});
    var Y := Succ(a, s, Epsilon);
    ClosureLeast(a, {s}, {s} + EClosure(a, Y));
    ClosureLeast(a, Y, C);
  }

  /** When `C` is `F` together with epsilon successors of `F`, and no epsilon transition
      leaves `C`, then `C` is the closure of `F`. */
  lemma ClosureExact<S>(a: NFA<S>, F: set<S>, C: set<S>)
    requires F <= C && EpsClosed(a, C)
    requires C <= F + Moves(a, F, Epsilon)
    ensures EClosure(a, F) == C
  {
    ClosureLeast(a, F, C);
    var E := EClosure(a, F);
    forall t | t in C ensures t in E {
      if t !in F {
        var s :| s in F && t in Succ(a, s, Epsilon);
      }
    }
  }

  // ---------------------------------------------------------------------------
  // Facts about runs

  lemma {:induction false} RunEmpty<S>(a: NFA<S>, w: string)
    ensures Run(a, {}, w) == {}
  {
    if w != [] {
      ClosureEmpty(a);
      assert Moves(a, {}, [w[0]]) == {};
    }
  }

  lemma StepUnion<S>(a: NFA<S>, X: set<S>, Y: set<S>, c: char)
    ensures Step(a, X + Y, c) == Step(a, X, c) + Step(a, Y, c)
  {
    MovesUnion(a, X, Y, [c]);
    ClosureUnion(a, Moves(a, X, [c]), Moves(a, Y, [c]));
  }

  /** The simulation treats the states of a frontier independently. */
  lemma {:induction false} RunUnion<S>(a: NFA<S>, X: set<S>, Y: set<S>, w: string)
    ensures Run(a, X + Y, w) == Run(a, X, w) + Run(a, Y, w)
    decreases |w|
  {
    if w != [] {
      var sx, sy := Step(a, X, w[0]), Step(a, Y, w[0]);
      StepUnion(a, X, Y, w[0]);
      RunUnion(a, sx, sy, w[1..]);
      RunEmpty(a, w[1..]);
    }
  }

  /** In a valid automaton a run from states stays among the states. */
  lemma {:induction false} RunInStates<S>(a: NFA<S>, X: set<S>, w: string)
    requires IsValid(a) && X <= a.q
    ensures Run(a, X, w) <= a.q
    decreases |w|
  {
    if w != [] {
      MovesInStates(a, X, [w[0]]);
      ClosureInStates(a, Moves(a, X, [w[0]]));
      RunInStates(a, Step(a, X, w[0]), w[1..]);
    }
  }

  lemma RunCons<S>(a: NFA<S>, X: set<S>, c: char, w: string)
    ensures Run(a, X, [c] + w) == if Step(a, X, c) == {} then {} else Run(a, Step(a, X, c), w)
  {
    assert ([c] + w)[0] == c && ([c] + w)[1..] == w;
  }

  // ---------------------------------------------------------------------------
  // The closure is reachability over epsilon transitions

  /** `p` is a chain of zero or more epsilon transitions. */
  ghost predicate EpsPath<S>(a: NFA<S>, p: seq<S>) {
    |p| >= 1 && forall i :: 0 <= i < |p| - 1 ==> p[i + 1] in Succ(a, p[i], Epsilon)
  }

  ghost predicate EpsReachable<S(!new)>(a: NFA<S>, F: set<S>, t: S) {
    exists p :: EpsPath(a, p) && p[0] in F && p[|p| - 1] == t
  }

  lemma {:induction false} PathEndInClosure<S>(a: NFA<S>, F: set<S>, p: seq<S>)
    requires EpsPath(a, p) && p[0] in F
    ensures p[|p| - 1] in EClosure(a, F)
    decreases |p|
  {
    if |p| > 1 {
      var p' := p[..|p| - 1];
      assert EpsPath(a, p');
      PathEndInClosure(a, F, p');
      assert p[|p| - 1] in Succ(a, p'[|p'| - 1], Epsilon);
    }
  }

  lemma ExtendPath<S>(a: NFA<S>, p: seq<S>, v: S)
    requires EpsPath(a, p) && v in Succ(a, p[|p| - 1], Epsilon)
    ensures EpsPath(a, p + [v]) && (p + [v])[0] == p[0]
  {
    var p' := p + [v];
    forall i | 0 <= i < |p'| - 1 ensures p'[i + 1] in Succ(a, p'[i], Epsilon) {
      if i < |p| - 1 {
        assert p'[i] == p[i] && p'[i + 1] == p[i + 1];
      }
    }
  }

  lemma ClosureStatesReachable<S(!new)>(a: NFA<S>, F: set<S>)
    ensures forall t :: t in EClosure(a, F) ==> EpsReachable(a, F, t)
  {
    var W := set u | u in EClosure(a, F) && EpsReachable(a, F, u);
    forall u | u in F ensures u in W {
      assert EpsPath(a, [u]);
    }
    forall u, v | u in W && v in Succ(a, u, Epsilon) ensures v in W {
      var p :| EpsPath(a, p) && p[0] in F && p[|p| - 1] == u;
      ExtendPath(a, p, v);
      assert (p + [v])[|p + [v]| - 1] == v;
    }
    ClosureLeast(a, F, W);
  }

  /** A state is in the epsilon-closure of `F` exactly when a chain of epsilon
      transitions leads to it from a state of `F`. */
  lemma ClosureIsEpsilonReachability<S(!new)>(a: NFA<S>, F: set<S>, t: S)
    ensures t in EClosure(a, F) <==> EpsReachable(a, F, t)
  {
    if EpsReachable(a, F, t) {
      var p :| EpsPath(a, p) && p[0] in F && p[|p| - 1] == t;
      PathEndInClosure(a, F, p);
    }
    ClosureStatesReachable(a, F);
  }
}
