/** Determinization: `remove_epsilon_transitions` and the subset construction `get_dfa`. */
module Determinization {
  import opened Automata

  // ---------------------------------------------------------------------------
  // Epsilon removal

  /** The transitions of `s` once epsilon moves are folded in: on each symbol, the
      closure of the moves from the closure of `s`; only symbols with a destination
      get an entry. */
  function EpsilonFreeRow<S>(a: NFA<S>, s: S, syms: set<Symbol>): map<Symbol, set<S>> {
    var reach := EClosure(a, {s});
    map x | x in syms && EClosure(a, Moves(a, reach, x)) != {} :: EClosure(a, Moves(a, reach, x))
  }

  /** `remove_epsilon_transitions`: same states and initial state, no epsilon in the
      alphabet or the transitions, and a state is final when its closure holds an
      original final state. */
  function RemoveEpsilonTransitions<S>(a: NFA<S>): NFA<S> {
    var syms := a.sigma - {Epsilon};
    NFA(a.q, syms,
        map s | s in a.q :: EpsilonFreeRow(a, s, syms),
        a.initialState,
        set s | s in a.q && EClosure(a, {s}) * a.f != {})
  }

  lemma RemoveEpsilonEpsilonFree<S>(a: NFA<S>)
    ensures EpsilonFree(RemoveEpsilonTransitions(a))
  {
  }

  /** Epsilon removal keeps validity and leaves no epsilon transition. */
  lemma RemoveEpsilonValid<S>(a: NFA<S>)
    requires IsValid(a)
    ensures IsValid(RemoveEpsilonTransitions(a))
    ensures EpsilonFree(RemoveEpsilonTransitions(a))
  {
    var r := RemoveEpsilonTransitions(a);
    forall s | s in r.delta ensures RowValid(r, r.delta[s]) {
      var reach := EClosure(a, {s});
      ClosureInStates(a, {s});
      forall x | x in r.delta[s] ensures r.delta[s][x] <= r.q {
        MovesInStates(a, reach, x);
        ClosureInStates(a, Moves(a, reach, x));
      }
    }
  }

  /** The destinations from a state after removal, for a real symbol. */
  lemma RemoveEpsilonSucc<S>(a: NFA<S>, s: S, x: Symbol)
    requires IsValid(a) && s in a.q && x != Epsilon
    ensures Succ(RemoveEpsilonTransitions(a), s, x)
         == EClosure(a, Moves(a, EClosure(a, {s}), x))
  {
    var reach := EClosure(a, {s});
    if x !in a.sigma {
      MovesOffAlphabet(a, reach, x);
      ClosureEmpty(a);
    }
  }

  /** Moving in the epsilon-free automaton is moving from the closure in the original,
      then closing. */
  lemma RemoveEpsilonMoves<S>(a: NFA<S>, X: set<S>, x: Symbol)
    requires IsValid(a) && X <= a.q && x != Epsilon
    ensures Moves(RemoveEpsilonTransitions(a), X, x) == EClosure(a, Moves(a, EClosure(a, X), x))
  {
    var r := RemoveEpsilonTransitions(a);
    var L := Moves(r, X, x);
    var R := EClosure(a, Moves(a, EClosure(a, X), x));
    forall t | t in L ensures t in R {
      var s :| s in X && t in Succ(r, s, x);
      RemoveEpsilonSucc(a, s, x);
      ClosureMono(a, {s}, X);
      MovesMono(a, EClosure(a, {s}), EClosure(a, X), x);
      ClosureMono(a, Moves(a, EClosure(a, {s}), x), Moves(a, EClosure(a, X), x));
    }
    forall t | t in L ensures Succ(a, t, Epsilon) <= L {
      var s :| s in X && t in Succ(r, s, x);
      RemoveEpsilonSucc(a, s, x);
      assert Succ(a, t, Epsilon) <= Succ(r, s, x);
    }
    forall u | u in Moves(a, EClosure(a, X), x) ensures u in L {
      var r0 :| r0 in EClosure(a, X) && u in Succ(a, r0, x);
      ClosureOfSingletons(a, X, r0);
      var s :| s in X && r0 in EClosure(a, {s});
      RemoveEpsilonSucc(a, s, x);
      assert u in Moves(a, EClosure(a, {s}), x);
      assert u in Succ(r, s, x);
    }
    ClosureLeast(a, Moves(a, EClosure(a, X), x), L);
  }

  /** The epsilon-free simulation, closed in the original automaton, is the original
      simulation. */
  lemma {:induction false} RemoveEpsilonRun<S>(a: NFA<S>, X: set<S>, w: string)
    requires IsValid(a) && X <= a.q
    ensures Run(RemoveEpsilonTransitions(a), X, w) <= a.q
    ensures EClosure(a, Run(RemoveEpsilonTransitions(a), X, w)) == Run(a, EClosure(a, X), w)
    decreases |w|
  {
    var r := RemoveEpsilonTransitions(a);
    if w == [] {
    } else {
      var x := [w[0]];
      RemoveEpsilonEpsilonFree(a);
      ClosureEpsilonFree(r, Moves(r, X, x));
      RemoveEpsilonMoves(a, X, x);
      var next := Step(a, EClosure(a, X), w[0]);
      assert Step(r, X, w[0]) == next;
      ClosureEmpty(a);
      if next != {} {
        ClosureInStates(a, X);
        MovesInStates(a, EClosure(a, X), x);
        ClosureInStates(a, Moves(a, EClosure(a, X), x));
        RemoveEpsilonRun(a, next, w[1..]);
        ClosureIdempotent(a, Moves(a, EClosure(a, X), x));
      }
    }
  }

  /** Epsilon removal keeps `accept` on every string. */
  lemma RemoveEpsilonAccept<S>(a: NFA<S>, w: string)
    requires IsValid(a)
    ensures Accept(RemoveEpsilonTransitions(a), w) == Accept(a, w)
  {
    var r := RemoveEpsilonTransitions(a);
    RemoveEpsilonEpsilonFree(a);
    ClosureEpsilonFree(r, {a.initialState});
    RemoveEpsilonRun(a, {a.initialState}, w);
    var R := Run(r, {a.initialState}, w);
    if R * r.f != {} {
      var s :| s in R * r.f;
      ClosureMono(a, {s}, R);
      var u :| u in EClosure(a, {s}) * a.f;
      assert u in EClosure(a, R) * a.f;
    }
    if EClosure(a, R) * a.f != {} {
      var u :| u in EClosure(a, R) * a.f;
      ClosureOfSingletons(a, R, u);
      var s :| s in R && u in EClosure(a, {s});
      assert s in R * r.f;
    }
  }

  // ---------------------------------------------------------------------------
  // Subset construction

  /** All subsets of `U`; it bounds the subsets the construction can discover. */
  ghost function PowerSet<S>(U: set<S>): set<set<S>>
    decreases |U|
  {
    if U == {} then {{}}
    else
      var x :| x in U;
      var P := PowerSet(U - {x});
      P + set X | X in P :: X + {x}
  }

  lemma {:induction false} PowerSetMembers<S>(U: set<S>, X: set<S>)
    ensures X in PowerSet(U) <==> X <= U
    decreases |U|
  {
    if U != {} {
      var x :| x in U && PowerSet(U) == PowerSet(U - {x}) + set Y | Y in PowerSet(U - {x}) :: Y + {x};
      var P := PowerSet(U - {x});
      if X <= U {
        PowerSetMembers(U - {x}, X - {x});
        if x in X {
          assert X == (X - {x}) + {x};
        } else {
          assert X - {x} == X;
        }
      }
      if X in PowerSet(U) {
        if X in P {
          PowerSetMembers(U - {x}, X);
        } else {
          var Y :| Y in P && X == Y + {x};
          PowerSetMembers(U - {x}, Y);
        }
      }
    }
  }

  /** The successor of the subset `S` on `x`: the closure of its moves. */
  function DStep<S>(a: NFA<S>, S: set<S>, x: Symbol): set<S> {
    EClosure(a, Moves(a, S, x))
  }

  lemma DStepInTargets<S>(a: NFA<S>, S: set<S>, x: Symbol)
    ensures DStep(a, S, x) <= Targets(a)
  {
    MovesInTargets(a, S, x);
  }

  /** No nonempty successor of a subset in `V` on a symbol of `syms` lies outside `V`. */
  predicate SubsetClosed<S>(a: NFA<S>, syms: set<Symbol>, V: set<set<S>>) {
    forall S, x :: S in V && x in syms && DStep(a, S, x) != {} ==> DStep(a, S, x) in V
  }

  /** The nonempty successors of the subsets in `frontier`. */
  function Successors<S>(a: NFA<S>, syms: set<Symbol>, frontier: set<set<S>>): set<set<S>> {
    set S, x | S in frontier && x in syms && DStep(a, S, x) != {} :: DStep(a, S, x)
  }

  /** When no successor is new, every successor of the frontier is visited. */
  lemma SuccessorsCovered<S>(a: NFA<S>, syms: set<Symbol>, visited: set<set<S>>, frontier: set<set<S>>)
    requires Successors(a, syms, frontier) - visited == {}
    ensures forall S, x :: S in frontier && x in syms && DStep(a, S, x) != {} ==> DStep(a, S, x) in visited
  {
    forall S, x | S in frontier && x in syms && DStep(a, S, x) != {} ensures DStep(a, S, x) in visited {
      assert DStep(a, S, x) in Successors(a, syms, frontier);
      assert DStep(a, S, x) !in Successors(a, syms, frontier) - visited;
    }
  }

  /** New successors are subsets of `U` and shrink the subsets of `U` still unvisited. */
  lemma ExploreProgress<S>(a: NFA<S>, syms: set<Symbol>, U: set<S>, visited: set<set<S>>, frontier: set<set<S>>)
    requires forall S :: S in visited ==> S <= U
    requires Targets(a) <= U
    requires Successors(a, syms, frontier) - visited != {}
    ensures forall S :: S in Successors(a, syms, frontier) ==> S <= U && S != {}
    ensures |PowerSet(U) - (visited + (Successors(a, syms, frontier) - visited))| < |PowerSet(U) - visited|
  {
    var next := Successors(a, syms, frontier) - visited;
    forall S | S in Successors(a, syms, frontier) ensures S <= U {
      var S0, x :| S0 in frontier && x in syms && DStep(a, S0, x) != {} && S == DStep(a, S0, x);
      DStepInTargets(a, S0, x);
    }
    forall S | S in visited + next ensures S in PowerSet(U) {
      PowerSetMembers(U, S);
    }
    var T :| T in next;
    assert T in PowerSet(U) - visited;
    assert PowerSet(U) - (visited + next) < PowerSet(U) - visited;
  }

  /** Breadth-first discovery of the subsets reachable from the visited ones; subsets are
      compared by value, so each is visited once. */
  function Explore<S>(a: NFA<S>, syms: set<Symbol>, U: set<S>, visited: set<set<S>>,
                      frontier: set<set<S>>): (r: set<set<S>>)
    requires frontier <= visited
    requires forall S :: S in visited ==> S <= U && S != {}
    requires Targets(a) <= U
    requires forall S, x :: S in visited && S !in frontier && x in syms && DStep(a, S, x) != {}
               ==> DStep(a, S, x) in visited
    ensures visited <= r
    ensures forall S :: S in r ==> S <= U && S != {}
    ensures SubsetClosed(a, syms, r)
    decreases |PowerSet(U) - visited|
  {
    var next := Successors(a, syms, frontier) - visited;
    if next == {} then
      SuccessorsCovered(a, syms, visited, frontier);
      visited
    else
      ExploreProgress(a, syms, U, visited, frontier);
      Explore(a, syms, U, visited + next, next)
  }

  /** The search adds only subsets that every closed superset of `visited` holds, so it
      materializes only the subsets reachable from where it starts. */
  lemma {:induction false} ExploreLeast<S>(a: NFA<S>, syms: set<Symbol>, U: set<S>, visited: set<set<S>>,
                                           frontier: set<set<S>>, V: set<set<S>>)
    requires frontier <= visited
    requires forall S :: S in visited ==> S <= U && S != {}
    requires Targets(a) <= U
    requires forall S, x :: S in visited && S !in frontier && x in syms && DStep(a, S, x) != {}
               ==> DStep(a, S, x) in visited
    requires visited <= V && SubsetClosed(a, syms, V)
    ensures Explore(a, syms, U, visited, frontier) <= V
    decreases |PowerSet(U) - visited|
  {
    var next := Successors(a, syms, frontier) - visited;
    if next != {} {
      ExploreProgress(a, syms, U, visited, frontier);
      ExploreLeast(a, syms, U, visited + next, next, V);
    }
  }

  /** The subset the deterministic automaton starts in. */
  function DfaStart<S>(a: NFA<S>): set<S> {
    EClosure(a, {a.initialState})
  }

  /** The subsets the construction discovers from the start subset. */
  function DfaStates<S>(a: NFA<S>): set<set<S>> {
    Explore(a, a.sigma - {Epsilon}, {a.initialState} + Targets(a), {DfaStart(a)}, {DfaStart(a)})
  }

  /** `get_dfa`: one state per reachable subset, one transition per subset and symbol
      with a nonempty successor, and a subset is final when it holds a final state. */
  function GetDfa<S>(a: NFA<S>): NFA<set<S>> {
    var syms := a.sigma - {Epsilon};
    var states := DfaStates(a);
    NFA(states, syms,
        map S | S in states :: map x | x in syms && DStep(a, S, x) != {} :: {DStep(a, S, x)},
        DfaStart(a),
        set S | S in states && S * a.f != {})
  }

  /** The result of the subset construction is valid, whatever automaton it starts from. */
  lemma GetDfaValid<S>(a: NFA<S>)
    ensures IsValid(GetDfa(a))
  {
    var d := GetDfa(a);
    forall S | S in d.delta ensures RowValid(d, d.delta[S]) {
    }
  }

  /** The result is deterministic and has no epsilon transition. */
  lemma GetDfaDeterministic<S>(a: NFA<S>)
    ensures EpsilonFree(GetDfa(a))
    ensures forall S, x :: S in GetDfa(a).delta && x in GetDfa(a).delta[S] ==> |GetDfa(a).delta[S][x]| == 1
  {
  }

  /** The construction materializes only subsets reachable from the start subset: they
      lie in every set of subsets that holds the start and its successors. */
  lemma GetDfaReachable<S>(a: NFA<S>, V: set<set<S>>)
    requires DfaStart(a) in V && SubsetClosed(a, a.sigma - {Epsilon}, V)
    ensures GetDfa(a).q <= V
  {
    ExploreLeast(a, a.sigma - {Epsilon}, {a.initialState} + Targets(a), {DfaStart(a)}, {DfaStart(a)}, V);
  }

  /** One deterministic step from a subset goes to the single subset the
      nondeterministic step reaches, and that subset is a state. */
  lemma GetDfaStep<S>(a: NFA<S>, S: set<S>, c: char)
    requires IsValid(a) && S in GetDfa(a).q
    ensures Step(a, S, c) != {} ==> Step(a, S, c) in GetDfa(a).q
    ensures Step(GetDfa(a), {S}, c) == if Step(a, S, c) == {} then {} else {Step(a, S, c)}
  {
    var d := GetDfa(a);
    var x := [c];
    GetDfaDeterministic(a);
    ClosureEpsilonFree(d, Moves(d, {S}, x));
    MovesSingleton(d, S, x);
    if x !in a.sigma {
      MovesOffAlphabet(a, S, x);
      ClosureEmpty(a);
    } else {
      assert x in a.sigma - {Epsilon};
    }
  }

  /** From one subset the deterministic simulation holds exactly the subset the
      nondeterministic simulation reaches. */
  lemma {:induction false} GetDfaRun<S>(a: NFA<S>, S: set<S>, w: string)
    requires IsValid(a) && S in GetDfa(a).q
    ensures Run(a, S, w) != {} ==> Run(a, S, w) in GetDfa(a).q
    ensures Run(GetDfa(a), {S}, w) == if Run(a, S, w) == {} then {} else {Run(a, S, w)}
    decreases |w|
  {
    if w != [] {
      GetDfaStep(a, S, w[0]);
      var next := Step(a, S, w[0]);
      if next != {} {
        GetDfaRun(a, next, w[1..]);
        assert Run(GetDfa(a), {S}, w) == Run(GetDfa(a), {next}, w[1..]);
      } else {
        assert Run(GetDfa(a), {S}, w) == {};
      }
    }
  }

  /** `get_dfa` keeps `accept` on every string. */
  lemma GetDfaAccept<S>(a: NFA<S>, w: string)
    requires IsValid(a)
    ensures Accept(GetDfa(a), w) == Accept(a, w)
  {
    var d := GetDfa(a);
    GetDfaDeterministic(a);
    ClosureEpsilonFree(d, {d.initialState});
    GetDfaRun(a, DfaStart(a), w);
  }
}
