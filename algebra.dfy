/** The language algebra: `product`, `intersection` and `union`. Pair states and the
    states of a union are values of their own types, so no renaming by strings is needed
    to keep the operands apart. */
module Algebra {
  import opened Automata
  import opened Embeddings
  import opened Determinization

  // ---------------------------------------------------------------------------
  // Product

  function Pairs<S, T>(X: set<S>, Y: set<T>): set<(S, T)> {
    set s, t | s in X && t in Y :: (s, t)
  }

  lemma PairsEmpty<S, T>(X: set<S>, Y: set<T>)
    ensures Pairs(X, Y) == {} <==> X == {} || Y == {}
  {
    if X != {} && Y != {} {
      var s :| s in X;
      var t :| t in Y;
      assert (s, t) in Pairs(X, Y);
    }
  }

  lemma PairsMeet<S, T>(X: set<S>, Y: set<T>, X': set<S>, Y': set<T>)
    ensures Pairs(X, Y) * Pairs(X', Y') != {} <==> X * X' != {} && Y * Y' != {}
  {
    if X * X' != {} && Y * Y' != {} {
      var s :| s in X * X';
      var t :| t in Y * Y';
      assert (s, t) in Pairs(X, Y) * Pairs(X', Y');
    }
    if Pairs(X, Y) * Pairs(X', Y') != {} {
      var u :| u in Pairs(X, Y) * Pairs(X', Y');
      assert u.0 in X * X' && u.1 in Y * Y';
    }
  }

  /** The transitions of the pair `p` on the shared symbols: every combination of a
      destination of each component, kept only where there is one. */
  function ProductRow<S, T>(a: NFA<S>, b: NFA<T>, p: (S, T)): map<Symbol, set<(S, T)>> {
    map x | x in a.sigma * b.sigma && Pairs(Succ(a, p.0, x), Succ(b, p.1, x)) != {}
          :: Pairs(Succ(a, p.0, x), Succ(b, p.1, x))
  }

  /** `product`: the synchronous product over all pairs of states, on the symbols both
      alphabets have; a pair is final when both components are final. */
  function Product<S, T>(a: NFA<S>, b: NFA<T>): NFA<(S, T)> {
    NFA(Pairs(a.q, b.q),
        a.sigma * b.sigma,
        map p | p in Pairs(a.q, b.q) :: ProductRow(a, b, p),
        (a.initialState, b.initialState),
        Pairs(a.f, b.f))
  }

  /** The product of valid automata is valid. */
  lemma ProductValid<S, T>(a: NFA<S>, b: NFA<T>)
    requires IsValid(a) && IsValid(b)
    ensures IsValid(Product(a, b))
  {
    var p := Product(a, b);
    forall u | u in p.delta ensures RowValid(p, p.delta[u]) {
      forall x | x in p.delta[u] ensures p.delta[u][x] <= p.q {
        SuccInStates(a, u.0, x);
        SuccInStates(b, u.1, x);
      }
    }
  }

  lemma ProductSucc<S, T>(a: NFA<S>, b: NFA<T>, s: S, t: T, x: Symbol)
    requires IsValid(a) && IsValid(b) && s in a.q && t in b.q && x != Epsilon
    ensures Succ(Product(a, b), (s, t), x) == Pairs(Succ(a, s, x), Succ(b, t, x))
  {
    assert (s, t) in Pairs(a.q, b.q);
    if x !in a.sigma {
      MovesOffAlphabet(a, {s}, x);
      MovesSingleton(a, s, x);
    } else if x !in b.sigma {
      MovesOffAlphabet(b, {t}, x);
      MovesSingleton(b, t, x);
    }
  }

  lemma ProductMoves<S, T>(a: NFA<S>, b: NFA<T>, X: set<S>, Y: set<T>, x: Symbol)
    requires IsValid(a) && IsValid(b) && X <= a.q && Y <= b.q && x != Epsilon
    ensures Moves(Product(a, b), Pairs(X, Y), x) == Pairs(Moves(a, X, x), Moves(b, Y, x))
  {
    var p := Product(a, b);
    forall u | u in Moves(p, Pairs(X, Y), x) ensures u in Pairs(Moves(a, X, x), Moves(b, Y, x)) {
      var st :| st in Pairs(X, Y) && u in Succ(p, st, x);
      ProductSucc(a, b, st.0, st.1, x);
    }
    forall u | u in Pairs(Moves(a, X, x), Moves(b, Y, x)) ensures u in Moves(p, Pairs(X, Y), x) {
      var s0, t0 :| s0 in Moves(a, X, x) && t0 in Moves(b, Y, x) && u == (s0, t0);
      var s :| s in X && s0 in Succ(a, s, x);
      var t :| t in Y && t0 in Succ(b, t, x);
      ProductSucc(a, b, s, t, x);
      assert (s, t) in Pairs(X, Y);
      assert u in Pairs(Succ(a, s, x), Succ(b, t, x));
      assert u in Succ(p, (s, t), x);
    }
  }

  /** With epsilon-free operands the product has no epsilon destination. */
  lemma ProductEpsClosed<S, T>(a: NFA<S>, b: NFA<T>, P: set<(S, T)>)
    requires EpsilonFree(a) && EpsilonFree(b)
    ensures EClosure(Product(a, b), P) == P
  {
    var p := Product(a, b);
    forall u | u in P ensures Succ(p, u, Epsilon) <= P {
      assert Succ(a, u.0, Epsilon) == {};
      assert Succ(b, u.1, Epsilon) == {};
      PairsEmpty(Succ(a, u.0, Epsilon), Succ(b, u.1, Epsilon));
    }
    ClosureOfClosed(p, P);
  }

  /** The product simulation is the pairing of the two simulations. */
  lemma {:induction false} ProductRun<S, T>(a: NFA<S>, b: NFA<T>, X: set<S>, Y: set<T>, w: string)
    requires IsValid(a) && IsValid(b) && EpsilonFree(a) && EpsilonFree(b)
    requires X <= a.q && Y <= b.q
    ensures Run(Product(a, b), Pairs(X, Y), w) == Pairs(Run(a, X, w), Run(b, Y, w))
    decreases |w|
  {
    if w != [] {
      var x := [w[0]];
      ProductMoves(a, b, X, Y, x);
      ProductEpsClosed(a, b, Moves(Product(a, b), Pairs(X, Y), x));
      var nx, ny := Moves(a, X, x), Moves(b, Y, x);
      ClosureEpsilonFree(a, nx);
      ClosureEpsilonFree(b, ny);
      PairsEmpty(nx, ny);
      MovesInStates(a, X, x);
      MovesInStates(b, Y, x);
      RunEmpty(a, w[1..]);
      RunEmpty(b, w[1..]);
      PairsEmpty(Run(a, nx, w[1..]), Run(b, ny, w[1..]));
      if nx != {} && ny != {} {
        ProductRun(a, b, nx, ny, w[1..]);
      }
    }
  }

  /** The product accepts exactly the strings both epsilon-free operands accept. */
  lemma ProductAccept<S, T>(a: NFA<S>, b: NFA<T>, w: string)
    requires IsValid(a) && IsValid(b) && EpsilonFree(a) && EpsilonFree(b)
    ensures Accept(Product(a, b), w) <==> Accept(a, w) && Accept(b, w)
  {
    var p := Product(a, b);
    assert {p.initialState} == Pairs({a.initialState}, {b.initialState});
    ProductEpsClosed(a, b, {p.initialState});
    ClosureEpsilonFree(a, {a.initialState});
    ClosureEpsilonFree(b, {b.initialState});
    ProductRun(a, b, {a.initialState}, {b.initialState}, w);
    PairsMeet(Run(a, {a.initialState}, w), Run(b, {b.initialState}, w), a.f, b.f);
  }

  // ---------------------------------------------------------------------------
  // Reachable part and intersection

  /** The destinations of every transition from `X`, on any label. */
  function AllMoves<S>(a: NFA<S>, X: set<S>): set<S> {
    set s, x, t | s in X && s in a.delta && x in a.delta[s] && t in a.delta[s][x] :: t
  }

  lemma SuccInAllMoves<S>(a: NFA<S>, X: set<S>, s: S, x: Symbol)
    requires s in X
    ensures Succ(a, s, x) <= AllMoves(a, X)
  {
  }

  lemma AllMovesInTargets<S>(a: NFA<S>, X: set<S>)
    ensures AllMoves(a, X) <= Targets(a)
  {
  }

  lemma AllMovesUnion<S>(a: NFA<S>, X: set<S>, Y: set<S>)
    ensures AllMoves(a, X + Y) == AllMoves(a, X) + AllMoves(a, Y)
  {
  }

  lemma AllMovesMono<S>(a: NFA<S>, X: set<S>, Y: set<S>)
    requires X <= Y
    ensures AllMoves(a, X) <= AllMoves(a, Y)
  {
  }

  /** Breadth-first search over all transitions, visiting each state once. */
  function ReachFrom<S>(a: NFA<S>, U: set<S>, visited: set<S>, frontier: set<S>): (r: set<S>)
    requires frontier <= visited <= U
    requires Targets(a) <= U
    requires AllMoves(a, visited - frontier) <= visited
    ensures visited <= r <= U
    ensures AllMoves(a, r) <= r
    decreases |U - visited|
  {
    var next := AllMoves(a, frontier) - visited;
    AllMovesUnion(a, visited - frontier, frontier);
    assert visited == (visited - frontier) + frontier;
    if next == {} then
      assert AllMoves(a, frontier) <= visited by {
        forall t | t in AllMoves(a, frontier) ensures t in visited {
          assert t !in next;
        }
      }
      visited
    else
      AllMovesInTargets(a, frontier);
      assert U - (visited + next) < U - visited;
      assert (visited + next) - next == visited;
      ReachFrom(a, U, visited + next, next)
  }

  lemma {:induction false} ReachFromLeast<S>(a: NFA<S>, U: set<S>, visited: set<S>, frontier: set<S>, V: set<S>)
    requires frontier <= visited <= U
    requires Targets(a) <= U
    requires AllMoves(a, visited - frontier) <= visited
    requires visited <= V && AllMoves(a, V) <= V
    ensures ReachFrom(a, U, visited, frontier) <= V
    decreases |U - visited|
  {
    var next := AllMoves(a, frontier) - visited;
    if next != {} {
      AllMovesUnion(a, visited - frontier, frontier);
      assert visited == (visited - frontier) + frontier;
      AllMovesInTargets(a, frontier);
      assert U - (visited + next) < U - visited;
      assert (visited + next) - next == visited;
      AllMovesMono(a, frontier, V);
      ReachFromLeast(a, U, visited + next, next, V);
    }
  }

  /** The states reachable from the initial state. */
  function Reachable<S>(a: NFA<S>): set<S> {
    ReachFrom(a, {a.initialState} + Targets(a), {a.initialState}, {a.initialState})
  }

  /** The reachable states lie in every set that holds the initial state and that no
      transition leaves. */
  lemma ReachableLeast<S>(a: NFA<S>, V: set<S>)
    requires a.initialState in V && AllMoves(a, V) <= V
    ensures a.initialState in Reachable(a) && Reachable(a) <= V
  {
    ReachFromLeast(a, {a.initialState} + Targets(a), {a.initialState}, {a.initialState}, V);
  }

  /** The automaton cut down to its reachable states. */
  function Trim<S>(a: NFA<S>): NFA<S> {
    var R := Reachable(a);
    NFA(R, a.sigma, map s | s in R && s in a.delta :: a.delta[s], a.initialState, R * a.f)
  }

  lemma TrimValid<S>(a: NFA<S>)
    requires IsValid(a)
    ensures IsValid(Trim(a))
  {
    var R := Reachable(a);
    var t := Trim(a);
    assert R <= a.q by {
      AllMovesInTargets(a, a.q);
      ReachableLeast(a, a.q);
    }
    forall s | s in t.delta ensures RowValid(t, t.delta[s]) {
      forall x | x in t.delta[s] ensures t.delta[s][x] <= R {
        SuccInAllMoves(a, R, s, x);
      }
    }
  }

  /** Cutting to the reachable states keeps `accept` on every string. */
  lemma TrimAccept<S>(a: NFA<S>, w: string)
    ensures Accept(Trim(a), w) == Accept(a, w)
  {
    var R := Reachable(a);
    var t := Trim(a);
    var id := map s | s in R :: s;
    forall X | X <= R ensures Image(id, X) == X {
    }
    forall s, x | s in R ensures Succ(a, s, x) <= R && Image(id, Succ(a, s, x)) == Succ(t, id[s], x) {
      SuccInAllMoves(a, R, s, x);
    }
    assert Embeds(a, t, id, R);
    ReachableLeast(a, {a.initialState} + Targets(a));
    EmbedAccept(a, t, id, R, w);
  }

  /** `intersection`: the product restricted to the pairs reachable from the initial pair. */
  function Intersection<S, T>(a: NFA<S>, b: NFA<T>): NFA<(S, T)> {
    Trim(Product(a, b))
  }

  lemma IntersectionValid<S, T>(a: NFA<S>, b: NFA<T>)
    requires IsValid(a) && IsValid(b)
    ensures IsValid(Intersection(a, b))
  {
    ProductValid(a, b);
    TrimValid(Product(a, b));
  }

  /** The intersection accepts exactly the strings both epsilon-free operands accept. */
  lemma IntersectionAccept<S, T>(a: NFA<S>, b: NFA<T>, w: string)
    requires IsValid(a) && IsValid(b) && EpsilonFree(a) && EpsilonFree(b)
    ensures Accept(Intersection(a, b), w) <==> Accept(a, w) && Accept(b, w)
  {
    TrimAccept(Product(a, b), w);
    ProductAccept(a, b, w);
  }

  /** The final pairs of the intersection are pairs of final states. */
  lemma IntersectionFinals<S, T>(a: NFA<S>, b: NFA<T>)
    ensures Intersection(a, b).f <= Pairs(a.f, b.f)
  {
  }

  // ---------------------------------------------------------------------------
  // Product and intersection of operands with epsilon transitions

  /** The product of the two operands with their epsilon transitions removed first. */
  function ClosedProduct<S, T>(a: NFA<S>, b: NFA<T>): NFA<(S, T)> {
    Product(RemoveEpsilonTransitions(a), RemoveEpsilonTransitions(b))
  }

  /** Removing the epsilon transitions first makes the product law hold for every pair of
      valid operands. */
  lemma ClosedProductAccept<S, T>(a: NFA<S>, b: NFA<T>, w: string)
    requires IsValid(a) && IsValid(b)
    ensures Accept(ClosedProduct(a, b), w) <==> Accept(a, w) && Accept(b, w)
  {
    RemoveEpsilonValid(a);
    RemoveEpsilonValid(b);
    RemoveEpsilonAccept(a, w);
    RemoveEpsilonAccept(b, w);
    ProductAccept(RemoveEpsilonTransitions(a), RemoveEpsilonTransitions(b), w);
  }

  /** On epsilon-free operands the two products accept the same strings. */
  lemma ClosedProductAgrees<S, T>(a: NFA<S>, b: NFA<T>, w: string)
    requires IsValid(a) && IsValid(b) && EpsilonFree(a) && EpsilonFree(b)
    ensures Accept(ClosedProduct(a, b), w) == Accept(Product(a, b), w)
  {
    ClosedProductAccept(a, b, w);
    ProductAccept(a, b, w);
  }

  /** The reachable part of the product of the operands with their epsilon transitions
      removed first. */
  function ClosedIntersection<S, T>(a: NFA<S>, b: NFA<T>): NFA<(S, T)> {
    Trim(ClosedProduct(a, b))
  }

  lemma ClosedIntersectionAccept<S, T>(a: NFA<S>, b: NFA<T>, w: string)
    requires IsValid(a) && IsValid(b)
    ensures Accept(ClosedIntersection(a, b), w) <==> Accept(a, w) && Accept(b, w)
  {
    TrimAccept(ClosedProduct(a, b), w);
    ClosedProductAccept(a, b, w);
  }

  // ---------------------------------------------------------------------------
  // Union

  /** The states of a union: a fresh initial state and the states of either operand,
      tagged so that the two operands never share a state. */
  datatype UnionState<S, T> = Start | Left(left: S) | Right(right: T)

  function LeftRow<S, T(==)>(row: map<Symbol, set<S>>): map<Symbol, set<UnionState<S, T>>> {
    map x | x in row :: set s | s in row[x] :: Left(s)
  }

  function RightRow<S(==), T>(row: map<Symbol, set<T>>): map<Symbol, set<UnionState<S, T>>> {
    map x | x in row :: set t | t in row[x] :: Right(t)
  }

  function UnionRow<S, T>(a: NFA<S>, b: NFA<T>, u: UnionState<S, T>): map<Symbol, set<UnionState<S, T>>> {
    match u
    case Start => map[Epsilon := {Left(a.initialState), Right(b.initialState)}]
    case Left(s) => if s in a.delta then LeftRow(a.delta[s]) else map[]
    case Right(t) => if t in b.delta then RightRow(b.delta[t]) else map[]
  }

  function LeftMap<S, T>(a: NFA<S>): map<S, UnionState<S, T>> {
    map s | s in a.q :: Left(s)
  }

  function RightMap<S, T>(b: NFA<T>): map<T, UnionState<S, T>> {
    map t | t in b.q :: Right(t)
  }

  /** `union`: a fresh initial state with epsilon transitions to both initial states;
      the operands' states, transitions and final states are carried over. */
  function Union<S, T>(a: NFA<S>, b: NFA<T>): NFA<UnionState<S, T>> {
    var keys := {Start} + (set s | s in a.delta :: Left(s)) + (set t | t in b.delta :: Right(t));
    NFA({Start} + (set s | s in a.q :: Left(s)) + (set t | t in b.q :: Right(t)),
        a.sigma + b.sigma,
        map u | u in keys :: UnionRow(a, b, u),
        Start,
        (set s | s in a.f :: Left(s)) + (set t | t in b.f :: Right(t)))
  }

  /** The union of valid automata is valid. */
  lemma UnionValid<S, T>(a: NFA<S>, b: NFA<T>)
    requires IsValid(a) && IsValid(b)
    ensures IsValid(Union(a, b))
  {
    var n := Union(a, b);
    forall u | u in n.delta ensures u in n.q && RowValid(n, n.delta[u]) {
      match u
      case Start =>
      case Left(s) =>
        assert RowValid(a, a.delta[s]);
      case Right(t) =>
        assert RowValid(b, b.delta[t]);
    }
  }

  lemma UnionEmbedsLeft<S, T>(a: NFA<S>, b: NFA<T>)
    requires IsValid(a)
    ensures Embeds(a, Union(a, b), LeftMap(a), a.q)
  {
    var n := Union(a, b);
    var h: map<S, UnionState<S, T>> := LeftMap(a);
    forall s, x | s in a.q ensures Succ(a, s, x) <= a.q && Image(h, Succ(a, s, x)) == Succ(n, h[s], x) {
      SuccInStates(a, s, x);
    }
  }

  lemma UnionEmbedsRight<S, T>(a: NFA<S>, b: NFA<T>)
    requires IsValid(b)
    ensures Embeds(b, Union(a, b), RightMap(b), b.q)
  {
    var n := Union(a, b);
    var h: map<T, UnionState<S, T>> := RightMap(b);
    forall t, x | t in b.q ensures Succ(b, t, x) <= b.q && Image(h, Succ(b, t, x)) == Succ(n, h[t], x) {
      SuccInStates(b, t, x);
    }
  }

  lemma UnionStartSucc<S, T>(a: NFA<S>, b: NFA<T>, x: Symbol)
    ensures Succ(Union(a, b), Start, x)
         == if x == Epsilon then {Left(a.initialState), Right(b.initialState)} else {}
  {
  }

  /** The fresh initial state is not final. */
  lemma UnionStartNotFinal<S, T>(a: NFA<S>, b: NFA<T>)
    ensures Start !in Union(a, b).f
  {
  }

  /** The union accepts exactly the strings either operand accepts. */
  lemma UnionAccept<S, T>(a: NFA<S>, b: NFA<T>, w: string)
    requires IsValid(a) && IsValid(b)
    ensures Accept(Union(a, b), w) <==> Accept(a, w) || Accept(b, w)
  {
    var n := Union(a, b);
    UnionEmbedsLeft(a, b);
    UnionEmbedsRight(a, b);
    forall x ensures Succ(n, n.initialState, x)
                  == if x == Epsilon then {LeftMap<S, T>(a)[a.initialState], RightMap<S, T>(b)[b.initialState]} else {} {
      UnionStartSucc(a, b, x);
    }
    UnionStartNotFinal(a, b);
    EmbedClosure(a, n, LeftMap(a), a.q, {a.initialState});
    EmbedClosure(b, n, RightMap(b), b.q, {b.initialState});
    ForkAccept(a, b, n, LeftMap(a), a.q, RightMap(b), b.q, w);
  }
}
