/** Simulation along a state map. When a map `h` sends a part `D` of automaton `a` into
    automaton `b` so that every transition of `D` corresponds to a transition of `b` and
    finality agrees, the simulation of `b` from `h`'s image follows the simulation of `a`.
    Renumbering, the two halves of a union and the reachable part of a product are
    all instances. */
module Embeddings {
  import opened Automata

  function Image<S, T>(h: map<S, T>, X: set<S>): set<T>
    requires X <= h.Keys
  {
    set s | s in X :: h[s]
  }

  /** `D` is closed under the transitions of `a`, `h` maps it, its transitions map onto
      the transitions of `b` from the images, and `h` keeps finality. */
  ghost predicate Embeds<S, T>(a: NFA<S>, b: NFA<T>, h: map<S, T>, D: set<S>) {
    && D <= h.Keys
    && (forall s, x {:trigger Succ(a, s, x)} :: s in D ==>
          Succ(a, s, x) <= D && Image(h, Succ(a, s, x)) == Succ(b, h[s], x))
    && (forall s :: s in D ==> (h[s] in b.f <==> s in a.f))
  }

  lemma ImageEmpty<S, T>(h: map<S, T>, X: set<S>)
    requires X <= h.Keys
    ensures Image(h, X) == {} <==> X == {}
  {
    if X != {} {
      var s :| s in X;
      assert h[s] in Image(h, X);
    }
  }

  lemma EmbedMoves<S, T>(a: NFA<S>, b: NFA<T>, h: map<S, T>, D: set<S>, X: set<S>, x: Symbol)
    requires Embeds(a, b, h, D) && X <= D
    ensures Moves(a, X, x) <= D
    ensures Moves(b, Image(h, X), x) == Image(h, Moves(a, X, x))
  {
    var M := Moves(a, X, x);
    assert M <= D by {
      forall t | t in M ensures t in D {
        var s :| s in X && t in Succ(a, s, x);
        assert Succ(a, s, x) <= D;
      }
    }
    forall u | u in Moves(b, Image(h, X), x) ensures u in Image(h, M) {
      var hs :| hs in Image(h, X) && u in Succ(b, hs, x);
      var s :| s in X && h[s] == hs;
      assert u in Image(h, Succ(a, s, x));
      var t :| t in Succ(a, s, x) && h[t] == u;
      assert t in M;
    }
    forall u | u in Image(h, M) ensures u in Moves(b, Image(h, X), x) {
      var t :| t in M && h[t] == u;
      var s :| s in X && t in Succ(a, s, x);
      assert u in Image(h, Succ(a, s, x));
      assert h[s] in Image(h, X);
    }
  }

  lemma EmbedClosure<S, T>(a: NFA<S>, b: NFA<T>, h: map<S, T>, D: set<S>, X: set<S>)
    requires Embeds(a, b, h, D) && X <= D
    ensures EClosure(a, X) <= D
    ensures EClosure(b, Image(h, X)) == Image(h, EClosure(a, X))
  {
    assert EpsClosed(a, D) by {
      forall s | s in D ensures Succ(a, s, Epsilon) <= D {
        assert Succ(a, s, Epsilon) <= D;
      }
    }
    ClosureLeast(a, X, D);
    var C := EClosure(a, X);
    var C' := EClosure(b, Image(h, X));
    // the image of the closure is closed in b
    forall u | u in Image(h, C) ensures Succ(b, u, Epsilon) <= Image(h, C) {
      var s :| s in C && h[s] == u;
      assert Succ(a, s, Epsilon) <= C;
      assert Image(h, Succ(a, s, Epsilon)) == Succ(b, h[s], Epsilon);
    }
    ClosureLeast(b, Image(h, X), Image(h, C));
    // the states of D whose images are in C' form a closed set of a
    var V := set s | s in D && h[s] in C';
    forall s | s in V ensures Succ(a, s, Epsilon) <= V {
      assert Image(h, Succ(a, s, Epsilon)) == Succ(b, h[s], Epsilon);
      forall t | t in Succ(a, s, Epsilon) ensures t in V {
        assert h[t] in Image(h, Succ(a, s, Epsilon));
      }
    }
    forall s | s in X ensures s in V {
      assert h[s] in Image(h, X);
    }
    ClosureLeast(a, X, V);
  }

  lemma {:induction false} EmbedRun<S, T>(a: NFA<S>, b: NFA<T>, h: map<S, T>, D: set<S>, X: set<S>, w: string)
    requires Embeds(a, b, h, D) && X <= D
    ensures Run(a, X, w) <= D
    ensures Run(b, Image(h, X), w) == Image(h, Run(a, X, w))
    decreases |w|
  {
    if w != [] {
      var x := [w[0]];
      EmbedMoves(a, b, h, D, X, x);
      EmbedClosure(a, b, h, D, Moves(a, X, x));
      var next := Step(a, X, w[0]);
      ImageEmpty(h, next);
      EmbedRun(a, b, h, D, next, w[1..]);
    }
  }

  /** The image of a part of `D` holds a final state of `b` exactly when the part
      holds a final state of `a`. */
  lemma EmbedFinal<S, T>(a: NFA<S>, b: NFA<T>, h: map<S, T>, D: set<S>, X: set<S>)
    requires Embeds(a, b, h, D) && X <= D
    ensures Image(h, X) * b.f != {} <==> X * a.f != {}
  {
    if X * a.f != {} {
      var s :| s in X * a.f;
      assert h[s] in Image(h, X) * b.f;
    }
    if Image(h, X) * b.f != {} {
      var u :| u in Image(h, X) * b.f;
      var s :| s in X && h[s] == u;
      assert s in X * a.f;
    }
  }

  /** An embedding that sends the initial state to the initial state keeps `accept`. */
  lemma EmbedAccept<S, T>(a: NFA<S>, b: NFA<T>, h: map<S, T>, D: set<S>, w: string)
    requires Embeds(a, b, h, D) && a.initialState in D && h[a.initialState] == b.initialState
    ensures Accept(b, w) == Accept(a, w)
  {
    assert Image(h, {a.initialState}) == {b.initialState};
    EmbedClosure(a, b, h, D, {a.initialState});
    var start := EClosure(a, {a.initialState});
    EmbedRun(a, b, h, D, start, w);
    EmbedFinal(a, b, h, D, Run(a, start, w));
  }

  /** An automaton `n` whose initial state is not final, reads nothing, and moves on
      epsilon exactly to the images of the initial states of two embedded automata. */
  ghost predicate Forks<S, T, U>(a: NFA<S>, b: NFA<T>, n: NFA<U>, hl: map<S, U>, Da: set<S>, hr: map<T, U>, Db: set<T>) {
    && Embeds(a, n, hl, Da) && Embeds(b, n, hr, Db)
    && a.initialState in Da && b.initialState in Db
    && EClosure(a, {a.initialState}) <= Da && EClosure(b, {b.initialState}) <= Db
    && n.initialState !in n.f
    && (forall x :: Succ(n, n.initialState, x)
          == if x == Epsilon then {hl[a.initialState], hr[b.initialState]} else {})
  }

  /** The closure of the image of an initial state is the image of its closure. */
  lemma EmbedInitClosure<S, T>(a: NFA<S>, n: NFA<T>, h: map<S, T>, D: set<S>)
    requires Embeds(a, n, h, D) && a.initialState in D
    ensures EClosure(a, {a.initialState}) <= D
    ensures EClosure(n, {h[a.initialState]}) == Image(h, EClosure(a, {a.initialState}))
  {
    assert Image(h, {a.initialState}) == {h[a.initialState]};
    EmbedClosure(a, n, h, D, {a.initialState});
  }

  /** A state whose epsilon transitions lead to `u` and `v` alone: its closure is the
      state itself and the closures of `u` and `v`. */
  lemma ClosureOfFork<U>(n: NFA<U>, s: U, u: U, v: U)
    requires Succ(n, s, Epsilon) == {u} + {v}
    ensures EClosure(n, {s}) == {s} + EClosure(n, {u}) + EClosure(n, {v})
  {
    ClosureThrough(n, s);
    ClosureUnion(n, {u}, {v});
  }

  lemma ForkClosure<S, T, U>(a: NFA<S>, b: NFA<T>, n: NFA<U>, hl: map<S, U>, Da: set<S>, hr: map<T, U>, Db: set<T>)
    requires Forks(a, b, n, hl, Da, hr, Db)
    ensures EClosure(n, {n.initialState})
         == {n.initialState} + Image(hl, EClosure(a, {a.initialState}))
                             + Image(hr, EClosure(b, {b.initialState}))
  {
    var ia, ib := hl[a.initialState], hr[b.initialState];
    assert Succ(n, n.initialState, Epsilon) == {ia} + {ib};
    ClosureOfFork(n, n.initialState, ia, ib);
    EmbedInitClosure(a, n, hl, Da);
    EmbedInitClosure(b, n, hr, Db);
  }

  /** From the initial state alone of a forking automaton no character can be read. */
  lemma ForkStartRun<S, T, U>(a: NFA<S>, b: NFA<T>, n: NFA<U>, hl: map<S, U>, Da: set<S>, hr: map<T, U>, Db: set<T>, w: string)
    requires Forks(a, b, n, hl, Da, hr, Db)
    ensures Run(n, {n.initialState}, w) == if w == [] then {n.initialState} else {}
  {
    if w != [] {
      assert Succ(n, n.initialState, [w[0]]) == {};
      MovesSingleton(n, n.initialState, [w[0]]);
      ClosureEmpty(n);
    }
  }

  /** A forking automaton accepts exactly the strings either embedded automaton accepts. */
  lemma ForkAccept<S, T, U>(a: NFA<S>, b: NFA<T>, n: NFA<U>, hl: map<S, U>, Da: set<S>, hr: map<T, U>, Db: set<T>, w: string)
    requires Forks(a, b, n, hl, Da, hr, Db)
    ensures Accept(n, w) <==> Accept(a, w) || Accept(b, w)
  {
    var ca, cb := EClosure(a, {a.initialState}), EClosure(b, {b.initialState});
    var la, lb := Image(hl, ca), Image(hr, cb);
    ForkClosure(a, b, n, hl, Da, hr, Db);
    EmbedClosure(a, n, hl, Da, {a.initialState});
    EmbedClosure(b, n, hr, Db, {b.initialState});
    assert EClosure(n, {n.initialState}) == ({n.initialState} + la) + lb;
    RunUnion(n, {n.initialState} + la, lb, w);
    RunUnion(n, {n.initialState}, la, w);
    ForkStartRun(a, b, n, hl, Da, hr, Db, w);
    EmbedRun(a, n, hl, Da, ca, w);
    EmbedRun(b, n, hr, Db, cb, w);
    EmbedFinal(a, n, hl, Da, Run(a, ca, w));
    EmbedFinal(b, n, hr, Db, Run(b, cb, w));
  }
}
