/** Two constructions as the engine documents them, each with a small automaton on which
    it loses a string, beside the construction the rest of the model uses. */
module Findings {
  import opened Automata
  import opened Determinization
  import opened Algebra

  // ---------------------------------------------------------------------------
  // Epsilon removal that closes only the direct destinations

  /** `remove_epsilon_transitions` as documented: the transitions of `s` on `x` lead to
      the closure of the direct destinations of `s` on `x`, and a state is final when its
      closure holds a final state. */
  function RemoveEpsilonAsDocumented<S>(a: NFA<S>): NFA<S> {
    var syms := a.sigma - {Epsilon};
    NFA(a.q, syms,
        map s | s in a.q :: map x | x in syms && EClosure(a, Succ(a, s, x)) != {} :: EClosure(a, Succ(a, s, x)),
        a.initialState,
        set s | s in a.q && EClosure(a, {s}) * a.f != {})
  }

  /** An epsilon transition out of the initial state, then one a. */
  const EpsilonThenA: NFA<int> := NFA({0, 1, 2}, {"a"}, map[0 := map["" := {1}], 1 := map["a" := {2}]], 0, {2})

  lemma EpsilonThenAValid()
    ensures IsValid(EpsilonThenA)
  {
  }

  /** The closure of the initial state reaches the state that reads a. */
  lemma EpsilonThenAStart()
    ensures EClosure(EpsilonThenA, {0}) == {0, 1}
  {
    var a := EpsilonThenA;
    assert Succ(a, 0, Epsilon) == {1} && Succ(a, 1, Epsilon) == {};
    assert Moves(a, {0}, Epsilon) == {1};
    assert EpsClosed(a, {0, 1});
    ClosureExact(a, {0}, {0, 1});
  }

  lemma EpsilonThenAAccepts()
    ensures Accept(EpsilonThenA, "a")
  {
    var a := EpsilonThenA;
    EpsilonThenAStart();
    assert Succ(a, 0, "a") == {} && Succ(a, 1, "a") == {2};
    assert Moves(a, {0, 1}, "a") == {2};
    assert Succ(a, 2, Epsilon) == {};
    ClosureOfClosed(a, {2});
    assert Run(a, {0, 1}, "a") == Run(a, {2}, "");
  }

  /** The documented removal has no transition out of the initial state on a, so it
      rejects a, which the automaton accepts. */
  lemma DocumentedRemovalLosesString()
    ensures IsValid(EpsilonThenA) && Accept(EpsilonThenA, "a")
    ensures !Accept(RemoveEpsilonAsDocumented(EpsilonThenA), "a")
  {
    EpsilonThenAValid();
    EpsilonThenAAccepts();
    var r := RemoveEpsilonAsDocumented(EpsilonThenA);
    assert EpsilonFree(r);
    ClosureEpsilonFree(r, {0});
    ClosureEmpty(EpsilonThenA);
    assert Succ(EpsilonThenA, 0, "a") == {};
    assert Succ(r, 0, "a") == {};
    MovesSingleton(r, 0, "a");
    ClosureEmpty(r);
    assert Run(r, {0}, "a") == {};
  }

  /** The removal the model uses keeps the string. */
  lemma RemovalKeepsString()
    ensures Accept(RemoveEpsilonTransitions(EpsilonThenA), "a")
  {
    EpsilonThenAValid();
    EpsilonThenAAccepts();
    RemoveEpsilonAccept(EpsilonThenA, "a");
  }

  // ---------------------------------------------------------------------------
  // The synchronous product of operands with epsilon transitions

  /** Accepts the empty string through an epsilon transition. */
  const EpsilonToFinal: NFA<int> := NFA({0, 1}, {"a"}, map[0 := map["" := {1}]], 0, {1})

  /** Accepts the empty string through its final initial state. */
  const FinalStart: NFA<int> := NFA({0}, {"a"}, map[], 0, {0})

  lemma EpsilonOperandsValid()
    ensures IsValid(EpsilonToFinal) && IsValid(FinalStart)
  {
  }

  lemma EpsilonOperandsAcceptEmpty()
    ensures Accept(EpsilonToFinal, "") && Accept(FinalStart, "")
  {
    var a := EpsilonToFinal;
    assert Succ(a, 0, Epsilon) == {1};
    ClosureThrough(a, 0);
    assert 1 in EClosure(a, {0}) * a.f;
    assert 0 in EClosure(FinalStart, {0}) * FinalStart.f;
  }

  /** Both operands accept the empty string, but the product, which follows an epsilon
      transition of one operand only when the other moves on epsilon as well, rejects it. */
  lemma ProductLosesString()
    ensures IsValid(EpsilonToFinal) && IsValid(FinalStart)
    ensures Accept(EpsilonToFinal, "") && Accept(FinalStart, "")
    ensures !Accept(Product(EpsilonToFinal, FinalStart), "")
  {
    EpsilonOperandsValid();
    EpsilonOperandsAcceptEmpty();
    var p := Product(EpsilonToFinal, FinalStart);
    assert Epsilon !in p.sigma;
    assert EpsilonFree(p);
    ClosureEpsilonFree(p, {p.initialState});
    assert p.f == {(1, 0)};
  }

  /** The epsilon-aware product keeps the string. */
  lemma ClosedProductKeepsString()
    ensures Accept(ClosedProduct(EpsilonToFinal, FinalStart), "")
  {
    EpsilonOperandsValid();
    EpsilonOperandsAcceptEmpty();
    ClosedProductAccept(EpsilonToFinal, FinalStart, "");
  }
}
