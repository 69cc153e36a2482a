/** The languages of the two operands of the product test, over all strings: an even
    number of a's, an even number of b's, and both at once for their product. */
module Parity {
  import opened Automata
  import opened Algebra
  import opened Scenarios

  /** Every character of `w` is a or b. */
  predicate OverAB(w: string) {
    forall i :: 0 <= i < |w| ==> w[i] == 'a' || w[i] == 'b'
  }

  /** The number of occurrences of `c` in `w`. */
  function Count(w: string, c: char): nat {
    multiset(w)[c]
  }

  /** A valid automaton over {a, b} with two states `s0` and `s1` and no epsilon
      transition, in which `t` swaps the two states and `u` keeps them. */
  predicate Toggles(a: NFA<string>, s0: string, s1: string, t: char, u: char) {
    && IsValid(a) && a.sigma == {[t], [u]} && s0 != s1 && {t, u} == {'a', 'b'}
    && Succ(a, s0, [t]) == {s1} && Succ(a, s1, [t]) == {s0}
    && Succ(a, s0, [u]) == {s0} && Succ(a, s1, [u]) == {s1}
    && Succ(a, s0, Epsilon) == {} && Succ(a, s1, Epsilon) == {}
  }

  /** One character read from a single state of such an automaton. */
  lemma ToggleStep(a: NFA<string>, s0: string, s1: string, t: char, u: char, s: string, c: char)
    requires Toggles(a, s0, s1, t, u) && (s == s0 || s == s1)
    ensures Step(a, {s}, c) == if c == t then {Flip(s0, s1, s)} else if c == u then {s} else {}
  {
    MovesSingleton(a, s, [c]);
    if c == t || c == u {
      var n := Succ(a, s, [c]);
      assert n == {s0} || n == {s1};
      assert EpsClosed(a, n);
      ClosureOfClosed(a, n);
    } else {
      assert [c] !in a.sigma;
      MovesOffAlphabet(a, {s}, [c]);
      ClosureEmpty(a);
    }
  }

  lemma OverABCons(w: string)
    requires w != []
    ensures OverAB(w) <==> (w[0] == 'a' || w[0] == 'b') && OverAB(w[1..])
  {
    var rest := w[1..];
    if (w[0] == 'a' || w[0] == 'b') && OverAB(rest) {
      forall i | 0 <= i < |w| ensures w[i] == 'a' || w[i] == 'b' {
        if i > 0 { assert w[i] == rest[i - 1]; }
      }
    }
    if OverAB(w) {
      forall i | 0 <= i < |rest| ensures rest[i] == 'a' || rest[i] == 'b' {
        assert rest[i] == w[i + 1];
      }
    }
  }

  lemma CountCons(w: string, t: char)
    requires w != []
    ensures Count(w, t) == Count(w[1..], t) + if w[0] == t then 1 else 0
  {
    assert w == [w[0]] + w[1..];
    assert multiset(w) == multiset([w[0]]) + multiset(w[1..]);
  }

  /** The other one of the two states. */
  function Flip(s0: string, s1: string, s: string): string {
    if s == s0 then s1 else s0
  }

  /** The frontier expected after reading `w` from the state `s`: none when `w` leaves
      {a, b}, otherwise `s` or the other state as the number of t's is even or odd. */
  function Expected(s0: string, s1: string, t: char, s: string, w: string): set<string> {
    if !OverAB(w) then {} else if Count(w, t) % 2 == 0 then {s} else {Flip(s0, s1, s)}
  }

  lemma ExpectedCons(s0: string, s1: string, t: char, u: char, s: string, w: string)
    requires w != [] && {t, u} == {'a', 'b'} && s0 != s1 && (s == s0 || s == s1)
    ensures w[0] == t ==> Expected(s0, s1, t, s, w) == Expected(s0, s1, t, Flip(s0, s1, s), w[1..])
    ensures w[0] == u ==> Expected(s0, s1, t, s, w) == Expected(s0, s1, t, s, w[1..])
    ensures w[0] != t && w[0] != u ==> Expected(s0, s1, t, s, w) == {}
  {
    OverABCons(w);
    CountCons(w, t);
    assert Flip(s0, s1, Flip(s0, s1, s)) == s;
  }

  /** The steps of such an automaton from each of its two states, on every character. */
  ghost predicate ToggleSteps(a: NFA<string>, s0: string, s1: string, t: char, u: char) {
    forall s, c {:trigger Step(a, {s}, c)} :: (s == s0 || s == s1) ==>
      Step(a, {s}, c) == if c == t then {Flip(s0, s1, s)} else if c == u then {s} else {}
  }

  lemma ToggleHasSteps(a: NFA<string>, s0: string, s1: string, t: char, u: char)
    requires Toggles(a, s0, s1, t, u)
    ensures ToggleSteps(a, s0, s1, t, u)
  {
    forall s, c | s == s0 || s == s1
      ensures Step(a, {s}, c) == if c == t then {Flip(s0, s1, s)} else if c == u then {s} else {}
    {
      ToggleStep(a, s0, s1, t, u, s, c);
    }
  }

  /** From one state, the simulation ends in the state the parity of the t's selects,
      and dies on any character other than a and b. */
  lemma {:induction false} ToggleRun(a: NFA<string>, s0: string, s1: string, t: char, u: char, s: string, w: string)
    requires ToggleSteps(a, s0, s1, t, u) && {t, u} == {'a', 'b'} && s0 != s1 && (s == s0 || s == s1)
    ensures Run(a, {s}, w) == Expected(s0, s1, t, s, w)
    decreases |w|
  {
    if w != [] {
      var c := w[0];
      ExpectedCons(s0, s1, t, u, s, w);
      assert Step(a, {s}, c) == if c == t then {Flip(s0, s1, s)} else if c == u then {s} else {};
      if c == t {
        ToggleRun(a, s0, s1, t, u, Flip(s0, s1, s), w[1..]);
      } else if c == u {
        ToggleRun(a, s0, s1, t, u, s, w[1..]);
      }
    }
  }

  /** An automaton of this shape started in its final state accepts exactly the strings
      over {a, b} with an even number of t's. */
  lemma ToggleAccept(a: NFA<string>, s0: string, s1: string, t: char, u: char, w: string)
    requires Toggles(a, s0, s1, t, u) && a.initialState == s0 && a.f == {s0}
    ensures Accept(a, w) <==> OverAB(w) && Count(w, t) % 2 == 0
  {
    assert EpsClosed(a, {s0});
    ClosureOfClosed(a, {s0});
    ToggleHasSteps(a, s0, s1, t, u);
    ToggleRun(a, s0, s1, t, u, s0, w);
  }

  /** The first operand of the product test accepts exactly the strings over {a, b}
      with an even number of a's. */
  lemma EvenALanguage(w: string)
    ensures Accept(EvenA, w) <==> OverAB(w) && Count(w, 'a') % 2 == 0
  {
    EvenAIsValid();
    EvenAHasTable(EvenA);
    ToggleAccept(EvenA, "A", "B", 'a', 'b', w);
  }

  /** The second operand accepts exactly the strings over {a, b} with an even number
      of b's. */
  lemma EvenBLanguage(w: string)
    ensures Accept(EvenB, w) <==> OverAB(w) && Count(w, 'b') % 2 == 0
  {
    EvenBIsValid();
    EvenBHasTable(EvenB);
    ToggleAccept(EvenB, "C", "D", 'b', 'a', w);
  }

  /** Their product accepts exactly the strings over {a, b} with an even number of a's
      and an even number of b's. */
  lemma ProductLanguage(w: string)
    ensures Accept(Product(EvenA, EvenB), w)
        <==> OverAB(w) && Count(w, 'a') % 2 == 0 && Count(w, 'b') % 2 == 0
  {
    EvenAIsValid();
    EvenBIsValid();
    ProductAccept(EvenA, EvenB, w);
    EvenALanguage(w);
    EvenBLanguage(w);
  }
}
