/** The concrete automata of the engine's test suite and the answers it expects from
    them. Each scenario is proved by following the simulation one frontier at a time;
    the answers of derived automata follow from the general laws. */
module Scenarios {
  import opened Automata
  import opened Embeddings
  import opened Determinization
  import opened Algebra
  import opened Renumbering

  // ---------------------------------------------------------------------------
  // Evaluating steps on concrete state sets

  lemma Moves1<S>(a: NFA<S>, s1: S, x: Symbol, Y1: set<S>)
    requires Succ(a, s1, x) == Y1
    ensures Moves(a, {s1}, x) == Y1
  {
    MovesSingleton(a, s1, x);
  }

  lemma Moves2<S>(a: NFA<S>, s1: S, s2: S, x: Symbol, Y1: set<S>, Y2: set<S>)
    requires Succ(a, s1, x) == Y1 && Succ(a, s2, x) == Y2
    ensures Moves(a, {s1, s2}, x) == Y1 + Y2
  {
    MovesSingleton(a, s1, x);
    MovesSingleton(a, s2, x);
    MovesUnion(a, {s1}, {s2}, x);
    assert {s1, s2} == {s1} + {s2};
  }

  lemma Moves3<S>(a: NFA<S>, s1: S, s2: S, s3: S, x: Symbol, Y1: set<S>, Y2: set<S>, Y3: set<S>)
    requires Succ(a, s1, x) == Y1 && Succ(a, s2, x) == Y2 && Succ(a, s3, x) == Y3
    ensures Moves(a, {s1, s2, s3}, x) == Y1 + Y2 + Y3
  {
    Moves2(a, s1, s2, x, Y1, Y2);
    MovesSingleton(a, s3, x);
    MovesUnion(a, {s1, s2}, {s3}, x);
    assert {s1, s2, s3} == {s1, s2} + {s3};
  }

  lemma Moves4<S>(a: NFA<S>, s1: S, s2: S, s3: S, s4: S, x: Symbol,
                  Y1: set<S>, Y2: set<S>, Y3: set<S>, Y4: set<S>)
    requires Succ(a, s1, x) == Y1 && Succ(a, s2, x) == Y2 && Succ(a, s3, x) == Y3
    requires Succ(a, s4, x) == Y4
    ensures Moves(a, {s1, s2, s3, s4}, x) == Y1 + Y2 + Y3 + Y4
  {
    Moves3(a, s1, s2, s3, x, Y1, Y2, Y3);
    MovesSingleton(a, s4, x);
    MovesUnion(a, {s1, s2, s3}, {s4}, x);
    assert {s1, s2, s3, s4} == {s1, s2, s3} + {s4};
  }

  lemma Moves5<S>(a: NFA<S>, s1: S, s2: S, s3: S, s4: S, s5: S, x: Symbol,
                  Y1: set<S>, Y2: set<S>, Y3: set<S>, Y4: set<S>, Y5: set<S>)
    requires Succ(a, s1, x) == Y1 && Succ(a, s2, x) == Y2 && Succ(a, s3, x) == Y3
    requires Succ(a, s4, x) == Y4 && Succ(a, s5, x) == Y5
    ensures Moves(a, {s1, s2, s3, s4, s5}, x) == Y1 + Y2 + Y3 + Y4 + Y5
  {
    Moves4(a, s1, s2, s3, s4, x, Y1, Y2, Y3, Y4);
    MovesSingleton(a, s5, x);
    MovesUnion(a, {s1, s2, s3, s4}, {s5}, x);
    assert {s1, s2, s3, s4, s5} == {s1, s2, s3, s4} + {s5};
  }

  // ---------------------------------------------------------------------------
  // One step of the simulation, as a rewriting of `Run`

  /** Reading `c` from the frontier `X` leads to the frontier `Y`, and the simulation
      carries on from there whatever follows. */
  ghost predicate Leads<S>(a: NFA<S>, X: set<S>, c: char, Y: set<S>) {
    forall w: string {:trigger Run(a, X, [c] + w)} :: Run(a, X, [c] + w) == Run(a, Y, w)
  }

  /** Reading `c` from the frontier `X` leaves no possible state, whatever follows. */
  ghost predicate Halts<S>(a: NFA<S>, X: set<S>, c: char) {
    forall w: string {:trigger Run(a, X, [c] + w)} :: Run(a, X, [c] + w) == {}
  }

  lemma StepLeads<S>(a: NFA<S>, X: set<S>, c: char, Y: set<S>)
    requires Step(a, X, c) == Y && Y != {}
    ensures Leads(a, X, c, Y)
  {
    forall w: string ensures Run(a, X, [c] + w) == Run(a, Y, w) {
      RunCons(a, X, c, w);
    }
  }

  lemma StepHalts<S>(a: NFA<S>, X: set<S>, c: char)
    requires Step(a, X, c) == {}
    ensures Halts(a, X, c)
  {
    forall w: string ensures Run(a, X, [c] + w) == {} {
      RunCons(a, X, c, w);
    }
  }


  // ---------------------------------------------------------------------------
  // The automaton `fa`: strings over {0, 1} that contain 11 or 101

  /** Strings over 0 and 1 that contain 11 or 101; q2 moves to q3 on epsilon. */
  const Fa: NFA<string> := NFA(
    {"q1", "q2", "q3", "q4"},
    {"0", "1"},
    map["q1" := map["0" := {"q1"}, "1" := {"q1", "q2"}],
        "q2" := map["" := {"q3"}, "0" := {"q3"}],
        "q3" := map["1" := {"q4"}],
        "q4" := map["0" := {"q4"}, "1" := {"q4"}]],
    "q1",
    {"q4"})

  lemma FaValid(a: NFA<string>)
    requires a == Fa
    ensures IsValid(a)
  {
    assert a.delta.Keys == {"q1", "q2", "q3", "q4"};
    forall s | s in a.delta ensures s in a.q && RowValid(a, a.delta[s]) {
      if s == "q1" { assert a.delta[s] == map["0" := {"q1"}, "1" := {"q1", "q2"}]; }
      else if s == "q2" { assert a.delta[s] == map["" := {"q3"}, "0" := {"q3"}]; }
      else if s == "q3" { assert a.delta[s] == map["1" := {"q4"}]; }
      else { assert a.delta[s] == map["0" := {"q4"}, "1" := {"q4"}]; }
    }
  }

  /** `Fa` is valid. */
  lemma FaIsValid()
    ensures IsValid(Fa)
  {
    FaValid(Fa);
  }

  /** `a` has the transitions of `Fa`, epsilon included. */
  predicate FaTable(a: NFA<string>) {
    && Succ(a, "q1", "0") == {"q1"} && Succ(a, "q1", "1") == {"q1", "q2"} && Succ(a, "q1", "") == {}
    && Succ(a, "q2", "0") == {"q3"} && Succ(a, "q2", "1") == {} && Succ(a, "q2", "") == {"q3"}
    && Succ(a, "q3", "0") == {} && Succ(a, "q3", "1") == {"q4"} && Succ(a, "q3", "") == {}
    && Succ(a, "q4", "0") == {"q4"} && Succ(a, "q4", "1") == {"q4"} && Succ(a, "q4", "") == {}
  }

  lemma FaRowQ1(a: NFA<string>)
    requires a == Fa
    ensures Succ(a, "q1", "0") == {"q1"} && Succ(a, "q1", "1") == {"q1", "q2"} && Succ(a, "q1", "") == {}
  {
  }

  lemma FaRowQ2(a: NFA<string>)
    requires a == Fa
    ensures Succ(a, "q2", "0") == {"q3"} && Succ(a, "q2", "1") == {} && Succ(a, "q2", "") == {"q3"}
  {
  }

  lemma FaRowQ3(a: NFA<string>)
    requires a == Fa
    ensures Succ(a, "q3", "0") == {} && Succ(a, "q3", "1") == {"q4"} && Succ(a, "q3", "") == {}
  {
  }

  lemma FaRowQ4(a: NFA<string>)
    requires a == Fa
    ensures Succ(a, "q4", "0") == {"q4"} && Succ(a, "q4", "1") == {"q4"} && Succ(a, "q4", "") == {}
  {
  }

  lemma FaHasTable(a: NFA<string>)
    requires a == Fa
    ensures FaTable(a)
  {
    FaRowQ1(a);
    FaRowQ2(a);
    FaRowQ3(a);
    FaRowQ4(a);
  }


  /** The only epsilon transition of `fa` goes from q2 to q3. */
  lemma FaClosure(a: NFA<string>, M: set<string>)
    requires FaTable(a) && M <= {"q1", "q2", "q3", "q4"}
    ensures EClosure(a, M) == if "q2" in M then M + {"q3"} else M
  {
    var C := if "q2" in M then M + {"q3"} else M;
    forall s | s in C ensures Succ(a, s, Epsilon) <= C {
      assert s == "q1" || s == "q2" || s == "q3" || s == "q4";
    }
    if "q2" in M {
      assert "q3" in Moves(a, M, Epsilon);
    }
    ClosureExact(a, M, C);
  }

  lemma FaStart(a: NFA<string>)
    requires FaTable(a) && a.initialState == "q1"
    ensures EClosure(a, {a.initialState}) == {"q1"}
  {
    FaClosure(a, {"q1"});
  }

  lemma FaStep1(a: NFA<string>)
    requires FaTable(a)
    ensures Leads(a, {"q1"}, '0', {"q1"})
  {
    Moves1(a, "q1", "0", {"q1"});
    assert Moves(a, {"q1"}, "0") == {"q1"};
    FaClosure(a, {"q1"});
    StepLeads(a, {"q1"}, '0', {"q1"});
  }

  lemma FaStep2(a: NFA<string>)
    requires FaTable(a)
    ensures Leads(a, {"q1"}, '1', {"q1", "q2", "q3"})
  {
    Moves1(a, "q1", "1", {"q1", "q2"});
    assert Moves(a, {"q1"}, "1") == {"q1", "q2"};
    FaClosure(a, {"q1", "q2"});
    StepLeads(a, {"q1"}, '1', {"q1", "q2", "q3"});
  }

  lemma FaStep3(a: NFA<string>)
    requires FaTable(a)
    ensures Leads(a, {"q1", "q2", "q3"}, '1', {"q1", "q2", "q3", "q4"})
  {
    Moves3(a, "q1", "q2", "q3", "1", {"q1", "q2"}, {}, {"q4"});
    assert Moves(a, {"q1", "q2", "q3"}, "1") == {"q1", "q2", "q4"};
    FaClosure(a, {"q1", "q2", "q4"});
    StepLeads(a, {"q1", "q2", "q3"}, '1', {"q1", "q2", "q3", "q4"});
  }

  lemma FaStep4(a: NFA<string>)
    requires FaTable(a)
    ensures Leads(a, {"q1", "q2", "q3", "q4"}, '0', {"q1", "q3", "q4"})
  {
    Moves4(a, "q1", "q2", "q3", "q4", "0", {"q1"}, {"q3"}, {}, {"q4"});
    assert Moves(a, {"q1", "q2", "q3", "q4"}, "0") == {"q1", "q3", "q4"};
    FaClosure(a, {"q1", "q3", "q4"});
    StepLeads(a, {"q1", "q2", "q3", "q4"}, '0', {"q1", "q3", "q4"});
  }

  lemma FaStep5(a: NFA<string>)
    requires FaTable(a)
    ensures Leads(a, {"q1", "q3", "q4"}, '0', {"q1", "q4"})
  {
    Moves3(a, "q1", "q3", "q4", "0", {"q1"}, {}, {"q4"});
    assert Moves(a, {"q1", "q3", "q4"}, "0") == {"q1", "q4"};
    FaClosure(a, {"q1", "q4"});
    StepLeads(a, {"q1", "q3", "q4"}, '0', {"q1", "q4"});
  }

  lemma FaStep6(a: NFA<string>)
    requires FaTable(a)
    ensures Leads(a, {"q1", "q4"}, '0', {"q1", "q4"})
  {
    Moves2(a, "q1", "q4", "0", {"q1"}, {"q4"});
    assert Moves(a, {"q1", "q4"}, "0") == {"q1", "q4"};
    FaClosure(a, {"q1", "q4"});
    StepLeads(a, {"q1", "q4"}, '0', {"q1", "q4"});
  }

  lemma FaStep7(a: NFA<string>)
    requires FaTable(a)
    ensures Leads(a, {"q1", "q4"}, '1', {"q1", "q2", "q3", "q4"})
  {
    Moves2(a, "q1", "q4", "1", {"q1", "q2"}, {"q4"});
    assert Moves(a, {"q1", "q4"}, "1") == {"q1", "q2", "q4"};
    FaClosure(a, {"q1", "q2", "q4"});
    StepLeads(a, {"q1", "q4"}, '1', {"q1", "q2", "q3", "q4"});
  }

  lemma FaAccepts000001100001Part1(a: NFA<string>)
    requires FaTable(a)
    ensures Run(a, {"q1"}, "000001100001") == Run(a, {"q1"}, "0001100001")
  {
    FaStep1(a);
    assert "000001100001" == ['0'] + "00001100001";
    assert "00001100001" == ['0'] + "0001100001";
  }

  lemma FaAccepts000001100001Part2(a: NFA<string>)
    requires FaTable(a)
    ensures Run(a, {"q1"}, "0001100001") == Run(a, {"q1"}, "01100001")
  {
    FaStep1(a);
    assert "0001100001" == ['0'] + "001100001";
    assert "001100001" == ['0'] + "01100001";
  }

  lemma FaAccepts000001100001Part3(a: NFA<string>)
    requires FaTable(a)
    ensures Run(a, {"q1"}, "01100001") == Run(a, {"q1", "q2", "q3"}, "100001")
  {
    FaStep1(a);
    FaStep2(a);
    assert "01100001" == ['0'] + "1100001";
    assert "1100001" == ['1'] + "100001";
  }

  lemma FaAccepts000001100001Part4(a: NFA<string>)
    requires FaTable(a)
    ensures Run(a, {"q1", "q2", "q3"}, "100001") == Run(a, {"q1", "q3", "q4"}, "0001")
  {
    FaStep3(a);
    FaStep4(a);
    assert "100001" == ['1'] + "00001";
    assert "00001" == ['0'] + "0001";
  }

  lemma FaAccepts000001100001Part5(a: NFA<string>)
    requires FaTable(a)
    ensures Run(a, {"q1", "q3", "q4"}, "0001") == Run(a, {"q1", "q4"}, "01")
  {
    FaStep5(a);
    FaStep6(a);
    assert "0001" == ['0'] + "001";
    assert "001" == ['0'] + "01";
  }

  lemma FaAccepts000001100001Part6(a: NFA<string>)
    requires FaTable(a)
    ensures Run(a, {"q1", "q4"}, "01") == {"q1", "q2", "q3", "q4"}
  {
    FaStep6(a);
    FaStep7(a);
    assert "01" == ['0'] + "1";
    assert "1" == ['1'] + "";
  }

  lemma FaAccepts000001100001Run(a: NFA<string>)
    requires FaTable(a)
    ensures Run(a, {"q1"}, "000001100001") == {"q1", "q2", "q3", "q4"}
  {
    FaAccepts000001100001Part1(a);
    FaAccepts000001100001Part2(a);
    FaAccepts000001100001Part3(a);
    FaAccepts000001100001Part4(a);
    FaAccepts000001100001Part5(a);
    FaAccepts000001100001Part6(a);
  }

  lemma FaAccepts0000011Part1(a: NFA<string>)
    requires FaTable(a)
    ensures Run(a, {"q1"}, "0000011") == Run(a, {"q1"}, "00011")
  {
    FaStep1(a);
    assert "0000011" == ['0'] + "000011";
    assert "000011" == ['0'] + "00011";
  }

  lemma FaAccepts0000011Part2(a: NFA<string>)
    requires FaTable(a)
    ensures Run(a, {"q1"}, "00011") == Run(a, {"q1"}, "011")
  {
    FaStep1(a);
    assert "00011" == ['0'] + "0011";
    assert "0011" == ['0'] + "011";
  }

  lemma FaAccepts0000011Part3(a: NFA<string>)
    requires FaTable(a)
    ensures Run(a, {"q1"}, "011") == Run(a, {"q1", "q2", "q3"}, "1")
  {
    FaStep1(a);
    FaStep2(a);
    assert "011" == ['0'] + "11";
    assert "11" == ['1'] + "1";
  }

  lemma FaAccepts0000011Part4(a: NFA<string>)
    requires FaTable(a)
    ensures Run(a, {"q1", "q2", "q3"}, "1") == {"q1", "q2", "q3", "q4"}
  {
    FaStep3(a);
    assert "1" == ['1'] + "";
  }

  lemma FaAccepts0000011Run(a: NFA<string>)
    requires FaTable(a)
    ensures Run(a, {"q1"}, "0000011") == {"q1", "q2", "q3", "q4"}
  {
    FaAccepts0000011Part1(a);
    FaAccepts0000011Part2(a);
    FaAccepts0000011Part3(a);
    FaAccepts0000011Part4(a);
  }

  lemma FaRejects000001Part1(a: NFA<string>)
    requires FaTable(a)
    ensures Run(a, {"q1"}, "000001") == Run(a, {"q1"}, "0001")
  {
    FaStep1(a);
    assert "000001" == ['0'] + "00001";
    assert "00001" == ['0'] + "0001";
  }

  lemma FaRejects000001Part2(a: NFA<string>)
    requires FaTable(a)
    ensures Run(a, {"q1"}, "0001") == Run(a, {"q1"}, "01")
  {
    FaStep1(a);
    assert "0001" == ['0'] + "001";
    assert "001" == ['0'] + "01";
  }

  lemma FaRejects000001Part3(a: NFA<string>)
    requires FaTable(a)
    ensures Run(a, {"q1"}, "01") == {"q1", "q2", "q3"}
  {
    FaStep1(a);
    FaStep2(a);
    assert "01" == ['0'] + "1";
    assert "1" == ['1'] + "";
  }

  lemma FaRejects000001Run(a: NFA<string>)
    requires FaTable(a)
    ensures Run(a, {"q1"}, "000001") == {"q1", "q2", "q3"}
  {
    FaRejects000001Part1(a);
    FaRejects000001Part2(a);
    FaRejects000001Part3(a);
  }

  /** `fa` accepts 000001100001. */
  lemma FaAccepts000001100001()
    ensures Accept(Fa, "000001100001")
  {
    FaHasTable(Fa);
    FaStart(Fa);
    FaAccepts000001100001Run(Fa);
    assert "q4" in {"q1", "q2", "q3", "q4"} * Fa.f;
  }

  /** `fa` accepts 0000011; the last step needs the epsilon transition from q2 to q3. */
  lemma FaAccepts0000011()
    ensures Accept(Fa, "0000011")
  {
    FaHasTable(Fa);
    FaStart(Fa);
    FaAccepts0000011Run(Fa);
    assert "q4" in {"q1", "q2", "q3", "q4"} * Fa.f;
  }

  /** `fa` rejects 000001. */
  lemma FaRejects000001()
    ensures !Accept(Fa, "000001")
  {
    FaHasTable(Fa);
    FaStart(Fa);
    FaRejects000001Run(Fa);
    assert {"q1", "q2", "q3"} * Fa.f == {};
  }

  /** `fa` with the epsilon transition from q2 to q3 cut away. */
  const FaCut: NFA<string> := NFA(
    {"q1", "q2", "q3", "q4"},
    {"0", "1"},
    map["q1" := map["0" := {"q1"}, "1" := {"q1", "q2"}],
        "q2" := map["0" := {"q3"}],
        "q3" := map["1" := {"q4"}],
        "q4" := map["0" := {"q4"}, "1" := {"q4"}]],
    "q1",
    {"q4"})

  /** `a` has the transitions of `FaCut`, epsilon included. */
  predicate FaCutTable(a: NFA<string>) {
    && Succ(a, "q1", "0") == {"q1"} && Succ(a, "q1", "1") == {"q1", "q2"} && Succ(a, "q1", "") == {}
    && Succ(a, "q2", "0") == {"q3"} && Succ(a, "q2", "1") == {} && Succ(a, "q2", "") == {}
    && Succ(a, "q3", "0") == {} && Succ(a, "q3", "1") == {"q4"} && Succ(a, "q3", "") == {}
    && Succ(a, "q4", "0") == {"q4"} && Succ(a, "q4", "1") == {"q4"} && Succ(a, "q4", "") == {}
  }

  lemma FaCutRowQ1(a: NFA<string>)
    requires a == FaCut
    ensures Succ(a, "q1", "0") == {"q1"} && Succ(a, "q1", "1") == {"q1", "q2"} && Succ(a, "q1", "") == {}
  {
  }

  lemma FaCutRowQ2(a: NFA<string>)
    requires a == FaCut
    ensures Succ(a, "q2", "0") == {"q3"} && Succ(a, "q2", "1") == {} && Succ(a, "q2", "") == {}
  {
  }

  lemma FaCutRowQ3(a: NFA<string>)
    requires a == FaCut
    ensures Succ(a, "q3", "0") == {} && Succ(a, "q3", "1") == {"q4"} && Succ(a, "q3", "") == {}
  {
  }

  lemma FaCutRowQ4(a: NFA<string>)
    requires a == FaCut
    ensures Succ(a, "q4", "0") == {"q4"} && Succ(a, "q4", "1") == {"q4"} && Succ(a, "q4", "") == {}
  {
  }

  lemma FaCutHasTable(a: NFA<string>)
    requires a == FaCut
    ensures FaCutTable(a)
  {
    FaCutRowQ1(a);
    FaCutRowQ2(a);
    FaCutRowQ3(a);
    FaCutRowQ4(a);
  }

  /** No epsilon transition leaves a set of states of `FaCut`. */
  lemma FaCutClosed(a: NFA<string>, X: set<string>)
    requires FaCutTable(a)
    requires X <= {"q1", "q2", "q3", "q4"}
    ensures EClosure(a, X) == X
  {
    forall s | s in X ensures Succ(a, s, Epsilon) <= X {
      assert s == "q1" || s == "q2" || s == "q3" || s == "q4";
    }
    ClosureOfClosed(a, X);
  }

  lemma FaCutStart(a: NFA<string>)
    requires FaCutTable(a)
    requires a.initialState == "q1"
    ensures EClosure(a, {a.initialState}) == {"q1"}
  {
    FaCutClosed(a, {"q1"});
  }

  lemma FaCutStep1(a: NFA<string>)
    requires FaCutTable(a)
    ensures Leads(a, {"q1"}, '0', {"q1"})
  {
    Moves1(a, "q1", "0", {"q1"});
    assert Moves(a, {"q1"}, "0") == {"q1"};
    FaCutClosed(a, {"q1"});
    StepLeads(a, {"q1"}, '0', {"q1"});
  }

  lemma FaCutStep2(a: NFA<string>)
    requires FaCutTable(a)
    ensures Leads(a, {"q1"}, '1', {"q1", "q2"})
  {
    Moves1(a, "q1", "1", {"q1", "q2"});
    assert Moves(a, {"q1"}, "1") == {"q1", "q2"};
    FaCutClosed(a, {"q1", "q2"});
    StepLeads(a, {"q1"}, '1', {"q1", "q2"});
  }

  lemma FaCutStep3(a: NFA<string>)
    requires FaCutTable(a)
    ensures Leads(a, {"q1", "q2"}, '1', {"q1", "q2"})
  {
    Moves2(a, "q1", "q2", "1", {"q1", "q2"}, {});
    assert Moves(a, {"q1", "q2"}, "1") == {"q1", "q2"};
    FaCutClosed(a, {"q1", "q2"});
    StepLeads(a, {"q1", "q2"}, '1', {"q1", "q2"});
  }

  lemma FaCutRejects0000011Part1(a: NFA<string>)
    requires FaCutTable(a)
    ensures Run(a, {"q1"}, "0000011") == Run(a, {"q1"}, "00011")
  {
    FaCutStep1(a);
    assert "0000011" == ['0'] + "000011";
    assert "000011" == ['0'] + "00011";
  }

  lemma FaCutRejects0000011Part2(a: NFA<string>)
    requires FaCutTable(a)
    ensures Run(a, {"q1"}, "00011") == Run(a, {"q1"}, "011")
  {
    FaCutStep1(a);
    assert "00011" == ['0'] + "0011";
    assert "0011" == ['0'] + "011";
  }

  lemma FaCutRejects0000011Part3(a: NFA<string>)
    requires FaCutTable(a)
    ensures Run(a, {"q1"}, "011") == Run(a, {"q1", "q2"}, "1")
  {
    FaCutStep1(a);
    FaCutStep2(a);
    assert "011" == ['0'] + "11";
    assert "11" == ['1'] + "1";
  }

  lemma FaCutRejects0000011Part4(a: NFA<string>)
    requires FaCutTable(a)
    ensures Run(a, {"q1", "q2"}, "1") == {"q1", "q2"}
  {
    FaCutStep3(a);
    assert "1" == ['1'] + "";
  }

  lemma FaCutRejects0000011Run(a: NFA<string>)
    requires FaCutTable(a)
    ensures Run(a, {"q1"}, "0000011") == {"q1", "q2"}
  {
    FaCutRejects0000011Part1(a);
    FaCutRejects0000011Part2(a);
    FaCutRejects0000011Part3(a);
    FaCutRejects0000011Part4(a);
  }

  /** Without the epsilon transition, the run on 0000011 ends in q1 and q2. */
  lemma FaCutRejects0000011()
    ensures !Accept(FaCut, "0000011")
  {
    FaCutHasTable(FaCut);
    FaCutStart(FaCut);
    FaCutRejects0000011Run(FaCut);
    assert {"q1", "q2"} * FaCut.f == {};
  }

  /** `FaCut` is `fa` with the row of q2 cut to its transition on 0. */
  lemma FaCutIsFaWithoutEpsilon()
    ensures FaCut == Fa.(delta := Fa.delta["q2" := map["0" := {"q3"}]])
  {
  }

  /** Accepting 0000011 needs the epsilon transition from q2 to q3: `fa` accepts it, and
      `fa` without that transition rejects it. */
  lemma FaNeedsEpsilon()
    ensures Accept(Fa, "0000011")
    ensures FaCut == Fa.(delta := Fa.delta["q2" := map["0" := {"q3"}]])
    ensures !Accept(FaCut, "0000011")
  {
    FaAccepts0000011();
    FaCutIsFaWithoutEpsilon();
    FaCutRejects0000011();
  }


  /** The subset construction of `fa` gives the same answers. */
  lemma FaDfaAnswers()
    ensures !Accept(GetDfa(Fa), "000001")
    ensures Accept(GetDfa(Fa), "0000011")
  {
    FaIsValid();
    GetDfaAccept(Fa, "000001");
    GetDfaAccept(Fa, "0000011");
    FaRejects000001();
    FaAccepts0000011();
  }

  // ---------------------------------------------------------------------------
  // The automaton `fa_1`: a cycle closed by the epsilon transition from 3 back to 1, and "" in the alphabet

  const FaOne: NFA<string> := NFA(
    {"3", "1", "2", "4", "0"},
    {"", "AA", "BB", "DD", "CC"},
    map["0" := map["AA" := {"1"}],
        "1" := map["BB" := {"2"}],
        "2" := map["CC" := {"3"}],
        "3" := map["" := {"1"}, "DD" := {"4"}]],
    "0",
    {"4"})

  lemma FaOneIsValid()
    ensures IsValid(FaOne)
  {
  }

  /** Removing the epsilon transitions of `fa_1` gives a valid automaton with no
      epsilon transition. */
  lemma FaOneRemoveEpsilonValid()
    ensures IsValid(RemoveEpsilonTransitions(FaOne))
    ensures EpsilonFree(RemoveEpsilonTransitions(FaOne))
  {
    FaOneIsValid();
    RemoveEpsilonValid(FaOne);
  }

  /** The subset construction of `fa_1` is valid and deterministic. */
  lemma FaOneDfaValid()
    ensures IsValid(GetDfa(FaOne))
    ensures EpsilonFree(GetDfa(FaOne))
  {
    GetDfaValid(FaOne);
    GetDfaDeterministic(FaOne);
  }

  // ---------------------------------------------------------------------------
  // product: an even number of a's and an even number of b's

  /** An even number of a's. */
  const EvenA: NFA<string> := NFA(
    {"A", "B"},
    {"a", "b"},
    map["A" := map["a" := {"B"}, "b" := {"A"}],
        "B" := map["a" := {"A"}, "b" := {"B"}]],
    "A",
    {"A"})

  /** An even number of b's. */
  const EvenB: NFA<string> := NFA(
    {"C", "D"},
    {"a", "b"},
    map["C" := map["a" := {"C"}, "b" := {"D"}],
        "D" := map["a" := {"D"}, "b" := {"C"}]],
    "C",
    {"C"})

  lemma EvenAValid(a: NFA<string>)
    requires a == EvenA
    ensures IsValid(a) && EpsilonFree(a)
  {
    assert a.delta.Keys == {"A", "B"};
    forall s | s in a.delta ensures s in a.q && RowValid(a, a.delta[s]) && Epsilon !in a.delta[s] {
      if s == "A" { assert a.delta[s] == map["a" := {"B"}, "b" := {"A"}]; }
      else { assert a.delta[s] == map["a" := {"A"}, "b" := {"B"}]; }
    }
  }

  /** `EvenA` is valid and has no epsilon transition. */
  lemma EvenAIsValid()
    ensures IsValid(EvenA) && EpsilonFree(EvenA)
  {
    EvenAValid(EvenA);
  }

  /** `a` has the transitions of `EvenA`, epsilon included. */
  predicate EvenATable(a: NFA<string>) {
    && Succ(a, "A", "a") == {"B"} && Succ(a, "A", "b") == {"A"} && Succ(a, "A", "") == {}
    && Succ(a, "B", "a") == {"A"} && Succ(a, "B", "b") == {"B"} && Succ(a, "B", "") == {}
  }

  lemma EvenAHasTable(a: NFA<string>)
    requires a == EvenA
    ensures EvenATable(a)
  {
  }

  /** No epsilon transition leaves a set of states of `EvenA`. */
  lemma EvenAClosed(a: NFA<string>, X: set<string>)
    requires EvenATable(a)
    requires X <= {"A", "B"}
    ensures EClosure(a, X) == X
  {
    forall s | s in X ensures Succ(a, s, Epsilon) <= X {
      assert s == "A" || s == "B";
    }
    ClosureOfClosed(a, X);
  }

  lemma EvenAStart(a: NFA<string>)
    requires EvenATable(a)
    requires a.initialState == "A"
    ensures EClosure(a, {a.initialState}) == {"A"}
  {
    EvenAClosed(a, {"A"});
  }

  lemma EvenAStep1(a: NFA<string>)
    requires EvenATable(a)
    ensures Leads(a, {"A"}, 'b', {"A"})
  {
    Moves1(a, "A", "b", {"A"});
    assert Moves(a, {"A"}, "b") == {"A"};
    EvenAClosed(a, {"A"});
    StepLeads(a, {"A"}, 'b', {"A"});
  }

  lemma EvenAStep2(a: NFA<string>)
    requires EvenATable(a)
    ensures Leads(a, {"A"}, 'a', {"B"})
  {
    Moves1(a, "A", "a", {"B"});
    assert Moves(a, {"A"}, "a") == {"B"};
    EvenAClosed(a, {"B"});
    StepLeads(a, {"A"}, 'a', {"B"});
  }

  lemma EvenAStep3(a: NFA<string>)
    requires EvenATable(a)
    ensures Leads(a, {"B"}, 'a', {"A"})
  {
    Moves1(a, "B", "a", {"A"});
    assert Moves(a, {"B"}, "a") == {"A"};
    EvenAClosed(a, {"A"});
    StepLeads(a, {"B"}, 'a', {"A"});
  }

  lemma EvenAAcceptsBbRun(a: NFA<string>)
    requires EvenATable(a)
    ensures Run(a, {"A"}, "bb") == {"A"}
  {
    EvenAStep1(a);
    assert "bb" == ['b'] + "b";
    assert "b" == ['b'] + "";
  }

  lemma EvenAAcceptsBbaaPart1(a: NFA<string>)
    requires EvenATable(a)
    ensures Run(a, {"A"}, "bbaa") == Run(a, {"A"}, "aa")
  {
    EvenAStep1(a);
    assert "bbaa" == ['b'] + "baa";
    assert "baa" == ['b'] + "aa";
  }

  lemma EvenAAcceptsBbaaPart2(a: NFA<string>)
    requires EvenATable(a)
    ensures Run(a, {"A"}, "aa") == {"A"}
  {
    EvenAStep2(a);
    EvenAStep3(a);
    assert "aa" == ['a'] + "a";
    assert "a" == ['a'] + "";
  }

  lemma EvenAAcceptsBbaaRun(a: NFA<string>)
    requires EvenATable(a)
    ensures Run(a, {"A"}, "bbaa") == {"A"}
  {
    EvenAAcceptsBbaaPart1(a);
    EvenAAcceptsBbaaPart2(a);
  }

  lemma EvenARejectsBbaaaPart1(a: NFA<string>)
    requires EvenATable(a)
    ensures Run(a, {"A"}, "bbaaa") == Run(a, {"A"}, "aaa")
  {
    EvenAStep1(a);
    assert "bbaaa" == ['b'] + "baaa";
    assert "baaa" == ['b'] + "aaa";
  }

  lemma EvenARejectsBbaaaPart2(a: NFA<string>)
    requires EvenATable(a)
    ensures Run(a, {"A"}, "aaa") == Run(a, {"A"}, "a")
  {
    EvenAStep2(a);
    EvenAStep3(a);
    assert "aaa" == ['a'] + "aa";
    assert "aa" == ['a'] + "a";
  }

  lemma EvenARejectsBbaaaPart3(a: NFA<string>)
    requires EvenATable(a)
    ensures Run(a, {"A"}, "a") == {"B"}
  {
    EvenAStep2(a);
    assert "a" == ['a'] + "";
  }

  lemma EvenARejectsBbaaaRun(a: NFA<string>)
    requires EvenATable(a)
    ensures Run(a, {"A"}, "bbaaa") == {"B"}
  {
    EvenARejectsBbaaaPart1(a);
    EvenARejectsBbaaaPart2(a);
    EvenARejectsBbaaaPart3(a);
  }

  /** The empty string has no a. */
  lemma EvenAAcceptsEmpty()
    ensures Accept(EvenA, "")
  {
    EvenAHasTable(EvenA);
    EvenAStart(EvenA);
    assert "A" in {"A"} * EvenA.f;
  }

  /** bb has no a. */
  lemma EvenAAcceptsBb()
    ensures Accept(EvenA, "bb")
  {
    EvenAHasTable(EvenA);
    EvenAStart(EvenA);
    EvenAAcceptsBbRun(EvenA);
    assert "A" in {"A"} * EvenA.f;
  }

  /** bbaa has two a's. */
  lemma EvenAAcceptsBbaa()
    ensures Accept(EvenA, "bbaa")
  {
    EvenAHasTable(EvenA);
    EvenAStart(EvenA);
    EvenAAcceptsBbaaRun(EvenA);
    assert "A" in {"A"} * EvenA.f;
  }

  /** bbaaa has three a's. */
  lemma EvenARejectsBbaaa()
    ensures !Accept(EvenA, "bbaaa")
  {
    EvenAHasTable(EvenA);
    EvenAStart(EvenA);
    EvenARejectsBbaaaRun(EvenA);
    assert {"B"} * EvenA.f == {};
  }

  lemma EvenBValid(a: NFA<string>)
    requires a == EvenB
    ensures IsValid(a) && EpsilonFree(a)
  {
    assert a.delta.Keys == {"C", "D"};
    forall s | s in a.delta ensures s in a.q && RowValid(a, a.delta[s]) && Epsilon !in a.delta[s] {
      if s == "C" { assert a.delta[s] == map["a" := {"C"}, "b" := {"D"}]; }
      else { assert a.delta[s] == map["a" := {"D"}, "b" := {"C"}]; }
    }
  }

  /** `EvenB` is valid and has no epsilon transition. */
  lemma EvenBIsValid()
    ensures IsValid(EvenB) && EpsilonFree(EvenB)
  {
    EvenBValid(EvenB);
  }

  /** `a` has the transitions of `EvenB`, epsilon included. */
  predicate EvenBTable(a: NFA<string>) {
    && Succ(a, "C", "a") == {"C"} && Succ(a, "C", "b") == {"D"} && Succ(a, "C", "") == {}
    && Succ(a, "D", "a") == {"D"} && Succ(a, "D", "b") == {"C"} && Succ(a, "D", "") == {}
  }

  lemma EvenBHasTable(a: NFA<string>)
    requires a == EvenB
    ensures EvenBTable(a)
  {
  }

  /** No epsilon transition leaves a set of states of `EvenB`. */
  lemma EvenBClosed(a: NFA<string>, X: set<string>)
    requires EvenBTable(a)
    requires X <= {"C", "D"}
    ensures EClosure(a, X) == X
  {
    forall s | s in X ensures Succ(a, s, Epsilon) <= X {
      assert s == "C" || s == "D";
    }
    ClosureOfClosed(a, X);
  }

  lemma EvenBStart(a: NFA<string>)
    requires EvenBTable(a)
    requires a.initialState == "C"
    ensures EClosure(a, {a.initialState}) == {"C"}
  {
    EvenBClosed(a, {"C"});
  }

  lemma EvenBStep1(a: NFA<string>)
    requires EvenBTable(a)
    ensures Leads(a, {"C"}, 'b', {"D"})
  {
    Moves1(a, "C", "b", {"D"});
    assert Moves(a, {"C"}, "b") == {"D"};
    EvenBClosed(a, {"D"});
    StepLeads(a, {"C"}, 'b', {"D"});
  }

  lemma EvenBStep2(a: NFA<string>)
    requires EvenBTable(a)
    ensures Leads(a, {"D"}, 'b', {"C"})
  {
    Moves1(a, "D", "b", {"C"});
    assert Moves(a, {"D"}, "b") == {"C"};
    EvenBClosed(a, {"C"});
    StepLeads(a, {"D"}, 'b', {"C"});
  }

  lemma EvenBStep3(a: NFA<string>)
    requires EvenBTable(a)
    ensures Leads(a, {"C"}, 'a', {"C"})
  {
    Moves1(a, "C", "a", {"C"});
    assert Moves(a, {"C"}, "a") == {"C"};
    EvenBClosed(a, {"C"});
    StepLeads(a, {"C"}, 'a', {"C"});
  }

  lemma EvenBAcceptsBbRun(a: NFA<string>)
    requires EvenBTable(a)
    ensures Run(a, {"C"}, "bb") == {"C"}
  {
    EvenBStep1(a);
    EvenBStep2(a);
    assert "bb" == ['b'] + "b";
    assert "b" == ['b'] + "";
  }

  lemma EvenBRejectsBRun(a: NFA<string>)
    requires EvenBTable(a)
    ensures Run(a, {"C"}, "b") == {"D"}
  {
    EvenBStep1(a);
    assert "b" == ['b'] + "";
  }

  lemma EvenBAcceptsBbaaPart1(a: NFA<string>)
    requires EvenBTable(a)
    ensures Run(a, {"C"}, "bbaa") == Run(a, {"C"}, "aa")
  {
    EvenBStep1(a);
    EvenBStep2(a);
    assert "bbaa" == ['b'] + "baa";
    assert "baa" == ['b'] + "aa";
  }

  lemma EvenBAcceptsBbaaPart2(a: NFA<string>)
    requires EvenBTable(a)
    ensures Run(a, {"C"}, "aa") == {"C"}
  {
    EvenBStep3(a);
    assert "aa" == ['a'] + "a";
    assert "a" == ['a'] + "";
  }

  lemma EvenBAcceptsBbaaRun(a: NFA<string>)
    requires EvenBTable(a)
    ensures Run(a, {"C"}, "bbaa") == {"C"}
  {
    EvenBAcceptsBbaaPart1(a);
    EvenBAcceptsBbaaPart2(a);
  }

  /** The empty string has no b. */
  lemma EvenBAcceptsEmpty()
    ensures Accept(EvenB, "")
  {
    EvenBHasTable(EvenB);
    EvenBStart(EvenB);
    assert "C" in {"C"} * EvenB.f;
  }

  /** bb has two b's. */
  lemma EvenBAcceptsBb()
    ensures Accept(EvenB, "bb")
  {
    EvenBHasTable(EvenB);
    EvenBStart(EvenB);
    EvenBAcceptsBbRun(EvenB);
    assert "C" in {"C"} * EvenB.f;
  }

  /** b has one b. */
  lemma EvenBRejectsB()
    ensures !Accept(EvenB, "b")
  {
    EvenBHasTable(EvenB);
    EvenBStart(EvenB);
    EvenBRejectsBRun(EvenB);
    assert {"D"} * EvenB.f == {};
  }

  /** bbaa has two b's. */
  lemma EvenBAcceptsBbaa()
    ensures Accept(EvenB, "bbaa")
  {
    EvenBHasTable(EvenB);
    EvenBStart(EvenB);
    EvenBAcceptsBbaaRun(EvenB);
    assert "C" in {"C"} * EvenB.f;
  }

  /** The product is valid, accepts "", bb and bbaa, and rejects b and bbaaa: it accepts
      the strings with an even number of a's and an even number of b's. */
  lemma ProductScenario()
    ensures IsValid(Product(EvenA, EvenB))
    ensures Accept(Product(EvenA, EvenB), "")
    ensures Accept(Product(EvenA, EvenB), "bb")
    ensures !Accept(Product(EvenA, EvenB), "b")
    ensures Accept(Product(EvenA, EvenB), "bbaa")
    ensures !Accept(Product(EvenA, EvenB), "bbaaa")
  {
    EvenAIsValid();
    EvenBIsValid();
    ProductValid(EvenA, EvenB);
    EvenAAcceptsEmpty();
    EvenBAcceptsEmpty();
    ProductAccept(EvenA, EvenB, "");
    EvenAAcceptsBb();
    EvenBAcceptsBb();
    ProductAccept(EvenA, EvenB, "bb");
    EvenBRejectsB();
    ProductAccept(EvenA, EvenB, "b");
    EvenAAcceptsBbaa();
    EvenBAcceptsBbaa();
    ProductAccept(EvenA, EvenB, "bbaa");
    EvenARejectsBbaaa();
    ProductAccept(EvenA, EvenB, "bbaaa");
  }

  // ---------------------------------------------------------------------------
  // union: a* together with b+a

  /** The strings of a's, a*. */
  const OnlyA: NFA<string> := NFA(
    {"A"},
    {"a"},
    map["A" := map["a" := {"A"}]],
    "A",
    {"A"})

  /** One or more b's and then one a, b+a. */
  const BsThenA: NFA<string> := NFA(
    {"C", "D", "E"},
    {"a", "b"},
    map["C" := map["b" := {"D"}],
        "D" := map["a" := {"E"}, "b" := {"D"}]],
    "C",
    {"E"})

  lemma OnlyAValid(a: NFA<string>)
    requires a == OnlyA
    ensures IsValid(a) && EpsilonFree(a)
  {
    assert a.delta.Keys == {"A"};
    forall s | s in a.delta ensures s in a.q && RowValid(a, a.delta[s]) && Epsilon !in a.delta[s] {
      assert a.delta[s] == map["a" := {"A"}];
    }
  }

  /** `OnlyA` is valid and has no epsilon transition. */
  lemma OnlyAIsValid()
    ensures IsValid(OnlyA) && EpsilonFree(OnlyA)
  {
    OnlyAValid(OnlyA);
  }

  /** `a` has the transitions of `OnlyA`, epsilon included. */
  predicate OnlyATable(a: NFA<string>) {
    && Succ(a, "A", "a") == {"A"} && Succ(a, "A", "b") == {} && Succ(a, "A", "") == {}
  }

  lemma OnlyAHasTable(a: NFA<string>)
    requires a == OnlyA
    ensures OnlyATable(a)
  {
  }

  /** No epsilon transition leaves a set of states of `OnlyA`. */
  lemma OnlyAClosed(a: NFA<string>, X: set<string>)
    requires OnlyATable(a)
    requires X <= {"A"}
    ensures EClosure(a, X) == X
  {
    forall s | s in X ensures Succ(a, s, Epsilon) <= X {
      assert s == "A";
    }
    ClosureOfClosed(a, X);
  }

  lemma OnlyAStart(a: NFA<string>)
    requires OnlyATable(a)
    requires a.initialState == "A"
    ensures EClosure(a, {a.initialState}) == {"A"}
  {
    OnlyAClosed(a, {"A"});
  }

  lemma OnlyAStep1(a: NFA<string>)
    requires OnlyATable(a)
    ensures Leads(a, {"A"}, 'a', {"A"})
  {
    Moves1(a, "A", "a", {"A"});
    assert Moves(a, {"A"}, "a") == {"A"};
    OnlyAClosed(a, {"A"});
    StepLeads(a, {"A"}, 'a', {"A"});
  }

  lemma OnlyAStep2(a: NFA<string>)
    requires OnlyATable(a)
    ensures Halts(a, {"A"}, 'b')
  {
    Moves1(a, "A", "b", {});
    assert Moves(a, {"A"}, "b") == {};
    OnlyAClosed(a, {});
    StepHalts(a, {"A"}, 'b');
  }

  lemma OnlyAAcceptsAaaaaaPart1(a: NFA<string>)
    requires OnlyATable(a)
    ensures Run(a, {"A"}, "aaaaaa") == Run(a, {"A"}, "aaaa")
  {
    OnlyAStep1(a);
    assert "aaaaaa" == ['a'] + "aaaaa";
    assert "aaaaa" == ['a'] + "aaaa";
  }

  lemma OnlyAAcceptsAaaaaaPart2(a: NFA<string>)
    requires OnlyATable(a)
    ensures Run(a, {"A"}, "aaaa") == Run(a, {"A"}, "aa")
  {
    OnlyAStep1(a);
    assert "aaaa" == ['a'] + "aaa";
    assert "aaa" == ['a'] + "aa";
  }

  lemma OnlyAAcceptsAaaaaaPart3(a: NFA<string>)
    requires OnlyATable(a)
    ensures Run(a, {"A"}, "aa") == {"A"}
  {
    OnlyAStep1(a);
    assert "aa" == ['a'] + "a";
    assert "a" == ['a'] + "";
  }

  lemma OnlyAAcceptsAaaaaaRun(a: NFA<string>)
    requires OnlyATable(a)
    ensures Run(a, {"A"}, "aaaaaa") == {"A"}
  {
    OnlyAAcceptsAaaaaaPart1(a);
    OnlyAAcceptsAaaaaaPart2(a);
    OnlyAAcceptsAaaaaaPart3(a);
  }

  lemma OnlyARejectsAaaabbbbaaaPart1(a: NFA<string>)
    requires OnlyATable(a)
    ensures Run(a, {"A"}, "aaaabbbbaaa") == Run(a, {"A"}, "aabbbbaaa")
  {
    OnlyAStep1(a);
    assert "aaaabbbbaaa" == ['a'] + "aaabbbbaaa";
    assert "aaabbbbaaa" == ['a'] + "aabbbbaaa";
  }

  lemma OnlyARejectsAaaabbbbaaaPart2(a: NFA<string>)
    requires OnlyATable(a)
    ensures Run(a, {"A"}, "aabbbbaaa") == Run(a, {"A"}, "bbbbaaa")
  {
    OnlyAStep1(a);
    assert "aabbbbaaa" == ['a'] + "abbbbaaa";
    assert "abbbbaaa" == ['a'] + "bbbbaaa";
  }

  lemma OnlyARejectsAaaabbbbaaaPart3(a: NFA<string>)
    requires OnlyATable(a)
    ensures Run(a, {"A"}, "bbbbaaa") == {}
  {
    OnlyAStep2(a);
    assert "bbbbaaa" == ['b'] + "bbbaaa";
  }

  lemma OnlyARejectsAaaabbbbaaaRun(a: NFA<string>)
    requires OnlyATable(a)
    ensures Run(a, {"A"}, "aaaabbbbaaa") == {}
  {
    OnlyARejectsAaaabbbbaaaPart1(a);
    OnlyARejectsAaaabbbbaaaPart2(a);
    OnlyARejectsAaaabbbbaaaPart3(a);
  }

  lemma OnlyARejectsAaaaaaaabPart1(a: NFA<string>)
    requires OnlyATable(a)
    ensures Run(a, {"A"}, "aaaaaaaab") == Run(a, {"A"}, "aaaaaab")
  {
    OnlyAStep1(a);
    assert "aaaaaaaab" == ['a'] + "aaaaaaab";
    assert "aaaaaaab" == ['a'] + "aaaaaab";
  }

  lemma OnlyARejectsAaaaaaaabPart2(a: NFA<string>)
    requires OnlyATable(a)
    ensures Run(a, {"A"}, "aaaaaab") == Run(a, {"A"}, "aaaab")
  {
    OnlyAStep1(a);
    assert "aaaaaab" == ['a'] + "aaaaab";
    assert "aaaaab" == ['a'] + "aaaab";
  }

  lemma OnlyARejectsAaaaaaaabPart3(a: NFA<string>)
    requires OnlyATable(a)
    ensures Run(a, {"A"}, "aaaab") == Run(a, {"A"}, "aab")
  {
    OnlyAStep1(a);
    assert "aaaab" == ['a'] + "aaab";
    assert "aaab" == ['a'] + "aab";
  }

  lemma OnlyARejectsAaaaaaaabPart4(a: NFA<string>)
    requires OnlyATable(a)
    ensures Run(a, {"A"}, "aab") == Run(a, {"A"}, "b")
  {
    OnlyAStep1(a);
    assert "aab" == ['a'] + "ab";
    assert "ab" == ['a'] + "b";
  }

  lemma OnlyARejectsAaaaaaaabPart5(a: NFA<string>)
    requires OnlyATable(a)
    ensures Run(a, {"A"}, "b") == {}
  {
    OnlyAStep2(a);
    assert "b" == ['b'] + "";
  }

  lemma OnlyARejectsAaaaaaaabRun(a: NFA<string>)
    requires OnlyATable(a)
    ensures Run(a, {"A"}, "aaaaaaaab") == {}
  {
    OnlyARejectsAaaaaaaabPart1(a);
    OnlyARejectsAaaaaaaabPart2(a);
    OnlyARejectsAaaaaaaabPart3(a);
    OnlyARejectsAaaaaaaabPart4(a);
    OnlyARejectsAaaaaaaabPart5(a);
  }

  /** aaaaaa is in a*. */
  lemma OnlyAAcceptsAaaaaa()
    ensures Accept(OnlyA, "aaaaaa")
  {
    OnlyAHasTable(OnlyA);
    OnlyAStart(OnlyA);
    OnlyAAcceptsAaaaaaRun(OnlyA);
    assert "A" in {"A"} * OnlyA.f;
  }

  /** aaaabbbbaaa is not in a*. */
  lemma OnlyARejectsAaaabbbbaaa()
    ensures !Accept(OnlyA, "aaaabbbbaaa")
  {
    OnlyAHasTable(OnlyA);
    OnlyAStart(OnlyA);
    OnlyARejectsAaaabbbbaaaRun(OnlyA);
    assert {} * OnlyA.f == {};
  }

  /** aaaaaaaab is not in a*. */
  lemma OnlyARejectsAaaaaaaab()
    ensures !Accept(OnlyA, "aaaaaaaab")
  {
    OnlyAHasTable(OnlyA);
    OnlyAStart(OnlyA);
    OnlyARejectsAaaaaaaabRun(OnlyA);
    assert {} * OnlyA.f == {};
  }

  lemma BsThenAValid(a: NFA<string>)
    requires a == BsThenA
    ensures IsValid(a) && EpsilonFree(a)
  {
    assert a.delta.Keys == {"C", "D"};
    forall s | s in a.delta ensures s in a.q && RowValid(a, a.delta[s]) && Epsilon !in a.delta[s] {
      if s == "C" { assert a.delta[s] == map["b" := {"D"}]; }
      else { assert a.delta[s] == map["a" := {"E"}, "b" := {"D"}]; }
    }
  }

  /** `BsThenA` is valid and has no epsilon transition. */
  lemma BsThenAIsValid()
    ensures IsValid(BsThenA) && EpsilonFree(BsThenA)
  {
    BsThenAValid(BsThenA);
  }

  /** `a` has the transitions of `BsThenA`, epsilon included. */
  predicate BsThenATable(a: NFA<string>) {
    && Succ(a, "C", "a") == {} && Succ(a, "C", "b") == {"D"} && Succ(a, "C", "") == {}
    && Succ(a, "D", "a") == {"E"} && Succ(a, "D", "b") == {"D"} && Succ(a, "D", "") == {}
    && Succ(a, "E", "a") == {} && Succ(a, "E", "b") == {} && Succ(a, "E", "") == {}
  }

  lemma BsThenARowC(a: NFA<string>)
    requires a == BsThenA
    ensures Succ(a, "C", "a") == {} && Succ(a, "C", "b") == {"D"} && Succ(a, "C", "") == {}
  {
  }

  lemma BsThenARowD(a: NFA<string>)
    requires a == BsThenA
    ensures Succ(a, "D", "a") == {"E"} && Succ(a, "D", "b") == {"D"} && Succ(a, "D", "") == {}
  {
  }

  lemma BsThenARowE(a: NFA<string>)
    requires a == BsThenA
    ensures Succ(a, "E", "a") == {} && Succ(a, "E", "b") == {} && Succ(a, "E", "") == {}
  {
  }

  lemma BsThenAHasTable(a: NFA<string>)
    requires a == BsThenA
    ensures BsThenATable(a)
  {
    BsThenARowC(a);
    BsThenARowD(a);
    BsThenARowE(a);
  }

  /** No epsilon transition leaves a set of states of `BsThenA`. */
  lemma BsThenAClosed(a: NFA<string>, X: set<string>)
    requires BsThenATable(a)
    requires X <= {"C", "D", "E"}
    ensures EClosure(a, X) == X
  {
    forall s | s in X ensures Succ(a, s, Epsilon) <= X {
      assert s == "C" || s == "D" || s == "E";
    }
    ClosureOfClosed(a, X);
  }

  lemma BsThenAStart(a: NFA<string>)
    requires BsThenATable(a)
    requires a.initialState == "C"
    ensures EClosure(a, {a.initialState}) == {"C"}
  {
    BsThenAClosed(a, {"C"});
  }

  lemma BsThenAStep1(a: NFA<string>)
    requires BsThenATable(a)
    ensures Leads(a, {"C"}, 'b', {"D"})
  {
    Moves1(a, "C", "b", {"D"});
    assert Moves(a, {"C"}, "b") == {"D"};
    BsThenAClosed(a, {"D"});
    StepLeads(a, {"C"}, 'b', {"D"});
  }

  lemma BsThenAStep2(a: NFA<string>)
    requires BsThenATable(a)
    ensures Leads(a, {"D"}, 'b', {"D"})
  {
    Moves1(a, "D", "b", {"D"});
    assert Moves(a, {"D"}, "b") == {"D"};
    BsThenAClosed(a, {"D"});
    StepLeads(a, {"D"}, 'b', {"D"});
  }

  lemma BsThenAStep3(a: NFA<string>)
    requires BsThenATable(a)
    ensures Leads(a, {"D"}, 'a', {"E"})
  {
    Moves1(a, "D", "a", {"E"});
    assert Moves(a, {"D"}, "a") == {"E"};
    BsThenAClosed(a, {"E"});
    StepLeads(a, {"D"}, 'a', {"E"});
  }

  lemma BsThenAStep4(a: NFA<string>)
    requires BsThenATable(a)
    ensures Halts(a, {"C"}, 'a')
  {
    Moves1(a, "C", "a", {});
    assert Moves(a, {"C"}, "a") == {};
    BsThenAClosed(a, {});
    StepHalts(a, {"C"}, 'a');
  }

  lemma BsThenAAcceptsBbbbbbbbbaPart1(a: NFA<string>)
    requires BsThenATable(a)
    ensures Run(a, {"C"}, "bbbbbbbbba") == Run(a, {"D"}, "bbbbbbba")
  {
    BsThenAStep1(a);
    BsThenAStep2(a);
    assert "bbbbbbbbba" == ['b'] + "bbbbbbbba";
    assert "bbbbbbbba" == ['b'] + "bbbbbbba";
  }

  lemma BsThenAAcceptsBbbbbbbbbaPart2(a: NFA<string>)
    requires BsThenATable(a)
    ensures Run(a, {"D"}, "bbbbbbba") == Run(a, {"D"}, "bbbbba")
  {
    BsThenAStep2(a);
    assert "bbbbbbba" == ['b'] + "bbbbbba";
    assert "bbbbbba" == ['b'] + "bbbbba";
  }

  lemma BsThenAAcceptsBbbbbbbbbaPart3(a: NFA<string>)
    requires BsThenATable(a)
    ensures Run(a, {"D"}, "bbbbba") == Run(a, {"D"}, "bbba")
  {
    BsThenAStep2(a);
    assert "bbbbba" == ['b'] + "bbbba";
    assert "bbbba" == ['b'] + "bbba";
  }

  lemma BsThenAAcceptsBbbbbbbbbaPart4(a: NFA<string>)
    requires BsThenATable(a)
    ensures Run(a, {"D"}, "bbba") == Run(a, {"D"}, "ba")
  {
    BsThenAStep2(a);
    assert "bbba" == ['b'] + "bba";
    assert "bba" == ['b'] + "ba";
  }

  lemma BsThenAAcceptsBbbbbbbbbaPart5(a: NFA<string>)
    requires BsThenATable(a)
    ensures Run(a, {"D"}, "ba") == {"E"}
  {
    BsThenAStep2(a);
    BsThenAStep3(a);
    assert "ba" == ['b'] + "a";
    assert "a" == ['a'] + "";
  }

  lemma BsThenAAcceptsBbbbbbbbbaRun(a: NFA<string>)
    requires BsThenATable(a)
    ensures Run(a, {"C"}, "bbbbbbbbba") == {"E"}
  {
    BsThenAAcceptsBbbbbbbbbaPart1(a);
    BsThenAAcceptsBbbbbbbbbaPart2(a);
    BsThenAAcceptsBbbbbbbbbaPart3(a);
    BsThenAAcceptsBbbbbbbbbaPart4(a);
    BsThenAAcceptsBbbbbbbbbaPart5(a);
  }

  lemma BsThenARejectsAaaabbbbaaaRun(a: NFA<string>)
    requires BsThenATable(a)
    ensures Run(a, {"C"}, "aaaabbbbaaa") == {}
  {
    BsThenAStep4(a);
    assert "aaaabbbbaaa" == ['a'] + "aaabbbbaaa";
  }

  lemma BsThenARejectsAaaaaaaabRun(a: NFA<string>)
    requires BsThenATable(a)
    ensures Run(a, {"C"}, "aaaaaaaab") == {}
  {
    BsThenAStep4(a);
    assert "aaaaaaaab" == ['a'] + "aaaaaaab";
  }

  /** bbbbbbbbba is in b+a. */
  lemma BsThenAAcceptsBbbbbbbbba()
    ensures Accept(BsThenA, "bbbbbbbbba")
  {
    BsThenAHasTable(BsThenA);
    BsThenAStart(BsThenA);
    BsThenAAcceptsBbbbbbbbbaRun(BsThenA);
    assert "E" in {"E"} * BsThenA.f;
  }

  /** aaaabbbbaaa does not start with b. */
  lemma BsThenARejectsAaaabbbbaaa()
    ensures !Accept(BsThenA, "aaaabbbbaaa")
  {
    BsThenAHasTable(BsThenA);
    BsThenAStart(BsThenA);
    BsThenARejectsAaaabbbbaaaRun(BsThenA);
    assert {} * BsThenA.f == {};
  }

  /** aaaaaaaab does not start with b. */
  lemma BsThenARejectsAaaaaaaab()
    ensures !Accept(BsThenA, "aaaaaaaab")
  {
    BsThenAHasTable(BsThenA);
    BsThenAStart(BsThenA);
    BsThenARejectsAaaaaaaabRun(BsThenA);
    assert {} * BsThenA.f == {};
  }

  /** The union is valid, accepts aaaaaa and bbbbbbbbba, and rejects aaaabbbbaaa and
      aaaaaaaab. */
  lemma UnionScenario()
    ensures IsValid(Union(OnlyA, BsThenA))
    ensures Accept(Union(OnlyA, BsThenA), "aaaaaa")
    ensures Accept(Union(OnlyA, BsThenA), "bbbbbbbbba")
    ensures !Accept(Union(OnlyA, BsThenA), "aaaabbbbaaa")
    ensures !Accept(Union(OnlyA, BsThenA), "aaaaaaaab")
  {
    OnlyAIsValid();
    BsThenAIsValid();
    UnionValid(OnlyA, BsThenA);
    OnlyAAcceptsAaaaaa();
    UnionAccept(OnlyA, BsThenA, "aaaaaa");
    BsThenAAcceptsBbbbbbbbba();
    UnionAccept(OnlyA, BsThenA, "bbbbbbbbba");
    OnlyARejectsAaaabbbbaaa();
    BsThenARejectsAaaabbbbaaa();
    UnionAccept(OnlyA, BsThenA, "aaaabbbbaaa");
    OnlyARejectsAaaaaaaab();
    BsThenARejectsAaaaaaaab();
    UnionAccept(OnlyA, BsThenA, "aaaaaaaab");
  }

  // ---------------------------------------------------------------------------
  // intersection: aa twice, and aa once

  /** The first automaton of the intersection test. */
  const TwoPairs: NFA<string> := NFA(
    {"q1", "q2", "q3", "q4", "q5"},
    {"a", "b"},
    map["q1" := map["a" := {"q1", "q2"}, "b" := {"q1"}],
        "q2" := map["a" := {"q3"}],
        "q3" := map["a" := {"q3", "q4"}, "b" := {"q3"}],
        "q4" := map["a" := {"q5"}],
        "q5" := map["a" := {"q5"}, "b" := {"q5"}]],
    "q1",
    {"q5"})

  /** Strings that contain aa. */
  const OnePair: NFA<string> := NFA(
    {"q1", "q2", "q3"},
    {"a", "b"},
    map["q1" := map["a" := {"q1", "q2"}, "b" := {"q1"}],
        "q2" := map["a" := {"q3"}],
        "q3" := map["a" := {"q3"}, "b" := {"q3"}]],
    "q1",
    {"q3"})

  lemma TwoPairsValid(a: NFA<string>)
    requires a == TwoPairs
    ensures IsValid(a) && EpsilonFree(a)
  {
    assert a.delta.Keys == {"q1", "q2", "q3", "q4", "q5"};
    forall s | s in a.delta ensures s in a.q && RowValid(a, a.delta[s]) && Epsilon !in a.delta[s] {
      if s == "q1" { assert a.delta[s] == map["a" := {"q1", "q2"}, "b" := {"q1"}]; }
      else if s == "q2" { assert a.delta[s] == map["a" := {"q3"}]; }
      else if s == "q3" { assert a.delta[s] == map["a" := {"q3", "q4"}, "b" := {"q3"}]; }
      else if s == "q4" { assert a.delta[s] == map["a" := {"q5"}]; }
      else { assert a.delta[s] == map["a" := {"q5"}, "b" := {"q5"}]; }
    }
  }

  /** `TwoPairs` is valid and has no epsilon transition. */
  lemma TwoPairsIsValid()
    ensures IsValid(TwoPairs) && EpsilonFree(TwoPairs)
  {
    TwoPairsValid(TwoPairs);
  }

  /** `a` has the transitions of `TwoPairs`, epsilon included. */
  predicate TwoPairsTable(a: NFA<string>) {
    && Succ(a, "q1", "a") == {"q1", "q2"} && Succ(a, "q1", "b") == {"q1"} && Succ(a, "q1", "") == {}
    && Succ(a, "q2", "a") == {"q3"} && Succ(a, "q2", "b") == {} && Succ(a, "q2", "") == {}
    && Succ(a, "q3", "a") == {"q3", "q4"} && Succ(a, "q3", "b") == {"q3"} && Succ(a, "q3", "") == {}
    && Succ(a, "q4", "a") == {"q5"} && Succ(a, "q4", "b") == {} && Succ(a, "q4", "") == {}
    && Succ(a, "q5", "a") == {"q5"} && Succ(a, "q5", "b") == {"q5"} && Succ(a, "q5", "") == {}
  }

  lemma TwoPairsRowQ1(a: NFA<string>)
    requires a == TwoPairs
    ensures Succ(a, "q1", "a") == {"q1", "q2"} && Succ(a, "q1", "b") == {"q1"} && Succ(a, "q1", "") == {}
  {
  }

  lemma TwoPairsRowQ2(a: NFA<string>)
    requires a == TwoPairs
    ensures Succ(a, "q2", "a") == {"q3"} && Succ(a, "q2", "b") == {} && Succ(a, "q2", "") == {}
  {
  }

  lemma TwoPairsRowQ3(a: NFA<string>)
    requires a == TwoPairs
    ensures Succ(a, "q3", "a") == {"q3", "q4"} && Succ(a, "q3", "b") == {"q3"} && Succ(a, "q3", "") == {}
  {
  }

  lemma TwoPairsRowQ4(a: NFA<string>)
    requires a == TwoPairs
    ensures Succ(a, "q4", "a") == {"q5"} && Succ(a, "q4", "b") == {} && Succ(a, "q4", "") == {}
  {
  }

  lemma TwoPairsRowQ5(a: NFA<string>)
    requires a == TwoPairs
    ensures Succ(a, "q5", "a") == {"q5"} && Succ(a, "q5", "b") == {"q5"} && Succ(a, "q5", "") == {}
  {
  }

  lemma TwoPairsHasTable(a: NFA<string>)
    requires a == TwoPairs
    ensures TwoPairsTable(a)
  {
    TwoPairsRowQ1(a);
    TwoPairsRowQ2(a);
    TwoPairsRowQ3(a);
    TwoPairsRowQ4(a);
    TwoPairsRowQ5(a);
  }

  /** No epsilon transition leaves a set of states of `TwoPairs`. */
  lemma TwoPairsClosed(a: NFA<string>, X: set<string>)
    requires TwoPairsTable(a)
    requires X <= {"q1", "q2", "q3", "q4", "q5"}
    ensures EClosure(a, X) == X
  {
    forall s | s in X ensures Succ(a, s, Epsilon) <= X {
      assert s == "q1" || s == "q2" || s == "q3" || s == "q4" || s == "q5";
    }
    ClosureOfClosed(a, X);
  }

  lemma TwoPairsStart(a: NFA<string>)
    requires TwoPairsTable(a)
    requires a.initialState == "q1"
    ensures EClosure(a, {a.initialState}) == {"q1"}
  {
    TwoPairsClosed(a, {"q1"});
  }

  lemma TwoPairsStep1(a: NFA<string>)
    requires TwoPairsTable(a)
    ensures Leads(a, {"q1"}, 'a', {"q1", "q2"})
  {
    Moves1(a, "q1", "a", {"q1", "q2"});
    assert Moves(a, {"q1"}, "a") == {"q1", "q2"};
    TwoPairsClosed(a, {"q1", "q2"});
    StepLeads(a, {"q1"}, 'a', {"q1", "q2"});
  }

  lemma TwoPairsStep2(a: NFA<string>)
    requires TwoPairsTable(a)
    ensures Leads(a, {"q1", "q2"}, 'a', {"q1", "q2", "q3"})
  {
    Moves2(a, "q1", "q2", "a", {"q1", "q2"}, {"q3"});
    assert Moves(a, {"q1", "q2"}, "a") == {"q1", "q2", "q3"};
    TwoPairsClosed(a, {"q1", "q2", "q3"});
    StepLeads(a, {"q1", "q2"}, 'a', {"q1", "q2", "q3"});
  }

  lemma TwoPairsStep3(a: NFA<string>)
    requires TwoPairsTable(a)
    ensures Leads(a, {"q1", "q2", "q3"}, 'a', {"q1", "q2", "q3", "q4"})
  {
    Moves3(a, "q1", "q2", "q3", "a", {"q1", "q2"}, {"q3"}, {"q3", "q4"});
    assert Moves(a, {"q1", "q2", "q3"}, "a") == {"q1", "q2", "q3", "q4"};
    TwoPairsClosed(a, {"q1", "q2", "q3", "q4"});
    StepLeads(a, {"q1", "q2", "q3"}, 'a', {"q1", "q2", "q3", "q4"});
  }

  lemma TwoPairsStep4(a: NFA<string>)
    requires TwoPairsTable(a)
    ensures Leads(a, {"q1", "q2", "q3", "q4"}, 'a', {"q1", "q2", "q3", "q4", "q5"})
  {
    Moves4(a, "q1", "q2", "q3", "q4", "a", {"q1", "q2"}, {"q3"}, {"q3", "q4"}, {"q5"});
    assert Moves(a, {"q1", "q2", "q3", "q4"}, "a") == {"q1", "q2", "q3", "q4", "q5"};
    TwoPairsClosed(a, {"q1", "q2", "q3", "q4", "q5"});
    StepLeads(a, {"q1", "q2", "q3", "q4"}, 'a', {"q1", "q2", "q3", "q4", "q5"});
  }

  lemma TwoPairsStep5(a: NFA<string>)
    requires TwoPairsTable(a)
    ensures Leads(a, {"q1", "q2", "q3", "q4", "q5"}, 'a', {"q1", "q2", "q3", "q4", "q5"})
  {
    Moves5(a, "q1", "q2", "q3", "q4", "q5", "a", {"q1", "q2"}, {"q3"}, {"q3", "q4"}, {"q5"}, {"q5"});
    assert Moves(a, {"q1", "q2", "q3", "q4", "q5"}, "a") == {"q1", "q2", "q3", "q4", "q5"};
    TwoPairsClosed(a, {"q1", "q2", "q3", "q4", "q5"});
    StepLeads(a, {"q1", "q2", "q3", "q4", "q5"}, 'a', {"q1", "q2", "q3", "q4", "q5"});
  }

  lemma TwoPairsStep6(a: NFA<string>)
    requires TwoPairsTable(a)
    ensures Leads(a, {"q1", "q2", "q3", "q4", "q5"}, 'b', {"q1", "q3", "q5"})
  {
    Moves5(a, "q1", "q2", "q3", "q4", "q5", "b", {"q1"}, {}, {"q3"}, {}, {"q5"});
    assert Moves(a, {"q1", "q2", "q3", "q4", "q5"}, "b") == {"q1", "q3", "q5"};
    TwoPairsClosed(a, {"q1", "q3", "q5"});
    StepLeads(a, {"q1", "q2", "q3", "q4", "q5"}, 'b', {"q1", "q3", "q5"});
  }

  lemma TwoPairsStep7(a: NFA<string>)
    requires TwoPairsTable(a)
    ensures Leads(a, {"q1", "q3", "q5"}, 'b', {"q1", "q3", "q5"})
  {
    Moves3(a, "q1", "q3", "q5", "b", {"q1"}, {"q3"}, {"q5"});
    assert Moves(a, {"q1", "q3", "q5"}, "b") == {"q1", "q3", "q5"};
    TwoPairsClosed(a, {"q1", "q3", "q5"});
    StepLeads(a, {"q1", "q3", "q5"}, 'b', {"q1", "q3", "q5"});
  }

  lemma TwoPairsStep8(a: NFA<string>)
    requires TwoPairsTable(a)
    ensures Leads(a, {"q1"}, 'b', {"q1"})
  {
    Moves1(a, "q1", "b", {"q1"});
    assert Moves(a, {"q1"}, "b") == {"q1"};
    TwoPairsClosed(a, {"q1"});
    StepLeads(a, {"q1"}, 'b', {"q1"});
  }

  lemma TwoPairsStep9(a: NFA<string>)
    requires TwoPairsTable(a)
    ensures Leads(a, {"q1", "q2"}, 'b', {"q1"})
  {
    Moves2(a, "q1", "q2", "b", {"q1"}, {});
    assert Moves(a, {"q1", "q2"}, "b") == {"q1"};
    TwoPairsClosed(a, {"q1"});
    StepLeads(a, {"q1", "q2"}, 'b', {"q1"});
  }

  lemma TwoPairsAcceptsAaaaPart1(a: NFA<string>)
    requires TwoPairsTable(a)
    ensures Run(a, {"q1"}, "aaaa") == Run(a, {"q1", "q2", "q3"}, "aa")
  {
    TwoPairsStep1(a);
    TwoPairsStep2(a);
    assert "aaaa" == ['a'] + "aaa";
    assert "aaa" == ['a'] + "aa";
  }

  lemma TwoPairsAcceptsAaaaPart2(a: NFA<string>)
    requires TwoPairsTable(a)
    ensures Run(a, {"q1", "q2", "q3"}, "aa") == {"q1", "q2", "q3", "q4", "q5"}
  {
    TwoPairsStep3(a);
    TwoPairsStep4(a);
    assert "aa" == ['a'] + "a";
    assert "a" == ['a'] + "";
  }

  lemma TwoPairsAcceptsAaaaRun(a: NFA<string>)
    requires TwoPairsTable(a)
    ensures Run(a, {"q1"}, "aaaa") == {"q1", "q2", "q3", "q4", "q5"}
  {
    TwoPairsAcceptsAaaaPart1(a);
    TwoPairsAcceptsAaaaPart2(a);
  }

  lemma TwoPairsAcceptsAaaaaaaaPart1(a: NFA<string>)
    requires TwoPairsTable(a)
    ensures Run(a, {"q1"}, "aaaaaaaa") == Run(a, {"q1", "q2", "q3"}, "aaaaaa")
  {
    TwoPairsStep1(a);
    TwoPairsStep2(a);
    assert "aaaaaaaa" == ['a'] + "aaaaaaa";
    assert "aaaaaaa" == ['a'] + "aaaaaa";
  }

  lemma TwoPairsAcceptsAaaaaaaaPart2(a: NFA<string>)
    requires TwoPairsTable(a)
    ensures Run(a, {"q1", "q2", "q3"}, "aaaaaa") == Run(a, {"q1", "q2", "q3", "q4", "q5"}, "aaaa")
  {
    TwoPairsStep3(a);
    TwoPairsStep4(a);
    assert "aaaaaa" == ['a'] + "aaaaa";
    assert "aaaaa" == ['a'] + "aaaa";
  }

  lemma TwoPairsAcceptsAaaaaaaaPart3(a: NFA<string>)
    requires TwoPairsTable(a)
    ensures Run(a, {"q1", "q2", "q3", "q4", "q5"}, "aaaa") == Run(a, {"q1", "q2", "q3", "q4", "q5"}, "aa")
  {
    TwoPairsStep5(a);
    assert "aaaa" == ['a'] + "aaa";
    assert "aaa" == ['a'] + "aa";
  }

  lemma TwoPairsAcceptsAaaaaaaaPart4(a: NFA<string>)
    requires TwoPairsTable(a)
    ensures Run(a, {"q1", "q2", "q3", "q4", "q5"}, "aa") == {"q1", "q2", "q3", "q4", "q5"}
  {
    TwoPairsStep5(a);
    assert "aa" == ['a'] + "a";
    assert "a" == ['a'] + "";
  }

  lemma TwoPairsAcceptsAaaaaaaaRun(a: NFA<string>)
    requires TwoPairsTable(a)
    ensures Run(a, {"q1"}, "aaaaaaaa") == {"q1", "q2", "q3", "q4", "q5"}
  {
    TwoPairsAcceptsAaaaaaaaPart1(a);
    TwoPairsAcceptsAaaaaaaaPart2(a);
    TwoPairsAcceptsAaaaaaaaPart3(a);
    TwoPairsAcceptsAaaaaaaaPart4(a);
  }

  lemma TwoPairsAcceptsAaaaaaaabbbbbPart1(a: NFA<string>)
    requires TwoPairsTable(a)
    ensures Run(a, {"q1"}, "aaaaaaaabbbbb") == Run(a, {"q1", "q2", "q3"}, "aaaaaabbbbb")
  {
    TwoPairsStep1(a);
    TwoPairsStep2(a);
    assert "aaaaaaaabbbbb" == ['a'] + "aaaaaaabbbbb";
    assert "aaaaaaabbbbb" == ['a'] + "aaaaaabbbbb";
  }

  lemma TwoPairsAcceptsAaaaaaaabbbbbPart2(a: NFA<string>)
    requires TwoPairsTable(a)
    ensures Run(a, {"q1", "q2", "q3"}, "aaaaaabbbbb") == Run(a, {"q1", "q2", "q3", "q4", "q5"}, "aaaabbbbb")
  {
    TwoPairsStep3(a);
    TwoPairsStep4(a);
    assert "aaaaaabbbbb" == ['a'] + "aaaaabbbbb";
    assert "aaaaabbbbb" == ['a'] + "aaaabbbbb";
  }

  lemma TwoPairsAcceptsAaaaaaaabbbbbPart3(a: NFA<string>)
    requires TwoPairsTable(a)
    ensures Run(a, {"q1", "q2", "q3", "q4", "q5"}, "aaaabbbbb") == Run(a, {"q1", "q2", "q3", "q4", "q5"}, "aabbbbb")
  {
    TwoPairsStep5(a);
    assert "aaaabbbbb" == ['a'] + "aaabbbbb";
    assert "aaabbbbb" == ['a'] + "aabbbbb";
  }

  lemma TwoPairsAcceptsAaaaaaaabbbbbPart4(a: NFA<string>)
    requires TwoPairsTable(a)
    ensures Run(a, {"q1", "q2", "q3", "q4", "q5"}, "aabbbbb") == Run(a, {"q1", "q2", "q3", "q4", "q5"}, "bbbbb")
  {
    TwoPairsStep5(a);
    assert "aabbbbb" == ['a'] + "abbbbb";
    assert "abbbbb" == ['a'] + "bbbbb";
  }

  lemma TwoPairsAcceptsAaaaaaaabbbbbPart5(a: NFA<string>)
    requires TwoPairsTable(a)
    ensures Run(a, {"q1", "q2", "q3", "q4", "q5"}, "bbbbb") == Run(a, {"q1", "q3", "q5"}, "bbb")
  {
    TwoPairsStep6(a);
    TwoPairsStep7(a);
    assert "bbbbb" == ['b'] + "bbbb";
    assert "bbbb" == ['b'] + "bbb";
  }

  lemma TwoPairsAcceptsAaaaaaaabbbbbPart6(a: NFA<string>)
    requires TwoPairsTable(a)
    ensures Run(a, {"q1", "q3", "q5"}, "bbb") == Run(a, {"q1", "q3", "q5"}, "b")
  {
    TwoPairsStep7(a);
    assert "bbb" == ['b'] + "bb";
    assert "bb" == ['b'] + "b";
  }

  lemma TwoPairsAcceptsAaaaaaaabbbbbPart7(a: NFA<string>)
    requires TwoPairsTable(a)
    ensures Run(a, {"q1", "q3", "q5"}, "b") == {"q1", "q3", "q5"}
  {
    TwoPairsStep7(a);
    assert "b" == ['b'] + "";
  }

  lemma TwoPairsAcceptsAaaaaaaabbbbbRun(a: NFA<string>)
    requires TwoPairsTable(a)
    ensures Run(a, {"q1"}, "aaaaaaaabbbbb") == {"q1", "q3", "q5"}
  {
    TwoPairsAcceptsAaaaaaaabbbbbPart1(a);
    TwoPairsAcceptsAaaaaaaabbbbbPart2(a);
    TwoPairsAcceptsAaaaaaaabbbbbPart3(a);
    TwoPairsAcceptsAaaaaaaabbbbbPart4(a);
    TwoPairsAcceptsAaaaaaaabbbbbPart5(a);
    TwoPairsAcceptsAaaaaaaabbbbbPart6(a);
    TwoPairsAcceptsAaaaaaaabbbbbPart7(a);
  }

  lemma TwoPairsRejectsARun(a: NFA<string>)
    requires TwoPairsTable(a)
    ensures Run(a, {"q1"}, "a") == {"q1", "q2"}
  {
    TwoPairsStep1(a);
    assert "a" == ['a'] + "";
  }

  lemma TwoPairsRejectsBbbbbbbbPart1(a: NFA<string>)
    requires TwoPairsTable(a)
    ensures Run(a, {"q1"}, "bbbbbbbb") == Run(a, {"q1"}, "bbbbbb")
  {
    TwoPairsStep8(a);
    assert "bbbbbbbb" == ['b'] + "bbbbbbb";
    assert "bbbbbbb" == ['b'] + "bbbbbb";
  }

  lemma TwoPairsRejectsBbbbbbbbPart2(a: NFA<string>)
    requires TwoPairsTable(a)
    ensures Run(a, {"q1"}, "bbbbbb") == Run(a, {"q1"}, "bbbb")
  {
    TwoPairsStep8(a);
    assert "bbbbbb" == ['b'] + "bbbbb";
    assert "bbbbb" == ['b'] + "bbbb";
  }

  lemma TwoPairsRejectsBbbbbbbbPart3(a: NFA<string>)
    requires TwoPairsTable(a)
    ensures Run(a, {"q1"}, "bbbb") == Run(a, {"q1"}, "bb")
  {
    TwoPairsStep8(a);
    assert "bbbb" == ['b'] + "bbb";
    assert "bbb" == ['b'] + "bb";
  }

  lemma TwoPairsRejectsBbbbbbbbPart4(a: NFA<string>)
    requires TwoPairsTable(a)
    ensures Run(a, {"q1"}, "bb") == {"q1"}
  {
    TwoPairsStep8(a);
    assert "bb" == ['b'] + "b";
    assert "b" == ['b'] + "";
  }

  lemma TwoPairsRejectsBbbbbbbbRun(a: NFA<string>)
    requires TwoPairsTable(a)
    ensures Run(a, {"q1"}, "bbbbbbbb") == {"q1"}
  {
    TwoPairsRejectsBbbbbbbbPart1(a);
    TwoPairsRejectsBbbbbbbbPart2(a);
    TwoPairsRejectsBbbbbbbbPart3(a);
    TwoPairsRejectsBbbbbbbbPart4(a);
  }

  lemma TwoPairsRejectsAbbbbbbPart1(a: NFA<string>)
    requires TwoPairsTable(a)
    ensures Run(a, {"q1"}, "abbbbbb") == Run(a, {"q1"}, "bbbbb")
  {
    TwoPairsStep1(a);
    TwoPairsStep9(a);
    assert "abbbbbb" == ['a'] + "bbbbbb";
    assert "bbbbbb" == ['b'] + "bbbbb";
  }

  lemma TwoPairsRejectsAbbbbbbPart2(a: NFA<string>)
    requires TwoPairsTable(a)
    ensures Run(a, {"q1"}, "bbbbb") == Run(a, {"q1"}, "bbb")
  {
    TwoPairsStep8(a);
    assert "bbbbb" == ['b'] + "bbbb";
    assert "bbbb" == ['b'] + "bbb";
  }

  lemma TwoPairsRejectsAbbbbbbPart3(a: NFA<string>)
    requires TwoPairsTable(a)
    ensures Run(a, {"q1"}, "bbb") == Run(a, {"q1"}, "b")
  {
    TwoPairsStep8(a);
    assert "bbb" == ['b'] + "bb";
    assert "bb" == ['b'] + "b";
  }

  lemma TwoPairsRejectsAbbbbbbPart4(a: NFA<string>)
    requires TwoPairsTable(a)
    ensures Run(a, {"q1"}, "b") == {"q1"}
  {
    TwoPairsStep8(a);
    assert "b" == ['b'] + "";
  }

  lemma TwoPairsRejectsAbbbbbbRun(a: NFA<string>)
    requires TwoPairsTable(a)
    ensures Run(a, {"q1"}, "abbbbbb") == {"q1"}
  {
    TwoPairsRejectsAbbbbbbPart1(a);
    TwoPairsRejectsAbbbbbbPart2(a);
    TwoPairsRejectsAbbbbbbPart3(a);
    TwoPairsRejectsAbbbbbbPart4(a);
  }

  /** aaaa has two overlapping occurrences of aa that the automaton can use. */
  lemma TwoPairsAcceptsAaaa()
    ensures Accept(TwoPairs, "aaaa")
  {
    TwoPairsHasTable(TwoPairs);
    TwoPairsStart(TwoPairs);
    TwoPairsAcceptsAaaaRun(TwoPairs);
    assert "q5" in {"q1", "q2", "q3", "q4", "q5"} * TwoPairs.f;
  }

  /** aaaaaaaa is accepted. */
  lemma TwoPairsAcceptsAaaaaaaa()
    ensures Accept(TwoPairs, "aaaaaaaa")
  {
    TwoPairsHasTable(TwoPairs);
    TwoPairsStart(TwoPairs);
    TwoPairsAcceptsAaaaaaaaRun(TwoPairs);
    assert "q5" in {"q1", "q2", "q3", "q4", "q5"} * TwoPairs.f;
  }

  /** aaaaaaaabbbbb is accepted. */
  lemma TwoPairsAcceptsAaaaaaaabbbbb()
    ensures Accept(TwoPairs, "aaaaaaaabbbbb")
  {
    TwoPairsHasTable(TwoPairs);
    TwoPairsStart(TwoPairs);
    TwoPairsAcceptsAaaaaaaabbbbbRun(TwoPairs);
    assert "q5" in {"q1", "q3", "q5"} * TwoPairs.f;
  }

  /** a is rejected. */
  lemma TwoPairsRejectsA()
    ensures !Accept(TwoPairs, "a")
  {
    TwoPairsHasTable(TwoPairs);
    TwoPairsStart(TwoPairs);
    TwoPairsRejectsARun(TwoPairs);
    assert {"q1", "q2"} * TwoPairs.f == {};
  }

  /** bbbbbbbb is rejected. */
  lemma TwoPairsRejectsBbbbbbbb()
    ensures !Accept(TwoPairs, "bbbbbbbb")
  {
    TwoPairsHasTable(TwoPairs);
    TwoPairsStart(TwoPairs);
    TwoPairsRejectsBbbbbbbbRun(TwoPairs);
    assert {"q1"} * TwoPairs.f == {};
  }

  /** abbbbbb is rejected. */
  lemma TwoPairsRejectsAbbbbbb()
    ensures !Accept(TwoPairs, "abbbbbb")
  {
    TwoPairsHasTable(TwoPairs);
    TwoPairsStart(TwoPairs);
    TwoPairsRejectsAbbbbbbRun(TwoPairs);
    assert {"q1"} * TwoPairs.f == {};
  }

  lemma OnePairValid(a: NFA<string>)
    requires a == OnePair
    ensures IsValid(a) && EpsilonFree(a)
  {
    assert a.delta.Keys == {"q1", "q2", "q3"};
    forall s | s in a.delta ensures s in a.q && RowValid(a, a.delta[s]) && Epsilon !in a.delta[s] {
      if s == "q1" { assert a.delta[s] == map["a" := {"q1", "q2"}, "b" := {"q1"}]; }
      else if s == "q2" { assert a.delta[s] == map["a" := {"q3"}]; }
      else { assert a.delta[s] == map["a" := {"q3"}, "b" := {"q3"}]; }
    }
  }

  /** `OnePair` is valid and has no epsilon transition. */
  lemma OnePairIsValid()
    ensures IsValid(OnePair) && EpsilonFree(OnePair)
  {
    OnePairValid(OnePair);
  }

  /** `a` has the transitions of `OnePair`, epsilon included. */
  predicate OnePairTable(a: NFA<string>) {
    && Succ(a, "q1", "a") == {"q1", "q2"} && Succ(a, "q1", "b") == {"q1"} && Succ(a, "q1", "") == {}
    && Succ(a, "q2", "a") == {"q3"} && Succ(a, "q2", "b") == {} && Succ(a, "q2", "") == {}
    && Succ(a, "q3", "a") == {"q3"} && Succ(a, "q3", "b") == {"q3"} && Succ(a, "q3", "") == {}
  }

  lemma OnePairRowQ1(a: NFA<string>)
    requires a == OnePair
    ensures Succ(a, "q1", "a") == {"q1", "q2"} && Succ(a, "q1", "b") == {"q1"} && Succ(a, "q1", "") == {}
  {
  }

  lemma OnePairRowQ2(a: NFA<string>)
    requires a == OnePair
    ensures Succ(a, "q2", "a") == {"q3"} && Succ(a, "q2", "b") == {} && Succ(a, "q2", "") == {}
  {
  }

  lemma OnePairRowQ3(a: NFA<string>)
    requires a == OnePair
    ensures Succ(a, "q3", "a") == {"q3"} && Succ(a, "q3", "b") == {"q3"} && Succ(a, "q3", "") == {}
  {
  }

  lemma OnePairHasTable(a: NFA<string>)
    requires a == OnePair
    ensures OnePairTable(a)
  {
    OnePairRowQ1(a);
    OnePairRowQ2(a);
    OnePairRowQ3(a);
  }

  /** No epsilon transition leaves a set of states of `OnePair`. */
  lemma OnePairClosed(a: NFA<string>, X: set<string>)
    requires OnePairTable(a)
    requires X <= {"q1", "q2", "q3"}
    ensures EClosure(a, X) == X
  {
    forall s | s in X ensures Succ(a, s, Epsilon) <= X {
      assert s == "q1" || s == "q2" || s == "q3";
    }
    ClosureOfClosed(a, X);
  }

  lemma OnePairStart(a: NFA<string>)
    requires OnePairTable(a)
    requires a.initialState == "q1"
    ensures EClosure(a, {a.initialState}) == {"q1"}
  {
    OnePairClosed(a, {"q1"});
  }

  lemma OnePairStep1(a: NFA<string>)
    requires OnePairTable(a)
    ensures Leads(a, {"q1"}, 'a', {"q1", "q2"})
  {
    Moves1(a, "q1", "a", {"q1", "q2"});
    assert Moves(a, {"q1"}, "a") == {"q1", "q2"};
    OnePairClosed(a, {"q1", "q2"});
    StepLeads(a, {"q1"}, 'a', {"q1", "q2"});
  }

  lemma OnePairStep2(a: NFA<string>)
    requires OnePairTable(a)
    ensures Leads(a, {"q1", "q2"}, 'a', {"q1", "q2", "q3"})
  {
    Moves2(a, "q1", "q2", "a", {"q1", "q2"}, {"q3"});
    assert Moves(a, {"q1", "q2"}, "a") == {"q1", "q2", "q3"};
    OnePairClosed(a, {"q1", "q2", "q3"});
    StepLeads(a, {"q1", "q2"}, 'a', {"q1", "q2", "q3"});
  }

  lemma OnePairStep3(a: NFA<string>)
    requires OnePairTable(a)
    ensures Leads(a, {"q1", "q2", "q3"}, 'a', {"q1", "q2", "q3"})
  {
    Moves3(a, "q1", "q2", "q3", "a", {"q1", "q2"}, {"q3"}, {"q3"});
    assert Moves(a, {"q1", "q2", "q3"}, "a") == {"q1", "q2", "q3"};
    OnePairClosed(a, {"q1", "q2", "q3"});
    StepLeads(a, {"q1", "q2", "q3"}, 'a', {"q1", "q2", "q3"});
  }

  lemma OnePairStep4(a: NFA<string>)
    requires OnePairTable(a)
    ensures Leads(a, {"q1", "q2", "q3"}, 'b', {"q1", "q3"})
  {
    Moves3(a, "q1", "q2", "q3", "b", {"q1"}, {}, {"q3"});
    assert Moves(a, {"q1", "q2", "q3"}, "b") == {"q1", "q3"};
    OnePairClosed(a, {"q1", "q3"});
    StepLeads(a, {"q1", "q2", "q3"}, 'b', {"q1", "q3"});
  }

  lemma OnePairStep5(a: NFA<string>)
    requires OnePairTable(a)
    ensures Leads(a, {"q1", "q3"}, 'b', {"q1", "q3"})
  {
    Moves2(a, "q1", "q3", "b", {"q1"}, {"q3"});
    assert Moves(a, {"q1", "q3"}, "b") == {"q1", "q3"};
    OnePairClosed(a, {"q1", "q3"});
    StepLeads(a, {"q1", "q3"}, 'b', {"q1", "q3"});
  }

  lemma OnePairAcceptsAaaaPart1(a: NFA<string>)
    requires OnePairTable(a)
    ensures Run(a, {"q1"}, "aaaa") == Run(a, {"q1", "q2", "q3"}, "aa")
  {
    OnePairStep1(a);
    OnePairStep2(a);
    assert "aaaa" == ['a'] + "aaa";
    assert "aaa" == ['a'] + "aa";
  }

  lemma OnePairAcceptsAaaaPart2(a: NFA<string>)
    requires OnePairTable(a)
    ensures Run(a, {"q1", "q2", "q3"}, "aa") == {"q1", "q2", "q3"}
  {
    OnePairStep3(a);
    assert "aa" == ['a'] + "a";
    assert "a" == ['a'] + "";
  }

  lemma OnePairAcceptsAaaaRun(a: NFA<string>)
    requires OnePairTable(a)
    ensures Run(a, {"q1"}, "aaaa") == {"q1", "q2", "q3"}
  {
    OnePairAcceptsAaaaPart1(a);
    OnePairAcceptsAaaaPart2(a);
  }

  lemma OnePairAcceptsAaaaaaaaPart1(a: NFA<string>)
    requires OnePairTable(a)
    ensures Run(a, {"q1"}, "aaaaaaaa") == Run(a, {"q1", "q2", "q3"}, "aaaaaa")
  {
    OnePairStep1(a);
    OnePairStep2(a);
    assert "aaaaaaaa" == ['a'] + "aaaaaaa";
    assert "aaaaaaa" == ['a'] + "aaaaaa";
  }

  lemma OnePairAcceptsAaaaaaaaPart2(a: NFA<string>)
    requires OnePairTable(a)
    ensures Run(a, {"q1", "q2", "q3"}, "aaaaaa") == Run(a, {"q1", "q2", "q3"}, "aaaa")
  {
    OnePairStep3(a);
    assert "aaaaaa" == ['a'] + "aaaaa";
    assert "aaaaa" == ['a'] + "aaaa";
  }

  lemma OnePairAcceptsAaaaaaaaPart3(a: NFA<string>)
    requires OnePairTable(a)
    ensures Run(a, {"q1", "q2", "q3"}, "aaaa") == Run(a, {"q1", "q2", "q3"}, "aa")
  {
    OnePairStep3(a);
    assert "aaaa" == ['a'] + "aaa";
    assert "aaa" == ['a'] + "aa";
  }

  lemma OnePairAcceptsAaaaaaaaPart4(a: NFA<string>)
    requires OnePairTable(a)
    ensures Run(a, {"q1", "q2", "q3"}, "aa") == {"q1", "q2", "q3"}
  {
    OnePairStep3(a);
    assert "aa" == ['a'] + "a";
    assert "a" == ['a'] + "";
  }

  lemma OnePairAcceptsAaaaaaaaRun(a: NFA<string>)
    requires OnePairTable(a)
    ensures Run(a, {"q1"}, "aaaaaaaa") == {"q1", "q2", "q3"}
  {
    OnePairAcceptsAaaaaaaaPart1(a);
    OnePairAcceptsAaaaaaaaPart2(a);
    OnePairAcceptsAaaaaaaaPart3(a);
    OnePairAcceptsAaaaaaaaPart4(a);
  }

  lemma OnePairAcceptsAaaaaaaabbbbbPart1(a: NFA<string>)
    requires OnePairTable(a)
    ensures Run(a, {"q1"}, "aaaaaaaabbbbb") == Run(a, {"q1", "q2", "q3"}, "aaaaaabbbbb")
  {
    OnePairStep1(a);
    OnePairStep2(a);
    assert "aaaaaaaabbbbb" == ['a'] + "aaaaaaabbbbb";
    assert "aaaaaaabbbbb" == ['a'] + "aaaaaabbbbb";
  }

  lemma OnePairAcceptsAaaaaaaabbbbbPart2(a: NFA<string>)
    requires OnePairTable(a)
    ensures Run(a, {"q1", "q2", "q3"}, "aaaaaabbbbb") == Run(a, {"q1", "q2", "q3"}, "aaaabbbbb")
  {
    OnePairStep3(a);
    assert "aaaaaabbbbb" == ['a'] + "aaaaabbbbb";
    assert "aaaaabbbbb" == ['a'] + "aaaabbbbb";
  }

  lemma OnePairAcceptsAaaaaaaabbbbbPart3(a: NFA<string>)
    requires OnePairTable(a)
    ensures Run(a, {"q1", "q2", "q3"}, "aaaabbbbb") == Run(a, {"q1", "q2", "q3"}, "aabbbbb")
  {
    OnePairStep3(a);
    assert "aaaabbbbb" == ['a'] + "aaabbbbb";
    assert "aaabbbbb" == ['a'] + "aabbbbb";
  }

  lemma OnePairAcceptsAaaaaaaabbbbbPart4(a: NFA<string>)
    requires OnePairTable(a)
    ensures Run(a, {"q1", "q2", "q3"}, "aabbbbb") == Run(a, {"q1", "q2", "q3"}, "bbbbb")
  {
    OnePairStep3(a);
    assert "aabbbbb" == ['a'] + "abbbbb";
    assert "abbbbb" == ['a'] + "bbbbb";
  }

  lemma OnePairAcceptsAaaaaaaabbbbbPart5(a: NFA<string>)
    requires OnePairTable(a)
    ensures Run(a, {"q1", "q2", "q3"}, "bbbbb") == Run(a, {"q1", "q3"}, "bbb")
  {
    OnePairStep4(a);
    OnePairStep5(a);
    assert "bbbbb" == ['b'] + "bbbb";
    assert "bbbb" == ['b'] + "bbb";
  }

  lemma OnePairAcceptsAaaaaaaabbbbbPart6(a: NFA<string>)
    requires OnePairTable(a)
    ensures Run(a, {"q1", "q3"}, "bbb") == Run(a, {"q1", "q3"}, "b")
  {
    OnePairStep5(a);
    assert "bbb" == ['b'] + "bb";
    assert "bb" == ['b'] + "b";
  }

  lemma OnePairAcceptsAaaaaaaabbbbbPart7(a: NFA<string>)
    requires OnePairTable(a)
    ensures Run(a, {"q1", "q3"}, "b") == {"q1", "q3"}
  {
    OnePairStep5(a);
    assert "b" == ['b'] + "";
  }

  lemma OnePairAcceptsAaaaaaaabbbbbRun(a: NFA<string>)
    requires OnePairTable(a)
    ensures Run(a, {"q1"}, "aaaaaaaabbbbb") == {"q1", "q3"}
  {
    OnePairAcceptsAaaaaaaabbbbbPart1(a);
    OnePairAcceptsAaaaaaaabbbbbPart2(a);
    OnePairAcceptsAaaaaaaabbbbbPart3(a);
    OnePairAcceptsAaaaaaaabbbbbPart4(a);
    OnePairAcceptsAaaaaaaabbbbbPart5(a);
    OnePairAcceptsAaaaaaaabbbbbPart6(a);
    OnePairAcceptsAaaaaaaabbbbbPart7(a);
  }

  /** aaaa contains aa. */
  lemma OnePairAcceptsAaaa()
    ensures Accept(OnePair, "aaaa")
  {
    OnePairHasTable(OnePair);
    OnePairStart(OnePair);
    OnePairAcceptsAaaaRun(OnePair);
    assert "q3" in {"q1", "q2", "q3"} * OnePair.f;
  }

  /** aaaaaaaa contains aa. */
  lemma OnePairAcceptsAaaaaaaa()
    ensures Accept(OnePair, "aaaaaaaa")
  {
    OnePairHasTable(OnePair);
    OnePairStart(OnePair);
    OnePairAcceptsAaaaaaaaRun(OnePair);
    assert "q3" in {"q1", "q2", "q3"} * OnePair.f;
  }

  /** aaaaaaaabbbbb contains aa. */
  lemma OnePairAcceptsAaaaaaaabbbbb()
    ensures Accept(OnePair, "aaaaaaaabbbbb")
  {
    OnePairHasTable(OnePair);
    OnePairStart(OnePair);
    OnePairAcceptsAaaaaaaabbbbbRun(OnePair);
    assert "q3" in {"q1", "q3"} * OnePair.f;
  }

  /** The intersection is valid and accepts aaaa, aaaaaaaa and aaaaaaaabbbbb, and rejects
      a, bbbbbbbb and abbbbbb. */
  lemma IntersectionScenario()
    ensures IsValid(Intersection(TwoPairs, OnePair))
    ensures Accept(Intersection(TwoPairs, OnePair), "aaaa")
    ensures Accept(Intersection(TwoPairs, OnePair), "aaaaaaaa")
    ensures Accept(Intersection(TwoPairs, OnePair), "aaaaaaaabbbbb")
    ensures !Accept(Intersection(TwoPairs, OnePair), "a")
    ensures !Accept(Intersection(TwoPairs, OnePair), "bbbbbbbb")
    ensures !Accept(Intersection(TwoPairs, OnePair), "abbbbbb")
  {
    TwoPairsIsValid();
    OnePairIsValid();
    IntersectionValid(TwoPairs, OnePair);
    TwoPairsAcceptsAaaa();
    OnePairAcceptsAaaa();
    IntersectionAccept(TwoPairs, OnePair, "aaaa");
    TwoPairsAcceptsAaaaaaaa();
    OnePairAcceptsAaaaaaaa();
    IntersectionAccept(TwoPairs, OnePair, "aaaaaaaa");
    TwoPairsAcceptsAaaaaaaabbbbb();
    OnePairAcceptsAaaaaaaabbbbb();
    IntersectionAccept(TwoPairs, OnePair, "aaaaaaaabbbbb");
    TwoPairsRejectsA();
    IntersectionAccept(TwoPairs, OnePair, "a");
    TwoPairsRejectsBbbbbbbb();
    IntersectionAccept(TwoPairs, OnePair, "bbbbbbbb");
    TwoPairsRejectsAbbbbbb();
    IntersectionAccept(TwoPairs, OnePair, "abbbbbb");
  }

  lemma PairsOfSingletons<S, T>(s: S, t: T)
    ensures Pairs({s}, {t}) == {(s, t)}
  {
  }

  /** An automaton that accepts some string has a final state. */
  lemma AcceptHasFinal<S>(n: NFA<S>, w: string)
    requires Accept(n, w)
    ensures n.f != {}
  {
  }

  /** When the operands have the single final states q5 and q3 and the intersection
      accepts some string, its final states are exactly the pair (q5, q3). */
  lemma FinalPairOf(a: NFA<string>, b: NFA<string>, w: string)
    requires a.f == {"q5"} && b.f == {"q3"} && Accept(Intersection(a, b), w)
    ensures Intersection(a, b).f == {("q5", "q3")}
  {
    AcceptHasFinal(Intersection(a, b), w);
    IntersectionFinals(a, b);
    PairsOfSingletons("q5", "q3");
  }

  /** The intersection has the single final pair (q5, q3): its final pairs are pairs of
      final states, and there is one because it accepts aaaa. */
  lemma IntersectionFinalPair()
    ensures Intersection(TwoPairs, OnePair).f == {("q5", "q3")}
  {
    IntersectionScenario();
    FinalPairOf(TwoPairs, OnePair, "aaaa");
  }

  /** The rendering of a pair of state names as a Python tuple of strings, for names
      without quote or backslash characters. */
  function PairName(p: (string, string)): (r: string)
    ensures |r| == |p.0| + |p.1| + 8
  {
    "('" + p.0 + "', '" + p.1 + "')"
  }

  lemma RenderedPair(F: set<(string, string)>)
    requires F == {("q5", "q3")}
    ensures (set p | p in F :: PairName(p)) == {"('q5', 'q3')"}
  {
    assert PairName(("q5", "q3")) == "('q5', 'q3')";
  }

  /** Rendered as the engine renders pair states, the final states of the intersection
      are the one string ('q5', 'q3'). */
  lemma IntersectionFinalsRendered()
    ensures (set p | p in Intersection(TwoPairs, OnePair).f :: PairName(p)) == {"('q5', 'q3')"}
  {
    IntersectionFinalPair();
    RenderedPair(Intersection(TwoPairs, OnePair).f);
  }

  // ---------------------------------------------------------------------------
  // renumber

  const RenumberStates0: set<string> := {"alpha", "beta", "gamma", "sigma"}

  const RenumberDelta0: map<string, map<Symbol, set<string>>> :=
    map["sigma" := map["A" := {"beta"}],
        "beta" := map["B" := {"gamma"}, "" := {"gamma"}],
        "gamma" := map["C" := {"alpha"}]]

  /** The automaton handed to `renumber`. */
  const RenumberInput: NFA<string> :=
    NFA(RenumberStates0, {"", "A", "B", "C"}, RenumberDelta0, "sigma", {"alpha"})

  lemma RenumberInputValid()
    ensures IsValid(RenumberInput)
  {
  }

  /** The names below 4 with prefix q are q0 to q3. */
  lemma NamesQ4()
    ensures NameSet("q", 4) == {"q0", "q1", "q2", "q3"}
  {
    assert NameSet("q", 0) == {};
    NameSetStep("q", 0);
    NameSetStep("q", 1);
    NameSetStep("q", 2);
    NameSetStep("q", 3);
    assert Name("q", 0) == "q0" by { assert NatStr(0) == "0"; }
    assert Name("q", 1) == "q1" by { assert NatStr(1) == "1"; }
    assert Name("q", 2) == "q2" by { assert NatStr(2) == "2"; }
    assert Name("q", 3) == "q3" by { assert NatStr(3) == "3"; }
  }

  lemma RenumberInputFour()
    ensures |RenumberInput.q| == 4
  {
    assert RenumberInput.q == {"alpha"} + {"beta"} + {"gamma"} + {"sigma"};
  }

  /** Renumbering four states with prefix q gives the states q0 to q3, and every state
      gets one of these names. */
  lemma RenumberedFour(a: NFA<string>, names: map<string, string>)
    requires IsValid(a) && |a.q| == 4 && IsRenumbering(names, a.q, "q")
    ensures Renamable(a, names)
    ensures Rename(a, names).q == {"q0", "q1", "q2", "q3"}
    ensures forall s :: s in a.q ==> names[s] in {"q0", "q1", "q2", "q3"}
  {
    RenumberStates(a, names, "q");
    NamesQ4();
    forall s | s in a.q ensures names[s] in {"q0", "q1", "q2", "q3"} {
      assert names[s] in names.Values;
    }
  }

  /** When no old name is one of q0 to q3, renumbering four states with prefix q moves
      the final states, the initial state and the sources of the transitions to new
      names. */
  lemma RenumberedFourChanges(a: NFA<string>, names: map<string, string>)
    requires IsValid(a) && |a.q| == 4 && IsRenumbering(names, a.q, "q")
    requires a.q !! {"q0", "q1", "q2", "q3"} && a.f != {} && |a.delta| > 0
    ensures Renamable(a, names) && IsValid(Rename(a, names))
    ensures Rename(a, names).q == {"q0", "q1", "q2", "q3"}
    ensures Rename(a, names).f != a.f
    ensures Rename(a, names).initialState != a.initialState
    ensures Rename(a, names).delta != a.delta
  {
    RenumberedFour(a, names);
    RenameValid(a, names);
    var r := Rename(a, names);
    var s :| s in a.f;
    assert names[s] in r.f && names[s] !in a.f;
    var k :| k in a.delta;
    forall u | u in r.delta ensures u != k {
      var t :| t in a.delta && names[t] == u;
      assert names[t] in {"q0", "q1", "q2", "q3"};
    }
  }

  lemma RenumberInputFresh()
    ensures RenumberInput.q !! {"q0", "q1", "q2", "q3"}
  {
  }

  /** After renumbering with prefix q the automaton is valid, its states are q0 to q3,
      and its final states, initial state and transitions differ from the original
      ones, since none of the new names is an old name. */
  lemma RenumberOutcome(names: map<string, string>)
    requires IsRenumbering(names, RenumberStates0, "q")
    ensures Renamable(RenumberInput, names)
    ensures IsValid(Rename(RenumberInput, names))
    ensures Rename(RenumberInput, names).q == {"q0", "q1", "q2", "q3"}
    ensures Rename(RenumberInput, names).f != {"alpha"}
    ensures Rename(RenumberInput, names).initialState != "sigma"
    ensures Rename(RenumberInput, names).delta != RenumberDelta0
  {
    RenumberInputValid();
    RenumberInputFour();
    RenumberInputFresh();
    assert "sigma" in RenumberInput.delta;
    RenumberedFourChanges(RenumberInput, names);
  }

  /** The object-level scenario: build the automaton, renumber it in place with prefix q,
      and observe the fields the test inspects. */
  method RenumberScenario() returns (a: Automaton)
    ensures IsValid(a.Value())
    ensures a.q == {"q0", "q1", "q2", "q3"}
    ensures a.f != {"alpha"}
    ensures a.initialState != "sigma"
    ensures a.delta != RenumberDelta0
  {
    a := new Automaton(RenumberStates0, {"", "A", "B", "C"}, RenumberDelta0, "sigma", {"alpha"});
    RenumberInputValid();
    ghost var names := a.Renumber("q");
    RenumberOutcome(names);
  }
}
