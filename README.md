# automathon NFA engine, modelled in Dafny

This project models the nondeterministic finite automaton (`NFA`) of the automathon
library and proves properties about it. The behaviour it checks is what the
library's tests exercise.

An automaton has:

- a set of states `q`;
- an alphabet `sigma` of string symbols;
- a transition map `delta`, from a state to a map from a symbol to the set of next states;
- an `initial_state`;
- a set `f` of final states.

The empty string `""` labels an epsilon transition, as it does in the library, and an
input string is read one character at a time.

The files:

- `automaton.dfy` (module `Automata`) holds the datatype `NFA<S>` and the basic operations:
  - `is_valid` (`IsValid`);
  - the epsilon-closure (`EClosure`), a layered search that visits each state once, so it stops on epsilon cycles;
  - `accept` (`Accept`), a frontier simulation. It starts from the closure of the initial state. Each character replaces the frontier by the closure of its moves. An empty frontier rejects at once.

  The file also proves the closure correct. `EClosure` is the least epsilon-closed superset, and it is exactly the set of states reachable by epsilon paths.
- `embedding.dfy` (module `Embeddings`) covers state maps. It shows that a map which carries an automaton's transitions and final states into another automaton keeps `accept` unchanged. It also covers the case where a fresh initial state forks by epsilon into two embedded automata. These facts drive the proofs for union and for renumbering.
- `determinization.dfy` (module `Determinization`) models two operations:
  - `remove_epsilon_transitions`;
  - `get_dfa`, the subset construction. It explores only the subsets reachable from the closure of the initial state. Each composite state is a set of original states, a value compared by equality.

  For both it proves validity, the absence of epsilon transitions, determinism (for `get_dfa`) and language equivalence.
- `algebra.dfy` (module `Algebra`) models three operations:
  - `product`, the synchronous product on the shared alphabet;
  - `intersection`, the product cut down to the pairs reachable from the initial pair;
  - `union`, a fresh initial state with epsilon transitions into tagged copies of both operands.

  Their language laws are proved for all valid operands. The laws for `product` and `intersection` also need operands without epsilon transitions. An epsilon-aware product, which removes the epsilon transitions first, satisfies the law for every pair of valid operands.
- `renumbering.dfy` (module `Renumbering`) models `renumber(prefix)` as a method of a mutable `Automaton` class. The method rewrites the fields in place. A loop gives the states the names `prefix0` … `prefix(n-1)`, one each, in an unspecified order. It is proved that the result is the old automaton relabelled along an injective map, so validity and `accept` are kept.
- `parity.dfy` (module `Parity`) proves the languages of the two operands of the product test for every string: an even number of a's, an even number of b's, and both for their product.
- `findings.dfy` (module `Findings`) holds two constructions as documented, each with a small automaton on which it loses a string (see "## Findings").
- `scenarios.dfy` (module `Scenarios`) holds the automata of the library's tests as constants. Every assertion of the test file is a lemma about them. The general laws above carry each answer about a product, union, intersection or subset construction back to its operands. Each operand's answer comes from a chain of one-step lemmas that rewrite `Run` character by character from a transition table.

## Model

| member | source | states |
|---|---|---|
| Automata.IsValid | NLP_LAB_2_06_08_25/automathon-main/tests/test_nfa.py:37-38 | The definition of `is_valid`: the initial and final states are states, and every transition leaves a state, carries a symbol of the alphabet or epsilon, and leads to states. It has no contract of its own; the validity lemmas below state which operations keep it |
| Automata.Run | NLP_LAB_2_06_08_25/automathon-main/tests/test_nfa.py:40-47 | The frontier simulation. It has no contract of its own; it is specified by `RunUnion` and `RunInStates` and by the simulation lemmas of each operation (`RemoveEpsilonRun`, `GetDfaRun`, `ProductRun`, `EmbedRun`) |
| Automata.Accept | NLP_LAB_2_06_08_25/automathon-main/tests/test_nfa.py:40-41 | The definition of `accept`: a final state is possible after the simulation from the closure of the initial state. It has no contract of its own; it is specified by the language laws `RemoveEpsilonAccept`, `GetDfaAccept`, `ProductAccept`, `IntersectionAccept`, `UnionAccept` and `RenameAccept` |
| Automata.EClosure | NLP_LAB_2_06_08_25/automathon-main/tests/test_nfa.py:31 | The closure holds the start set, adds only transition targets, and no epsilon transition leaves it. The search also stops on a cycle closed by an epsilon transition, such as 3 → 1 → 2 → 3, where only 3 → 1 is an epsilon transition |
| Automata.ClosureLeast | NLP_LAB_2_06_08_25/automathon-main/tests/test_nfa.py:31 | The closure lies inside every epsilon-closed superset of the start set, so it is the least one |
| Automata.ClosureIsEpsilonReachability | NLP_LAB_2_06_08_25/automathon-main/tests/test_nfa.py:11 | A state is in the closure exactly when some chain of epsilon transitions leads to it from the start set (both directions) |
| Automata.RunUnion | NLP_LAB_2_06_08_25/automathon-main/tests/test_nfa.py:40-47 | Simulating from the union of two frontiers gives the union of the two simulations |
| Automata.RunInStates | NLP_LAB_2_06_08_25/automathon-main/tests/test_nfa.py:40-47 | In a valid automaton, a frontier made of states stays made of states through the whole simulation |
| Scenarios.FaIsValid | NLP_LAB_2_06_08_25/automathon-main/tests/test_nfa.py:37-38 | `fa` is valid |
| Scenarios.FaAccepts000001100001 | NLP_LAB_2_06_08_25/automathon-main/tests/test_nfa.py:40-41 | `fa` accepts 000001100001 |
| Scenarios.FaAccepts0000011 | NLP_LAB_2_06_08_25/automathon-main/tests/test_nfa.py:43-44 | `fa` accepts 0000011; the last step needs the epsilon transition q2 → q3 |
| Scenarios.FaNeedsEpsilon | NLP_LAB_2_06_08_25/automathon-main/tests/test_nfa.py:43-44 | `fa` accepts 0000011, and the same automaton with the row of q2 cut to its transition on 0 rejects it: the epsilon transition q2 → q3 is needed |
| Scenarios.FaRejects000001 | NLP_LAB_2_06_08_25/automathon-main/tests/test_nfa.py:46-47 | `fa` rejects 000001 |
| Determinization.RemoveEpsilonTransitions | NLP_LAB_2_06_08_25/automathon-main/tests/test_nfa.py:50 | The definition of `remove_epsilon_transitions`. It has no contract of its own; it is specified by `RemoveEpsilonValid`, `RemoveEpsilonEpsilonFree` and `RemoveEpsilonAccept` |
| Determinization.RemoveEpsilonValid | NLP_LAB_2_06_08_25/automathon-main/tests/test_nfa.py:49-51 | For a valid automaton, the result of epsilon removal is valid and has no epsilon transition |
| Determinization.RemoveEpsilonAccept | NLP_LAB_2_06_08_25/automathon-main/tests/test_nfa.py:49-51 | For a valid automaton, epsilon removal accepts exactly the same strings |
| Scenarios.FaOneRemoveEpsilonValid | NLP_LAB_2_06_08_25/automathon-main/tests/test_nfa.py:49-51 | Removing the epsilon transitions of `fa_1` gives a valid automaton with no epsilon transition |
| Findings.DocumentedRemovalLosesString | NLP_LAB_2_06_08_25/automathon-main/tests/test_nfa.py:49-51 | On a valid automaton with an epsilon transition out of its initial state, the documented removal rejects a string that the automaton accepts |
| Findings.RemovalKeepsString | NLP_LAB_2_06_08_25/automathon-main/tests/test_nfa.py:49-51 | The removal the model uses accepts that string |
| Determinization.GetDfa | NLP_LAB_2_06_08_25/automathon-main/tests/test_nfa.py:54 | The definition of `get_dfa`. It has no contract of its own; it is specified by `GetDfaValid`, `GetDfaDeterministic`, `GetDfaReachable` and `GetDfaAccept` |
| Determinization.GetDfaReachable | NLP_LAB_2_06_08_25/automathon-main/tests/test_nfa.py:53-54 | The states of the subset construction lie in every family of subsets that holds the start subset and is closed under successors, so only reachable subsets are built |
| Determinization.GetDfaAccept | NLP_LAB_2_06_08_25/automathon-main/tests/test_nfa.py:53-59 | For a valid automaton, the subset construction accepts exactly the strings the automaton accepts |
| Scenarios.FaDfaAnswers | NLP_LAB_2_06_08_25/automathon-main/tests/test_nfa.py:53-59 | The subset construction of `fa` rejects 000001 and accepts 0000011 |
| Determinization.GetDfaValid | NLP_LAB_2_06_08_25/automathon-main/tests/test_nfa.py:61-63 | The subset construction of any automaton is valid |
| Determinization.GetDfaDeterministic | NLP_LAB_2_06_08_25/automathon-main/tests/test_nfa.py:61-63 | The subset construction has no epsilon transition and at most one destination per state and symbol: exactly one wherever a transition exists |
| Scenarios.FaOneDfaValid | NLP_LAB_2_06_08_25/automathon-main/tests/test_nfa.py:61-63 | The subset construction of `fa_1` is valid and epsilon-free |
| Algebra.Product | NLP_LAB_2_06_08_25/automathon-main/tests/test_nfa.py:88 | The definition of `product`. It has no contract of its own; it is specified by `ProductValid`, `ProductSucc` and `ProductAccept` |
| Algebra.ProductValid | NLP_LAB_2_06_08_25/automathon-main/tests/test_nfa.py:88-90 | The product of two valid automata is valid |
| Algebra.ProductAccept | NLP_LAB_2_06_08_25/automathon-main/tests/test_nfa.py:88-95 | The product of two valid epsilon-free automata accepts a string exactly when both operands accept it |
| Scenarios.ProductScenario | NLP_LAB_2_06_08_25/automathon-main/tests/test_nfa.py:65-95 | The test's product is valid, accepts "", bb and bbaa, and rejects b and bbaaa |
| Parity.EvenALanguage | NLP_LAB_2_06_08_25/automathon-main/tests/test_nfa.py:66-75 | The first operand accepts a string exactly when every character is a or b and the number of a's is even |
| Parity.EvenBLanguage | NLP_LAB_2_06_08_25/automathon-main/tests/test_nfa.py:77-86 | The second operand accepts a string exactly when every character is a or b and the number of b's is even |
| Parity.ProductLanguage | NLP_LAB_2_06_08_25/automathon-main/tests/test_nfa.py:88-95 | Their product accepts a string exactly when every character is a or b and both the number of a's and the number of b's are even |
| Algebra.ClosedProductAccept | NLP_LAB_2_06_08_25/automathon-main/tests/test_nfa.py:88 | The epsilon-aware product of two valid automata, with operands that may have epsilon transitions, accepts a string exactly when both operands accept it |
| Algebra.ClosedProductAgrees | NLP_LAB_2_06_08_25/automathon-main/tests/test_nfa.py:88-95 | On valid epsilon-free operands, as in the tests, the epsilon-aware product and the product accept the same strings |
| Findings.ProductLosesString | NLP_LAB_2_06_08_25/automathon-main/tests/test_nfa.py:88 | Two valid automata, one of them with an epsilon transition, both accept the empty string, but their product rejects it |
| Findings.ClosedProductKeepsString | NLP_LAB_2_06_08_25/automathon-main/tests/test_nfa.py:88 | The epsilon-aware product of the same two automata accepts the empty string |
| Algebra.Union | NLP_LAB_2_06_08_25/automathon-main/tests/test_nfa.py:119 | The definition of `union`. It has no contract of its own; it is specified by `UnionValid`, `UnionStartSucc`, `UnionStartNotFinal` and `UnionAccept` |
| Algebra.UnionValid | NLP_LAB_2_06_08_25/automathon-main/tests/test_nfa.py:119-121 | The union of two valid automata is valid |
| Algebra.UnionStartSucc | NLP_LAB_2_06_08_25/automathon-main/tests/test_nfa.py:119 | The fresh initial state of a union has epsilon transitions to the two tagged initial states and no other transition |
| Algebra.UnionAccept | NLP_LAB_2_06_08_25/automathon-main/tests/test_nfa.py:119-125 | The union of two valid automata accepts a string exactly when either operand accepts it |
| Embeddings.EmbedAccept | NLP_LAB_2_06_08_25/automathon-main/tests/test_nfa.py:119 | Suppose a state map carries the transitions and final states of one automaton into another and maps initial state to initial state. Then the two automata accept the same strings |
| Embeddings.ForkAccept | NLP_LAB_2_06_08_25/automathon-main/tests/test_nfa.py:119 | An automaton whose non-final initial state forks by epsilon into two embedded automata accepts exactly what either of them accepts |
| Scenarios.UnionScenario | NLP_LAB_2_06_08_25/automathon-main/tests/test_nfa.py:97-125 | The test's union is valid, accepts aaaaaa and bbbbbbbbba, and rejects aaaabbbbaaa and aaaaaaaab |
| Algebra.Intersection | NLP_LAB_2_06_08_25/automathon-main/tests/test_nfa.py:169 | The definition of `intersection`. It has no contract of its own; it is specified by `IntersectionValid`, `IntersectionFinals` and `IntersectionAccept` |
| Algebra.TrimAccept | NLP_LAB_2_06_08_25/automathon-main/tests/test_nfa.py:169 | Cutting an automaton down to its reachable states keeps `accept` on every string |
| Algebra.IntersectionValid | NLP_LAB_2_06_08_25/automathon-main/tests/test_nfa.py:169-171 | The intersection of two valid automata is valid |
| Algebra.IntersectionAccept | NLP_LAB_2_06_08_25/automathon-main/tests/test_nfa.py:169-178 | The intersection of two valid epsilon-free automata accepts a string exactly when both operands accept it |
| Algebra.IntersectionFinals | NLP_LAB_2_06_08_25/automathon-main/tests/test_nfa.py:172 | Every final state of an intersection is a pair of final states |
| Scenarios.IntersectionScenario | NLP_LAB_2_06_08_25/automathon-main/tests/test_nfa.py:127-178 | The test's intersection is valid, accepts aaaa, aaaaaaaa and aaaaaaaabbbbb, and rejects a, bbbbbbbb and abbbbbb |
| Algebra.ClosedIntersectionAccept | NLP_LAB_2_06_08_25/automathon-main/tests/test_nfa.py:169 | The reachable part of the epsilon-aware product accepts a string exactly when both valid operands accept it |
| Scenarios.IntersectionFinalPair | NLP_LAB_2_06_08_25/automathon-main/tests/test_nfa.py:172 | The final states of the test's intersection are exactly the pair (q5, q3) |
| Scenarios.IntersectionFinalsRendered | NLP_LAB_2_06_08_25/automathon-main/tests/test_nfa.py:172 | Rendered as the library renders pair states, those final states are the single string ('q5', 'q3') |
| Renumbering.NameSetCard | NLP_LAB_2_06_08_25/automathon-main/tests/test_nfa.py:201 | There are exactly n distinct names `prefix0` … `prefix(n-1)` |
| Renumbering.ChooseNames | NLP_LAB_2_06_08_25/automathon-main/tests/test_nfa.py:198 | Every state gets a name, no two states share a name, and the names used are exactly `prefix0` … `prefix(n-1)` for n states |
| Renumbering.Automaton.Renumber | NLP_LAB_2_06_08_25/automathon-main/tests/test_nfa.py:198 | The fields of the object become the old automaton relabelled along such a naming |
| Renumbering.RenumberStates | NLP_LAB_2_06_08_25/automathon-main/tests/test_nfa.py:198-201 | After renumbering, the states are exactly `prefix0` … `prefix(n-1)`, as many as before, and the alphabet is unchanged |
| Renumbering.RenumberedName | NLP_LAB_2_06_08_25/automathon-main/tests/test_nfa.py:201 | Each renumbered state's name is the prefix followed by an index below the number of states |
| Renumbering.Rename | NLP_LAB_2_06_08_25/automathon-main/tests/test_nfa.py:198 | The relabelling `renumber` applies. It has no contract of its own; it is specified by `RenameValid`, `RenameAccept` and `RenumberStates` |
| Renumbering.RenameValid | NLP_LAB_2_06_08_25/automathon-main/tests/test_nfa.py:200 | Relabelling a valid automaton along an injective map gives a valid automaton |
| Renumbering.RenameAccept | NLP_LAB_2_06_08_25/automathon-main/tests/test_nfa.py:198 | Relabelling a valid automaton along an injective map keeps `accept` on every string |
| Scenarios.NamesQ4 | NLP_LAB_2_06_08_25/automathon-main/tests/test_nfa.py:201 | The four names with prefix q are q0, q1, q2 and q3 |
| Scenarios.RenumberedFourChanges | NLP_LAB_2_06_08_25/automathon-main/tests/test_nfa.py:200-204 | Take a valid automaton with four states, none of them named q0 to q3, with a final state and a transition. Renumbering it with prefix q makes it valid with states q0 to q3, and changes its final states, initial state and transitions |
| Scenarios.RenumberOutcome | NLP_LAB_2_06_08_25/automathon-main/tests/test_nfa.py:180-204 | For the test's automaton and any naming `renumber` may choose, the result is valid, its states are q0 to q3, and its final states, initial state and transitions differ from the old ones |
| Scenarios.RenumberScenario | NLP_LAB_2_06_08_25/automathon-main/tests/test_nfa.py:180-204 | Build the test's object, renumber it in place with prefix q, and the fields satisfy the five assertions of the test |

## Left out

- The implementation module of the `NFA` class is not part of this model. The operations follow the library's documented behaviour, and the test file fixes the scenarios.
- Determinization.RemoveEpsilonTransitions: for a state `s` and a symbol `x`, the new transitions lead to the closure of the moves on `x` from the whole closure of `s`. The documented behaviour takes only the closure of the direct destinations on `x` from `s`; see "## Findings".
- Algebra.ProductAccept: requires epsilon-free operands. The synchronous product does not follow an epsilon move in one operand alone; `Findings.ProductLosesString` shows that the law fails without the requirement. Every operand in the tests is epsilon-free. `Algebra.ClosedProductAccept` states the law for every pair of valid operands.
- Algebra.IntersectionAccept: requires epsilon-free operands, for the same reason. `Algebra.ClosedIntersectionAccept` states the law for every pair of valid operands.
- Algebra.Product: pairs over all states. The reachable-only version is `Intersection`, and `Algebra.TrimAccept` shows that the cut does not change `accept`.
- Pair states are Dafny pairs, and union states are tagged values (`Start`, `Left`, `Right`), not rendered strings. Only the rendering the tests compare, `('q5', 'q3')`, is modelled (`Scenarios.PairName`). The composite states of the subset construction are sets, not rendered strings.
- Renumbering.Automaton.Renumber: requires a valid automaton, because a transition or final state outside `q` would have no new name. Its naming is a ghost out-parameter. The order in which states receive names is unspecified, and every contract holds for every such order.
- Renumbering.Automaton.Renumber: rewrites `q`, `delta`, `initial_state` and `f` in place. It returns nothing, because the tests use only the mutated object.
- The DFA class, visualisation, printing and the unittest harness are left out. The subset construction's result is modelled as an `NFA` value with one destination per transition.
- Behaviour on states that are missing from `q` is not modelled beyond what `is_valid` excludes: for example, the closure of an unknown state, or combining invalid automata. The general laws require valid operands.

## Findings

| source | as written | input that shows it | evidently intended | confidence | as-written member | corrected member |
|---|---|---|---|---|---|---|
| NLP_LAB_2_06_08_25/automathon-main/tests/test_nfa.py:49-51 | The documented `remove_epsilon_transitions` sends `s` on `x` to the closure of the direct destinations of `s` on `x` | `NFA({0, 1, 2}, {a}, 0 -ε-> 1 -a-> 2, initial 0, final {2})` accepts "a", but the documented removal has no transition from 0 on a and rejects it | Send `s` on `x` to the closure of the moves on `x` from the closure of `s`, so that the language is kept | not executed; the implementation is not part of this model, so this concerns the documented behaviour | Findings.DocumentedRemovalLosesString | Determinization.RemoveEpsilonAccept |
| NLP_LAB_2_06_08_25/automathon-main/tests/test_nfa.py:88 | The documented `product` pairs transitions on shared symbols only, so an epsilon transition of one operand is never taken | `NFA({0, 1}, {a}, 0 -ε-> 1, initial 0, final {1})` and `NFA({0}, {a}, no transitions, initial 0, final {0})` both accept "", and their product rejects it | Accept exactly the strings both operands accept, for instance by removing epsilon transitions first | not executed; every operand in the tests is epsilon-free, where the two agree (`Algebra.ClosedProductAgrees`) | Findings.ProductLosesString | Algebra.ClosedProductAccept |
