/** `renumber(prefix)`: every state gets a fresh name, the prefix followed by a decimal
    index, and the initial state, the final states and both ends of every transition
    are rewritten to the new names. The relabelling is a bijection, so validity and
    the accepted language are kept. */
module Renumbering {
  import opened Automata
  import opened Embeddings

  // ---------------------------------------------------------------------------
  // Names

  function DigitChar(d: nat): (c: char)
    requires d < 10
    ensures '0' <= c <= '9'
  {
    (48 + d) as char
  }

  /** The decimal spelling of a natural number, without leading zeros. */
  function NatStr(n: nat): (s: string)
    ensures |s| >= 1
    ensures forall i :: 0 <= i < |s| ==> '0' <= s[i] <= '9'
  {
    if n < 10 then [DigitChar(n)] else NatStr(n / 10) + [DigitChar(n % 10)]
  }

  /** Distinct numbers are spelt differently. */
  lemma {:induction false} NatStrInjective(i: nat, j: nat)
    requires NatStr(i) == NatStr(j)
    ensures i == j
    decreases i
  {
    var s := NatStr(i);
    if i >= 10 && j >= 10 {
      assert NatStr(i / 10) == s[..|s| - 1] == NatStr(j / 10);
      NatStrInjective(i / 10, j / 10);
      assert DigitChar(i % 10) == s[|s| - 1] == DigitChar(j % 10);
    }
  }

  /** The new name of the state with index `k`. */
  function Name(prefix: string, k: nat): (r: string)
    ensures |r| > |prefix| && r[..|prefix|] == prefix
  {
    prefix + NatStr(k)
  }

  lemma NameInjective(prefix: string, i: nat, j: nat)
    requires Name(prefix, i) == Name(prefix, j)
    ensures i == j
  {
    assert NatStr(i) == Name(prefix, i)[|prefix|..] == Name(prefix, j)[|prefix|..] == NatStr(j);
    NatStrInjective(i, j);
  }

  /** The names `prefix0` to `prefix(n-1)`. */
  function NameSet(prefix: string, n: nat): set<string> {
    set k | 0 <= k < n :: Name(prefix, k)
  }

  lemma NameSetStep(prefix: string, n: nat)
    ensures NameSet(prefix, n + 1) == NameSet(prefix, n) + {Name(prefix, n)}
    ensures Name(prefix, n) !in NameSet(prefix, n)
  {
    if Name(prefix, n) in NameSet(prefix, n) {
      var k :| 0 <= k < n && Name(prefix, k) == Name(prefix, n);
      NameInjective(prefix, k, n);
    }
  }

  /** There are exactly `n` names below `n`. */
  lemma {:induction false} NameSetCard(prefix: string, n: nat)
    ensures |NameSet(prefix, n)| == n
  {
    if n > 0 {
      NameSetStep(prefix, n - 1);
      NameSetCard(prefix, n - 1);
    }
  }

  // ---------------------------------------------------------------------------
  // Relabelling an automaton along a map

  predicate Injective<S, T(==)>(m: map<S, T>) {
    forall s, t :: s in m && t in m && m[s] == m[t] ==> s == t
  }

  /** `m` relabels the states of the valid automaton `a` without merging two of them. */
  predicate Renamable<S, T(==)>(a: NFA<S>, m: map<S, T>) {
    IsValid(a) && a.q <= m.Keys && Injective(m)
  }

  function RenameRow<S, T>(m: map<S, T>, row: map<Symbol, set<S>>): map<Symbol, set<T>>
    requires forall x :: x in row ==> row[x] <= m.Keys
  {
    map x | x in row :: Image(m, row[x])
  }

  /** The automaton `a` with every state `s` written `m[s]`. */
  function Rename<S, T>(a: NFA<S>, m: map<S, T>): NFA<T>
    requires Renamable(a, m)
  {
    NFA(Image(m, a.q),
        a.sigma,
        map s | s in a.delta :: m[s] := RenameRow(m, a.delta[s]),
        m[a.initialState],
        Image(m, a.f))
  }

  /** A relabelled state has the relabelled destinations. */
  lemma RenameSucc<S, T>(a: NFA<S>, m: map<S, T>, s: S, x: Symbol)
    requires Renamable(a, m) && s in a.q
    ensures Succ(a, s, x) <= a.q
    ensures Succ(Rename(a, m), m[s], x) == Image(m, Succ(a, s, x))
  {
    SuccInStates(a, s, x);
    var r := Rename(a, m);
    if s in a.delta {
      assert r.delta[m[s]] == RenameRow(m, a.delta[s]);
    } else {
      assert m[s] !in r.delta;
    }
  }

  lemma RenameEmbeds<S, T>(a: NFA<S>, m: map<S, T>)
    requires Renamable(a, m)
    ensures Embeds(a, Rename(a, m), m, a.q)
  {
    forall s, x | s in a.q
      ensures Succ(a, s, x) <= a.q && Image(m, Succ(a, s, x)) == Succ(Rename(a, m), m[s], x)
    {
      RenameSucc(a, m, s, x);
    }
    forall s | s in a.q ensures m[s] in Rename(a, m).f <==> s in a.f {
      if m[s] in Rename(a, m).f {
        var t :| t in a.f && m[t] == m[s];
      }
    }
  }

  /** Relabelling keeps validity. */
  lemma RenameValid<S, T>(a: NFA<S>, m: map<S, T>)
    requires Renamable(a, m)
    ensures IsValid(Rename(a, m))
  {
    var r := Rename(a, m);
    forall u | u in r.delta ensures u in r.q && RowValid(r, r.delta[u]) {
      var s :| s in a.delta && m[s] == u;
      assert RowValid(a, a.delta[s]);
      forall x | x in r.delta[u] ensures (x in r.sigma || x == Epsilon) && r.delta[u][x] <= r.q {
        assert r.delta[u][x] == Image(m, a.delta[s][x]);
      }
    }
  }

  /** Relabelling keeps the answer of `accept` on every string. */
  lemma RenameAccept<S, T>(a: NFA<S>, m: map<S, T>, w: string)
    requires Renamable(a, m)
    ensures Accept(Rename(a, m), w) == Accept(a, w)
  {
    RenameEmbeds(a, m);
    EmbedAccept(a, Rename(a, m), m, a.q, w);
  }

  /** An injective map sends a set to a set of the same size. */
  lemma {:induction false} ImageCard<S, T>(m: map<S, T>, X: set<S>)
    requires X <= m.Keys && Injective(m)
    ensures |Image(m, X)| == |X|
    decreases |X|
  {
    if X != {} {
      var s :| s in X;
      var Y := X - {s};
      ImageCard(m, Y);
      assert Image(m, X) == Image(m, Y) + {m[s]};
      assert m[s] !in Image(m, Y);
    }
  }

  /** Giving one more state the next name keeps the names distinct. */
  lemma NameNext(m: map<string, string>, prefix: string, k: nat, s: string)
    requires Injective(m) && m.Values == NameSet(prefix, k) && s !in m
    ensures Injective(m[s := Name(prefix, k)])
    ensures m[s := Name(prefix, k)].Values == NameSet(prefix, k + 1)
  {
    NameSetStep(prefix, k);
    var m' := m[s := Name(prefix, k)];
    forall t | t in m ensures m'[t] == m[t] && m[t] != Name(prefix, k) {
      assert m[t] in m.Values;
    }
    forall v | v in m'.Values ensures v in m.Values + {Name(prefix, k)} {
      var t :| t in m' && m'[t] == v;
      if t != s {
        assert m[t] in m.Values;
      }
    }
    forall v | v in m.Values + {Name(prefix, k)} ensures v in m'.Values {
      if v == Name(prefix, k) {
        assert m'[s] == v;
      } else {
        var t :| t in m && m[t] == v;
        assert m'[t] == v;
      }
    }
  }

  /** `m` names the states `states` `prefix0` to `prefix(n-1)`, one name each. */
  predicate IsRenumbering(m: map<string, string>, states: set<string>, prefix: string) {
    m.Keys == states && Injective(m) && m.Values == NameSet(prefix, |states|)
  }

  /** After renumbering the states are exactly `prefix0` to `prefix(n-1)`, as many as
      before, and the alphabet is unchanged. */
  lemma RenumberStates(a: NFA<string>, m: map<string, string>, prefix: string)
    requires IsValid(a) && IsRenumbering(m, a.q, prefix)
    ensures Renamable(a, m)
    ensures Rename(a, m).q == NameSet(prefix, |a.q|)
    ensures |Rename(a, m).q| == |a.q|
    ensures Rename(a, m).sigma == a.sigma
  {
    assert Image(m, a.q) == m.Values;
    NameSetCard(prefix, |a.q|);
  }

  /** A renumbered state carries a new name: the prefix and a decimal index below the
      number of states. */
  lemma RenumberedName(a: NFA<string>, m: map<string, string>, prefix: string, s: string)
    requires IsValid(a) && IsRenumbering(m, a.q, prefix) && s in a.q
    ensures exists k :: 0 <= k < |a.q| && m[s] == Name(prefix, k)
  {
    assert m[s] in m.Values;
  }

  /** Enumerates `states` once, in an unspecified order, giving the `k`-th state
      visited the name `prefix` followed by `k`. */
  method ChooseNames(states: set<string>, prefix: string) returns (m: map<string, string>)
    ensures IsRenumbering(m, states, prefix)
  {
    m := map[];
    var remaining := states;
    var k: nat := 0;
    while remaining != {}
      invariant remaining <= states
      invariant m.Keys == states - remaining
      invariant k + |remaining| == |states|
      invariant Injective(m)
      invariant m.Values == NameSet(prefix, k)
      decreases |remaining|
    {
      var s :| s in remaining;
      NameNext(m, prefix, k, s);
      m := m[s := Name(prefix, k)];
      remaining := remaining - {s};
      k := k + 1;
    }
  }

  // ---------------------------------------------------------------------------
  // The mutable automaton

  /** An automaton object whose fields `renumber` rewrites in place. */
  class Automaton {
    var q: set<string>
    var sigma: set<Symbol>
    var delta: map<string, map<Symbol, set<string>>>
    var initialState: string
    var f: set<string>

    function Value(): NFA<string>
      reads this
    {
      NFA(q, sigma, delta, initialState, f)
    }

    constructor (q: set<string>, sigma: set<Symbol>, delta: map<string, map<Symbol, set<string>>>,
                 initialState: string, f: set<string>)
      ensures Value() == NFA(q, sigma, delta, initialState, f)
    {
      this.q := q;
      this.sigma := sigma;
      this.delta := delta;
      this.initialState := initialState;
      this.f := f;
    }

    /** Gives the states of a valid automaton the names `prefix0`, `prefix1`, … in an
        unspecified order and rewrites every field to the new names. `names` is the
        relabelling that was applied. */
    method Renumber(prefix: string) returns (ghost names: map<string, string>)
      requires IsValid(Value())
      modifies this
      ensures IsRenumbering(names, old(q), prefix)
      ensures Renamable(old(Value()), names) && Value() == Rename(old(Value()), names)
    {
      var m := ChooseNames(q, prefix);
      var renamed := Rename(Value(), m);
      q, delta, initialState, f := renamed.q, renamed.delta, renamed.initialState, renamed.f;
      names := m;
    }
  }
}
