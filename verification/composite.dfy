/**
 * Composite interactive models: the `+ - * /` operators that combine two
 * interactive models into a binary tree tagged with an arithmetic operator, and
 * the initial guess of such a tree, which merges the guesses of its children
 * into one parameter set, the right child's entries replacing the left's.
 *
 * A parameter set is a map from parameter names to entries of an arbitrary type
 * `V` (the fitting library's value, bounds and fixed flag). The guess a single
 * component makes from the data belongs to the fitting library and enters as a
 * function from the component's name prefix and the data to a parameter set.
 */
module Composite {
  import opened Wrappers

  /** The binary operator a composite node applies to its children's values. */
  datatype Op = Add | Sub | Mul | Div

  /** A component identified by its name prefix, or two models combined by an operator. */
  datatype Model = Leaf(prefix: string) | Composite(left: Model, right: Model, op: Op)

  /**
   * The value of a node from its children's values `u` and `v`: Python's
   * operator.add, sub, mul and truediv. A zero divisor gives no real value.
   */
  function Combine(op: Op, u: real, v: real): Option<real>
  {
    match op
    case Add => Some(u + v)
    case Sub => Some(u - v)
    case Mul => Some(u * v)
    case Div => if v == 0.0 then None else Some(u / v)
  }

  /** The name prefixes of the components of a model, from left to right. */
  function Prefixes(m: Model): (ps: seq<string>)
    ensures |ps| >= 1
    ensures m.Leaf? ==> ps == [m.prefix]
  {
    match m
    case Leaf(prefix) => [prefix]
    case Composite(left, right, _) => Prefixes(left) + Prefixes(right)
  }

  // ---------------------------------------------------------------------------
  // Operators

  /** `a + b`: a node adding `a`'s values to `b`'s, operands in that order. */
  function Plus(a: Model, b: Model): (r: Model)
    ensures r.Composite? && r.left == a && r.right == b
    ensures forall u, v :: Combine(r.op, u, v) == Some(u + v)
    ensures Prefixes(r) == Prefixes(a) + Prefixes(b)
  {
    Composite(a, b, Add)
  }

  /** `a - b`: a node subtracting `b`'s values from `a`'s. */
  function Minus(a: Model, b: Model): (r: Model)
    ensures r.Composite? && r.left == a && r.right == b
    ensures forall u, v :: Combine(r.op, u, v) == Some(u - v)
    ensures Prefixes(r) == Prefixes(a) + Prefixes(b)
  {
    Composite(a, b, Sub)
  }

  /** `a * b`: a node multiplying `a`'s values by `b`'s. */
  function Times(a: Model, b: Model): (r: Model)
    ensures r.Composite? && r.left == a && r.right == b
    ensures forall u, v :: Combine(r.op, u, v) == Some(u * v)
    ensures Prefixes(r) == Prefixes(a) + Prefixes(b)
  {
    Composite(a, b, Mul)
  }

  /** `a / b` under Python 2 division: a node dividing `a`'s values by `b`'s. */
  function Divide(a: Model, b: Model): (r: Model)
    ensures r.Composite? && r.left == a && r.right == b
    ensures forall u, v :: v != 0.0 ==> Combine(r.op, u, v) == Some(u / v)
    ensures Prefixes(r) == Prefixes(a) + Prefixes(b)
  {
    Composite(a, b, Div)
  }

  /** `a / b` under Python 3 division: the very same node as `Divide`. */
  function TrueDivide(a: Model, b: Model): (r: Model)
    ensures r == Divide(a, b)
  {
    Composite(a, b, Div)
  }

  // ---------------------------------------------------------------------------
  // Guess

  /**
   * Parameters.update: every entry of `other` is put into `p`, replacing an
   * entry of the same name; the other entries of `p` stay.
   */
  function Update<V>(p: map<string, V>, other: map<string, V>): (r: map<string, V>)
    ensures r.Keys == p.Keys + other.Keys
    ensures forall n :: n in other ==> r[n] == other[n]
    ensures forall n :: n in p && n !in other ==> r[n] == p[n]
  {
    p + other
  }

  /** The parameter set `Guess` computes for a model, as a function. */
  function GuessOf<V>(m: Model, leafGuess: (string, seq<real>) -> map<string, V>, data: seq<real>): map<string, V>
  {
    match m
    case Leaf(prefix) => leafGuess(prefix, data)
    case Composite(left, right, _) =>
      Update(Update(map[], GuessOf(left, leafGuess, data)), GuessOf(right, leafGuess, data))
  }

  /**
   * guess: a component guesses by itself; a composite starts from an empty
   * parameter set and updates it with its left child's guess, then with its
   * right child's, both made from the same data.
   */
  method Guess<V>(m: Model, leafGuess: (string, seq<real>) -> map<string, V>, data: seq<real>)
    returns (p: map<string, V>)
    ensures p == GuessOf(m, leafGuess, data)
    ensures m.Composite? ==> p.Keys == GuessOf(m.left, leafGuess, data).Keys + GuessOf(m.right, leafGuess, data).Keys
  {
    match m
    case Leaf(prefix) =>
      p := leafGuess(prefix, data);
    case Composite(left, right, _) =>
      p := map[];
      var fromLeft := Guess(left, leafGuess, data);
      p := Update(p, fromLeft);
      var fromRight := Guess(right, leafGuess, data);
      p := Update(p, fromRight);
  }

  /**
   * The guess of a composite holds exactly the names its children's guesses
   * hold; a name the right child guesses takes the right child's entry, and a
   * name only the left child guesses keeps the left child's entry.
   */
  lemma GuessMergesChildren<V>(left: Model, right: Model, op: Op,
                               leafGuess: (string, seq<real>) -> map<string, V>, data: seq<real>)
    ensures GuessOf(Composite(left, right, op), leafGuess, data).Keys
            == GuessOf(left, leafGuess, data).Keys + GuessOf(right, leafGuess, data).Keys
    ensures forall n :: n in GuessOf(right, leafGuess, data) ==>
              GuessOf(Composite(left, right, op), leafGuess, data)[n] == GuessOf(right, leafGuess, data)[n]
    ensures forall n :: n in GuessOf(left, leafGuess, data) && n !in GuessOf(right, leafGuess, data) ==>
              GuessOf(Composite(left, right, op), leafGuess, data)[n] == GuessOf(left, leafGuess, data)[n]
  {
  }

  // ---------------------------------------------------------------------------
  // The guess as successive updates with every component's guess

  /** The guesses of the components of a model, from left to right. */
  function LeafGuesses<V>(m: Model, leafGuess: (string, seq<real>) -> map<string, V>, data: seq<real>)
    : (gs: seq<map<string, V>>)
    ensures |gs| == |Prefixes(m)|
    ensures forall i :: 0 <= i < |gs| ==> gs[i] == leafGuess(Prefixes(m)[i], data)
  {
    match m
    case Leaf(prefix) => [leafGuess(prefix, data)]
    case Composite(left, right, _) => LeafGuesses(left, leafGuess, data) + LeafGuesses(right, leafGuess, data)
  }

  /** An empty parameter set updated with each of `gs` in turn. */
  function UpdateAll<V>(gs: seq<map<string, V>>): map<string, V>
  {
    if gs == [] then map[] else Update(UpdateAll(gs[..|gs| - 1]), gs[|gs| - 1])
  }

  /** Updating with `s` and then with `t` is updating with `s`'s result and then with `t`'s. */
  lemma {:induction false} UpdateAllAppend<V>(s: seq<map<string, V>>, t: seq<map<string, V>>)
    ensures UpdateAll(s + t) == Update(UpdateAll(s), UpdateAll(t))
    decreases |t|
  {
    if t == [] {
      assert s + t == s;
    } else {
      var init := t[..|t| - 1];
      var last := t[|t| - 1];
      assert (s + t)[..|s + t| - 1] == s + init;
      assert (s + t)[|s + t| - 1] == last;
      UpdateAllAppend(s, init);
      calc {
        UpdateAll(s + t);
        Update(UpdateAll(s + init), last);
        Update(Update(UpdateAll(s), UpdateAll(init)), last);
        { UpdateAssociative(UpdateAll(s), UpdateAll(init), last); }
        Update(UpdateAll(s), Update(UpdateAll(init), last));
        Update(UpdateAll(s), UpdateAll(t));
      }
    }
  }

  /** Two updates in a row are one update with the merge of the two. */
  lemma UpdateAssociative<V>(a: map<string, V>, b: map<string, V>, c: map<string, V>)
    ensures Update(Update(a, b), c) == Update(a, Update(b, c))
  {
    var l := Update(Update(a, b), c);
    var r := Update(a, Update(b, c));
    assert l.Keys == r.Keys;
    forall n | n in l ensures l[n] == r[n] {
    }
  }

  /**
   * The guess of any model is an empty parameter set updated with every
   * component's guess, from left to right.
   */
  lemma {:induction false} GuessIsUpdateAll<V>(m: Model, leafGuess: (string, seq<real>) -> map<string, V>, data: seq<real>)
    ensures GuessOf(m, leafGuess, data) == UpdateAll(LeafGuesses(m, leafGuess, data))
  {
    match m
    case Leaf(prefix) =>
      var g := leafGuess(prefix, data);
      assert [g][..0] == [];
      assert Update(map[], g) == g;
    case Composite(left, right, _) =>
      var gl := GuessOf(left, leafGuess, data);
      GuessIsUpdateAll(left, leafGuess, data);
      GuessIsUpdateAll(right, leafGuess, data);
      assert Update(map[], gl) == gl;
      UpdateAllAppend(LeafGuesses(left, leafGuess, data), LeafGuesses(right, leafGuess, data));
  }

  /**
   * A name is in the result of successive updates exactly when some update
   * holds it, and its entry comes from the last update that holds it.
   */
  lemma {:induction false} UpdateAllLastWins<V>(gs: seq<map<string, V>>, n: string)
    ensures n in UpdateAll(gs) <==> exists i :: 0 <= i < |gs| && n in gs[i]
    ensures n in UpdateAll(gs) ==>
              exists i :: 0 <= i < |gs| && n in gs[i] && UpdateAll(gs)[n] == gs[i][n]
                          && forall j :: i < j < |gs| ==> n !in gs[j]
    decreases |gs|
  {
    if gs != [] {
      var init := gs[..|gs| - 1];
      var last := gs[|gs| - 1];
      UpdateAllLastWins(init, n);
      if n in last {
        assert n in gs[|gs| - 1];
      } else if n in UpdateAll(init) {
        var i :| 0 <= i < |init| && n in init[i] && UpdateAll(init)[n] == init[i][n]
                 && forall j :: i < j < |init| ==> n !in init[j];
        assert gs[i] == init[i];
        assert forall j :: i < j < |gs| ==> n !in gs[j] by {
          forall j | i < j < |gs| ensures n !in gs[j] {
            if j < |init| { assert gs[j] == init[j]; }
          }
        }
      } else {
        forall i | 0 <= i < |gs| ensures n !in gs[i] {
          if i < |init| { assert gs[i] == init[i]; }
        }
      }
    }
  }

  /** Pairwise, the parameter sets share no name. */
  ghost predicate PairwiseDisjoint<V>(gs: seq<map<string, V>>)
  {
    forall i, j :: 0 <= i < j < |gs| ==> gs[i].Keys !! gs[j].Keys
  }

  /** Every entry of `small` is an entry of `big`. */
  ghost predicate IsContainedIn<V>(small: map<string, V>, big: map<string, V>)
  {
    forall n :: n in small ==> n in big && big[n] == small[n]
  }

  /** The number of entries of the parameter sets together. */
  function TotalSize<V>(gs: seq<map<string, V>>): nat
  {
    if gs == [] then 0 else TotalSize(gs[..|gs| - 1]) + |gs[|gs| - 1]|
  }

  /** Dropping the last parameter set keeps the others pairwise disjoint. */
  lemma DisjointInit<V>(gs: seq<map<string, V>>)
    requires gs != [] && PairwiseDisjoint(gs)
    ensures PairwiseDisjoint(gs[..|gs| - 1])
  {
    var init := gs[..|gs| - 1];
    forall i, j | 0 <= i < j < |init| ensures init[i].Keys !! init[j].Keys {
      assert init[i] == gs[i] && init[j] == gs[j];
    }
  }

  /** With pairwise disjoint updates, the last one shares no name with the result of the others. */
  lemma DisjointFromLast<V>(gs: seq<map<string, V>>)
    requires gs != [] && PairwiseDisjoint(gs)
    ensures UpdateAll(gs[..|gs| - 1]).Keys !! gs[|gs| - 1].Keys
  {
    var init := gs[..|gs| - 1];
    forall n | n in UpdateAll(init) ensures n !in gs[|gs| - 1] {
      UpdateAllLastWins(init, n);
      var i :| 0 <= i < |init| && n in init[i];
      assert gs[i] == init[i];
    }
  }

  /** When no two updates share a name, no entry is replaced: every entry of every update is in the result. */
  lemma {:induction false} UpdateAllKeepsEntries<V>(gs: seq<map<string, V>>)
    requires PairwiseDisjoint(gs)
    ensures forall i :: 0 <= i < |gs| ==> IsContainedIn(gs[i], UpdateAll(gs))
    decreases |gs|
  {
    if gs != [] {
      var init := gs[..|gs| - 1];
      var last := gs[|gs| - 1];
      var before := UpdateAll(init);
      assert UpdateAll(gs) == Update(before, last);
      DisjointInit(gs);
      UpdateAllKeepsEntries(init);
      DisjointFromLast(gs);
      forall i | 0 <= i < |gs| ensures IsContainedIn(gs[i], UpdateAll(gs)) {
        if i < |init| {
          assert gs[i] == init[i];
          forall n | n in gs[i] ensures n in UpdateAll(gs) && UpdateAll(gs)[n] == gs[i][n] {
            assert n in before && before[n] == gs[i][n];
            assert n !in last;
          }
        }
      }
    }
  }

  /** When no two updates share a name, the result has as many entries as the updates together. */
  lemma {:induction false} UpdateAllSize<V>(gs: seq<map<string, V>>)
    requires PairwiseDisjoint(gs)
    ensures |UpdateAll(gs)| == TotalSize(gs)
    decreases |gs|
  {
    if gs != [] {
      var init := gs[..|gs| - 1];
      var last := gs[|gs| - 1];
      var before := UpdateAll(init);
      assert UpdateAll(gs) == Update(before, last);
      DisjointInit(gs);
      UpdateAllSize(init);
      DisjointFromLast(gs);
      assert |UpdateAll(gs)| == |before.Keys + last.Keys|;
    }
  }

  /** The guess of a model takes every name from the rightmost component that guesses it. */
  lemma GuessFromRightmostComponent<V>(m: Model, leafGuess: (string, seq<real>) -> map<string, V>,
                                       data: seq<real>, n: string)
    ensures n in GuessOf(m, leafGuess, data) <==>
              exists i :: 0 <= i < |Prefixes(m)| && n in leafGuess(Prefixes(m)[i], data)
    ensures n in GuessOf(m, leafGuess, data) ==>
              exists i :: 0 <= i < |Prefixes(m)| && n in leafGuess(Prefixes(m)[i], data)
                          && GuessOf(m, leafGuess, data)[n] == leafGuess(Prefixes(m)[i], data)[n]
                          && forall j :: i < j < |Prefixes(m)| ==> n !in leafGuess(Prefixes(m)[j], data)
  {
    var gs := LeafGuesses(m, leafGuess, data);
    var ps := Prefixes(m);
    GuessIsUpdateAll(m, leafGuess, data);
    UpdateAllLastWins(gs, n);
    if n in GuessOf(m, leafGuess, data) {
      var i :| 0 <= i < |gs| && n in gs[i] && UpdateAll(gs)[n] == gs[i][n] && forall j :: i < j < |gs| ==> n !in gs[j];
      assert gs[i] == leafGuess(ps[i], data);
      assert 0 <= i < |Prefixes(m)| && n in leafGuess(Prefixes(m)[i], data);
      assert GuessOf(m, leafGuess, data)[n] == leafGuess(Prefixes(m)[i], data)[n];
      assert forall j :: i < j < |ps| ==> n !in leafGuess(ps[j], data) by {
        forall j | i < j < |ps| ensures n !in leafGuess(ps[j], data) {
          assert gs[j] == leafGuess(ps[j], data);
        }
      }
    } else {
      forall i | 0 <= i < |ps| ensures n !in leafGuess(ps[i], data) {
        assert gs[i] == leafGuess(ps[i], data);
      }
    }
  }

  /** Every name a component guesses begins with that component's prefix. */
  ghost predicate NamesArePrefixed<V>(leafGuess: (string, seq<real>) -> map<string, V>)
  {
    forall prefix, data, n :: n in leafGuess(prefix, data) ==> prefix <= n
  }

  /** No prefix of a model's components begins another one (distinct, as `g0_` and `g1_`). */
  ghost predicate DistinctPrefixes(m: Model)
  {
    forall i, j :: 0 <= i < |Prefixes(m)| && 0 <= j < |Prefixes(m)| && i != j ==> !(Prefixes(m)[i] <= Prefixes(m)[j])
  }

  /** Two prefixes of one name: the shorter is a prefix of the longer. */
  lemma PrefixesOfOneName(a: string, b: string, n: string)
    requires a <= n && b <= n && |a| <= |b|
    ensures a <= b
  {
    assert a == n[..|a|] && b == n[..|b|];
    assert b[..|a|] == n[..|a|];
  }

  /** Components with distinct prefixes, whose names respect them, guess pairwise disjoint names. */
  lemma DistinctPrefixesDisjoint<V>(m: Model, leafGuess: (string, seq<real>) -> map<string, V>, data: seq<real>)
    requires NamesArePrefixed(leafGuess) && DistinctPrefixes(m)
    ensures PairwiseDisjoint(LeafGuesses(m, leafGuess, data))
  {
    var gs := LeafGuesses(m, leafGuess, data);
    var ps := Prefixes(m);
    forall i, j, n | 0 <= i < j < |gs| && n in gs[i] ensures n !in gs[j] {
      if n in gs[j] {
        assert ps[i] <= n && ps[j] <= n;
        if |ps[i]| <= |ps[j]| {
          PrefixesOfOneName(ps[i], ps[j], n);
        } else {
          PrefixesOfOneName(ps[j], ps[i], n);
        }
        assert false;
      }
    }
  }

  /**
   * When the components guess pairwise disjoint names, the guess of the model
   * holds every entry of every component's guess unchanged, and as many entries
   * as all of them together.
   */
  lemma GuessOfDisjointComponents<V>(m: Model, leafGuess: (string, seq<real>) -> map<string, V>, data: seq<real>)
    requires PairwiseDisjoint(LeafGuesses(m, leafGuess, data))
    ensures forall i :: 0 <= i < |Prefixes(m)| ==> IsContainedIn(leafGuess(Prefixes(m)[i], data), GuessOf(m, leafGuess, data))
    ensures |GuessOf(m, leafGuess, data)| == TotalSize(LeafGuesses(m, leafGuess, data))
  {
    var gs := LeafGuesses(m, leafGuess, data);
    var ps := Prefixes(m);
    GuessIsUpdateAll(m, leafGuess, data);
    UpdateAllKeepsEntries(gs);
    UpdateAllSize(gs);
    forall i | 0 <= i < |ps| ensures IsContainedIn(leafGuess(ps[i], data), GuessOf(m, leafGuess, data)) {
      assert gs[i] == leafGuess(ps[i], data);
    }
  }

  /**
   * With distinct prefixes, whose names the components respect, no guess
   * replaces another: the guess of the model holds every entry of every
   * component's guess unchanged, and as many entries as all of them together.
   */
  lemma GuessKeepsEveryComponent<V>(m: Model, leafGuess: (string, seq<real>) -> map<string, V>, data: seq<real>)
    requires NamesArePrefixed(leafGuess) && DistinctPrefixes(m)
    ensures forall i :: 0 <= i < |Prefixes(m)| ==> IsContainedIn(leafGuess(Prefixes(m)[i], data), GuessOf(m, leafGuess, data))
    ensures |GuessOf(m, leafGuess, data)| == TotalSize(LeafGuesses(m, leafGuess, data))
  {
    DistinctPrefixesDisjoint(m, leafGuess, data);
    GuessOfDisjointComponents(m, leafGuess, data);
  }
}
