/** What a sequence of parties holds between them: sums and multiset unions over the parties. */
module Holdings {

  function Union<P, T>(held: P -> multiset<T>, parties: seq<P>): multiset<T> {
    if parties == [] then multiset{}
    else Union(held, parties[..|parties| - 1]) + held(parties[|parties| - 1])
  }

  /** All that the parties other than number w hold. */
  function Others<P, T>(held: P -> multiset<T>, parties: seq<P>, w: nat): multiset<T>
    requires w < |parties|
  {
    Union(held, parties[..w]) + Union(held, parties[w + 1..])
  }

  lemma {:induction false} UnionConcat<P, T>(held: P -> multiset<T>, a: seq<P>, b: seq<P>)
    ensures Union(held, a + b) == Union(held, a) + Union(held, b)
  {
    if b == [] {
      assert a + b == a;
    } else {
      var n := |b| - 1;
      UnionConcat(held, a, b[..n]);
      assert (a + b)[..|a + b| - 1] == a + b[..n];
    }
  }

  lemma UnionOne<P, T>(held: P -> multiset<T>, p: P)
    ensures Union(held, [p]) == held(p)
  {
    assert [p][..0] == [];
  }

  lemma UnionSplit<P, T>(held: P -> multiset<T>, parties: seq<P>, w: nat)
    requires w < |parties|
    ensures Union(held, parties) == Others(held, parties, w) + held(parties[w])
  {
    hide Union;
    var before, one, after := parties[..w], [parties[w]], parties[w + 1..];
    assert parties == (before + one) + after;
    UnionConcat(held, before + one, after);
    UnionConcat(held, before, one);
    UnionOne(held, parties[w]);
  }

  lemma OthersUnchanged<P, T>(held: P -> multiset<T>, parties: seq<P>, w: nat, p: P)
    requires w < |parties|
    ensures Others(held, parties[w := p], w) == Others(held, parties, w)
  {
    assert parties[w := p][..w] == parties[..w] && parties[w := p][w + 1..] == parties[w + 1..];
  }

  lemma OtherIncluded<P, T>(held: P -> multiset<T>, parties: seq<P>, w: nat, v: nat)
    requires w < |parties| && v < |parties| && v != w
    ensures held(parties[v]) <= Others(held, parties, w)
  {
    if v < w {
      UnionSplit(held, parties[..w], v);
    } else {
      UnionSplit(held, parties[w + 1..], v - w - 1);
    }
  }

  function Sum<P>(f: P -> int, parties: seq<P>): int {
    if parties == [] then 0 else Sum(f, parties[..|parties| - 1]) + f(parties[|parties| - 1])
  }

  lemma {:induction false} SumConcat<P>(f: P -> int, a: seq<P>, b: seq<P>)
    ensures Sum(f, a + b) == Sum(f, a) + Sum(f, b)
  {
    if b == [] {
      assert a + b == a;
    } else {
      var n := |b| - 1;
      SumConcat(f, a, b[..n]);
      assert (a + b)[..|a + b| - 1] == a + b[..n];
    }
  }

  lemma SumOne<P>(f: P -> int, p: P)
    ensures Sum(f, [p]) == f(p)
  {
    assert [p][..0] == [];
  }

  lemma SumUpdate<P>(f: P -> int, parties: seq<P>, w: nat, p: P)
    requires w < |parties|
    ensures Sum(f, parties[w := p]) == Sum(f, parties) - f(parties[w]) + f(p)
  {
    hide Sum;
    var before, after := parties[..w], parties[w + 1..];
    assert parties == (before + [parties[w]]) + after;
    assert parties[w := p] == (before + [p]) + after;
    SumConcat(f, before + [parties[w]], after);
    SumConcat(f, before, [parties[w]]);
    SumConcat(f, before + [p], after);
    SumConcat(f, before, [p]);
    SumOne(f, parties[w]);
    SumOne(f, p);
  }

  /** A sum of terms between 0 and `most` lies between 0 and `most` times their number. */
  lemma {:induction false} SumBounds<P>(f: P -> int, parties: seq<P>, most: nat)
    requires forall w :: 0 <= w < |parties| ==> 0 <= f(parties[w]) <= most
    ensures 0 <= Sum(f, parties) <= most * |parties|
  {
    if parties != [] {
      var n := |parties| - 1;
      SumBounds(f, parties[..n], most);
      assert 0 <= f(parties[n]) <= most;
      assert most * |parties| == most * n + most;
    }
  }
}
