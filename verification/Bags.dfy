/** The multiset of the images of a sequence, for conservation laws. */
module Bags {

  function Bag<A, B(==)>(f: A -> B, s: seq<A>): multiset<B> {
    if s == [] then multiset{}
    else Bag(f, s[..|s| - 1]) + multiset{f(s[|s| - 1])}
  }

  lemma {:induction false} BagSize<A, B>(f: A -> B, s: seq<A>)
    ensures |Bag(f, s)| == |s|
  {
    if s != [] {
      BagSize(f, s[..|s| - 1]);
    }
  }

  lemma BagAppend<A, B>(f: A -> B, s: seq<A>, x: A)
    ensures Bag(f, s + [x]) == Bag(f, s) + multiset{f(x)}
  {}

  lemma {:induction false} BagConcat<A, B>(f: A -> B, s: seq<A>, t: seq<A>)
    ensures Bag(f, s + t) == Bag(f, s) + Bag(f, t)
  {
    if t == [] {
      assert s + t == s;
    } else {
      hide Bag;
      var t', x := t[..|t| - 1], t[|t| - 1];
      assert t == t' + [x];
      BagConcat(f, s, t');
      BagConcatStep(f, s, t', x);
    }
  }

  lemma BagConcatStep<A, B>(f: A -> B, s: seq<A>, t: seq<A>, x: A)
    requires Bag(f, s + t) == Bag(f, s) + Bag(f, t)
    ensures Bag(f, s + (t + [x])) == Bag(f, s) + Bag(f, t + [x])
  {
    hide Bag;
    BagAppend(f, s + t, x);
    BagAppend(f, t, x);
    assert s + (t + [x]) == s + t + [x];
  }

  lemma {:induction false} BagMember<A, B>(f: A -> B, s: seq<A>, b: B)
    requires b in Bag(f, s)
    ensures exists a :: a in s && f(a) == b
  {
    var n := |s| - 1;
    if f(s[n]) == b {
      assert s[n] in s;
    } else {
      BagMember(f, s[..n], b);
      var a :| a in s[..n] && f(a) == b;
      assert a in s;
    }
  }

  lemma {:induction false} BagHas<A, B>(f: A -> B, s: seq<A>, a: A)
    requires a in s
    ensures f(a) in Bag(f, s)
  {
    var n := |s| - 1;
    if s[n] != a {
      assert a in s[..n];
      BagHas(f, s[..n], a);
    }
  }
}
