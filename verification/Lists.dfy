/** Lists as multisets: what mapping and rearranging a list does to how often its elements occur. */
module Lists {

  function Mapped<A, B>(f: A -> B, s: seq<A>): seq<B> {
    seq(|s|, i requires 0 <= i < |s| => f(s[i]))
  }

  function Without<A>(s: seq<A>, j: nat): seq<A>
    requires j < |s|
  {
    s[..j] + s[j + 1..]
  }

  lemma RemoveOne<A>(s: seq<A>, j: nat)
    requires j < |s|
    ensures multiset(Without(s, j)) == multiset(s) - multiset{s[j]}
    ensures multiset(s) == multiset(Without(s, j)) + multiset{s[j]}
  {
    var head, tail := s[..j], s[j + 1..];
    assert s == head + ([s[j]] + tail);
    assert multiset(s) == multiset(head) + (multiset{s[j]} + multiset(tail));
  }

  lemma Find<A>(s: seq<A>, t: seq<A>) returns (j: nat)
    requires multiset(s) == multiset(t) && s != []
    ensures j < |t| && t[j] == s[0]
  {
    assert s[0] in multiset(s);
    assert s[0] in multiset(t);
    j :| 0 <= j < |t| && t[j] == s[0];
  }

  /** Mapping a list only depends on its elements and how often they occur. */
  lemma {:induction false} MappedMultiset<A, B>(f: A -> B, s: seq<A>, t: seq<A>)
    requires multiset(s) == multiset(t)
    ensures multiset(Mapped(f, s)) == multiset(Mapped(f, t))
    decreases |s|
  {
    if s == [] {
      assert |multiset(t)| == 0;
    } else {
      var j := Find(s, t);
      RemoveOne(t, j);
      RemoveOne(s, 0);
      MappedMultiset(f, Without(s, 0), Without(t, j));
      MappedWithout(f, s, 0);
      MappedWithout(f, t, j);
    }
  }

  lemma MappedWithout<A, B>(f: A -> B, s: seq<A>, j: nat)
    requires j < |s|
    ensures multiset(Mapped(f, s)) == multiset(Mapped(f, Without(s, j))) + multiset{f(s[j])}
  {
    RemoveOne(Mapped(f, s), j);
    assert Without(Mapped(f, s), j) == Mapped(f, Without(s, j));
  }

  ghost predicate Composes<A(!new), B, C>(f: B -> C, g: A -> B, h: A -> C, s: seq<A>) {
    forall x :: x in s ==> f(g(x)) == h(x)
  }

  lemma ComposesIf<A(!new), B, C>(f: B -> C, g: A -> B, h: A -> C, s: seq<A>)
    requires forall x :: x in s ==> f(g(x)) == h(x)
    ensures Composes(f, g, h, s)
  {
  }

  /** Mapping a rearranged image is mapping the original with both functions. */
  lemma MappedTwice<A(!new), B, C>(f: B -> C, g: A -> B, h: A -> C, s: seq<A>, t: seq<B>)
    requires multiset(t) == multiset(Mapped(g, s)) && Composes(f, g, h, s)
    ensures multiset(Mapped(f, t)) == multiset(Mapped(h, s))
  {
    MappedMultiset(f, t, Mapped(g, s));
    assert Mapped(f, Mapped(g, s)) == Mapped(h, s);
  }

  lemma MappedLast<A, B>(f: A -> B, s: seq<A>)
    requires s != []
    ensures Mapped(f, s) == Mapped(f, s[..|s| - 1]) + [f(s[|s| - 1])]
  {
  }
}
