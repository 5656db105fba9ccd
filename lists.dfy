/** The back-reference lists kept on User and Product records: appending an id
    (Array.prototype.push) and removing every occurrence of one
    (`list.filter(rev => rev.toString() != id)`). */
module Lists {

  /** The list without any occurrence of `x`, the other entries kept in order. */
  function Without<T(==)>(s: seq<T>, x: T): (r: seq<T>)
    ensures x !in r
    ensures forall y | y in r :: y in s
    ensures |r| <= |s|
  {
    if s == [] then [] else (if s[0] == x then [] else [s[0]]) + Without(s[1..], x)
  }

  /** Removal distributes over concatenation, so the order of what stays is kept. */
  lemma {:induction false} WithoutConcat<T>(a: seq<T>, b: seq<T>, x: T)
    ensures Without(a + b, x) == Without(a, x) + Without(b, x)
    decreases |a|
  {
    if a != [] {
      assert (a + b)[1..] == a[1..] + b;
      WithoutConcat(a[1..], b, x);
    } else {
      assert a + b == b;
    }
  }

  /** Removing an id that is not there leaves the list as it was. */
  lemma {:induction false} WithoutAbsent<T>(s: seq<T>, x: T)
    requires x !in s
    ensures Without(s, x) == s
    decreases |s|
  {
    if s != [] {
      WithoutAbsent(s[1..], x);
      assert [s[0]] + s[1..] == s;
    }
  }

  /** Every other entry occurs exactly as often as before. */
  lemma {:induction false} WithoutKeepsOthers<T>(s: seq<T>, x: T, y: T)
    requires y != x
    ensures multiset(Without(s, x))[y] == multiset(s)[y]
    decreases |s|
  {
    if s != [] {
      WithoutKeepsOthers(s[1..], x, y);
      assert s == [s[0]] + s[1..];
      assert multiset(s) == multiset([s[0]]) + multiset(s[1..]);
    }
  }

  /** A single occurrence is cut out and its neighbours close up in order. */
  lemma {:induction false} RemoveSingle<T>(a: seq<T>, b: seq<T>, x: T)
    requires x !in a && x !in b
    ensures Without(a + [x] + b, x) == a + b
  {
    calc {
      Without(a + [x] + b, x);
      { WithoutConcat(a + [x], b, x); }
      Without(a + [x], x) + Without(b, x);
      { WithoutConcat(a, [x], x); }
      Without(a, x) + Without([x], x) + Without(b, x);
      { WithoutAbsent(a, x); WithoutAbsent(b, x); assert [x][1..] == []; }
      a + [] + b;
    }
    assert a + [] + b == a + b;
  }

  /** Creating and then deleting a review restores a list that did not hold its id. */
  lemma {:induction false} AppendThenRemove<T>(s: seq<T>, x: T)
    requires x !in s
    ensures Without(s + [x], x) == s
  {
    RemoveSingle(s, [], x);
    assert s + [x] + [] == s + [x];
    assert s + [] == s;
  }
}
