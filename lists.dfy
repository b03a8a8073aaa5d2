/** The Python list operations the neuron graph and the registry rely on. */
module Lists {
  /** Index of the first occurrence of `x` in `s`. */
  function FirstIndex<T(==)>(s: seq<T>, x: T): (i: nat)
    requires x in s
    ensures i < |s| && s[i] == x && x !in s[..i]
  {
    if s[0] == x then 0
    else
      var j := FirstIndex(s[1..], x);
      assert s[..j + 1] == [s[0]] + s[1..][..j];
      j + 1
  }

  /**
   * `s.remove(x)` without the exception: the list without its first
   * occurrence of `x`, or `s` itself when `x` does not occur.
   */
  function RemoveFirst<T(==)>(s: seq<T>, x: T): (r: seq<T>)
    ensures x in s ==> |r| == |s| - 1 && multiset(r) == multiset(s) - multiset{x}
    ensures x in s ==> r == s[..FirstIndex(s, x)] + s[FirstIndex(s, x) + 1..]
    ensures x !in s ==> r == s
    ensures forall y :: y in r ==> y in s
  {
    if x in s then
      var i := FirstIndex(s, x);
      assert s == s[..i] + [x] + s[i + 1..];
      s[..i] + s[i + 1..]
    else s
  }

  /** Removing the head of a list removes exactly that element. */
  lemma RemoveFirstOfHead<T>(s: seq<T>)
    requires |s| > 0
    ensures RemoveFirst(s, s[0]) == s[1..]
  {
  }

  /** When the head occurs once, the tail holds every other element and not the head. */
  lemma HeadOnce<T>(s: seq<T>)
    requires |s| > 0 && multiset(s)[s[0]] == 1
    ensures s[0] !in s[1..]
    ensures forall y :: y != s[0] ==> (y in s[1..] <==> y in s)
  {
    assert s == [s[0]] + s[1..];
    assert multiset(s) == multiset{s[0]} + multiset(s[1..]);
  }

  /** The list comprehension `[y for y in s if y != x]`. */
  function RemoveAll<T(==)>(s: seq<T>, x: T): (r: seq<T>)
    ensures multiset(r) == multiset(s)[x := 0]
    ensures forall y :: y in r ==> y in s && y != x
  {
    if s == [] then []
    else
      assert s == [s[0]] + s[1..];
      var rest := RemoveAll(s[1..], x);
      ClearAfterAdd(multiset(s[1..]), s[0], x);
      if s[0] == x then rest else [s[0]] + rest
  }

  /** Dropping one more element of a suffix gives the next suffix. */
  lemma SuffixTail<T>(s: seq<T>, i: nat)
    requires i < |s|
    ensures s[i..][1..] == s[i + 1..]
  {
  }

  /** Filtering out an element that does not occur changes nothing. */
  lemma {:induction false} RemoveAllAbsent<T>(s: seq<T>, x: T)
    requires x !in s
    ensures RemoveAll(s, x) == s
  {
    if s != [] {
      RemoveAllAbsent(s[1..], x);
    }
  }

  /** Filtering a concatenation filters each part. */
  lemma {:induction false} RemoveAllConcat<T>(s: seq<T>, t: seq<T>, x: T)
    ensures RemoveAll(s + t, x) == RemoveAll(s, x) + RemoveAll(t, x)
  {
    if s != [] {
      assert (s + t)[1..] == s[1..] + t;
      RemoveAllConcat(s[1..], t, x);
    } else {
      assert s + t == t;
    }
  }

  /**
   * When `x` occurs at most once, `remove` and the filtering comprehension
   * agree: removing the first occurrence leaves none.
   */
  lemma RemoveFirstOnce<T>(s: seq<T>, x: T)
    requires x !in RemoveFirst(s, x)
    ensures RemoveFirst(s, x) == RemoveAll(s, x)
  {
    if x in s {
      var i := FirstIndex(s, x);
      assert s == s[..i] + ([x] + s[i + 1..]);
      RemoveAllConcat(s[..i], [x] + s[i + 1..], x);
      RemoveAllConcat([x], s[i + 1..], x);
      assert RemoveAll([x], x) == [];
      RemoveAllAbsent(s[..i], x);
      RemoveAllAbsent(s[i + 1..], x);
    } else {
      RemoveAllAbsent(s, x);
    }
  }

  lemma ClearAfterAdd<T>(m: multiset<T>, t: T, x: T)
    ensures (multiset{t} + m)[x := 0] == if t == x then m[x := 0] else multiset{t} + m[x := 0]
  {
    var lhs := (multiset{t} + m)[x := 0];
    var rhs := if t == x then m[x := 0] else multiset{t} + m[x := 0];
    forall y
      ensures lhs[y] == rhs[y]
    {
    }
  }
}
