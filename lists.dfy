/** Operations of java.util.List that the library relies on, over Dafny sequences. */
module Lists {

  /** No element occurs twice in `s`. */
  predicate NoDuplicates<T(==)>(s: seq<T>)
  {
    forall i, j :: 0 <= i < j < |s| ==> s[i] != s[j]
  }

  /** `List.indexOf`: the position of the first occurrence of `x`. */
  function FirstIndex<T(==)>(s: seq<T>, x: T): (i: nat)
    requires x in s
    ensures i < |s| && s[i] == x
    ensures forall k :: 0 <= k < i ==> s[k] != x
  {
    if s[0] == x then 0 else 1 + FirstIndex(s[1..], x)
  }

  /** `List.remove(Object)`: drops the first occurrence of `x`, if there is one. */
  function RemoveFirst<T(==)>(s: seq<T>, x: T): (r: seq<T>)
    ensures x !in s ==> r == s
    ensures x in s ==> r == s[..FirstIndex(s, x)] + s[FirstIndex(s, x) + 1..]
  {
    if s == [] then s
    else if s[0] == x then s[1..]
    else
      var tail := RemoveFirst(s[1..], x);
      ConsOntoRemoved(s, x, tail);
      [s[0]] + tail
  }

  /** Past a head that is not `x`, putting the head back onto the tail with `x` removed gives `s`
      with `x` removed. */
  lemma ConsOntoRemoved<T>(s: seq<T>, x: T, tail: seq<T>)
    requires s != [] && s[0] != x
    requires x !in s[1..] ==> tail == s[1..]
    requires x in s[1..] ==> tail == s[1..][..FirstIndex(s[1..], x)] + s[1..][FirstIndex(s[1..], x) + 1..]
    ensures x !in s ==> [s[0]] + tail == s
    ensures x in s ==> [s[0]] + tail == s[..FirstIndex(s, x)] + s[FirstIndex(s, x) + 1..]
  {
    var t := s[1..];
    assert s == [s[0]] + t;
    assert x in s <==> x in t;
    if x in t {
      var j := FirstIndex(t, x);
      assert FirstIndex(s, x) == j + 1;
      ConsAroundCut(s[0], t, j);
    }
  }

  /** Slicing `[h] + t` around position `j + 1` is slicing `t` around `j`. */
  lemma ConsAroundCut<T>(h: T, t: seq<T>, j: nat)
    requires j < |t|
    ensures ([h] + t)[..j + 1] + ([h] + t)[j + 2..] == [h] + (t[..j] + t[j + 1..])
  {
    var s := [h] + t;
    assert s[..j + 1] == [h] + t[..j];
    assert s[j + 2..] == t[j + 1..];
  }

  /** Cutting element `i` out of a duplicate-free sequence leaves a duplicate-free sequence that
      lacks `s[i]` and holds every other element of `s`. */
  lemma CutKeepsOthers<T>(s: seq<T>, i: nat)
    requires NoDuplicates(s) && i < |s|
    ensures NoDuplicates(s[..i] + s[i + 1..])
    ensures s[i] !in s[..i] + s[i + 1..]
    ensures forall y :: y in s && y != s[i] ==> y in s[..i] + s[i + 1..]
  {
    var r := s[..i] + s[i + 1..];
    assert forall k :: 0 <= k < i ==> r[k] == s[k];
    assert forall k :: i <= k < |r| ==> r[k] == s[k + 1];
    forall y | y in s && y != s[i] ensures y in r {
      var k :| 0 <= k < |s| && s[k] == y;
      if k < i {
        assert r[k] == y;
      } else {
        assert r[k - 1] == y;
      }
    }
  }

  /** Removing `x` from a duplicate-free list removes it altogether and keeps every other element. */
  lemma RemoveFirstNoDuplicates<T>(s: seq<T>, x: T)
    requires NoDuplicates(s)
    ensures NoDuplicates(RemoveFirst(s, x))
    ensures x !in RemoveFirst(s, x)
    ensures forall y :: y != x ==> (y in RemoveFirst(s, x) <==> y in s)
  {
    if x in s {
      var i := FirstIndex(s, x);
      CutKeepsOthers(s, i);
      assert forall y :: y in s[..i] + s[i + 1..] ==> y in s;
    }
  }

  /** `if (!list.contains(x)) list.add(x)`: appends `x` only when it is absent. */
  function AppendIfAbsent<T(==)>(s: seq<T>, x: T): (r: seq<T>)
    ensures x in r
    ensures |s| <= |r| <= |s| + 1 && r[..|s|] == s
    ensures forall k :: 0 <= k < |r| ==> r[k] in s || r[k] == x
    ensures NoDuplicates(s) ==> NoDuplicates(r)
  {
    if x in s then s else s + [x]
  }
}
