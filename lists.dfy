/** The `java.util.List` operations the core relies on, over sequences. */
module Lists {
  function IndexOf<T(==)>(s: seq<T>, v: T): (i: nat)
    requires v in s
    ensures i < |s| && s[i] == v && v !in s[..i]
  {
    if s[0] == v then 0 else 1 + IndexOf(s[1..], v)
  }

  /**
   * `List.remove(Object)`: nothing changes when `v` is absent; otherwise the
   * list is one shorter, the elements before the first `v` stay in place and
   * the ones after it move down by one.
   */
  function RemoveFirst<T(==)>(s: seq<T>, v: T): (r: seq<T>)
    ensures v !in s ==> r == s
    ensures v in s ==> |r| == |s| - 1
    ensures v in s ==> forall k | 0 <= k < IndexOf(s, v) :: r[k] == s[k]
    ensures v in s ==> forall k | IndexOf(s, v) <= k < |r| :: r[k] == s[k + 1]
  {
    if v in s then
      var i := IndexOf(s, v);
      s[..i] + s[i + 1..]
    else s
  }

  /** Removal takes exactly one copy of a present element. */
  lemma RemoveFirstCount<T>(s: seq<T>, v: T)
    requires v in s
    ensures |RemoveFirst(s, v)| == |s| - 1 && multiset(RemoveFirst(s, v)) == multiset(s) - multiset{v}
  {
    var i := IndexOf(s, v);
    var a, b := s[..i], s[i + 1..];
    assert s == a + [v] + b;
    assert multiset(s) == multiset(a) + multiset{v} + multiset(b);
    assert multiset(RemoveFirst(s, v)) == multiset(a) + multiset(b);
  }

  ghost predicate NoDups<T>(s: seq<T>)
  {
    forall i, j | 0 <= i < j < |s| :: s[i] != s[j]
  }

  /** In a list without duplicates every element occurs exactly once. */
  lemma {:induction false} NoDupsOccursOnce<T>(s: seq<T>, v: T)
    requires NoDups(s) && v in s
    ensures multiset(s)[v] == 1
  {
    if s[0] == v {
      assert v !in s[1..];
      assert s == [s[0]] + s[1..];
    } else {
      NoDupsOccursOnce(s[1..], v);
      assert s == [s[0]] + s[1..];
    }
  }

  /** Removing from a list without duplicates leaves none of that element. */
  lemma RemoveFirstNoDups<T>(s: seq<T>, v: T)
    requires NoDups(s)
    ensures NoDups(RemoveFirst(s, v)) && v !in RemoveFirst(s, v)
  {
    if v in s {
      var i := IndexOf(s, v);
      var r := RemoveFirst(s, v);
      assert r == s[..i] + s[i + 1..];
      forall a, b | 0 <= a < b < |r|
        ensures r[a] != r[b]
      {
        var a' := if a < i then a else a + 1;
        var b' := if b < i then b else b + 1;
        assert r[a] == s[a'] && r[b] == s[b'];
      }
    }
  }
}
