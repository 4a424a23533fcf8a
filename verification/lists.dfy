/** Python list operations used by the task descriptor's file-binding and dependency lists. */
module Lists {
  import opened Wrappers

  /** Position of the first occurrence of `x` in `s`. */
  function FirstIndex<T(==)>(s: seq<T>, x: T): (i: nat)
    requires x in s
    ensures i < |s| && s[i] == x
    ensures forall j :: 0 <= j < i ==> s[j] != x
  {
    if s[0] == x then 0 else 1 + FirstIndex(s[1..], x)
  }

  /**
   * `list.remove(x)`: deletes the first element equal to `x` and keeps the others in order;
   * `None` when `x` is absent (Python raises ValueError).
   */
  function RemoveFirst<T(==)>(s: seq<T>, x: T): (r: Option<seq<T>>)
    ensures r.None? <==> x !in s
    ensures r.Some? ==> r.value == s[..FirstIndex(s, x)] + s[FirstIndex(s, x) + 1..]
  {
    if s == [] then None
    else if s[0] == x then Some(s[1..])
    else match RemoveFirst(s[1..], x)
      case None => None
      case Some(t) => Some([s[0]] + t)
  }

  /** Removing a present element takes away exactly one copy of it and nothing else. */
  lemma RemoveFirstMultiset<T>(s: seq<T>, x: T)
    requires x in s
    ensures RemoveFirst(s, x).Some?
    ensures multiset(RemoveFirst(s, x).value) == multiset(s) - multiset{x}
    ensures |RemoveFirst(s, x).value| == |s| - 1
  {
    var i := FirstIndex(s, x);
    assert s == s[..i] + [x] + s[i + 1..];
    calc {
      multiset(s);
      multiset(s[..i]) + multiset{x} + multiset(s[i + 1..]);
      multiset(s[..i] + s[i + 1..]) + multiset{x};
    }
  }

  /** Removing a value that was appended to a list not containing it gives back that list. */
  lemma {:induction false} RemoveAppended<T>(s: seq<T>, x: T)
    requires x !in s
    ensures RemoveFirst(s + [x], x) == Some(s)
  {
    if s == [] {
      assert s + [x] == [x];
    } else {
      assert (s + [x])[1..] == s[1..] + [x];
      RemoveAppended(s[1..], x);
      assert [s[0]] + s[1..] == s;
    }
  }

  /**
   * `append(x)` followed by `remove(x)`: the append adds exactly one copy of `x`, the removal
   * always succeeds and leaves the same elements as before, and it gives back exactly the old
   * list when `x` was not already in it.
   */
  lemma AppendThenRemove<T>(s: seq<T>, x: T)
    ensures multiset(s + [x])[x] == multiset(s)[x] + 1
    ensures RemoveFirst(s + [x], x).Some?
    ensures multiset(RemoveFirst(s + [x], x).value) == multiset(s)
    ensures x !in s ==> RemoveFirst(s + [x], x) == Some(s)
  {
    var t := s + [x];
    assert t[|s|] == x;
    RemoveFirstMultiset(t, x);
    assert multiset(t) == multiset(s) + multiset{x};
    if x !in s {
      RemoveAppended(s, x);
    }
  }

  /**
   * `remove` takes out the earlier copy: for `[x, y] + [x]` it gives `[y, x]`, not the list
   * `[x, y]` that was there before the append.
   */
  lemma AppendThenRemoveReorders<T>(x: T, y: T)
    requires x != y
    ensures RemoveFirst([x, y] + [x], x) == Some([y, x])
    ensures RemoveFirst([x, y] + [x], x) != Some([x, y])
  {
    assert [x, y] + [x] == [x, y, x];
    assert [x, y, x][1..] == [y, x];
  }
}
