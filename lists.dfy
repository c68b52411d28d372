/**
 * The parts of .NET's `List<T>` that the controllers rely on: membership
 * (`Contains`), appending (`Add`), removing the first occurrence (`Remove`)
 * and the ranged copy `GetRange`, which throws on a bad range.
 */
module Lists {
  import opened Wrappers

  /** No element occurs twice. */
  ghost predicate Distinct<T>(s: seq<T>) {
    forall i, j :: 0 <= i < j < |s| ==> s[i] != s[j]
  }

  /** `List<T>.Remove(x)`: drops the first occurrence of `x`; a no-op when `x` is absent. */
  function Remove<T(==)>(s: seq<T>, x: T): (r: seq<T>)
    ensures x !in s ==> r == s
    ensures x in s ==> |r| == |s| - 1
    ensures forall y :: y in r ==> y in s
    ensures forall y :: y in s && y != x ==> y in r
  {
    if s == [] then []
    else if s[0] == x then s[1..]
    else [s[0]] + Remove(s[1..], x)
  }

  /** The index of the first occurrence of `x` in `s`. */
  ghost function FirstIndex<T>(s: seq<T>, x: T): (i: nat)
    requires x in s
    ensures i < |s| && s[i] == x && x !in s[..i]
  {
    if s[0] == x then 0
    else
      assert x in s[1..] by { var k :| 0 <= k < |s| && s[k] == x; assert s[1..][k - 1] == x; }
      var j := FirstIndex(s[1..], x);
      assert s[..j + 1] == [s[0]] + s[1..][..j];
      j + 1
  }

  /**
   * `Remove` drops the FIRST occurrence of `x` and keeps the order of the
   * rest: the list is cut at the first index holding `x`.
   */
  lemma {:induction false} RemoveFirst<T>(s: seq<T>, x: T)
    requires x in s
    ensures Remove(s, x) == s[..FirstIndex(s, x)] + s[FirstIndex(s, x) + 1..]
  {
    if s[0] != x {
      var tail := s[1..];
      assert x in tail by { var k :| 0 <= k < |s| && s[k] == x; assert tail[k - 1] == x; }
      RemoveFirst(tail, x);
      CutAfterHead(s, FirstIndex(tail, x));
    }
  }

  /** Cutting a list after its head element and index `j` of its tail. */
  lemma CutAfterHead<T>(s: seq<T>, j: int)
    requires 0 <= j < |s| - 1
    ensures s[..j + 1] == [s[0]] + s[1..][..j]
    ensures s[j + 2..] == s[1..][j + 1..]
  {
  }

  /** `Remove` takes away exactly one copy of `x`, when there is one, and nothing else. */
  lemma {:induction false} RemoveCounts<T>(s: seq<T>, x: T)
    ensures multiset(Remove(s, x)) == multiset(s) - multiset{x}
  {
    if s != [] {
      assert s == [s[0]] + s[1..];
      if s[0] != x {
        RemoveCounts(s[1..], x);
      }
    }
  }

  /** Removing from a list without duplicates removes the element altogether. */
  lemma {:induction false} RemoveDistinct<T>(s: seq<T>, x: T)
    requires Distinct(s)
    ensures Distinct(Remove(s, x))
    ensures x !in Remove(s, x)
  {
    if s != [] {
      var tail := s[1..];
      assert forall k :: 0 <= k < |tail| ==> tail[k] == s[k + 1];
      assert Distinct(tail);
      assert s[0] !in tail;
      if s[0] != x {
        RemoveDistinct(tail, x);
        var t := Remove(tail, x);
        forall i, j | 0 <= i < j < |[s[0]] + t| ensures ([s[0]] + t)[i] != ([s[0]] + t)[j] {
          if i == 0 {
            assert ([s[0]] + t)[j] == t[j - 1];
          } else {
            assert ([s[0]] + t)[i] == t[i - 1] && ([s[0]] + t)[j] == t[j - 1];
          }
        }
      }
    }
  }

  /** Appending an absent element keeps a list free of duplicates. */
  lemma AppendDistinct<T>(s: seq<T>, x: T)
    requires Distinct(s) && x !in s
    ensures Distinct(s + [x])
  {
    forall i, j | 0 <= i < j < |s + [x]| ensures (s + [x])[i] != (s + [x])[j] {
      if j == |s| {
        assert (s + [x])[i] == s[i];
      } else {
        assert (s + [x])[i] == s[i] && (s + [x])[j] == s[j];
      }
    }
  }

  /**
   * `Add(x)` followed by `Remove(x)` gives the list back unchanged when `x`
   * was absent, and the same elements in any case.
   */
  lemma {:induction false} RemoveAfterAppend<T>(s: seq<T>, x: T)
    ensures x !in s ==> Remove(s + [x], x) == s
    ensures forall y :: y in Remove(s + [x], x) <==> y in s
  {
    if s == [] {
      assert [] + [x] == [x];
    } else if s[0] == x {
      assert s + [x] == [x] + (s[1..] + [x]);
    } else {
      assert s + [x] == [s[0]] + (s[1..] + [x]);
      RemoveAfterAppend(s[1..], x);
      assert s == [s[0]] + s[1..];
    }
  }

  /**
   * `List<T>.GetRange(index, count)`: the `count` elements from position
   * `index`; None where .NET throws (a negative argument, or a range that
   * runs past the end).
   */
  function GetRange<T>(s: seq<T>, index: int, count: int): (r: Option<seq<T>>)
    ensures r.Some? <==> 0 <= index && 0 <= count && index + count <= |s|
    ensures r.Some? ==> |r.value| == count
    ensures r.Some? ==> forall k :: 0 <= k < count ==> r.value[k] == s[index + k]
  {
    if 0 <= index && 0 <= count && index + count <= |s| then Some(s[index..index + count]) else None
  }
}
