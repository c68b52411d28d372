/**
 * The paging arithmetic shared by the attendee page and the two event
 * pages: the last valid index `limit = max(n - 1, 0)` of an n-element list
 * clamps both arguments, which are then passed to `GetRange` as a start
 * position and an element COUNT. So the "end index" is used as a count, a
 * page never holds all n >= 1 elements, and a large start with a large end
 * makes `GetRange` throw.
 */
module Paging {
  import opened Wrappers
  import opened Lists

  function Min(a: int, b: int): int { if a <= b then a else b }
  function Max(a: int, b: int): int { if a >= b then a else b }

  /** C#'s 32-bit `int`, the type of the page arguments. */
  type Int32 = x: int | -0x8000_0000 <= x < 0x8000_0000

  /** The clamp: `Math.Max(list.Count - 1, 0)`. */
  function Limit(n: nat): nat { Max(n - 1, 0) }

  /**
   * `list.GetRange(Math.Min(startIndex, limit), Math.Min(endIndex, limit))`;
   * None where `GetRange` throws.
   */
  function Page<T>(items: seq<T>, startIndex: Int32, endIndex: Int32): (r: Option<seq<T>>)
    // It throws exactly when an argument is negative or the clamped range runs past the end.
    ensures r.None? <==>
      startIndex < 0 || endIndex < 0 || Min(startIndex, Limit(|items|)) + Min(endIndex, Limit(|items|)) > |items|
    // An empty list gives an empty page for non-negative arguments.
    ensures |items| == 0 ==> r == if 0 <= startIndex && 0 <= endIndex then Some([]) else None
    // Inside the clamp the arguments are a start position and a count.
    ensures 0 <= startIndex <= Limit(|items|) && 0 <= endIndex <= Limit(|items|) && startIndex + endIndex <= |items|
      ==> r == Some(items[startIndex..startIndex + endIndex])
    // Every page is a contiguous run of the list, never the whole of a non-empty list.
    ensures r.Some? ==> |r.value| <= Limit(|items|) && (|items| == 0 || |r.value| < |items|)
    ensures r.Some? ==> |r.value| == Min(endIndex, Limit(|items|))
    ensures r.Some? ==> forall k :: 0 <= k < |r.value| ==> r.value[k] == items[Min(startIndex, Limit(|items|)) + k]
    // Asking for everything from the start returns all items but the last one.
    ensures 1 <= |items| && startIndex == 0 && endIndex >= |items| - 1 ==> r == Some(items[..|items| - 1])
  {
    var limit := Limit(|items|);
    var index, count := Min(startIndex, limit), Min(endIndex, limit);
    var page := GetRange(items, index, count);
    assert page.Some? ==> page.value == items[index..index + count];
    page
  }
}
