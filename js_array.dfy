/**
 * Array.prototype.splice(start, 1) as the journal form's remove handlers apply it
 * to a copy of a row list: the list that is left after removing one element.
 */
module JsArray {

  /** The position splice actually removes at: a negative start counts from the end
      (clamped at 0), a start beyond the end is clamped to the length. */
  function SpliceStart(len: nat, start: int): (k: nat)
    ensures k <= len
  {
    if start < 0 then (if len + start < 0 then 0 else len + start)
    else if start > len then len
    else start
  }

  /** The array after splice(start, 1): one element fewer exactly when the array is
      non-empty and start is below its length (a negative start always hits an
      element), the same array otherwise; nothing is ever added. */
  function SpliceOne<T>(s: seq<T>, start: int): (r: seq<T>)
    ensures |r| == (if s != [] && start < |s| then |s| - 1 else |s|)
    ensures multiset(r) <= multiset(s)
  {
    var k := SpliceStart(|s|, start);
    if k < |s| then
      assert s == s[..k] + [s[k]] + s[k + 1..];
      s[..k] + s[k + 1..]
    else s
  }

  /** Removing at a valid index drops exactly that element and shifts the later ones down. */
  lemma SpliceOneAt<T>(s: seq<T>, i: int)
    requires 0 <= i < |s|
    ensures |SpliceOne(s, i)| == |s| - 1
    ensures forall j :: 0 <= j < i ==> SpliceOne(s, i)[j] == s[j]
    ensures forall j :: i <= j < |s| - 1 ==> SpliceOne(s, i)[j] == s[j + 1]
    ensures multiset(SpliceOne(s, i)) + multiset{s[i]} == multiset(s)
  {
    assert s == s[..i] + [s[i]] + s[i + 1..];
  }

  /** An index at or past the end removes nothing. */
  lemma SpliceOnePastEnd<T>(s: seq<T>, i: int)
    requires i >= |s|
    ensures SpliceOne(s, i) == s
  {
  }

  /** A negative index -k, within the length, removes the k-th element from the end. */
  lemma SpliceOneFromEnd<T>(s: seq<T>, i: int)
    requires -|s| <= i < 0
    ensures SpliceOne(s, i) == SpliceOne(s, |s| + i)
  {
  }

  /** Appending an element and then splicing out the last index restores the list. */
  lemma AppendThenSpliceLast<T>(s: seq<T>, x: T)
    ensures SpliceOne(s + [x], |s|) == s
  {
    assert (s + [x])[..|s|] == s;
  }
}
