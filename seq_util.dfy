/**
 * Sequence helpers standing for the PHP library calls the entities rely on:
 * `array_unique` on a list of strings, and the `contains`/`removeElement`
 * pair of Doctrine's ArrayCollection (both compare with `===`).
 */
module SeqUtil {

  /** No element occurs twice. */
  predicate NoDuplicates<T(==)>(s: seq<T>) {
    forall i, j :: 0 <= i < j < |s| ==> s[i] != s[j]
  }

  /**
   * `array_unique` on a list: keeps the first occurrence of every element,
   * in the order of first occurrence.
   */
  function Dedup<T(==)>(s: seq<T>): (r: seq<T>)
    ensures forall i :: 0 <= i < |r| ==> r[i] in s
    ensures forall i :: 0 <= i < |s| ==> s[i] in r
    ensures NoDuplicates(r)
    ensures |r| <= |s|
  {
    if s == [] then []
    else
      var init, last := s[..|s| - 1], s[|s| - 1];
      assert s == init + [last];
      var d := Dedup(init);
      if last in d then d else d + [last]
  }

  /** A list is left as it is by `array_unique` exactly when it has no duplicates. */
  lemma {:induction false} DedupFixesDistinct<T>(s: seq<T>)
    ensures Dedup(s) == s <==> NoDuplicates(s)
  {
    if s != [] && NoDuplicates(s) {
      var init, last := s[..|s| - 1], s[|s| - 1];
      assert NoDuplicates(init);
      DedupFixesDistinct(init);
      assert last !in init by {
        forall k | 0 <= k < |init| ensures init[k] != last {
          assert init[k] == s[k];
        }
      }
      assert s == init + [last];
    }
  }

  /**
   * Appending elements never reorders or drops what `array_unique` kept from
   * the front: the deduplicated prefix is a prefix of the deduplicated whole.
   */
  lemma {:induction false} DedupPrefix<T>(a: seq<T>, b: seq<T>)
    ensures Dedup(a) <= Dedup(a + b)
    decreases |b|
  {
    if b == [] {
      assert a + b == a;
    } else {
      var b' := b[..|b| - 1];
      DedupPrefix(a, b');
      assert (a + b)[..|a + b| - 1] == a + b';
    }
  }

  /** The position of the first `x` in `s`, or `|s|` when there is none (PHP's `array_search`). */
  function IndexOf<T(==)>(s: seq<T>, x: T): (i: nat)
    ensures i <= |s|
    ensures i < |s| <==> x in s
    ensures i < |s| ==> s[i] == x
    ensures x !in s[..i]
  {
    if s == [] then 0
    else if s[0] == x then 0
    else
      var k := IndexOf(s[1..], x);
      assert s[..k + 1] == [s[0]] + s[1..][..k];
      k + 1
  }

  /**
   * ArrayCollection::removeElement: looks up the first occurrence of `x` and
   * unsets it; every other element keeps its place in the order.
   */
  function RemoveFirst<T(==)>(s: seq<T>, x: T): (r: seq<T>)
    ensures x !in s ==> r == s
    ensures x in s ==> |r| == |s| - 1
    ensures x in s ==> forall k :: 0 <= k < |r| ==> r[k] == s[if k < IndexOf(s, x) then k else k + 1]
    ensures multiset(r) == multiset(s) - multiset{x}
    ensures NoDuplicates(s) ==> x !in r && NoDuplicates(r)
  {
    var i := IndexOf(s, x);
    if i == |s| then s
    else
      assert s == s[..i] + [x] + s[i + 1..];
      CutAt(s, i, s[..i] + s[i + 1..]);
      s[..i] + s[i + 1..]
  }

  /**
   * Cutting position `i` out of a list shifts every later element down by one;
   * on a list without duplicates it removes that element entirely.
   */
  lemma CutAt<T>(s: seq<T>, i: nat, r: seq<T>)
    requires i < |s| && r == s[..i] + s[i + 1..]
    ensures |r| == |s| - 1
    ensures forall k :: 0 <= k < |r| ==> r[k] == s[if k < i then k else k + 1]
    ensures NoDuplicates(s) ==> s[i] !in r && NoDuplicates(r)
  {
    forall k | 0 <= k < |r| ensures r[k] == s[if k < i then k else k + 1] {}
  }


  /** Appending an absent element and then removing it gives back the original list. */
  lemma RemoveFirstUndoesAppend<T>(s: seq<T>, x: T)
    requires x !in s
    ensures RemoveFirst(s + [x], x) == s
  {
  }

}
