/** `Array.prototype.filter` on sequences, and the facts the list pages rely
    on: a filter keeps an order-preserving subsequence, two filters in a row
    are one filter on the conjunction, and disjoint filters share out the
    elements. */
module Lists {

  /** `s.filter(p)`. */
  function Keep<T(==)>(s: seq<T>, p: T -> bool): (r: seq<T>)
    ensures |r| <= |s|
    ensures forall i :: 0 <= i < |r| ==> r[i] in s && p(r[i])
    ensures forall i :: 0 <= i < |s| && p(s[i]) ==> s[i] in r
  {
    if |s| == 0 then []
    else if p(s[0]) then [s[0]] + Keep(s[1..], p)
    else Keep(s[1..], p)
  }

  /** `r` is `s` with some elements left out and the rest in their order. */
  predicate Subsequence<T(==)>(r: seq<T>, s: seq<T>)
    decreases |s|
  {
    if |r| == 0 then true
    else if |s| == 0 then false
    else if r[0] == s[0] then Subsequence(r[1..], s[1..])
    else Subsequence(r, s[1..])
  }

  /** A subsequence of the tail is a subsequence of the whole. */
  lemma {:induction false} SubsequenceOfTail<T>(r: seq<T>, s: seq<T>)
    requires |s| > 0 && Subsequence(r, s[1..])
    ensures Subsequence(r, s)
    decreases |s|, 0
  {
    if |r| > 0 && r[0] == s[0] {
      DropFirstOfSubsequence(r, s[1..]);
    }
  }

  lemma {:induction false} DropFirstOfSubsequence<T>(r: seq<T>, s: seq<T>)
    requires |r| > 0 && Subsequence(r, s)
    ensures Subsequence(r[1..], s)
    decreases |s|, 1
  {
    if r[0] == s[0] {
      SubsequenceOfTail(r[1..], s);
    } else {
      DropFirstOfSubsequence(r, s[1..]);
      SubsequenceOfTail(r[1..], s);
    }
  }

  /** A filter keeps the elements it keeps in their original order. */
  lemma {:induction false} KeepIsSubsequence<T>(s: seq<T>, p: T -> bool)
    ensures Subsequence(Keep(s, p), s)
    decreases |s|
  {
    if |s| > 0 {
      KeepIsSubsequence(s[1..], p);
      if p(s[0]) {
        assert Keep(s, p)[1..] == Keep(s[1..], p);
      } else {
        SubsequenceOfTail(Keep(s, p), s);
      }
    }
  }

  /** Filtering by `p` and then by `q` is filtering once by their conjunction. */
  lemma {:induction false} KeepKeep<T>(s: seq<T>, p: T -> bool, q: T -> bool, both: T -> bool)
    requires forall x :: both(x) == (p(x) && q(x))
    ensures Keep(Keep(s, p), q) == Keep(s, both)
    decreases |s|
  {
    if |s| > 0 {
      KeepKeep(s[1..], p, q, both);
      if p(s[0]) {
        assert Keep(s, p)[0] == s[0] && Keep(s, p)[1..] == Keep(s[1..], p);
      }
    }
  }

  /** A filter that keeps everything changes nothing. */
  lemma {:induction false} KeepEverything<T>(s: seq<T>, p: T -> bool)
    requires forall x :: p(x)
    ensures Keep(s, p) == s
    decreases |s|
  {
    if |s| > 0 {
      KeepEverything(s[1..], p);
      assert [s[0]] + s[1..] == s;
    }
  }

  /** The order of two filters does not matter. */
  lemma FiltersCommute<T>(s: seq<T>, p: T -> bool, q: T -> bool)
    ensures Keep(Keep(s, p), q) == Keep(Keep(s, q), p)
  {
    var both := (x: T) => p(x) && q(x);
    KeepKeep(s, p, q, both);
    KeepKeep(s, q, p, both);
  }

  /** The kept elements and the dropped ones together are the whole list. */
  lemma {:induction false} KeepComplement<T>(s: seq<T>, p: T -> bool, notP: T -> bool)
    requires forall x :: notP(x) == !p(x)
    ensures |Keep(s, p)| + |Keep(s, notP)| == |s|
    decreases |s|
  {
    if |s| > 0 {
      KeepComplement(s[1..], p, notP);
    }
  }

  /** Elements that satisfy a stronger predicate are no more than those that
      satisfy a weaker one. */
  lemma {:induction false} KeepMonotone<T>(s: seq<T>, p: T -> bool, q: T -> bool)
    requires forall x :: p(x) ==> q(x)
    ensures |Keep(s, p)| <= |Keep(s, q)|
    decreases |s|
  {
    if |s| > 0 {
      KeepMonotone(s[1..], p, q);
    }
  }

  /** Two filters that never keep the same element keep no more than the list
      between them. */
  lemma {:induction false} KeepDisjoint<T>(s: seq<T>, p: T -> bool, q: T -> bool)
    requires forall x :: !(p(x) && q(x))
    ensures |Keep(s, p)| + |Keep(s, q)| <= |s|
    decreases |s|
  {
    if |s| > 0 {
      KeepDisjoint(s[1..], p, q);
    }
  }
}
