/** Substring search (`strings.Index`, `strings.Contains`, `strings.HasSuffix`). */
module StringSearch {

  predicate OccursAt(text: string, needle: string, i: int) {
    0 <= i <= |text| - |needle| && text[i..i + |needle|] == needle
  }

  predicate Contains(text: string, needle: string) {
    exists i :: 0 <= i <= |text| && OccursAt(text, needle, i)
  }

  predicate HasSuffix(text: string, suffix: string) {
    OccursAt(text, suffix, |text| - |suffix|)
  }

  /** The first occurrence at or after `from`, or -1. */
  function Index(text: string, needle: string, from: nat): (i: int)
    requires from <= |text|
    ensures i == -1 || (from <= i && OccursAt(text, needle, i))
    ensures forall k :: from <= k && (i == -1 || k < i) ==> !OccursAt(text, needle, k)
    decreases |text| - from
  {
    if OccursAt(text, needle, from) then from
    else if from == |text| then -1
    else Index(text, needle, from + 1)
  }

  lemma OccursPointwise(text: string, needle: string, i: int)
    ensures OccursAt(text, needle, i) <==>
      0 <= i <= |text| - |needle| && forall k :: 0 <= k < |needle| ==> text[i + k] == needle[k]
  {
    if 0 <= i <= |text| - |needle| {
      var part := text[i..i + |needle|];
      assert forall k :: 0 <= k < |needle| ==> part[k] == text[i + k];
    }
  }

  /** No proper suffix of the needle is also a prefix of it. */
  predicate BorderFree(needle: string) {
    forall d :: 0 < d < |needle| ==> needle[d..] != needle[..|needle| - d]
  }

  lemma OverlapIsBorder(text: string, needle: string, i: int, j: int)
    requires OccursAt(text, needle, i) && OccursAt(text, needle, j) && i < j < i + |needle|
    ensures needle[j - i..] == needle[..|needle| - (j - i)]
  {
    assert needle[j - i..] == text[j..i + |needle|] == text[j..j + |needle|][..|needle| - (j - i)];
  }

  /** Occurrences of a border-free needle never overlap, so a search may go on
      after the whole of the last one. */
  lemma NoOverlap(text: string, needle: string, i: int, j: int)
    requires BorderFree(needle) && OccursAt(text, needle, i) && i < j < i + |needle|
    ensures !OccursAt(text, needle, j)
  {
    if OccursAt(text, needle, j) {
      OverlapIsBorder(text, needle, i, j);
    }
  }

  lemma BorderFreeIfLastIsNew(needle: string, last: char)
    requires last !in needle
    ensures BorderFree(needle + [last])
  {
    var n := needle + [last];
    forall d | 0 < d < |n| ensures n[d..] != n[..|n| - d] {
      assert n[d..][|n| - d - 1] == last && n[..|n| - d][|n| - d - 1] == needle[|n| - d - 1];
    }
  }

  lemma OccursAcross(text: string, needle: string, i: int, k: int)
    requires OccursAt(text, needle, i) && i <= k < i + |needle|
    ensures text[k] in needle
  {
    OccursPointwise(text, needle, i);
    assert text[i + (k - i)] == needle[k - i];
  }

  /** A character that the needle lacks cuts the text in two. */
  lemma OccursSplit(a: string, c: char, b: string, needle: string, i: int)
    requires needle != "" && c !in needle
    ensures OccursAt(a + [c] + b, needle, i) <==>
      OccursAt(a, needle, i) || OccursAt(b, needle, i - |a| - 1)
  {
    var t := a + [c] + b;
    OccursPointwise(t, needle, i);
    OccursPointwise(a, needle, i);
    OccursPointwise(b, needle, i - |a| - 1);
    if OccursAt(t, needle, i) && i <= |a| < i + |needle| {
      OccursAcross(t, needle, i, |a|);
    }
  }

  /** The number of indices from `from` on at which the needle occurs. */
  function Occurrences(text: string, needle: string, from: nat): nat
    decreases |text| - from
  {
    if from > |text| then 0
    else (if OccursAt(text, needle, from) then 1 else 0) + Occurrences(text, needle, from + 1)
  }

  /** The recursion counts the set of those indices. */
  lemma {:induction false} OccurrencesIsCardinality(text: string, needle: string, from: nat)
    ensures Occurrences(text, needle, from) == |set i | from <= i <= |text| && OccursAt(text, needle, i)|
    decreases |text| - from
  {
    var here := set i | from <= i <= |text| && OccursAt(text, needle, i);
    if from <= |text| {
      var later := set i | from + 1 <= i <= |text| && OccursAt(text, needle, i);
      OccurrencesIsCardinality(text, needle, from + 1);
      assert here == if OccursAt(text, needle, from) then later + {from} else later;
    } else {
      assert here == {};
    }
  }

  lemma {:induction false} NoneInBetween(text: string, needle: string, from: nat, next: nat)
    requires from <= next && forall k :: from <= k < next ==> !OccursAt(text, needle, k)
    ensures Occurrences(text, needle, from) == Occurrences(text, needle, next)
    decreases next - from
  {
    if from < next {
      NoneInBetween(text, needle, from + 1, next);
    }
  }

  lemma OccursIffCounted(text: string, needle: string)
    ensures Contains(text, needle) <==> Occurrences(text, needle, 0) > 0
  {
    if Contains(text, needle) {
      var i :| 0 <= i <= |text| && OccursAt(text, needle, i);
      CountedFrom(text, needle, 0, i);
    } else {
      NoneInBetween(text, needle, 0, |text| + 1);
    }
  }

  lemma {:induction false} CountedFrom(text: string, needle: string, from: nat, i: nat)
    requires from <= i <= |text| && OccursAt(text, needle, i)
    ensures Occurrences(text, needle, from) > 0
    decreases i - from
  {
    if from < i {
      CountedFrom(text, needle, from + 1, i);
    }
  }

  lemma {:induction false} OccurrencesRight(a: string, c: char, b: string, needle: string, from: nat)
    requires needle != "" && c !in needle
    ensures Occurrences(a + [c] + b, needle, |a| + 1 + from) == Occurrences(b, needle, from)
    decreases |b| - from
  {
    if from <= |b| {
      OccursSplit(a, c, b, needle, |a| + 1 + from);
      OccurrencesRight(a, c, b, needle, from + 1);
    }
  }

  /** A character that the needle lacks splits its occurrences between the parts. */
  lemma {:induction false} OccurrencesSplit(a: string, c: char, b: string, needle: string, from: nat)
    requires needle != "" && c !in needle && from <= |a| + 1
    ensures Occurrences(a + [c] + b, needle, from) == Occurrences(a, needle, from) + Occurrences(b, needle, 0)
    decreases |a| + 1 - from
  {
    if from == |a| + 1 {
      OccurrencesRight(a, c, b, needle, 0);
    } else {
      OccursSplit(a, c, b, needle, from);
      OccurrencesSplit(a, c, b, needle, from + 1);
    }
  }
}
