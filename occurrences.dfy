/**
 * Vulnerability occurrences and `filterOccurrences`, which is written out
 * identically in pkg/executor/execute.go and main.go.
 */
module Occurrences {
  import opened Severity

  /** The two fields of an occurrence that the core reads: its note and its vulnerability severity. */
  datatype Occurrence = Occurrence(noteName: string, severity: string)

  /** The in-order list of occurrences whose severity meets `maxSeverity`. */
  function Violations(occs: seq<Occurrence>, maxSeverity: string): (r: seq<Occurrence>)
    ensures |r| <= |occs|
  {
    if occs == [] then []
    else
      var last := occs[|occs| - 1];
      Violations(occs[..|occs| - 1], maxSeverity) + (if SevGE(last.severity, maxSeverity) then [last] else [])
  }

  /** `a` is `b` with some elements deleted, the remaining ones in their original order. */
  predicate IsSubsequence<T(==)>(a: seq<T>, b: seq<T>) {
    if a == [] then true
    else if b == [] then false
    else if a[|a| - 1] == b[|b| - 1] then IsSubsequence(a[..|a| - 1], b[..|b| - 1])
    else IsSubsequence(a, b[..|b| - 1])
  }

  /**
   * `filterOccurrences`: a fresh list into which every occurrence meeting
   * `maxSeverity` is appended, front to back.
   */
  method FilterOccurrences(occs: seq<Occurrence>, maxSeverity: string) returns (kept: seq<Occurrence>)
    ensures kept == Violations(occs, maxSeverity)
  {
    kept := [];
    var i := 0;
    while i < |occs|
      invariant 0 <= i <= |occs|
      invariant kept == Violations(occs[..i], maxSeverity)
    {
      var o := occs[i];
      assert occs[..i + 1][..i] == occs[..i];
      if SevGE(o.severity, maxSeverity) {
        kept := kept + [o];
      }
      i := i + 1;
    }
    assert occs[..i] == occs;
  }

  /** Filtering a concatenation filters each part. */
  lemma {:induction false} ViolationsConcat(a: seq<Occurrence>, b: seq<Occurrence>, maxSeverity: string)
    ensures Violations(a + b, maxSeverity) == Violations(a, maxSeverity) + Violations(b, maxSeverity)
  {
    if b != [] {
      var last := b[|b| - 1];
      assert (a + b)[..|a + b| - 1] == a + b[..|b| - 1];
      ViolationsConcat(a, b[..|b| - 1], maxSeverity);
    } else {
      assert a + b == a;
    }
  }

  /** An occurrence is kept exactly when it is in the input and its severity meets the threshold. */
  lemma {:induction false} ViolationsMembers(occs: seq<Occurrence>, maxSeverity: string, o: Occurrence)
    ensures o in Violations(occs, maxSeverity) <==> o in occs && SevGE(o.severity, maxSeverity)
  {
    if occs != [] {
      var init := occs[..|occs| - 1];
      assert occs == init + [occs[|occs| - 1]];
      ViolationsMembers(init, maxSeverity, o);
    }
  }

  /** Each occurrence is kept as many times as it occurs when it meets the threshold, otherwise never. */
  lemma {:induction false} ViolationsCounts(occs: seq<Occurrence>, maxSeverity: string, o: Occurrence)
    ensures multiset(Violations(occs, maxSeverity))[o] == if SevGE(o.severity, maxSeverity) then multiset(occs)[o] else 0
  {
    if occs != [] {
      var init := occs[..|occs| - 1];
      assert occs == init + [occs[|occs| - 1]];
      ViolationsCounts(init, maxSeverity, o);
    }
  }

  /** Dropping the last element of a subsequence leaves a subsequence. */
  lemma {:induction false} SubsequenceDropLast<T>(a: seq<T>, b: seq<T>)
    requires a != [] && IsSubsequence(a, b)
    ensures IsSubsequence(a[..|a| - 1], b)
    decreases |b|, 1
  {
    var b' := b[..|b| - 1];
    if a[|a| - 1] == b[|b| - 1] {
      SubsequenceGrow(a[..|a| - 1], b);
    } else {
      SubsequenceDropLast(a, b');
      SubsequenceGrow(a[..|a| - 1], b);
    }
  }

  /** A subsequence of a list without its last element is a subsequence of the whole list. */
  lemma {:induction false} SubsequenceGrow<T>(a: seq<T>, b: seq<T>)
    requires b != [] && IsSubsequence(a, b[..|b| - 1])
    ensures IsSubsequence(a, b)
    decreases |b|, 0
  {
    if a != [] && a[|a| - 1] == b[|b| - 1] {
      SubsequenceDropLast(a, b[..|b| - 1]);
    }
  }

  /** The kept occurrences are an in-order subsequence of the input. */
  lemma {:induction false} ViolationsSubsequence(occs: seq<Occurrence>, maxSeverity: string)
    ensures IsSubsequence(Violations(occs, maxSeverity), occs)
  {
    if occs != [] {
      var init := occs[..|occs| - 1];
      var last := occs[|occs| - 1];
      assert occs == init + [last];
      ViolationsSubsequence(init, maxSeverity);
      var head := Violations(init, maxSeverity);
      assert occs[..|occs| - 1] == init;
      if SevGE(last.severity, maxSeverity) {
        assert (head + [last])[..|head + [last]| - 1] == head;
      } else {
        assert Violations(occs, maxSeverity) == head;
        SubsequenceGrow(head, occs);
      }
    }
  }

  /** Filtering an already filtered list with the same threshold changes nothing. */
  lemma {:induction false} ViolationsIdempotent(occs: seq<Occurrence>, maxSeverity: string)
    ensures Violations(Violations(occs, maxSeverity), maxSeverity) == Violations(occs, maxSeverity)
  {
    if occs != [] {
      var init := occs[..|occs| - 1];
      var last := occs[|occs| - 1];
      var head := Violations(init, maxSeverity);
      var tail := if SevGE(last.severity, maxSeverity) then [last] else [];
      ViolationsIdempotent(init, maxSeverity);
      ViolationsConcat(head, tail, maxSeverity);
      assert Violations(tail, maxSeverity) == tail by {
        if tail != [] {
          assert tail[..0] == [];
        }
      }
    }
  }

  /** Nothing is kept exactly when no occurrence meets the threshold. */
  lemma ViolationsEmpty(occs: seq<Occurrence>, maxSeverity: string)
    ensures Violations(occs, maxSeverity) == [] <==> forall k :: 0 <= k < |occs| ==> !SevGE(occs[k].severity, maxSeverity)
  {
    if Violations(occs, maxSeverity) != [] {
      var o := Violations(occs, maxSeverity)[0];
      ViolationsMembers(occs, maxSeverity, o);
    } else {
      forall k | 0 <= k < |occs|
        ensures !SevGE(occs[k].severity, maxSeverity)
      {
        ViolationsMembers(occs, maxSeverity, occs[k]);
      }
    }
  }

  /** A policy whose maximum severity is not a level (for instance empty) flags nothing. */
  lemma ViolationsUnknownThreshold(occs: seq<Occurrence>, maxSeverity: string)
    requires !IsLevel(maxSeverity)
    ensures Violations(occs, maxSeverity) == []
  {
    forall k | 0 <= k < |occs|
      ensures !SevGE(occs[k].severity, maxSeverity)
    {
      SevGEFalseCases(occs[k].severity, maxSeverity);
    }
    ViolationsEmpty(occs, maxSeverity);
  }
}
