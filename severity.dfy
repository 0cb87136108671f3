/**
 * The severity scale and the comparison `sevGE`, which is written out
 * identically in pkg/executor/execute.go and main.go.
 */
module Severity {

  /** The fixed scan order of `sevOrder`, lowest first. */
  const SevOrder: seq<string> := ["LOW", "MEDIUM", "HIGH", "CRITICAL"]

  /** A severity is a level when it is one of the four names of the scale. */
  predicate IsLevel(s: string) {
    s in SevOrder
  }

  /** The position of the first `s` in `order`, or `|order|` when `s` is absent. */
  function IndexIn(order: seq<string>, s: string): (k: nat)
    ensures k <= |order|
    ensures k < |order| <==> s in order
    ensures k < |order| ==> order[k] == s
    ensures forall j :: 0 <= j < k ==> order[j] != s
  {
    if order == [] then 0
    else if order[0] == s then 0
    else 1 + IndexIn(order[1..], s)
  }

  /** The rank of a severity on the scale; 4 for anything that is not a level. */
  function Rank(s: string): nat {
    IndexIn(SevOrder, s)
  }

  /**
   * The loop of `sevGE`: walk `order`; meeting the threshold `comp` first answers
   * true, meeting the value `val` first answers false, running off the end false.
   * The threshold is compared before the value at every step.
   */
  function Scan(order: seq<string>, val: string, comp: string): bool {
    if order == [] then false
    else if comp == order[0] then true
    else if val == order[0] then false
    else Scan(order[1..], val, comp)
  }

  /** `sevGE(val, comp)`: an empty value never counts; otherwise scan the scale. */
  function SevGE(val: string, comp: string): bool {
    if val == "" then false else Scan(SevOrder, val, comp)
  }

  /**
   * The rank-table reading of the comparison: the value is non-empty, the threshold
   * is a level, and the value is either above or at the threshold or is not a level
   * at all (its rank 4 lies above every level).
   */
  predicate AtLeastByRank(val: string, comp: string) {
    val != "" && IsLevel(comp) && Rank(comp) <= Rank(val)
  }

  /** The scan answers true exactly when the threshold occurs, no later than the value. */
  lemma {:induction false} ScanIsIndexComparison(order: seq<string>, val: string, comp: string)
    ensures Scan(order, val, comp) <==> IndexIn(order, comp) < |order| && IndexIn(order, comp) <= IndexIn(order, val)
  {
    if order != [] && comp != order[0] && val != order[0] {
      ScanIsIndexComparison(order[1..], val, comp);
    }
  }

  /** The early-return scan and the rank table agree on every pair of strings. */
  lemma SevGEMatchesRank(val: string, comp: string)
    ensures SevGE(val, comp) == AtLeastByRank(val, comp)
  {
    ScanIsIndexComparison(SevOrder, val, comp);
  }

  /** An empty value, or a threshold that is not a level (the empty one included), never counts. */
  lemma SevGEFalseCases(val: string, comp: string)
    requires val == "" || !IsLevel(comp)
    ensures !SevGE(val, comp)
  {
    SevGEMatchesRank(val, comp);
  }

  /** Between two levels, `sevGE` is exactly "rank of value at least rank of threshold". */
  lemma SevGEOnLevels(val: string, comp: string)
    requires IsLevel(val) && IsLevel(comp)
    ensures SevGE(val, comp) <==> Rank(val) >= Rank(comp)
  {
    SevGEMatchesRank(val, comp);
  }

  /** Every level meets itself. */
  lemma SevGEReflexive(x: string)
    requires IsLevel(x)
    ensures SevGE(x, x)
  {
    SevGEOnLevels(x, x);
  }

  /**
   * A non-empty value outside the scale meets every level: the scan reaches the
   * threshold before it could ever meet the value.
   */
  lemma SevGEUnknownValue(val: string, comp: string)
    requires val != "" && !IsLevel(val) && IsLevel(comp)
    ensures SevGE(val, comp)
  {
    SevGEMatchesRank(val, comp);
  }

  /** Any two levels are comparable one way or the other. */
  lemma SevGETotalOnLevels(a: string, b: string)
    requires IsLevel(a) && IsLevel(b)
    ensures SevGE(a, b) || SevGE(b, a)
  {
    SevGEOnLevels(a, b);
    SevGEOnLevels(b, a);
  }

  /** The comparison is transitive on all strings. */
  lemma SevGETransitive(a: string, b: string, c: string)
    requires SevGE(a, b) && SevGE(b, c)
    ensures SevGE(a, c)
  {
    SevGEMatchesRank(a, b);
    SevGEMatchesRank(b, c);
    SevGEMatchesRank(a, c);
  }
}
