/**
 * The results page: the review summary shown above a profile and the order
 * in which the web presence results are listed (a found Badoo result first).
 */
module ResultsPage {
  import opened Types
  import Sorting

  datatype SummaryStats = SummaryStats(totalScore: int, reviewCount: nat, positiveReviews: nat, negativeReviews: nat)

  /** The number of reviews with a score above zero. */
  function CountPositive(rs: seq<Review>): (n: nat)
    ensures n <= |rs|
  {
    if rs == [] then 0 else CountPositive(rs[..|rs| - 1]) + (if rs[|rs| - 1].score > 0 then 1 else 0)
  }

  /** The number of reviews with a score below zero. */
  function CountNegative(rs: seq<Review>): (n: nat)
    ensures n <= |rs|
  {
    if rs == [] then 0 else CountNegative(rs[..|rs| - 1]) + (if rs[|rs| - 1].score < 0 then 1 else 0)
  }

  /** The number of reviews scored exactly zero. */
  function CountZero(rs: seq<Review>): nat
  {
    if rs == [] then 0 else CountZero(rs[..|rs| - 1]) + (if rs[|rs| - 1].score == 0 then 1 else 0)
  }

  /** `summaryStats`: nothing without a profile, otherwise the total and the review counts. */
  function Summary(profile: Option<PersonProfile>): (r: Option<SummaryStats>)
    ensures r.None? <==> profile.None?
    ensures r.Some? ==> r.value.totalScore == profile.value.totalScore && r.value.reviewCount == |profile.value.reviews|
  {
    match profile
    case None => None
    case Some(p) => Some(SummaryStats(p.totalScore, |p.reviews|, CountPositive(p.reviews), CountNegative(p.reviews)))
  }

  /** Every review is positive, negative or zero, so the two counts never exceed the review count. */
  lemma {:induction false} CountsPartition(rs: seq<Review>)
    ensures CountPositive(rs) + CountNegative(rs) + CountZero(rs) == |rs|
  {
    if rs != [] {
      CountsPartition(rs[..|rs| - 1]);
    }
  }

  lemma SummaryCounts(profile: Option<PersonProfile>)
    requires profile.Some?
    ensures var s := Summary(profile).value;
      s.positiveReviews + s.negativeReviews <= s.reviewCount
    ensures var s := Summary(profile).value;
      s.positiveReviews + s.negativeReviews == s.reviewCount - CountZero(profile.value.reviews)
  {
    CountsPartition(profile.value.reviews);
  }

  /** Reviews scored zero are counted in neither group. */
  lemma {:induction false} ZeroScoresUncounted(rs: seq<Review>)
    requires forall i :: 0 <= i < |rs| ==> rs[i].score == 0
    ensures CountPositive(rs) == 0 && CountNegative(rs) == 0
  {
    if rs != [] {
      ZeroScoresUncounted(rs[..|rs| - 1]);
    }
  }

  /** `source === 'Badoo' && status === 'found'`. */
  predicate BadooFound(r: WebCheckResult)
  {
    r.source == "Badoo" && r.status == Some(Found)
  }

  /**
   * The comparator returns -1, 1 or 0 exactly as the difference of this key
   * does: 0 for a found Badoo result, 1 for every other result.
   */
  function BadooKey(r: WebCheckResult): int
  {
    if BadooFound(r) then 0 else 1
  }

  /** `[...results].sort(badooFirst)`, a stable sort. */
  function SortWebResults(results: seq<WebCheckResult>): seq<WebCheckResult>
  {
    Sorting.SortBy(results, BadooKey)
  }

  /**
   * The sorted list holds the same results; every found Badoo result comes
   * before every other result; and inside each of the two groups the input
   * order is kept.
   */
  lemma SortWebResultsSpec(results: seq<WebCheckResult>)
    ensures multiset(SortWebResults(results)) == multiset(results)
    ensures forall i, j :: 0 <= i < j < |SortWebResults(results)| && BadooFound(SortWebResults(results)[j]) ==>
      BadooFound(SortWebResults(results)[i])
    ensures SortWebResults(results) == Sorting.WithKey(results, BadooKey, 0) + Sorting.WithKey(results, BadooKey, 1)
  {
    var sorted := SortWebResults(results);
    Sorting.SortByPermutation(results, BadooKey);
    Sorting.SortBySorted(results, BadooKey);
    forall i, j | 0 <= i < j < |sorted| && BadooFound(sorted[j]) ensures BadooFound(sorted[i]) {
      assert BadooKey(sorted[i]) <= BadooKey(sorted[j]);
    }
    Sorting.SortedTwoKeys(sorted, BadooKey);
    Sorting.SortByStable(results, BadooKey, 0);
    Sorting.SortByStable(results, BadooKey, 1);
  }
}
