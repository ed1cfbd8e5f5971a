/**
 * The scoring rules of `getProfileByQuery`: every identifier of every stored
 * profile is scored against the query by four heuristics (exact, containment,
 * phonetic, fuzzy), the first identifier with the strictly highest score wins,
 * and its profile is returned when that score reaches the threshold 60.
 */
module Matcher {
  import opened Types
  import opened Text
  import Levenshtein
  import Phonetic

  const MATCH_THRESHOLD: real := 60.0

  /** `query.toLowerCase().trim().replace(/[\s._-]+/g, '')`, which agrees with the identifier normaliser. */
  function NormalizeQuery(query: string): (nq: string)
    ensures nq == Normalize(query)
  {
    StripSeparatorsTrim(Lower(query));
    StripSeparators(Trim(Lower(query)))
  }

  lemma RatioBounds(a: real, b: real)
    requires 0.0 <= a <= b && b > 0.0
    ensures 0.0 <= a / b <= 1.0
    ensures a / b == 1.0 <==> a == b
  {
  }

  /** Score 2: `70 + 25 * min(len) / max(len)`. */
  function ContainmentScore(nid: string, nq: string): (r: real)
    requires nq != ""
    ensures 70.0 <= r <= 95.0
    ensures r == 95.0 <==> |nid| == |nq|
    ensures nid == "" ==> r == 70.0
  {
    var lo := if |nid| <= |nq| then |nid| else |nq|;
    var hi := Levenshtein.Max(|nid|, |nq|);
    RatioBounds(lo as real, hi as real);
    70.0 + 25.0 * (lo as real / hi as real)
  }

  /** `1 - distance / longest`. */
  function SimilarityFrom(distance: nat, longest: nat): real
    requires longest > 0
  {
    1.0 - distance as real / longest as real
  }

  /** `1 - distance / max(len)`: 1 exactly for equal strings, never below 0. */
  function Similarity(nq: string, nid: string): (sim: real)
    requires nq != ""
    ensures 0.0 <= sim <= 1.0
    ensures sim == 1.0 <==> nq == nid
  {
    var d := Levenshtein.Distance(nq, nid);
    var m := Levenshtein.Max(|nq|, |nid|);
    Levenshtein.DistanceUpper(nq, nid);
    RatioBounds(d as real, m as real);
    Levenshtein.DistanceZeroIff(nq, nid);
    SimilarityFrom(d, m)
  }

  /** Score 1, pushed for an exact match of the normalised forms. */
  function ExactScore(nid: string, nq: string): (s: seq<real>)
    ensures forall x :: x in s ==> x == 100.0
    ensures 100.0 in s <==> nid == nq
  {
    if nid == nq then [100.0] else []
  }

  /** Score 2, pushed when either normalised form contains the other. */
  function PartialScore(nid: string, nq: string): (s: seq<real>)
    requires nq != ""
    ensures forall x :: x in s ==> 70.0 <= x <= 95.0
  {
    if Contains(nid, nq) || Contains(nq, nid) then [ContainmentScore(nid, nq)] else []
  }

  /** Score 3, pushed when the query's code is longer than 2 and equals the identifier's code. */
  function PhoneticScore(pq: string, id: string): (s: seq<real>)
    ensures forall x :: x in s ==> x == 80.0
  {
    if |pq| > 2 && Phonetic.Encode(id) == pq then [80.0] else []
  }

  /** Score 4, pushed when the similarity exceeds 0.75; it lies in (62.5, 70]. */
  function FuzzyScore(nq: string, nid: string): (s: seq<real>)
    requires nq != ""
    ensures forall x :: x in s ==> 62.5 < x <= 70.0
  {
    var sim := Similarity(nq, nid);
    if sim > 0.75 then [40.0 + 30.0 * sim] else []
  }

  /** The `scores` list of one identifier, in the order the four heuristics push into it. */
  function Scores(nq: string, pq: string, id: string): (scores: seq<real>)
    requires nq != ""
    ensures |scores| <= 4
    ensures forall x :: x in scores ==> 62.5 < x <= 100.0
    ensures 100.0 in scores <==> Normalize(id) == nq
  {
    var nid := Normalize(id);
    var e, c, p, f := ExactScore(nid, nq), PartialScore(nid, nq), PhoneticScore(pq, id), FuzzyScore(nq, nid);
    assert forall x :: x in e + c + p + f <==> x in e || x in c || x in p || x in f;
    e + c + p + f
  }

  /** Each heuristic contributes its score when its condition holds, and no other score appears. */
  lemma {:induction false} ScoresHeuristics(nq: string, pq: string, id: string)
    requires nq != ""
    ensures Contains(Normalize(id), nq) || Contains(nq, Normalize(id)) ==>
      ContainmentScore(Normalize(id), nq) in Scores(nq, pq, id)
    ensures |pq| > 2 && Phonetic.Encode(id) == pq ==> 80.0 in Scores(nq, pq, id)
    ensures Similarity(nq, Normalize(id)) > 0.75 ==>
      40.0 + 30.0 * Similarity(nq, Normalize(id)) in Scores(nq, pq, id)
    ensures forall x :: x in Scores(nq, pq, id) ==>
      || (x == 100.0 && Normalize(id) == nq)
      || (x == ContainmentScore(Normalize(id), nq) && (Contains(Normalize(id), nq) || Contains(nq, Normalize(id))))
      || (x == 80.0 && |pq| > 2 && Phonetic.Encode(id) == pq)
      || (x == 40.0 + 30.0 * Similarity(nq, Normalize(id)) && Similarity(nq, Normalize(id)) > 0.75)
  {
    var nid := Normalize(id);
    var e, c, p, f := ExactScore(nid, nq), PartialScore(nid, nq), PhoneticScore(pq, id), FuzzyScore(nq, nid);
    assert Scores(nq, pq, id) == e + c + p + f;
    assert forall x :: x in e + c + p + f <==> x in e || x in c || x in p || x in f;
  }

  lemma SimilarityIs(nq: string, nid: string)
    requires nq != ""
    ensures Similarity(nq, nid) == SimilarityFrom(Levenshtein.Distance(nq, nid), Levenshtein.Max(|nq|, |nid|))
  {
  }

  lemma ScoresParts(nq: string, pq: string, id: string)
    requires nq != ""
    ensures Scores(nq, pq, id) ==
      ExactScore(Normalize(id), nq) + PartialScore(Normalize(id), nq) + PhoneticScore(pq, id) + FuzzyScore(nq, Normalize(id))
  {
  }

  /** `Math.max(...scores)`. */
  function MaxOf(s: seq<real>): (m: real)
    requires s != []
    ensures m in s
    ensures forall x :: x in s ==> x <= m
  {
    if |s| == 1 then s[0]
    else
      var rest := MaxOf(s[..|s| - 1]);
      assert forall x :: x in s ==> x in s[..|s| - 1] || x == s[|s| - 1];
      if s[|s| - 1] > rest then s[|s| - 1] else rest
  }

  /** `currentScore`: the best heuristic score of one identifier, or 0 when none applies. */
  function IdentifierScore(nq: string, pq: string, id: string): (r: real)
    requires nq != ""
    ensures r == 0.0 || 62.5 < r <= 100.0
    ensures r == 100.0 <==> Normalize(id) == nq
    ensures r > 0.0 <==> Scores(nq, pq, id) != []
    ensures forall x :: x in Scores(nq, pq, id) ==> x <= r
  {
    var scores := Scores(nq, pq, id);
    if scores != [] then MaxOf(scores) else 0.0
  }

  /** Score 4 as the inner loop computes it, running the matrix Levenshtein. */
  method FuzzyHeuristic(nq: string, normalizedId: string) returns (pushed: seq<real>)
    requires nq != ""
    ensures pushed == FuzzyScore(nq, normalizedId)
  {
    var distance := Levenshtein.LevenshteinDistance(nq, normalizedId);
    var similarity := SimilarityFrom(distance, Levenshtein.Max(|nq|, |normalizedId|));
    SimilarityIs(nq, normalizedId);
    pushed := if similarity > 0.75 then [40.0 + 30.0 * similarity] else [];
  }

  /**
   * The body of the inner loop of `getProfileByQuery`: collect the applicable
   * heuristic scores in push order and take their maximum.
   */
  method ScoreIdentifier(nq: string, pq: string, id: string) returns (currentScore: real)
    requires nq != ""
    ensures currentScore == IdentifierScore(nq, pq, id)
  {
    var normalizedId := StripSeparators(Lower(id));
    var scores := ExactScore(normalizedId, nq) + PartialScore(normalizedId, nq) + PhoneticScore(pq, id);
    var fuzzy := FuzzyHeuristic(nq, normalizedId);
    scores := scores + fuzzy;
    ScoresParts(nq, pq, id);
    currentScore := if |scores| > 0 then MaxOf(scores) else 0.0;
  }

  /** One scored identifier, tagged with the index of its profile in the store. */
  datatype Candidate = Candidate(profile: nat, score: real)

  /** `bestMatch`: the profile index (null while none) and its score. */
  datatype Best = Best(profile: Option<nat>, score: real)

  /** The identifier score for one query: `currentScore` as a function of the identifier. */
  function ScoreFor(nq: string, pq: string): (score: string -> real)
    requires nq != ""
    ensures forall id :: score(id) == IdentifierScore(nq, pq, id)
  {
    id => IdentifierScore(nq, pq, id)
  }

  /*
   * The scan over the nested loops is stated for any identifier score, so that
   * the facts about the four heuristics stay out of the reasoning about order.
   */

  /** The scores of one profile's identifiers, in identifier order. */
  function IdCandidates(score: string -> real, k: nat, ids: seq<string>): seq<Candidate>
  {
    seq(|ids|, j requires 0 <= j < |ids| => Candidate(k, score(ids[j])))
  }

  /** Every identifier of every profile, scored, in the order the nested loops visit them. */
  function Candidates(score: string -> real, profiles: seq<PersonProfile>): seq<Candidate>
  {
    if profiles == [] then []
    else
      var n := |profiles| - 1;
      Candidates(score, profiles[..n]) + IdCandidates(score, n, profiles[n].identifiers)
  }

  /** `c` is the score of some identifier of profile `c.profile`. */
  predicate ScoredIdentifier(score: string -> real, profiles: seq<PersonProfile>, c: Candidate)
  {
    c.profile < |profiles| &&
    exists id :: id in profiles[c.profile].identifiers && c.score == score(id)
  }

  /** The candidate list enumerates exactly the scored identifiers, grouped by profile in store order. */
  lemma {:induction false} CandidatesShape(score: string -> real, profiles: seq<PersonProfile>)
    ensures forall i :: 0 <= i < |Candidates(score, profiles)| ==>
      ScoredIdentifier(score, profiles, Candidates(score, profiles)[i])
    ensures forall k, id :: 0 <= k < |profiles| && id in profiles[k].identifiers ==>
      Candidate(k, score(id)) in Candidates(score, profiles)
    ensures forall i, j :: 0 <= i <= j < |Candidates(score, profiles)| ==>
      Candidates(score, profiles)[i].profile <= Candidates(score, profiles)[j].profile
  {
    if profiles != [] {
      var n := |profiles| - 1;
      var init := profiles[..n];
      CandidatesShape(score, init);
      var pre := Candidates(score, init);
      var last := IdCandidates(score, n, profiles[n].identifiers);
      var cs := pre + last;
      assert Candidates(score, profiles) == cs;
      forall i | 0 <= i < |cs|
        ensures ScoredIdentifier(score, profiles, cs[i])
      {
        if i < |pre| {
          assert cs[i] == pre[i];
          assert ScoredIdentifier(score, init, pre[i]);
          assert init[pre[i].profile] == profiles[pre[i].profile];
        } else {
          var j := i - |pre|;
          assert cs[i] == last[j];
          assert profiles[n].identifiers[j] in profiles[n].identifiers;
        }
      }
      forall k, id | 0 <= k < |profiles| && id in profiles[k].identifiers
        ensures Candidate(k, score(id)) in cs
      {
        if k < n {
          assert init[k] == profiles[k];
        } else {
          var j :| 0 <= j < |profiles[n].identifiers| && profiles[n].identifiers[j] == id;
          assert cs[|pre| + j] == last[j];
        }
      }
      forall i, j | 0 <= i <= j < |cs| ensures cs[i].profile <= cs[j].profile {
        if j < |pre| {
          assert cs[i] == pre[i] && cs[j] == pre[j];
        } else if i < |pre| {
          assert cs[i] == pre[i];
          assert ScoredIdentifier(score, init, pre[i]);
        }
      }
    }
  }

  /** One iteration of the inner loop: only a strictly larger score replaces the best match. */
  function Step(b: Best, c: Candidate): Best
  {
    if c.score > b.score then Best(Some(c.profile), c.score) else b
  }

  /** The best match after visiting the given candidates, starting from `{ profile: null, score: 0 }`. */
  function Scan(cs: seq<Candidate>): Best
  {
    if cs == [] then Best(None, 0.0) else Step(Scan(cs[..|cs| - 1]), cs[|cs| - 1])
  }

  /** `cs[i]` is the first candidate that reaches the score of `b`, and it is `b`'s profile. */
  predicate FirstAt(cs: seq<Candidate>, i: int, b: Best)
  {
    && b.profile.Some?
    && 0 <= i < |cs|
    && cs[i] == Candidate(b.profile.value, b.score)
    && forall j :: 0 <= j < i ==> cs[j].score < b.score
  }

  /** The scan keeps the maximum score, and the first candidate that reaches it when it is positive. */
  lemma {:induction false} ScanFacts(cs: seq<Candidate>)
    ensures Scan(cs).score >= 0.0
    ensures forall i :: 0 <= i < |cs| ==> cs[i].score <= Scan(cs).score
    ensures Scan(cs).profile.None? ==> Scan(cs).score == 0.0
    ensures Scan(cs).profile.Some? ==> Scan(cs).score > 0.0 && exists i :: FirstAt(cs, i, Scan(cs))
  {
    if cs != [] {
      var pre := cs[..|cs| - 1];
      ScanFacts(pre);
      var b0 := Scan(pre);
      var c := cs[|cs| - 1];
      assert forall j :: 0 <= j < |cs| - 1 ==> cs[j] == pre[j];
      if c.score > b0.score {
        assert FirstAt(cs, |cs| - 1, Scan(cs));
      } else if b0.profile.Some? {
        var i :| FirstAt(pre, i, b0);
        assert FirstAt(cs, i, Scan(cs));
      }
    }
  }

  /** When the scan picks a profile, it is the candidate of some identifier of that profile. */
  lemma {:induction false} ScanPicksScored(score: string -> real, profiles: seq<PersonProfile>)
    requires Scan(Candidates(score, profiles)).profile.Some?
    ensures Scan(Candidates(score, profiles)).profile.value < |profiles|
    ensures ScoredIdentifier(score, profiles, Candidate(Scan(Candidates(score, profiles)).profile.value,
                                                        Scan(Candidates(score, profiles)).score))
  {
    var cs := Candidates(score, profiles);
    CandidatesShape(score, profiles);
    ScanFacts(cs);
    var i :| FirstAt(cs, i, Scan(cs));
    assert ScoredIdentifier(score, profiles, cs[i]);
  }

  lemma {:induction false} ScanInRange(score: string -> real, profiles: seq<PersonProfile>)
    ensures Scan(Candidates(score, profiles)).profile.Some? ==>
      Scan(Candidates(score, profiles)).profile.value < |profiles|
  {
    if Scan(Candidates(score, profiles)).profile.Some? {
      ScanPicksScored(score, profiles);
    }
  }

  lemma {:induction false} ScanSnoc(cs: seq<Candidate>, c: Candidate)
    ensures Scan(cs + [c]) == Step(Scan(cs), c)
  {
    assert (cs + [c])[..|cs|] == cs;
  }

  lemma {:induction false} CandidatesSnoc(score: string -> real, profiles: seq<PersonProfile>, i: nat)
    requires i < |profiles|
    ensures Candidates(score, profiles[..i + 1]) ==
      Candidates(score, profiles[..i]) + IdCandidates(score, i, profiles[i].identifiers)
  {
    assert profiles[..i + 1][..i] == profiles[..i];
  }

  lemma VisitIdentifier(done: seq<Candidate>, cs: seq<Candidate>, j: nat)
    requires j < |cs|
    ensures Scan(done + cs[..j + 1]) == Step(Scan(done + cs[..j]), cs[j])
  {
    assert cs[..j + 1] == cs[..j] + [cs[j]];
    assert done + cs[..j + 1] == (done + cs[..j]) + [cs[j]];
    ScanSnoc(done + cs[..j], cs[j]);
  }

  /**
   * The nested loops of `getProfileByQuery`: every identifier of every
   * profile is scored in turn, and a strictly higher score replaces the best
   * match found so far.
   */
  method BestMatch(normalizedQuery: string, phoneticQuery: string, profiles: seq<PersonProfile>)
    returns (bestProfile: Option<nat>, bestScore: real)
    requires normalizedQuery != ""
    ensures Best(bestProfile, bestScore) == Scan(Candidates(ScoreFor(normalizedQuery, phoneticQuery), profiles))
  {
    ghost var score := ScoreFor(normalizedQuery, phoneticQuery);
    bestProfile, bestScore := None, 0.0;
    for i := 0 to |profiles|
      invariant Best(bestProfile, bestScore) == Scan(Candidates(score, profiles[..i]))
    {
      var ids := profiles[i].identifiers;
      ghost var done := Candidates(score, profiles[..i]);
      ghost var scored := IdCandidates(score, i, ids);
      assert done + scored[..0] == done;
      for j := 0 to |ids|
        invariant Best(bestProfile, bestScore) == Scan(done + scored[..j])
      {
        var currentScore := ScoreIdentifier(normalizedQuery, phoneticQuery, ids[j]);
        assert scored[j] == Candidate(i, currentScore);
        VisitIdentifier(done, scored, j);
        if currentScore > bestScore {
          bestProfile, bestScore := Some(i), currentScore;
        }
      }
      assert scored[..|ids|] == scored;
      CandidatesSnoc(score, profiles, i);
    }
    assert profiles[..|profiles|] == profiles;
  }

  /** `getProfileByQuery` without the Instagram enrichment: the index of the matched profile, if any. */
  function MatchIndex(query: string, profiles: seq<PersonProfile>): (r: Option<nat>)
    ensures r.Some? ==> r.value < |profiles|
  {
    var nq := NormalizeQuery(query);
    if nq == "" then None
    else
      var score := ScoreFor(nq, Phonetic.Encode(query));
      var cs := Candidates(score, profiles);
      ScanInRange(score, profiles);
      if Scan(cs).score >= MATCH_THRESHOLD then Scan(cs).profile else None
  }

  /** The profile `getProfileByQuery` returns. */
  function MatchQuery(query: string, profiles: seq<PersonProfile>): Option<PersonProfile>
  {
    match MatchIndex(query, profiles)
    case None => None
    case Some(k) => Some(profiles[k])
  }

  /** What `getProfileByQuery` returns, from the outcome of its nested loops. */
  lemma {:induction false} MatchQueryFromScan(query: string, profiles: seq<PersonProfile>, b: Best)
    requires NormalizeQuery(query) != ""
    requires b == Scan(Candidates(ScoreFor(NormalizeQuery(query), Phonetic.Encode(query)), profiles))
    ensures b.profile.Some? ==> b.profile.value < |profiles|
    ensures MatchQuery(query, profiles) ==
      if b.score >= MATCH_THRESHOLD && b.profile.Some? then Some(profiles[b.profile.value]) else None
  {
    ScanInRange(ScoreFor(NormalizeQuery(query), Phonetic.Encode(query)), profiles);
  }

  /** Some identifier of some profile gets a positive score. */
  predicate AnyPositive(score: string -> real, profiles: seq<PersonProfile>)
  {
    exists k, id :: 0 <= k < |profiles| && id in profiles[k].identifiers && score(id) > 0.0
  }

  /**
   * Identifier `id` of profile `k` has the highest score of all, and every
   * identifier of an earlier profile scores strictly less.
   */
  predicate BestAt(score: string -> real, profiles: seq<PersonProfile>, k: nat, id: string)
  {
    && k < |profiles| && id in profiles[k].identifiers
    && (forall k', id' :: 0 <= k' < |profiles| && id' in profiles[k'].identifiers ==> score(id') <= score(id))
    && (forall k', id' :: 0 <= k' < k && id' in profiles[k'].identifiers ==> score(id') < score(id))
  }

  /** When every score is 0 or above `floor`, a picked profile's score is above `floor`. */
  lemma {:induction false} ScanClearsThreshold(score: string -> real, profiles: seq<PersonProfile>, floor: real)
    requires forall id :: score(id) == 0.0 || score(id) > floor
    ensures Scan(Candidates(score, profiles)).profile.Some? ==> Scan(Candidates(score, profiles)).score > floor
  {
    var b := Scan(Candidates(score, profiles));
    if b.profile.Some? {
      ScanFacts(Candidates(score, profiles));
      ScanPicksScored(score, profiles);
      var id :| id in profiles[b.profile.value].identifiers && b.score == score(id);
    }
  }

  /** The scan picks a profile exactly when some identifier scores above 0. */
  lemma {:induction false} ScanPicksIffPositive(score: string -> real, profiles: seq<PersonProfile>)
    ensures Scan(Candidates(score, profiles)).profile.Some? <==> AnyPositive(score, profiles)
  {
    var cs := Candidates(score, profiles);
    CandidatesShape(score, profiles);
    ScanFacts(cs);
    if Scan(cs).profile.Some? {
      ScanPicksScored(score, profiles);
      var k := Scan(cs).profile.value;
      var id :| id in profiles[k].identifiers && Scan(cs).score == score(id);
    }
  }

  /** In a list grouped by profile, no candidate beats the first best one, and earlier profiles fall short of it. */
  lemma {:induction false} FirstIsEarliestBest(cs: seq<Candidate>, i: int, b: Best, c: Candidate)
    requires FirstAt(cs, i, b)
    requires forall j :: 0 <= j < |cs| ==> cs[j].score <= b.score
    requires forall x, y :: 0 <= x <= y < |cs| ==> cs[x].profile <= cs[y].profile
    requires c in cs
    ensures c.score <= b.score
    ensures c.profile < b.profile.value ==> c.score < b.score
  {
    var j :| 0 <= j < |cs| && cs[j] == c;
    assert j >= i ==> cs[i].profile <= cs[j].profile;
  }

  /** No identifier scores above the scan's pick, and identifiers of earlier profiles score below it. */
  lemma {:induction false} ScanBounds(score: string -> real, profiles: seq<PersonProfile>)
    requires Scan(Candidates(score, profiles)).profile.Some?
    ensures forall k', id' :: 0 <= k' < |profiles| && id' in profiles[k'].identifiers ==>
      score(id') <= Scan(Candidates(score, profiles)).score
    ensures forall k', id' ::
      (0 <= k' < |profiles| && k' < Scan(Candidates(score, profiles)).profile.value && id' in profiles[k'].identifiers) ==>
      score(id') < Scan(Candidates(score, profiles)).score
  {
    var cs := Candidates(score, profiles);
    var b := Scan(cs);
    CandidatesShape(score, profiles);
    ScanFacts(cs);
    var i :| FirstAt(cs, i, b);
    forall k', id' | 0 <= k' < |profiles| && id' in profiles[k'].identifiers
      ensures score(id') <= b.score
      ensures k' < b.profile.value ==> score(id') < b.score
    {
      FirstIsEarliestBest(cs, i, b, Candidate(k', score(id')));
    }
  }

  /** The profile the scan picks holds a best-scoring identifier, and no earlier profile reaches that score. */
  lemma {:induction false} ScanPicksFirstBest(score: string -> real, profiles: seq<PersonProfile>)
    requires Scan(Candidates(score, profiles)).profile.Some?
    ensures exists id :: BestAt(score, profiles, Scan(Candidates(score, profiles)).profile.value, id)
  {
    var b := Scan(Candidates(score, profiles));
    ScanPicksScored(score, profiles);
    ScanBounds(score, profiles);
    var k := b.profile.value;
    var id :| id in profiles[k].identifiers && b.score == score(id);
    assert BestAt(score, profiles, k, id);
  }

  /**
   * The matcher's decision: nothing for a query that normalises to "", a
   * profile exactly when some identifier scores above 0 (every such score
   * clears the threshold), and then the first profile holding a best-scoring
   * identifier.
   */
  lemma {:induction false} MatchIndexSpec(query: string, profiles: seq<PersonProfile>)
    ensures Normalize(query) == "" ==> MatchIndex(query, profiles) == None
    ensures Normalize(query) != "" ==>
      (MatchIndex(query, profiles).Some? <==> AnyPositive(ScoreFor(Normalize(query), Phonetic.Encode(query)), profiles))
    ensures Normalize(query) != "" && MatchIndex(query, profiles).Some? ==>
      exists id :: BestAt(ScoreFor(Normalize(query), Phonetic.Encode(query)), profiles, MatchIndex(query, profiles).value, id)
  {
    var nq, pq := Normalize(query), Phonetic.Encode(query);
    if nq != "" {
      var score := ScoreFor(nq, pq);
      var b := Scan(Candidates(score, profiles));
      assert MatchIndex(query, profiles) == if b.score >= MATCH_THRESHOLD then b.profile else None;
      ScanClearsThreshold(score, profiles, 62.5);
      ScanPicksIffPositive(score, profiles);
      if b.profile.Some? {
        ScanPicksFirstBest(score, profiles);
      }
    }
  }

  /**
   * A query with an exact identifier match returns the first profile that
   * holds one: exact matches score 100, which nothing else reaches.
   */
  lemma {:induction false} ExactMatchWins(query: string, profiles: seq<PersonProfile>, k: nat, id: string)
    requires Normalize(query) != ""
    requires k < |profiles| && id in profiles[k].identifiers && Normalize(id) == Normalize(query)
    requires forall k', id' :: 0 <= k' < k && id' in profiles[k'].identifiers ==> Normalize(id') != Normalize(query)
    ensures MatchIndex(query, profiles) == Some(k)
  {
    var nq, pq := Normalize(query), Phonetic.Encode(query);
    var score := ScoreFor(nq, pq);
    MatchIndexSpec(query, profiles);
    assert score(id) == 100.0;
    assert AnyPositive(score, profiles);
    var w := MatchIndex(query, profiles).value;
    var best :| BestAt(score, profiles, w, best);
    assert score(best) == 100.0;
    assert Normalize(best) == nq;
  }
}
