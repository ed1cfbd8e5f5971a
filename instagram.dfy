/**
 * The mock Instagram search: the spelling variants built from a query, the
 * fixed list of mock accounts with their deterministic avatars, and the
 * filter that keeps every account matched by some variant.
 */
module Instagram {
  import opened Types
  import opened Text

  // ---------------------------------------------------------------- variants

  /** `Set.add`: a value already present is not added again, so insertion order is kept. */
  function AddVariant(vs: seq<string>, v: string): (r: seq<string>)
    ensures v in r
    ensures forall x :: x in r <==> x in vs || x == v
    ensures NoDuplicates(vs) ==> NoDuplicates(r)
  {
    if v in vs then vs else vs + [v]
  }

  predicate NoDuplicates(vs: seq<string>)
  {
    forall i, j :: 0 <= i < j < |vs| ==> vs[i] != vs[j]
  }

  /** `/^([a-zA-Z]+)(\d+)$/`: letters, then at least one digit up to the end. */
  predicate NameNumber(nq: string)
  {
    var name := LetterPrefix(nq);
    name != "" && |name| < |nq| && forall i :: |name| <= i < |nq| ==> IsAsciiDigit(nq[i])
  }

  /** The four name/number spellings of a query matching `NameNumber`. */
  function NameNumberVariants(nq: string): (r: seq<string>)
    ensures |r| == 4
  {
    var name := LetterPrefix(nq);
    var number := nq[|name|..];
    [name + "." + number, name + "_" + number, name + "-" + number, name + number]
  }

  /**
   * The rewrites of the first separator family present, `.` before `_`
   * before `-`: the family's character removed, or replaced by each of the
   * other two.
   */
  function SeparatorVariants(oq: string): (r: seq<string>)
    ensures |r| <= 3
    ensures '.' in oq ==> |r| == 3 && forall v :: v in r ==> '.' !in v
    ensures '.' !in oq && '_' in oq ==> |r| == 3 && forall v :: v in r ==> '_' !in v
    ensures '.' !in oq && '_' !in oq && '-' in oq ==> |r| == 3 && forall v :: v in r ==> '-' !in v
    ensures '.' !in oq && '_' !in oq && '-' !in oq ==> r == []
  {
    if '.' in oq then [ReplaceAll(oq, '.', ""), ReplaceAll(oq, '.', "_"), ReplaceAll(oq, '.', "-")]
    else if '_' in oq then [ReplaceAll(oq, '_', ""), ReplaceAll(oq, '_', "."), ReplaceAll(oq, '_', "-")]
    else if '-' in oq then [ReplaceAll(oq, '-', ""), ReplaceAll(oq, '-', "."), ReplaceAll(oq, '-', "_")]
    else []
  }

  /** Only one family is rewritten: with a `.` present, every `_` and `-` of the query survives. */
  lemma DotTakesPriority(oq: string)
    requires '.' in oq
    ensures '_' in oq ==> forall v :: v in SeparatorVariants(oq) ==> '_' in v
    ensures '-' in oq ==> forall v :: v in SeparatorVariants(oq) ==> '-' in v
  {
    if '_' in oq {
      ReplaceAllKeeps(oq, '.', "", '_');
      ReplaceAllKeeps(oq, '.', "_", '_');
      ReplaceAllKeeps(oq, '.', "-", '_');
    }
    if '-' in oq {
      ReplaceAllKeeps(oq, '.', "", '-');
      ReplaceAllKeeps(oq, '.', "_", '-');
      ReplaceAllKeeps(oq, '.', "-", '-');
    }
  }

  /** With no `.` but a `_`, every `-` survives. */
  lemma UnderscoreBeforeDash(oq: string)
    requires '.' !in oq && '_' in oq && '-' in oq
    ensures forall v :: v in SeparatorVariants(oq) ==> '-' in v
  {
    ReplaceAllKeeps(oq, '_', "", '-');
    ReplaceAllKeeps(oq, '_', ".", '-');
    ReplaceAllKeeps(oq, '_', "-", '-');
  }

  function OriginalQuery(query: string): string { Trim(Lower(query)) }

  /** `searchVariants`, in the order the set receives its members. */
  function SearchVariants(query: string): (vs: seq<string>)
    ensures NoDuplicates(vs)
    ensures OriginalQuery(query) in vs && StripSeparators(OriginalQuery(query)) in vs
    ensures NameNumber(StripSeparators(OriginalQuery(query))) ==>
      forall v :: v in NameNumberVariants(StripSeparators(OriginalQuery(query))) ==> v in vs
    ensures LetterPrefix(OriginalQuery(query)) != "" ==> LetterPrefix(OriginalQuery(query)) in vs
    ensures forall v :: v in SeparatorVariants(OriginalQuery(query)) ==> v in vs
    ensures forall v :: v in vs ==>
      || v == OriginalQuery(query)
      || v == StripSeparators(OriginalQuery(query))
      || (NameNumber(StripSeparators(OriginalQuery(query))) && v in NameNumberVariants(StripSeparators(OriginalQuery(query))))
      || (LetterPrefix(OriginalQuery(query)) != "" && v == LetterPrefix(OriginalQuery(query)))
      || v in SeparatorVariants(OriginalQuery(query))
  {
    var oq := OriginalQuery(query);
    var nq := StripSeparators(oq);
    var base := AddVariant(AddVariant([], oq), nq);
    var withNumber := if NameNumber(nq) then AddAll(base, NameNumberVariants(nq)) else base;
    var withPrefix := if LetterPrefix(oq) != "" then AddVariant(withNumber, LetterPrefix(oq)) else withNumber;
    AddAll(withPrefix, SeparatorVariants(oq))
  }

  /** Adding each value in turn. */
  function AddAll(vs: seq<string>, more: seq<string>): (r: seq<string>)
    ensures forall x :: x in r <==> x in vs || x in more
    ensures NoDuplicates(vs) ==> NoDuplicates(r)
    decreases |more|
  {
    if more == [] then vs else AddAll(AddVariant(vs, more[0]), more[1..])
  }

  // ---------------------------------------------------------------- mock accounts

  const AVATAR_BASE := "https://xsgames.co/randomusers/assets/avatars/"

  /** `hash % 2 === 0 ? 'male' : 'female'`, over the character-code sum of the username. */
  function AvatarGender(username: string): (g: string)
    ensures g == "male" || g == "female"
    ensures g == "male" <==> CharCodeSum(username) % 2 == 0
  {
    if CharCodeSum(username) % 2 == 0 then "male" else "female"
  }

  /** `hash % 70`. */
  function AvatarId(username: string): (id: nat)
    ensures id < 70
    ensures (CharCodeSum(username) - id) % 70 == 0
  {
    CharCodeSum(username) % 70
  }

  /** `getDeterministicProfilePic`. */
  function DeterministicProfilePic(username: string): string
  {
    AVATAR_BASE + AvatarGender(username) + "/" + DecimalString(AvatarId(username)) + ".jpg"
  }

  /** The picture depends only on the characters: swapping two parts of a username keeps it. */
  lemma SwappedPartsSamePic(a: string, b: string)
    ensures DeterministicProfilePic(a + b) == DeterministicProfilePic(b + a)
  {
    CharCodeSumAppend(a, b);
    CharCodeSumAppend(b, a);
  }

  datatype MockAccount = MockAccount(username: string, profilePicUrl: Option<string>, fullName: string)

  /** `allMockProfilesData`. */
  const MOCK_ACCOUNTS: seq<MockAccount> := [
    MockAccount("anita.perez95", None, "Anita P\U{E9}rez"),
    MockAccount("ana_perez_art", None, "Ana P\U{E9}rez | Artista"),
    MockAccount("charlyg", None, "Carlos G\U{F3}mez"),
    MockAccount("sofilu", None, "Sofia Luna"),
    MockAccount("anaperez95", None, "Ana Perez - Gamer"),
    MockAccount("nicobattaglia.33", Some("https://i.imgur.com/7Y25aL9.jpeg"), "Nico Battaglia"),
    MockAccount("nicobattaglia_33", None, "Nico Battaglia"),
    MockAccount("nicobattaglia-33", None, "Nico Battaglia"),
    MockAccount("nicobattaglia", None, "Nico B.")
  ]

  /** An account as a search result: its own picture, or the deterministic avatar. */
  function AsResult(a: MockAccount): (r: InstagramSearchResult)
    ensures r.username == a.username && r.fullName == a.fullName
    ensures Truthy(a.profilePicUrl) ==> r.profilePicUrl == a.profilePicUrl.value
    ensures !Truthy(a.profilePicUrl) ==> r.profilePicUrl == DeterministicProfilePic(a.username)
  {
    InstagramSearchResult(a.username,
      if Truthy(a.profilePicUrl) then a.profilePicUrl.value else DeterministicProfilePic(a.username),
      a.fullName)
  }

  /** `allMockProfiles`. */
  function MockProfiles(): (ps: seq<InstagramSearchResult>)
    ensures |ps| == |MOCK_ACCOUNTS|
    ensures forall i :: 0 <= i < |ps| ==> ps[i] == AsResult(MOCK_ACCOUNTS[i])
  {
    seq(|MOCK_ACCOUNTS|, i requires 0 <= i < |MOCK_ACCOUNTS| => AsResult(MOCK_ACCOUNTS[i]))
  }

  predicate DistinctUsernames(ps: seq<InstagramSearchResult>)
  {
    forall i, j :: 0 <= i < j < |ps| ==> ps[i].username != ps[j].username
  }

  lemma MockUsernamesDistinct()
    ensures DistinctUsernames(MockProfiles())
  {
    var ps := MockProfiles();
    forall i, j | 0 <= i < j < |ps| ensures ps[i].username != ps[j].username {
      assert ps[i].username == MOCK_ACCOUNTS[i].username && ps[j].username == MOCK_ACCOUNTS[j].username;
      UsernamesDiffer(i, j);
    }
  }

  lemma UsernamesDiffer(i: nat, j: nat)
    requires i < j < |MOCK_ACCOUNTS|
    ensures MOCK_ACCOUNTS[i].username != MOCK_ACCOUNTS[j].username
  {
    var u, w := MOCK_ACCOUNTS[i].username, MOCK_ACCOUNTS[j].username;
    if |u| == |w| {
      if 5 <= i {
        assert u[13] != w[13];
      } else if i == 0 {
        assert u[3] != w[3];
      }
    }
  }

  // ---------------------------------------------------------------- matching

  /** The three tests of the inner loop, for one username and one variant. */
  predicate VariantMatches(username: string, variant: string)
  {
    var originalUsername := Lower(username);
    var normalizedUsername := StripSeparators(originalUsername);
    || originalUsername == variant
    || Contains(normalizedUsername, StripSeparators(variant))
    || Contains(originalUsername, variant)
  }

  predicate AnyVariantMatches(username: string, vs: seq<string>)
  {
    exists k :: 0 <= k < |vs| && VariantMatches(username, vs[k])
  }

  /** The accounts `keep` accepts, in list order. */
  function Filter(ps: seq<InstagramSearchResult>, keep: InstagramSearchResult -> bool): (r: seq<InstagramSearchResult>)
    ensures |r| <= |ps|
    ensures forall p :: p in r ==> p in ps && keep(p)
  {
    if ps == [] then []
    else
      var rest := Filter(ps[..|ps| - 1], keep);
      var p := ps[|ps| - 1];
      if keep(p) then rest + [p] else rest
  }

  /** The test of the loop body for one account: some variant matches its username. */
  function MatchesSome(vs: seq<string>): InstagramSearchResult -> bool
  {
    (p: InstagramSearchResult) => AnyVariantMatches(p.username, vs)
  }

  /** The accounts matched by some variant, in list order. */
  function Matching(vs: seq<string>, ps: seq<InstagramSearchResult>): seq<InstagramSearchResult>
  {
    Filter(ps, MatchesSome(vs))
  }

  /** Every account `keep` accepts is in the result. */
  lemma {:induction false} FilterComplete(ps: seq<InstagramSearchResult>, keep: InstagramSearchResult -> bool, i: nat)
    requires i < |ps| && keep(ps[i])
    ensures ps[i] in Filter(ps, keep)
  {
    var n := |ps| - 1;
    if i < n {
      assert ps[..n][i] == ps[i];
      FilterComplete(ps[..n], keep, i);
    }
  }

  /** An account is in the result exactly when some variant matches it. */
  lemma MatchingExactly(vs: seq<string>, ps: seq<InstagramSearchResult>, i: nat)
    requires i < |ps|
    ensures ps[i] in Matching(vs, ps) <==> AnyVariantMatches(ps[i].username, vs)
  {
    if AnyVariantMatches(ps[i].username, vs) {
      FilterComplete(ps, MatchesSome(vs), i);
    }
  }

  /** Distinct usernames stay distinct: no account is listed twice. */
  lemma {:induction false} FilterDistinct(ps: seq<InstagramSearchResult>, keep: InstagramSearchResult -> bool)
    requires DistinctUsernames(ps)
    ensures DistinctUsernames(Filter(ps, keep))
  {
    if ps != [] {
      var n := |ps| - 1;
      var init := ps[..n];
      assert DistinctUsernames(init) by {
        forall i, j | 0 <= i < j < n ensures init[i].username != init[j].username {
          assert init[i] == ps[i] && init[j] == ps[j];
        }
      }
      FilterDistinct(init, keep);
      var rest := Filter(init, keep);
      forall q | q in rest ensures q.username != ps[n].username {
        var k :| 0 <= k < n && init[k] == q;
        assert ps[k] == q;
      }
    }
  }

  /** The position of the entry with the given username, if any. */
  function IndexOfUsername(found: seq<InstagramSearchResult>, username: string, from: nat): (r: Option<nat>)
    requires from <= |found|
    ensures r.Some? ==> from <= r.value < |found| && found[r.value].username == username
    ensures r.None? ==> forall i :: from <= i < |found| ==> found[i].username != username
    decreases |found| - from
  {
    if from == |found| then None
    else if found[from].username == username then Some(from)
    else IndexOfUsername(found, username, from + 1)
  }

  /** `foundProfiles.set(p.username, p)`: replace the entry with that key in place, or append a new one. */
  function MapSet(found: seq<InstagramSearchResult>, p: InstagramSearchResult): (r: seq<InstagramSearchResult>)
    ensures (forall i :: 0 <= i < |found| ==> found[i].username != p.username) ==> r == found + [p]
    ensures p in r
  {
    match IndexOfUsername(found, p.username, 0)
    case Some(i) =>
      assert found[i := p][i] == p;
      found[i := p]
    case None => found + [p]
  }

  /** The inner `for…of` over the variants, leaving at the first one that matches. */
  method Visit(found: seq<InstagramSearchResult>, p: InstagramSearchResult, vs: seq<string>)
    returns (updated: seq<InstagramSearchResult>)
    ensures AnyVariantMatches(p.username, vs) ==> updated == MapSet(found, p)
    ensures !AnyVariantMatches(p.username, vs) ==> updated == found
  {
    updated := found;
    var normalizedUsername := StripSeparators(Lower(p.username));
    var originalUsername := Lower(p.username);
    for k := 0 to |vs|
      invariant updated == found
      invariant forall m :: 0 <= m < k ==> !VariantMatches(p.username, vs[m])
    {
      var variant := vs[k];
      if originalUsername == variant {
        updated := MapSet(updated, p);
        return;
      } else if Contains(normalizedUsername, StripSeparators(variant)) {
        updated := MapSet(updated, p);
        return;
      } else if Contains(originalUsername, variant) {
        updated := MapSet(updated, p);
        return;
      }
    }
  }

  /**
   * The outer `for…of` over the accounts: every account that some variant
   * matches, once each, in list order.
   */
  method CollectMatches(vs: seq<string>, ps: seq<InstagramSearchResult>) returns (found: seq<InstagramSearchResult>)
    requires DistinctUsernames(ps)
    ensures found == Matching(vs, ps)
    ensures DistinctUsernames(found)
  {
    found := [];
    for i := 0 to |ps|
      invariant found == Matching(vs, ps[..i])
    {
      MatchingStep(vs, ps, i);
      found := Visit(found, ps[i], vs);
    }
    assert ps[..|ps|] == ps;
    FilterDistinct(ps, MatchesSome(vs));
  }

  /**
   * `searchInstagramProfiles`: every mock account that some variant of the
   * query matches, once each, in list order.
   */
  method SearchInstagramProfiles(query: string) returns (results: seq<InstagramSearchResult>)
    ensures results == Matching(SearchVariants(query), MockProfiles())
    ensures forall r :: r in results ==> r in MockProfiles() && AnyVariantMatches(r.username, SearchVariants(query))
    ensures DistinctUsernames(results)
  {
    var searchVariants := SearchVariants(query);
    var allMockProfiles := MockProfiles();
    MockUsernamesDistinct();
    results := CollectMatches(searchVariants, allMockProfiles);
  }

  /**
   * One account further: the matches grow by that account exactly when some
   * variant matches it, and the map insertion then appends it.
   */
  lemma MatchingStep(vs: seq<string>, ps: seq<InstagramSearchResult>, i: nat)
    requires i < |ps| && DistinctUsernames(ps)
    ensures MapSet(Matching(vs, ps[..i]), ps[i]) == Matching(vs, ps[..i]) + [ps[i]]
    ensures Matching(vs, ps[..i + 1]) ==
      if AnyVariantMatches(ps[i].username, vs) then Matching(vs, ps[..i]) + [ps[i]] else Matching(vs, ps[..i])
  {
    FreshUsername(vs, ps, i);
    assert ps[..i + 1][..i] == ps[..i];
  }

  /** Before account `i` is visited, no found entry carries its username. */
  lemma FreshUsername(vs: seq<string>, ps: seq<InstagramSearchResult>, i: nat)
    requires i < |ps| && DistinctUsernames(ps)
    ensures forall k :: 0 <= k < |Matching(vs, ps[..i])| ==> Matching(vs, ps[..i])[k].username != ps[i].username
  {
    var found := Filter(ps[..i], MatchesSome(vs));
    forall k | 0 <= k < |found| ensures found[k].username != ps[i].username {
      assert found[k] in found;
      var m :| 0 <= m < i && ps[..i][m] == found[k];
      assert ps[m] == found[k];
    }
  }

  /** A query that is blank once lowercased and trimmed matches every account, as `includes('')` holds. */
  lemma BlankQueryMatchesAll(query: string)
    requires OriginalQuery(query) == ""
    ensures Matching(SearchVariants(query), MockProfiles()) == MockProfiles()
  {
    var vs := SearchVariants(query);
    var ps := MockProfiles();
    var k :| 0 <= k < |vs| && vs[k] == "";
    forall p | p in ps ensures MatchesSome(vs)(p) {
      ContainsEmpty(StripSeparators(Lower(p.username)));
      assert StripSeparators(vs[k]) == "";
      assert VariantMatches(p.username, vs[k]);
    }
    FilterAll(ps, MatchesSome(vs));
  }

  lemma {:induction false} FilterAll(ps: seq<InstagramSearchResult>, keep: InstagramSearchResult -> bool)
    requires forall p :: p in ps ==> keep(p)
    ensures Filter(ps, keep) == ps
  {
    if ps != [] {
      var n := |ps| - 1;
      assert forall p :: p in ps[..n] ==> p in ps;
      FilterAll(ps[..n], keep);
      assert ps[n] in ps;
      assert ps[..n] + [ps[n]] == ps;
    }
  }
}
