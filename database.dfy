/**
 * The in-memory mock store of the review service: the review, profile and
 * user lists, the query matcher loop over them, review submission with its
 * score bookkeeping, the rankings, and mock registration and login.
 */
module Store {
  import opened Types
  import opened Text
  import Constants
  import Matcher
  import Phonetic
  import Sorting

  // ---------------------------------------------------------------- initial data

  const REV1 := Review("rev1", Infidelity, "Me fue infiel con mi mejor amiga. Cero confianza.", -3,
    "2023-10-15T12:00:00Z", "user123", 12, Some("https://i.imgur.com/v6tcf17.png"), Some("Ana Perez"))
  const REV2 := Review("rev2", Toxic, "Muy controladora y celosa. Revisaba mi celular a escondidas.", -2,
    "2023-08-20T12:00:00Z", "user456", 7, None, Some("Ana Perez"))
  const REV3 := Review("rev3", Betrayal,
    "Cont\U{F3} secretos m\U{ED}os a todo nuestro grupo de amigos. Una traidora.", -3,
    "2024-01-05T12:00:00Z", "user789", 5, None, Some("Ana Perez"))
  const REV4 := Review("rev4", ReviewCategory.Positive,
    "El amigo m\U{E1}s leal que he tenido. Siempre est\U{E1} ah\U{ED} para apoyarte.", 2,
    "2024-02-10T12:00:00Z", "user321", 25, None, Some("Carlos Gomez"))
  const REV5 := Review("rev5", ReviewCategory.Positive,
    "S\U{FA}per detallista y atento. La mejor pareja que he tenido.", 2,
    "2023-11-30T12:00:00Z", "user654", 18, None, Some("Carlos Gomez"))
  const REV6 := Review("rev6", Theft,
    "Le prest\U{E9} dinero y nunca me lo devolvi\U{F3}, se desapareci\U{F3}.", -4,
    "2023-09-01T12:00:00Z", "user987", 3, None, Some("Ricardo Diaz"))
  const REV7 := Review("rev7", Infidelity, "Me enter\U{E9} que ten\U{ED}a una doble vida con otra familia.", -3,
    "2022-05-12T12:00:00Z", "user111", 9, None, Some("Ricardo Diaz"))
  const REV8 := Review("rev8", ReviewCategory.Positive, "Una persona incre\U{ED}ble, honesta y trabajadora.", 2,
    "2024-03-01T12:00:00Z", "user222", 15, None, Some("Sofia Luna"))
  const REV9 := Review("rev9", Toxic, "Manipulador, te hace sentir culpable por todo.", -2,
    "2023-06-18T12:00:00Z", "user333", 4, None, Some("Pedro Navaja"))
  const REV10 := Review("rev10", ReviewCategory.Positive, "Muy amable y colaboradora en el trabajo.", 2,
    "2024-04-01T12:00:00Z", "user444", 8, None, Some("Cintia Fernandez"))
  const REV11 := Review("rev11", Toxic, "A veces es un poco chismosa.", -1,
    "2024-03-15T12:00:00Z", "user555", 2, None, Some("Cintia Fernandez"))

  /** `initialReviews` (the review of Pedro Navaja lives only in his profile). */
  const INITIAL_REVIEWS: seq<Review> := [REV1, REV2, REV3, REV4, REV5, REV6, REV7, REV8, REV10, REV11]

  /** `initialProfiles`, each holding the initial reviews written about it. */
  const INITIAL_PROFILES: seq<PersonProfile> := [
    PersonProfile("prof1", ["ana perez", "anita.perez95", "1122334455"], "Argentina", -8, Risk, [REV1, REV2, REV3]),
    PersonProfile("prof2", ["carlos gomez", "charlyg", "5544332211"], "M\U{E9}xico", 4, ReputationLevel.Positive, [REV4, REV5]),
    PersonProfile("prof3", ["ricardo diaz", "richid"], "Colombia", -7, Risk, [REV6, REV7]),
    PersonProfile("prof4", ["sofia luna", "sofilu"], "Espa\U{F1}a", 2, ReputationLevel.Positive, [REV8]),
    PersonProfile("prof5", ["pedro navaja"], "Per\U{FA}", -2, Warning, [REV9]),
    PersonProfile("prof6", ["Cintia Fernandez", "sintiafer"], "Chile", 1, ReputationLevel.Positive, [REV10, REV11])
  ]

  /** `initialUsers`: a social-login account without a password and one with a password. */
  const INITIAL_USERS: seq<RegisteredUser> := [
    RegisteredUser("user_xyz", "google_user_123456", Some("test@google.com"), None, 125),
    RegisteredUser("user_abc", "1122334455", Some("user@example.com"), Some("hashed_password"), 50)
  ]

  // ---------------------------------------------------------------- profile bookkeeping

  function ReviewSum(rs: seq<Review>): int
  {
    if rs == [] then 0 else ReviewSum(rs[..|rs| - 1]) + rs[|rs| - 1].score
  }

  /** A profile's total is the sum of its reviews' scores, and its reputation follows the thresholds. */
  predicate Consistent(p: PersonProfile)
  {
    p.totalScore == ReviewSum(p.reviews) && p.reputation == Constants.CalculateReputation(p.totalScore)
  }

  /** Every profile of the list is consistent. */
  predicate AllConsistent(ps: seq<PersonProfile>)
  {
    forall i :: 0 <= i < |ps| ==> Consistent(ps[i])
  }

  lemma ReviewSumPair(a: Review, b: Review)
    ensures ReviewSum([a, b]) == a.score + b.score
  {
    assert [a, b][..1] == [a];
    assert [a][..0] == [];
    assert ReviewSum([a]) == a.score;
  }

  lemma InitialProfilesConsistent()
    ensures AllConsistent(INITIAL_PROFILES)
  {
    assert ReviewSum([REV1, REV2, REV3]) == -8 by {
      assert [REV1, REV2, REV3][..2] == [REV1, REV2];
      ReviewSumPair(REV1, REV2);
    }
    ReviewSumPair(REV4, REV5);
    ReviewSumPair(REV6, REV7);
    ReviewSumPair(REV10, REV11);
    assert ReviewSum([REV8]) == 2 by { assert [REV8][..0] == []; }
    assert ReviewSum([REV9]) == -2 by { assert [REV9][..0] == []; }
  }

  /** The data `submitReview` receives. */
  datatype ReviewSubmission = ReviewSubmission(
    personIdentifier: string,
    country: string,
    category: ReviewCategory,
    text: string,
    score: int,
    reviewerEmail: Option<string>,
    reviewerInstagram: Option<string>,
    reviewerPhone: Option<string>,
    evidenceUrl: Option<string>,
    pseudoAuthor: Option<string>)

  /** `pseudoAuthor || reviewerInstagram || 'Anónimo'`. */
  function AuthorOf(sub: ReviewSubmission): (a: string)
    ensures a != ""
    ensures Truthy(sub.pseudoAuthor) ==> a == sub.pseudoAuthor.value
    ensures !Truthy(sub.pseudoAuthor) && Truthy(sub.reviewerInstagram) ==> a == sub.reviewerInstagram.value
    ensures !Truthy(sub.pseudoAuthor) && !Truthy(sub.reviewerInstagram) ==> a == "An\U{F3}nimo"
  {
    if Truthy(sub.pseudoAuthor) then sub.pseudoAuthor.value
    else if Truthy(sub.reviewerInstagram) then sub.reviewerInstagram.value
    else "An\U{F3}nimo"
  }

  /** The review `submitReview` builds; the id and the date come from the clock. */
  function NewReview(sub: ReviewSubmission, reviewId: string, date: string): Review
  {
    Review(reviewId, sub.category, sub.text, sub.score, date, AuthorOf(sub), 0, sub.evidenceUrl,
      Some(sub.personIdentifier))
  }

  /** Some identifier of `p`, lowercased, equals `key`. */
  predicate Names(p: PersonProfile, key: string)
  {
    exists id :: id in p.identifiers && Lower(id) == key
  }

  /** `mockProfiles.find(p => p.identifiers.some(id => id.toLowerCase() === key))`, as an index. */
  function FindProfile(profiles: seq<PersonProfile>, key: string, from: nat): (r: Option<nat>)
    requires from <= |profiles|
    ensures r.Some? ==> from <= r.value < |profiles| && Names(profiles[r.value], key)
    ensures r.Some? ==> forall j :: from <= j < r.value ==> !Names(profiles[j], key)
    ensures r.None? ==> forall j :: from <= j < |profiles| ==> !Names(profiles[j], key)
    decreases |profiles| - from
  {
    if from == |profiles| then None
    else if Names(profiles[from], key) then Some(from)
    else FindProfile(profiles, key, from + 1)
  }

  /** The stored profile after a review is appended to it: the total moves by the review's score. */
  function AddReview(p: PersonProfile, review: Review): PersonProfile
  {
    var total := p.totalScore + review.score;
    p.(reviews := p.reviews + [review], totalScore := total, reputation := Constants.CalculateReputation(total))
  }

  /** The profile created for a person nobody has reviewed yet. */
  function NewProfile(sub: ReviewSubmission, review: Review, profileId: string): PersonProfile
  {
    PersonProfile(profileId, [sub.personIdentifier], sub.country, sub.score,
      Constants.CalculateReputation(sub.score), [review])
  }

  /** The profile list after `submitReview`. */
  function ApplyReview(profiles: seq<PersonProfile>, sub: ReviewSubmission, review: Review, profileId: string)
    : seq<PersonProfile>
  {
    match FindProfile(profiles, Trim(Lower(sub.personIdentifier)), 0)
    case Some(k) => profiles[k := AddReview(profiles[k], review)]
    case None => profiles + [NewProfile(sub, review, profileId)]
  }

  /** `k` is the first profile with an identifier equal to `key` in lower case. */
  predicate FirstNaming(profiles: seq<PersonProfile>, key: string, k: nat)
  {
    k < |profiles| && Names(profiles[k], key) && forall j :: 0 <= j < k ==> !Names(profiles[j], key)
  }

  /** `after` is `profiles` with the review appended to profile `k` and its total moved by the score. */
  predicate CreditedAt(profiles: seq<PersonProfile>, after: seq<PersonProfile>, k: nat, review: Review)
  {
    && |after| == |profiles| && k < |profiles|
    && after[k].identifiers == profiles[k].identifiers
    && after[k].reviews == profiles[k].reviews + [review]
    && after[k].totalScore == profiles[k].totalScore + review.score
    && forall j :: 0 <= j < |profiles| && j != k ==> after[j] == profiles[j]
  }

  /** `after` is `profiles` followed by one new profile for the submitted identifier, as typed. */
  predicate OpenedFor(profiles: seq<PersonProfile>, after: seq<PersonProfile>, sub: ReviewSubmission, review: Review)
  {
    && |after| == |profiles| + 1
    && after[..|profiles|] == profiles
    && after[|profiles|].identifiers == [sub.personIdentifier]
    && after[|profiles|].totalScore == sub.score
    && after[|profiles|].reviews == [review]
  }

  /**
   * The review goes to the first profile with an identifier that matches the
   * lowercased, trimmed input, and nothing else changes; when none matches, a
   * new profile is appended whose only identifier is the input as typed.
   */
  lemma {:induction false} ApplyReviewEffect(profiles: seq<PersonProfile>, sub: ReviewSubmission, review: Review, profileId: string)
    ensures (exists k :: 0 <= k < |profiles| && Names(profiles[k], Trim(Lower(sub.personIdentifier)))) ==>
      exists k :: FirstNaming(profiles, Trim(Lower(sub.personIdentifier)), k) &&
        CreditedAt(profiles, ApplyReview(profiles, sub, review, profileId), k, review)
    ensures (forall k :: 0 <= k < |profiles| ==> !Names(profiles[k], Trim(Lower(sub.personIdentifier)))) ==>
      OpenedFor(profiles, ApplyReview(profiles, sub, review, profileId), sub, review)
  {
    var key := Trim(Lower(sub.personIdentifier));
    var after := ApplyReview(profiles, sub, review, profileId);
    match FindProfile(profiles, key, 0)
    case Some(k) =>
      assert after == profiles[k := AddReview(profiles[k], review)];
      assert FirstNaming(profiles, key, k);
      assert CreditedAt(profiles, after, k, review);
    case None =>
      assert after == profiles + [NewProfile(sub, review, profileId)];
      assert after[..|profiles|] == profiles;
      assert OpenedFor(profiles, after, sub, review);
  }

  lemma {:induction false} ReviewSumAppend(rs: seq<Review>, r: Review)
    ensures ReviewSum(rs + [r]) == ReviewSum(rs) + r.score
  {
    assert (rs + [r])[..|rs|] == rs;
  }

  /** A review whose score is the submitted one keeps every profile consistent. */
  lemma {:induction false} ApplyReviewConsistent(profiles: seq<PersonProfile>, sub: ReviewSubmission, review: Review, profileId: string)
    requires AllConsistent(profiles)
    requires review.score == sub.score
    ensures AllConsistent(ApplyReview(profiles, sub, review, profileId))
  {
    var after := ApplyReview(profiles, sub, review, profileId);
    match FindProfile(profiles, Trim(Lower(sub.personIdentifier)), 0)
    case Some(k) =>
      assert after == profiles[k := AddReview(profiles[k], review)];
      forall i | 0 <= i < |after| ensures Consistent(after[i]) {
        if i == k {
          ReviewSumAppend(profiles[k].reviews, review);
        }
      }
    case None =>
      assert after == profiles + [NewProfile(sub, review, profileId)];
      forall i | 0 <= i < |after| ensures Consistent(after[i]) {
        if i == |profiles| {
          assert ReviewSum([review]) == review.score by { assert [review][..0] == []; }
        } else {
          assert after[i] == profiles[i];
        }
      }
  }

  function TotalOfTotals(ps: seq<PersonProfile>): int
  {
    if ps == [] then 0 else TotalOfTotals(ps[..|ps| - 1]) + ps[|ps| - 1].totalScore
  }

  function ReviewCount(ps: seq<PersonProfile>): nat
  {
    if ps == [] then 0 else ReviewCount(ps[..|ps| - 1]) + |ps[|ps| - 1].reviews|
  }

  lemma {:induction false} TotalsUpdate(ps: seq<PersonProfile>, k: nat, p: PersonProfile)
    requires k < |ps|
    ensures TotalOfTotals(ps[k := p]) == TotalOfTotals(ps) - ps[k].totalScore + p.totalScore
    ensures ReviewCount(ps[k := p]) == ReviewCount(ps) - |ps[k].reviews| + |p.reviews|
  {
    var n := |ps| - 1;
    if k < n {
      TotalsUpdate(ps[..n], k, p);
      assert ps[k := p][..n] == ps[..n][k := p];
    } else {
      assert ps[k := p][..n] == ps[..n];
    }
  }

  /** Across all profiles, a submission adds exactly one review and moves the summed totals by its score. */
  lemma {:induction false} ApplyReviewTotals(profiles: seq<PersonProfile>, sub: ReviewSubmission, review: Review, profileId: string)
    ensures TotalOfTotals(ApplyReview(profiles, sub, review, profileId)) == TotalOfTotals(profiles) +
      (match FindProfile(profiles, Trim(Lower(sub.personIdentifier)), 0)
       case Some(_) => review.score
       case None => sub.score)
    ensures ReviewCount(ApplyReview(profiles, sub, review, profileId)) == ReviewCount(profiles) + 1
  {
    var after := ApplyReview(profiles, sub, review, profileId);
    match FindProfile(profiles, Trim(Lower(sub.personIdentifier)), 0)
    case Some(k) =>
      TotalsUpdate(profiles, k, AddReview(profiles[k], review));
    case None =>
      assert after[..|profiles|] == profiles;
  }

  // ---------------------------------------------------------------- rankings

  function ScoreOf(p: PersonProfile): int { p.totalScore }

  /** `[...mockProfiles].sort((a, b) => a.totalScore - b.totalScore)`. */
  function SortedByScore(ps: seq<PersonProfile>): seq<PersonProfile>
  {
    Sorting.SortBy(ps, ScoreOf)
  }

  function TopNegative(ps: seq<PersonProfile>): seq<PersonProfile>
  {
    Sorting.Take(SortedByScore(ps), 5)
  }

  function TopPositive(ps: seq<PersonProfile>): seq<PersonProfile>
  {
    Sorting.Take(Sorting.Reverse(SortedByScore(ps)), 5)
  }

  lemma {:induction false} SortedByScoreFacts(ps: seq<PersonProfile>)
    ensures |SortedByScore(ps)| == |ps|
    ensures multiset(SortedByScore(ps)) == multiset(ps)
    ensures forall i, j :: 0 <= i < j < |ps| ==> SortedByScore(ps)[i].totalScore <= SortedByScore(ps)[j].totalScore
  {
    Sorting.SortBySorted(ps, ScoreOf);
    Sorting.SortByPermutation(ps, ScoreOf);
    assert |SortedByScore(ps)| == |ps| by {
      assert |multiset(SortedByScore(ps))| == |multiset(ps)|;
    }
  }

  /**
   * `topNegative` holds the (at most) five lowest totals in ascending order,
   * drawn from the store, and no profile left out of it has a lower total.
   */
  lemma {:induction false} TopNegativeSpec(ps: seq<PersonProfile>)
    ensures |TopNegative(ps)| == if |ps| < 5 then |ps| else 5
    ensures forall i, j :: 0 <= i < j < |TopNegative(ps)| ==> TopNegative(ps)[i].totalScore <= TopNegative(ps)[j].totalScore
    ensures multiset(TopNegative(ps)) <= multiset(ps)
    ensures forall p, q :: p in TopNegative(ps) && q in ps && q !in TopNegative(ps) ==> p.totalScore <= q.totalScore
  {
    var sorted := SortedByScore(ps);
    SortedByScoreFacts(ps);
    var neg := TopNegative(ps);
    assert sorted == neg + sorted[|neg|..];
    forall p, q | p in neg && q in ps && q !in neg ensures p.totalScore <= q.totalScore {
      var i :| 0 <= i < |neg| && neg[i] == p;
      assert q in multiset(sorted);
      var j :| 0 <= j < |sorted| && sorted[j] == q;
      PrefixMember(sorted, |neg|, j);
      assert sorted[i] == p;
    }
    forall i, j | 0 <= i < j < |neg| ensures neg[i].totalScore <= neg[j].totalScore {
      assert neg[i] == sorted[i] && neg[j] == sorted[j];
    }
  }

  /**
   * `topPositive` holds the (at most) five highest totals in descending order,
   * drawn from the store, and no profile left out of it has a higher total.
   */
  lemma {:induction false} TopPositiveSpec(ps: seq<PersonProfile>)
    ensures |TopPositive(ps)| == if |ps| < 5 then |ps| else 5
    ensures forall i, j :: 0 <= i < j < |TopPositive(ps)| ==> TopPositive(ps)[i].totalScore >= TopPositive(ps)[j].totalScore
    ensures multiset(TopPositive(ps)) <= multiset(ps)
    ensures forall p, q :: p in TopPositive(ps) && q in ps && q !in TopPositive(ps) ==> p.totalScore >= q.totalScore
  {
    TopPositiveOrdered(ps);
    TopPositiveSelection(ps);
  }

  lemma {:induction false} TopPositiveOrdered(ps: seq<PersonProfile>)
    ensures |TopPositive(ps)| == if |ps| < 5 then |ps| else 5
    ensures forall i, j :: 0 <= i < j < |TopPositive(ps)| ==> TopPositive(ps)[i].totalScore >= TopPositive(ps)[j].totalScore
  {
    var sorted := SortedByScore(ps);
    SortedByScoreFacts(ps);
    var rev := Sorting.Reverse(sorted);
    ReversedDescending(sorted);
    var pos := TopPositive(ps);
    forall i, j | 0 <= i < j < |pos| ensures pos[i].totalScore >= pos[j].totalScore {
      assert pos[i] == rev[i] && pos[j] == rev[j];
    }
  }

  /** In a list sorted by descending total, a prefix holds totals no lower than any element left out. */
  lemma {:induction false} DescendingPrefixTop(s: seq<PersonProfile>, n: nat)
    requires n <= |s|
    requires forall i, j :: 0 <= i < j < |s| ==> s[i].totalScore >= s[j].totalScore
    ensures forall p, q :: p in s[..n] && q in s && q !in s[..n] ==> p.totalScore >= q.totalScore
  {
    forall p, q | p in s[..n] && q in s && q !in s[..n] ensures p.totalScore >= q.totalScore {
      var i :| 0 <= i < n && s[..n][i] == p;
      var j :| 0 <= j < |s| && s[j] == q;
      PrefixMember(s, n, j);
      assert s[i] == p;
    }
  }

  lemma {:induction false} TopPositiveSelection(ps: seq<PersonProfile>)
    ensures multiset(TopPositive(ps)) <= multiset(ps)
    ensures forall p, q :: p in TopPositive(ps) && q in ps && q !in TopPositive(ps) ==> p.totalScore >= q.totalScore
  {
    var sorted := SortedByScore(ps);
    SortedByScoreFacts(ps);
    var rev := Sorting.Reverse(sorted);
    ReversedDescending(sorted);
    ReverseSameMultiset(sorted);
    var pos := TopPositive(ps);
    assert pos == rev[..|pos|];
    assert rev == pos + rev[|pos|..];
    assert multiset(rev) == multiset(pos) + multiset(rev[|pos|..]);
    DescendingPrefixTop(rev, |pos|);
    forall q | q in ps ensures q in rev {
      assert q in multiset(rev);
    }
  }

  lemma {:induction false} ReversedDescending(s: seq<PersonProfile>)
    requires forall i, j :: 0 <= i < j < |s| ==> s[i].totalScore <= s[j].totalScore
    ensures forall i, j :: 0 <= i < j < |s| ==> Sorting.Reverse(s)[i].totalScore >= Sorting.Reverse(s)[j].totalScore
  {
    var r := Sorting.Reverse(s);
    forall i, j | 0 <= i < j < |s| ensures r[i].totalScore >= r[j].totalScore {
      assert r[i] == s[|s| - 1 - i] && r[j] == s[|s| - 1 - j];
    }
  }

  lemma PrefixMember<T>(s: seq<T>, n: nat, j: nat)
    requires n <= |s| && j < |s|
    ensures j < n ==> s[j] in s[..n]
  {
    assert j < n ==> s[..n][j] == s[j];
  }

  lemma {:induction false} ReverseSameMultiset<T>(s: seq<T>)
    ensures multiset(Sorting.Reverse(s)) == multiset(s)
  {
    if s != [] {
      var r := Sorting.Reverse(s);
      ReverseSameMultiset(s[1..]);
      assert r == Sorting.Reverse(s[1..]) + [s[0]];
      assert s == [s[0]] + s[1..];
    }
  }

  // ---------------------------------------------------------------- users

  /** What `registerUser` and `loginUser` return. */
  datatype AuthResult = AuthResult(success: bool, message: string, user: Option<RegisteredUser>)

  const MSG_ALREADY_REGISTERED := "El n\U{FA}mero de tel\U{E9}fono o correo electr\U{F3}nico ya est\U{E1} registrado."
  const MSG_REGISTERED := "Registro exitoso."
  const MSG_UNKNOWN_PHONE := "El n\U{FA}mero de tel\U{E9}fono no est\U{E1} registrado."
  const MSG_SOCIAL_ACCOUNT :=
    "Esta cuenta fue registrada con un proveedor social. Por favor, inicia sesi\U{F3}n con Google, Facebook o Instagram."
  const MSG_WRONG_PASSWORD := "La contrase\U{F1}a es incorrecta."
  const MSG_LOGGED_IN := "Inicio de sesi\U{F3}n exitoso."

  /** The test of `registerUser`'s `find`: the same phone, or the same email when one was given. */
  predicate Conflicts(u: RegisteredUser, phone: string, email: Option<string>)
  {
    u.phone == phone || (Truthy(email) && u.email == email)
  }

  /** The stored password: `hashed_<password>` when a non-empty password was given. */
  function HashFor(password: Option<string>): Option<string>
  {
    if Truthy(password) then Some("hashed_" + password.value) else None
  }

  /** The user list and the answer after `registerUser`; the id comes from the random generator. */
  function Register(users: seq<RegisteredUser>, phone: string, email: Option<string>, password: Option<string>,
                    userId: string): (r: (seq<RegisteredUser>, AuthResult))
    ensures r.1.success <==> forall i :: 0 <= i < |users| ==> !Conflicts(users[i], phone, email)
    ensures !r.1.success ==> r.0 == users && r.1.user == None
    ensures r.1.success ==> |r.0| == |users| + 1 && r.0[..|users|] == users && r.1.user == Some(r.0[|users|])
    ensures r.1.success ==> r.0[|users|].phone == phone && r.0[|users|].email == email
  {
    if exists i :: 0 <= i < |users| && Conflicts(users[i], phone, email) then
      (users, AuthResult(false, MSG_ALREADY_REGISTERED, None))
    else
      var u := RegisteredUser(userId, phone, email, HashFor(password), 0);
      assert (users + [u])[..|users|] == users;
      (users + [u], AuthResult(true, MSG_REGISTERED, Some(u)))
  }

  /** `mockUsers.find(u => u.phone === phone)`, as an index. */
  function FindUser(users: seq<RegisteredUser>, phone: string, from: nat): (r: Option<nat>)
    requires from <= |users|
    ensures r.Some? ==> from <= r.value < |users| && users[r.value].phone == phone
    ensures r.Some? ==> forall j :: from <= j < r.value ==> users[j].phone != phone
    ensures r.None? ==> forall j :: from <= j < |users| ==> users[j].phone != phone
    decreases |users| - from
  {
    if from == |users| then None
    else if users[from].phone == phone then Some(from)
    else FindUser(users, phone, from + 1)
  }

  /** The text a template literal prints for an optional password. */
  function PasswordText(password: Option<string>): string
  {
    if password.Some? then password.value else "undefined"
  }

  /** `loginUser`: the first user with the phone must have a stored hash equal to `hashed_<password>`. */
  function Login(users: seq<RegisteredUser>, phone: string, password: Option<string>): (r: AuthResult)
    ensures r.success <==>
      exists k :: FindUser(users, phone, 0) == Some(k) &&
        users[k].passwordHash == Some("hashed_" + PasswordText(password)) && users[k].passwordHash.value != ""
    ensures r.success ==> r.user.Some? && r.user.value.phone == phone
    ensures !r.success ==> r.user == None
  {
    match FindUser(users, phone, 0)
    case None => AuthResult(false, MSG_UNKNOWN_PHONE, None)
    case Some(k) =>
      var u := users[k];
      if !Truthy(u.passwordHash) then AuthResult(false, MSG_SOCIAL_ACCOUNT, None)
      else if u.passwordHash.value != "hashed_" + PasswordText(password) then AuthResult(false, MSG_WRONG_PASSWORD, None)
      else AuthResult(true, MSG_LOGGED_IN, Some(u))
  }

  /** Registering with a non-empty password, then logging in with it, succeeds as the new user. */
  lemma {:induction false} RegisterThenLogin(users: seq<RegisteredUser>, phone: string, email: Option<string>, password: string,
                          userId: string)
    requires password != ""
    requires Register(users, phone, email, Some(password), userId).1.success
    ensures var r := Register(users, phone, email, Some(password), userId);
      Login(r.0, phone, Some(password)) == AuthResult(true, MSG_LOGGED_IN, r.1.user)
  {
    var after := Register(users, phone, email, Some(password), userId).0;
    assert forall j :: 0 <= j < |users| ==> after[j] == users[j];
    assert forall j :: 0 <= j < |users| ==> !Conflicts(users[j], phone, email);
    assert FindUser(after, phone, 0) == Some(|users|);
  }

  /** An account stored without a password hash never logs in, whatever password is sent. */
  lemma {:induction false} SocialAccountNeverLogsIn(users: seq<RegisteredUser>, phone: string, password: Option<string>, k: nat)
    requires FindUser(users, phone, 0) == Some(k)
    requires !Truthy(users[k].passwordHash)
    ensures Login(users, phone, password) == AuthResult(false, MSG_SOCIAL_ACCOUNT, None)
  {
  }

  /** A rejected registration leaves the user list alone: a taken phone always conflicts. */
  lemma {:induction false} TakenPhoneRejected(users: seq<RegisteredUser>, phone: string, email: Option<string>,
                           password: Option<string>, userId: string, k: nat)
    requires k < |users| && users[k].phone == phone
    ensures Register(users, phone, email, password, userId) ==
      (users, AuthResult(false, MSG_ALREADY_REGISTERED, None))
  {
    assert Conflicts(users[k], phone, email);
  }

  // ---------------------------------------------------------------- the store

  /** The in-memory store: the review, profile and user lists the mock service keeps and updates. */
  class Database {
    var reviews: seq<Review>
    var profiles: seq<PersonProfile>
    var users: seq<RegisteredUser>

    /** Every stored profile's total and reputation agree with its reviews. */
    ghost predicate Valid()
      reads this
    {
      AllConsistent(profiles)
    }

    /** The store as first loaded, from the initial mock data. */
    constructor ()
      ensures Valid()
      ensures reviews == INITIAL_REVIEWS && profiles == INITIAL_PROFILES && users == INITIAL_USERS
    {
      reviews := INITIAL_REVIEWS;
      profiles := INITIAL_PROFILES;
      users := INITIAL_USERS;
      InitialProfilesConsistent();
    }

    /** `getProfileByQuery`: score every identifier of every profile in order and keep the first best. */
    method GetProfileByQuery(query: string) returns (r: Option<PersonProfile>)
      ensures r == Matcher.MatchQuery(query, profiles)
    {
      var normalizedQuery := Matcher.NormalizeQuery(query);
      var phoneticQuery := Phonetic.Encode(query);
      if normalizedQuery == "" {
        return None;
      }
      var bestProfile, bestScore := Matcher.BestMatch(normalizedQuery, phoneticQuery, profiles);
      Matcher.MatchQueryFromScan(query, profiles, Matcher.Best(bestProfile, bestScore));
      if bestScore >= Matcher.MATCH_THRESHOLD && bestProfile.Some? {
        r := Some(profiles[bestProfile.value]);
      } else {
        r := None;
      }
    }

    /** `submitReview`: record the review, then credit it to its profile or open a new one. */
    method SubmitReview(sub: ReviewSubmission, reviewId: string, profileId: string, date: string)
      returns (ok: bool)
      requires Valid()
      modifies this
      ensures Valid()
      ensures ok
      ensures reviews == old(reviews) + [NewReview(sub, reviewId, date)]
      ensures profiles == ApplyReview(old(profiles), sub, NewReview(sub, reviewId, date), profileId)
      ensures users == old(users)
    {
      var newReview := NewReview(sub, reviewId, date);
      var normalizedIdentifier := Trim(Lower(sub.personIdentifier));
      var found := FindProfile(profiles, normalizedIdentifier, 0);
      var updated;
      if found.Some? {
        var k := found.value;
        updated := profiles[k := AddReview(profiles[k], newReview)];
      } else {
        updated := profiles + [NewProfile(sub, newReview, profileId)];
      }
      assert updated == ApplyReview(profiles, sub, newReview, profileId);
      ApplyReviewConsistent(profiles, sub, newReview, profileId);
      reviews, profiles := reviews + [newReview], updated;
      ok := true;
    }

    /** `getRankings`: the five lowest and the five highest totals, from a sorted copy. */
    method GetRankings() returns (topNegative: seq<PersonProfile>, topPositive: seq<PersonProfile>)
      ensures topNegative == TopNegative(profiles) && topPositive == TopPositive(profiles)
    {
      var sortedProfiles := SortedByScore(profiles);
      topNegative := Sorting.Take(sortedProfiles, 5);
      topPositive := Sorting.Take(Sorting.Reverse(sortedProfiles), 5);
    }

    /** `registerUser`: refuse a taken phone or email, otherwise append the new user. */
    method RegisterUser(phone: string, email: Option<string>, password: Option<string>, userId: string)
      returns (result: AuthResult)
      modifies this
      ensures (users, result) == Register(old(users), phone, email, password, userId)
      ensures reviews == old(reviews) && profiles == old(profiles)
    {
      var r := Register(users, phone, email, password, userId);
      users := r.0;
      result := r.1;
    }

    /** `loginUser`, against the current user list. */
    method LoginUser(phone: string, password: Option<string>) returns (result: AuthResult)
      ensures result == Login(users, phone, password)
    {
      result := Login(users, phone, password);
    }
  }
}
