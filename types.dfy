/**
 * The records the application passes around (types.ts), as Dafny values.
 * Optional TypeScript properties (`email?: string`) become `Option`.
 */
module Types {

  datatype Option<+T> = None | Some(value: T)

  /** The review categories a reviewer can choose (enum ReviewCategory). */
  datatype ReviewCategory = Infidelity | Theft | Betrayal | Toxic | Positive

  /** The reputation shown for a person profile (enum ReputationLevel). */
  datatype ReputationLevel = Positive | Warning | Risk | Unknown

  datatype Review = Review(
    id: string,
    category: ReviewCategory,
    text: string,
    score: int,
    date: string,
    pseudoAuthor: string,
    confirmations: int,
    evidenceUrl: Option<string>,
    personReviewed: Option<string>)

  datatype PersonProfile = PersonProfile(
    id: string,
    identifiers: seq<string>,
    country: string,
    totalScore: int,
    reputation: ReputationLevel,
    reviews: seq<Review>)

  datatype RegisteredUser = RegisteredUser(
    id: string,
    phone: string,
    email: Option<string>,
    passwordHash: Option<string>,
    contributionScore: int)

  datatype Notification = Notification(
    id: string,
    message: string,
    read: bool,
    date: string,
    link: Option<string>)

  datatype WebCheckStatus = Found | NotFound | Info

  datatype WebCheckResult = WebCheckResult(
    id: string,
    source: string,
    title: string,
    link: string,
    snippet: string,
    status: Option<WebCheckStatus>,
    screenshotUrl: Option<string>)

  datatype InstagramSearchResult = InstagramSearchResult(
    username: string,
    profilePicUrl: string,
    fullName: string)

  /** JavaScript truthiness of an optional string: present and non-empty. */
  predicate Truthy(s: Option<string>)
  {
    s.Some? && s.value != ""
  }
}
