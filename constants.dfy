/**
 * The category score table, the reputation-level display table, and the
 * score thresholds that turn a profile's total score into a reputation level.
 */
module Constants {
  import opened Types

  datatype CategoryDetails = CategoryDetails(
    displayLabel: string, emoji: string, score: int, color: string, textColor: Option<string>)

  datatype LevelDetails = LevelDetails(
    displayLabel: string, color: string, progressColor: string, icon: string)

  /** CATEGORIES: what each review category is worth and how it is shown. */
  const CATEGORIES: map<ReviewCategory, CategoryDetails> := map[
    Infidelity := CategoryDetails("Infidelidad", "\U{1F494}", -3, "bg-red-600", None),
    Theft := CategoryDetails("Robo", "\U{1F4B0}", -4, "bg-black", None),
    Betrayal := CategoryDetails("Traici\U{F3}n", "\U{1F52A}", -3, "bg-purple-600", None),
    Toxic := CategoryDetails("Toxicidad", "\U{2622}\U{FE0F}", -2, "bg-yellow-400", Some("text-yellow-900")),
    ReviewCategory.Positive := CategoryDetails("Positivo", "\U{1F496}", 2, "bg-green-700", None)
  ]

  /** REPUTATION_LEVELS: how each reputation level is shown. */
  const REPUTATION_LEVELS: map<ReputationLevel, LevelDetails> := map[
    ReputationLevel.Positive := LevelDetails("Confiable", "text-green-700", "bg-green-700", "fa-solid fa-circle-check"),
    Warning := LevelDetails("Alerta", "text-yellow-600", "bg-yellow-600", "fa-solid fa-circle-exclamation"),
    Risk := LevelDetails("Riesgo Alto", "text-red-600", "bg-red-600", "fa-solid fa-circle-xmark"),
    Unknown := LevelDetails("Sin Datos", "text-gray-600", "bg-gray-600", "fa-solid fa-circle-question")
  ]

  /** The score a review of category `c` carries (`CATEGORIES[c].score`). */
  function CategoryScore(c: ReviewCategory): (s: int)
    ensures s > 0 <==> c == ReviewCategory.Positive
    ensures -4 <= s <= 2
  {
    TablesAreTotal();
    CATEGORIES[c].score
  }

  /** The table gives each category the score the product assigns it. */
  lemma CategoryScores()
    ensures CategoryScore(Infidelity) == -3 && CategoryScore(Theft) == -4
    ensures CategoryScore(Betrayal) == -3 && CategoryScore(Toxic) == -2
    ensures CategoryScore(ReviewCategory.Positive) == 2
  {
  }

  /** Both tables have an entry for every member of their enum, including Unknown. */
  lemma TablesAreTotal()
    ensures forall c: ReviewCategory :: c in CATEGORIES
    ensures forall l: ReputationLevel :: l in REPUTATION_LEVELS
  {
    forall c: ReviewCategory ensures c in CATEGORIES {
      match c
      case Infidelity => case Theft => case Betrayal => case Toxic => case Positive =>
    }
    forall l: ReputationLevel ensures l in REPUTATION_LEVELS {
      match l
      case Positive => case Warning => case Risk => case Unknown =>
    }
  }

  /** The thresholds shared by `calculateReputation` and `calculateReputationLevel`. */
  function CalculateReputation(score: int): (r: ReputationLevel)
    ensures r == ReputationLevel.Positive <==> score > 0
    ensures r == Warning <==> -3 < score <= 0
    ensures r == Risk <==> score <= -3
    ensures r != Unknown
  {
    if score > 0 then ReputationLevel.Positive
    else if score > -3 then Warning
    else Risk
  }

  /** How good a level is: Risk < Warning < Positive. */
  function Rank(l: ReputationLevel): int
  {
    match l
    case Risk => 0
    case Warning => 1
    case Positive => 2
    case Unknown => -1
  }

  /** A higher total score never gives a worse reputation. */
  lemma ReputationMonotone(a: int, b: int)
    requires a <= b
    ensures Rank(CalculateReputation(a)) <= Rank(CalculateReputation(b))
  {
  }

  /** A single review on a new profile: Positive stays Positive, Toxic warns, the rest are Risk. */
  lemma SingleReviewReputation(c: ReviewCategory)
    ensures CalculateReputation(CategoryScore(c)) ==
      match c
      case Positive => ReputationLevel.Positive
      case Toxic => Warning
      case _ => Risk
  {
    CategoryScores();
  }
}
