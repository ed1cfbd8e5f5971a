# Kornu reputation lookup: a verified Dafny model of its core

Kornu lets people look up a person by name, social handle or phone number,
read the community's reviews of them with a reputation level, and add
reviews. This project models the parts of the web application that hold
rules rather than plumbing, and proves properties about them:

- **Identity resolution** (`getProfileByQuery` of the in-memory service). It is built from:
  - a normaliser (`Text`);
  - a Spanish phonetic encoder (`Phonetic`);
  - the matrix Levenshtein distance (`Levenshtein`);
  - the four per-identifier heuristics and the first-best scan with its threshold of 60 (`Matcher`).
- **The in-memory review store and user registry** (`Store`, class `Store.Database`):
  - submitting a review and crediting it to a profile;
  - the rankings;
  - registration and login.
- **The database-backed review submission** (`SupabaseStore`): the score and count arithmetic, and `calculateReputationLevel`.
- **The Instagram variant search** (`Instagram`):
  - the spelling variants of a query;
  - the fixed mock account list with its deterministic avatars;
  - the three matching rules;
  - the insertion-ordered map of matches.
- **Front-end rule sets:**
  - the notification store (class `Notifications.NotificationStore`);
  - the password rules and the submit order of the registration form (`RegisterForm`);
  - the confirm toggle of a review card (class `ReviewCard.Card`);
  - the results-page summary and the "Badoo found first" order (`ResultsPage`, over the stable sort in `Sorting`);
  - the category and reputation tables (`Constants`).

Modelling choices:

- **State.**
  - Module-level lists the source mutates are `seq` fields of a class, reassigned by its methods.
  - Loops are `while`/`for` loops proved against functions that specify them. These are the Levenshtein matrix (an `array2`), the nested scoring loops and the variant loop. The password checks are five straight-line pushes, proved step by step against `FailedRules`.
- **Numbers.** Scores are exact `real`s and review scores are `int`s.
- **Outside inputs.** Time, random ids and the outcome of each database call are parameters.

How the code departs from the design description:

- **Phonetic example.** The design description expects the query "cintia fernandez" to reach the profile identifier "sintiafer" by the phonetic path (score 80). The code encodes the whole query ("sintiafernandes"), which differs from that identifier's code, so the phonetic score does not apply. The model follows the code.
- **Exact self-match.** The design description says every string matches itself with score 100. The code first returns no match for a query that normalises to the empty string (`services/airtableService.ts:170`). `Matcher.ExactMatchWins` therefore requires a non-empty normal form, and `Matcher.MatchIndexSpec` states the empty case.

## Model

| member | source | states |
|---|---|---|
| Text.Lower | services/airtableService.ts:176 | `toLowerCase` keeps the length and lowers each modelled upper-case letter, position by position |
| Text.StripSeparators | services/airtableService.ts:176 | removing `[\s._-]+` keeps only non-separator characters of the input, never lengthening it |
| Text.NormalizeIsNormal | services/airtableService.ts:176 | the normal form contains no white space, `.`, `_`, `-` or upper-case letter |
| Text.NormalizeFixesNormal | services/airtableService.ts:176 | a string with none of those characters is its own normal form |
| Text.NormalizeIdempotent | services/airtableService.ts:164 | normalising twice equals normalising once |
| Text.TrimStart | services/airtableService.ts:164 | the result is a suffix of the input whose dropped characters are all white space and which starts with none |
| Text.TrimEnd | services/airtableService.ts:164 | the result is a prefix whose dropped characters are all white space and which ends with none |
| Text.TrimEmpty | pages/RegisterPage.tsx:33-36 | `trim()` gives "" exactly when every character is white space |
| Text.StripSeparatorsTrim | services/airtableService.ts:164 | trimming before the separator removal does not change its result |
| Text.StripSeparatorsAppend | services/airtableService.ts:176 | separator removal distributes over concatenation |
| Text.ContainsEmpty | services/databaseService.ts:457 | every string includes "" |
| Text.ContainsLength | services/airtableService.ts:185 | a contained string is no longer than its container |
| Text.ReplaceAll | services/databaseService.ts:408-420 | replacing a character by a string without it leaves no occurrence; nothing changes when it is absent |
| Text.ReplaceAllKeeps | services/databaseService.ts:408-420 | every other character survives the replacement |
| Text.LetterPrefix | services/databaseService.ts:403-406 | `/^([a-zA-Z]+)/` captures the longest all-letter prefix, stopping at the first non-letter |
| Text.CharCodeSumAppend | services/databaseService.ts:423 | the character-code sum of a concatenation is the sum of the two sums |
| Text.DecimalString | contexts/NotificationContext.tsx:58 | the printed clock value is a non-empty string of digits that denotes the number, with no leading zero |
| Levenshtein.Min3 | services/airtableService.ts:115-119 | `Math.min` of three values is one of them and no larger than any |
| Levenshtein.DistanceSymmetric | services/airtableService.ts:99-124 | the edit distance does not depend on argument order |
| Levenshtein.DistanceSelf | services/airtableService.ts:99-124 | a string is at distance 0 from itself |
| Levenshtein.DistanceZero | services/airtableService.ts:99-124 | distance 0 implies equal strings |
| Levenshtein.DistanceZeroIff | services/airtableService.ts:99-124 | distance 0 exactly for equal strings |
| Levenshtein.DistanceUpper | services/airtableService.ts:99-124 | the distance never exceeds the longer length |
| Levenshtein.DistanceLower | services/airtableService.ts:99-124 | the distance is at least the difference in length |
| Levenshtein.DistanceStep | services/airtableService.ts:114-119 | each matrix cell is the minimum of deletion, insertion and substitution from its neighbours |
| Levenshtein.FillRow | services/airtableService.ts:113-120 | the inner loop fills row `i` with the distances of the prefixes and touches no other row |
| Levenshtein.LevenshteinDistance | services/airtableService.ts:99-124 | the early returns and the filled matrix give exactly the recursive edit distance |
| Phonetic.StripMarks | services/airtableService.ts:137 | no combining mark survives and nothing new appears |
| Phonetic.KeepLetters | services/airtableService.ts:138 | only `a`-`z` survive |
| Phonetic.Delete | services/airtableService.ts:143 | the deleted letter is gone and nothing new appears |
| Phonetic.Translate | services/airtableService.ts:144-149 | a class rewrite keeps the length and leaves only the target or untouched characters |
| Phonetic.BeforeFrontVowel | services/airtableService.ts:146-148 | the `c([ei])` and `g([ei])` rewrites keep the length and add only the target letter |
| Phonetic.DoubleL | services/airtableService.ts:150 | `ll` to `i` never lengthens and adds only `i` |
| Phonetic.Dedup | services/airtableService.ts:154-156 | the run filter leaves no two equal neighbours and keeps the last letter |
| Phonetic.RewriteLetters | services/airtableService.ts:143-151 | after the nine rewrites no `h`, `v`, `w`, `z`, `c`, `q`, `x` or `y` remains |
| Phonetic.PrefixLetters | services/airtableService.ts:143-146 | the rewrites up to `c([ei])` remove `h`, `w`, `v` and `z` |
| Phonetic.SuffixLetters | services/airtableService.ts:147-151 | the last five rewrites remove `c`, `q`, `x`, `y` and bring none of the others back |
| Phonetic.Encode | services/airtableService.ts:133-159 | the code uses only code letters, has no equal neighbours, and is "" for empty or letterless input |
| Phonetic.FoldedFixes | services/airtableService.ts:136-138 | lower-case ASCII text passes the folding unchanged |
| Phonetic.LetterlessEncodesEmpty | services/airtableService.ts:134-140 | text without letters has the empty code |
| Phonetic.RewriteFixes | services/airtableService.ts:143-151 | a string without any letter the rewrites look at is left alone |
| Phonetic.DedupFixes | services/airtableService.ts:154-156 | a string without equal neighbours is kept by the run filter |
| Phonetic.EncodeFixes | services/airtableService.ts:133-159 | a string of code letters without equal neighbours is its own code |
| Phonetic.SameRewriteSameCode | services/airtableService.ts:153-158 | folded strings with the same rewrite share their code |
| Phonetic.RewriteSoftC | services/airtableService.ts:146 | `c` before `e` or `i` rewrites exactly as `s` does |
| Phonetic.SoftCSoundsLikeS | services/airtableService.ts:146 | a `c` before `e` or `i` encodes like an `s` |
| Phonetic.CintiaSintia | services/airtableService.ts:133-159 | "cintia" and "sintia" both encode to "sintia" |
| Phonetic.EncodeIgnoresCase | services/airtableService.ts:136 | lowering the text first does not change its code |
| Matcher.NormalizeQuery | services/airtableService.ts:164 | the query normaliser (with `trim`) agrees with the identifier normaliser of line 176 |
| Matcher.ContainmentScore | services/airtableService.ts:185-188 | `70 + 25 * min/max` lies in [70, 95], is 95 exactly for equal lengths and 70 for an empty identifier |
| Matcher.Similarity | services/airtableService.ts:197-198 | the similarity lies in [0, 1] and is 1 exactly for equal normal forms |
| Matcher.ExactScore | services/airtableService.ts:180-182 | 100 is pushed exactly for equal normal forms |
| Matcher.PartialScore | services/airtableService.ts:185-188 | a containment score lies in [70, 95] |
| Matcher.PhoneticScore | services/airtableService.ts:191-194 | the phonetic push is always 80 |
| Matcher.FuzzyScore | services/airtableService.ts:196-201 | the fuzzy push lies in (62.5, 70] |
| Matcher.Scores | services/airtableService.ts:177-201 | at most four scores, each in (62.5, 100], with 100 present exactly for an exact match |
| Matcher.ScoresHeuristics | services/airtableService.ts:179-201 | each heuristic pushes its score exactly when its condition holds, and no other score appears |
| Matcher.MaxOf | services/airtableService.ts:203 | `Math.max(...scores)` is a member of the list and bounds it |
| Matcher.IdentifierScore | services/airtableService.ts:203 | `currentScore` is 0 or in (62.5, 100], 100 exactly for an exact match, positive exactly when something was pushed |
| Matcher.FuzzyHeuristic | services/airtableService.ts:196-201 | the matrix distance gives exactly the fuzzy push of the specification |
| Matcher.ScoreIdentifier | services/airtableService.ts:176-203 | the inner loop body computes the identifier score |
| Matcher.CandidatesShape | services/airtableService.ts:174-175 | the visit order lists exactly the identifiers of every profile, grouped by profile in store order |
| Matcher.ScanFacts | services/airtableService.ts:205-207 | the strict `>` keeps the maximum score and the first candidate reaching it |
| Matcher.ScanPicksScored | services/airtableService.ts:205-207 | a picked profile holds an identifier with the picked score |
| Matcher.ScanSnoc | services/airtableService.ts:205-207 | one more identifier is one more step of the scan |
| Matcher.CandidatesSnoc | services/airtableService.ts:174-175 | one more profile appends its identifiers' candidates |
| Matcher.VisitIdentifier | services/airtableService.ts:175-207 | one inner-loop iteration advances the scan by one candidate |
| Matcher.BestMatch | services/airtableService.ts:172-209 | the nested loops end with the best match of the scan specification |
| Matcher.MatchIndex | services/airtableService.ts:170-215 | a returned index is a valid store position |
| Matcher.MatchQueryFromScan | services/airtableService.ts:213-215 | the returned profile is the scan's pick when its score is at least 60, otherwise none |
| Matcher.ScanClearsThreshold | services/airtableService.ts:214-215 | when every score is 0 or above a floor, a picked score clears it |
| Matcher.ScanPicksIffPositive | services/airtableService.ts:205-209 | a profile is picked exactly when some identifier scores above 0 |
| Matcher.FirstIsEarliestBest | services/airtableService.ts:205-207 | no candidate beats the first best, and earlier profiles stay strictly below it |
| Matcher.ScanBounds | services/airtableService.ts:205-207 | no identifier scores above the pick, and earlier profiles' identifiers score strictly below |
| Matcher.ScanPicksFirstBest | services/airtableService.ts:205-207 | the picked profile holds a best-scoring identifier and ties go to the earlier profile |
| Matcher.MatchIndexSpec | services/airtableService.ts:161-215 | no match for an empty normal form; otherwise a match exactly when some identifier scores above 0, and it is the first profile with a best identifier |
| Matcher.ExactMatchWins | services/airtableService.ts:179-207 | the first profile with an exact identifier match is returned |
| Constants.CategoryScore | constants.ts:4-10 | only Positive scores above 0; every score lies in [-4, 2] |
| Constants.CategoryScores | constants.ts:5-9 | Infidelity -3, Theft -4, Betrayal -3, Toxic -2, Positive 2 |
| Constants.TablesAreTotal | constants.ts:4-17 | both tables cover every category and every level, Unknown included |
| Constants.CalculateReputation | services/airtableService.ts:93-97 | Positive exactly above 0, Warning exactly in (-3, 0], Risk exactly at -3 or below, never Unknown |
| Constants.ReputationMonotone | services/airtableService.ts:93-97 | a higher total never gives a worse level |
| Constants.SingleReviewReputation | constants.ts:5-9 | one review on a new profile gives Positive, Warning for Toxic, Risk for the rest |
| Store.InitialProfilesConsistent | services/airtableService.ts:17-40 | each initial profile's total is the sum of its reviews and its level follows the thresholds |
| Store.AuthorOf | services/airtableService.ts:255 | the author is the pseudonym, else the Instagram handle, else "Anónimo" |
| Store.FindProfile | services/airtableService.ts:260-261 | the first profile with an identifier equal to the key in lower case, or none |
| Store.ApplyReviewEffect | services/airtableService.ts:260-277 | the first matching profile gets the review and the score, nothing else changes; without a match one new profile is appended |
| Store.ReviewSumAppend | services/airtableService.ts:264-265 | appending a review moves the review sum by its score |
| Store.ApplyReviewConsistent | services/airtableService.ts:263-277 | totals and levels stay in step with the reviews after a submission |
| Store.TotalsUpdate | services/airtableService.ts:264-265 | replacing one profile moves the summed totals and the review count by its difference |
| Store.ApplyReviewTotals | services/airtableService.ts:258-277 | a submission adds exactly one review and moves the summed totals by its score |
| Store.SortedByScoreFacts | services/airtableService.ts:287 | the sorted copy is a permutation in ascending total order |
| Store.TopNegativeSpec | services/airtableService.ts:287-289 | at most five profiles in ascending order, drawn from the store, and none left out has a lower total |
| Store.TopPositiveSpec | services/airtableService.ts:287-290 | at most five profiles in descending order, drawn from the store, and none left out has a higher total |
| Store.TopPositiveOrdered | services/airtableService.ts:290 | the reversed prefix is in descending order |
| Store.DescendingPrefixTop | services/airtableService.ts:290 | a prefix of a descending list dominates what it leaves out |
| Store.TopPositiveSelection | services/airtableService.ts:290 | the top list is drawn from the store and dominates what it leaves out |
| Store.ReversedDescending | services/airtableService.ts:290 | reversing an ascending list gives a descending one |
| Store.ReverseSameMultiset | services/airtableService.ts:290 | reversing keeps the elements |
| Store.Register | services/airtableService.ts:300-318 | success exactly without a phone or given-email conflict; a rejection changes nothing; a success appends the new user |
| Store.FindUser | services/airtableService.ts:325 | the first user with the phone, or none |
| Store.Login | services/airtableService.ts:321-344 | success exactly when the first user with the phone has a non-empty hash equal to `hashed_<password>` |
| Store.RegisterThenLogin | services/airtableService.ts:300-343 | registering with a password and logging in with it succeeds as the new user |
| Store.SocialAccountNeverLogsIn | services/airtableService.ts:332-334 | an account without a hash never logs in |
| Store.TakenPhoneRejected | services/airtableService.ts:300-303 | a taken phone is refused with the list unchanged |
| Store.Database.constructor | services/airtableService.ts:76-78 | the store starts from the initial mock lists, consistent |
| Store.Database.GetProfileByQuery | services/airtableService.ts:161-215 | the loops return the profile of the matcher specification |
| Store.Database.SubmitReview | services/airtableService.ts:243-281 | one review appended, the profiles updated as the submission specifies, users untouched, consistency kept, answer true |
| Store.Database.GetRankings | services/airtableService.ts:283-293 | the two rankings of the specification, with the store unchanged |
| Store.Database.RegisterUser | services/airtableService.ts:295-319 | the user list and answer of the registration specification, reviews and profiles untouched |
| Store.Database.LoginUser | services/airtableService.ts:321-344 | the answer of the login specification |
| SupabaseStore.Column | services/databaseService.ts:125-126 | `row.<name> \|\| 0` reads a stored column or 0 |
| SupabaseStore.CalculateReputationLevel | services/databaseService.ts:472-476 | Positive exactly above 0, Risk exactly at -3 or below, the same thresholds as the in-memory service |
| SupabaseStore.NewRow | services/databaseService.ts:24-32 | a new profile row starts at total 0 over 0 reviews |
| SupabaseStore.Fetched | services/databaseService.ts:6-42 | the existing row, or the newly created one |
| SupabaseStore.Store | services/databaseService.ts:128-135 | the update writes the two columns and keeps every other |
| SupabaseStore.SubmitReviewAsWritten | services/databaseService.ts:94-145 | as written: true exactly when the profile was obtained and the review inserted; the stored total is the new score over 1 review |
| SupabaseStore.SubmitReview | services/databaseService.ts:94-145 | true exactly when the profile was obtained and the review inserted; a written-back review adds its score and 1; otherwise the found or created row is kept |
| SupabaseStore.AsWrittenForgets | services/databaseService.ts:125-126 | on a table row the camel-case fields read 0, so the write-back is (score, 1) |
| SupabaseStore.AsWrittenCounterexample | services/databaseService.ts:125-126 | total -8 over 3 reviews plus a +2 review is stored as (2, 1), Positive, instead of (-6, 4), Risk |
| SupabaseStore.SubmitAllAccumulates | services/databaseService.ts:124-135 | read from its columns, a run of submissions stores the sum of the scores over as many reviews |
| SupabaseStore.SubmitAllAsWrittenKeepsLast | services/databaseService.ts:124-135 | as written, a run of submissions keeps only the last score over one review |
| SupabaseStore.TwoSubmissionsAccumulate | services/databaseService.ts:124-135 | read from its columns, two submissions add up |
| Instagram.AddVariant | services/databaseService.ts:391 | `Set.add` adds the value once, keeping the insertion order and distinctness |
| Instagram.NameNumberVariants | services/databaseService.ts:393-400 | the name/number form yields four spellings |
| Instagram.SeparatorVariants | services/databaseService.ts:408-420 | the first separator family present, `.` before `_` before `-`, is rewritten three ways, removing it |
| Instagram.DotTakesPriority | services/databaseService.ts:408-420 | with a `.` present, every `_` and `-` survives |
| Instagram.UnderscoreBeforeDash | services/databaseService.ts:412-420 | with a `_` and no `.`, every `-` survives |
| Instagram.SearchVariants | services/databaseService.ts:387-420 | distinct variants: the trimmed lower-case query, its stripped form, the name/number spellings, the letter prefix, the separator rewrites, and nothing else |
| Instagram.AddAll | services/databaseService.ts:391-420 | adding a list keeps exactly the union and distinctness |
| Instagram.AvatarGender | services/databaseService.ts:423-424 | "male" exactly when the character-code sum is even |
| Instagram.AvatarId | services/databaseService.ts:425 | the character-code sum modulo 70, below 70 |
| Instagram.SwappedPartsSamePic | services/databaseService.ts:422-427 | the avatar depends only on the characters, not their order |
| Instagram.AsResult | services/databaseService.ts:441-444 | an account keeps its own picture, or gets the deterministic avatar |
| Instagram.MockProfiles | services/databaseService.ts:429-444 | the result list is the account list, position by position |
| Instagram.MockUsernamesDistinct | services/databaseService.ts:429-439 | no two mock accounts share a username |
| Instagram.Filter | services/databaseService.ts:448-466 | the kept accounts come from the list and pass the test |
| Instagram.FilterComplete | services/databaseService.ts:448-466 | every account passing the test is kept |
| Instagram.MatchingExactly | services/databaseService.ts:448-466 | an account is returned exactly when some variant matches it |
| Instagram.FilterDistinct | services/databaseService.ts:446-468 | no account is returned twice |
| Instagram.FilterAll | services/databaseService.ts:448-466 | when every account passes, all are returned in order |
| Instagram.IndexOfUsername | services/databaseService.ts:454 | the position of the map entry with that key, or none |
| Instagram.MapSet | services/databaseService.ts:454 | `Map.set` with a new key appends the entry |
| Instagram.Visit | services/databaseService.ts:452-465 | the inner loop sets the entry exactly when some variant matches, and leaves it otherwise |
| Instagram.CollectMatches | services/databaseService.ts:446-468 | the outer loop collects exactly the matching accounts, once each, in list order |
| Instagram.MatchingStep | services/databaseService.ts:448-466 | one more account grows the matches by it exactly when some variant matches it |
| Instagram.FreshUsername | services/databaseService.ts:446-454 | before an account is visited no entry carries its username |
| Instagram.SearchInstagramProfiles | services/databaseService.ts:383-469 | the returned accounts are exactly the mock accounts some variant matches, distinct, in list order |
| Instagram.BlankQueryMatchesAll | services/databaseService.ts:387-468 | a blank query matches every account, as `includes("")` holds |
| Notifications.CountUnread | contexts/NotificationContext.tsx:81 | the unread count is at most the length, and 0 exactly when everything is read |
| Notifications.MarkRead | contexts/NotificationContext.tsx:67-71 | same length and order; `read` is set only on entries with the id |
| Notifications.MarkAllRead | contexts/NotificationContext.tsx:73-75 | same length and order; every entry is read |
| Notifications.MarkAllReadSettles | contexts/NotificationContext.tsx:73-75 | nothing is unread afterwards, and applying it twice equals once |
| Notifications.MarkReadCount | contexts/NotificationContext.tsx:67-71 | the unread count drops by the unread entries with that id |
| Notifications.MarkReadKeepsOthers | contexts/NotificationContext.tsx:69 | entries with another id are unchanged |
| Notifications.PrependUnread | contexts/NotificationContext.tsx:64 | a new unread entry in front adds one to the count |
| Notifications.NotificationStore.constructor | contexts/NotificationContext.tsx:19-27 | the store starts from the saved list and first-visit mark |
| Notifications.NotificationStore.ShowWelcome | contexts/NotificationContext.tsx:31-42 | only on a first visit with an empty list: a single unread welcome entry, and the mark set; otherwise nothing changes |
| Notifications.NotificationStore.AddNotification | contexts/NotificationContext.tsx:56-65 | one new unread entry in front of the unchanged old list; the count grows by one |
| Notifications.NotificationStore.MarkAsRead | contexts/NotificationContext.tsx:67-71 | the list is marked by id; the count drops by the matching unread entries |
| Notifications.NotificationStore.MarkAllAsRead | contexts/NotificationContext.tsx:73-75 | every entry read, count 0 |
| Notifications.NotificationStore.ClearNotifications | contexts/NotificationContext.tsx:77-79 | the list is empty, count 0 |
| RegisterForm.FailedRules | pages/RegisterPage.tsx:19-23 | at most one message per checked rule, each from the rule table |
| RegisterForm.FailedRulesMembers | pages/RegisterPage.tsx:19-23 | a rule's message is present exactly when that rule fails |
| RegisterForm.FailedRulesOrdered | pages/RegisterPage.tsx:19-23 | messages appear in rule order: length, lower case, upper case, digit, symbol |
| RegisterForm.StrongIffAllRules | pages/RegisterPage.tsx:17-25 | a strong password is one passing all five rules |
| RegisterForm.NoFailedRulesIffStrong | pages/RegisterPage.tsx:17-25 | no message exactly for a strong password |
| RegisterForm.ValidatePassword | pages/RegisterPage.tsx:17-25 | the pushes give at most five messages in rule order, one exactly per failed rule, none exactly for a strong password |
| RegisterForm.OrUndefined | pages/RegisterPage.tsx:52-53 | `x \|\| undefined` is absent exactly for "" |
| RegisterForm.BlankPhoneFirst | pages/RegisterPage.tsx:33-36 | a blank phone is refused before any other check, registering nothing |
| RegisterForm.WeakPasswordBeforeMismatch | pages/RegisterPage.tsx:38-47 | with an email, the weak-password error comes before the mismatch error |
| RegisterForm.LoggedInMeans | pages/RegisterPage.tsx:29-63 | a login implies a non-blank phone, a strong confirmed password when an email was given, and a registry success for the trimmed phone |
| RegisterForm.PhoneOnlyRegisters | pages/RegisterPage.tsx:38-58 | without an email no password rule applies, and a fresh phone logs in |
| ReviewCard.Toggle | components/ReviewCard.tsx:22-33 | confirming adds 1 and sets the flag; unconfirming subtracts 1 and clears it |
| ReviewCard.ToggleTracks | components/ReviewCard.tsx:15-33 | the counter stays the review's count plus one while confirmed |
| ReviewCard.ToggleTwice | components/ReviewCard.tsx:22-33 | toggling twice restores the state |
| ReviewCard.ToggleTimesTracks | components/ReviewCard.tsx:15-33 | after any number of toggles the invariant holds and the flag is the parity |
| ReviewCard.ConfirmNotice | components/ReviewCard.tsx:26-28 | a notification only on confirm, and only with a reviewed person |
| ReviewCard.Card.constructor | components/ReviewCard.tsx:15-16 | a card starts at the review's count, unconfirmed |
| ReviewCard.Card.HandleConfirm | components/ReviewCard.tsx:22-33 | the state toggles, the invariant is kept, and the notice is returned |
| ResultsPage.CountPositive | pages/ResultsPage.tsx:23 | the positive count is at most the review count |
| ResultsPage.CountNegative | pages/ResultsPage.tsx:24 | the negative count is at most the review count |
| ResultsPage.Summary | pages/ResultsPage.tsx:18-32 | no summary exactly without a profile; otherwise its total and review count |
| ResultsPage.CountsPartition | pages/ResultsPage.tsx:23-24 | positive, negative and zero counts add up to the review count |
| ResultsPage.SummaryCounts | pages/ResultsPage.tsx:23-31 | positive plus negative is at most the review count, short by the zero-score reviews |
| ResultsPage.ZeroScoresUncounted | pages/ResultsPage.tsx:23-24 | zero-score reviews count in neither group |
| ResultsPage.SortWebResultsSpec | pages/ResultsPage.tsx:59-65 | a permutation with every found Badoo result first, each group in input order |
| Sorting.Insert | pages/ResultsPage.tsx:59-65 | insertion adds exactly one element |
| Sorting.WithKey | pages/ResultsPage.tsx:59-65 | the elements of one key, drawn from the list |
| Sorting.InsertSorted | pages/ResultsPage.tsx:59-65 | insertion into a sorted list keeps it sorted |
| Sorting.SortBySorted | pages/ResultsPage.tsx:59-65 | the sort orders by key |
| Sorting.SortByPermutation | pages/ResultsPage.tsx:59-65 | the sort is a permutation |
| Sorting.InsertStable | pages/ResultsPage.tsx:59-65 | insertion places an element after its own key class |
| Sorting.SortByStable | pages/ResultsPage.tsx:59-65 | the sort keeps the order inside each key |
| Sorting.SortedTwoKeys | pages/ResultsPage.tsx:59-65 | a sorted 0/1-keyed list is its 0s followed by its 1s |
| Sorting.Take | services/airtableService.ts:289 | `slice(0, n)` is the prefix of length min(n, length) |
| Sorting.Reverse | services/airtableService.ts:290 | `reverse` maps position i to length - 1 - i |

## Left out

- Persistence: `localStorage` load and save of the mock lists and the notifications, and parse failures. The stores are in-memory fields, and the notification store begins from a saved list given as a parameter.
- The Supabase client: every query in `services/databaseService.ts` except the submission arithmetic. This includes its `getProfileByQuery`, rankings, user functions and the inserted review row's contents. `SupabaseStore` models each call only by whether it succeeds.
- SupabaseStore.Store: does not model the `last_updated` timestamp it also writes; a row holds only its integer columns.
- Asynchrony: delays, promises and `try`/`catch` shape. Operations are synchronous; a thrown database error is a false answer.
- The Instagram enrichment of a matched profile (`services/airtableService.ts:217-237`) and `fetchInstagramProfileData`: a remote lookup. `Store.Database.GetProfileByQuery` returns the matched profile without it.
- The second copy of `searchInstagramProfiles` in `services/airtableService.ts:469-557` repeats the one modelled.
- `performWebChecks`, `getUserProfile` and the AI pages: URL templating, foreign calls, and display data.
- `handleSocialRegister`, the form's loading flags and the redirect after login. `RegisterForm.HandleSubmit` ends in a `LoggedIn` outcome.
- Clock and randomness: review, profile, user and notification ids and dates are parameters.
- Phonetic.Nfd: covers only the precomposed Latin-1 letters of Spanish text; the rest of Unicode passes unchanged.
- Text.Lower: lowers ASCII and Latin-1 capitals only, not all of Unicode.
- Text.IsWhitespace: uses a fixed white-space set, not every Unicode space character.
- Matcher.ContainmentScore: lengths are counted in characters, not UTF-16 code units, and scores are exact rationals rather than doubles.
- Levenshtein.LevenshteinDistance: strings are sequences of characters, not UTF-16 code units. A character outside the Basic Multilingual Plane is one edit here but two code units to the source, so "anape😀" against "anapez" is at distance 1 here and 2 in the source.
- Matcher.Similarity: the divisor is the longer length in characters, not UTF-16 code units, so it differs from the source for characters outside the Basic Multilingual Plane (for "anape😀" against "anapez", 1 - 1/6 here and 1 - 2/7 in the source).
- Matcher.FuzzyScore: it inherits the character counting of Matcher.Similarity, so a query with a character outside the Basic Multilingual Plane can clear the fuzzy threshold here and miss it in the source.
- ReviewCard.Card.HandleConfirm: React's batching of state updates is not modelled; one call is one update of both variables.

## Findings

| source | as written | input that shows it | evidently intended | confidence | as-written member | corrected member |
|---|---|---|---|---|---|---|
| services/databaseService.ts:125-126 | the write-back reads `personProfile.totalScore` and `reviewCount`, but the profile is the raw row (cast at line 21) whose columns are `total_score` and `review_count`, so both read as undefined and become 0 | a profile stored at total -8 over 3 reviews receives a +2 review: it is stored as 2 over 1 review (Positive) | read `total_score` and `review_count`, as the mapping at lines 69-70 does, giving -6 over 4 reviews (Risk) | not executed | SupabaseStore.SubmitReviewAsWritten | SupabaseStore.SubmitReview |
