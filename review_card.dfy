/**
 * The confirm button of a review card: a local confirmation counter seeded
 * from the review and a flag saying whether this visitor has confirmed.
 */
module ReviewCard {
  import opened Types

  /** The two state variables of the card. */
  datatype CardState = CardState(confirmations: int, isConfirmed: bool)

  /** The state a freshly rendered card starts in. */
  function Initial(review: Review): CardState
  {
    CardState(review.confirmations, false)
  }

  /** The counter is the review's own count plus one while this visitor has confirmed. */
  predicate Tracks(review: Review, s: CardState)
  {
    s.confirmations == review.confirmations + (if s.isConfirmed then 1 else 0)
  }

  /** `handleConfirm` on the two state variables. */
  function Toggle(s: CardState): (t: CardState)
    ensures t.isConfirmed == !s.isConfirmed
    ensures t.confirmations == s.confirmations + (if s.isConfirmed then -1 else 1)
  {
    if !s.isConfirmed then CardState(s.confirmations + 1, true)
    else CardState(s.confirmations - 1, false)
  }

  /** Toggling keeps the counter in step with the review, from the initial state on. */
  lemma ToggleTracks(review: Review, s: CardState)
    requires Tracks(review, s)
    ensures Tracks(review, Toggle(s))
  {
  }

  /** Toggling twice gives back the state toggled from. */
  lemma ToggleTwice(s: CardState)
    ensures Toggle(Toggle(s)) == s
  {
  }

  /** Any number of toggles from the initial state leaves a state that tracks the review. */
  function ToggleTimes(s: CardState, n: nat): CardState
  {
    if n == 0 then s else Toggle(ToggleTimes(s, n - 1))
  }

  lemma {:induction false} ToggleTimesTracks(review: Review, n: nat)
    ensures Tracks(review, ToggleTimes(Initial(review), n))
    ensures ToggleTimes(Initial(review), n).isConfirmed <==> n % 2 == 1
  {
    if n > 0 {
      ToggleTimesTracks(review, n - 1);
      ToggleTracks(review, ToggleTimes(Initial(review), n - 1));
    }
  }

  /** The text of the thank-you notification sent on a confirm. */
  function ConfirmMessage(person: string): string
  {
    "Has confirmado la rese\U{F1}a sobre " + person + ". \U{A1}Gracias!"
  }

  /** The message `handleConfirm` hands to `addNotification`, if any. */
  function ConfirmNotice(review: Review, s: CardState): (m: Option<string>)
    ensures m.Some? <==> !s.isConfirmed && Truthy(review.personReviewed)
  {
    if !s.isConfirmed && Truthy(review.personReviewed) then Some(ConfirmMessage(review.personReviewed.value))
    else None
  }

  class Card {
    const review: Review
    var confirmations: int
    var isConfirmed: bool

    ghost predicate Valid()
      reads this
    {
      Tracks(review, CardState(confirmations, isConfirmed))
    }

    constructor (r: Review)
      ensures review == r && confirmations == r.confirmations && !isConfirmed
      ensures Valid()
    {
      review := r;
      confirmations := r.confirmations;
      isConfirmed := false;
    }

    /** `handleConfirm`: flip the flag, move the counter, and return the notification to emit. */
    method HandleConfirm() returns (notice: Option<string>)
      requires Valid()
      modifies this
      ensures Valid()
      ensures CardState(confirmations, isConfirmed) == Toggle(old(CardState(confirmations, isConfirmed)))
      ensures notice == ConfirmNotice(review, old(CardState(confirmations, isConfirmed)))
    {
      notice := None;
      if !isConfirmed {
        confirmations, isConfirmed := confirmations + 1, true;
        if Truthy(review.personReviewed) {
          notice := Some(ConfirmMessage(review.personReviewed.value));
        }
      } else {
        confirmations, isConfirmed := confirmations - 1, false;
      }
    }
  }
}
