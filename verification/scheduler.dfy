/** The spaced-repetition scheduler: given a card and a rating, the card's next
    interval, status, review count and due time (storageService.ts,
    calculateNextReview). The clock reading `now` and the local time zone are
    parameters instead of `Date.now()` and the host's zone. */
module Scheduler {
  import opened Types
  import opened LocalTime

  /** Longest interval, in days, an EASY rating can produce. */
  const MaxInterval: real := 365.0

  /** An EASY rating that yields an interval above this masters the card. */
  const MasteryThreshold: real := 21.0

  /** The staged EASY ladder: an interval equal to `EasyLadder[k]` (k < 4)
      moves to `EasyLadder[k + 1]`. */
  const EasyLadder: seq<real> := [0.0, 1.0, 3.0, 7.0, 21.0]

  function MinReal(a: real, b: real): real
  {
    if a <= b then a else b
  }

  function MaxReal(a: real, b: real): real
  {
    if a >= b then a else b
  }

  /** Interval after an EASY rating: the exact-equality ladder, else growth by
      2.5 capped at MaxInterval. */
  function EasyInterval(i: real): real
  {
    if i == 0.0 then 1.0
    else if i == 1.0 then 3.0
    else if i == 3.0 then 7.0
    else if i == 7.0 then 21.0
    else MinReal(i * 2.5, MaxInterval)
  }

  /** Interval after a HARD rating: half the interval rounded down, never
      below one day. */
  function HardInterval(i: real): real
  {
    MaxReal(1.0, (i * 0.5).Floor as real)
  }

  /** The next interval for a rating.  */
  function NextInterval(i: real, rating: ReviewRating): (r: real)
    // an interval within a year stays within a year
    ensures i <= MaxInterval ==> r <= MaxInterval
    // from creation (interval 1) onward, or from 0, the interval is at least a day
    ensures i == 0.0 || i >= 1.0 ==> r >= 1.0
    // EASY never shrinks a non-negative interval and grows it until the cap
    ensures rating == Easy && 0.0 <= i ==> r >= i || i > MaxInterval
    ensures rating == Easy && 0.0 <= i < MaxInterval ==> r > i
    // HARD shrinks every interval of two days or more, and never goes below a day
    ensures rating == Hard ==> r >= 1.0
    ensures rating == Hard && i >= 2.0 ==> r < i
    ensures rating == Hard && i < 2.0 ==> r == 1.0
  {
    match rating
    case Forgot => 1.0
    case Hard => HardInterval(i)
    case Easy => EasyInterval(i)
  }

  /** The next status: FORGOT forces `Active`; EASY masters the card when the
      new interval exceeds the threshold; otherwise the status is kept. */
  function NextStatus(status: Status, rating: ReviewRating, newInterval: real): Status
  {
    match rating
    case Forgot => Active
    case Hard => status
    case Easy => if newInterval > MasteryThreshold then Mastered else status
  }

  /** `calculateNextReview`: the card after one review at instant `now`. */
  function NextReview(card: Card, rating: ReviewRating, now: int, z: Zone): (r: Card)
    // one more review, and nothing but the four scheduling fields changes
    ensures r.reviewCount == card.reviewCount + 1
    ensures r.(interval := card.interval, status := card.status,
               nextReviewAt := card.nextReviewAt, reviewCount := card.reviewCount) == card
    ensures r.interval == NextInterval(card.interval, rating)
    // due at 04:00 local time on the local day `interval` days after now
    ensures TimeOfDay(r.nextReviewAt, z) == FourAmMs
    ensures LocalDay(r.nextReviewAt, z)
         == LocalDay(TimeValue(now as real + r.interval * DayMs as real), z)
    // status: FORGOT resets to Active, HARD keeps, EASY masters above 21 days
    ensures rating == Forgot ==> r.status == Active
    ensures rating == Hard ==> r.status == card.status
    ensures rating == Easy ==>
      (r.status == Mastered <==> r.interval > MasteryThreshold || card.status == Mastered)
    ensures rating == Easy && r.interval <= MasteryThreshold ==> r.status == card.status
  {
    var interval := NextInterval(card.interval, rating);
    var status := NextStatus(card.status, rating, interval);
    var target := TimeValue(now as real + interval * DayMs as real);
    card.(interval := interval,
          nextReviewAt := At4am(target, z),
          reviewCount := card.reviewCount + 1,
          status := status)
  }

  /** Rank of a status along the usual path New -> Active -> Mastered. */
  function Rank(s: Status): nat
  {
    match s
    case New => 0
    case Active => 1
    case Mastered => 2
  }

  /** FORGOT: interval one day and status Active, whatever the prior status,
      mastered included. */
  lemma ForgotResets(card: Card, now: int, z: Zone)
    ensures NextReview(card, Forgot, now, z).interval == 1.0
    ensures NextReview(card, Forgot, now, z).status == Active
  {
  }

  /** HARD: interval max(1, floor(I * 0.5)), status unchanged. */
  lemma HardHalves(card: Card, now: int, z: Zone)
    ensures NextReview(card, Hard, now, z).interval
         == MaxReal(1.0, (card.interval / 2.0).Floor as real)
    ensures NextReview(card, Hard, now, z).status == card.status
  {
  }

  /** EASY on a rung of the ladder climbs one rung. */
  lemma EasyClimbsLadder(k: nat)
    requires k < |EasyLadder| - 1
    ensures NextInterval(EasyLadder[k], Easy) == EasyLadder[k + 1]
  {
  }

  /** EASY off the ladder multiplies by 2.5, capped at 365. */
  lemma EasyOffLadder(i: real)
    requires i !in EasyLadder[..|EasyLadder| - 1]
    ensures NextInterval(i, Easy) == MinReal(i * 2.5, MaxInterval)
  {
    assert EasyLadder[..|EasyLadder| - 1] == [0.0, 1.0, 3.0, 7.0];
  }

  /** The interval range [1, 365] that every card holds from creation on is
      kept by every rating. */
  lemma IntervalRangeKept(i: real, rating: ReviewRating)
    requires 1.0 <= i <= MaxInterval
    ensures 1.0 <= NextInterval(i, rating) <= MaxInterval
  {
  }

  /** Apart from FORGOT, the status never moves back along
      New -> Active -> Mastered. */
  lemma StatusOnlyAdvances(card: Card, rating: ReviewRating, now: int, z: Zone)
    requires rating != Forgot
    ensures Rank(NextReview(card, rating, now, z).status) >= Rank(card.status)
  {
  }

  /** A card reviewed at `now` with an interval of at least a day is not due
      again at `now`: its next review is 04:00 of a later local day. */
  lemma ReviewedCardNotDue(card: Card, rating: ReviewRating, now: int, z: Zone)
    requires card.interval == 0.0 || card.interval >= 1.0
    ensures NextReview(card, rating, now, z).nextReviewAt > now
  {
    var r := NextReview(card, rating, now, z);
    var target := TimeValue(now as real + r.interval * DayMs as real);
    assert now as real + r.interval * DayMs as real >= (now + DayMs) as real;
    TimeValueAtLeast(now as real + r.interval * DayMs as real, now + DayMs);
    ShiftDays(now, 1, z);
    assert LocalDay(target, z) >= LocalDay(now + DayMs, z) by {
      DaySplit(target, z);
      DaySplit(now + DayMs, z);
    }
    At4amOfLaterDay(now, target, z);
  }

  /** Repeated EASY ratings from a new card (interval 1):
      3, 7, 21, 52.5, 131.25, 328.125, then the 365-day cap. The card is
      mastered first at 52.5, not at 21. */
  lemma EasyRunFromNewCard(card: Card, now: int, z: Zone)
    requires card.interval == 1.0 && card.status == New
    ensures var c1 := NextReview(card, Easy, now, z);
            var c2 := NextReview(c1, Easy, now, z);
            var c3 := NextReview(c2, Easy, now, z);
            var c4 := NextReview(c3, Easy, now, z);
            && c1.interval == 3.0 && c1.status == New
            && c2.interval == 7.0 && c2.status == New
            && c3.interval == 21.0 && c3.status == New
            && c4.interval == 52.5 && c4.status == Mastered
            && c4.reviewCount == card.reviewCount + 4
  {
  }

  /** Beyond 21 days, EASY runs 52.5 -> 131.25 -> 328.125 -> 365 -> 365. */
  lemma EasyRunToCap()
    ensures NextInterval(52.5, Easy) == 131.25
    ensures NextInterval(131.25, Easy) == 328.125
    ensures NextInterval(328.125, Easy) == MaxInterval
    ensures NextInterval(MaxInterval, Easy) == MaxInterval
  {
  }
}
