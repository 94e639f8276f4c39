/** The entities of the flashcard core: a saved note with its review state,
    the review outcomes a user can give, and the screens of the app. */
module Types {

  /** A value that may be missing (a failed external call, an omitted field). */
  datatype Option<T> = None | Some(value: T) {

    /** The carried value, or `default` when there is none. */
    function GetOr(default: T): T
    {
      match this
      case Some(v) => v
      case None => default
    }
  }

  /** Scheduling tier of a card. */
  datatype Status = New | Active | Mastered

  /** The user's judgement of how well a card was recalled. */
  datatype ReviewRating = Forgot | Hard | Easy

  /** The three screens the app switches between. */
  datatype ViewState = Home | Review | Weekly

  /** One saved note plus its spaced-repetition state. Timestamps are
      milliseconds since the Unix epoch; `interval` is a day count that may be
      fractional (21 * 2.5 = 52.5), so it is a `real`. */
  datatype Card = Card(
    id: string,
    content: string,
    title: string,
    summary: string,
    keywords: seq<string>,
    question: string,
    createdAt: int,
    nextReviewAt: int,
    interval: real,
    reviewCount: int,
    status: Status)
}
