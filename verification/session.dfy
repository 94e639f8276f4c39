/** The app session (App.tsx): the card store, the current screen, the review
    queue and the position in it, as a pure (state, event) -> state machine.

    React re-runs the queue effect after a render in which the store array or
    the screen changed while the screen is Home; `Settle` models that. Events
    are only accepted where the screen shows the control that raises them:
    Start, the text area and Save on Home, the rating buttons on Review (with a
    non-empty queue), the report's close button on Weekly, the report button
    on Home when the local day is a Sunday, and the logo everywhere. */
module Session {
  import opened Types
  import opened LocalTime
  import opened Scheduler
  import opened DueSelector
  import opened CardInput

  /** Everything the session holds. `form` is the input section's state,
      which exists only while Home is shown; `writes` counts store writes. */
  datatype State = State(
    cards: seq<Card>,
    view: ViewState,
    queue: seq<Card>,
    index: nat,
    form: InputForm,
    writes: nat)

  datatype Event =
    | LogoClicked
    | WeeklyOpened
    | WeeklyClosed
    | ReviewStarted
    | Rated(rating: ReviewRating)
    | TextEdited(text: string)
    | SaveClicked(meta: Option<Metadata>, id: string)

  /** The session invariant: the queue holds at most three cards, the review
      position is inside it while reviewing, and the input form is fresh
      whenever it is not on screen. */
  predicate Valid(s: State)
  {
    && |s.queue| <= DailyCap
    && (s.view == Review ==> s.index < |s.queue|)
    && (s.view != Home ==> s.form == EmptyForm)
  }

  /** The ids of a store, in store order. */
  function Ids(cards: seq<Card>): (r: seq<string>)
    ensures |r| == |cards|
    ensures forall i :: 0 <= i < |cards| ==> r[i] == cards[i].id
  {
    if cards == [] then [] else [cards[0].id] + Ids(cards[1..])
  }

  /** The session right after the store has been loaded. */
  function Init(loaded: seq<Card>, now: int): (s: State)
    ensures Valid(s)
    ensures s.view == Home && s.cards == loaded
    ensures forall c :: c in s.queue ==> c in loaded && c.nextReviewAt <= now
    ensures s.queue == ReviewQueue(loaded, now) && s.form == EmptyForm && s.writes == 0
  {
    State(loaded, Home, ReviewQueue(loaded, now), 0, EmptyForm, 0)
  }

  /** `handleSaveCard`: the new card goes in front of the store, which is
      then written once. */
  function SaveCard(s: State, card: Card): (r: State)
    ensures |r.cards| == |s.cards| + 1
    ensures r.cards[0] == card && r.cards[1..] == s.cards
    ensures r.writes == s.writes + 1
    ensures r.(cards := s.cards, writes := s.writes) == s
  {
    s.(cards := [card] + s.cards, writes := s.writes + 1)
  }

  /** `startReview`: with a non-empty queue, review from its first card;
      otherwise nothing happens. */
  function StartReview(s: State): (r: State)
    ensures |s.queue| > 0 ==> r.view == Review && r.index == 0 && r.index < |r.queue|
    ensures |s.queue| > 0 ==> r.(view := s.view, index := s.index) == s
    ensures |s.queue| == 0 ==> r == s
  {
    if |s.queue| > 0 then s.(index := 0, view := Review) else s
  }

  /** `cards.map(c => c.id === id ? updated : c)`. */
  function ReplaceById(cards: seq<Card>, id: string, updated: Card): (r: seq<Card>)
    ensures |r| == |cards|
    ensures forall i :: 0 <= i < |cards| ==>
      r[i] == if cards[i].id == id then updated else cards[i]
  {
    if cards == [] then []
    else [if cards[0].id == id then updated else cards[0]] + ReplaceById(cards[1..], id, updated)
  }

  /** Replacing by id with a card of that same id keeps the store's ids. */
  lemma ReplaceKeepsIds(cards: seq<Card>, id: string, updated: Card)
    requires updated.id == id
    ensures Ids(ReplaceById(cards, id, updated)) == Ids(cards)
  {
  }

  /** `handleReviewRating`: schedule the current queue card, replace every
      store card with its id, write the store once, then move to the next
      queue card or, after the last one, back to Home. */
  function RateCard(s: State, rating: ReviewRating, now: int, z: Zone): (r: State)
    requires s.index < |s.queue|
    ensures r.cards == ReplaceById(s.cards, s.queue[s.index].id,
                                   NextReview(s.queue[s.index], rating, now, z))
    ensures Ids(r.cards) == Ids(s.cards)
    ensures r.writes == s.writes + 1
    ensures r.queue == s.queue && r.form == s.form
    ensures s.index < |s.queue| - 1 ==> r.view == s.view && r.index == s.index + 1
    ensures s.index == |s.queue| - 1 ==> r.view == Home && r.index == s.index
  {
    var current := s.queue[s.index];
    var updated := NextReview(current, rating, now, z);
    ReplaceKeepsIds(s.cards, current.id, updated);
    var s1 := s.(cards := ReplaceById(s.cards, current.id, updated), writes := s.writes + 1);
    if s.index < |s.queue| - 1 then s1.(index := s.index + 1) else s1.(view := Home)
  }

  /** The queue effect: on Home, after the store was written or the screen
      changed, the queue becomes the first three due cards. The input form is
      discarded whenever Home is not shown. */
  function Settle(before: State, after: State, storeWritten: bool, now: int): (r: State)
    ensures r.cards == after.cards && r.view == after.view && r.index == after.index
    ensures r.writes == after.writes
    ensures r.queue != after.queue ==> r.view == Home
    ensures r.view == Home && (storeWritten || before.view != Home)
            ==> r.queue == ReviewQueue(r.cards, now)
    ensures !(r.view == Home && (storeWritten || before.view != Home)) ==> r.queue == after.queue
    ensures r.view != Home ==> r.form == EmptyForm
    ensures r.view == Home ==> r.form == after.form
  {
    var shown := if after.view == Home then after else after.(form := EmptyForm);
    if shown.view == Home && (storeWritten || before.view != Home)
    then shown.(queue := ReviewQueue(shown.cards, now))
    else shown
  }

  /** `after` keeps every card of `before`: the old ids end the new id list. */
  predicate KeepsCards(before: seq<Card>, after: seq<Card>)
  {
    |after| >= |before| && Ids(after)[|after| - |before|..] == Ids(before)
  }

  /** A store keeps its own cards. */
  lemma KeepsCardsRefl(cards: seq<Card>)
    ensures KeepsCards(cards, cards)
  {
    assert Ids(cards)[0..] == Ids(cards);
  }

  lemma KeepsCardsTrans(a: seq<Card>, b: seq<Card>, c: seq<Card>)
    requires KeepsCards(a, b) && KeepsCards(b, c)
    ensures KeepsCards(a, c)
  {
    var ids := Ids(c);
    assert ids[|c| - |a|..] == ids[|c| - |b|..][|b| - |a|..];
  }

  /** What every event guarantees: the session invariant holds after it, the
      queue changes only on Home and is rebuilt on every return to Home, no
      card is dropped, and each change of the store is written once. */
  predicate Transition(s: State, r: State, now: int)
  {
    && Valid(r)
    && (r.queue != s.queue ==> r.view == Home)
    && (s.view != Home && r.view == Home ==> r.queue == ReviewQueue(r.cards, now))
    && (s.view != Home && r.view == Home ==> r.form == EmptyForm)
    && KeepsCards(s.cards, r.cards)
    && (r.cards != s.cards ==> r.writes == s.writes + 1)
    && r.writes <= s.writes + 1
  }

  /** The logo: back to Home from any screen. */
  function OnLogo(s: State, now: int): (r: State)
    requires Valid(s)
    ensures Transition(s, r, now)
    ensures r.view == Home && r.cards == s.cards && r.writes == s.writes
    ensures s.view == Home ==> r == s
  {
    KeepsCardsRefl(s.cards);
    Settle(s, s.(view := Home), false, now)
  }

  /** The report button, shown on Home when the local day is a Sunday. */
  function OnWeeklyOpened(s: State, now: int, z: Zone): (r: State)
    requires Valid(s)
    ensures Transition(s, r, now)
    ensures r.view == Weekly <==> s.view == Weekly || (s.view == Home && IsSunday(now, z))
    ensures !(s.view == Home && IsSunday(now, z)) ==> r == s
    ensures r.cards == s.cards && r.writes == s.writes
  {
    KeepsCardsRefl(s.cards);
    if s.view == Home && IsSunday(now, z)
    then Settle(s, s.(view := Weekly), false, now)
    else s
  }

  /** The report's close button: back to Home. */
  function OnWeeklyClosed(s: State, now: int): (r: State)
    requires Valid(s)
    ensures Transition(s, r, now)
    ensures r.view == (if s.view == Weekly then Home else s.view) && r.cards == s.cards
    ensures s.view != Weekly ==> r == s
    ensures r.writes == s.writes
  {
    KeepsCardsRefl(s.cards);
    if s.view == Weekly then Settle(s, s.(view := Home), false, now) else s
  }

  /** The Start button on Home. */
  function OnReviewStarted(s: State, now: int): (r: State)
    requires Valid(s)
    ensures Transition(s, r, now)
    ensures r.view == Review && s.view != Review ==> r.index == 0 && |r.queue| > 0
    ensures s.view == Home && |s.queue| > 0 ==>
      r.view == Review && r.index == 0 && r.queue == s.queue
    ensures s.view != Home || |s.queue| == 0 ==> r == s
    ensures r.cards == s.cards && r.writes == s.writes
  {
    KeepsCardsRefl(s.cards);
    if s.view == Home then Settle(s, StartReview(s), false, now) else s
  }

  /** A rating button on Review. */
  function OnRated(s: State, rating: ReviewRating, now: int, z: Zone): (r: State)
    requires Valid(s)
    ensures Transition(s, r, now)
    ensures s.view == Review ==>
      r.cards == ReplaceById(s.cards, s.queue[s.index].id,
                             NextReview(s.queue[s.index], rating, now, z))
    ensures s.view == Review ==> r.writes == s.writes + 1
    ensures s.view == Review && s.index < |s.queue| - 1 ==>
      r.view == Review && r.index == s.index + 1 && r.queue == s.queue
    ensures s.view == Review && s.index == |s.queue| - 1 ==> r.view == Home
    ensures s.view != Review ==> r == s
  {
    if s.view == Review && |s.queue| > 0 then
      var rated := RateCard(s, rating, now, z);
      assert Ids(rated.cards)[0..] == Ids(s.cards);
      Settle(s, rated, true, now)
    else
      KeepsCardsRefl(s.cards);
      s
  }

  /** Typing in the text area on Home. */
  function OnTextEdited(s: State, text: string): (r: State)
    requires Valid(s)
    ensures Valid(r)
    ensures s.view == Home ==> r.form == s.form.(text := text)
    ensures s.view != Home ==> r == s
    ensures r.cards == s.cards && r.queue == s.queue && r.view == s.view && r.writes == s.writes
  {
    if s.view == Home then s.(form := s.form.(text := text)) else s
  }

  /** The Save button on Home: `handleSave`, then `handleSaveCard` when it
      yields a card. */
  function OnSaveClicked(s: State, meta: Option<Metadata>, id: string, now: int): (r: State)
    requires Valid(s)
    ensures Transition(s, r, now)
    ensures s.view == Home && !IsBlank(s.form.text) && meta.Some? ==>
      r.cards == [NewCard(s.form.text, meta.value, id, now)] + s.cards
      && r.queue == ReviewQueue(r.cards, now) && r.form == EmptyForm
    ensures s.view != Home || IsBlank(s.form.text) || meta.None? ==>
      r.cards == s.cards && r.writes == s.writes
    // a blank or failed save touches only the form; off Home nothing happens
    ensures s.view == Home && (IsBlank(s.form.text) || meta.None?) ==>
      r == s.(form := HandleSave(s.form, meta, id, now).form)
    ensures s.view != Home ==> r == s
    ensures r.view == s.view
  {
    if s.view == Home then
      var res := HandleSave(s.form, meta, id, now);
      var s1 := s.(form := res.form);
      match res.card
      case None =>
        KeepsCardsRefl(s.cards);
        s1
      case Some(card) =>
        var saved := SaveCard(s1, card);
        assert Ids(saved.cards) == [card.id] + Ids(s.cards);
        assert Ids(saved.cards)[1..] == Ids(s.cards);
        Settle(s1, saved, true, now)
    else
      KeepsCardsRefl(s.cards);
      s
  }

  /** One event at instant `now` in zone `z`. */
  function Step(s: State, e: Event, now: int, z: Zone): (r: State)
    requires Valid(s)
    ensures Transition(s, r, now)
    // the report is reached only from Home on a Sunday; the logo always leads Home
    ensures r.view == Weekly && s.view != Weekly ==>
      s.view == Home && e == WeeklyOpened && IsSunday(now, z)
    ensures e == LogoClicked ==> r.view == Home
    // reviewing starts only from Start, at the first card of a non-empty queue
    ensures r.view == Review && s.view != Review ==>
      e == ReviewStarted && r.index == 0 && |r.queue| > 0
  {
    match e
    case LogoClicked => OnLogo(s, now)
    case WeeklyOpened => OnWeeklyOpened(s, now, z)
    case WeeklyClosed => OnWeeklyClosed(s, now)
    case ReviewStarted => OnReviewStarted(s, now)
    case Rated(rating) => OnRated(s, rating, now, z)
    case TextEdited(text) =>
      KeepsCardsRefl(s.cards);
      OnTextEdited(s, text)
    case SaveClicked(meta, id) => OnSaveClicked(s, meta, id, now)
  }

  /** Saving a note on Home puts the new card first in the store, writes the
      store once and rebuilds the queue from the new store. */
  lemma SavePrependsCard(s: State, meta: Metadata, id: string, now: int, z: Zone)
    requires Valid(s) && s.view == Home && !IsBlank(s.form.text)
    ensures var r := Step(s, SaveClicked(Some(meta), id), now, z);
            && r.cards == [NewCard(s.form.text, meta, id, now)] + s.cards
            && r.writes == s.writes + 1
            && r.queue == ReviewQueue(r.cards, now)
            && r.form == EmptyForm
  {
  }

  /** A failed metadata call, or blank text, leaves the store untouched and
      unwritten. */
  lemma FailedSaveKeepsStore(s: State, meta: Option<Metadata>, id: string, now: int, z: Zone)
    requires Valid(s)
    requires meta.None? || IsBlank(s.form.text)
    ensures Step(s, SaveClicked(meta, id), now, z).cards == s.cards
    ensures Step(s, SaveClicked(meta, id), now, z).writes == s.writes
  {
  }

  /** A rating replaces exactly the store cards whose id is the current queue
      card's id with the scheduler's result; every other card stays. */
  lemma RatingReplacesById(s: State, rating: ReviewRating, now: int, z: Zone)
    requires Valid(s) && s.view == Review
    ensures var r := Step(s, Rated(rating), now, z);
            var current := s.queue[s.index];
            && |r.cards| == |s.cards|
            && (forall i :: 0 <= i < |s.cards| ==>
                 r.cards[i] == if s.cards[i].id == current.id
                               then NextReview(current, rating, now, z)
                               else s.cards[i])
            && r.writes == s.writes + 1
  {
  }

  /** After a rating the position moves to the next queue card, or the
      session returns Home after the last one. */
  lemma RatingAdvances(s: State, rating: ReviewRating, now: int, z: Zone)
    requires Valid(s) && s.view == Review
    ensures var r := Step(s, Rated(rating), now, z);
            if s.index < |s.queue| - 1
            then r.view == Review && r.index == s.index + 1 && r.queue == s.queue
            else r.view == Home && r.queue == ReviewQueue(r.cards, now)
  {
  }

  /** Start enters Review at index 0 only with a non-empty queue; with an
      empty one nothing changes. */
  lemma StartNeedsQueue(s: State, now: int, z: Zone)
    requires Valid(s) && s.view == Home
    ensures var r := Step(s, ReviewStarted, now, z);
            if |s.queue| > 0
            then r.view == Review && r.index == 0 && r.queue == s.queue && r.cards == s.cards
            else r == s
  {
  }

  /** A sequence of events, the i-th at instant `nows[i]`. */
  function Run(s: State, events: seq<Event>, nows: seq<int>, z: Zone): (r: State)
    requires Valid(s) && |events| == |nows|
    ensures Valid(r)
    ensures KeepsCards(s.cards, r.cards)
    ensures r.writes <= s.writes + |events|
    decreases |events|
  {
    if events == [] then
      KeepsCardsRefl(s.cards);
      s
    else
      var s1 := Step(s, events[0], nows[0], z);
      var r := Run(s1, events[1..], nows[1..], z);
      KeepsCardsTrans(s.cards, s1.cards, r.cards);
      r
  }

  /** The rating events for a list of ratings. */
  function RatingEvents(ratings: seq<ReviewRating>): (es: seq<Event>)
    ensures |es| == |ratings|
    ensures forall i :: 0 <= i < |ratings| ==> es[i] == Rated(ratings[i])
  {
    if ratings == [] then [] else [Rated(ratings[0])] + RatingEvents(ratings[1..])
  }

  /** A review pass walks the queue in order: after k ratings from position
      i the session is at position i + k, and once every remaining queue card
      has been rated it is back on Home. */
  lemma {:induction false} ReviewPass(s: State, ratings: seq<ReviewRating>, nows: seq<int>, z: Zone)
    requires Valid(s) && s.view == Review
    requires |ratings| == |nows| && s.index + |ratings| <= |s.queue|
    decreases |ratings|
    ensures var r := Run(s, RatingEvents(ratings), nows, z);
            if s.index + |ratings| < |s.queue|
            then r.view == Review && r.index == s.index + |ratings| && r.queue == s.queue
            else r.view == Home
  {
    if ratings != [] {
      var es := RatingEvents(ratings);
      assert es[0] == Rated(ratings[0]);
      var s1 := Step(s, Rated(ratings[0]), nows[0], z);
      RatingAdvances(s, ratings[0], nows[0], z);
      assert es[1..] == RatingEvents(ratings[1..]);
      assert Run(s, es, nows, z) == Run(s1, es[1..], nows[1..], z);
      if s.index < |s.queue| - 1 {
        assert s1.view == Review && s1.index == s.index + 1 && s1.queue == s.queue;
        ReviewPass(s1, ratings[1..], nows[1..], z);
      } else {
        assert es[1..] == [];
        assert s1.view == Home;
      }
    }
  }

  /** Every card, in the store and in the queue, has an interval of one day
      to one year. */
  predicate IntervalsInRange(s: State)
  {
    && (forall c :: c in s.cards ==> 1.0 <= c.interval <= MaxInterval)
    && (forall c :: c in s.queue ==> 1.0 <= c.interval <= MaxInterval)
  }

  /** New cards start at one day and every rating keeps the interval within
      [1, 365], so no event takes a card out of that range. */
  lemma StepKeepsIntervals(s: State, e: Event, now: int, z: Zone)
    requires Valid(s) && IntervalsInRange(s)
    ensures IntervalsInRange(Step(s, e, now, z))
  {
    match e
    case Rated(rating) => RatingKeepsIntervals(s, rating, now, z);
    case SaveClicked(meta, id) => SaveKeepsIntervals(s, meta, id, now);
    case _ =>
  }

  lemma SaveKeepsIntervals(s: State, meta: Option<Metadata>, id: string, now: int)
    requires Valid(s) && IntervalsInRange(s)
    ensures IntervalsInRange(OnSaveClicked(s, meta, id, now))
  {
    var r := OnSaveClicked(s, meta, id, now);
    if s.view == Home && !IsBlank(s.form.text) && meta.Some? {
      var card := NewCard(s.form.text, meta.value, id, now);
      assert r.cards == [card] + s.cards;
      assert forall c :: c in r.cards ==> c == card || c in s.cards;
      assert forall c :: c in r.queue ==> c in r.cards;
    }
  }

  lemma RatingKeepsIntervals(s: State, rating: ReviewRating, now: int, z: Zone)
    requires Valid(s) && IntervalsInRange(s)
    ensures IntervalsInRange(OnRated(s, rating, now, z))
  {
    if s.view == Review {
      var current := s.queue[s.index];
      IntervalRangeKept(current.interval, rating);
      var updated := NextReview(current, rating, now, z);
      var replaced := ReplaceById(s.cards, current.id, updated);
      forall c | c in replaced
        ensures 1.0 <= c.interval <= MaxInterval
      {
        var i :| 0 <= i < |replaced| && replaced[i] == c;
        assert c == updated || c == s.cards[i];
      }
    }
  }
}
