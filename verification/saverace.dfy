/** A save whose metadata call is still pending (InputSection.tsx, App.tsx).

    `handleSave` awaits the metadata call and then calls the `onSave` of the
    render in which Save was clicked. That is `handleSaveCard` closed over the
    store of that render, so the resolved save writes `[newCard, ...store]` for
    the store as it was at the click. While the call is pending, Start, the
    logo and the rating buttons still work, and the input section remounts
    with a fresh loading flag after a return to Home; the store can change
    before the save lands. This module models that resolution as written and
    the functional update `setCards(prev => [newCard, ...prev])` that
    `Session.SaveCard` performs. */
module SaveRace {
  import opened Types
  import opened LocalTime
  import opened Scheduler
  import opened Session

  /** A save in flight: the store captured when Save was clicked. */
  datatype Pending = Pending(snapshot: seq<Card>)

  /** As written: the new card goes in front of the captured store, whatever
      the store holds when the call resolves. The store the save lands on
      survives as the tail exactly when it is the captured one; any change
      made meanwhile is overwritten. */
  function ResolveStale(current: seq<Card>, p: Pending, card: Card): (r: seq<Card>)
    ensures |r| == |p.snapshot| + 1 && r[0] == card
    ensures KeepsCards(p.snapshot, r)
    ensures current == p.snapshot ==> KeepsCards(current, r)
    ensures r[1..] == current <==> current == p.snapshot
  {
    assert Ids([card] + p.snapshot)[1..] == Ids(p.snapshot);
    [card] + p.snapshot
  }

  /** Corrected: the new card goes in front of the store as it is when the
      call resolves. */
  function ResolveFresh(current: seq<Card>, card: Card): (r: seq<Card>)
    ensures |r| == |current| + 1 && r[0] == card
    ensures r[1..] == current
    ensures KeepsCards(current, r)
  {
    assert Ids([card] + current)[1..] == Ids(current);
    [card] + current
  }

  /** The session's save is the corrected one. */
  lemma SaveCardIsFresh(s: State, card: Card)
    ensures SaveCard(s, card).cards == ResolveFresh(s.cards, card)
  {
  }

  /** Corrected: a save that resolves after any changes that kept the cards
      of the click keeps them too, and keeps every card added meanwhile. */
  lemma {:induction false} FreshSaveKeepsEverything(atClick: seq<Card>, current: seq<Card>, card: Card)
    requires KeepsCards(atClick, current)
    ensures KeepsCards(atClick, ResolveFresh(current, card))
    ensures KeepsCards(current, ResolveFresh(current, card))
  {
    KeepsCardsTrans(atClick, current, ResolveFresh(current, card));
  }

  /** Corrected: two overlapping saves both land, in resolution order. */
  lemma OverlappingFreshSavesKeepBoth(cards: seq<Card>, first: Card, second: Card)
    ensures ResolveFresh(ResolveFresh(cards, first), second)[..2] == [second, first]
  {
  }

  /** A card fresh from the input section, with the given id. */
  function Sample(id: string): (c: Card)
    ensures c.id == id && c.interval == 1.0 && c.status == New
  {
    Card(id, "note", "title", "summary", [], "question", 0, DayMs, 1.0, 0, New)
  }

  /** As written: Save is clicked on a store holding card "a", the user starts
      the review and rates "a" Easy while the call is pending, then the save
      lands and restores "a" as it was before the rating. The rating is lost
      from the store and from what is written. */
  lemma RatingDuringSaveIsLost(now: int, z: Zone)
    ensures var a := Sample("a");
            var rated := ReplaceById([a], "a", NextReview(a, Easy, now, z));
            var landed := ResolveStale(rated, Pending([a]), Sample("n"));
            rated[0].interval == 3.0 && landed[1] == a && landed[1].interval == 1.0
  {
    var a := Sample("a");
    EasyClimbsLadder(1);
  }

  /** Corrected: on the same input the save lands after the rating, and the
      rated card is kept. */
  lemma RatingDuringSaveIsKept(now: int, z: Zone)
    ensures var a := Sample("a");
            var rated := ReplaceById([a], "a", NextReview(a, Easy, now, z));
            var landed := ResolveFresh(rated, Sample("n"));
            landed[1] == rated[0] && landed[1].interval == 3.0
  {
    EasyClimbsLadder(1);
  }

  /** As written: on a store holding one due card "a", Save is clicked; the
      user presses Start and then the logo, which remounts the input section,
      saves a second note, and the first call resolves first. The second save
      lands on the store captured before the first one landed, so the first
      new card is dropped. */
  lemma OverlappingSavesDropCard()
    ensures var a, first, second := Sample("a"), Sample("first"), Sample("second");
            var afterFirst := ResolveStale([a], Pending([a]), first);
            var afterSecond := ResolveStale(afterFirst, Pending([a]), second);
            afterFirst == [first, a] && afterSecond == [second, a]
            && !KeepsCards(afterFirst, afterSecond)
  {
    var a, first, second := Sample("a"), Sample("first"), Sample("second");
    var afterFirst := ResolveStale([a], Pending([a]), first);
    var afterSecond := ResolveStale(afterFirst, Pending([a]), second);
    assert Ids(afterSecond) == ["second", "a"];
    assert Ids(afterFirst) == ["first", "a"];
  }
}
