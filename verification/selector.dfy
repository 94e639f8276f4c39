/** The due-set selector (storageService.ts, getCardsDueForReview): keep the
    cards whose review time has come and order them earliest-due first with a
    stable sort, then cap the result at the daily queue size. */
module DueSelector {
  import opened Types

  /** Size of the "Daily 3" review queue. */
  const DailyCap: nat := 3

  /** `cards.filter(card => card.nextReviewAt <= now)`. */
  function Due(cards: seq<Card>, now: int): (r: seq<Card>)
    ensures |r| <= |cards|
    ensures forall c :: c in r <==> c in cards && c.nextReviewAt <= now
  {
    if cards == [] then []
    else (if cards[0].nextReviewAt <= now then [cards[0]] else []) + Due(cards[1..], now)
  }

  /** Ascending by due time (non-decreasing). */
  predicate SortedByDue(s: seq<Card>)
  {
    forall i, j :: 0 <= i < j < |s| ==> s[i].nextReviewAt <= s[j].nextReviewAt
  }

  /** The cards of `s` due exactly at `k`, in their order in `s`. A sort is
      stable when it keeps every such run as it was. */
  function KeyRun(s: seq<Card>, k: int): seq<Card>
  {
    if s == [] then []
    else (if s[0].nextReviewAt == k then [s[0]] else []) + KeyRun(s[1..], k)
  }

  /** A run holds exactly the cards of `s` due at `k`. */
  lemma {:induction false} KeyRunMember(s: seq<Card>, k: int, c: Card)
    ensures c in KeyRun(s, k) <==> c in s && c.nextReviewAt == k
  {
    if s != [] {
      KeyRunMember(s[1..], k, c);
      assert s == [s[0]] + s[1..];
    }
  }

  /** Puts `c` into `s` ahead of the first card due at or after it, so in a
      sorted `s` it comes first among equal due times. */
  function Insert(c: Card, s: seq<Card>): (r: seq<Card>)
    ensures |r| == |s| + 1
    ensures multiset(r) == multiset(s) + multiset{c}
  {
    if s == [] then [c]
    else if c.nextReviewAt <= s[0].nextReviewAt then [c] + s
    else
      assert s == [s[0]] + s[1..];
      [s[0]] + Insert(c, s[1..])
  }

  /** Every card of `s` is due at or after `k`. */
  predicate DueFrom(s: seq<Card>, k: int)
  {
    forall i :: 0 <= i < |s| ==> k <= s[i].nextReviewAt
  }

  /** Inserting a card due at or after `k` keeps every card due at or after `k`. */
  lemma {:induction false} InsertDueFrom(c: Card, s: seq<Card>, k: int)
    requires DueFrom(s, k) && k <= c.nextReviewAt
    ensures DueFrom(Insert(c, s), k)
  {
    if s != [] && c.nextReviewAt > s[0].nextReviewAt {
      InsertDueFrom(c, s[1..], k);
      assert Insert(c, s) == [s[0]] + Insert(c, s[1..]);
    }
  }

  /** A card in front of a sorted sequence due no earlier than it. */
  lemma ConsSorted(x: Card, t: seq<Card>)
    requires SortedByDue(t) && DueFrom(t, x.nextReviewAt)
    ensures SortedByDue([x] + t)
  {
  }

  /** Insertion keeps a sequence sorted. */
  lemma {:induction false} InsertSorted(c: Card, s: seq<Card>)
    requires SortedByDue(s)
    ensures SortedByDue(Insert(c, s))
  {
    if s == [] {
    } else if c.nextReviewAt <= s[0].nextReviewAt {
      ConsSorted(c, s);
    } else {
      var rest := Insert(c, s[1..]);
      assert SortedByDue(s[1..]);
      InsertSorted(c, s[1..]);
      assert DueFrom(s[1..], s[0].nextReviewAt);
      InsertDueFrom(c, s[1..], s[0].nextReviewAt);
      ConsSorted(s[0], rest);
    }
  }

  /** Stable insertion sort by due time (Array.prototype.sort is stable). */
  function SortByDue(s: seq<Card>): (r: seq<Card>)
    ensures |r| == |s|
    ensures multiset(r) == multiset(s)
    ensures SortedByDue(r)
  {
    if s == [] then []
    else
      assert s == [s[0]] + s[1..];
      var rest := SortByDue(s[1..]);
      InsertSorted(s[0], rest);
      Insert(s[0], rest)
  }

  /** Inserting `c` adds it at the front of its own run and leaves every other
      run alone. */
  lemma {:induction false} InsertKeyRun(c: Card, s: seq<Card>, k: int)
    ensures KeyRun(Insert(c, s), k)
         == (if c.nextReviewAt == k then [c] else []) + KeyRun(s, k)
  {
    if s == [] {
      KeyRunCons(c, [], k);
    } else if c.nextReviewAt <= s[0].nextReviewAt {
      KeyRunCons(c, s, k);
    } else {
      InsertKeyRun(c, s[1..], k);
      InsertPastHead(c, s, k);
    }
  }

  /** The step of InsertKeyRun where `c` goes past the head of `s`: the head
      is due earlier than `c`, so the two never share a run. */
  lemma InsertPastHead(c: Card, s: seq<Card>, k: int)
    requires s != [] && c.nextReviewAt > s[0].nextReviewAt
    requires KeyRun(Insert(c, s[1..]), k)
          == (if c.nextReviewAt == k then [c] else []) + KeyRun(s[1..], k)
    ensures KeyRun(Insert(c, s), k)
         == (if c.nextReviewAt == k then [c] else []) + KeyRun(s, k)
  {
    var rest := Insert(c, s[1..]);
    InsertUnfold(c, s);
    ConsSplit(s);
    if c.nextReviewAt == k {
      SkipHead(s[0], rest, k);
      SkipHead(s[0], s[1..], k);
    } else {
      SameAfterHead(s[0], rest, s[1..], k);
    }
  }

  /** Insert, one step when `c` goes past the head. */
  lemma InsertUnfold(c: Card, s: seq<Card>)
    requires s != [] && c.nextReviewAt > s[0].nextReviewAt
    ensures Insert(c, s) == [s[0]] + Insert(c, s[1..])
  {
  }

  lemma ConsSplit(s: seq<Card>)
    requires s != []
    ensures [s[0]] + s[1..] == s
  {
  }

  /** A head due at another time adds nothing to the run. */
  lemma SkipHead(x: Card, t: seq<Card>, k: int)
    requires x.nextReviewAt != k
    ensures KeyRun([x] + t, k) == KeyRun(t, k)
  {
    KeyRunCons(x, t, k);
  }

  /** Equal runs stay equal behind the same head. */
  lemma SameAfterHead(x: Card, a: seq<Card>, b: seq<Card>, k: int)
    requires KeyRun(a, k) == KeyRun(b, k)
    ensures KeyRun([x] + a, k) == KeyRun([x] + b, k)
  {
    KeyRunCons(x, a, k);
    KeyRunCons(x, b, k);
  }

  /** One unfolding of KeyRun at the front. */
  lemma KeyRunCons(x: Card, t: seq<Card>, k: int)
    ensures KeyRun([x] + t, k) == (if x.nextReviewAt == k then [x] else []) + KeyRun(t, k)
  {
    assert ([x] + t)[1..] == t;
  }

  /** The sort keeps every run of equal due times in input order. */
  lemma {:induction false} SortKeyRun(s: seq<Card>, k: int)
    ensures KeyRun(SortByDue(s), k) == KeyRun(s, k)
  {
    if s != [] {
      SortKeyRun(s[1..], k);
      InsertKeyRun(s[0], SortByDue(s[1..]), k);
    }
  }

  /** Filtering keeps the runs of due times up to `now` and drops the rest. */
  lemma {:induction false} DueKeyRun(cards: seq<Card>, now: int, k: int)
    ensures KeyRun(Due(cards, now), k) == if k <= now then KeyRun(cards, k) else []
  {
    if cards != [] {
      DueKeyRun(cards[1..], now, k);
      var head := if cards[0].nextReviewAt <= now then [cards[0]] else [];
      KeyRunAppend(head, Due(cards[1..], now), k);
    }
  }

  lemma {:induction false} KeyRunAppend(a: seq<Card>, b: seq<Card>, k: int)
    ensures KeyRun(a + b, k) == KeyRun(a, k) + KeyRun(b, k)
  {
    if a == [] {
      assert a + b == b;
    } else {
      var head := if a[0].nextReviewAt == k then [a[0]] else [];
      assert (a + b)[0] == a[0];
      assert (a + b)[1..] == a[1..] + b;
      KeyRunAppend(a[1..], b, k);
      assert KeyRun(a + b, k) == head + KeyRun(a[1..] + b, k);
    }
  }

  /** Two sorted sequences with the same runs for every due time are equal:
      sortedness plus stability determine a sort's output completely. */
  lemma {:induction false} StableSortUnique(a: seq<Card>, b: seq<Card>)
    requires SortedByDue(a) && SortedByDue(b)
    requires forall k :: KeyRun(a, k) == KeyRun(b, k)
    ensures a == b
  {
    if a == [] || b == [] {
      if a != [] {
        KeyRunMember(a, a[0].nextReviewAt, a[0]);
        assert false;
      } else if b != [] {
        KeyRunMember(b, b[0].nextReviewAt, b[0]);
        assert false;
      }
    } else {
      var ka, kb := a[0].nextReviewAt, b[0].nextReviewAt;
      assert KeyRun(a, ka) == KeyRun(b, ka);
      assert KeyRun(a, kb) == KeyRun(b, kb);
      SameFirst(a, b);
      assert a == [a[0]] + a[1..] && b == [b[0]] + b[1..];
      forall k
        ensures KeyRun(a[1..], k) == KeyRun(b[1..], k)
      {
        assert KeyRun(a, k) == KeyRun(b, k);
        DropCommonHead(a[0], a[1..], b[1..], k);
      }
      StableSortUnique(a[1..], b[1..]);
    }
  }

  /** Equal runs after the same first card mean equal runs after it. */
  lemma DropCommonHead(x: Card, a: seq<Card>, b: seq<Card>, k: int)
    requires KeyRun([x] + a, k) == KeyRun([x] + b, k)
    ensures KeyRun(a, k) == KeyRun(b, k)
  {
    KeyRunCons(x, a, k);
    KeyRunCons(x, b, k);
    var head := if x.nextReviewAt == k then [x] else [];
    assert (head + KeyRun(a, k))[|head|..] == KeyRun(a, k);
    assert (head + KeyRun(b, k))[|head|..] == KeyRun(b, k);
  }

  /** Sorted sequences with the same runs start with the same card: both
      start with the first card of the run of the earliest due time. */
  lemma SameFirst(a: seq<Card>, b: seq<Card>)
    requires a != [] && b != []
    requires SortedByDue(a) && SortedByDue(b)
    requires KeyRun(a, a[0].nextReviewAt) == KeyRun(b, a[0].nextReviewAt)
    requires KeyRun(a, b[0].nextReviewAt) == KeyRun(b, b[0].nextReviewAt)
    ensures a[0] == b[0]
  {
    var ka, kb := a[0].nextReviewAt, b[0].nextReviewAt;
    KeyRunMember(a, ka, a[0]);
    KeyRunMember(b, ka, a[0]);
    SortedHeadLeast(b, a[0]);
    KeyRunMember(b, kb, b[0]);
    KeyRunMember(a, kb, b[0]);
    SortedHeadLeast(a, b[0]);
    assert ka == kb;
    KeyRunHead(a);
    KeyRunHead(b);
  }

  /** The head of a sorted sequence is due no later than any of its cards. */
  lemma SortedHeadLeast(s: seq<Card>, x: Card)
    requires SortedByDue(s) && x in s
    ensures s[0].nextReviewAt <= x.nextReviewAt
  {
    var j :| 0 <= j < |s| && s[j] == x;
    if j > 0 {
      assert s[0].nextReviewAt <= s[j].nextReviewAt;
    }
  }

  /** A sequence's first card heads the run of its own due time. */
  lemma KeyRunHead(s: seq<Card>)
    requires s != []
    ensures KeyRun(s, s[0].nextReviewAt) != []
    ensures KeyRun(s, s[0].nextReviewAt)[0] == s[0]
  {
    assert s == [s[0]] + s[1..];
    KeyRunCons(s[0], s[1..], s[0].nextReviewAt);
  }

  /** `getCardsDueForReview`: the due cards, earliest-due first, ties in store
      order. */
  function SelectDue(cards: seq<Card>, now: int): (r: seq<Card>)
    ensures |r| <= |cards|
    ensures forall c :: c in r <==> c in cards && c.nextReviewAt <= now
    ensures multiset(r) == multiset(Due(cards, now))
    ensures SortedByDue(r)
    ensures forall k :: KeyRun(r, k) == if k <= now then KeyRun(cards, k) else []
  {
    var r := SortByDue(Due(cards, now));
    assert forall c :: c in r <==> c in multiset(r);
    forall k
      ensures KeyRun(r, k) == if k <= now then KeyRun(cards, k) else []
    {
      SortKeyRun(Due(cards, now), k);
      DueKeyRun(cards, now, k);
    }
    r
  }

  /** Any sorted sequence whose runs are those of the due cards IS the
      selector's answer: the selector is the stable sort of the due cards. */
  lemma SelectDueIsTheStableSort(cards: seq<Card>, now: int, r: seq<Card>)
    requires SortedByDue(r)
    requires forall k :: KeyRun(r, k) == if k <= now then KeyRun(cards, k) else []
    ensures r == SelectDue(cards, now)
  {
    StableSortUnique(r, SelectDue(cards, now));
  }

  /** `getCardsDueForReview(cards).slice(0, 3)`: the review queue. */
  function ReviewQueue(cards: seq<Card>, now: int): (q: seq<Card>)
    ensures |q| <= DailyCap
    ensures q <= SelectDue(cards, now)
    ensures |q| == DailyCap || q == SelectDue(cards, now)
    ensures SortedByDue(q)
    ensures forall c :: c in q ==> c in cards && c.nextReviewAt <= now
  {
    var due := SelectDue(cards, now);
    if |due| <= DailyCap then due else due[..DailyCap]
  }
}
