/** Card creation from pasted text (InputSection.tsx, handleSave). The
    metadata generator is an external call; its outcome is a parameter: `None`
    when the call fails, `Some(metadata)` when it returns. The card's `id` and
    the clock reading are parameters too. */
module CardInput {
  import opened Types
  import opened LocalTime

  /** What the metadata generator returns; `keywords` may be omitted. */
  datatype Metadata = Metadata(
    title: string,
    summary: string,
    keywords: Option<seq<string>>,
    question: string)

  /** The input form's state: the text area and the error line. */
  datatype InputForm = InputForm(text: string, error: Option<string>)

  /** Outcome of pressing Save: the form afterwards and the card handed to
      the store, if any. */
  datatype SaveResult = SaveResult(form: InputForm, card: Option<Card>)

  const EmptyForm: InputForm := InputForm("", None)

  const FailureMessage: string := "Couldn't process that. Try again or check your connection."

  /** The characters `String.prototype.trim` removes: the ECMAScript
      WhiteSpace and LineTerminator code points. */
  predicate IsSpace(ch: char)
  {
    || ch == '\t' || ch == '\n' || ch == '\U{000B}' || ch == '\U{000C}' || ch == '\r'
    || ch == ' ' || ch == '\U{00A0}' || ch == '\U{1680}'
    || ('\U{2000}' <= ch <= '\U{200A}')
    || ch == '\U{2028}' || ch == '\U{2029}' || ch == '\U{202F}' || ch == '\U{205F}'
    || ch == '\U{3000}' || ch == '\U{FEFF}'
  }

  /** Drops leading white space. */
  function TrimStart(s: string): (r: string)
    ensures |r| <= |s| && r == s[|s| - |r|..]
    ensures r == [] || !IsSpace(r[0])
    ensures forall i :: 0 <= i < |s| - |r| ==> IsSpace(s[i])
  {
    if s != [] && IsSpace(s[0]) then TrimStart(s[1..]) else s
  }

  /** Drops trailing white space. */
  function TrimEnd(s: string): (r: string)
    ensures |r| <= |s| && r == s[..|r|]
    ensures r == [] || !IsSpace(r[|r| - 1])
    ensures forall i :: |r| <= i < |s| ==> IsSpace(s[i])
  {
    if s != [] && IsSpace(s[|s| - 1]) then TrimEnd(s[..|s| - 1]) else s
  }

  /** `text.trim()`: the text without white space at either end. */
  function Trim(s: string): (r: string)
    ensures r == [] || (!IsSpace(r[0]) && !IsSpace(r[|r| - 1]))
    // only white space is dropped, at either end
    ensures exists i, j ::
              && 0 <= i <= j <= |s| && r == s[i..j]
              && (forall k :: 0 <= k < i ==> IsSpace(s[k]))
              && (forall k :: j <= k < |s| ==> IsSpace(s[k]))
  {
    var t := TrimStart(s);
    var u := TrimEnd(t);
    SliceOfSuffix(s, t, u);
    var i, j := |s| - |t|, |s| - |t| + |u|;
    assert forall k :: j <= k < |s| ==> s[k] == t[k - i];
    u
  }

  /** A prefix of a suffix is a slice. */
  lemma SliceOfSuffix(s: string, t: string, u: string)
    requires |t| <= |s| && t == s[|s| - |t|..]
    requires |u| <= |t| && u == t[..|u|]
    ensures u == s[|s| - |t|..|s| - |t| + |u|]
  {
  }

  /** `!text.trim()`: the text is empty or white space only. */
  predicate IsBlank(s: string)
  {
    Trim(s) == []
  }

  /** Blank means every character is white space. */
  lemma BlankIffAllSpace(s: string)
    ensures IsBlank(s) <==> forall i :: 0 <= i < |s| ==> IsSpace(s[i])
  {
  }

  /** The card built from the text and the generated metadata. Its first
      review is one day after creation, with no 04:00 normalisation; the
      source reads the clock twice, here once. */
  function NewCard(text: string, meta: Metadata, id: string, now: int): (c: Card)
    ensures c.id == id && c.content == text && c.createdAt == now
    ensures c.title == meta.title && c.summary == meta.summary && c.question == meta.question
    ensures meta.keywords.Some? ==> c.keywords == meta.keywords.value
    ensures meta.keywords.None? ==> c.keywords == []
    // a fresh card: one-day interval, no reviews yet, status New
    ensures c.interval == 1.0 && c.reviewCount == 0 && c.status == New
    // not due when created; due exactly one day later
    ensures c.nextReviewAt > now && c.nextReviewAt - c.createdAt == DayMs
  {
    Card(id, text, meta.title, meta.summary, meta.keywords.GetOr([]), meta.question,
         now, now + DayMs, 1.0, 0, New)
  }

  /** `handleSave`: blank text does nothing; otherwise a successful metadata
      call yields a card and clears the form, and a failed one yields no card
      and shows the failure message, keeping the text. */
  function HandleSave(form: InputForm, meta: Option<Metadata>, id: string, now: int): (r: SaveResult)
    ensures IsBlank(form.text) ==> r == SaveResult(form, None)
    ensures r.card.Some? <==> !IsBlank(form.text) && meta.Some?
    ensures r.card.Some? ==> r.card.value.content == form.text && r.card.value.id == id
    ensures r.card.Some? ==> r.card.value == NewCard(form.text, meta.value, id, now)
    ensures r.card.Some? ==> r.form == EmptyForm
    ensures !IsBlank(form.text) && meta.None? ==> r.form == InputForm(form.text, Some(FailureMessage))
  {
    if IsBlank(form.text) then SaveResult(form, None)
    else
      match meta
      case None => SaveResult(InputForm(form.text, Some(FailureMessage)), None)
      case Some(m) => SaveResult(EmptyForm, Some(NewCard(form.text, m, id, now)))
  }

  /** White space alone never creates a card, whatever the metadata call
      would have returned. */
  lemma WhitespaceCreatesNothing(text: string, error: Option<string>, meta: Option<Metadata>, id: string, now: int)
    requires forall i :: 0 <= i < |text| ==> IsSpace(text[i])
    ensures HandleSave(InputForm(text, error), meta, id, now).card == None
  {
    BlankIffAllSpace(text);
  }
}
