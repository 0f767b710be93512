/** What one rubric card of components/InputSection.tsx shows and emits: the
    three rating buttons and which one is selected, the checklist, the
    feedback line with the score, and the note box. */
module InputView {
  import opened Wrappers
  import opened Text
  import opened Types
  import opened Scoring
  import opened Evaluation
  import opened Constants

  /** `currentRating?.level === level`. */
  predicate IsSelected(rating: Option<Entry>, level: RatingLevel) {
    rating.Some? && rating.value.level == Some(level)
  }

  /** One rating button: its level, caption, tooltip, and whether it is highlighted. */
  datatype Button = Button(level: RatingLevel, caption: string, tooltip: string, selected: bool)

  /** The buttons of a card, one per level in declaration order. */
  function Buttons(item: KpiItem, rating: Option<Entry>): (buttons: seq<Button>)
    ensures |buttons| == |AllLevels|
    ensures forall i :: 0 <= i < |buttons| ==>
      && buttons[i].level == AllLevels[i]
      && buttons[i].caption == CriterionOf(item, AllLevels[i]).caption
      && buttons[i].tooltip == CriterionOf(item, AllLevels[i]).description
  {
    seq(|AllLevels|, i requires 0 <= i < |AllLevels| =>
      var level := AllLevels[i];
      Button(level, CriterionOf(item, level).caption, CriterionOf(item, level).description, IsSelected(rating, level)))
  }

  /** At most one button is highlighted; it is the stored level's, and there
      is one exactly when the entry has a level. */
  lemma SelectedButton(item: KpiItem, rating: Option<Entry>)
    ensures forall i, j :: 0 <= i < j < |Buttons(item, rating)| ==>
      !(Buttons(item, rating)[i].selected && Buttons(item, rating)[j].selected)
    ensures forall i :: 0 <= i < |Buttons(item, rating)| && Buttons(item, rating)[i].selected ==>
      rating.Some? && rating.value.level == Some(Buttons(item, rating)[i].level)
    ensures (exists i :: 0 <= i < |Buttons(item, rating)| && Buttons(item, rating)[i].selected)
        <==> rating.Some? && rating.value.level.Some?
  {
    var bs := Buttons(item, rating);
    if rating.Some? && rating.value.level.Some? {
      var level := rating.value.level.value;
      AllLevelsComplete(level);
      var i :| 0 <= i < |AllLevels| && AllLevels[i] == level;
      assert bs[i].selected;
    }
  }

  /** Clicking a button rates the card's own item with that button's level
      and the score the card computes for it. */
  lemma ClickRatesOwnItem(state: EvaluationState, item: KpiItem, rating: Option<Entry>, i: nat)
    requires i < |Buttons(item, rating)|
    ensures var next := SelectLevel(state, item, Buttons(item, rating)[i].level);
      && item.id in next
      && next[item.id].level == Some(AllLevels[i])
      && next[item.id].actualScore == Some(item.maxPoints * CriterionOf(item, AllLevels[i]).scoreTenths * 10)
  {
  }

  /** The checklist column: the points, or the fallback line when the item
      has no checklist or an empty one. */
  datatype ChecklistView = Points(points: seq<string>) | NoCriteria(text: string)

  const NoCriteriaText: string := "Không có tiêu chí cụ thể."

  function Checklist(item: KpiItem): (view: ChecklistView)
    ensures view.Points? <==> item.checklist.Some? && |item.checklist.value| > 0
    ensures view.Points? ==> view.points == item.checklist.value
    ensures view.NoCriteria? ==> view.text == NoCriteriaText
  {
    match item.checklist
    case Some(points) => if |points| > 0 then Points(points) else NoCriteria(NoCriteriaText)
    case None => NoCriteria(NoCriteriaText)
  }

  /** Every card of the rubric lists its checklist points; the fallback
      line never appears. */
  lemma KpiDataShowsChecklists(item: KpiItem)
    requires item in AllItems(KpiData)
    ensures item.checklist.Some? && Checklist(item) == Points(item.checklist.value)
  {
    KpiDataItemsWellFormed(item);
  }

  /** The note box's text: the entry's notes, or "" when there is no entry
      (`currentRating?.notes || ''`). */
  function NoteBoxValue(rating: Option<Entry>): (value: string)
    ensures rating.Some? ==> value == rating.value.notes
    ensures value == "" <==> rating.None? || rating.value.notes == ""
  {
    if rating.Some? then rating.value.notes else ""
  }

  /** The note box shows exactly the notes a rating of the item will keep. */
  lemma NoteBoxShowsKeptNotes(state: EvaluationState, id: string)
    ensures NoteBoxValue(Lookup(state, id)) == KeptNotes(state, id)
  {
  }

  /** The note box shows exactly what was last typed into it, whatever was
      rated before or after. */
  lemma NoteBoxShowsTypedNote(state: EvaluationState, id: string, note: string, level: RatingLevel, score: nat)
    ensures NoteBoxValue(Lookup(NoteChange(state, id, note), id)) == note
    ensures NoteBoxValue(Lookup(Rate(NoteChange(state, id, note), id, level, score), id)) == note
  {
  }

  /** An item never touched shows an empty note box and no highlighted button. */
  lemma UntouchedCardIsBlank(item: KpiItem)
    ensures NoteBoxValue(Lookup(map[], item.id)) == ""
    ensures forall level :: !IsSelected(Lookup(map[], item.id), level)
  {
  }

  /** The feedback line under the buttons (the mobile score badge shows the
      same score). */
  datatype Feedback =
    | NotRatedYet(text: string)
    | RatedFeedback(description: string, scoreText: string)

  const NotRatedYetText: string := "Chưa có đánh giá nào"

  /** `actualScore.toFixed(2) + "/" + maxPoints + "đ"`. */
  function ScoreOfMax(score: nat, item: KpiItem): string {
    Fixed2(score) + "/" + NatToString(item.maxPoints) + "đ"
  }

  /** The feedback line as written: any entry counts as rated, so an entry
      holding only a note reads `criteria[undefined].description` and
      `undefined.toFixed`, and the render throws. */
  function FeedbackAsWritten(item: KpiItem, rating: Option<Entry>): (r: Result<Feedback, RenderError>)
    ensures r.Failure? <==> rating.Some? && !IsRated(rating.value)
  {
    match rating
    case None => Success(NotRatedYet(NotRatedYetText))
    case Some(e) =>
      if e.level.None? then Failure(TypeError("description"))
      else if e.actualScore.None? then Failure(TypeError("toFixed"))
      else Success(RatedFeedback(CriterionOf(item, e.level.value).description, ScoreOfMax(e.actualScore.value, item)))
  }

  /** A note typed on a card that has never been rated makes the card throw. */
  lemma NoteBeforeRatingBreaksCard(item: KpiItem, note: string)
    ensures FeedbackAsWritten(item, Lookup(NoteChange(map[], item.id, note), item.id)).Failure?
  {
  }

  /** The feedback line with the guard the card needs: an entry is shown as
      rated only when it has a level and a score. */
  function CardFeedback(item: KpiItem, rating: Option<Entry>): (f: Feedback)
    ensures f.NotRatedYet? <==> rating.None? || !IsRated(rating.value)
    ensures f.NotRatedYet? ==> f.text == NotRatedYetText
    ensures f.RatedFeedback? ==>
      f.description == CriterionOf(item, rating.value.level.value).description
      && |Fixed2(rating.value.actualScore.value)| < |f.scoreText|
      && ParseFixed2(f.scoreText[..|Fixed2(rating.value.actualScore.value)|]) == Some(rating.value.actualScore.value)
      && f.scoreText[|Fixed2(rating.value.actualScore.value)|..] == "/" + NatToString(item.maxPoints) + "đ"
  {
    if rating.Some? && IsRated(rating.value) then
      var score := rating.value.actualScore.value;
      Fixed2RoundTrip(score);
      assert ScoreOfMax(score, item)[..|Fixed2(score)|] == Fixed2(score);
      assert ScoreOfMax(score, item)[|Fixed2(score)|..] == "/" + NatToString(item.maxPoints) + "đ";
      RatedFeedback(CriterionOf(item, rating.value.level.value).description, ScoreOfMax(score, item))
    else NotRatedYet(NotRatedYetText)
  }

  /** The guard changes nothing where the card did not throw. */
  lemma CardFeedbackAgreesWhereDefined(item: KpiItem, rating: Option<Entry>)
    requires FeedbackAsWritten(item, rating).Success?
    ensures CardFeedback(item, rating) == FeedbackAsWritten(item, rating).value
  {
  }

  /** After GOOD is chosen on a well-formed card, the feedback shows the GOOD
      description and the full points, e.g. "10.00/10đ". */
  lemma GoodFeedbackShowsFullMarks(state: EvaluationState, item: KpiItem)
    requires item.criteria.good.scoreTenths == 10
    ensures CardFeedback(item, Lookup(SelectLevel(state, item, Good), item.id))
         == RatedFeedback(item.criteria.good.description,
                          NatToString(item.maxPoints) + ".00/" + NatToString(item.maxPoints) + "đ")
  {
    GoodGivesFullMarks(item);
    Fixed2OfWhole(item.maxPoints);
  }
}
