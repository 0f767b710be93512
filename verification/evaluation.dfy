/** The session state of App.tsx and the pure updates applied to it:
    `handleRate`, `handleNoteChange`, `handleInfoChange`, and the name given
    to the exported PDF. */
module Evaluation {
  import opened Wrappers
  import opened Text
  import opened Types
  import opened Scoring

  /** The notes a rating keeps: the existing entry's notes, or "" when the id
      has no entry yet (`prev[id]?.notes || ''`). */
  function KeptNotes(state: EvaluationState, id: string): string {
    if id in state then state[id].notes else ""
  }

  /** `handleRate(id, level, score)`. */
  function Rate(state: EvaluationState, id: string, level: RatingLevel, score: nat): (next: EvaluationState)
    ensures next.Keys == state.Keys + {id}
    ensures next[id].level == Some(level) && next[id].actualScore == Some(score)
    ensures id in state ==> next[id].notes == state[id].notes
    ensures id !in state ==> next[id].notes == ""
    ensures forall k :: k in state && k != id ==> next[k] == state[k]
  {
    state[id := Entry(Some(level), Some(score), KeptNotes(state, id))]
  }

  /** `handleNoteChange(id, note)`: only the notes change; on an id with no
      entry the new entry holds the note and neither a level nor a score. */
  function NoteChange(state: EvaluationState, id: string, note: string): (next: EvaluationState)
    ensures next.Keys == state.Keys + {id}
    ensures next[id].notes == note
    ensures id in state ==> next[id].level == state[id].level && next[id].actualScore == state[id].actualScore
    ensures id !in state ==> next[id].level == None && next[id].actualScore == None
    ensures forall k :: k in state && k != id ==> next[k] == state[k]
  {
    var base := if id in state then state[id] else Entry(None, None, "");
    state[id := base.(notes := note)]
  }

  /** Choosing `level` on the card of `item`: the card computes the score and
      passes its own id (components/InputSection.tsx:55-59). */
  function SelectLevel(state: EvaluationState, item: KpiItem, level: RatingLevel): (next: EvaluationState)
    ensures next.Keys == state.Keys + {item.id}
    ensures next[item.id].level == Some(level)
    ensures next[item.id].actualScore == Some(item.maxPoints * CriterionOf(item, level).scoreTenths * 10)
    ensures next[item.id].notes == KeptNotes(state, item.id)
    ensures forall k :: k in state && k != item.id ==> next[k] == state[k]
  {
    Rate(state, item.id, level, SelectedScore(item, level))
  }

  /** Rating twice with the same level and score is rating once. */
  lemma RateIdempotent(state: EvaluationState, id: string, level: RatingLevel, score: nat)
    ensures Rate(Rate(state, id, level, score), id, level, score) == Rate(state, id, level, score)
  {
  }

  /** A later rating of the same id replaces the earlier one and keeps the notes. */
  lemma RateLastWins(state: EvaluationState, id: string, first: RatingLevel, firstScore: nat,
                     second: RatingLevel, secondScore: nat)
    ensures Rate(Rate(state, id, first, firstScore), id, second, secondScore)
         == Rate(state, id, second, secondScore)
  {
  }

  /** A later note on the same id replaces the earlier one; writing the same
      note twice is writing it once. */
  lemma NoteChangeLastWins(state: EvaluationState, id: string, first: string, second: string)
    ensures NoteChange(NoteChange(state, id, first), id, second) == NoteChange(state, id, second)
  {
  }

  /** Rating and editing a note commute, on the same id or on different ones:
      a note written before the rating survives it. */
  lemma RateNoteCommute(state: EvaluationState, rateId: string, level: RatingLevel, score: nat,
                        noteId: string, note: string)
    ensures Rate(NoteChange(state, noteId, note), rateId, level, score)
         == NoteChange(Rate(state, rateId, level, score), noteId, note)
  {
  }

  /** Every entry has a level exactly when it has a score. */
  ghost predicate Consistent(state: EvaluationState) {
    forall k :: k in state ==> (state[k].level.Some? <==> state[k].actualScore.Some?)
  }

  /** Each stored score is the one the card computes for the stored level of
      the rubric item with that id. */
  ghost predicate ScoresMatch(items: seq<KpiItem>, state: EvaluationState) {
    forall k :: k in state && state[k].level.Some? ==>
      state[k].actualScore.Some? &&
      exists i :: 0 <= i < |items| && items[i].id == k &&
        state[k].actualScore.value == SelectedScore(items[i], state[k].level.value)
  }

  /** One user intent on the evaluation table. */
  datatype Action =
    | RateAction(id: string, level: RatingLevel, score: nat)
    | NoteAction(id: string, note: string)

  function Apply(state: EvaluationState, action: Action): EvaluationState {
    match action
    case RateAction(id, level, score) => Rate(state, id, level, score)
    case NoteAction(id, note) => NoteChange(state, id, note)
  }

  /** The state after a session of actions, applied in order. */
  function Replay(state: EvaluationState, actions: seq<Action>): EvaluationState
    decreases |actions|
  {
    if |actions| == 0 then state else Replay(Apply(state, actions[0]), actions[1..])
  }

  function ActionIds(actions: seq<Action>): set<string>
    decreases |actions|
  {
    if |actions| == 0 then {} else {actions[0].id} + ActionIds(actions[1..])
  }

  /** No action removes an entry: after any session the ids with an entry are
      the initial ones plus every id acted on. */
  lemma {:induction false} ReplayKeys(state: EvaluationState, actions: seq<Action>)
    ensures Replay(state, actions).Keys == state.Keys + ActionIds(actions)
    decreases |actions|
  {
    if |actions| > 0 {
      ReplayKeys(Apply(state, actions[0]), actions[1..]);
    }
  }

  /** Entries already present keep their level and score across any session
      that never rates them. */
  lemma {:induction false} ReplayKeepsUnratedIds(state: EvaluationState, actions: seq<Action>, id: string)
    requires id in state
    requires forall i :: 0 <= i < |actions| ==> !(actions[i].RateAction? && actions[i].id == id)
    ensures id in Replay(state, actions)
    ensures Replay(state, actions)[id].level == state[id].level
    ensures Replay(state, actions)[id].actualScore == state[id].actualScore
    decreases |actions|
  {
    if |actions| > 0 {
      ReplayKeepsUnratedIds(Apply(state, actions[0]), actions[1..], id);
    }
  }

  /** Every session keeps levels and scores paired, starting from the empty table. */
  lemma {:induction false} ReplayConsistent(state: EvaluationState, actions: seq<Action>)
    requires Consistent(state)
    ensures Consistent(Replay(state, actions))
    decreases |actions|
  {
    if |actions| > 0 {
      var next := Apply(state, actions[0]);
      assert Consistent(next);
      ReplayConsistent(next, actions[1..]);
    }
  }

  /** Only rating buttons and note boxes of rubric items, each passing the
      score its card computes. */
  ghost predicate FromCards(items: seq<KpiItem>, actions: seq<Action>) {
    forall a :: 0 <= a < |actions| ==>
      exists i :: 0 <= i < |items| && items[i].id == actions[a].id &&
        (actions[a].RateAction? ==> actions[a].score == SelectedScore(items[i], actions[a].level))
  }

  /** A session driven by the cards stores, for every rated id, exactly the
      score its rubric item awards for the stored level. */
  lemma {:induction false} ReplayScoresMatch(items: seq<KpiItem>, state: EvaluationState, actions: seq<Action>)
    requires ScoresMatch(items, state)
    requires FromCards(items, actions)
    ensures ScoresMatch(items, Replay(state, actions))
    decreases |actions|
  {
    if |actions| > 0 {
      var next := Apply(state, actions[0]);
      var id := actions[0].id;
      var i :| 0 <= i < |items| && items[i].id == id &&
        (actions[0].RateAction? ==> actions[0].score == SelectedScore(items[i], actions[0].level));
      forall k | k in next && next[k].level.Some?
        ensures next[k].actualScore.Some?
        ensures (exists j :: 0 <= j < |items| && items[j].id == k &&
                  next[k].actualScore.value == SelectedScore(items[j], next[k].level.value))
      {
        if k == id && actions[0].RateAction? {
          assert items[i].id == k;
        }
      }
      assert FromCards(items, actions[1..]) by {
        forall a | 0 <= a < |actions[1..]|
          ensures (exists j :: 0 <= j < |items| && items[j].id == actions[1..][a].id &&
                    (actions[1..][a].RateAction? ==> actions[1..][a].score == SelectedScore(items[j], actions[1..][a].level)))
        {
          assert actions[1..][a] == actions[a + 1];
        }
      }
      ReplayScoresMatch(items, next, actions[1..]);
    }
  }

  /** The employee fields of the header form. */
  datatype EmployeeInfo = EmployeeInfo(name: string, id: string, position: string, department: string, reportDate: string)

  datatype EmployeeField = Name | Id | Position | Department | ReportDate

  function FieldValue(info: EmployeeInfo, field: EmployeeField): string {
    match field
    case Name => info.name
    case Id => info.id
    case Position => info.position
    case Department => info.department
    case ReportDate => info.reportDate
  }

  /** `handleInfoChange(field, value)`: the named field takes the value and
      no other field changes. */
  function InfoChange(info: EmployeeInfo, field: EmployeeField, value: string): (next: EmployeeInfo)
    ensures FieldValue(next, field) == value
    ensures forall other :: other != field ==> FieldValue(next, other) == FieldValue(info, other)
  {
    match field
    case Name => info.(name := value)
    case Id => info.(id := value)
    case Position => info.(position := value)
    case Department => info.(department := value)
    case ReportDate => info.(reportDate := value)
  }

  const PdfPrefix: string := "KPI_BaoCao_"
  const PdfSuffix: string := ".pdf"

  /** The employee id, or "NV" when it is empty (`employeeInfo.id || 'NV'`). */
  function EmployeeTag(id: string): (tag: string)
    ensures tag != ""
    ensures id != "" ==> tag == id
    ensures id == "" ==> tag == "NV"
  {
    if id == "" then "NV" else id
  }

  /** The exported file's name. */
  function PdfFilename(month: string, employeeId: string): (name: string)
    ensures |PdfPrefix| + |month| + 1 + |PdfSuffix| < |name|
    ensures name[..|PdfPrefix|] == PdfPrefix && name[|name| - |PdfSuffix|..] == PdfSuffix
    ensures name[|PdfPrefix|..|PdfPrefix| + |month| + 1] == month + "_"
  {
    PdfPrefix + month + "_" + EmployeeTag(employeeId) + PdfSuffix
  }

  /** Reads the period and the employee tag back out of a file name; the
      period ends at the first "_" after the prefix. */
  function ParsePdfFilename(name: string): (r: Option<(string, string)>)
    ensures r.Some? ==> |PdfPrefix| + |PdfSuffix| <= |name|
  {
    if |name| < |PdfPrefix| + |PdfSuffix| || name[..|PdfPrefix|] != PdfPrefix
       || name[|name| - |PdfSuffix|..] != PdfSuffix
    then None
    else
      var parts := Split(name[|PdfPrefix|..|name| - |PdfSuffix|], '_');
      if |parts| < 2 then None else Some((parts[0], Join(parts[1..], '_')))
  }

  /** The file name determines the period and the employee tag, provided the
      period has no "_" (a `YYYY-MM` month never has one). */
  lemma PdfFilenameRoundTrip(month: string, employeeId: string)
    requires '_' !in month
    ensures ParsePdfFilename(PdfFilename(month, employeeId)) == Some((month, EmployeeTag(employeeId)))
  {
    var tag := EmployeeTag(employeeId);
    var name := PdfFilename(month, employeeId);
    var middle := month + "_" + tag;
    assert name == PdfPrefix + middle + PdfSuffix;
    assert name[..|PdfPrefix|] == PdfPrefix;
    assert name[|name| - |PdfSuffix|..] == PdfSuffix;
    assert name[|PdfPrefix|..|name| - |PdfSuffix|] == middle;
    SplitAtFirstSeparator(month, '_', tag);
    JoinSplit(tag, '_');
    assert Split(middle, '_')[1..] == Split(tag, '_');
  }
}
