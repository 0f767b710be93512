/** The rubric and evaluation-state shapes of types.ts. */
module Types {
  import opened Wrappers

  /** The three rating levels (types.ts:1-5). */
  datatype RatingLevel = Good | Average | Weak

  /** The levels in declaration order, which is the order `Object.values`
      yields them and so the order the rating buttons appear. */
  const AllLevels: seq<RatingLevel> := [Good, Average, Weak]

  /** Every level occurs in AllLevels exactly once. */
  lemma AllLevelsComplete(level: RatingLevel)
    ensures level in AllLevels
    ensures |AllLevels| == 3
    ensures forall i, j :: 0 <= i < j < |AllLevels| ==> AllLevels[i] != AllLevels[j]
  {
  }

  /** One level's criterion; `caption` is the source's `label`.
      `scoreTenths` is `scorePercent` times ten, so 1.0 is 10: every
      percentage in the rubric is a multiple of 0.1. */
  datatype LevelDetail = LevelDetail(caption: string, description: string, scoreTenths: nat)

  /** A criterion for each of the three levels, so lookup by level is total. */
  datatype Criteria = Criteria(good: LevelDetail, average: LevelDetail, weak: LevelDetail)

  /** `item.criteria[level]`. */
  function CriterionOf(item: KpiItem, level: RatingLevel): LevelDetail {
    match level
    case Good => item.criteria.good
    case Average => item.criteria.average
    case Weak => item.criteria.weak
  }

  /** One rubric line; `checklist` is optional. */
  datatype KpiItem = KpiItem(
    id: string,
    code: string,
    name: string,
    maxPoints: nat,
    unit: string,
    checklist: Option<seq<string>>,
    criteria: Criteria)

  datatype KpiCategory = KpiCategory(id: string, name: string, items: seq<KpiItem>)

  /** The value stored under an item id. `actualScore` is in hundredths of a
      point. The declared type makes `level` and `actualScore` mandatory, but
      a note typed before any rating produces an entry holding only `notes`,
      so both are optional here. */
  datatype Entry = Entry(level: Option<RatingLevel>, actualScore: Option<nat>, notes: string)

  /** Item id to entry; ids absent from the map are unrated. */
  type EvaluationState = map<string, Entry>

  /** An entry that carries both a level and a score. */
  predicate IsRated(e: Entry) {
    e.level.Some? && e.actualScore.Some?
  }

  /** `state[id]`, `undefined` when the id has no entry. */
  function Lookup(state: EvaluationState, id: string): (r: Option<Entry>)
    ensures r.Some? <==> id in state
    ensures r.Some? ==> r.value == state[id]
  {
    if id in state then Some(state[id]) else None
  }

  /** What a render throws when it reads a property of `undefined`. */
  datatype RenderError = TypeError(reading: string)
}
