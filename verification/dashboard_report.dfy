/** The pure parts of components/DashboardReport.tsx, the printable report:
    the ranking badge's colour, the evaluation period, the employee block's
    placeholders, and the detailed table, one header line per category and
    one row per rubric item in rubric order. */
module DashboardReport {
  import opened Wrappers
  import opened Text
  import opened Types
  import opened Constants
  import opened Evaluation
  import opened InputView
  import opened ResultsPanel

  /** The badge colours: green, blue, red. */
  datatype BadgeBand = Green | Blue | Red

  /** The badge splits at 90 and 70 and has no separate band for zero. */
  function BadgeBandOf(percent: int): (band: BadgeBand)
    ensures band == Green <==> 90 <= percent
    ensures band == Blue <==> 70 <= percent < 90
    ensures band == Red <==> percent < 70
  {
    if percent >= 90 then Green else if percent >= 70 then Blue else Red
  }

  /** The badge and the results panel agree on every positive percentage;
      on zero or below the panel is neutral while the badge is red. */
  lemma BadgeVersusPanel(percent: int)
    ensures 0 < percent ==>
      && (BadgeBandOf(percent) == Green <==> PanelBandOf(percent) == Excellent)
      && (BadgeBandOf(percent) == Blue <==> PanelBandOf(percent) == Pass)
      && (BadgeBandOf(percent) == Red <==> PanelBandOf(percent) == Fail)
    ensures percent <= 0 ==> BadgeBandOf(percent) == Red && PanelBandOf(percent) == Neutral
  {
  }

  /** `const [year, month] = selectedMonth.split('-')`; `month` is undefined
      when there is no "-". */
  function Period(selectedMonth: string): (yearMonth: (string, Option<string>))
    ensures '-' !in yearMonth.0
    ensures yearMonth.1.None? <==> '-' !in selectedMonth
    ensures yearMonth.1.None? ==> yearMonth.0 == selectedMonth
    ensures yearMonth.1.Some? ==>
      && '-' !in yearMonth.1.value
      && |yearMonth.0| + 1 + |yearMonth.1.value| <= |selectedMonth|
      && selectedMonth[..|yearMonth.0| + 1 + |yearMonth.1.value|] == yearMonth.0 + "-" + yearMonth.1.value
    ensures yearMonth.1.Some? ==>
      var end := |yearMonth.0| + 1 + |yearMonth.1.value|;
      end == |selectedMonth| || selectedMonth[end] == '-'
  {
    var parts := Split(selectedMonth, '-');
    SplitSingle(selectedMonth, '-');
    JoinSplit(selectedMonth, '-');
    JoinOpensWithFirstTwo(parts, '-');
    (parts[0], if |parts| > 1 then Some(parts[1]) else None)
  }

  /** "Tháng {month}/{year}"; an undefined month renders as nothing. */
  function PeriodText(selectedMonth: string): (text: string)
    ensures '-' !in selectedMonth ==> text == "Tháng /" + selectedMonth
    ensures |Split(selectedMonth, '-')| == 2 ==> text == "Tháng " + MonthLabel(selectedMonth)
  {
    var (year, month) := Period(selectedMonth);
    MonthLabelOfTwoPieces(selectedMonth);
    "Tháng " + (if month.Some? then month.value else "") + "/" + year
  }

  /** For "YYYY-MM" the report prints "Tháng MM/YYYY", the same text as the
      results panel's heading. */
  lemma PeriodTextOfMonth(year: string, month: string)
    requires '-' !in year && '-' !in month
    ensures Period(year + "-" + month) == (year, Some(month))
    ensures PeriodText(year + "-" + month) == "Tháng " + month + "/" + year
    ensures PeriodText(year + "-" + month) == "Tháng " + MonthLabel(year + "-" + month)
  {
    SplitAtFirstSeparator(year, '-', month);
    SplitWithoutSeparator(month, '-');
    assert year + "-" + month == year + ['-'] + month;
    assert Split(year + "-" + month, '-') == [year, month];
    MonthLabelOfPeriod(year, month);
  }

  const FieldPlaceholder: string := "................................"
  const SignaturePlaceholder: string := "....................."

  /** `value || '....'`: an empty field prints as a dotted line. */
  function ShownField(value: string, placeholder: string): (shown: string)
    requires placeholder != ""
    ensures shown != ""
    ensures value != "" ==> shown == value
    ensures value == "" ==> shown == placeholder
  {
    if value == "" then placeholder else value
  }

  /** The four cells of the employee block: name, id, position, department. */
  function EmployeeBlock(info: EmployeeInfo): (cells: seq<string>)
    ensures |cells| == 4
    ensures forall i :: 0 <= i < 4 ==> cells[i] != ""
    ensures cells[0] == ShownField(info.name, FieldPlaceholder) && cells[1] == ShownField(info.id, FieldPlaceholder)
    ensures cells[2] == ShownField(info.position, FieldPlaceholder) && cells[3] == ShownField(info.department, FieldPlaceholder)
  {
    [ShownField(info.name, FieldPlaceholder), ShownField(info.id, FieldPlaceholder),
     ShownField(info.position, FieldPlaceholder), ShownField(info.department, FieldPlaceholder)]
  }

  /** The name under the employee's signature line: the name cell's text, or
      a shorter dotted line when the name is empty. */
  function SignatureName(info: EmployeeInfo): (shown: string)
    ensures shown != ""
    ensures info.name != "" ==> shown == info.name && shown == EmployeeBlock(info)[0]
    ensures info.name == "" ==> shown == SignaturePlaceholder && shown != EmployeeBlock(info)[0]
  {
    ShownField(info.name, SignaturePlaceholder)
  }

  /** `category.id.split('_')[1]`, nothing when there is no "_". */
  function CategoryNumber(categoryId: string): string {
    var parts := Split(categoryId, '_');
    if |parts| > 1 then parts[1] else ""
  }

  /** The number printed for `cat_<n>` is n. */
  lemma CategoryNumberOfId(n: nat)
    ensures CategoryNumber("cat_" + NatToString(n)) == NatToString(n)
  {
    var digits := NatToString(n);
    assert "cat_" + digits == "cat" + ['_'] + digits;
    assert '_' !in digits;
    SplitAtFirstSeparator("cat", '_', digits);
    SplitWithoutSeparator(digits, '_');
  }

  /** Each category header of the rubric shows its position, 1 to 5, and the
      category's name begins with that same number. */
  lemma KpiDataCategoryNumbers(c: nat)
    requires c < |KpiData|
    ensures CategoryNumber(KpiData[c].id) == NatToString(c + 1)
    ensures var number := CategoryNumber(KpiData[c].id);
      |number| + 2 <= |KpiData[c].name| && KpiData[c].name[..|number| + 2] == number + ". "
  {
    KpiDataNumbering();
    CategoryNumberOfId(c + 1);
  }

  /** The rating column's label. */
  function LevelLabel(level: RatingLevel): (caption: string)
    ensures caption != "" && caption != NoRating
  {
    match level
    case Good => "TỐT"
    case Average => "KHÁ"
    case Weak => "YẾU"
  }

  /** The three labels are distinct, so the column determines the level. */
  lemma LevelLabelInjective(a: RatingLevel, b: RatingLevel)
    requires LevelLabel(a) == LevelLabel(b)
    ensures a == b
  {
    assert LevelLabel(Good)[0] == 'T' && LevelLabel(Average)[0] == 'K' && LevelLabel(Weak)[0] == 'Y';
  }

  /** One table row: code, name, criterion line, max points, score, rating
      label and notes. */
  datatype Row = Row(
    code: string,
    name: string,
    description: string,
    maxPoints: string,
    score: string,
    rating: string,
    notes: string)

  const TargetPrefix: string := "Mục tiêu: "
  const UnratedScore: string := "0.00"
  const NoRating: string := "-"

  /** The row as written: any entry counts as rated, so an entry holding only
      a note reads `criteria[undefined].description` and throws. */
  function RowAsWritten(item: KpiItem, rating: Option<Entry>): (r: Result<Row, RenderError>)
    ensures r.Failure? <==> rating.Some? && !IsRated(rating.value)
  {
    match rating
    case None =>
      Success(Row(item.code, item.name, TargetPrefix + item.criteria.good.description,
                  NatToString(item.maxPoints), UnratedScore, NoRating, ""))
    case Some(e) =>
      if e.level.None? then Failure(TypeError("description"))
      else if e.actualScore.None? then Failure(TypeError("toFixed"))
      else Success(Row(item.code, item.name, CriterionOf(item, e.level.value).description,
                       NatToString(item.maxPoints), Fixed2(e.actualScore.value),
                       LevelLabel(e.level.value), e.notes))
  }

  /** A note typed on an item that was never rated makes the report throw. */
  lemma NoteBeforeRatingBreaksReport(item: KpiItem, note: string)
    ensures RowAsWritten(item, Lookup(NoteChange(map[], item.id, note), item.id)).Failure?
  {
  }

  /** The row with the guard the report needs: an entry is shown as rated
      only when it has a level and a score; the notes are shown either way. */
  function ItemRow(item: KpiItem, rating: Option<Entry>): (row: Row)
    ensures row.code == item.code && row.name == item.name
    ensures row.maxPoints == NatToString(item.maxPoints)
    ensures row.notes == NoteBoxValue(rating)
    ensures rating.None? || !IsRated(rating.value) ==>
      && row.score == UnratedScore && ParseFixed2(row.score) == Some(0)
      && row.rating == NoRating
      && row.description == TargetPrefix + item.criteria.good.description
    ensures rating.Some? && IsRated(rating.value) ==>
      && ParseFixed2(row.score) == Some(rating.value.actualScore.value)
      && row.rating == LevelLabel(rating.value.level.value)
      && row.description == CriterionOf(item, rating.value.level.value).description
  {
    if rating.Some? && IsRated(rating.value) then
      var e := rating.value;
      Fixed2RoundTrip(e.actualScore.value);
      Row(item.code, item.name, CriterionOf(item, e.level.value).description,
          NatToString(item.maxPoints), Fixed2(e.actualScore.value), LevelLabel(e.level.value), e.notes)
    else
      Fixed2RoundTrip(0);
      assert Fixed2(0) == UnratedScore;
      Row(item.code, item.name, TargetPrefix + item.criteria.good.description,
          NatToString(item.maxPoints), UnratedScore, NoRating, NoteBoxValue(rating))
  }

  /** The guard changes nothing where the report did not throw. */
  lemma ItemRowAgreesWhereDefined(item: KpiItem, rating: Option<Entry>)
    requires RowAsWritten(item, rating).Success?
    ensures ItemRow(item, rating) == RowAsWritten(item, rating).value
  {
  }

  /** A line of the table body. */
  datatype TableLine = CategoryHeader(number: string, name: string) | ItemLine(row: Row)

  /** The rows of the given items, in order. */
  function RowsFor(items: seq<KpiItem>, ratings: EvaluationState): (rows: seq<Row>)
    ensures |rows| == |items|
    decreases |items|
  {
    if |items| == 0 then [] else [ItemRow(items[0], Lookup(ratings, items[0].id))] + RowsFor(items[1..], ratings)
  }

  function ItemLinesFor(items: seq<KpiItem>, ratings: EvaluationState): (lines: seq<TableLine>)
    ensures |lines| == |items|
    decreases |items|
  {
    if |items| == 0 then [] else [ItemLine(ItemRow(items[0], Lookup(ratings, items[0].id)))] + ItemLinesFor(items[1..], ratings)
  }

  /** Line `i` of a category's item lines is the row of its item `i`. */
  lemma {:induction false} ItemLineAt(items: seq<KpiItem>, ratings: EvaluationState, i: nat)
    requires i < |items|
    ensures ItemLinesFor(items, ratings)[i] == ItemLine(ItemRow(items[i], Lookup(ratings, items[i].id)))
    decreases i
  {
    if i > 0 {
      ItemLineAt(items[1..], ratings, i - 1);
    }
  }

  /** `KPI_DATA.map(category => header + category.items.map(row))`. */
  function TableBody(rubric: seq<KpiCategory>, ratings: EvaluationState): (lines: seq<TableLine>)
    ensures |lines| == |rubric| + |AllItems(rubric)|
    decreases |rubric|
  {
    if |rubric| == 0 then []
    else [CategoryHeader(CategoryNumber(rubric[0].id), rubric[0].name)]
         + ItemLinesFor(rubric[0].items, ratings) + TableBody(rubric[1..], ratings)
  }

  /** The rows among the lines, in order. */
  function RowsOf(lines: seq<TableLine>): seq<Row>
    decreases |lines|
  {
    if |lines| == 0 then []
    else (if lines[0].ItemLine? then [lines[0].row] else []) + RowsOf(lines[1..])
  }

  /** The number of category headers among the lines. */
  function HeaderCount(lines: seq<TableLine>): nat
    decreases |lines|
  {
    if |lines| == 0 then 0 else (if lines[0].CategoryHeader? then 1 else 0) + HeaderCount(lines[1..])
  }

  lemma {:induction false} RowsOfAppend(a: seq<TableLine>, b: seq<TableLine>)
    ensures RowsOf(a + b) == RowsOf(a) + RowsOf(b)
    ensures HeaderCount(a + b) == HeaderCount(a) + HeaderCount(b)
    decreases |a|
  {
    if |a| == 0 {
      assert a + b == b;
    } else {
      assert (a + b)[1..] == a[1..] + b;
      RowsOfAppend(a[1..], b);
    }
  }

  lemma {:induction false} RowsForAppend(a: seq<KpiItem>, b: seq<KpiItem>, ratings: EvaluationState)
    ensures RowsFor(a + b, ratings) == RowsFor(a, ratings) + RowsFor(b, ratings)
    decreases |a|
  {
    if |a| == 0 {
      assert a + b == b;
    } else {
      assert (a + b)[1..] == a[1..] + b;
      RowsForAppend(a[1..], b, ratings);
    }
  }

  lemma {:induction false} ItemLinesAreRows(items: seq<KpiItem>, ratings: EvaluationState)
    ensures RowsOf(ItemLinesFor(items, ratings)) == RowsFor(items, ratings)
    ensures HeaderCount(ItemLinesFor(items, ratings)) == 0
    decreases |items|
  {
    if |items| > 0 {
      var first := [ItemLine(ItemRow(items[0], Lookup(ratings, items[0].id)))];
      RowsOfAppend(first, ItemLinesFor(items[1..], ratings));
      ItemLinesAreRows(items[1..], ratings);
      assert RowsOf(first) == [first[0].row] by {
        assert first[1..] == [];
      }
      assert HeaderCount(first) == 0 by {
        assert first[1..] == [];
      }
    }
  }

  /** The table of two rubrics placed one after the other is the first's
      table followed by the second's. */
  lemma {:induction false} TableBodyAppend(a: seq<KpiCategory>, b: seq<KpiCategory>, ratings: EvaluationState)
    ensures TableBody(a + b, ratings) == TableBody(a, ratings) + TableBody(b, ratings)
    decreases |a|
  {
    if |a| == 0 {
      assert a + b == b;
    } else {
      assert (a + b)[0] == a[0];
      assert (a + b)[1..] == a[1..] + b;
      TableBodyAppend(a[1..], b, ratings);
    }
  }

  /** In `whole == p + [h] + l + r`, `h` sits at offset `|p|` and `l` right after it. */
  lemma SliceMiddle<T>(whole: seq<T>, p: seq<T>, h: T, l: seq<T>, r: seq<T>, at: nat, n: nat)
    requires whole == p + ([h] + l + r) && at == |p| && n == |l|
    ensures at + n < |whole|
    ensures whole[at] == h
    ensures l <= whole[at + 1..]
  {
    assert forall i :: 0 <= i < n ==> whole[at + 1..][i] == l[i];
  }

  /** The table cut before category `c`: the earlier categories' lines, then
      `c`'s header and rows, then the later categories' lines. */
  lemma TableBodySplitAt(rubric: seq<KpiCategory>, ratings: EvaluationState, c: nat)
    requires c < |rubric|
    ensures TableBody(rubric, ratings)
      == TableBody(rubric[..c], ratings)
         + ([CategoryHeader(CategoryNumber(rubric[c].id), rubric[c].name)]
            + ItemLinesFor(rubric[c].items, ratings) + TableBody(rubric[c + 1..], ratings))
  {
    assert TableBody(rubric[c..], ratings)
      == [CategoryHeader(CategoryNumber(rubric[c].id), rubric[c].name)]
         + ItemLinesFor(rubric[c].items, ratings) + TableBody(rubric[c + 1..], ratings) by {
      assert rubric[c..][0] == rubric[c];
      assert rubric[c..][1..] == rubric[c + 1..];
    }
    TableBodyAppend(rubric[..c], rubric[c..], ratings);
    assert rubric[..c] + rubric[c..] == rubric;
  }

  /** Category `c`'s header sits after the headers and rows of the categories
      before it, and the lines right after it begin with exactly its own items'
      rows. */
  lemma TableBodyLayout(rubric: seq<KpiCategory>, ratings: EvaluationState, c: nat)
    requires c < |rubric|
    ensures var at := c + |AllItems(rubric[..c])|;
      && at + |rubric[c].items| < |TableBody(rubric, ratings)|
      && TableBody(rubric, ratings)[at] == CategoryHeader(CategoryNumber(rubric[c].id), rubric[c].name)
      && ItemLinesFor(rubric[c].items, ratings) <= TableBody(rubric, ratings)[at + 1..]
  {
    TableBodySplitAt(rubric, ratings, c);
    SliceMiddle(TableBody(rubric, ratings), TableBody(rubric[..c], ratings),
      CategoryHeader(CategoryNumber(rubric[c].id), rubric[c].name),
      ItemLinesFor(rubric[c].items, ratings), TableBody(rubric[c + 1..], ratings),
      c + |AllItems(rubric[..c])|, |rubric[c].items|);
  }

  /** Read in order, the table holds exactly one row per rubric item, in
      rubric order. */
  lemma {:induction false} TableBodyRows(rubric: seq<KpiCategory>, ratings: EvaluationState)
    ensures RowsOf(TableBody(rubric, ratings)) == RowsFor(AllItems(rubric), ratings)
    decreases |rubric|
  {
    if |rubric| > 0 {
      var header := [CategoryHeader(CategoryNumber(rubric[0].id), rubric[0].name)];
      var items := ItemLinesFor(rubric[0].items, ratings);
      var rest := TableBody(rubric[1..], ratings);
      assert RowsOf(TableBody(rubric, ratings)) == RowsOf(header) + RowsOf(items) + RowsOf(rest) by {
        RowsOfAppend(header + items, rest);
        RowsOfAppend(header, items);
      }
      assert RowsOf(header) == [] by {
        assert header[1..] == [];
      }
      assert RowsOf(items) == RowsFor(rubric[0].items, ratings) by {
        ItemLinesAreRows(rubric[0].items, ratings);
      }
      assert RowsOf(rest) == RowsFor(AllItems(rubric[1..]), ratings) by {
        TableBodyRows(rubric[1..], ratings);
      }
      RowsForAppend(rubric[0].items, AllItems(rubric[1..]), ratings);
    }
  }

  /** The table holds one header line per category. */
  lemma {:induction false} TableBodyHeaders(rubric: seq<KpiCategory>, ratings: EvaluationState)
    ensures HeaderCount(TableBody(rubric, ratings)) == |rubric|
    decreases |rubric|
  {
    if |rubric| > 0 {
      var header := [CategoryHeader(CategoryNumber(rubric[0].id), rubric[0].name)];
      var items := ItemLinesFor(rubric[0].items, ratings);
      var rest := TableBody(rubric[1..], ratings);
      RowsOfAppend(header + items, rest);
      RowsOfAppend(header, items);
      ItemLinesAreRows(rubric[0].items, ratings);
      TableBodyHeaders(rubric[1..], ratings);
      assert HeaderCount(header) == 1 by {
        assert header[1..] == [];
      }
    }
  }

  lemma {:induction false} ItemLinesIgnoreOtherIds(items: seq<KpiItem>, r1: EvaluationState, r2: EvaluationState)
    requires forall i :: 0 <= i < |items| ==> Lookup(r1, items[i].id) == Lookup(r2, items[i].id)
    ensures ItemLinesFor(items, r1) == ItemLinesFor(items, r2)
    decreases |items|
  {
    if |items| > 0 {
      ItemLinesIgnoreOtherIds(items[1..], r1, r2);
    }
  }

  /** The table depends only on the entries stored under rubric ids: entries
      under any other id change nothing. */
  lemma {:induction false} TableBodyIgnoresOtherIds(rubric: seq<KpiCategory>, r1: EvaluationState, r2: EvaluationState)
    requires forall item :: item in AllItems(rubric) ==> Lookup(r1, item.id) == Lookup(r2, item.id)
    ensures TableBody(rubric, r1) == TableBody(rubric, r2)
    decreases |rubric|
  {
    if |rubric| > 0 {
      assert AllItems(rubric) == rubric[0].items + AllItems(rubric[1..]);
      ItemLinesIgnoreOtherIds(rubric[0].items, r1, r2);
      TableBodyIgnoresOtherIds(rubric[1..], r1, r2);
    }
  }

  /** After a level is chosen on an item's card, its report row shows that
      level's label and description and the card's score to two decimals. */
  lemma RatedRowShowsCardScore(state: EvaluationState, item: KpiItem, level: RatingLevel)
    ensures var row := ItemRow(item, Lookup(SelectLevel(state, item, level), item.id));
      && row.score == Fixed2(item.maxPoints * CriterionOf(item, level).scoreTenths * 10)
      && row.rating == LevelLabel(level)
      && row.description == CriterionOf(item, level).description
      && row.notes == KeptNotes(state, item.id)
  {
  }

  /** Row i of the table shows the code and name of the i-th rubric item,
      whatever has been rated. */
  lemma TableRows(rubric: seq<KpiCategory>, ratings: EvaluationState)
    ensures HeaderCount(TableBody(rubric, ratings)) == |rubric|
    ensures |RowsOf(TableBody(rubric, ratings))| == |AllItems(rubric)|
    ensures forall i :: 0 <= i < |AllItems(rubric)| ==>
      RowsOf(TableBody(rubric, ratings))[i].code == AllItems(rubric)[i].code
      && RowsOf(TableBody(rubric, ratings))[i].name == AllItems(rubric)[i].name
  {
    TableBodyRows(rubric, ratings);
    TableBodyHeaders(rubric, ratings);
    RowsForContents(AllItems(rubric), ratings);
  }

  /** The report of the rubric has 5 category headers and 13 item rows. */
  lemma KpiDataTable(ratings: EvaluationState)
    ensures HeaderCount(TableBody(KpiData, ratings)) == 5
    ensures |RowsOf(TableBody(KpiData, ratings))| == 13
  {
    TableRows(KpiData, ratings);
    KpiDataNumbering();
    KpiDataItemCount();
  }

  /** Row i of RowsFor is the row of item i. */
  lemma {:induction false} RowsForContents(items: seq<KpiItem>, ratings: EvaluationState)
    ensures forall i :: 0 <= i < |items| ==> RowsFor(items, ratings)[i] == ItemRow(items[i], Lookup(ratings, items[i].id))
    decreases |items|
  {
    if |items| > 0 {
      RowsForContents(items[1..], ratings);
    }
  }
}
