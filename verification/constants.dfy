/** The fixed rubric of constants.ts (`KPI_DATA`) and the invariants it
    satisfies: five categories, thirteen items, points adding up to 100,
    GOOD at 100% and WEAK <= AVERAGE <= GOOD for every item. */
module Constants {
  import opened Wrappers
  import opened Text
  import opened Types
  import opened Scoring

  /** Every item of the rubric, category by category, in display order. */
  function AllItems(rubric: seq<KpiCategory>): (items: seq<KpiItem>)
    ensures |rubric| == 0 ==> items == []
    decreases |rubric|
  {
    if |rubric| == 0 then [] else rubric[0].items + AllItems(rubric[1..])
  }

  /** The sum of the items' `maxPoints`. */
  function MaxPointsSum(items: seq<KpiItem>): nat
    decreases |items|
  {
    if |items| == 0 then 0 else items[0].maxPoints + MaxPointsSum(items[1..])
  }

  /** The ids of the items, in order. */
  function ItemIds(items: seq<KpiItem>): (ids: seq<string>)
    ensures |ids| == |items|
    ensures forall i :: 0 <= i < |items| ==> ids[i] == items[i].id
    decreases |items|
  {
    if |items| == 0 then [] else [items[0].id] + ItemIds(items[1..])
  }

  predicate Distinct(ids: seq<string>) {
    forall i, j :: 0 <= i < j < |ids| ==> ids[i] != ids[j]
  }

  /** The sum of the category maxima. */
  function CategoryMaxSum(rubric: seq<KpiCategory>): nat
    decreases |rubric|
  {
    if |rubric| == 0 then 0 else MaxPointsSum(rubric[0].items) + CategoryMaxSum(rubric[1..])
  }

  lemma {:induction false} MaxPointsSumAppend(a: seq<KpiItem>, b: seq<KpiItem>)
    ensures MaxPointsSum(a + b) == MaxPointsSum(a) + MaxPointsSum(b)
    decreases |a|
  {
    if |a| > 0 {
      assert (a + b)[1..] == a[1..] + b;
      MaxPointsSumAppend(a[1..], b);
    } else {
      assert a + b == b;
    }
  }

  /** The rubric maximum is the sum of the category maxima. */
  lemma {:induction false} RubricMaxIsSumOfCategoryMax(rubric: seq<KpiCategory>)
    ensures MaxPointsSum(AllItems(rubric)) == CategoryMaxSum(rubric)
    decreases |rubric|
  {
    if |rubric| > 0 {
      MaxPointsSumAppend(rubric[0].items, AllItems(rubric[1..]));
      RubricMaxIsSumOfCategoryMax(rubric[1..]);
    }
  }

  /** A "d.d" id read as the two-digit number dd; -1 for any other shape. */
  function IdKey(id: string): int {
    if |id| == 3 && IsDigit(id[0]) && id[1] == '.' && IsDigit(id[2])
    then DigitValue(id[0]) * 10 + DigitValue(id[2])
    else -1
  }

  /** Ids whose keys strictly increase along the sequence are distinct. */
  lemma {:induction false} IncreasingKeysDistinct(ids: seq<string>)
    requires forall i :: 0 <= i < |ids| - 1 ==> IdKey(ids[i]) < IdKey(ids[i + 1])
    ensures forall i, j :: 0 <= i < j < |ids| ==> IdKey(ids[i]) < IdKey(ids[j])
    ensures Distinct(ids)
    decreases |ids|
  {
    if |ids| > 1 {
      var tail := ids[1..];
      IncreasingKeysDistinct(tail);
      forall i, j | 0 <= i < j < |ids|
        ensures IdKey(ids[i]) < IdKey(ids[j])
      {
        if 0 < i {
          assert ids[i] == tail[i - 1] && ids[j] == tail[j - 1];
        } else if 1 < j {
          assert ids[1] == tail[0] && ids[j] == tail[j - 1];
        }
      }
    }
  }

  /** The levels' percentages lie in [0, 1] and rise from WEAK to GOOD. */
  predicate LevelsOrdered(item: KpiItem) {
    item.criteria.weak.scoreTenths <= item.criteria.average.scoreTenths
    <= item.criteria.good.scoreTenths <= 10
  }

  /** The shape every rubric item has. */
  predicate WellFormedItem(item: KpiItem) {
    && 0 < item.maxPoints
    && item.id == item.code
    && item.unit == NatToString(item.maxPoints) + "đ"
    && item.criteria.good.scoreTenths == 10
    && LevelsOrdered(item)
  }

  /** Category `index` (from 0) is `cat_<index+1>`, its name opens with
      "<index+1>. ", and its item number `j` (from 0) has id "<index+1>.<j+1>". */
  predicate WellNumberedCategory(cat: KpiCategory, index: nat) {
    var number := NatToString(index + 1);
    && cat.id == "cat_" + number
    && |number| + 2 <= |cat.name| && cat.name[..|number| + 2] == number + ". "
    && forall j :: 0 <= j < |cat.items| ==> cat.items[j].id == number + "." + NatToString(j + 1)
  }

  /** Item 1.1 (constants.ts:9). */
  const Item1_1: KpiItem := KpiItem(
    "1.1", "1.1",
    "Quản lý vận hành toàn bộ hệ thống",
    10, "10đ",
    Some([
      "Quản lý tổng thể hoạt động vận hành của toàn kíp và các ca dưới quyền",
      "Đảm bảo hệ thống máy móc vận hành liên tục, ổn định theo yêu cầu sản xuất",
      "Phân tích rủi ro, ngăn ngừa sự cố và tối ưu hiệu suất toàn dây chuyền"
    ]),
    Criteria(
      LevelDetail("Tốt", "Hoàn thành ≥100% kế hoạch", 10),
      LevelDetail("Trung bình", "95–99% kế hoạch", 8),
      LevelDetail("Yếu", "<95%", 5)))

  /** Item 1.2 (constants.ts:26). */
  const Item1_2: KpiItem := KpiItem(
    "1.2", "1.2",
    "Gián đoạn cấp hơi – xử lý sự cố cấp cao",
    10, "10đ",
    Some([
      "Theo dõi toàn bộ thông số hơi và điều phối xử lý khi có biến động",
      "Chỉ đạo trưởng ca/nhân viên xử lý kịp thời khi có dấu hiệu bất thường",
      "Đánh giá nguyên nhân gốc rễ và đưa ra giải pháp ngăn tái diễn"
    ]),
    Criteria(
      LevelDetail("Tốt", "Không gián đoạn / xử lý tốt", 10),
      LevelDetail("Trung bình", "Có sự cố nhưng xử lý đúng quy trình", 8),
      LevelDetail("Yếu", "Sự cố do lỗi quản lý", 0)))

  /** Item 1.3 (constants.ts:43). */
  const Item1_3: KpiItem := KpiItem(
    "1.3", "1.3",
    "Chất lượng hơi – áp suất – độ ổn định",
    8, "8đ",
    Some([
      "Đảm bảo chất lượng hơi đạt chuẩn, không gây ảnh hưởng sản xuất",
      "Giám sát biến động áp suất và điều phối cân bằng phụ tải",
      "Không để xảy ra phản ánh từ khách hàng nội bộ về chất lượng hơi"
    ]),
    Criteria(
      LevelDetail("Tốt", "Ổn định, không khiếu nại", 10),
      LevelDetail("Trung bình", "Có biến động nhỏ", 8),
      LevelDetail("Yếu", "Có khiếu nại", 5)))

  /** Item 1.4 (constants.ts:60). */
  const Item1_4: KpiItem := KpiItem(
    "1.4", "1.4",
    "Kiểm soát tiêu hao (Nhiên liệu – Điện – Nước)",
    8, "8đ",
    Some([
      "Giám sát chặt chẽ tiêu hao nhiên liệu theo từng ca/kíp",
      "Theo dõi định mức điện, nước, hóa chất và cảnh báo khi vượt ngưỡng",
      "Phối hợp các ca thực hiện tối ưu hiệu suất đốt và giảm lãng phí"
    ]),
    Criteria(
      LevelDetail("Tốt", "≤ định mức chuẩn", 10),
      LevelDetail("Trung bình", "Vượt +5–10%", 7),
      LevelDetail("Yếu", "Vượt >10%", 0)))

  const Operation: KpiCategory := KpiCategory("cat_1", "1. VẬN HÀNH", [Item1_1, Item1_2, Item1_3, Item1_4])

  /** Item 2.1 (constants.ts:84). */
  const Item2_1: KpiItem := KpiItem(
    "2.1", "2.1",
    "An toàn – PCCC – Môi trường (Quản lý cấp cao)",
    10, "10đ",
    Some([
      "Giám sát toàn bộ việc tuân thủ ATLD và PCCC của các ca",
      "Đảm bảo kiểm soát khí thải, nước thải theo tiêu chuẩn môi trường",
      "Chỉ đạo khắc phục các vi phạm và huấn luyện lại khi cần thiết"
    ]),
    Criteria(
      LevelDetail("Tốt", "Không vi phạm", 10),
      LevelDetail("Trung bình", "Vi phạm nhỏ được khắc phục", 7),
      LevelDetail("Yếu", "Vi phạm lớn / lặp lại", 0)))

  /** Item 2.2 (constants.ts:101). */
  const Item2_2: KpiItem := KpiItem(
    "2.2", "2.2",
    "Kỷ luật – PPE – Giám sát nội quy",
    8, "8đ",
    Some([
      "Giám sát việc tuân thủ PPE của toàn kíp và các ca trực thuộc",
      "Kiểm soát vi phạm nội quy, thời gian ra vào, giờ làm việc",
      "Xử lý kỷ luật đúng quy định và báo cáo kịp thời cho cấp trên"
    ]),
    Criteria(
      LevelDetail("Tốt", "Tuân thủ đầy đủ", 10),
      LevelDetail("Trung bình", "Có vi phạm nhỏ", 6),
      LevelDetail("Yếu", "Vi phạm nghiêm trọng", 0)))

  const Safety: KpiCategory := KpiCategory("cat_2", "2. AN TOÀN", [Item2_1, Item2_2])

  /** Item 3.1 (constants.ts:125). */
  const Item3_1: KpiItem := KpiItem(
    "3.1", "3.1",
    "Giám sát kiểm tra máy móc – hạ tầng",
    8, "8đ",
    Some([
      "Theo dõi kết quả kiểm tra thiết bị của các ca và đánh giá mức an toàn",
      "Kiểm tra định kỳ toàn bộ hạ tầng lò hơi – trạm bơm – nhiên liệu",
      "Phát hiện sớm dấu hiệu xuống cấp và đề xuất sửa chữa kịp thời"
    ]),
    Criteria(
      LevelDetail("Tốt", "≥100% kiểm tra đầy đủ", 10),
      LevelDetail("Trung bình", "80–99% đầy đủ", 8),
      LevelDetail("Yếu", "<80%", 5)))

  /** Item 3.2 (constants.ts:142). */
  const Item3_2: KpiItem := KpiItem(
    "3.2", "3.2",
    "Tuân thủ PM/CM – quản lý bảo trì",
    6, "6đ",
    Some([
      "Giám sát việc thực hiện PM/CM của các ca theo đúng kế hoạch",
      "Chịu trách nhiệm nghiệm thu chất lượng bảo trì toàn kíp",
      "Đề xuất thay thế, nâng cấp thiết bị khi cần thiết"
    ]),
    Criteria(
      LevelDetail("Tốt", "≥98% hoàn thành", 10),
      LevelDetail("Trung bình", "90–97%", 8),
      LevelDetail("Yếu", "<90%", 5)))

  /** Item 3.3 (constants.ts:159). */
  const Item3_3: KpiItem := KpiItem(
    "3.3", "3.3",
    "Kiểm soát sai phạm – chấn chỉnh – phòng ngừa",
    6, "6đ",
    Some([
      "Phát hiện nhanh sai phạm SOP/5S của các ca",
      "Xử lý và báo cáo sai phạm kịp thời, đúng mức độ",
      "Huấn luyện, đào tạo lại khi sai phạm lặp lại",
      "Đề xuất cải tiến SOP nhằm giảm lỗi tái diễn"
    ]),
    Criteria(
      LevelDetail("Tốt", "Kiểm soát tốt – không tái diễn", 10),
      LevelDetail("Trung bình", "Lỗi tái diễn nhẹ", 7),
      LevelDetail("Yếu", "Lỗi nặng / tái diễn nhiều lần", 0)))

  const Equipment: KpiCategory := KpiCategory("cat_3", "3. THIẾT BỊ", [Item3_1, Item3_2, Item3_3])

  /** Item 4.1 (constants.ts:184). */
  const Item4_1: KpiItem := KpiItem(
    "4.1", "4.1",
    "Quản lý nhân sự – phân ca – kỷ luật",
    10, "10đ",
    Some([
      "Sắp xếp, điều phối nhân sự nhiều ca đảm bảo đủ quân số",
      "Xử lý sự cố nhân sự (nghỉ đột xuất, thiếu ca) mà không ảnh hưởng vận hành",
      "Đánh giá thái độ, năng lực nhân viên và báo cáo kịp thời"
    ]),
    Criteria(
      LevelDetail("Tốt", "Không thiếu ca", 10),
      LevelDetail("Trung bình", "Thiếu nhưng xử lý được", 8),
      LevelDetail("Yếu", "Thiếu gây gián đoạn", 4)))

  /** Item 4.2 (constants.ts:201). */
  const Item4_2: KpiItem := KpiItem(
    "4.2", "4.2",
    "Đào tạo – truyền đạt – đánh giá nhân sự",
    6, "6đ",
    Some([
      "Đào tạo nhân viên mới và nhân viên luân chuyển vị trí",
      "Truyền đạt kịp thời các quy định, quy trình, SOP mới",
      "Đánh giá tay nghề và kiểm tra năng lực định kỳ",
      "Huấn luyện sau mỗi sự cố để ngăn tái diễn"
    ]),
    Criteria(
      LevelDetail("Tốt", "≥95% đạt yêu cầu", 10),
      LevelDetail("Trung bình", "70–94%", 7),
      LevelDetail("Yếu", "<70%", 0)))

  const Staffing: KpiCategory := KpiCategory("cat_4", "4. NHÂN SỰ", [Item4_1, Item4_2])

  /** Item 5.1 (constants.ts:226). */
  const Item5_1: KpiItem := KpiItem(
    "5.1", "5.1",
    "Báo cáo tổng hợp – phân tích – đúng hạn",
    6, "6đ",
    Some([
      "Gửi báo cáo tổng hợp kíp cho cấp trên đúng hạn",
      "Cập nhật số liệu tiêu hao, sự cố, vận hành chính xác",
      "Phân tích xu hướng vận hành và cảnh báo rủi ro"
    ]),
    Criteria(
      LevelDetail("Tốt", "Đủ, đúng hạn, số liệu chuẩn", 10),
      LevelDetail("Trung bình", "Trễ nhẹ / sai số nhỏ", 8),
      LevelDetail("Yếu", "Thiếu báo cáo / sai nhiều", 0)))

  /** Item 5.2 (constants.ts:243). */
  const Item5_2: KpiItem := KpiItem(
    "5.2", "5.2",
    "Phối hợp: Ca – Bộ phận – Khách hàng nội bộ",
    4, "4đ",
    Some([
      "Điều phối nhịp nhàng giữa các ca để tránh đứt quãng vận hành",
      "Phối hợp tốt với Kho, Xe, Sản xuất, Kỹ thuật khi phát sinh sự cố",
      "Giao tiếp lịch sự, giải quyết xung đột trên tinh thần hợp tác"
    ]),
    Criteria(
      LevelDetail("Tốt", "Hỗ trợ tốt, không xung đột", 10),
      LevelDetail("Trung bình", "Có xung đột nhưng giải quyết được", 6),
      LevelDetail("Yếu", "Phối hợp kém / gây hậu quả", 0)))

  const Reporting: KpiCategory := KpiCategory("cat_5", "5. BÁO CÁO", [Item5_1, Item5_2])

  /** `KPI_DATA`. */
  const KpiData: seq<KpiCategory> := [Operation, Safety, Equipment, Staffing, Reporting]

  /** Every item of the rubric, in order. */
  const KpiItems: seq<KpiItem> := [
    Item1_1, Item1_2, Item1_3, Item1_4,
    Item2_1, Item2_2, Item3_1, Item3_2,
    Item3_3, Item4_1, Item4_2, Item5_1,
    Item5_2]

  /** The rubric's items, category after category, are KpiItems. */
  lemma KpiItemsInOrder()
    ensures AllItems(KpiData) == KpiItems
  {
    assert AllItems(KpiData[4..]) == Reporting.items;
    assert AllItems(KpiData[3..]) == Staffing.items + Reporting.items;
    assert AllItems(KpiData[2..]) == Equipment.items + Staffing.items + Reporting.items;
    assert AllItems(KpiData[1..]) == Safety.items + Equipment.items + Staffing.items + Reporting.items;
  }

  lemma SmallNumerals()
    ensures NatToString(1) == "1" && NatToString(2) == "2" && NatToString(3) == "3"
    ensures NatToString(4) == "4" && NatToString(5) == "5"
  {
  }

  lemma OperationNumbered() ensures WellNumberedCategory(Operation, 0) { SmallNumerals(); }
  lemma SafetyNumbered() ensures WellNumberedCategory(Safety, 1) { SmallNumerals(); }
  lemma EquipmentNumbered() ensures WellNumberedCategory(Equipment, 2) { SmallNumerals(); }
  lemma StaffingNumbered() ensures WellNumberedCategory(Staffing, 3) { SmallNumerals(); }
  lemma ReportingNumbered() ensures WellNumberedCategory(Reporting, 4) { SmallNumerals(); }

  /** Five categories, `cat_1` to `cat_5` in order, each name opening with
      its number and each item id `<category>.<position>`. */
  lemma KpiDataNumbering()
    ensures |KpiData| == 5
    ensures forall c :: 0 <= c < |KpiData| ==> WellNumberedCategory(KpiData[c], c)
  {
    OperationNumbered();
    SafetyNumbered();
    EquipmentNumbered();
    StaffingNumbered();
    ReportingNumbered();
  }

  /** A well-formed item that lists at least one checklist point. */
  predicate WellFormedListedItem(item: KpiItem) {
    WellFormedItem(item) && item.checklist.Some? && |item.checklist.value| > 0
  }

  lemma KpiItemsWellFormed()
    ensures forall i :: 0 <= i < |KpiItems| ==> WellFormedListedItem(KpiItems[i])
  {
    assert WellFormedListedItem(Item1_1);
    assert WellFormedListedItem(Item1_2);
    assert WellFormedListedItem(Item1_3);
    assert WellFormedListedItem(Item1_4);
    assert WellFormedListedItem(Item2_1);
    assert WellFormedListedItem(Item2_2);
    assert WellFormedListedItem(Item3_1);
    assert WellFormedListedItem(Item3_2);
    assert WellFormedListedItem(Item3_3);
    assert WellFormedListedItem(Item4_1);
    assert WellFormedListedItem(Item4_2);
    assert WellFormedListedItem(Item5_1);
    assert WellFormedListedItem(Item5_2);
  }

  /** Every item of the rubric is well formed and has a non-empty checklist. */
  lemma KpiDataItemsWellFormed(item: KpiItem)
    requires item in AllItems(KpiData)
    ensures WellFormedItem(item)
    ensures item.checklist.Some? && |item.checklist.value| > 0
  {
    KpiItemsInOrder();
    KpiItemsWellFormed();
    var i :| 0 <= i < |KpiItems| && KpiItems[i] == item;
  }

  /** The rubric has thirteen items. */
  lemma KpiDataItemCount()
    ensures |AllItems(KpiData)| == 13
  {
    KpiItemsInOrder();
  }

  /** The item ids, in rubric order. */
  lemma KpiDataIds()
    ensures ItemIds(AllItems(KpiData))
         == ["1.1", "1.2", "1.3", "1.4", "2.1", "2.2", "3.1", "3.2", "3.3", "4.1", "4.2", "5.1", "5.2"]
  {
    KpiItemsInOrder();
    var ids := ItemIds(KpiItems);
    assert ids[0] == "1.1";
    assert ids[1] == "1.2";
    assert ids[2] == "1.3";
    assert ids[3] == "1.4";
    assert ids[4] == "2.1";
    assert ids[5] == "2.2";
    assert ids[6] == "3.1";
    assert ids[7] == "3.2";
    assert ids[8] == "3.3";
    assert ids[9] == "4.1";
    assert ids[10] == "4.2";
    assert ids[11] == "5.1";
    assert ids[12] == "5.2";
  }

  /** No two items share an id. */
  lemma KpiDataIdsUnique()
    ensures Distinct(ItemIds(AllItems(KpiData)))
  {
    KpiDataIds();
    var ids := ItemIds(AllItems(KpiData));
    assert IdKey(ids[0]) == 11;
    assert IdKey(ids[1]) == 12;
    assert IdKey(ids[2]) == 13;
    assert IdKey(ids[3]) == 14;
    assert IdKey(ids[4]) == 21;
    assert IdKey(ids[5]) == 22;
    assert IdKey(ids[6]) == 31;
    assert IdKey(ids[7]) == 32;
    assert IdKey(ids[8]) == 33;
    assert IdKey(ids[9]) == 41;
    assert IdKey(ids[10]) == 42;
    assert IdKey(ids[11]) == 51;
    assert IdKey(ids[12]) == 52;
    IncreasingKeysDistinct(ids);
  }

  /** The category maxima are 36, 18, 20, 16 and 10, and all items add up to 100. */
  lemma KpiDataMaxima()
    ensures |KpiData| == 5
    ensures MaxPointsSum(KpiData[0].items) == 36
    ensures MaxPointsSum(KpiData[1].items) == 18
    ensures MaxPointsSum(KpiData[2].items) == 20
    ensures MaxPointsSum(KpiData[3].items) == 16
    ensures MaxPointsSum(KpiData[4].items) == 10
    ensures MaxPointsSum(AllItems(KpiData)) == 100
  {
    assert MaxPointsSum(Operation.items[3..]) == 8;
    assert MaxPointsSum(Operation.items[2..]) == 16;
    assert MaxPointsSum(Operation.items[1..]) == 26;
    assert MaxPointsSum(Operation.items) == 36;
    assert MaxPointsSum(Safety.items[1..]) == 8;
    assert MaxPointsSum(Safety.items) == 18;
    assert MaxPointsSum(Equipment.items[2..]) == 6;
    assert MaxPointsSum(Equipment.items[1..]) == 12;
    assert MaxPointsSum(Equipment.items) == 20;
    assert MaxPointsSum(Staffing.items[1..]) == 6;
    assert MaxPointsSum(Staffing.items) == 16;
    assert MaxPointsSum(Reporting.items[1..]) == 4;
    assert MaxPointsSum(Reporting.items) == 10;
    assert CategoryMaxSum(KpiData[4..]) == 10;
    assert CategoryMaxSum(KpiData[3..]) == 26;
    assert CategoryMaxSum(KpiData[2..]) == 46;
    assert CategoryMaxSum(KpiData[1..]) == 64;
    RubricMaxIsSumOfCategoryMax(KpiData);
  }

  /** On a well-formed item the three buttons award WEAK <= AVERAGE <= GOOD,
      and GOOD awards the full `maxPoints`. */
  lemma WellFormedItemScores(item: KpiItem)
    requires WellFormedItem(item)
    ensures SelectedScore(item, Weak) <= SelectedScore(item, Average) <= SelectedScore(item, Good)
    ensures SelectedScore(item, Good) == item.maxPoints * 100
  {
    SelectedScoreMonotone(item, Weak, Average);
    SelectedScoreMonotone(item, Average, Good);
    GoodGivesFullMarks(item);
  }
}
