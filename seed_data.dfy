/**
 * The seed data of `constants.ts` and `tokyo-trip-2026/constants.ts`: the food list, the
 * eight-day itinerary, the empty expense list and the exchange rate. The tokyo copy shares
 * days D1-D4 and D8 with the root copy and leaves D5-D7 unplanned and empty.
 */
module SeedData {
  import opened Wrappers
  import opened TripTypes

  /** `FOOD_LIST` of `constants.ts`. */
  const FoodList: seq<string> := [
    "燒肉", "壽司", "迴轉壽司", "拉麵", "蕎麥麵", "烏龍麵", "咖哩飯", "炸豬排", "湯咖哩", "鰻魚飯", "壽喜燒", "涮涮鍋", "關東煮", "章魚燒", "炒麵", "定食", "家庭餐廳"
  ]

  /** `FOOD_LIST` of `tokyo-trip-2026/constants.ts`: the root list without "湯咖哩". */
  const TokyoFoodList: seq<string> := [
    "燒肉", "壽司", "迴轉壽司", "拉麵", "蕎麥麵", "烏龍麵", "咖哩飯", "炸豬排", "鰻魚飯", "壽喜燒", "涮涮鍋", "關東煮", "章魚燒", "炒麵", "定食", "家庭餐廳"
  ]

  /** `INITIAL_EXPENSES`, empty in both copies. */
  const InitialExpenses: seq<ExpenseRecord> := []

  /** `CURRENCY_RATE`, yen to New Taiwan dollars, in both copies. */
  const CurrencyRate: real := 0.215

  const Day1: DayPlan := DayPlan("D1", "2/9 (一)", "抵達、淺草古都巡禮", "🏯", Planned,
    [
      ItineraryItem("10:40", "抵達東京成田機場 (NRT)", "辦理入境手續。建議事先查好 Terminal/Gate 資訊。", None, None),
      ItineraryItem("11:30", "NRT 搭乘 Skyliner", "前往日暮里。購買 Skyliner 來回票通常比單程划算。", None, None),
      ItineraryItem("12:30", "日暮里附近中餐", "轉盤決定", None, None),
      ItineraryItem("14:30", "淺草地區", "淺草寺、雷門、淺草商店街。", None, None),
      ItineraryItem("14:30", "晴空塔室內購物", "雨天備案：若下雨可直接前往晴空塔水族館與購物中心。", None, Some(true)),
      ItineraryItem("17:00", "晴空塔", "決定是否參觀水族館，或直接上展望台。", None, None),
      ItineraryItem("18:30", "晚餐", "轉盤決定", None, None),
      ItineraryItem("21:00", "前往北千住住所", "Check-in。確認 Wi-Fi 和暖氣運作正常。", None, None),
      ItineraryItem("22:00", "唐吉訶德/住所周邊", "買宵夜、補給品。", None, None)
    ])

  const Day2: DayPlan := DayPlan("D2", "2/10 (二)", "上野文化、銀座時尚、東京鐵塔", "🗼", Planned,
    [
      ItineraryItem("09:30", "上野車站早餐", "9:30 出門", None, None),
      ItineraryItem("10:30", "上野動物園", "熊貓觀看可能需要排隊或預約。", None, None),
      ItineraryItem("12:30", "阿美橫町午餐", "有很多便宜的海鮮丼和小吃可選。", None, None),
      ItineraryItem("14:30", "東京車站", "丸之內紅磚建築、Tokyo Character Street。", None, None),
      ItineraryItem("16:00", "銀座", "逛街。", None, None),
      ItineraryItem("16:00", "有樂町 Big Camera / MUJI", "備案：若不想逛精品，可轉往有樂町旗艦店。", None, Some(true)),
      ItineraryItem("18:00", "東京鐵塔", "準備上展望台或在外圍拍照。", None, None),
      ItineraryItem("19:30", "晚餐", "燒肉", None, None),
      ItineraryItem("21:30", "回家", "便利商店買消夜", None, None)
    ])

  const Day3: DayPlan := DayPlan("D3", "2/11 (三)", "次文化動漫、新宿夜生活", "🛍️", Planned,
    [
      ItineraryItem("10:30", "前往池袋車站", "10:30 出門", None, None),
      ItineraryItem("11:00", "池袋景點", "Animate、JUMP Shop。", None, None),
      ItineraryItem("11:00", "Sunshine City (太陽城)", "雨天首選備案：包含水族館、寶可夢中心、室內樂園。", None, Some(true)),
      ItineraryItem("13:00", "池袋午餐", "壽喜燒 (Sukiyaki)", None, None),
      ItineraryItem("15:00", "新大久保", "逛小物、小吃，體驗東京的韓國城氛圍。", None, None),
      ItineraryItem("18:30", "新宿", "歌舞伎町、東口商圈、UNIQLO、Bic Camera。", None, None),
      ItineraryItem("20:00", "晚餐", "推薦：拉麵或居酒屋。", None, None),
      ItineraryItem("22:30", "回家", "若時間充裕，可考慮東京都廳拍免費夜景。", None, None)
    ])

  const Day4: DayPlan := DayPlan("D4", "2/12 (四)", "原宿潮流、Shibuya Sky", "⛩️", Planned,
    [
      ItineraryItem("10:00", "原宿早餐", "10:00 出門。推薦：竹下通可麗餅。", None, None),
      ItineraryItem("11:00", "竹下通", "購物買衣服，感受年輕潮流氣息。", None, None),
      ItineraryItem("12:30", "表參道", "散步拍照，欣賞精品建築。", None, None),
      ItineraryItem("13:30", "明治神宮", "從原宿口進入，預留至少 1.5 小時。", None, None),
      ItineraryItem("15:00", "澀谷午餐", "", None, None),
      ItineraryItem("16:00", "澀谷商圈", "大購物、拍攝十字路口。", None, None),
      ItineraryItem("18:00", "Shibuya Sky", "需提前預訂門票，建議日落時段。", None, None),
      ItineraryItem("20:00", "晚餐", "轉盤決定", None, None)
    ])

  const Day5: DayPlan := DayPlan("D5", "2/13 (五)", "橫濱一日遊 (轉盤版)", "🎡", Planned,
    [
      ItineraryItem("09:00", "起床、早餐", "", None, None),
      ItineraryItem("10:00", "出發前往橫濱", "搭乘電車前往。", None, None),
      ItineraryItem("10:40", "橫濱紅磚倉庫", "拍照、逛特色小店。", None, None),
      ItineraryItem("12:30", "橫濱中華街午餐", "小籠包、炒麵、點心。", None, None),
      ItineraryItem("14:00", "山下公園", "散步、拍港灣風景。", None, None),
      ItineraryItem("15:30", "合味道紀念館", "Cup Noodles Museum。DIY杯麵、拍照、玩互動展。", None, None),
      ItineraryItem("18:30", "晚餐", "轉盤決定（港未來周邊餐廳隨機挑，日式/義式/海鮮）。", None, None),
      ItineraryItem("20:00", "搭車回東京", "", None, None),
      ItineraryItem("21:00", "回住所、休息", "", None, None)
    ])

  const Day6: DayPlan := DayPlan("D6", "2/14 (六)", "中野秋葉原爆買、原宿泡湯", "🧖", Planned,
    [
      ItineraryItem("09:00", "起床、早餐", "住所附近簡單吃。", None, None),
      ItineraryItem("10:00", "中野 Nakano Broadway", "動漫周邊、手辦、收藏品、小玩具爆買。", None, None),
      ItineraryItem("12:00", "中野午餐", "中野附近餐廳，轉盤決定。", None, None),
      ItineraryItem("13:00", "秋葉原", "Animate、JUMP Shop、電器街、動漫周邊狂掃。", None, None),
      ItineraryItem("15:30", "KOSUGIYU HARAJUKU", "泡湯放鬆、休息、拍照打卡。", None, None),
      ItineraryItem("17:30", "居酒屋晚餐", "喝小酒、吃日式下酒菜。", None, None),
      ItineraryItem("19:30", "回住所", "休息。", None, None)
    ])

  const Day7: DayPlan := DayPlan("D7", "2/15 (日)", "下北澤文青、古著、湯咖哩", "🎸", Planned,
    [
      ItineraryItem("09:00", "起床、早餐", "面對明天要回國的現實。", None, None),
      ItineraryItem("10:30", "出發前往下北澤", "約 50 分鐘車程。", None, None),
      ItineraryItem("11:30", "湯咖哩排隊 (如: SAMURAI)", "很有名，建議先抽號碼牌。", None, None),
      ItineraryItem("13:00", "午餐：湯咖哩", "清單上的重點美食。", None, None),
      ItineraryItem("14:30", "古著巡禮", "在巷弄中挖掘古著，體驗 Minecraft 洞穴模組風。", None, None),
      ItineraryItem("14:30", "代官山 / 惠比壽", "備案：若不喜歡古著，可轉往代官山散步。", None, Some(true)),
      ItineraryItem("16:00", "天馬咖哩麵包", "必買的小吃，邊走邊吃。", None, None),
      ItineraryItem("17:30", "手沖咖啡休憩", "下北澤有許多特色獨立咖啡廳。", None, None),
      ItineraryItem("19:00", "最後晚餐", "順眼的炸豬排或定食。", None, None),
      ItineraryItem("21:00", "回住所、最後整理", "確認行李沒超重。", None, None)
    ])

  const Day8: DayPlan := DayPlan("D8", "2/16 (一)", "離境日", "🛫", Planned,
    [
      ItineraryItem("上午", "整理行李、Check-out", "檢查有無遺落物品。", None, None),
      ItineraryItem("12:00", "最終午餐/採購", "建議在北千住車站周邊完成最後補貨。", None, None),
      ItineraryItem("16:00", "前往成田機場 (NRT)", "預留充裕時間。", None, None),
      ItineraryItem("19:55", "酷航 TR875 班機", "東京 (NRT) → 台北 (TPE)", None, None)
    ])

  const TokyoDay5: DayPlan := DayPlan("D5", "2/13 (五)", "自由活動 / 待安排", "❓", Unplanned,
    [])

  const TokyoDay6: DayPlan := DayPlan("D6", "2/14 (六)", "自由活動 / 待安排", "❓", Unplanned,
    [])

  const TokyoDay7: DayPlan := DayPlan("D7", "2/15 (日)", "自由活動 / 待安排", "❓", Unplanned,
    [])

  /** `ITINERARY_DATA` of `constants.ts`. */
  const Itinerary: seq<DayPlan> := [Day1, Day2, Day3, Day4, Day5, Day6, Day7, Day8]

  /** `ITINERARY_DATA` of `tokyo-trip-2026/constants.ts`. */
  const TokyoItinerary: seq<DayPlan> := [Day1, Day2, Day3, Day4, TokyoDay5, TokyoDay6, TokyoDay7, Day8]

}

/**
 * The seed's departure day D8 opens with a row timed "上午" ("morning"). The handlers order a
 * day by code units, and "上" (U+4E0A) comes after every digit, so the morning check-out sorts
 * below the 19:55 flight as soon as the day is sorted.
 */
module DepartureDay {
  import opened TripTypes
  import opened JsText
  import opened TimeSort
  import opened Itinerary
  import opened SeedData

  /** A time written with a leading digit, as every other seed time is. */
  predicate ClockTime(t: string) {
    |t| > 0 && '0' <= t[0] <= '9'
  }

  /** The seed as written is not in time order. */
  lemma SeedDayUnsorted()
    ensures !SortedByTime(Day8.items)
    ensures Day8.items[0].time == "上午" && Day8.items[3].time == "19:55"
  {
    assert !LessEq(Day8.items[0].time, Day8.items[3].time);
  }

  /** "上午" sorts after any clock time. */
  lemma MorningAfterClock(t: string)
    requires ClockTime(t)
    ensures !LessEq("上午", t)
  {
  }

  /** In a sorted day, an item due after every other item is the last one. */
  lemma LatestIsLast(r: seq<ItineraryItem>, m: ItineraryItem)
    requires SortedByTime(r) && m in r
    requires forall y :: y in r && y != m ==> !LessEq(m.time, y.time)
    ensures r[|r| - 1] == m
  {
    var p :| 0 <= p < |r| && r[p] == m;
  }

  /**
   * Sorting a day whose first row is timed "上午" and whose other rows, together with the added
   * one, have clock times, puts that first row last.
   */
  lemma MorningSortsLast(items: seq<ItineraryItem>, item: ItineraryItem, r: seq<ItineraryItem>)
    requires items != [] && items[0].time == "上午" && ClockTime(item.time)
    requires forall i :: 1 <= i < |items| ==> ClockTime(items[i].time)
    requires SortedByTime(r) && multiset(r) == multiset(items + [item])
    ensures r[|r| - 1] == items[0]
  {
    var m := items[0];
    var rest := items[1..] + [item];
    assert items + [item] == [m] + rest;
    assert m in multiset(r);
    forall y | y in r && y != m
      ensures !LessEq(m.time, y.time)
    {
      assert y in multiset([m] + rest);
      assert y in rest;
      MorningAfterClock(y.time);
    }
    LatestIsLast(r, m);
  }

  /**
   * Adding any clock-timed item to D8 (the add handler sorts the day) leaves the morning
   * check-out as the day's last row, after the flight home.
   */
  lemma AddingMovesCheckOutLast(item: ItineraryItem)
    requires ClockTime(item.time)
    ensures var d := AddToDay(Day8, item); |d.items| == 5 && d.items[4] == Day8.items[0]
  {
    SeedDayTimes();
    var d := AddToDay(Day8, item);
    MorningSortsLast(Day8.items, item, d.items);
  }

  lemma SeedDayTimes()
    ensures |Day8.items| == 4 && Day8.items[0].time == "上午"
    ensures forall i :: 1 <= i < |Day8.items| ==> ClockTime(Day8.items[i].time)
  {
  }

  /** The evidently intended order: "上午" ranks as the start of the day, before every clock time. */
  function ClockRank(t: string): (k: string)
    ensures t == "上午" ==> forall u :: LessEq(k, u)
    ensures t != "上午" ==> k == t
  {
    if t == "上午" then "" else t
  }

  /** A day ordered by `ClockRank` of its times. */
  ghost predicate SortedByClock(s: seq<ItineraryItem>) {
    forall i, j :: 0 <= i < j < |s| ==> LessEq(ClockRank(s[i].time), ClockRank(s[j].time))
  }

  /** Under the clock-aware order, the morning check-out of D8 comes before the flight home. */
  lemma ClockOrderKeepsCheckOutFirst(r: seq<ItineraryItem>)
    requires SortedByClock(r)
    ensures forall i, j :: 0 <= i < |r| && 0 <= j < |r| && r[i] == Day8.items[0] && r[j] == Day8.items[3] ==> i < j
  {
    SeedDayTimes();
  }
}
