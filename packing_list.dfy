/**
 * The packing checklists of `components/PackingList.tsx` (five categories, 41 items) and
 * `tokyo-trip-2026/components/PackingList.tsx` (four categories, 24 items). Both read the
 * `packedItems` map of the store: a row is checked when its name maps to true, the counter
 * counts every true value, and clicking a row toggles that row's name.
 */
module PackingList {
  import opened JsMath
  import opened Seqs
  import opened StoreOps

  datatype PackingCategory = PackingCategory(id: string, title: string, items: seq<string>)

  /** `DEFAULT_LIST` of `components/PackingList.tsx`. */
  const DefaultList: seq<PackingCategory> := [
    PackingCategory("essentials", "🪪 證件財物", [
      "護照 (正本 + 影本)", "日幣現金 (分開存放)", "信用卡 x2 (海外回饋高)", "西瓜卡 (Suica/Pasmo)",
      "網卡 / Roaming 設定", "Visit Japan Web QR Code", "原子筆 (填寫表單用)", "錢包 (零錢包)"]),
    PackingCategory("electronics", "🔌 電子產品", [
      "手機 & 充電線", "行動電源 (需隨身行李)", "轉接頭 (日本雙孔)", "相機/GoPro/記憶卡",
      "耳機 (抗噪推薦)", "Sim 卡針", "延長線/多孔充電器", "自拍棒/腳架"]),
    PackingCategory("clothing", "🧥 衣物 (2月)", [
      "發熱衣 x3", "毛衣/帽T", "厚外套/羽絨衣", "圍巾/毛帽/手套", "好走的鞋子 (備用鞋?)",
      "睡衣", "內衣褲/襪子 (多帶)", "太陽眼鏡", "飾品/手錶"]),
    PackingCategory("toiletries", "🧴 盥洗與藥品", [
      "牙刷牙膏 (環保)", "洗面乳/保養品 (加強保濕)", "常備藥 (感冒/腸胃/止痛/暈車)", "OK繃/休足時間/酸痛貼布",
      "口罩/酒精濕紙巾", "洗衣袋 (裝髒衣物)", "指甲剪/刮鬍刀", "化妝品/卸妝用品", "梳子/髮圈"]),
    PackingCategory("misc", "🎒 其他雜物", [
      "摺疊傘 (輕便)", "環保購物袋", "水壺/保溫瓶", "暖暖包", "面紙/衛生紙", "行程表 (紙本備用)",
      "零食/泡麵 (消夜)"])
  ]

  /** `DEFAULT_LIST` of `tokyo-trip-2026/components/PackingList.tsx`. */
  const TokyoList: seq<PackingCategory> := [
    PackingCategory("essentials", "🪪 證件財物", [
      "護照", "日幣現金", "信用卡 (海外回饋高)", "西瓜卡 (Suica/Pasmo)", "網卡 / Roaming 設定",
      "Visit Japan Web QR Code"]),
    PackingCategory("electronics", "🔌 電子產品", ["手機 & 充電線", "行動電源 (需隨身)", "轉接頭 (日本雙孔)", "相機/GoPro", "耳機"]),
    PackingCategory("clothing", "🧥 衣物 (2月)", ["發熱衣 x3", "毛衣/帽T", "厚外套/羽絨衣", "圍巾/毛帽", "好走的鞋子", "睡衣", "內衣褲/襪子"]),
    PackingCategory("toiletries", "🧴 盥洗與藥品", ["牙刷牙膏", "保養品 (保濕)", "常備藥 (感冒/腸胃/止痛)", "OK繃/休足時間", "口罩", "洗衣袋"])
  ]

  /** Every row of the checklist, category by category. */
  function AllItems(list: seq<PackingCategory>): seq<string> {
    if list == [] then [] else list[0].items + AllItems(list[1..])
  }

  /** `list.reduce((acc, cat) => acc + cat.items.length, acc)`. */
  function TotalFrom(acc: nat, list: seq<PackingCategory>): nat
    decreases |list|
  {
    if list == [] then acc else TotalFrom(acc + |list[0].items|, list[1..])
  }

  /** `totalItems`: the number of rows the checklist shows. */
  function TotalItems(list: seq<PackingCategory>): (n: nat)
    ensures n == |AllItems(list)|
  {
    TotalFromIsLength(0, list);
    TotalFrom(0, list)
  }

  lemma {:induction false} TotalFromIsLength(acc: nat, list: seq<PackingCategory>)
    ensures TotalFrom(acc, list) == acc + |AllItems(list)|
    decreases |list|
  {
    if list != [] {
      TotalFromIsLength(acc + |list[0].items|, list[1..]);
    }
  }

  lemma CatalogTotals()
    ensures TotalItems(DefaultList) == 41
    ensures TotalItems(TokyoList) == 24
  {
  }

  /** Both catalogs name each row once, so a row's name is a key of its own. */
  lemma TokyoCategoriesDistinct(k: int)
    requires 0 <= k < |TokyoList|
    ensures NoDuplicates(TokyoList[k].items)
  {
  }

  lemma DefaultCategoriesDistinct(k: int)
    requires 0 <= k < |DefaultList|
    ensures NoDuplicates(DefaultList[k].items)
  {
    if k < 2 {
      DefaultFirstCategoriesDistinct(k);
    } else {
      DefaultLastCategoriesDistinct(k);
    }
  }

  lemma DefaultFirstCategoriesDistinct(k: int)
    requires 0 <= k < 2
    ensures NoDuplicates(DefaultList[k].items)
  {
  }

  lemma DefaultLastCategoriesDistinct(k: int)
    requires 2 <= k < |DefaultList|
    ensures NoDuplicates(DefaultList[k].items)
  {
  }

  /** No name of `a` is a name of `b`. */
  ghost predicate Disjoint(a: seq<string>, b: seq<string>) {
    forall i, j :: 0 <= i < |a| && 0 <= j < |b| ==> a[i] != b[j]
  }

  /** Distinct categories that share no name give a checklist without a repeated name. */
  lemma {:induction false} AllItemsDistinct(list: seq<PackingCategory>)
    requires forall k :: 0 <= k < |list| ==> NoDuplicates(list[k].items)
    requires forall k, l :: 0 <= k < l < |list| ==> Disjoint(list[k].items, list[l].items)
    ensures NoDuplicates(AllItems(list))
  {
    if list != [] {
      var a, rest := list[0].items, list[1..];
      AllItemsDistinct(rest);
      forall l | 0 <= l < |rest| ensures Disjoint(a, rest[l].items) {
        assert rest[l] == list[l + 1];
      }
      DisjointFromAll(a, rest);
      var all := AllItems(list);
      assert all == a + AllItems(rest);
      forall i, j | 0 <= i < j < |all| ensures all[i] != all[j] {
        if j < |a| {
        } else if i < |a| {
          assert all[j] == AllItems(rest)[j - |a|];
        } else {
          assert all[i] == AllItems(rest)[i - |a|] && all[j] == AllItems(rest)[j - |a|];
        }
      }
    }
  }

  lemma {:induction false} DisjointFromAll(a: seq<string>, list: seq<PackingCategory>)
    requires forall l :: 0 <= l < |list| ==> Disjoint(a, list[l].items)
    ensures Disjoint(a, AllItems(list))
  {
    if list != [] {
      assert Disjoint(a, list[0].items);
      DisjointFromAll(a, list[1..]);
      var all := AllItems(list);
      forall i, j | 0 <= i < |a| && 0 <= j < |all| ensures a[i] != all[j] {
        if j >= |list[0].items| {
          assert all[j] == AllItems(list[1..])[j - |list[0].items|];
        }
      }
    }
  }

  /** No name appears twice anywhere in the 41-row catalogue. */
  lemma DefaultListDistinct()
    ensures NoDuplicates(AllItems(DefaultList))
  {
    forall k | 0 <= k < |DefaultList| ensures NoDuplicates(DefaultList[k].items) {
      DefaultCategoriesDistinct(k);
    }
    forall k, l | 0 <= k < l < |DefaultList| ensures Disjoint(DefaultList[k].items, DefaultList[l].items) {
      DefaultCategoriesDisjoint(k, l);
    }
    AllItemsDistinct(DefaultList);
  }

  /** No name appears twice anywhere in the 24-row catalogue. */
  lemma TokyoListDistinct()
    ensures NoDuplicates(AllItems(TokyoList))
  {
    forall k | 0 <= k < |TokyoList| ensures NoDuplicates(TokyoList[k].items) {
      TokyoCategoriesDistinct(k);
    }
    forall k, l | 0 <= k < l < |TokyoList| ensures Disjoint(TokyoList[k].items, TokyoList[l].items) {
      TokyoCategoriesDisjoint(k, l);
    }
    AllItemsDistinct(TokyoList);
  }

  lemma DefaultCategoriesDisjoint(k: int, l: int)
    requires 0 <= k < l < |DefaultList|
    ensures Disjoint(DefaultList[k].items, DefaultList[l].items)
  {
    if k == 0 {
      DefaultDisjointFromFirst(l);
    } else if k == 1 {
      DefaultDisjointFromSecond(l);
    } else {
      DefaultDisjointFromRest(k, l);
    }
  }

  lemma DefaultDisjointFromFirst(l: int)
    requires 1 <= l < |DefaultList|
    ensures Disjoint(DefaultList[0].items, DefaultList[l].items)
  {
    if l == 1 {
      FirstTwoDisjoint();
    } else {
      FirstFromLastDisjoint(l);
    }
  }

  lemma FirstTwoDisjoint()
    ensures Disjoint(DefaultList[0].items, DefaultList[1].items)
  {
  }

  lemma FirstFromLastDisjoint(l: int)
    requires 2 <= l < |DefaultList|
    ensures Disjoint(DefaultList[0].items, DefaultList[l].items)
  {
  }

  lemma DefaultDisjointFromSecond(l: int)
    requires 2 <= l < |DefaultList|
    ensures Disjoint(DefaultList[1].items, DefaultList[l].items)
  {
  }

  lemma DefaultDisjointFromRest(k: int, l: int)
    requires 2 <= k < l < |DefaultList|
    ensures Disjoint(DefaultList[k].items, DefaultList[l].items)
  {
  }

  lemma TokyoCategoriesDisjoint(k: int, l: int)
    requires 0 <= k < l < |TokyoList|
    ensures Disjoint(TokyoList[k].items, TokyoList[l].items)
  {
  }

  /**
   * `progress = Math.round((packedCount / totalItems) * 100)`, where `packedCount` counts every
   * true value of the map, named on the checklist or not.
   */
  function Progress(packed: map<string, bool>, list: seq<PackingCategory>): (p: int)
    requires TotalItems(list) > 0
    ensures p >= 0
    ensures PackedKeys(packed) <= Catalog(list) && TotalItems(list) < 200 ==>
      p <= 100 && (p == 0 <==> PackedCount(packed) == 0) && (p == 100 <==> PackedCount(packed) == TotalItems(list))
  {
    var p := Percent(PackedCount(packed), TotalItems(list));
    if PackedKeys(packed) <= Catalog(list) && TotalItems(list) < 200 then
      PackedWithinCatalog(packed, list);
      PercentEnds(PackedCount(packed), TotalItems(list));
      p
    else
      p
  }

  /** Packing one more row never lowers the percentage shown. */
  lemma ProgressAfterToggle(packed: map<string, bool>, list: seq<PackingCategory>, item: string)
    requires TotalItems(list) > 0 && !IsChecked(packed, item)
    ensures Progress(packed, list) <= Progress(Toggle(packed, item), list)
  {
    ToggleCount(packed, item);
    PercentMonotone(PackedCount(packed), PackedCount(Toggle(packed, item)), TotalItems(list));
  }

  /** The names on the checklist. */
  function Catalog(list: seq<PackingCategory>): set<string> {
    set x | x in AllItems(list)
  }

  lemma {:induction false} SetOfSeqCard<T>(s: seq<T>)
    ensures |set x | x in s| <= |s|
  {
    if s != [] {
      SetOfSeqCard(s[1..]);
      assert (set x | x in s) == (set x | x in s[1..]) + {s[0]};
    }
  }

  /**
   * When every true key is a row of the checklist (the only names the rows toggle), the
   * counter is at most the number of rows, so the percentage stays at most 100.
   */
  lemma PackedWithinCatalog(packed: map<string, bool>, list: seq<PackingCategory>)
    requires PackedKeys(packed) <= Catalog(list)
    ensures PackedCount(packed) <= TotalItems(list)
  {
    SubsetCard(PackedKeys(packed), Catalog(list));
    SetOfSeqCard(AllItems(list));
  }

  /** One checklist row: its name and whether it shows a tick. */
  datatype Row = Row(item: string, checked: bool)

  /** The rows of a category, ticked by `!!packedItems[item]`. */
  function Rows(cat: PackingCategory, packed: map<string, bool>): (rows: seq<Row>)
    ensures |rows| == |cat.items|
    ensures forall i :: 0 <= i < |rows| ==> rows[i].item == cat.items[i]
    ensures forall i :: 0 <= i < |rows| ==> (rows[i].checked <==> cat.items[i] in packed && packed[cat.items[i]])
  {
    seq(|cat.items|, i requires 0 <= i < |cat.items| => Row(cat.items[i], IsChecked(packed, cat.items[i])))
  }

  /**
   * Clicking row `i` hands its name to the toggle: that row's tick flips, and a row with a
   * different name keeps its tick. With distinct names, no other row changes.
   */
  lemma ClickRow(cat: PackingCategory, packed: map<string, bool>, i: int)
    requires 0 <= i < |cat.items|
    ensures var before := Rows(cat, packed); var after := Rows(cat, Toggle(packed, before[i].item));
      after[i].checked == !before[i].checked
      && forall j :: 0 <= j < |after| && cat.items[j] != cat.items[i] ==> after[j] == before[j]
  {
  }

  /** A click in one category leaves every row of a category sharing no name with it as it was. */
  lemma ClickRowOtherCategory(cat: PackingCategory, other: PackingCategory, packed: map<string, bool>, i: int)
    requires Disjoint(cat.items, other.items) && 0 <= i < |cat.items|
    ensures Rows(other, Toggle(packed, cat.items[i])) == Rows(other, packed)
  {
  }

  lemma ClickRowDistinct(cat: PackingCategory, packed: map<string, bool>, i: int, j: int)
    requires NoDuplicates(cat.items) && 0 <= i < |cat.items| && 0 <= j < |cat.items| && i != j
    ensures Rows(cat, Toggle(packed, cat.items[i]))[j] == Rows(cat, packed)[j]
  {
    ClickRow(cat, packed, i);
  }

  /** In the 41-row catalogue a click changes only the clicked row, in its category and in all others. */
  lemma ClickDefaultRow(packed: map<string, bool>, k: int, i: int, l: int, j: int)
    requires 0 <= k < |DefaultList| && 0 <= i < |DefaultList[k].items|
    requires 0 <= l < |DefaultList| && 0 <= j < |DefaultList[l].items| && (k, i) != (l, j)
    ensures Rows(DefaultList[l], Toggle(packed, DefaultList[k].items[i]))[j] == Rows(DefaultList[l], packed)[j]
  {
    if k == l {
      DefaultCategoriesDistinct(k);
      ClickRowDistinct(DefaultList[k], packed, i, j);
    } else {
      if k < l {
        DefaultCategoriesDisjoint(k, l);
      } else {
        DefaultCategoriesDisjoint(l, k);
      }
      ClickRowOtherCategory(DefaultList[k], DefaultList[l], packed, i);
    }
  }

  /** In the 24-row catalogue a click changes only the clicked row. */
  lemma ClickTokyoRow(packed: map<string, bool>, k: int, i: int, l: int, j: int)
    requires 0 <= k < |TokyoList| && 0 <= i < |TokyoList[k].items|
    requires 0 <= l < |TokyoList| && 0 <= j < |TokyoList[l].items| && (k, i) != (l, j)
    ensures Rows(TokyoList[l], Toggle(packed, TokyoList[k].items[i]))[j] == Rows(TokyoList[l], packed)[j]
  {
    if k == l {
      TokyoCategoriesDistinct(k);
      ClickRowDistinct(TokyoList[k], packed, i, j);
    } else {
      if k < l {
        TokyoCategoriesDisjoint(k, l);
      } else {
        TokyoCategoriesDisjoint(l, k);
      }
      ClickRowOtherCategory(TokyoList[k], TokyoList[l], packed, i);
    }
  }
}
