/**
 * The dashboard: the low-stock filter over the fetched inventory, the four stat
 * cards with their fallback values, and the skeleton grid shown while loading.
 */
module Dashboard {
  import opened Wrappers
  import opened JsValues
  import LowStockTable

  /** The inventory fields the dashboard reads. */
  datatype InventoryItem = InventoryItem(id: int, name: string, quantity: int, minQuantity: int, isLowStock: bool)

  /** `item.is_low_stock || item.quantity <= item.min_quantity` */
  predicate IsLow(item: InventoryItem) {
    item.isLowStock || item.quantity <= item.minQuantity
  }

  /** `results.filter(isLow)` */
  function FilterLow(items: seq<InventoryItem>): (r: seq<InventoryItem>)
    ensures |r| <= |items|
    ensures forall i :: 0 <= i < |r| ==> IsLow(r[i])
    decreases |items|
  {
    if items == [] then []
    else (if IsLow(items[0]) then [items[0]] else []) + FilterLow(items[1..])
  }

  /** The low-stock list: none while the results are absent, else the filter. */
  function LowStock(results: Option<seq<InventoryItem>>): (r: seq<InventoryItem>)
    ensures results.None? ==> r == []
    ensures results.Some? ==> r == FilterLow(results.value)
  {
    match results
    case None => []
    case Some(items) => FilterLow(items)
  }

  /** Each item occurs in the filtered list as often as in the input if it is low, and not at all otherwise. */
  lemma {:induction false} FilterLowCounts(items: seq<InventoryItem>)
    ensures forall x :: multiset(FilterLow(items))[x] == if IsLow(x) then multiset(items)[x] else 0
    decreases |items|
  {
    if items != [] {
      FilterLowCounts(items[1..]);
      assert items == [items[0]] + items[1..];
      assert multiset(items) == multiset([items[0]]) + multiset(items[1..]);
    }
  }

  /** `r` is `s` with some elements dropped, the rest in their order. */
  predicate IsSubsequence(r: seq<InventoryItem>, s: seq<InventoryItem>)
    decreases |s|
  {
    if r == [] then true
    else if s == [] then false
    else if r[0] == s[0] then IsSubsequence(r[1..], s[1..])
    else IsSubsequence(r, s[1..])
  }

  /** A subsequence of the tail is a subsequence of the whole. */
  lemma {:induction false} SubsequenceOfTail(r: seq<InventoryItem>, s: seq<InventoryItem>)
    requires s != [] && IsSubsequence(r, s[1..])
    ensures IsSubsequence(r, s)
    decreases |r| + |s|
  {
    if r != [] && r[0] == s[0] {
      SubsequenceDropFirst(r, s[1..]);
    }
  }

  /** Dropping the first element of a subsequence leaves a subsequence. */
  lemma {:induction false} SubsequenceDropFirst(r: seq<InventoryItem>, t: seq<InventoryItem>)
    requires r != [] && IsSubsequence(r, t)
    ensures IsSubsequence(r[1..], t)
    decreases |r| + |t|
  {
    if r[0] != t[0] {
      SubsequenceDropFirst(r, t[1..]);
    }
    SubsequenceOfTail(r[1..], t);
  }

  /** The filter keeps the order of the inventory. */
  lemma {:induction false} FilterLowIsSubsequence(items: seq<InventoryItem>)
    ensures IsSubsequence(FilterLow(items), items)
    decreases |items|
  {
    if items != [] {
      FilterLowIsSubsequence(items[1..]);
      var rest := FilterLow(items[1..]);
      if IsLow(items[0]) {
        assert FilterLow(items) == [items[0]] + rest;
        assert ([items[0]] + rest)[1..] == rest;
      } else {
        assert FilterLow(items) == rest;
        SubsequenceOfTail(rest, items);
      }
    }
  }

  /**
   * An item not flagged by the server is on the dashboard's list exactly when
   * the low-stock table would mark it "Below Min" or "At Min".
   */
  lemma UnflaggedLowMatchesTable(item: InventoryItem)
    requires !item.isLowStock
    ensures IsLow(item) <==> LowStockTable.StatusOf(item.quantity, item.minQuantity) != LowStockTable.Ok
  {
  }

  /** One stat card's data. */
  datatype Stat = Stat(color: string, trend: string, change: string, value: JsValue, title: string)

  /** The stats, from the stats response (undefined until it arrives) and the low-stock list. */
  function Stats(statData: JsValue, lowStock: seq<InventoryItem>): (s: seq<Stat>)
    ensures |s| == 4
    ensures s[0].value == if Truthy(Prop(statData, "total_inventory_items")) then Prop(statData, "total_inventory_items") else Str("0")
    ensures s[1].value == if |lowStock| == 0 then Str("0") else Num(|lowStock|)
    ensures s[2].value.Str? && |s[2].value.s| >= 1 && s[2].value.s[0] == '$'
    ensures Truthy(Prop(statData, "today_sales")) ==> s[2].value.s[1..] == ToJsString(Prop(statData, "today_sales"))
    ensures !Truthy(Prop(statData, "today_sales")) ==> s[2].value.s == "$0"
    ensures s[3].value == if Truthy(Prop(statData, "out_of_stock_items")) then Prop(statData, "out_of_stock_items") else Str("0")
  {
    [
      Stat("blue", "up", "+12%", Or(Prop(statData, "total_inventory_items"), Str("0")), "Total inventory items"),
      Stat("yellow", "up", "+5.3%", Or(Num(|lowStock|), Str("0")), "Low Stock Items"),
      Stat("green", "down", "-8.5%", Str("$" + ToJsString(Or(Prop(statData, "today_sales"), Str("0")))), "Today's Sales"),
      Stat("red", "down", "-3.2%", Or(Prop(statData, "out_of_stock_items"), Str("0")), "Out of Stock")
    ]
  }

  /** Before any data arrives every card falls back to zero. */
  lemma StatsWithoutData()
    ensures [Stats(Undefined, [])[0].value, Stats(Undefined, [])[1].value, Stats(Undefined, [])[2].value,
             Stats(Undefined, [])[3].value] == [Str("0"), Str("0"), Str("$0"), Str("0")]
  {
  }

  /** The grid: four skeletons while either fetch is pending, else one card per stat. */
  datatype Grid = SkeletonGrid(count: nat) | CardGrid(cards: seq<Stat>)

  function StatGrid(statsLoading: bool, stockPending: bool, statData: JsValue,
                    results: Option<seq<InventoryItem>>): (g: Grid)
    ensures statsLoading || stockPending ==> g == SkeletonGrid(4)
    ensures !statsLoading && !stockPending ==> g == CardGrid(Stats(statData, LowStock(results)))
  {
    if statsLoading || stockPending then SkeletonGrid(4) else CardGrid(Stats(statData, LowStock(results)))
  }
}
