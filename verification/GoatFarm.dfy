/** The goat farm shop: stock that refills completely, once, a minute after the first sale since it was full. */
module GoatFarm {
  import opened Wrappers
  import opened SlidingWindow

  datatype Error = MissingGuest | UnknownItem | OutOfStock

  /** Times are nanoseconds. */
  const SECOND: nat := 1000000000
  const RESTOCK_INTERVAL: nat := 60 * SECOND

  datatype Item = Item(stock: int, maxStock: int)

  type Items = map<string, Item>

  /** The shop's items, and when the restock timer started, if it runs. */
  datatype Shop = Shop(items: Items, startedAt: Option<int>)

  function Restocked(items: Items): Items {
    map id | id in items :: items[id].(stock := items[id].maxStock)
  }

  function RestockIfNeeded(s: Shop, now: int): Shop {
    if s.startedAt.Some? && now >= s.startedAt.value + RESTOCK_INTERVAL then Shop(Restocked(s.items), None) else s
  }

  function Sell(s: Shop, id: string, now: int): Shop
    requires id in s.items
  {
    Shop(s.items[id := s.items[id].(stock := s.items[id].stock - 1)],
         if s.startedAt.None? then Some(now) else s.startedAt)
  }

  /** The outcome of a purchase, and the shop after it. */
  function PurchaseStep(s: Shop, guestId: string, id: string, now: int): (Shop, Result<int, Error>) {
    var open := RestockIfNeeded(s, now);
    if guestId == "" then (open, Failure(MissingGuest))
    else if id !in open.items then (open, Failure(UnknownItem))
    else if open.items[id].stock <= 0 then (open, Failure(OutOfStock))
    else (Sell(open, id, now), Success(open.items[id].stock - 1))
  }

  /** The reported wait, rounded up to whole seconds and never negative. */
  function SecondsUntilRestock(s: Shop, now: int): nat {
    var next := (if s.startedAt.Some? then s.startedAt.value else now) + RESTOCK_INTERVAL;
    if next < now then 0 else (next - now + SECOND - 1) / SECOND
  }

  /** A look at the shop restocks it, completely and once, exactly when a minute has passed since the timer started. */
  lemma RestocksIff(s: Shop, now: int)
    ensures var t, due := RestockIfNeeded(s, now), s.startedAt.Some? && now - s.startedAt.value >= 60_000_000_000;
            && t.items.Keys == s.items.Keys
            && (due ==> t.startedAt.None? && forall id :: id in s.items ==>
                          t.items[id].stock == t.items[id].maxStock == s.items[id].maxStock)
            && (!due ==> t == s)
  {
  }

  /** What is sold: a known item that is in stock once the shop has been looked at, to a named guest. A sale takes one
      of that item, starts the timer if it did not run, and changes nothing else. */
  lemma SoldIff(s: Shop, guestId: string, id: string, now: int)
    ensures var (after, r) := PurchaseStep(s, guestId, id, now);
            var open := RestockIfNeeded(s, now);
            && (r.Success? <==> guestId != "" && id in s.items && open.items[id].stock > 0)
            && (r == Failure(MissingGuest) <==> guestId == "")
            && (r == Failure(UnknownItem) <==> guestId != "" && id !in s.items)
            && (r.Failure? ==> after == open)
            && (r.Success? ==>
                  && after.items.Keys == open.items.Keys && after.items[id].maxStock == open.items[id].maxStock
                  && r.value == after.items[id].stock == open.items[id].stock - 1
                  && (forall other :: other in open.items && other != id ==> after.items[other] == open.items[other])
                  && after.startedAt == if open.startedAt.None? then Some(now) else open.startedAt)
  {
    hide Restocked;
    RestocksIff(s, now);
  }

  class Store {
    var items: Items
    var startedAt: Option<int>

    constructor ()
      ensures View() == NEW_SHOP
    {
      items, startedAt := NEW_SHOP.items, None;
    }

    function View(): Shop
      reads this
    {
      Shop(items, startedAt)
    }

    method Restock(now: int)
      modifies this
      ensures View() == RestockIfNeeded(old(View()), now)
    {
      if startedAt.None? { return; }
      if now >= startedAt.value + RESTOCK_INTERVAL {
        var ids := items.Keys;
        ghost var before := items;
        while ids != {}
          invariant ids <= items.Keys == before.Keys
          invariant forall id :: id in items ==> items[id] == if id in ids then before[id] else Restocked(before)[id]
          decreases ids
        {
          var id :| id in ids;
          items := items[id := items[id].(stock := items[id].maxStock)];
          ids := ids - {id};
        }
        startedAt := None;
      }
    }

    method Stock(now: int, reportedAt: int) returns (shown: Items, seconds: nat)
      modifies this
      ensures View() == RestockIfNeeded(old(View()), now)
      ensures shown == items && seconds == SecondsUntilRestock(View(), reportedAt)
    {
      Restock(now);
      shown, seconds := items, SecondsUntilRestock(View(), reportedAt);
    }

    method Purchase(guestId: string, id: string, now: int) returns (r: Result<int, Error>)
      modifies this
      ensures (View(), r) == PurchaseStep(old(View()), guestId, id, now)
    {
      Restock(now);
      if guestId == "" { return Failure(MissingGuest); }
      if id !in items { return Failure(UnknownItem); }
      if items[id].stock <= 0 { return Failure(OutOfStock); }
      if startedAt.None? { startedAt := Some(now); }
      items := items[id := items[id].(stock := items[id].stock - 1)];
      return Success(items[id].stock);
    }
  }

  const NEW_SHOP := Shop(map["goat_milk" := Item(5, 5), "goat_cheese" := Item(3, 3)], None)

  // ----- runs

  datatype Op = Look(now: int) | Buy(guestId: string, id: string, now: int)

  /** A shop with its sales so far of one item, each with the start of the restock cycle it fell in. */
  datatype Run = Run(shop: Shop, sales: seq<Use>)

  function Next(r: Run, op: Op, item: string): Run {
    match op
    case Look(now) => r.(shop := RestockIfNeeded(r.shop, now))
    case Buy(guestId, id, now) =>
      var (shop, outcome) := PurchaseStep(r.shop, guestId, id, now);
      var sold := outcome.Success? && id == item && shop.startedAt.Some?;
      Run(shop, if sold then r.sales + [Use(now, shop.startedAt.value)] else r.sales)
  }

  function After(r: Run, ops: seq<Op>, item: string): Run
    decreases ops
  {
    if ops == [] then r else After(Next(r, ops[0], item), ops[1..], item)
  }

  ghost predicate Full(items: Items) {
    forall id :: id in items ==> items[id].stock == items[id].maxStock
  }

  ghost predicate ShopOk(s: Shop, now: int) {
    && (forall id :: id in s.items ==> 0 <= s.items[id].stock <= s.items[id].maxStock)
    && (s.startedAt.None? <==> Full(s.items))
    && (s.startedAt.Some? ==> s.startedAt.value <= now)
  }

  /** The sales of `item`, whose full stock is `max`. */
  ghost predicate SalesOk(r: Run, item: string, max: nat, now: int) {
    && item in r.shop.items && r.shop.items[item].maxStock == max
    && Windowed(r.sales, RESTOCK_INTERVAL)
    && (forall w :: CountWindow(r.sales, w) <= max)
    && (forall i :: 0 <= i < |r.sales| ==> r.sales[i].time < r.sales[i].window + RESTOCK_INTERVAL)
    && (r.shop.startedAt.None? ==> forall i :: 0 <= i < |r.sales| ==> r.sales[i].window + RESTOCK_INTERVAL <= now)
    && (r.shop.startedAt.Some? ==>
          && max - r.shop.items[item].stock == CountWindow(r.sales, r.shop.startedAt.value)
          && forall i :: 0 <= i < |r.sales| ==>
               r.sales[i].window == r.shop.startedAt.value
               || r.sales[i].window + RESTOCK_INTERVAL <= r.shop.startedAt.value)
  }

  lemma RestockKeepsShop(s: Shop, before: int, now: int)
    requires ShopOk(s, before) && before <= now
    ensures ShopOk(RestockIfNeeded(s, now), now)
  {
  }

  lemma RestockKeepsSales(r: Run, item: string, max: nat, before: int, now: int)
    requires ShopOk(r.shop, before) && SalesOk(r, item, max, before) && before <= now
    ensures SalesOk(r.(shop := RestockIfNeeded(r.shop, now)), item, max, now)
  {
    hide CountWindow, Windowed;
  }

  lemma SellKeepsShop(s: Shop, id: string, now: int)
    requires ShopOk(s, now) && id in s.items && s.items[id].stock > 0
    ensures ShopOk(Sell(s, id, now), now)
  {
    assert Sell(s, id, now).items[id].stock < s.items[id].maxStock;
  }

  lemma SellKeepsSales(r: Run, id: string, item: string, max: nat, now: int)
    requires ShopOk(r.shop, now) && SalesOk(r, item, max, now)
    requires id in r.shop.items && r.shop.items[id].stock > 0
    requires r.shop.startedAt.Some? ==> now < r.shop.startedAt.value + RESTOCK_INTERVAL
    ensures var shop := Sell(r.shop, id, now);
            SalesOk(Run(shop, if id == item then r.sales + [Use(now, shop.startedAt.value)] else r.sales), item, max,
                now)
  {
    hide CountWindow;
    var shop := Sell(r.shop, id, now);
    var start := shop.startedAt.value;
    if r.shop.startedAt.None? {
      NoneInWindow(r.sales, now);
      assert r.shop.items[item].stock == max;
    }
    forall w
      ensures CountWindow(r.sales + [Use(now, start)], w) == CountWindow(r.sales, w) + if start == w then 1 else 0
    {
      CountWindowAppend(r.sales, Use(now, start), w);
    }
  }

  ghost predicate NonDecreasing(now: int, ops: seq<Op>)
    decreases ops
  {
    ops != [] ==> now <= ops[0].now && NonDecreasing(ops[0].now, ops[1..])
  }

  lemma NextKeepsOk(r: Run, op: Op, item: string, max: nat, before: int)
    requires ShopOk(r.shop, before) && SalesOk(r, item, max, before) && before <= op.now
    ensures ShopOk(Next(r, op, item).shop, op.now) && SalesOk(Next(r, op, item), item, max, op.now)
  {
    hide ShopOk, SalesOk, Restocked;
    RestockKeepsShop(r.shop, before, op.now);
    RestockKeepsSales(r, item, max, before, op.now);
    var open := r.(shop := RestockIfNeeded(r.shop, op.now));
    if op.Buy? && PurchaseStep(r.shop, op.guestId, op.id, op.now).1.Success? {
      SellKeepsShop(open.shop, op.id, op.now);
      SellKeepsSales(open, op.id, item, max, op.now);
    }
  }

  lemma {:induction false} RunKeepsOk(r: Run, ops: seq<Op>, item: string, max: nat, now: int)
    requires ShopOk(r.shop, now) && SalesOk(r, item, max, now) && NonDecreasing(now, ops)
    ensures var last := if ops == [] then now else ops[|ops| - 1].now;
            ShopOk(After(r, ops, item).shop, last) && SalesOk(After(r, ops, item), item, max, last)
    decreases ops
  {
    hide ShopOk, SalesOk, Next;
    if ops != [] {
      NextKeepsOk(r, ops[0], item, max, now);
      RunKeepsOk(Next(r, ops[0], item), ops[1..], item, max, ops[0].now);
    }
  }

  /** Over any run from a full shop: the timer is unset exactly when every item is full; what is missing of
      an item is what was sold of it since the last restock; and no closed minute sells more than twice its
      full stock. */
  lemma StockIsConserved(shop: Shop, ops: seq<Op>, item: string, now: int, lo: int)
    requires shop.startedAt.None? && Full(shop.items) && item in shop.items
    requires forall id :: id in shop.items ==> shop.items[id].maxStock >= 0
    requires NonDecreasing(now, ops)
    ensures var r := After(Run(shop, []), ops, item);
            var max := shop.items[item].maxStock;
            && (r.shop.startedAt.None? <==> Full(r.shop.items))
            && item in r.shop.items && 0 <= r.shop.items[item].stock <= r.shop.items[item].maxStock == max
            && max - r.shop.items[item].stock
               == (if r.shop.startedAt.None? then 0 else CountWindow(r.sales, r.shop.startedAt.value))
            && CountIn(r.sales, lo, lo + RESTOCK_INTERVAL) <= 2 * max
  {
    hide After, CountIn;
    var max := shop.items[item].maxStock;
    RunKeepsOk(Run(shop, []), ops, item, max, now);
    TwiceTheLimit(After(Run(shop, []), ops, item).sales, RESTOCK_INTERVAL, max, lo);
  }

  /** The wait is the least number of whole seconds after which a minute has passed since the timer started, or since
      now if it does not run. */
  lemma WaitIsRoundedUp(s: Shop, now: int)
    ensures var wait, start := SecondsUntilRestock(s, now), if s.startedAt.Some? then s.startedAt.value else now;
            && now + wait * 1_000_000_000 >= start + 60_000_000_000
            && (wait > 0 ==> now + (wait - 1) * 1_000_000_000 < start + 60_000_000_000)
  {
  }

  /** The wait reported at or after the last call is 0..60, and 0 only when the restock is already due. */
  lemma WaitIsAtMostAMinute(s: Shop, now: int, reportedAt: int)
    requires ShopOk(s, now) && now <= reportedAt
    ensures 0 <= SecondsUntilRestock(s, reportedAt) <= 60
    ensures SecondsUntilRestock(s, reportedAt) == 0
            <==> s.startedAt.Some? && reportedAt >= s.startedAt.value + RESTOCK_INTERVAL
  {
  }
}
