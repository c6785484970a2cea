/** The Crusty Crab: daily stock, orders of several lines, and the sold-out notices they cause. */
module Crab {
  import opened Wrappers

  datatype Error = UnknownItem | BadQuantity | SoldOut

  /** A menu item; without a daily stock it never runs out. */
  datatype Item = Item(price: int, dailyStock: Option<int>, sold: int) {
    function Remaining(): Option<int> {
      if dailyStock.None? then None
      else Some(if dailyStock.value - sold < 0 then 0 else dailyStock.value - sold)
    }

    predicate Available() { Remaining().None? || Remaining().value > 0 }
  }

  datatype Line = Line(item: string, qty: int)

  type Menu = map<string, Item>

  datatype Order = Order(lines: seq<Line>, total: int)

  // ----- what an order asks for

  function Wanted(lines: seq<Line>, id: string): int {
    if lines == [] then 0
    else Wanted(lines[..|lines| - 1], id) + if lines[|lines| - 1].item == id then lines[|lines| - 1].qty else 0
  }

  function Total(lines: seq<Line>, menu: Menu): int {
    if lines == [] then 0
    else
      var l := lines[|lines| - 1];
      Total(lines[..|lines| - 1], menu) + if l.item in menu then menu[l.item].price * l.qty else 0
  }

  function Ordered(lines: seq<Line>): set<string> {
    set l | l in lines :: l.item
  }

  /** The first line at fault: a bad quantity is noticed before an unknown item. */
  function LineFault(lines: seq<Line>, menu: Menu): Option<Error> {
    if lines == [] then None
    else if lines[0].qty <= 0 then Some(BadQuantity)
    else if lines[0].item !in menu then Some(UnknownItem)
    else LineFault(lines[1..], menu)
  }

  predicate Enough(item: Item, wanted: int) {
    item.Remaining().Some? ==> item.Remaining().value >= wanted
  }

  function Fault(lines: seq<Line>, menu: Menu): Option<Error> {
    if LineFault(lines, menu).Some? then LineFault(lines, menu)
    else if lines == [] then Some(BadQuantity)
    else if forall id :: id in menu && id in Ordered(lines) ==> Enough(menu[id], Wanted(lines, id)) then None
    else Some(SoldOut)
  }

  /** The menu after an accepted order. */
  function Sold(menu: Menu, lines: seq<Line>): Menu {
    map id | id in menu :: menu[id].(sold := menu[id].sold + Wanted(lines, id))
  }

  /** The items an accepted order exhausts. */
  function Exhausted(menu: Menu, lines: seq<Line>): set<string> {
    set id | id in menu && id in Ordered(lines) && Sold(menu, lines)[id].Remaining() == Some(0)
  }

  function Restocked(menu: Menu): Menu {
    map id | id in menu :: menu[id].(sold := 0)
  }

  class Store {
    var menu: Menu
    var orders: map<string, Order>
    var lastRestockDay: int

    constructor (menu: Menu, day: int)
      ensures this.menu == menu && orders == map[] && lastRestockDay == day
    {
      this.menu, orders, lastRestockDay := menu, map[], day;
    }

    method RestockIfNewDay(day: int)
      modifies this`menu, this`lastRestockDay
      ensures menu == if day > old(lastRestockDay) then Restocked(old(menu)) else old(menu)
      ensures lastRestockDay == if day > old(lastRestockDay) then day else old(lastRestockDay)
    {
      if day > lastRestockDay {
        var rest := menu.Keys;
        while rest != {}
          invariant rest <= menu.Keys == old(menu).Keys && lastRestockDay == old(lastRestockDay)
          invariant forall id :: id in menu ==>
              menu[id] == if id in rest then old(menu)[id] else Restocked(old(menu))[id]
          decreases rest
        {
          var id :| id in rest;
          menu := menu[id := menu[id].(sold := 0)];
          rest := rest - {id};
        }
        lastRestockDay := day;
      }
    }

    /** The first pass over an order: how much it wants of each item, or why it is rejected. */
    method Check(lines: seq<Line>) returns (r: Result<map<string, int>, Error>)
      ensures Fault(lines, menu).Some? ==> r == Failure(Fault(lines, menu).value)
      ensures Fault(lines, menu).None? ==> r.Success? && r.value.Keys == Ordered(lines)
      ensures r.Success? ==> forall id :: id in r.value ==> r.value[id] == Wanted(lines, id)
    {
      hide Wanted, Ordered;
      var want: map<string, int> := map[];
      assert lines[0..] == lines;
      NothingOrdered();
      for n := 0 to |lines|
        invariant LineFault(lines, menu) == LineFault(lines[n..], menu)
        invariant want.Keys == Ordered(lines[..n])
        invariant forall id :: id in want ==> want[id] == Wanted(lines[..n], id) && id in menu
      {
        assert lines[n..][0] == lines[n] && lines[n..][1..] == lines[n + 1..];
        var l := lines[n];
        if l.qty <= 0 { return Failure(BadQuantity); }
        if l.item !in menu { return Failure(UnknownItem); }
        NextLine(lines, n);
        want := want[l.item := (if l.item in want then want[l.item] else 0) + l.qty];
      }
      assert lines[..|lines|] == lines && lines[|lines|..] == [];
      SomethingOrdered(lines);
      if want == map[] { return Failure(BadQuantity); }
      if exists id :: id in want && !Enough(menu[id], want[id]) { return Failure(SoldOut); }
      return Success(want);
    }

    /** The second pass: counts the lines as sold and adds up the price. */
    method Serve(lines: seq<Line>) returns (total: int)
      requires forall l :: l in lines ==> l.item in menu
      modifies this`menu
      ensures menu == Sold(old(menu), lines) && total == Total(lines, old(menu))
    {
      hide Wanted, Ordered, Total;
      ghost var open := menu;
      total := 0;
      NothingOrdered();
      for n := 0 to |lines|
        invariant total == Total(lines[..n], open) && menu == Sold(open, lines[..n])
      {
        var l := lines[n];
        assert l in lines;
        NextLine(lines, n);
        menu := menu[l.item := menu[l.item].(sold := menu[l.item].sold + l.qty)];
        total := total + menu[l.item].price * l.qty;
        assert menu == Sold(open, lines[..n + 1]);
      }
      assert lines[..|lines|] == lines;
    }

    /** Places an order under a fresh id, or rejects it and leaves the menu as the day's restock left it. */
    method PlaceOrder(lines: seq<Line>, day: int, orderId: string)
        returns (r: Result<Order, Error>, soldOut: set<string>)
      modifies this
      ensures lastRestockDay == if day > old(lastRestockDay) then day else old(lastRestockDay)
      ensures var open := if day > old(lastRestockDay) then Restocked(old(menu)) else old(menu);
              match Fault(lines, open)
              case Some(e) => r == Failure(e) && menu == open && orders == old(orders) && soldOut == {}
              case None =>
                && r == Success(Order(lines, Total(lines, open))) && orders == old(orders)[orderId := r.value]
                && menu == Sold(open, lines) && soldOut == Exhausted(open, lines)
    {
      hide Wanted, Ordered, Total, Sold, LineFault, Restocked;
      RestockIfNewDay(day);
      var want := Check(lines);
      if want.Failure? { return Failure(want.error), {}; }
      NoFaultMeansGoodLines(lines, menu);
      SoldKeys(menu, lines);
      var total := Serve(lines);
      soldOut := set id | id in want.value && id in menu && menu[id].Remaining() == Some(0);
      var order := Order(lines, total);
      orders := orders[orderId := order];
      return Success(order), soldOut;
    }
  }

  lemma SoldKeys(menu: Menu, lines: seq<Line>)
    ensures Sold(menu, lines).Keys == menu.Keys
  {
  }

  lemma NothingOrdered()
    ensures Ordered([]) == {} && forall id :: Wanted([], id) == 0
    ensures forall menu: Menu :: Total([], menu) == 0 && Sold(menu, []) == menu
  {
    forall menu: Menu ensures Sold(menu, []) == menu {
      forall id | id in menu ensures Sold(menu, [])[id] == menu[id] { assert Wanted([], id) == 0; }
    }
  }

  lemma SomethingOrdered(lines: seq<Line>)
    ensures Ordered(lines) == {} <==> lines == []
  {
    if lines != [] { assert lines[0].item in Ordered(lines); }
  }

  lemma NextLine(lines: seq<Line>, n: nat)
    requires n < |lines|
    ensures Ordered(lines[..n + 1]) == Ordered(lines[..n]) + {lines[n].item}
    ensures forall id ::
              Wanted(lines[..n + 1], id) == Wanted(lines[..n], id) + if lines[n].item == id then lines[n].qty else 0
    ensures forall menu: Menu :: Total(lines[..n + 1], menu)
                           == Total(lines[..n], menu)
                               + if lines[n].item in menu then menu[lines[n].item].price * lines[n].qty else 0
    ensures lines[n].item !in Ordered(lines[..n]) ==> Wanted(lines[..n], lines[n].item) == 0
  {
    var front, next := lines[..n], lines[..n + 1];
    assert next[..|next| - 1] == front && next == front + [lines[n]];
    NotOrdered(front, lines[n].item);
  }

  lemma {:induction false} NotOrdered(lines: seq<Line>, id: string)
    ensures id !in Ordered(lines) ==> Wanted(lines, id) == 0
  {
    if lines != [] && id !in Ordered(lines) {
      NotOrdered(lines[..|lines| - 1], id);
      assert lines[|lines| - 1].item in Ordered(lines);
    }
  }

  // ----- which orders are taken, and what they sell

  lemma {:induction false} TotalConcat(a: seq<Line>, b: seq<Line>, menu: Menu)
    ensures Total(a + b, menu) == Total(a, menu) + Total(b, menu)
  {
    if b == [] {
      assert a + b == a;
    } else {
      assert (a + b)[..|a + b| - 1] == a + b[..|b| - 1];
      TotalConcat(a, b[..|b| - 1], menu);
    }
  }

  /** The price and the wants of an order are those of its lines, added up. */
  lemma OrderAddsUp(lines: seq<Line>, l: Line, menu: Menu, id: string)
    requires l.item in menu
    ensures Total([], menu) == 0 && Total([l] + lines, menu) == menu[l.item].price * l.qty + Total(lines, menu)
    ensures Wanted([], id) == 0
    ensures Wanted([l] + lines, id) == (if l.item == id then l.qty else 0) + Wanted(lines, id)
  {
    TotalConcat([l], lines, menu);
    WantedConcat([l], lines, id);
    assert [l][..0] == [];
    assert Total([l], menu) == menu[l.item].price * l.qty;
  }

  /** The first line that asks for nothing or for an item that is not on the menu. */
  ghost predicate FirstBad(lines: seq<Line>, menu: Menu, k: nat) {
    && k < |lines| && (lines[k].qty <= 0 || lines[k].item !in menu)
    && forall i :: 0 <= i < k ==> lines[i].qty > 0 && lines[i].item in menu
  }

  lemma {:induction false} LineFaultIs(lines: seq<Line>, menu: Menu)
    ensures LineFault(lines, menu).None? <==> forall l :: l in lines ==> l.qty > 0 && l.item in menu
    ensures forall k: nat :: FirstBad(lines, menu, k) ==>
              LineFault(lines, menu) == Some(if lines[k].qty <= 0 then BadQuantity else UnknownItem)
  {
    if lines != [] {
      var t := lines[1..];
      LineFaultIs(t, menu);
      assert lines == [lines[0]] + t;
      forall k: nat | FirstBad(lines, menu, k) && k > 0 ensures FirstBad(t, menu, k - 1) {
        forall i | 0 <= i < k - 1 ensures t[i].qty > 0 && t[i].item in menu { assert t[i] == lines[i + 1]; }
      }
    }
  }

  /** All that an order wants of each item is still there today. */
  ghost predicate InStock(lines: seq<Line>, menu: Menu) {
    forall l :: l in lines && l.item in menu && menu[l.item].dailyStock.Some? ==>
      menu[l.item].sold + Wanted(lines, l.item) <= menu[l.item].dailyStock.value
  }

  /** An order is taken exactly when it has a line, every line asks for at least one of an item on the menu, and the
      lines of an item together do not ask for more than is left of it. Otherwise the first bad line decides what is
      wrong, and with none of them the stock. */
  lemma TakenIff(lines: seq<Line>, menu: Menu)
    ensures Fault(lines, menu).None?
            <==> lines != [] && (forall l :: l in lines ==> l.qty > 0 && l.item in menu) && InStock(lines, menu)
    ensures forall k: nat :: FirstBad(lines, menu, k) ==>
              Fault(lines, menu) == Some(if lines[k].qty <= 0 then BadQuantity else UnknownItem)
    ensures lines == [] ==> Fault(lines, menu) == Some(BadQuantity)
    ensures lines != [] && (forall l :: l in lines ==> l.qty > 0 && l.item in menu) && !InStock(lines, menu) ==>
              Fault(lines, menu) == Some(SoldOut)
  {
    hide LineFault, Wanted, FirstBad;
    LineFaultIs(lines, menu);
    if forall l :: l in lines ==> l.qty > 0 && l.item in menu {
      forall l | l in lines
        ensures Enough(menu[l.item], Wanted(lines, l.item)) <==>
                menu[l.item].dailyStock.None?
                || menu[l.item].sold + Wanted(lines, l.item) <= menu[l.item].dailyStock.value
      {
        WantedPositive(lines, l.item);
        assert l.item in Ordered(lines);
      }
    }
  }

  /** What a taken order leaves: every item on the menu with so many more sold as the order wants of it and otherwise
      unchanged; it exhausts the items it orders of which nothing is left. */
  lemma SoldIs(menu: Menu, lines: seq<Line>, id: string)
    ensures Sold(menu, lines).Keys == menu.Keys
    ensures id in menu ==>
              var item := Sold(menu, lines)[id];
              && item.sold == menu[id].sold + Wanted(lines, id)
              && item.price == menu[id].price && item.dailyStock == menu[id].dailyStock
    ensures id in Exhausted(menu, lines)
            <==> && id in menu && (exists l :: l in lines && l.item == id) && menu[id].dailyStock.Some?
                 && menu[id].sold + Wanted(lines, id) >= menu[id].dailyStock.value
  {
    hide Wanted;
    if l :| l in lines && l.item == id { assert id in Ordered(lines); }
  }

  /** A restock forgets what was sold and changes nothing else. */
  lemma RestockedIs(menu: Menu, id: string)
    ensures Restocked(menu).Keys == menu.Keys
    ensures id in menu ==> Restocked(menu)[id] == Item(menu[id].price, menu[id].dailyStock, 0)
  {
  }

  // ----- runs

  datatype Op = Look(day: int) | Place(lines: seq<Line>, day: int)

  /** The menu, and since its last restock the lines of all accepted orders and the notices they gave. */
  datatype Run = Run(menu: Menu, day: int, accepted: seq<Line>, notices: seq<set<string>>)

  function Next(r: Run, op: Op): Run {
    var open := if op.day > r.day then Run(Restocked(r.menu), op.day, [], []) else r;
    if op.Place? && Fault(op.lines, open.menu).None? then
      open.(menu := Sold(open.menu, op.lines), accepted := open.accepted + op.lines,
            notices := open.notices + [Exhausted(open.menu, op.lines)])
    else open
  }

  function After(r: Run, ops: seq<Op>): Run
    decreases ops
  {
    if ops == [] then r else After(Next(r, ops[0]), ops[1..])
  }

  function CountNotices(notices: seq<set<string>>, id: string): nat {
    if notices == [] then 0
    else CountNotices(notices[..|notices| - 1], id) + if id in notices[|notices| - 1] then 1 else 0
  }

  ghost predicate ItemOk(r: Run, id: string)
    requires id in r.menu
  {
    var item := r.menu[id];
    && item.sold == Wanted(r.accepted, id)
    && (item.dailyStock.Some? ==> 0 <= item.sold <= item.dailyStock.value)
    && CountNotices(r.notices, id) == if item.dailyStock.Some? && item.sold == item.dailyStock.value > 0 then 1 else 0
  }

  /** A menu whose daily stocks make sense. */
  predicate MenuOk(menu: Menu) {
    forall id :: id in menu && menu[id].dailyStock.Some? ==> menu[id].dailyStock.value >= 0
  }

  lemma {:induction false} WantedConcat(a: seq<Line>, b: seq<Line>, id: string)
    ensures Wanted(a + b, id) == Wanted(a, id) + Wanted(b, id)
  {
    if b == [] {
      assert a + b == a;
    } else {
      assert (a + b)[..|a + b| - 1] == a + b[..|b| - 1];
      WantedConcat(a, b[..|b| - 1], id);
    }
  }

  lemma {:induction false} WantedPositive(lines: seq<Line>, id: string)
    requires forall l :: l in lines ==> l.qty > 0
    ensures Wanted(lines, id) >= 0 && (id in Ordered(lines) <==> Wanted(lines, id) > 0)
  {
    if lines == [] {
      assert id !in Ordered(lines);
    } else {
      var front, last := lines[..|lines| - 1], lines[|lines| - 1];
      WantedPositive(front, id);
      assert last in lines && lines == front + [last];
      assert Ordered(lines) == Ordered(front) + {last.item};
    }
  }

  lemma {:induction false} NoFaultMeansGoodLines(lines: seq<Line>, menu: Menu)
    requires LineFault(lines, menu).None?
    ensures forall l :: l in lines ==> l.qty > 0 && l.item in menu
  {
    if lines != [] { NoFaultMeansGoodLines(lines[1..], menu); }
  }

  lemma RestockKeepsItem(r: Run, day: int, id: string)
    requires MenuOk(r.menu) && id in r.menu
    ensures var open := Run(Restocked(r.menu), day, [], []); id in open.menu && ItemOk(open, id)
  {
  }

  lemma AcceptedKeepsItem(r: Run, lines: seq<Line>, id: string)
    requires MenuOk(r.menu) && id in r.menu && ItemOk(r, id) && Fault(lines, r.menu).None?
    ensures ItemOk(r.(menu := Sold(r.menu, lines), accepted := r.accepted + lines,
                      notices := r.notices + [Exhausted(r.menu, lines)]),
                   id)
  {
    hide LineFault, Wanted, CountNotices, Ordered;
    NoFaultMeansGoodLines(lines, r.menu);
    WantedPositive(lines, id);
    WantedConcat(r.accepted, lines, id);
    CountNext(r.notices, Exhausted(r.menu, lines), id);
    if id in Ordered(lines) { assert Enough(r.menu[id], Wanted(lines, id)); }
  }

  lemma NextKeepsItem(r: Run, op: Op, id: string)
    requires MenuOk(r.menu) && id in r.menu && ItemOk(r, id)
    ensures id in Next(r, op).menu && ItemOk(Next(r, op), id)
  {
    hide ItemOk, Fault, Wanted, Ordered;
    var open := if op.day > r.day then Run(Restocked(r.menu), op.day, [], []) else r;
    if op.day > r.day { RestockKeepsItem(r, op.day, id); }
    if op.Place? && Fault(op.lines, open.menu).None? { AcceptedKeepsItem(open, op.lines, id); }
  }

  lemma CountNext(notices: seq<set<string>>, s: set<string>, id: string)
    ensures CountNotices(notices + [s], id) == CountNotices(notices, id) + if id in s then 1 else 0
  {
    assert (notices + [s])[..|notices|] == notices;
  }

  lemma {:induction false} RunKeepsItems(r: Run, ops: seq<Op>)
    requires MenuOk(r.menu) && forall id :: id in r.menu ==> ItemOk(r, id)
    ensures MenuOk(After(r, ops).menu) && forall id :: id in After(r, ops).menu ==> ItemOk(After(r, ops), id)
    ensures After(r, ops).menu.Keys == r.menu.Keys
    decreases ops
  {
    hide ItemOk, Fault;
    if ops != [] {
      var n := Next(r, ops[0]);
      forall id | id in n.menu ensures ItemOk(n, id) { NextKeepsItem(r, ops[0], id); }
      RunKeepsItems(n, ops[1..]);
    }
  }

  /** Over any run from an unsold menu: what is sold of an item since the last restock is the sum over all
      accepted lines, repeated lines included, and never exceeds the daily stock; a limited item is reported
      sold out once, when it is exhausted, and not before. */
  lemma CrabRunIsConserved(menu: Menu, day: int, ops: seq<Op>, id: string)
    requires MenuOk(menu) && id in menu && forall k :: k in menu ==> menu[k].sold == 0
    ensures var r := After(Run(menu, day, [], []), ops);
            && id in r.menu
            && var item := r.menu[id];
               && item.sold == Wanted(r.accepted, id)
               && (item.dailyStock.Some? ==> 0 <= item.sold <= item.dailyStock.value)
               && CountNotices(r.notices, id)
                  == if item.dailyStock.Some? && item.sold == item.dailyStock.value > 0 then 1 else 0
  {
    var r := Run(menu, day, [], []);
    forall k | k in menu ensures ItemOk(r, k) {}
    RunKeepsItems(r, ops);
    assert ItemOk(After(r, ops), id);
  }
}
