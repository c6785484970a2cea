/** The arrivals listing: newest first, filtered, a page at a time, while arrivals keep coming in. */
module AirportListing {
  import opened Wrappers

  /** A query parameter that should hold a number. */
  datatype Param = Absent | Malformed | Number(value: int)

  /** The keys are handed out in increasing order as rows are inserted. */
  datatype Arrival = Arrival(id: nat, passportType: string, status: string)

  /** An empty parameter does not filter. */
  datatype Filter = Filter(status: string, passportType: string) {
    predicate Matches(a: Arrival) {
      (status == "" || a.status == status) && (passportType == "" || a.passportType == passportType)
    }
  }

  datatype Page = Page(arrivals: seq<Arrival>, nextCursor: Option<nat>, total: nat)

  /** `Crash` is the unhandled index error on the last row of an empty page. */
  datatype Response = Listed(page: Page) | InvalidCursor | InvalidLimit | NegativeLimit | Crash

  predicate Below(a: Arrival, cursor: Option<int>) { cursor.None? || a.id < cursor.value }

  /** The matching rows under the cursor, by descending id: `rows` is in the order of insertion. */
  function Newest(rows: seq<Arrival>, f: Filter, cursor: Option<int>): seq<Arrival> {
    if rows == [] then []
    else
      var n := |rows| - 1;
      (if f.Matches(rows[n]) && Below(rows[n], cursor) then [rows[n]] else []) + Newest(rows[..n], f, cursor)
  }

  function ListArrivals(rows: seq<Arrival>, f: Filter, limit: Param, cursor: Param): Response {
    var total := |Newest(rows, f, None)|;
    if cursor.Malformed? then InvalidCursor
    else
      var found := Newest(rows, f, if cursor.Absent? then None else Some(cursor.value));
      match limit
      case Absent => Listed(Page(found, None, total))
      case Malformed => InvalidLimit
      case Number(n) =>
        if n < 0 then NegativeLimit
        else if |found| <= n then Listed(Page(found, None, total))
        else if n == 0 then Crash
        else Listed(Page(found[..n], Some(found[n - 1].id), total))
  }

  // ----- one page

  ghost predicate Ascending(rows: seq<Arrival>) {
    forall i, j :: 0 <= i < j < |rows| ==> rows[i].id < rows[j].id
  }

  ghost predicate Descending(rows: seq<Arrival>) {
    forall i, j :: 0 <= i < j < |rows| ==> rows[i].id > rows[j].id
  }

  lemma {:induction false} NewestIsExact(rows: seq<Arrival>, f: Filter, cursor: Option<int>)
    requires Ascending(rows)
    ensures Descending(Newest(rows, f, cursor))
    ensures forall a :: a in Newest(rows, f, cursor) <==> a in rows && f.Matches(a) && Below(a, cursor)
  {
    if rows != [] {
      var n := |rows| - 1;
      NewestIsExact(rows[..n], f, cursor);
      var rest := Newest(rows[..n], f, cursor);
      assert rows == rows[..n] + [rows[n]];
      forall j | 0 <= j < |rest| ensures rest[j].id < rows[n].id { assert rest[j] in rows[..n]; }
    }
  }

  function Bound(cursor: Param): Option<int> { if cursor.Number? then Some(cursor.value) else None }

  /** A row the listing has to show, on this page or a later one. */
  ghost predicate Wanted(rows: seq<Arrival>, f: Filter, cursor: Option<int>, a: Arrival) {
    && a in rows
    && (f.status == "" || a.status == f.status) && (f.passportType == "" || a.passportType == f.passportType)
    && (cursor.None? || a.id < cursor.value)
  }

  /** What is refused, in the order of the checks, and that only a limit can make a page end early. */
  lemma RefusedIff(rows: seq<Arrival>, f: Filter, limit: Param, cursor: Param)
    ensures var r := ListArrivals(rows, f, limit, cursor);
            && (r.InvalidCursor? <==> cursor.Malformed?)
            && (r.InvalidLimit? <==> !cursor.Malformed? && limit.Malformed?)
            && (r.NegativeLimit? <==> !cursor.Malformed? && limit.Number? && limit.value < 0)
            && (limit.Absent? && !cursor.Malformed? ==> r.Listed? && r.page.nextCursor.None?)
  {
  }

  /** The rows the filter lets through, wherever the cursor is. */
  function Matching(rows: seq<Arrival>, f: Filter): set<nat> {
    set i | 0 <= i < |rows| && (f.status == "" || rows[i].status == f.status)
            && (f.passportType == "" || rows[i].passportType == f.passportType)
  }

  lemma {:induction false} NewestCount(rows: seq<Arrival>, f: Filter)
    ensures |Newest(rows, f, None)| == |Matching(rows, f)|
  {
    if rows != [] {
      var n := |rows| - 1;
      NewestCount(rows[..n], f);
      assert Matching(rows, f) == Matching(rows[..n], f) + if f.Matches(rows[n]) then {n} else {};
    }
  }

  /** Every listing tells how many rows the filter lets through, on whatever page, and shows nothing else. */
  lemma ListingIsHonest(rows: seq<Arrival>, f: Filter, limit: Param, cursor: Param)
    requires Ascending(rows) && ListArrivals(rows, f, limit, cursor).Listed?
    ensures var page := ListArrivals(rows, f, limit, cursor).page;
            && page.total == |Matching(rows, f)|
            && (forall a :: a in page.arrivals ==> Wanted(rows, f, Bound(cursor), a))
            && (page.nextCursor.Some? ==>
                  && limit.Number? && |page.arrivals| == limit.value
                  && page.nextCursor.value == page.arrivals[limit.value - 1].id)
            && (page.nextCursor.None? ==> forall a :: Wanted(rows, f, Bound(cursor), a) ==> a in page.arrivals)
  {
    hide Newest, Ascending, Descending, Matching;
    NewestCount(rows, f);
    NewestIsExact(rows, f, Bound(cursor));
  }

  /** With a numeric limit the listing crashes exactly when the limit is zero and there is a row to show. */
  lemma CrashesIffLimitIsZero(rows: seq<Arrival>, f: Filter, limit: int, cursor: Param)
    requires Ascending(rows) && !cursor.Malformed?
    ensures ListArrivals(rows, f, Number(limit), cursor) == Crash
            <==> limit == 0 && exists a :: Wanted(rows, f, Bound(cursor), a)
  {
    hide Newest, Ascending, Descending;
    var found := Newest(rows, f, Bound(cursor));
    NewestIsExact(rows, f, Bound(cursor));
    assert forall a :: Wanted(rows, f, Bound(cursor), a) <==> a in found;
    hide Wanted;
    assert |found| > 0 ==> found[0] in found;
  }

  /** A page holds the largest ids still wanted, at most `n` of them. It offers a cursor exactly when something is left,
      and then the page and all that the cursor leads to are together everything wanted. */
  lemma PageIsPrefix(rows: seq<Arrival>, f: Filter, n: nat, cursor: Param)
    requires Ascending(rows) && !cursor.Malformed? && n > 0
    ensures ListArrivals(rows, f, Number(n), cursor).Listed?
    ensures var page, bound := ListArrivals(rows, f, Number(n), cursor).page, Bound(cursor);
            && |page.arrivals| <= n && Descending(page.arrivals)
            && (forall a, b :: a in page.arrivals && Wanted(rows, f, bound, b) && b.id >= a.id ==> b in page.arrivals)
            && (page.nextCursor.None? <==> forall a :: Wanted(rows, f, bound, a) ==> a in page.arrivals)
            && (page.nextCursor.Some? ==>
                  Newest(rows, f, bound) == page.arrivals + Newest(rows, f, Some(page.nextCursor.value)))
  {
    hide Newest, Ascending, Descending;
    var found := Newest(rows, f, Bound(cursor));
    NewestIsExact(rows, f, Bound(cursor));
    assert forall a :: Wanted(rows, f, Bound(cursor), a) <==> a in found;
    hide Wanted;
    if n < |found| {
      PrefixIsLargest(found, n);
      Resumes(rows, f, Bound(cursor), n);
    }
  }

  lemma PrefixIsLargest(found: seq<Arrival>, n: nat)
    requires Descending(found) && n <= |found|
    ensures Descending(found[..n])
    ensures forall a, b :: a in found[..n] && b in found && b.id >= a.id ==> b in found[..n]
    ensures n < |found| ==> found[n] in found && found[n] !in found[..n]
    ensures n == |found| ==> found[..n] == found
  {
    forall a, b | a in found[..n] && b in found && b.id >= a.id ensures b in found[..n] {
      var i :| 0 <= i < n && found[i] == a;
      var j :| 0 <= j < |found| && found[j] == b;
      assert j <= i;
      assert found[..n][j] == b;
    }
  }

  /** Following the cursor resumes exactly behind the page. */
  lemma Resumes(rows: seq<Arrival>, f: Filter, cursor: Option<int>, n: nat)
    requires Ascending(rows) && 0 < n < |Newest(rows, f, cursor)|
    ensures Newest(rows, f, Some(Newest(rows, f, cursor)[n - 1].id)) == Newest(rows, f, cursor)[n..]
  {
    hide Newest;
    var found := Newest(rows, f, cursor);
    var next := Some(found[n - 1].id);
    NewestIsExact(rows, f, cursor);
    NewestIsExact(rows, f, next);
    assert found[n - 1] in found;
    forall a ensures a in found[n..] <==> a in Newest(rows, f, next) {
      if a in Newest(rows, f, next) {
        assert a in found;
        var i :| 0 <= i < |found| && found[i] == a;
        assert found[n..][i - n] == a;
      }
    }
    DescendingIsUnique(found[n..], Newest(rows, f, next));
  }

  lemma HeadIsLargest(rows: seq<Arrival>)
    requires Descending(rows) && rows != []
    ensures Descending(rows[1..]) && rows[0] in rows
    ensures forall a :: a in rows[1..] <==> a in rows && a != rows[0]
    ensures forall a :: a in rows[1..] ==> a.id < rows[0].id
  {
    forall a | a in rows && a != rows[0] ensures a in rows[1..] {
      assert rows == [rows[0]] + rows[1..];
    }
  }

  lemma {:induction false} DescendingIsUnique(a: seq<Arrival>, b: seq<Arrival>)
    requires Descending(a) && Descending(b) && forall x :: x in a <==> x in b
    ensures a == b
  {
    hide Descending;
    if a != [] { HeadIsLargest(a); }
    if b != [] { HeadIsLargest(b); }
    if a != [] && b != [] {
      DescendingIsUnique(a[1..], b[1..]);
      assert a == [a[0]] + a[1..] && b == [b[0]] + b[1..];
    }
  }

  // ----- following the cursor while the table changes

  /** Later contents of the table: rows keep their place, key and passport type, and new ones come behind. */
  ghost predicate Grows(before: seq<Arrival>, after: seq<Arrival>) {
    && |before| <= |after|
    && forall i :: 0 <= i < |before| ==> after[i].id == before[i].id && after[i].passportType == before[i].passportType
  }

  /** `h(k)` is the table when page `k` is served. */
  ghost predicate Evolves(h: nat -> seq<Arrival>) {
    && (forall k :: Ascending(h(k)))
    && forall j, k :: j <= k ==> Grows(h(j), h(k))
  }

  function ToParam(cursor: Option<nat>): Param { if cursor.None? then Absent else Number(cursor.value) }

  function ToBound(cursor: Option<nat>): Option<int> { if cursor.None? then None else Some(cursor.value) }

  lemma NextIsLower(rows: seq<Arrival>, f: Filter, n: nat, cursor: Option<nat>)
    requires Ascending(rows) && n > 0
    ensures var r := ListArrivals(rows, f, Number(n), ToParam(cursor));
            r.Listed? && (r.page.nextCursor.Some? && cursor.Some? ==> r.page.nextCursor.value < cursor.value)
  {
    var found := Newest(rows, f, ToBound(cursor));
    NewestIsExact(rows, f, ToBound(cursor));
    if n < |found| { assert found[n - 1] in found; }
  }

  /** Every row a client sees that starts at `cursor` with page `k` and follows each next cursor to the end. */
  ghost function Walk(h: nat -> seq<Arrival>, k: nat, f: Filter, n: nat, cursor: Option<nat>): seq<Arrival>
    requires Evolves(h) && n > 0
    decreases if cursor.None? then 1 else 0, if cursor.None? then 0 else cursor.value
  {
    NextIsLower(h(k), f, n, cursor);
    var page := ListArrivals(h(k), f, Number(n), ToParam(cursor)).page;
    page.arrivals + if page.nextCursor.None? then [] else Walk(h, k + 1, f, n, page.nextCursor)
  }

  /** Row `i` is listed as it stood at some page from `k` on. */
  ghost predicate SeenAt(h: nat -> seq<Arrival>, k: nat, f: Filter, i: nat, a: Arrival) {
    exists m :: k <= m && i < |h(m)| && h(m)[i] == a && f.Matches(a)
  }

  /** Listed at some page from `k` on, and already in the table at page `k`. */
  ghost predicate Known(h: nat -> seq<Arrival>, k: nat, f: Filter, a: Arrival) {
    exists i: nat :: i < |h(k)| && SeenAt(h, k, f, i, a)
  }

  lemma KnownNow(h: nat -> seq<Arrival>, k: nat, f: Filter, a: Arrival)
    requires a in h(k) && f.Matches(a)
    ensures Known(h, k, f, a)
  {
    var i: nat :| i < |h(k)| && h(k)[i] == a;
    assert SeenAt(h, k, f, i, a);
  }

  /** The part of the walk that the first page gives. */
  lemma FirstPage(h: nat -> seq<Arrival>, k: nat, f: Filter, n: nat, cursor: Option<nat>) returns (page: Page)
    requires Evolves(h) && n > 0
    ensures Walk(h, k, f, n, cursor)
            == page.arrivals + if page.nextCursor.None? then [] else Walk(h, k + 1, f, n, page.nextCursor)
    ensures page.nextCursor.None? ==> page.arrivals == Newest(h(k), f, ToBound(cursor))
    ensures page.nextCursor.Some? ==>
              && Newest(h(k), f, ToBound(cursor)) == page.arrivals + Newest(h(k), f, Some(page.nextCursor.value))
              && page.arrivals != [] && page.arrivals[|page.arrivals| - 1].id == page.nextCursor.value
              && (cursor.Some? ==> page.nextCursor.value < cursor.value)
  {
    hide Newest;
    NextIsLower(h(k), f, n, cursor);
    PageIsPrefix(h(k), f, n, ToParam(cursor));
    page := ListArrivals(h(k), f, Number(n), ToParam(cursor)).page;
  }

  lemma {:induction false} WalkIsSound(h: nat -> seq<Arrival>, k: nat, f: Filter, n: nat, cursor: Option<nat>)
    requires Evolves(h) && n > 0
    ensures Descending(Walk(h, k, f, n, cursor))
    ensures forall a :: a in Walk(h, k, f, n, cursor) ==> Below(a, ToBound(cursor)) && Known(h, k, f, a)
    decreases if cursor.None? then 1 else 0, if cursor.None? then 0 else cursor.value
  {
    hide Walk, Newest, Evolves, Known, Descending, Ascending;
    var page := FirstPage(h, k, f, n, cursor);
    Unpack(h, k, k);
    NewestIsExact(h(k), f, ToBound(cursor));
    forall a | a in page.arrivals ensures Below(a, ToBound(cursor)) && Known(h, k, f, a) {
      assert a in Newest(h(k), f, ToBound(cursor));
      KnownNow(h, k, f, a);
    }
    if page.nextCursor.Some? {
      WalkIsSound(h, k + 1, f, n, page.nextCursor);
      var rest, last := Walk(h, k + 1, f, n, page.nextCursor), page.arrivals[|page.arrivals| - 1];
      assert last in page.arrivals;
      forall a | a in rest ensures a.id < last.id && Below(a, ToBound(cursor)) && Known(h, k, f, a) {
        StaysLow(h, k, f, a, last);
      }
      Joined(page.arrivals, rest, Newest(h(k), f, ToBound(cursor)));
    } else {
      assert Walk(h, k, f, n, cursor) == page.arrivals;
    }
  }

  lemma Unpack(h: nat -> seq<Arrival>, j: nat, k: nat)
    requires Evolves(h) && j <= k
    ensures Ascending(h(j)) && Ascending(h(k)) && Grows(h(j), h(k))
  {
  }

  lemma Joined(page: seq<Arrival>, rest: seq<Arrival>, found: seq<Arrival>)
    requires Descending(found) && page <= found && page != [] && Descending(rest)
    requires forall a :: a in rest ==> a.id < page[|page| - 1].id
    ensures Descending(page + rest)
  {
    forall i, j | 0 <= i < j < |page + rest| ensures (page + rest)[i].id > (page + rest)[j].id {
      if i < |page| <= j { assert rest[j - |page|] in rest; }
    }
  }

  /** A row seen later with a lower key than a row of page `k` was already in that page's table. */
  lemma StaysLow(h: nat -> seq<Arrival>, k: nat, f: Filter, a: Arrival, last: Arrival)
    requires Evolves(h) && Known(h, k + 1, f, a) && last in h(k) && a.id < last.id
    ensures Known(h, k, f, a)
  {
    hide Evolves;
    var i: nat :| i < |h(k + 1)| && SeenAt(h, k + 1, f, i, a);
    var m :| k + 1 <= m && i < |h(m)| && h(m)[i] == a && f.Matches(a);
    Unpack(h, k, m);
    var j :| 0 <= j < |h(k)| && h(k)[j] == last;
    assert h(m)[j].id == last.id;
    assert i < j && SeenAt(h, k, f, i, a);
  }

  lemma {:induction false} WalkIsComplete(h: nat -> seq<Arrival>, k: nat, f: Filter, n: nat, cursor: Option<nat>,
                                          i: nat)
    requires Evolves(h) && n > 0
    requires forall m :: k <= m ==> i < |h(m)| && f.Matches(h(m)[i])
    requires Below(h(k)[i], ToBound(cursor))
    ensures HasId(Walk(h, k, f, n, cursor), h(k)[i].id)
    decreases if cursor.None? then 1 else 0, if cursor.None? then 0 else cursor.value
  {
    hide Walk, Newest, Evolves;
    var page := FirstPage(h, k, f, n, cursor);
    Unpack(h, k, k + 1);
    var row := h(k)[i];
    NewestIsExact(h(k), f, ToBound(cursor));
    if row in page.arrivals {
      assert row in Walk(h, k, f, n, cursor);
    } else {
      assert row in Newest(h(k), f, ToBound(cursor));
      NewestIsExact(h(k), f, ToBound(page.nextCursor));
      WalkIsComplete(h, k + 1, f, n, page.nextCursor, i);
      var a :| a in Walk(h, k + 1, f, n, page.nextCursor) && a.id == h(k + 1)[i].id;
      assert a in Walk(h, k, f, n, cursor);
    }
  }

  /** For any limit of at least one and any changes between the pages: the walk ends, lists strictly descending
      ids, so nothing twice; lists only rows that were there at the start, each as it matched at some page; and
      misses no row that matched throughout. */
  lemma WalkSeesEverything(h: nat -> seq<Arrival>, f: Filter, n: nat)
    requires Evolves(h) && n > 0
    ensures var seen := Walk(h, 0, f, n, None);
            && Descending(seen)
            && (forall a :: a in seen ==> Known(h, 0, f, a))
            && (forall i: nat :: i < |h(0)| && (forall m: nat :: i < |h(m)| && f.Matches(h(m)[i])) ==>
                  HasId(seen, h(0)[i].id))
  {
    hide Walk;
    WalkIsSound(h, 0, f, n, None);
    forall i: nat | i < |h(0)| && (forall m: nat :: i < |h(m)| && f.Matches(h(m)[i]))
      ensures HasId(Walk(h, 0, f, n, None), h(0)[i].id)
    {
      WalkIsComplete(h, 0, f, n, None, i);
    }
  }

  function Ids(rows: seq<Arrival>): (ids: seq<nat>)
    ensures |ids| == |rows| && forall i :: 0 <= i < |rows| ==> ids[i] == rows[i].id
  {
    seq(|rows|, i requires 0 <= i < |rows| => rows[i].id)
  }

  /** With a filter no update can change, the pages together are the one unlimited listing of the start. */
  lemma PagesAreOneListing(h: nat -> seq<Arrival>, f: Filter, n: nat)
    requires Evolves(h) && n > 0 && f.status == ""
    ensures Ids(Walk(h, 0, f, n, None)) == Ids(ListArrivals(h(0), f, Absent, Absent).page.arrivals)
  {
    hide Walk, Newest, Evolves, HasId, Known, Ascending, Descending;
    var seen, listed := Walk(h, 0, f, n, None), Newest(h(0), f, None);
    WalkSeesEverything(h, f, n);
    Unpack(h, 0, 0);
    NewestIsExact(h(0), f, None);
    forall id ensures HasId(seen, id) <==> HasId(listed, id) {
      if HasId(seen, id) { SeenIsListed(h, f, n, id); }
      if HasId(listed, id) { ListedIsSeen(h, f, n, id); }
    }
    SameIds(seen, listed);
  }

  lemma SeenIsListed(h: nat -> seq<Arrival>, f: Filter, n: nat, id: int)
    requires Evolves(h) && n > 0 && f.status == "" && HasId(Walk(h, 0, f, n, None), id)
    ensures HasId(Newest(h(0), f, None), id)
  {
    hide Walk, Newest, Evolves;
    WalkIsSound(h, 0, f, n, None);
    Unpack(h, 0, 0);
    NewestIsExact(h(0), f, None);
    var a :| a in Walk(h, 0, f, n, None) && a.id == id;
    var i: nat :| i < |h(0)| && SeenAt(h, 0, f, i, a);
    var m :| 0 <= m && i < |h(m)| && h(m)[i] == a && f.Matches(a);
    Unpack(h, 0, m);
    assert h(0)[i] in Newest(h(0), f, None);
  }

  lemma ListedIsSeen(h: nat -> seq<Arrival>, f: Filter, n: nat, id: int)
    requires Evolves(h) && n > 0 && f.status == "" && HasId(Newest(h(0), f, None), id)
    ensures HasId(Walk(h, 0, f, n, None), id)
  {
    hide Walk, Newest, Evolves;
    Unpack(h, 0, 0);
    NewestIsExact(h(0), f, None);
    var b :| b in Newest(h(0), f, None) && b.id == id;
    var i: nat :| i < |h(0)| && h(0)[i] == b;
    forall m: nat ensures i < |h(m)| && f.Matches(h(m)[i]) { Unpack(h, 0, m); }
    WalkIsComplete(h, 0, f, n, None, i);
  }

  ghost predicate HasId(rows: seq<Arrival>, id: int) { exists a :: a in rows && a.id == id }

  lemma {:induction false} SameIds(a: seq<Arrival>, b: seq<Arrival>)
    requires Descending(a) && Descending(b)
    requires forall id :: HasId(a, id) <==> HasId(b, id)
    ensures Ids(a) == Ids(b)
  {
    hide Descending, HasId;
    if a == [] || b == [] {
      if a != [] { HeadHasId(a); }
      if b != [] { HeadHasId(b); }
    } else {
      HeadHasId(a);
      HeadHasId(b);
      SameIds(a[1..], b[1..]);
      assert Ids(a) == [a[0].id] + Ids(a[1..]) && Ids(b) == [b[0].id] + Ids(b[1..]);
    }
  }

  lemma HeadHasId(rows: seq<Arrival>)
    requires Descending(rows) && rows != []
    ensures Descending(rows[1..]) && HasId(rows, rows[0].id)
    ensures forall id :: HasId(rows[1..], id) <==> HasId(rows, id) && id != rows[0].id
    ensures forall id :: HasId(rows, id) ==> id <= rows[0].id
    ensures forall id :: !HasId([], id)
  {
    hide Descending;
    HeadIsLargest(rows);
  }
}
