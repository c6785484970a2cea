/** The beach's activities: bookings kept in two tables, and the full / available events they cause. */
module Beach {
  import opened Wrappers

  datatype Error =
    | ActivityNotFound | VisitorNotFound | VisitorNotCheckedIn | ActivityAlreadyBooked | VisitorAlreadyInActivity
    | ActivityFull | ActivityNotBooked | MissingActivityId | MissingActivityName | InvalidCapacity | AlreadyExists

  /** One row of the activity table, one row of the booking table, and an activity as the use cases see it. */
  datatype Row = Row(name: string, description: Option<string>, capacity: int)
  datatype Booking = Booking(activity: string, visitor: string)
  datatype Activity = Activity(id: string, row: Row, booked: set<string>) {
    function Remaining(): int { row.capacity - |booked| }
    predicate IsFull() { |booked| >= row.capacity }
  }

  /** What happened to activities; `Full` and `Available` are the events published. */
  datatype Event = Created(id: string) | Removed(id: string) | Full(id: string) | Available(id: string)

  /** The tables, and everything that happened so far. */
  datatype World = World(activities: map<string, Row>, bookings: set<Booking>, visitors: map<string, bool>,
                         log: seq<Event>)

  function Booked(bookings: set<Booking>, id: string): set<string> {
    set b | b in bookings && b.activity == id :: b.visitor
  }

  predicate VisitorBooked(bookings: set<Booking>, visitor: string) {
    exists b :: b in bookings && b.visitor == visitor
  }

  function Find(w: World, id: string): Activity
    requires id in w.activities
  {
    Activity(id, w.activities[id], Booked(w.bookings, id))
  }

  /** The booking table once the bookings of `id` are deleted. */
  function Cascade(bookings: set<Booking>, id: string): set<Booking> {
    set b | b in bookings && b.activity != id
  }

  function Rows(id: string, visitors: set<string>): set<Booking> {
    set v | v in visitors :: Booking(id, v)
  }

  /** The booking table after an activity's bookings are replaced by `booked`. */
  function Replaced(bookings: set<Booking>, id: string, booked: set<string>): set<Booking> {
    Cascade(bookings, id) + Rows(id, booked)
  }

  function Saved(w: World, a: Activity): World {
    w.(activities := w.activities[a.id := a.row], bookings := Replaced(w.bookings, a.id, a.booked))
  }

  /** White space as the platform counts it: control separators, and every Unicode space, line and paragraph
      separator. */
  predicate IsWhitespace(c: char) {
    || '\U{09}' <= c <= '\U{0D}' || '\U{1C}' <= c <= ' ' || c == '\U{A0}' || c == '\U{1680}'
    || '\U{2000}' <= c <= '\U{200A}' || c == '\U{2028}' || c == '\U{2029}' || c == '\U{202F}' || c == '\U{205F}'
    || c == '\U{3000}'
  }

  predicate IsBlank(s: string) { forall i :: 0 <= i < |s| ==> IsWhitespace(s[i]) }

  // ----- the use cases, each as one atomic step

  function BookStep(w: World, id: string, visitor: string): (World, Option<Error>) {
    if id !in w.activities then (w, Some(ActivityNotFound))
    else if visitor !in w.visitors then (w, Some(VisitorNotFound))
    else if !w.visitors[visitor] then (w, Some(VisitorNotCheckedIn))
    else if visitor in Find(w, id).booked then (w, Some(ActivityAlreadyBooked))
    else if VisitorBooked(w.bookings, visitor) then (w, Some(VisitorAlreadyInActivity))
    else if Find(w, id).IsFull() then (w, Some(ActivityFull))
    else
      var a := Find(w, id);
      var a' := a.(booked := a.booked + {visitor});
      (Saved(w, a').(log := w.log + if a'.IsFull() then [Full(id)] else []), None)
  }

  function CancelStep(w: World, id: string, visitor: string): (World, Option<Error>) {
    if id !in w.activities then (w, Some(ActivityNotFound))
    else if visitor !in Find(w, id).booked then (w, Some(ActivityNotBooked))
    else
      var a := Find(w, id);
      var a' := a.(booked := a.booked - {visitor});
      (Saved(w, a').(log := w.log + if a.IsFull() && !a'.IsFull() then [Available(id)] else []), None)
  }

  function CreateStep(w: World, id: string, row: Row): (World, Option<Error>) {
    if IsBlank(id) then (w, Some(MissingActivityId))
    else if IsBlank(row.name) then (w, Some(MissingActivityName))
    else if row.capacity <= 0 then (w, Some(InvalidCapacity))
    else if id in w.activities then (w, Some(AlreadyExists))
    else (w.(activities := w.activities[id := row], log := w.log + [Created(id)]), None)
  }

  /** Deleting an activity deletes its bookings with it. */
  function RemoveStep(w: World, id: string): (World, Option<Error>) {
    if IsBlank(id) then (w, Some(MissingActivityId))
    else if id !in w.activities then (w, Some(ActivityNotFound))
    else (World(w.activities - {id}, Cascade(w.bookings, id), w.visitors, w.log + [Removed(id)]), None)
  }

  function CheckInStep(w: World, visitor: string): World { w.(visitors := w.visitors[visitor := true]) }

  // ----- the service

  class BeachService {
    var activities: map<string, Row>
    var bookings: set<Booking>
    var visitors: map<string, bool>
    var log: seq<Event>

    constructor ()
      ensures Current() == EMPTY_WORLD
    {
      activities, bookings, visitors, log := map[], {}, map[], [];
    }

    function Current(): World
      reads this
    {
      World(activities, bookings, visitors, log)
    }

    method FindById(id: string) returns (r: Option<Activity>)
      ensures r == if id in activities then Some(Find(Current(), id)) else None
    {
      if id !in activities { return None; }
      return Some(Activity(id, activities[id], Booked(bookings, id)));
    }

    method FindActivityIdByVisitor(visitor: string) returns (r: Option<string>)
      ensures r.None? <==> !VisitorBooked(bookings, visitor)
      ensures r.Some? ==> visitor in Booked(bookings, r.value)
    {
      if b :| b in bookings && b.visitor == visitor {
        assert b.visitor in Booked(bookings, b.activity);
        return Some(b.activity);
      }
      return None;
    }

    /** Updates or inserts the activity row, deletes its bookings and inserts the current ones. */
    method Save(a: Activity)
      modifies this`activities, this`bookings
      ensures Current() == Saved(old(Current()), a)
    {
      activities := activities[a.id := a.row];
      ghost var kept := Cascade(bookings, a.id);
      bookings := Cascade(bookings, a.id);
      var rest := a.booked;
      while rest != {}
        invariant rest <= a.booked && activities == old(activities)[a.id := a.row]
        invariant bookings == kept + Rows(a.id, a.booked - rest)
        decreases rest
      {
        var v :| v in rest;
        InsertedOne(a.booked, rest - {v}, v, a.id);
        assert rest - {v} + {v} == rest;
        bookings := bookings + {Booking(a.id, v)};
        rest := rest - {v};
      }
      assert a.booked - rest == a.booked;
    }

    method Book(id: string, visitor: string) returns (r: Option<Error>)
      modifies this
      ensures (Current(), r) == BookStep(old(Current()), id, visitor)
    {
      hide Saved, Booked;
      var found := FindById(id);
      if found.None? { return Some(ActivityNotFound); }
      if visitor !in visitors { return Some(VisitorNotFound); }
      if !visitors[visitor] { return Some(VisitorNotCheckedIn); }
      var a := found.value;
      if visitor in a.booked { return Some(ActivityAlreadyBooked); }
      if VisitorBooked(bookings, visitor) { return Some(VisitorAlreadyInActivity); }
      if a.IsFull() { return Some(ActivityFull); }
      a := a.(booked := a.booked + {visitor});
      Save(a);
      assert log + [] == log;
      if a.IsFull() { log := log + [Full(id)]; }
      return None;
    }

    method Cancel(id: string, visitor: string) returns (r: Option<Error>)
      modifies this
      ensures (Current(), r) == CancelStep(old(Current()), id, visitor)
    {
      hide Saved, Booked;
      var found := FindById(id);
      if found.None? { return Some(ActivityNotFound); }
      var a := found.value;
      if visitor !in a.booked { return Some(ActivityNotBooked); }
      var wasFull := a.IsFull();
      a := a.(booked := a.booked - {visitor});
      Save(a);
      assert log + [] == log;
      if wasFull && !a.IsFull() { log := log + [Available(id)]; }
      return None;
    }

    method CreateActivity(id: string, row: Row) returns (r: Option<Error>)
      modifies this
      ensures (Current(), r) == CreateStep(old(Current()), id, row)
    {
      if IsBlank(id) { return Some(MissingActivityId); }
      if IsBlank(row.name) { return Some(MissingActivityName); }
      if row.capacity <= 0 { return Some(InvalidCapacity); }
      if id in activities { return Some(AlreadyExists); }
      activities := activities[id := row];
      log := log + [Created(id)];
      return None;
    }

    method RemoveActivity(id: string) returns (r: Option<Error>)
      modifies this
      ensures (Current(), r) == RemoveStep(old(Current()), id)
    {
      if IsBlank(id) { return Some(MissingActivityId); }
      if id !in activities { return Some(ActivityNotFound); }
      activities := activities - {id};
      bookings := Cascade(bookings, id);
      log := log + [Removed(id)];
      return None;
    }

    method MarkCheckedIn(visitor: string)
      modifies this`visitors
      ensures Current() == CheckInStep(old(Current()), visitor)
    {
      visitors := visitors[visitor := true];
    }
  }

  lemma InsertedOne(all: set<string>, rest: set<string>, v: string, id: string)
    requires v in all && v !in rest
    ensures Rows(id, all - (rest + {v})) + {Booking(id, v)} == Rows(id, all - rest)
  {
  }

  // ----- what each use case grants, and what it changes

  lemma BookedIs(bookings: set<Booking>, id: string, visitor: string)
    ensures visitor in Booked(bookings, id) <==> Booking(id, visitor) in bookings
  {
  }

  lemma ReplacedByMore(bookings: set<Booking>, id: string, visitor: string)
    ensures Replaced(bookings, id, Booked(bookings, id) + {visitor}) == bookings + {Booking(id, visitor)}
    ensures Replaced(bookings, id, Booked(bookings, id) - {visitor}) == bookings - {Booking(id, visitor)}
  {
    hide Booked;
    forall b ensures b in Replaced(bookings, id, Booked(bookings, id) + {visitor})
                     <==> b in bookings + {Booking(id, visitor)}
    {
      BookedIs(bookings, id, b.visitor);
    }
    forall b ensures b in Replaced(bookings, id, Booked(bookings, id) - {visitor})
                     <==> b in bookings - {Booking(id, visitor)}
    {
      BookedIs(bookings, id, b.visitor);
    }
  }

  /** A booking is granted exactly to a known visitor who is checked in and has no booking anywhere, for a known
      activity with a place left. It adds that booking and nothing else, and tells when the last place went. */
  lemma BookedIff(w: World, id: string, visitor: string)
    ensures var (after, r) := BookStep(w, id, visitor);
            var taken := |set b | b in w.bookings && b.activity == id :: b.visitor|;
            && (r.None? <==>
                  && id in w.activities && visitor in w.visitors && w.visitors[visitor]
                  && (forall b :: b in w.bookings ==> b.visitor != visitor) && taken < w.activities[id].capacity)
            && (r.Some? ==> after == w)
            && (r.None? ==>
                  after == World(w.activities, w.bookings + {Booking(id, visitor)}, w.visitors,
                                 w.log + if taken + 1 == w.activities[id].capacity then [Full(id)] else []))
  {
    hide Replaced;
    ReplacedByMore(w.bookings, id, visitor);
    BookedIs(w.bookings, id, visitor);
    assert Booked(w.bookings, id) == set b | b in w.bookings && b.activity == id :: b.visitor;
    if id in w.activities { assert w.activities[id := w.activities[id]] == w.activities; }
  }

  /** Why a booking is refused: the first of these that holds. */
  lemma BookingRefusals(w: World, id: string, visitor: string)
    ensures var r := BookStep(w, id, visitor).1;
            if id !in w.activities then r == Some(ActivityNotFound)
            else if visitor !in w.visitors then r == Some(VisitorNotFound)
            else if !w.visitors[visitor] then r == Some(VisitorNotCheckedIn)
            else if Booking(id, visitor) in w.bookings then r == Some(ActivityAlreadyBooked)
            else if exists b :: b in w.bookings && b.visitor == visitor then r == Some(VisitorAlreadyInActivity)
            else r == None || r == Some(ActivityFull)
  {
    BookedIs(w.bookings, id, visitor);
  }

  /** A cancellation is granted exactly for a booking of a known activity. It removes that booking and nothing else, and
      tells when the activity was full. */
  lemma CancelledIff(w: World, id: string, visitor: string)
    ensures var (after, r) := CancelStep(w, id, visitor);
            var taken := |set b | b in w.bookings && b.activity == id :: b.visitor|;
            && (r == Some(ActivityNotFound) <==> id !in w.activities)
            && (r.None? <==> id in w.activities && Booking(id, visitor) in w.bookings)
            && (r.Some? ==> after == w)
            && (r.None? ==>
                  after == World(w.activities, w.bookings - {Booking(id, visitor)}, w.visitors,
                                 w.log + if taken == w.activities[id].capacity then [Available(id)] else []))
  {
    hide Replaced;
    ReplacedByMore(w.bookings, id, visitor);
    BookedIs(w.bookings, id, visitor);
    assert Booked(w.bookings, id) == set b | b in w.bookings && b.activity == id :: b.visitor;
    if id in w.activities { assert w.activities[id := w.activities[id]] == w.activities; }
  }

  /** An activity is created exactly under a new id that is not blank, with a name that is not blank and a capacity of
      at least one; bookings are as before. */
  lemma CreatedIff(w: World, id: string, row: Row)
    ensures var (after, r) := CreateStep(w, id, row);
            && (r.None? <==>
                  && (exists c :: c in id && !IsWhitespace(c)) && (exists c :: c in row.name && !IsWhitespace(c))
                  && row.capacity >= 1 && id !in w.activities)
            && (r.Some? ==> after == w)
            && (r.None? ==> after == World(w.activities[id := row], w.bookings, w.visitors, w.log + [Created(id)]))
  {
    NotBlank(id);
    NotBlank(row.name);
  }

  lemma NotBlank(s: string)
    ensures IsBlank(s) <==> !exists c :: c in s && !IsWhitespace(c)
  {
    hide IsWhitespace;
    if i :| 0 <= i < |s| && !IsWhitespace(s[i]) { assert s[i] in s; }
  }

  /** Removing an activity removes its row and its bookings, and nothing else. */
  lemma RemovedIff(w: World, id: string)
    ensures var (after, r) := RemoveStep(w, id);
            && (r.None? <==> (exists c :: c in id && !IsWhitespace(c)) && id in w.activities)
            && (r.Some? ==> after == w)
            && (r.None? ==>
                  && after.activities == w.activities - {id} && after.visitors == w.visitors
                  && (forall b :: b in after.bookings <==> b in w.bookings && b.activity != id)
                  && after.log == w.log + [Removed(id)])
  {
    NotBlank(id);
  }

  // ----- runs

  const EMPTY_WORLD := World(map[], {}, map[], [])

  datatype Op =
    | Create(id: string, row: Row) | Remove(id: string) | Book(id: string, visitor: string)
    | Cancel(id: string, visitor: string) | CheckIn(visitor: string)

  function Step(w: World, op: Op): World {
    match op
    case Create(id, row) => CreateStep(w, id, row).0
    case Remove(id) => RemoveStep(w, id).0
    case Book(id, visitor) => BookStep(w, id, visitor).0
    case Cancel(id, visitor) => CancelStep(w, id, visitor).0
    case CheckIn(visitor) => CheckInStep(w, visitor)
  }

  function After(w: World, ops: seq<Op>): World
    decreases ops
  {
    if ops == [] then w else After(Step(w, ops[0]), ops[1..])
  }

  /** The events published for `id` since it was last created. */
  function Trace(log: seq<Event>, id: string): seq<Event> {
    if log == [] then []
    else
      var e := log[|log| - 1];
      if e == Created(id) then []
      else Trace(log[..|log| - 1], id) + if e == Full(id) || e == Available(id) then [e] else []
  }

  /** Full, available, full, and so on. */
  ghost predicate Alternates(trace: seq<Event>, id: string) {
    forall i :: 0 <= i < |trace| ==> trace[i] == if i % 2 == 0 then Full(id) else Available(id)
  }

  ghost predicate BookingsOk(w: World) {
    && (forall b :: b in w.bookings ==> b.activity in w.activities && b.visitor in w.visitors && w.visitors[b.visitor])
    && (forall b, c :: b in w.bookings && c in w.bookings && b.visitor == c.visitor ==> b == c)
  }

  ghost predicate ActivityOk(w: World, id: string)
    requires id in w.activities
  {
    var a, trace := Find(w, id), Trace(w.log, id);
    && a.row.capacity >= 1 && |a.booked| <= a.row.capacity
    && Alternates(trace, id) && (a.IsFull() <==> trace != [] && trace[|trace| - 1] == Full(id))
  }

  ghost predicate Inv(w: World) {
    BookingsOk(w) && forall id :: id in w.activities ==> ActivityOk(w, id)
  }

  lemma BookedReplaced(bookings: set<Booking>, id: string, booked: set<string>, other: string)
    ensures Booked(Replaced(bookings, id, booked), other) == if other == id then booked else Booked(bookings, other)
  {
    var after := Replaced(bookings, id, booked);
    forall v ensures v in Booked(after, other) <==> v in if other == id then booked else Booked(bookings, other) {
      assert v in booked ==> Booking(id, v) in after;
      assert Booking(other, v) in bookings && other != id ==> Booking(other, v) in after;
      if v in Booked(after, other) { assert Booking(other, v) in after; }
    }
  }

  lemma BookedWithout(bookings: set<Booking>, id: string, other: string)
    requires other != id
    ensures Booked(Cascade(bookings, id), other) == Booked(bookings, other)
  {
    var after := Cascade(bookings, id);
    forall v ensures v in Booked(after, other) <==> v in Booked(bookings, other) {
      assert Booking(other, v) in bookings <==> Booking(other, v) in after;
    }
  }

  lemma TraceAppend(log: seq<Event>, e: Event, id: string)
    ensures Trace(log + [e], id) == if e == Created(id) then []
                                    else Trace(log, id) + if e == Full(id) || e == Available(id) then [e] else []
  {
    assert (log + [e])[..|log|] == log;
  }

  lemma AlternatesNext(trace: seq<Event>, id: string, e: Event)
    requires Alternates(trace, id)
    requires e == if trace != [] && trace[|trace| - 1] == Full(id) then Available(id) else Full(id)
    ensures Alternates(trace + [e], id)
  {
    assert trace != [] ==> trace[|trace| - 1] == if (|trace| - 1) % 2 == 0 then Full(id) else Available(id);
  }

  /** A step that changes the bookings of `id` only, and publishes at most one event, for `id`. */
  lemma ActivityKept(w: World, w': World, id: string, events: seq<Event>, other: string)
    requires other in w.activities && other in w'.activities && w'.activities[other] == w.activities[other]
    requires other != id && ActivityOk(w, other)
    requires w'.log == w.log + events && (events == [] || exists e :: events == [e] && e.id == id)
    requires Booked(w'.bookings, other) == Booked(w.bookings, other)
    ensures ActivityOk(w', other)
  {
    hide Alternates, Booked, Trace;
    if events == [] {
      assert w'.log == w.log;
    } else {
      TraceAppend(w.log, events[0], other);
      assert Trace(w.log, other) + [] == Trace(w.log, other);
    }
  }

  lemma BookKeepsInv(w: World, id: string, visitor: string)
    requires Inv(w)
    ensures Inv(BookStep(w, id, visitor).0)
  {
    hide Alternates, Booked, Trace, Replaced, BookingsOk;
    var (w', r) := BookStep(w, id, visitor);
    if r.None? {
      var a := Find(w, id);
      var events := if a.(booked := a.booked + {visitor}).IsFull() then [Full(id)] else [];
      assert ActivityOk(w, id);
      forall other | other in w'.activities ensures ActivityOk(w', other) {
        BookedReplaced(w.bookings, id, a.booked + {visitor}, other);
        if other == id {
          TraceAppend(w.log, Full(id), id);
          AlternatesNext(Trace(w.log, id), id, Full(id));
          assert w.log + [] == w.log;
        } else {
          assert ActivityOk(w, other);
          ActivityKept(w, w', id, events, other);
        }
      }
      BookingsAfterBook(w, id, visitor);
      BookingsIgnoreLog(Saved(w, a.(booked := a.booked + {visitor})), w'.log);
    }
  }

  lemma BookingsIgnoreLog(w: World, log: seq<Event>)
    requires BookingsOk(w)
    ensures BookingsOk(w.(log := log))
  {
  }

  lemma BookingsAfterBook(w: World, id: string, visitor: string)
    requires BookingsOk(w) && id in w.activities && visitor in w.visitors && w.visitors[visitor]
    requires !VisitorBooked(w.bookings, visitor)
    ensures BookingsOk(Saved(w, Find(w, id).(booked := Booked(w.bookings, id) + {visitor})))
  {
    var after := Replaced(w.bookings, id, Booked(w.bookings, id) + {visitor});
    forall b ensures b in after <==> b in w.bookings || b == Booking(id, visitor) {
      if b in after && b != Booking(id, visitor) && b.activity == id { assert b.visitor in Booked(w.bookings, id); }
      if b in w.bookings && b.activity == id { assert b.visitor in Booked(w.bookings, id); }
    }
  }

  lemma CancelKeepsInv(w: World, id: string, visitor: string)
    requires Inv(w)
    ensures Inv(CancelStep(w, id, visitor).0)
  {
    hide Alternates, Booked, Trace, Replaced, BookingsOk;
    var (w', r) := CancelStep(w, id, visitor);
    if r.None? {
      var a := Find(w, id);
      var events := if a.IsFull() && !a.(booked := a.booked - {visitor}).IsFull() then [Available(id)] else [];
      assert ActivityOk(w, id);
      forall other | other in w'.activities ensures ActivityOk(w', other) {
        BookedReplaced(w.bookings, id, a.booked - {visitor}, other);
        if other == id {
          TraceAppend(w.log, Available(id), id);
          if a.IsFull() { AlternatesNext(Trace(w.log, id), id, Available(id)); }
          assert w.log + [] == w.log;
        } else {
          assert ActivityOk(w, other);
          ActivityKept(w, w', id, events, other);
        }
      }
      BookingsAfterCancel(w, id, visitor);
      BookingsIgnoreLog(Saved(w, a.(booked := a.booked - {visitor})), w'.log);
    }
  }

  lemma BookingsAfterCancel(w: World, id: string, visitor: string)
    requires BookingsOk(w) && id in w.activities
    ensures BookingsOk(Saved(w, Find(w, id).(booked := Booked(w.bookings, id) - {visitor})))
  {
    var after := Replaced(w.bookings, id, Booked(w.bookings, id) - {visitor});
    forall b | b in after ensures b in w.bookings {
      if b.activity == id { assert b.visitor in Booked(w.bookings, id); }
    }
  }

  lemma CreateKeepsInv(w: World, id: string, row: Row)
    requires Inv(w)
    ensures Inv(CreateStep(w, id, row).0)
  {
    hide Alternates, Trace;
    var (w', r) := CreateStep(w, id, row);
    if r.None? {
      forall other | other in w'.activities ensures ActivityOk(w', other) {
        if other == id {
          TraceAppend(w.log, Created(id), id);
          assert Booked(w.bookings, id) == {};
          NothingAlternates(id);
        } else {
          assert ActivityOk(w, other);
          ActivityKept(w, w', id, [Created(id)], other);
        }
      }
    }
  }

  lemma NothingAlternates(id: string)
    ensures Alternates([], id)
  {
  }

  lemma RemoveKeepsInv(w: World, id: string)
    requires Inv(w)
    ensures Inv(RemoveStep(w, id).0)
  {
    hide Alternates, Booked, Trace;
    var (w', r) := RemoveStep(w, id);
    if r.None? {
      forall other | other in w'.activities ensures ActivityOk(w', other) {
        assert ActivityOk(w, other);
        BookedWithout(w.bookings, id, other);
        ActivityKept(w, w', id, [Removed(id)], other);
      }
    }
  }

  lemma StepKeepsInv(w: World, op: Op)
    requires Inv(w)
    ensures Inv(Step(w, op))
  {
    hide BookStep, CancelStep, CreateStep, RemoveStep;
    match op
    case Create(id, row) => CreateKeepsInv(w, id, row);
    case Remove(id) => RemoveKeepsInv(w, id);
    case Book(id, visitor) => BookKeepsInv(w, id, visitor);
    case Cancel(id, visitor) => CancelKeepsInv(w, id, visitor);
    case CheckIn(visitor) =>
      forall id | id in w.activities ensures ActivityOk(Step(w, op), id) { assert ActivityOk(w, id); }
  }

  lemma {:induction false} InvAlways(w: World, ops: seq<Op>)
    requires Inv(w)
    ensures Inv(After(w, ops))
    decreases ops
  {
    hide Inv, Step;
    if ops != [] {
      StepKeepsInv(w, ops[0]);
      InvAlways(Step(w, ops[0]), ops[1..]);
    }
  }

  /** Over any run from empty tables: each activity's events since its creation alternate full, available,
      full, and it is full exactly when the last one says so; bookings stay within capacity; nobody is booked
      twice; everybody booked is checked in. */
  lemma BeachRunIsSound(ops: seq<Op>)
    ensures var w := After(EMPTY_WORLD, ops);
            && (forall id :: id in w.activities ==>
                  var a, trace := Find(w, id), Trace(w.log, id);
                  && |a.booked| <= a.row.capacity && Alternates(trace, id)
                  && (a.IsFull() <==> trace != [] && trace[|trace| - 1] == Full(id)))
            && (forall b :: b in w.bookings ==> b.visitor in w.visitors && w.visitors[b.visitor])
            && (forall v, id, other :: v in Booked(w.bookings, id) && v in Booked(w.bookings, other) ==> id == other)
  {
    InvAlways(EMPTY_WORLD, ops);
    var w := After(EMPTY_WORLD, ops);
    forall id | id in w.activities ensures ActivityOk(w, id) {}
    forall v, id, other | v in Booked(w.bookings, id) && v in Booked(w.bookings, other) ensures id == other {
      assert Booking(id, v) in w.bookings && Booking(other, v) in w.bookings;
    }
  }
}
