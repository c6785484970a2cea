/** Hotel reservations: first-fit allocation of rooms over closed day ranges, and the occupancy shown per day. */
module Hotel {
  import opened Wrappers
  import opened Subsequences

  /** `TooManyGuests` carries the largest room of the type; there is none when the type has no rooms. `IdTaken` and
      `GuestListedTwice` are the keys of the two tables a reservation is inserted into. */
  datatype Error =
    | CheckOutNotAfterCheckIn | NotClearedByAirport | TooManyGuests(largest: Option<int>) | NoRoomAvailable
    | IdTaken | GuestListedTwice | ReservationNotFound

  datatype Room = Room(id: string, kind: string, capacity: int)
  datatype Request = Request(guest: string, kind: string, guestCount: int, party: Option<seq<string>>, checkIn: int,
                             checkOut: int) {
    /** How many people the capacity checks look at. */
    function PartySize(): int {
      if party.Some? && |party.value| > 0 then |party.value| else guestCount
    }

    function Party(): seq<string> { if party.Some? then party.value else [] }
  }
  datatype Status = CONFIRMED | CANCELLED
  datatype Stay = Stay(id: string, guest: string, room: string, guestCount: int, checkIn: int, checkOut: int,
                       status: Status, party: seq<string>) {
    /** Counted by the allocation: both ends of the stay block the room. */
    predicate Blocks(room: string, first: int, last: int) {
      this.room == room && status == CONFIRMED && checkIn <= last && checkOut >= first
    }

    /** Counted by the room listing: the guests have left on the check-out day. */
    predicate Occupies(room: string, day: int) {
      this.room == room && status == CONFIRMED && checkIn <= day < checkOut
    }
  }

  datatype Event = Confirmed(id: string) | Cancelled(id: string)

  datatype World = World(rooms: seq<Room>, stays: seq<Stay>, log: seq<Event>)

  // ----- strings in ascending order

  predicate Before(a: string, b: string) {
    b != [] && (a == [] || a[0] < b[0] || (a[0] == b[0] && Before(a[1..], b[1..])))
  }

  /** The order of a dictionary: the first difference decides, and a prefix comes first. */
  lemma {:induction false} BeforeIff(a: string, b: string)
    ensures Before(a, b)
            <==> exists k :: 0 <= k <= |a| && k < |b| && a[..k] == b[..k] && (k == |a| || a[k] < b[k])
  {
    if a != [] && b != [] && a[0] == b[0] {
      BeforeIff(a[1..], b[1..]);
      if k :| 0 <= k <= |a| && k < |b| && a[..k] == b[..k] && (k == |a| || a[k] < b[k]) {
        assert k > 0 && a[1..][..k - 1] == a[..k][1..] == b[..k][1..] == b[1..][..k - 1];
      }
      var s, t := a[1..], b[1..];
      if k :| 0 <= k <= |s| && k < |t| && s[..k] == t[..k] && (k == |s| || s[k] < t[k]) {
        assert a[..k + 1] == [a[0]] + s[..k] == b[..k + 1];
      }
    } else if a != [] && b != [] {
      assert a[..0] == b[..0];
      forall k | 0 < k <= |a| && k < |b| ensures a[..k] != b[..k] { assert a[..k][0] == a[0] && b[..k][0] == b[0]; }
    } else if b != [] {
      assert a[..0] == b[..0];
    }
  }

  ghost predicate Ascending(rooms: seq<Room>) {
    forall i, j :: 0 <= i < j < |rooms| ==> Before(rooms[i].id, rooms[j].id)
  }

  lemma {:induction false} BeforeIsStrict(a: string, b: string)
    requires Before(a, b)
    ensures a != b
  {
    if a != [] && a[0] == b[0] { BeforeIsStrict(a[1..], b[1..]); }
  }

  // ----- choosing a room

  function OfKind(rooms: seq<Room>, kind: string): seq<Room> {
    if rooms == [] then []
    else (if rooms[0].kind == kind then [rooms[0]] else []) + OfKind(rooms[1..], kind)
  }

  function Largest(rooms: seq<Room>): Option<int> {
    if rooms == [] then None
    else match Largest(rooms[1..])
         case None => Some(rooms[0].capacity)
         case Some(c) => Some(if rooms[0].capacity > c then rooms[0].capacity else c)
  }

  function Blocking(stays: seq<Stay>, room: string, first: int, last: int): nat {
    if stays == [] then 0
    else (if stays[0].Blocks(room, first, last) then 1 else 0) + Blocking(stays[1..], room, first, last)
  }

  predicate Suits(stays: seq<Stay>, room: Room, size: int, first: int, last: int) {
    size <= room.capacity && Blocking(stays, room.id, first, last) == 0
  }

  function FirstFit(offered: seq<Room>, stays: seq<Stay>, size: int, first: int, last: int): Option<Room> {
    if offered == [] then None
    else if Suits(stays, offered[0], size, first, last) then Some(offered[0])
    else FirstFit(offered[1..], stays, size, first, last)
  }

  // ----- the two use cases, each as one atomic step

  function IndexOf(stays: seq<Stay>, id: string): (i: nat)
    ensures i <= |stays|
    ensures i < |stays| ==> stays[i].id == id
    ensures forall j :: 0 <= j < i ==> stays[j].id != id
  {
    if stays == [] || stays[0].id == id then 0 else 1 + IndexOf(stays[1..], id)
  }

  predicate NobodyTwice(party: seq<string>) {
    forall i, j :: 0 <= i < j < |party| ==> party[i] != party[j]
  }

  function NewStay(id: string, r: Request, room: Room): Stay {
    Stay(id, r.guest, room.id, r.guestCount, r.checkIn, r.checkOut, CONFIRMED, r.Party())
  }

  /** `cleared` is the airport's answer, when it gave one; `id` is the new row's key. */
  function CreateStep(w: World, r: Request, cleared: Option<bool>, id: string): (World, Result<Stay, Error>) {
    if r.checkOut <= r.checkIn then (w, Failure(CheckOutNotAfterCheckIn))
    else if cleared == Some(false) then (w, Failure(NotClearedByAirport))
    else
      var offered := OfKind(w.rooms, r.kind);
      var largest := Largest(offered);
      if largest.None? || r.PartySize() > largest.value then (w, Failure(TooManyGuests(largest)))
      else match FirstFit(offered, w.stays, r.PartySize(), r.checkIn, r.checkOut)
           case None => (w, Failure(NoRoomAvailable))
           case Some(room) =>
             if IndexOf(w.stays, id) < |w.stays| then (w, Failure(IdTaken))
             else if !NobodyTwice(r.Party()) then (w, Failure(GuestListedTwice))
             else (w.(stays := w.stays + [NewStay(id, r, room)], log := w.log + [Confirmed(id)]),
                   Success(NewStay(id, r, room)))
  }

  function CancelStep(w: World, id: string): (World, Result<Status, Error>) {
    var i := IndexOf(w.stays, id);
    if i == |w.stays| then (w, Failure(ReservationNotFound))
    else if w.stays[i].status == CANCELLED then (w, Success(CANCELLED))
    else (w.(stays := w.stays[i := w.stays[i].(status := CANCELLED)], log := w.log + [Cancelled(id)]),
          Success(CANCELLED))
  }

  /** The sum the listing shows as a room's current guests. */
  function GuestsOn(stays: seq<Stay>, room: string, day: int): int {
    if stays == [] then 0
    else (if stays[0].Occupies(room, day) then stays[0].guestCount else 0) + GuestsOn(stays[1..], room, day)
  }

  // ----- the service

  class HotelService {
    const rooms: seq<Room>
    var stays: seq<Stay>
    var log: seq<Event>

    constructor (rooms: seq<Room>)
      ensures Current() == World(rooms, [], [])
    {
      this.rooms, stays, log := rooms, [], [];
    }

    function Current(): World
      reads this
    {
      World(rooms, stays, log)
    }

    method Create(r: Request, cleared: Option<bool>, id: string) returns (result: Result<Stay, Error>)
      modifies this
      ensures (Current(), result) == CreateStep(old(Current()), r, cleared, id)
    {
      if r.checkOut <= r.checkIn { return Failure(CheckOutNotAfterCheckIn); }
      if cleared == Some(false) { return Failure(NotClearedByAirport); }
      var offered := OfKind(rooms, r.kind);
      var largest := Largest(offered);
      if largest.None? || r.PartySize() > largest.value { return Failure(TooManyGuests(largest)); }
      var available: Option<Room> := None;
      var i := 0;
      while i < |offered|
        invariant 0 <= i <= |offered| && available.None? && Current() == old(Current())
        invariant FirstFit(offered, stays, r.PartySize(), r.checkIn, r.checkOut)
               == FirstFit(offered[i..], stays, r.PartySize(), r.checkIn, r.checkOut)
      {
        if r.PartySize() <= offered[i].capacity {
          if Blocking(stays, offered[i].id, r.checkIn, r.checkOut) == 0 {
            available := Some(offered[i]);
            break;
          }
        }
        i := i + 1;
      }
      if available.None? { return Failure(NoRoomAvailable); }
      if IndexOf(stays, id) < |stays| { return Failure(IdTaken); }
      if !NobodyTwice(r.Party()) { return Failure(GuestListedTwice); }
      var stay := NewStay(id, r, available.value);
      stays, log := stays + [stay], log + [Confirmed(id)];
      return Success(stay);
    }

    method Cancel(id: string) returns (result: Result<Status, Error>)
      modifies this
      ensures (Current(), result) == CancelStep(old(Current()), id)
    {
      var i := IndexOf(stays, id);
      if i == |stays| { return Failure(ReservationNotFound); }
      if stays[i].status == CANCELLED { return Success(CANCELLED); }
      stays, log := stays[i := stays[i].(status := CANCELLED)], log + [Cancelled(id)];
      return Success(CANCELLED);
    }
  }

  // ----- which room is chosen

  lemma {:induction false} OfKindIsFilter(rooms: seq<Room>, kind: string)
    ensures forall room :: room in OfKind(rooms, kind) <==> room in rooms && room.kind == kind
    ensures Ascending(rooms) ==> Ascending(OfKind(rooms, kind))
  {
    if rooms != [] {
      OfKindIsFilter(rooms[1..], kind);
      var rest := OfKind(rooms[1..], kind);
      if Ascending(rooms) {
        forall j | 0 <= j < |rest| ensures Before(rooms[0].id, rest[j].id) {
          assert rest[j] in rooms[1..];
        }
      }
    }
  }

  lemma {:induction false} BlockingIsZero(stays: seq<Stay>, room: string, first: int, last: int)
    ensures Blocking(stays, room, first, last) == 0 <==> forall s :: s in stays ==> !s.Blocks(room, first, last)
  {
    if stays != [] {
      BlockingIsZero(stays[1..], room, first, last);
      assert stays == [stays[0]] + stays[1..];
    }
  }

  lemma {:induction false} FirstFitIsFirst(offered: seq<Room>, stays: seq<Stay>, size: int, first: int, last: int)
    ensures var found := FirstFit(offered, stays, size, first, last);
            if found.Some? then exists k ::
                                  && 0 <= k < |offered| && offered[k] == found.value
                                  && Suits(stays, offered[k], size, first, last)
                                  && forall j :: 0 <= j < k ==> !Suits(stays, offered[j], size, first, last)
            else forall room :: room in offered ==> !Suits(stays, room, size, first, last)
  {
    hide Suits;
    if offered != [] && !Suits(stays, offered[0], size, first, last) {
      FirstFitIsFirst(offered[1..], stays, size, first, last);
      var found := FirstFit(offered, stays, size, first, last);
      if found.Some? {
        var k :| 0 <= k < |offered| - 1 && offered[1..][k] == found.value
            && Suits(stays, offered[1..][k], size, first, last)
                 && forall j :: 0 <= j < k ==> !Suits(stays, offered[1..][j], size, first, last);
        assert offered[k + 1] == found.value;
        forall j | 0 <= j < k + 1 ensures !Suits(stays, offered[j], size, first, last) {
          if j > 0 { assert offered[1..][j - 1] == offered[j]; }
        }
      }
    }
  }

  lemma {:induction false} LargestIsBound(rooms: seq<Room>)
    ensures Largest(rooms).None? <==> rooms == []
    ensures Largest(rooms).Some? ==> forall room :: room in rooms ==> room.capacity <= Largest(rooms).value
  {
    if rooms != [] {
      LargestIsBound(rooms[1..]);
      assert rooms == [rooms[0]] + rooms[1..];
    }
  }

  /** A room the request could get: right type, big enough, and no confirmed stay shares a day with it. */
  ghost predicate Acceptable(w: World, r: Request, room: Room) {
    && room in w.rooms && room.kind == r.kind
    && (if r.party.Some? && r.party.value != [] then |r.party.value| else r.guestCount) <= room.capacity
    && forall s :: s in w.stays && s.room == room.id && s.status == CONFIRMED ==>
        s.checkOut < r.checkIn || r.checkOut < s.checkIn
  }

  lemma SuitsIsAcceptable(w: World, r: Request, room: Room)
    requires room in w.rooms && room.kind == r.kind
    ensures Suits(w.stays, room, r.PartySize(), r.checkIn, r.checkOut) <==> Acceptable(w, r, room)
  {
    BlockingIsZero(w.stays, room.id, r.checkIn, r.checkOut);
    if Suits(w.stays, room, r.PartySize(), r.checkIn, r.checkOut) {
      forall s | s in w.stays && s.room == room.id && s.status == CONFIRMED
        ensures s.checkOut < r.checkIn || r.checkOut < s.checkIn
      {
        assert !s.Blocks(room.id, r.checkIn, r.checkOut);
      }
    }
  }

  /** A request of a cleared guest for one night or more is granted exactly when it lists no guest twice and some
      room is acceptable, and gets the acceptable room of lowest id; otherwise nothing changes. */
  lemma GrantedIffRoomExists(w: World, r: Request, cleared: Option<bool>, id: string)
    requires Ascending(w.rooms) && r.checkIn < r.checkOut && cleared != Some(false)
    requires forall s :: s in w.stays ==> s.id != id
    ensures var (w', result) := CreateStep(w, r, cleared, id);
            && (result.Success? <==> NobodyTwice(r.Party()) && exists room :: Acceptable(w, r, room))
            && (result.Failure? ==> w' == w)
            && (result.Success? ==>
                  && w' == World(w.rooms, w.stays + [result.value], w.log + [Confirmed(id)])
                  && exists room :: LowestAcceptable(w, r, room)
                                    && result.value == Stay(id, r.guest, room.id, r.guestCount, r.checkIn, r.checkOut,
                                                            CONFIRMED, if r.party.None? then [] else r.party.value))
  {
    hide CreateStep, Acceptable, LowestAcceptable, NobodyTwice;
    var room := GrantedRoom(w, r, cleared, id);
    if CreateStep(w, r, cleared, id).1.Success? { assert LowestAcceptable(w, r, room.value); }
  }

  ghost predicate LowestAcceptable(w: World, r: Request, room: Room) {
    Acceptable(w, r, room) && forall other :: Acceptable(w, r, other) && other != room ==> Before(room.id, other.id)
  }

  lemma GrantedRoom(w: World, r: Request, cleared: Option<bool>, id: string) returns (found: Option<Room>)
    requires Ascending(w.rooms) && r.checkIn < r.checkOut && cleared != Some(false)
    requires forall s :: s in w.stays ==> s.id != id
    ensures var (w', result) := CreateStep(w, r, cleared, id);
            && (result.Success? <==> NobodyTwice(r.Party()) && exists room :: Acceptable(w, r, room))
            && (result.Failure? ==> w' == w)
            && (result.Success? ==>
                  && found.Some? && LowestAcceptable(w, r, found.value) && result.value == NewStay(id, r, found.value)
                  && w' == World(w.rooms, w.stays + [result.value], w.log + [Confirmed(id)]))
  {
    hide Acceptable, Suits, Before, NobodyTwice;
    var offered := OfKind(w.rooms, r.kind);
    OfKindIsFilter(w.rooms, r.kind);
    LargestIsBound(offered);
    FirstFitIsFirst(offered, w.stays, r.PartySize(), r.checkIn, r.checkOut);
    forall room | room in offered
      ensures Suits(w.stays, room, r.PartySize(), r.checkIn, r.checkOut) <==> Acceptable(w, r, room)
    {
      SuitsIsAcceptable(w, r, room);
    }
    forall room | Acceptable(w, r, room) ensures room in offered && r.PartySize() <= room.capacity {
      AcceptableParts(w, r, room);
    }
    found := FirstFit(offered, w.stays, r.PartySize(), r.checkIn, r.checkOut);
    if found.Some? {
      var k :| 0 <= k < |offered| && offered[k] == found.value && Acceptable(w, r, offered[k])
               && forall j :: 0 <= j < k ==> !Suits(w.stays, offered[j], r.PartySize(), r.checkIn, r.checkOut);
      var (_, result) := CreateStep(w, r, cleared, id);
      assert NobodyTwice(r.Party()) ==> result == Success(NewStay(id, r, found.value));
      forall other | Acceptable(w, r, other) && other != found.value ensures Before(found.value.id, other.id) {
        var j :| 0 <= j < |offered| && offered[j] == other;
        assert Suits(w.stays, offered[j], r.PartySize(), r.checkIn, r.checkOut);
      }
    }
  }

  /** Why a request is refused: the first of these that holds. */
  lemma Refusals(w: World, r: Request, cleared: Option<bool>, id: string)
    ensures var result := CreateStep(w, r, cleared, id).1;
            var size := if r.party.Some? && r.party.value != [] then |r.party.value| else r.guestCount;
            if r.checkOut <= r.checkIn then result == Failure(CheckOutNotAfterCheckIn)
            else if cleared == Some(false) then result == Failure(NotClearedByAirport)
            else if forall room :: room in w.rooms ==> room.kind != r.kind then result == Failure(TooManyGuests(None))
            else if forall room :: room in w.rooms && room.kind == r.kind ==> room.capacity < size then
              exists room ::
                && room in w.rooms && room.kind == r.kind && result == Failure(TooManyGuests(Some(room.capacity)))
                && forall other :: other in w.rooms && other.kind == r.kind ==> other.capacity <= room.capacity
            else if forall room :: !Acceptable(w, r, room) then result == Failure(NoRoomAvailable)
            else if exists s :: s in w.stays && s.id == id then result == Failure(IdTaken)
            else if exists i, j :: 0 <= i < j < |r.Party()| && r.Party()[i] == r.Party()[j] then
              result == Failure(GuestListedTwice)
            else result.Success?
  {
    hide Acceptable, Suits, Largest, FirstFit;
    var offered := OfKind(w.rooms, r.kind);
    OfKindIsFilter(w.rooms, r.kind);
    LargestIsBound(offered);
    LargestIsThere(offered);
    assert offered != [] ==> offered[0] in offered;
    FirstFitIsFirst(offered, w.stays, r.PartySize(), r.checkIn, r.checkOut);
    forall room | room in offered
      ensures Suits(w.stays, room, r.PartySize(), r.checkIn, r.checkOut) <==> Acceptable(w, r, room)
    {
      SuitsIsAcceptable(w, r, room);
    }
    forall room | Acceptable(w, r, room) ensures room in offered { AcceptableParts(w, r, room); }
    if s :| s in w.stays && s.id == id {
      var i :| 0 <= i < |w.stays| && w.stays[i] == s;
      assert IndexOf(w.stays, id) <= i;
    }
  }

  lemma {:induction false} LargestIsThere(rooms: seq<Room>)
    ensures Largest(rooms).Some? ==> exists room :: room in rooms && Largest(rooms) == Some(room.capacity)
  {
    if rooms != [] {
      LargestIsThere(rooms[1..]);
      assert rooms[0] in rooms;
    }
  }

  /** Cancelling an unknown reservation is refused; a known one is cancelled, and published, unless it already was; and
      nothing else changes. */
  lemma CancelsIff(w: World, id: string)
    ensures var (w', result) := CancelStep(w, id);
            && (result == Failure(ReservationNotFound) <==> forall s :: s in w.stays ==> s.id != id)
            && (result.Failure? ==> w' == w)
            && (result.Success? ==> result.value == CANCELLED)
            && forall i :: 0 <= i < |w.stays| && w.stays[i].id == id
                           && (forall j :: 0 <= j < i ==> w.stays[j].id != id) ==>
                 if w.stays[i].status == CANCELLED then w' == w
                 else w' == World(w.rooms, w.stays[i := w.stays[i].(status := CANCELLED)], w.log + [Cancelled(id)])
  {
    var k := IndexOf(w.stays, id);
    if k < |w.stays| { assert w.stays[k] in w.stays; }
  }

  lemma AcceptableParts(w: World, r: Request, room: Room)
    requires Acceptable(w, r, room)
    ensures room in w.rooms && room.kind == r.kind && r.PartySize() <= room.capacity
  {
  }

  // ----- runs

  datatype Op = Create(request: Request, cleared: Option<bool>, id: string) | Cancel(id: string)

  function Step(w: World, op: Op): World {
    match op
    case Create(r, cleared, id) => CreateStep(w, r, cleared, id).0
    case Cancel(id) => CancelStep(w, id).0
  }

  function After(w: World, ops: seq<Op>): World
    decreases ops
  {
    if ops == [] then w else After(Step(w, ops[0]), ops[1..])
  }

  predicate ShareDay(a: Stay, b: Stay) { a.checkIn <= b.checkOut && b.checkIn <= a.checkOut }

  ghost predicate NoClash(stays: seq<Stay>) {
    && (forall s :: s in stays ==> s.checkIn < s.checkOut)
    && forall i, j ::
         && 0 <= i < j < |stays| && stays[i].room == stays[j].room
         && stays[i].status == CONFIRMED && stays[j].status == CONFIRMED ==>
           !ShareDay(stays[i], stays[j])
  }

  ghost predicate IdsDiffer(stays: seq<Stay>) {
    forall i, j :: 0 <= i < j < |stays| ==> stays[i].id != stays[j].id
  }

  /** The published events about one reservation. */
  function EventsOf(log: seq<Event>, id: string): seq<Event> {
    if log == [] then []
    else EventsOf(log[..|log| - 1], id) + if log[|log| - 1].id == id then [log[|log| - 1]] else []
  }

  /** They are all the events of that reservation, in order. */
  lemma {:induction false} EventsOfAt(log: seq<Event>, id: string) returns (at: seq<nat>)
    ensures SubsequenceAt(log, EventsOf(log, id), at)
    ensures forall i :: 0 <= i < |log| ==> (i in at <==> log[i].id == id)
  {
    at := [];
    if log != [] {
      var n := |log| - 1;
      at := EventsOfAt(log[..n], id);
      if log[n].id == id { at := at + [n]; }
    }
  }

  function Expected(s: Stay): seq<Event> {
    [Confirmed(s.id)] + if s.status == CANCELLED then [Cancelled(s.id)] else []
  }

  ghost predicate LogOk(w: World) {
    && (forall s :: s in w.stays ==> EventsOf(w.log, s.id) == Expected(s))
    && forall e :: e in w.log ==> IndexOf(w.stays, e.id) < |w.stays|
  }

  ghost predicate Inv(w: World) { NoClash(w.stays) && IdsDiffer(w.stays) && LogOk(w) }

  lemma EventsAppend(log: seq<Event>, e: Event, id: string)
    ensures EventsOf(log + [e], id) == EventsOf(log, id) + if e.id == id then [e] else []
  {
    assert (log + [e])[..|log|] == log;
  }

  lemma {:induction false} NoEvents(log: seq<Event>, id: string)
    requires forall e :: e in log ==> e.id != id
    ensures EventsOf(log, id) == []
  {
    if log != [] { NoEvents(log[..|log| - 1], id); }
  }

  /** What a granted create adds. */
  lemma CreateAdds(w: World, r: Request, cleared: Option<bool>, id: string) returns (room: Room)
    requires CreateStep(w, r, cleared, id).1.Success?
    ensures Acceptable(w, r, room) && CreateStep(w, r, cleared, id).0.stays == w.stays + [NewStay(id, r, room)]
    ensures CreateStep(w, r, cleared, id).0 == World(w.rooms, w.stays + [NewStay(id, r, room)], w.log + [Confirmed(id)])
    ensures r.checkIn < r.checkOut && forall s :: s in w.stays ==> s.id != id
  {
    hide Acceptable;
    var offered := OfKind(w.rooms, r.kind);
    OfKindIsFilter(w.rooms, r.kind);
    FirstFitIsFirst(offered, w.stays, r.PartySize(), r.checkIn, r.checkOut);
    room := FirstFit(offered, w.stays, r.PartySize(), r.checkIn, r.checkOut).value;
    assert room in offered;
    SuitsIsAcceptable(w, r, room);
  }

  lemma CreateKeepsInv(w: World, r: Request, cleared: Option<bool>, id: string)
    requires Inv(w)
    ensures Inv(CreateStep(w, r, cleared, id).0)
  {
    hide CreateStep, IndexOf, EventsOf;
    var (w', result) := CreateStep(w, r, cleared, id);
    if result.Failure? {
      ErrChangesNothing(w, r, cleared, id);
    } else {
      var room := CreateAdds(w, r, cleared, id);
      var n := |w.stays|;
      forall i | 0 <= i < n && w.stays[i].room == room.id && w.stays[i].status == CONFIRMED
        ensures !ShareDay(w.stays[i], w'.stays[n])
      {
        assert w.stays[i] in w.stays;
      }
      forall i | 0 <= i < n ensures w.stays[i].id != id { assert w.stays[i] in w.stays; }
      assert NoClash(w'.stays) && IdsDiffer(w'.stays);
      CreateKeepsLog(w, w', NewStay(id, r, room));
    }
  }

  lemma ErrChangesNothing(w: World, r: Request, cleared: Option<bool>, id: string)
    requires CreateStep(w, r, cleared, id).1.Failure?
    ensures CreateStep(w, r, cleared, id).0 == w
  {
  }

  lemma CreateKeepsLog(w: World, w': World, stay: Stay)
    requires LogOk(w) && w'.stays == w.stays + [stay] && w'.log == w.log + [Confirmed(stay.id)]
            && stay.status == CONFIRMED
    requires forall s :: s in w.stays ==> s.id != stay.id
    ensures LogOk(w')
  {
    hide IndexOf, EventsOf;
    forall e | e in w.log ensures e.id != stay.id {
      assert w.stays[IndexOf(w.stays, e.id)] in w.stays;
    }
    NoEvents(w.log, stay.id);
    forall s | s in w'.stays ensures EventsOf(w'.log, s.id) == Expected(s) {
      EventsAppend(w.log, Confirmed(stay.id), s.id);
    }
    forall e | e in w'.log ensures IndexOf(w'.stays, e.id) < |w'.stays| {
      if e in w.log {
        assert w'.stays[IndexOf(w.stays, e.id)].id == e.id;
      } else {
        assert w'.stays[|w.stays|].id == e.id;
      }
    }
  }

  lemma CancelKeepsInv(w: World, id: string)
    requires Inv(w)
    ensures Inv(CancelStep(w, id).0)
  {
    hide IndexOf, EventsOf;
    var i := IndexOf(w.stays, id);
    var (w', _) := CancelStep(w, id);
    if w' != w {
      forall s | s in w'.stays ensures s.checkIn < s.checkOut && EventsOf(w'.log, s.id) == Expected(s) {
        var j :| 0 <= j < |w'.stays| && w'.stays[j] == s;
        assert w.stays[j] in w.stays;
        EventsAppend(w.log, Cancelled(id), s.id);
      }
      forall e | e in w'.log ensures IndexOf(w'.stays, e.id) < |w'.stays| {
        if e in w.log { assert w'.stays[IndexOf(w.stays, e.id)].id == e.id; } else { assert w'.stays[i].id == e.id; }
      }
    }
  }

  lemma {:induction false} InvAlways(w: World, ops: seq<Op>)
    requires Inv(w)
    ensures Inv(After(w, ops))
    decreases ops
  {
    hide Inv, CreateStep, CancelStep;
    if ops != [] {
      match ops[0] {
        case Create(r, cleared, id) => CreateKeepsInv(w, r, cleared, id);
        case Cancel(id) => CancelKeepsInv(w, id);
      }
      InvAlways(Step(w, ops[0]), ops[1..]);
    }
  }

  ghost predicate HasDay(s: Stay, day: int) { s.checkIn <= day <= s.checkOut }

  /** After any run, no day belongs to two confirmed reservations of one room, not even as the last day of one and
      the first of the other; and every reservation published one confirmation, then one cancellation exactly if it
      is cancelled. */
  lemma HotelRunIsSound(rooms: seq<Room>, ops: seq<Op>)
    ensures var w := After(World(rooms, [], []), ops);
            && (forall i, j, day :: 0 <= i < j < |w.stays| && w.stays[i].room == w.stays[j].room
                  && w.stays[i].status == CONFIRMED && w.stays[j].status == CONFIRMED
                  ==> !(HasDay(w.stays[i], day) && HasDay(w.stays[j], day)))
            && (forall s :: s in w.stays ==>
                  EventsOf(w.log, s.id)
                  == if s.status == CANCELLED then [Confirmed(s.id), Cancelled(s.id)] else [Confirmed(s.id)])
  {
    hide After, EventsOf;
    InvAlways(World(rooms, [], []), ops);
    var w := After(World(rooms, [], []), ops);
    forall i, j, day | 0 <= i < j < |w.stays| && w.stays[i].room == w.stays[j].room
                       && w.stays[i].status == CONFIRMED && w.stays[j].status == CONFIRMED
      ensures !(HasDay(w.stays[i], day) && HasDay(w.stays[j], day))
    {
      assert !ShareDay(w.stays[i], w.stays[j]);
    }
  }

  // ----- occupancy

  lemma {:induction false} NobodyThere(stays: seq<Stay>, room: string, day: int)
    requires forall s :: s in stays ==> !s.Occupies(room, day)
    ensures GuestsOn(stays, room, day) == 0
  {
    if stays != [] { NobodyThere(stays[1..], room, day); }
  }

  lemma {:induction false} OneStayThere(stays: seq<Stay>, room: string, day: int, i: nat)
    requires NoClash(stays) && i < |stays| && stays[i].Occupies(room, day)
    ensures GuestsOn(stays, room, day) == stays[i].guestCount
  {
    if i == 0 {
      forall s | s in stays[1..] ensures !s.Occupies(room, day) {
        var j :| 1 <= j < |stays| && stays[j] == s;
        assert stays[0].status == CONFIRMED;
        assert !(stays[j].status == CONFIRMED && stays[j].room == room && ShareDay(stays[0], stays[j]));
      }
      NobodyThere(stays[1..], room, day);
    } else {
      assert stays[i] == stays[1..][i - 1];
      assert !stays[0].Occupies(room, day) by {
        assert !(stays[0].room == stays[i].room && stays[0].status == CONFIRMED && ShareDay(stays[0], stays[i]));
      }
      OneStayThere(stays[1..], room, day, i - 1);
    }
  }

  /** The sum shown for a room is never a sum: it is nothing, or the guests of the one reservation that spans the
      day. */
  lemma OccupancyIsOneStay(rooms: seq<Room>, ops: seq<Op>, room: string, day: int)
    ensures var stays := After(World(rooms, [], []), ops).stays;
            if exists s :: s in stays && s.room == room && s.status == CONFIRMED && s.checkIn <= day < s.checkOut
            then exists s :: s in stays && s.room == room && s.status == CONFIRMED && s.checkIn <= day < s.checkOut
                             && GuestsOn(stays, room, day) == s.guestCount
            else GuestsOn(stays, room, day) == 0
  {
    hide After;
    InvAlways(World(rooms, [], []), ops);
    var stays := After(World(rooms, [], []), ops).stays;
    if s :| s in stays && s.Occupies(room, day) {
      var i :| 0 <= i < |stays| && stays[i] == s;
      OneStayThere(stays, room, day, i);
    } else {
      NobodyThere(stays, room, day);
    }
  }

  // ----- occupancy against capacity

  ghost predicate WithinCapacity(w: World) {
    forall room, day {:trigger GuestsOn(w.stays, room.id, day)} :: room in w.rooms ==>
        GuestsOn(w.stays, room.id, day) <= room.capacity
  }

  ghost predicate StaysFit(w: World) {
    forall s, room :: s in w.stays && room in w.rooms && s.status == CONFIRMED && s.room == room.id ==>
        s.guestCount <= room.capacity
  }

  ghost predicate Furnished(rooms: seq<Room>) {
    Ascending(rooms) && forall room :: room in rooms ==> room.capacity >= 0
  }

  lemma CapacityIsPerStay(w: World)
    requires NoClash(w.stays) && Furnished(w.rooms)
    ensures WithinCapacity(w) <==> StaysFit(w)
  {
    hide Ascending, GuestsOn;
    if WithinCapacity(w) {
      forall s, room | s in w.stays && room in w.rooms && s.status == CONFIRMED && s.room == room.id
        ensures s.guestCount <= room.capacity
      {
        var i :| 0 <= i < |w.stays| && w.stays[i] == s;
        OneStayThere(w.stays, room.id, s.checkIn, i);
      }
    }
    if StaysFit(w) {
      forall room, day | room in w.rooms ensures GuestsOn(w.stays, room.id, day) <= room.capacity {
        if s :| s in w.stays && s.Occupies(room.id, day) {
          var i :| 0 <= i < |w.stays| && w.stays[i] == s;
          OneStayThere(w.stays, room.id, day, i);
        } else {
          NobodyThere(w.stays, room.id, day);
        }
      }
    }
  }

  lemma RoomsDiffer(rooms: seq<Room>, a: Room, b: Room)
    requires Ascending(rooms) && a in rooms && b in rooms && a.id == b.id
    ensures a == b
  {
    hide Before;
    var i :| 0 <= i < |rooms| && rooms[i] == a;
    var j :| 0 <= j < |rooms| && rooms[j] == b;
    if i < j { BeforeIsStrict(a.id, b.id); }
    if j < i { BeforeIsStrict(b.id, a.id); }
  }

  /** A granted request keeps every room within its capacity exactly when its guest count fits the room it is given. */
  lemma CreateFitsIff(w: World, r: Request, cleared: Option<bool>, id: string)
    requires Inv(w) && Furnished(w.rooms) && WithinCapacity(w) && CreateStep(w, r, cleared, id).1.Success?
    ensures exists room ::
              && Acceptable(w, r, room)
              && CreateStep(w, r, cleared, id).0.stays == w.stays + [NewStay(id, r, room)]
              && (WithinCapacity(CreateStep(w, r, cleared, id).0) <==> r.guestCount <= room.capacity)
  {
    hide CreateStep, IndexOf, LogOk, WithinCapacity;
    var room := CreateAdds(w, r, cleared, id);
    var w' := CreateStep(w, r, cleared, id).0;
    CreateKeepsInv(w, r, cleared, id);
    CapacityIsPerStay(w);
    CapacityIsPerStay(w');
    if r.guestCount <= room.capacity {
      forall s, other | s in w'.stays && other in w.rooms && s.status == CONFIRMED && s.room == other.id
        ensures s.guestCount <= other.capacity
      {
        if s !in w.stays { RoomsDiffer(w.rooms, room, other); }
      }
    }
    if StaysFit(w') { assert w'.stays[|w.stays|] in w'.stays; }
  }

  /** The request names a party at least as large as the number of guests it books. */
  predicate CountsItsParty(op: Op) {
    op.Create? ==> op.request.guestCount <= op.request.PartySize()
  }

  lemma {:induction false} FitAlways(w: World, ops: seq<Op>)
    requires Inv(w) && Furnished(w.rooms) && WithinCapacity(w) && forall op :: op in ops ==> CountsItsParty(op)
    ensures WithinCapacity(After(w, ops)) && After(w, ops).rooms == w.rooms
    decreases ops
  {
    hide Inv, CreateStep, CancelStep, WithinCapacity, Furnished;
    if ops != [] {
      assert CountsItsParty(ops[0]);
      match ops[0] {
        case Create(r, cleared, id) =>
          CreateKeepsInv(w, r, cleared, id);
          if CreateStep(w, r, cleared, id).1.Success? {
            CreateFitsIff(w, r, cleared, id);
            var _ := CreateAdds(w, r, cleared, id);
          } else {
            ErrChangesNothing(w, r, cleared, id);
          }
        case Cancel(id) =>
          CancelKeepsInv(w, id);
          CancelFits(w, id);
      }
      FitAlways(Step(w, ops[0]), ops[1..]);
    }
  }

  lemma CancelFits(w: World, id: string)
    requires Inv(w) && Furnished(w.rooms) && WithinCapacity(w)
    ensures WithinCapacity(CancelStep(w, id).0) && CancelStep(w, id).0.rooms == w.rooms
  {
    hide IndexOf, LogOk, WithinCapacity;
    var w' := CancelStep(w, id).0;
    CancelKeepsInv(w, id);
    CapacityIsPerStay(w);
    CapacityIsPerStay(w');
    forall s, room | s in w'.stays && room in w'.rooms && s.status == CONFIRMED && s.room == room.id
      ensures s.guestCount <= room.capacity
    {
      var i :| 0 <= i < |w'.stays| && w'.stays[i] == s;
      assert w.stays[i] in w.stays;
    }
  }

  /** While every request books at most the people in its party, no room ever shows more guests than it holds. */
  lemma RoomsStayWithinCapacity(rooms: seq<Room>, ops: seq<Op>)
    requires Furnished(rooms) && forall op :: op in ops ==> CountsItsParty(op)
    ensures forall room, day {:trigger GuestsOn(After(World(rooms, [], []), ops).stays, room.id, day)} ::
              room in rooms ==> GuestsOn(After(World(rooms, [], []), ops).stays, room.id, day) <= room.capacity
  {
    FitAlways(World(rooms, [], []), ops);
  }

  /** And no weaker demand on a request will do: any request that books more guests than its party, and lists nobody
      twice, is granted by some empty hotel whose only room it then overfills. */
  lemma UncountedGuestsOverfill(r: Request, cleared: Option<bool>, id: string)
    requires r.checkIn < r.checkOut && cleared != Some(false) && NobodyTwice(r.Party()) && r.guestCount > r.PartySize()
    ensures exists rooms :: Furnished(rooms) && CreateStep(World(rooms, [], []), r, cleared, id).1.Success?
                            && !WithinCapacity(CreateStep(World(rooms, [], []), r, cleared, id).0)
  {
    var room := Room("101", r.kind, r.PartySize());
    var w := World([room], [], []);
    assert r.PartySize() >= 0;
    assert OfKind([], r.kind) == [] && OfKind(w.rooms, r.kind) == [room];
    assert Largest([]) == None && Largest([room]) == Some(room.capacity);
    assert Blocking([], room.id, r.checkIn, r.checkOut) == 0;
    assert FirstFit([room], [], r.PartySize(), r.checkIn, r.checkOut) == Some(room);
    var w' := CreateStep(w, r, cleared, id).0;
    assert w'.stays == [NewStay(id, r, room)];
    OneStayThere(w'.stays, room.id, r.checkIn, 0);
    assert room in w.rooms && Furnished(w.rooms);
    assert GuestsOn(w'.stays, room.id, r.checkIn) > room.capacity;
  }
}
