/** Whole runs of the airport: guests arriving, workers serving, gates opening and closing. */
module AirportRuns {
  import opened Wrappers
  import opened AirportQueue
  import opened AirportOrder
  import opened AirportFloor
  import opened AirportClosing

  /** The gates, everybody who was ever accepted, and everybody whose processing ended. */
  datatype World = World(floor: Floor, arrived: Queue, processed: Queue, timeEu: real, timeAll: real)

  datatype Op =
    | Assign(guest: Guest) | Start(id: string) | Finish(id: string) | Open(id: string, kind: string) | Close(id: string)

  /** A worker starts between bundles and finishes what it started; a gate is closed while its booth is empty. */
  predicate Enabled(w: World, op: Op) {
    match op
    case Start(id) => Find(w.floor, id) < |w.floor| && w.floor[Find(w.floor, id)].bundle == []
    case Finish(id) => Find(w.floor, id) < |w.floor| && w.floor[Find(w.floor, id)].bundle != []
    case Close(id) => Find(w.floor, id) < |w.floor| ==> w.floor[Find(w.floor, id)].booth.None?
    case _ => true
  }

  function Step(w: World, op: Op): World
    requires Enabled(w, op)
  {
    match op
    case Assign(guest) =>
      var (after, r) := AssignStep(w.floor, guest);
      if r.Success? then w.(floor := after, arrived := w.arrived + [guest]) else w
    case Start(id) =>
      var k := Find(w.floor, id);
      w.(floor := w.floor[k := Started(w.floor[k])])
    case Finish(id) =>
      var k := Find(w.floor, id);
      w.(floor := w.floor[k := Finished(w.floor[k])], processed := w.processed + w.floor[k].bundle)
    case Open(id, kind) => w.(floor := OpenStep(w.floor, id, kind, w.timeEu, w.timeAll).0)
    case Close(id) => w.(floor := CloseStep(w.floor, id).0)
  }

  predicate Runs(w: World, ops: seq<Op>)
    decreases ops
  {
    ops == [] || (Enabled(w, ops[0]) && Runs(Step(w, ops[0]), ops[1..]))
  }

  function After(w: World, ops: seq<Op>): World
    requires Runs(w, ops)
    decreases ops
  {
    if ops == [] then w else After(Step(w, ops[0]), ops[1..])
  }

  // ----- what every step keeps

  ghost predicate AllEligible(q: Queue, kind: string) { forall g :: g in q ==> Eligible(kind, g.passport) }

  ghost predicate StationOk(s: Station) {
    && Sorted(s.queue) && AllEligible(s.queue, s.kind) && AllEligible(s.bundle, s.kind)
    && s.booth == if s.bundle == [] then None else Some(s.bundle[0])
  }

  ghost predicate HasKind(floor: Floor, kind: string) { exists i :: 0 <= i < |floor| && floor[i].kind == kind }

  ghost predicate FloorOk(floor: Floor) {
    && DistinctIds(floor) && HasKind(floor, "EU") && HasKind(floor, "ALL")
    && forall i :: 0 <= i < |floor| ==> StationOk(floor[i])
  }

  /** Everybody accepted is waiting, being served, or processed, exactly once. */
  ghost predicate Conserved(w: World) {
    multiset(w.arrived) == People(AllQueues(w.floor)) + People(AllBundles(w.floor)) + multiset(w.processed)
  }

  ghost predicate Inv(w: World) { FloorOk(w.floor) && Conserved(w) }

  lemma OneStation(floor: Floor, k: nat, s: Station)
    requires FloorOk(floor) && k < |floor| && s.id == floor[k].id && s.kind == floor[k].kind && StationOk(s)
    ensures FloorOk(floor[k := s])
    ensures AllQueues(floor[k := s]) == AllQueues(floor)[k := s.queue]
    ensures AllBundles(floor[k := s]) == AllBundles(floor)[k := s.bundle]
  {
    hide StationOk;
    var eu :| 0 <= eu < |floor| && floor[eu].kind == "EU";
    var all :| 0 <= all < |floor| && floor[all].kind == "ALL";
    assert floor[k := s][eu].kind == "EU" && floor[k := s][all].kind == "ALL";
  }

  lemma SameQueue(qs: seq<Queue>, k: nat)
    requires k < |qs|
    ensures qs[k := qs[k]] == qs
  {
  }

  lemma JoinedOk(s: Station, guest: Guest)
    requires StationOk(s) && Eligible(s.kind, guest.passport)
    ensures StationOk(s.(queue := Insert(s.queue, guest)))
  {
    hide Sorted, Insert;
    InsertKeepsSorted(s.queue, guest);
    forall g | g in Insert(s.queue, guest) ensures Eligible(s.kind, g.passport) {
      assert g in multiset(s.queue) + multiset{guest};
    }
  }

  /** With a gate of each type, every guest finds a gate. */
  lemma AssignFinds(floor: Floor, guest: Guest) returns (k: nat)
    requires FloorOk(floor)
    ensures AssignStep(floor, guest).1.Success?
    ensures k < |floor| && AssignStep(floor, guest).1.value.gate == floor[k].id
    ensures k < |floor| && Eligible(floor[k].kind, guest.passport)
    ensures AssignStep(floor, guest).0 == floor[k := floor[k].(queue := Insert(floor[k].queue, guest))]
  {
    hide Insert, StationOk, DistinctIds;
    var eu, all := Shortest(floor, "EU"), Shortest(floor, "ALL");
    assert eu < |floor| && all < |floor|;
    k := if guest.passport == "EU" && |floor[all].queue| >= |floor[eu].queue| then eu else all;
  }

  lemma AssignKeepsInv(w: World, guest: Guest)
    requires Inv(w)
    ensures AssignStep(w.floor, guest).1.Success? && Inv(Step(w, Assign(guest)))
  {
    hide AssignStep, People, Insert, StationOk, FloorOk, Eligible, AllQueues, AllBundles;
    var floor := w.floor;
    var k := AssignFinds(floor, guest);
    var s := floor[k].(queue := Insert(floor[k].queue, guest));
    EachOk(floor, k);
    JoinedOk(floor[k], guest);
    OneStation(floor, k, s);
    OneMorePerson(AllQueues(floor), k, guest);
    SameQueue(AllBundles(floor), k);
    assert People(AllQueues(floor)) + multiset{guest} + People(AllBundles(floor)) + multiset(w.processed)
        == People(AllQueues(floor)) + People(AllBundles(floor)) + multiset(w.processed) + multiset{guest};
  }

  lemma EachOk(floor: Floor, k: nat)
    requires FloorOk(floor) && k < |floor|
    ensures StationOk(floor[k])
  {
  }

  lemma StartedOk(s: Station)
    requires StationOk(s) && s.bundle == []
    ensures StationOk(Started(s)) && multiset(Started(s).bundle) + multiset(Started(s).queue) == multiset(s.queue)
  {
    hide Sorted, Bundle, AfterPick, OutsideFamily, Family;
    var q, t := s.queue, Started(s);
    PickIsExact(q);
    if Bundle(q) != [] { OutsideKeepsSorted(q, Family(Bundle(q)[0])); }
    assert t.queue == AfterPick(q) && t.bundle == Bundle(q);
    assert Sorted(t.queue);
    forall g | g in t.queue || g in t.bundle ensures Eligible(s.kind, g.passport) {
      assert g in multiset(Bundle(q)) || g in multiset(AfterPick(q));
      assert g in multiset(q);
    }
    assert t.kind == s.kind;
    assert AllEligible(t.queue, t.kind);
    assert AllEligible(t.bundle, t.kind);
    assert t.booth == if t.bundle == [] then None else Some(t.bundle[0]);
  }

  lemma StartKeepsInv(w: World, id: string)
    requires Inv(w) && Enabled(w, Start(id))
    ensures Inv(Step(w, Start(id)))
  {
    hide StationOk, People, Started, FloorOk, AllQueues, AllBundles, Find;
    var floor, k := w.floor, Find(w.floor, id);
    var s := Started(floor[k]);
    EachOk(floor, k);
    StartedOk(floor[k]);
    StartedStays(floor[k]);
    OneStation(floor, k, s);
    PeopleUpdate(AllQueues(floor), k, s.queue);
    PeopleUpdate(AllBundles(floor), k, s.bundle);
    Balance(People(AllQueues(floor)), People(AllBundles(floor)), People(AllQueues(floor)[k := s.queue]),
        People(AllBundles(floor)[k := s.bundle]),
            multiset(floor[k].queue), multiset(s.queue), multiset(s.bundle));
  }

  lemma StartedStays(s: Station)
    ensures Started(s).id == s.id && Started(s).kind == s.kind
  {
  }

  /** Moving `part` of the people `whole` out of the queues and into the bundles. */
  lemma Balance(queues: multiset<Guest>, bundles: multiset<Guest>, queues': multiset<Guest>, bundles': multiset<Guest>,
                whole: multiset<Guest>, left: multiset<Guest>, part: multiset<Guest>)
    requires queues' + whole == queues + left && bundles' == bundles + part && part + left == whole
    ensures queues' + bundles' == queues + bundles
  {
    forall g ensures (queues' + bundles')[g] == (queues + bundles)[g] {
      assert (queues' + whole)[g] == (queues + left)[g] && (part + left)[g] == whole[g];
    }
  }

  lemma FinishKeepsInv(w: World, id: string)
    requires Inv(w) && Enabled(w, Finish(id))
    ensures Inv(Step(w, Finish(id)))
  {
    hide Sorted, People;
    var floor, k := w.floor, Find(w.floor, id);
    OneStation(floor, k, Finished(floor[k]));
    PeopleUpdate(AllBundles(floor), k, []);
    SameQueue(AllQueues(floor), k);
    assert People(AllBundles(floor)[k := []]) + multiset(floor[k].bundle) == People(AllBundles(floor));
  }

  lemma {:induction false} PeopleAppend(qs: seq<Queue>, q: Queue)
    ensures People(qs + [q]) == People(qs) + multiset(q)
  {
    if qs != [] {
      assert (qs + [q])[1..] == qs[1..] + [q];
      PeopleAppend(qs[1..], q);
    }
  }

  lemma OpenKeepsInv(w: World, id: string, kind: string)
    requires Inv(w)
    ensures Inv(Step(w, Open(id, kind)))
  {
    hide FloorOk, People;
    var floor, after := w.floor, Step(w, Open(id, kind)).floor;
    if after != floor {
      var s := after[|floor|];
      OneMoreStation(floor, s);
      PeopleAppend(AllQueues(floor), []);
      PeopleAppend(AllBundles(floor), []);
      assert AllQueues(after) == AllQueues(floor) + [[]] && AllBundles(after) == AllBundles(floor) + [[]];
    }
  }

  lemma OneMoreStation(floor: Floor, s: Station)
    requires FloorOk(floor) && Find(floor, s.id) == |floor| && s.queue == [] && s.bundle == [] && s.booth.None?
    ensures FloorOk(floor + [s])
  {
    hide StationOk, Find;
    EmptyIsOk(s);
    forall i | 0 <= i < |floor| ensures floor[i].id != s.id { assert i < Find(floor, s.id); }
    var eu :| 0 <= eu < |floor| && floor[eu].kind == "EU";
    var all :| 0 <= all < |floor| && floor[all].kind == "ALL";
    assert (floor + [s])[eu].kind == "EU" && (floor + [s])[all].kind == "ALL";
  }

  lemma EmptyIsOk(s: Station)
    requires s.queue == [] && s.bundle == [] && s.booth.None?
    ensures StationOk(s)
  {
  }

  // ----- closing

  /** Each gate after a close is one from before, with its own queue or, if of the type, one of `qs`. */
  ghost predicate Comes(floor: Floor, kind: string, except: string, qs: seq<Queue>, s: Station) {
    exists i :: 0 <= i < |floor| && floor[i].id != except && s == floor[i].(queue := s.queue)
                && (s.queue == floor[i].queue || (floor[i].kind == kind && s.queue in qs))
  }

  lemma ComesLater(floor: Floor, kind: string, except: string, qs: seq<Queue>, more: seq<Queue>, s: Station)
    requires floor != [] && Comes(floor[1..], kind, except, qs, s) && forall q :: q in qs ==> q in more
    ensures Comes(floor, kind, except, more, s)
  {
    var i :| 0 <= i < |floor| - 1 && floor[1..][i].id != except && s == floor[1..][i].(queue := s.queue)
             && (s.queue == floor[1..][i].queue || (floor[1..][i].kind == kind && s.queue in qs));
    assert floor[i + 1] == floor[1..][i];
  }

  lemma {:induction false} SpreadComes(floor: Floor, kind: string, except: string, qs: seq<Queue>)
    ensures forall s :: s in Spread(floor, kind, except, qs) ==> Comes(floor, kind, except, qs, s)
  {
    if floor != [] {
      var t := floor[1..];
      var less := if floor[0].id != except && floor[0].kind == kind && qs != [] then qs[1..] else qs;
      SpreadComes(t, kind, except, less);
      forall s | s in Spread(floor, kind, except, qs) ensures Comes(floor, kind, except, qs, s) {
        if s in Spread(t, kind, except, less) {
          ComesLater(floor, kind, except, less, qs, s);
        } else {
          assert s == floor[0].(queue := s.queue) && floor[0].id != except;
        }
      }
    }
  }

  lemma {:induction false} SpreadDistinct(floor: Floor, kind: string, except: string, qs: seq<Queue>)
    requires DistinctIds(floor)
    ensures DistinctIds(Spread(floor, kind, except, qs))
  {
    hide Comes;
    if floor != [] {
      var t := floor[1..];
      var less := if floor[0].id != except && floor[0].kind == kind && qs != [] then qs[1..] else qs;
      SpreadDistinct(t, kind, except, less);
      var rest := Spread(t, kind, except, less);
      forall i | 0 <= i < |rest| ensures rest[i].id != floor[0].id {
        SpreadComes(t, kind, except, less);
        ComesFromRest(floor, kind, except, less, rest[i]);
      }
    }
  }

  lemma ComesFromRest(floor: Floor, kind: string, except: string, qs: seq<Queue>, s: Station)
    requires floor != [] && DistinctIds(floor) && Comes(floor[1..], kind, except, qs, s)
    ensures s.id != floor[0].id
  {
    var i :| 0 <= i < |floor| - 1 && floor[1..][i].id != except && s == floor[1..][i].(queue := s.queue);
    assert floor[i + 1] == floor[1..][i];
  }

  lemma {:induction false} SpreadKeepsKind(floor: Floor, kind: string, except: string, qs: seq<Queue>, i: nat)
    requires i < |floor| && floor[i].id != except
    ensures HasKind(Spread(floor, kind, except, qs), floor[i].kind)
  {
    var t, after := floor[1..], Spread(floor, kind, except, qs);
    if i == 0 {
      assert after[0].kind == floor[0].kind;
    } else {
      var less := if floor[0].id != except && floor[0].kind == kind && qs != [] then qs[1..] else qs;
      var rest := Spread(t, kind, except, less);
      assert t[i - 1] == floor[i];
      SpreadKeepsKind(t, kind, except, less, i - 1);
      var j :| 0 <= j < |rest| && rest[j].kind == floor[i].kind;
      assert after[|after| - |rest| + j] == rest[j];
    }
  }

  lemma AllBundlesFirst(s: Station, t: Floor)
    ensures People(AllBundles([s] + t)) == multiset(s.bundle) + People(AllBundles(t))
  {
    assert AllBundles([s] + t) == [s.bundle] + AllBundles(t);
    PeopleFirst(s.bundle, AllBundles(t));
  }

  lemma {:induction false} SpreadKeepsBundles(floor: Floor, kind: string, except: string, qs: seq<Queue>)
    requires forall i :: 0 <= i < |floor| && floor[i].id == except ==> floor[i].bundle == []
    ensures People(AllBundles(Spread(floor, kind, except, qs))) == People(AllBundles(floor))
  {
    hide People, AllBundles;
    if floor != [] {
      var s, t := floor[0], floor[1..];
      assert floor == [s] + t;
      AllBundlesFirst(s, t);
      if s.id != except && s.kind == kind && qs != [] {
        SpreadKeepsBundles(t, kind, except, qs[1..]);
        AllBundlesFirst(s.(queue := qs[0]), Spread(t, kind, except, qs[1..]));
      } else {
        SpreadKeepsBundles(t, kind, except, qs);
        AllBundlesFirst(s, Spread(t, kind, except, qs));
      }
    }
  }

  lemma {:induction false} InPeople(qs: seq<Queue>, i: nat, g: Guest)
    requires i < |qs| && g in qs[i]
    ensures g in People(qs)
  {
    if i > 0 { InPeople(qs[1..], i - 1, g); }
  }

  lemma {:induction false} EligiblePeople(qs: seq<Queue>, kind: string)
    requires forall i :: 0 <= i < |qs| ==> AllEligible(qs[i], kind)
    ensures forall g :: g in People(qs) ==> Eligible(kind, g.passport)
  {
    if qs != [] { EligiblePeople(qs[1..], kind); }
  }

  lemma {:induction false} QueuesOfComeFrom(floor: Floor, kind: string, except: string)
    requires forall i :: 0 <= i < |floor| ==> StationOk(floor[i])
    ensures AllSorted(QueuesOf(floor, kind, except))
    ensures forall i :: 0 <= i < |QueuesOf(floor, kind, except)| ==> AllEligible(QueuesOf(floor, kind, except)[i], kind)
    ensures QueuesOf(floor, kind, except) != [] ==>
            exists i :: 0 <= i < |floor| && floor[i].kind == kind && floor[i].id != except
  {
    hide Sorted, AllEligible;
    if floor != [] {
      var t := floor[1..];
      forall i | 0 <= i < |t| ensures StationOk(t[i]) { assert t[i] == floor[i + 1]; }
      QueuesOfComeFrom(t, kind, except);
      if i :| 0 <= i < |t| && t[i].kind == kind && t[i].id != except { assert floor[i + 1] == t[i]; }
    }
  }

  /** The queues after a close: in rank order, and of guests whose passport the type allows. */
  lemma SpreadQueuesOk(floor: Floor, k: nat)
    requires FloorOk(floor) && k < |floor|
    requires QueuesOf(floor, floor[k].kind, floor[k].id) != []
    ensures var r := Redistribute(QueuesOf(floor, floor[k].kind, floor[k].id), floor[k].Displaced());
            AllSorted(r) && forall i :: 0 <= i < |r| ==> AllEligible(r[i], floor[k].kind)
  {
    hide Sorted, Redistribute, People, QueuesOf;
    var qs, s := QueuesOf(floor, floor[k].kind, floor[k].id), floor[k];
    QueuesOfComeFrom(floor, s.kind, s.id);
    ClosingIsSound(qs, s);
    RedistributeConserves(qs, s.Displaced());
    EligiblePeople(qs, s.kind);
    var r := Redistribute(qs, s.Displaced());
    forall i, g: Guest | 0 <= i < |r| && g in r[i] ensures Eligible(s.kind, g.passport) {
      InPeople(r, i, g);
      assert g in People(qs) + multiset(s.Displaced());
    }
  }

  lemma CloseKeepsInv(w: World, id: string)
    requires Inv(w) && Enabled(w, Close(id))
    ensures Inv(Step(w, Close(id)))
  {
    hide Sorted, Redistribute, People, QueuesOf, Spread, AllQueues, AllBundles, AllEligible, Find, Comes;
    var floor, k := w.floor, Find(w.floor, id);
    if CloseStep(floor, id).1.Success? {
      var s := floor[k];
      var qs := QueuesOf(floor, s.kind, id);
      var r := Redistribute(qs, s.Displaced());
      ClosingKeepsPeopleIffBoothEmpty(floor, id);
      forall i | 0 <= i < |floor| && floor[i].id == id ensures floor[i].bundle == [] { assert i == k; }
      SpreadKeepsBundles(floor, s.kind, id, r);
      SpreadDistinct(floor, s.kind, id, r);
      SpreadQueuesOk(floor, k);
      SpreadComes(floor, s.kind, id, r);
      forall i | 0 <= i < |Spread(floor, s.kind, id, r)| ensures StationOk(Spread(floor, s.kind, id, r)[i]) {
        ComesOk(floor, s.kind, id, r, Spread(floor, s.kind, id, r)[i]);
      }
      SpreadKeepsKinds(floor, k, r);
    }
  }

  lemma SpreadKeepsKinds(floor: Floor, k: nat, r: seq<Queue>)
    requires FloorOk(floor) && k < |floor| && QueuesOf(floor, floor[k].kind, floor[k].id) != []
    ensures HasKind(Spread(floor, floor[k].kind, floor[k].id, r), "EU")
            && HasKind(Spread(floor, floor[k].kind, floor[k].id, r), "ALL")
  {
    hide QueuesOf, Spread, StationOk;
    QueuesOfComeFrom(floor, floor[k].kind, floor[k].id);
    var other :| 0 <= other < |floor| && floor[other].kind == floor[k].kind && floor[other].id != floor[k].id;
    var eu :| 0 <= eu < |floor| && floor[eu].kind == "EU";
    var all :| 0 <= all < |floor| && floor[all].kind == "ALL";
    var eu', all' := if eu == k then other else eu, if all == k then other else all;
    assert floor[eu'].id != floor[k].id && floor[all'].id != floor[k].id;
    SpreadKeepsKind(floor, floor[k].kind, floor[k].id, r, eu');
    SpreadKeepsKind(floor, floor[k].kind, floor[k].id, r, all');
  }

  lemma ComesOk(floor: Floor, kind: string, except: string, qs: seq<Queue>, s: Station)
    requires Comes(floor, kind, except, qs, s) && AllSorted(qs)
    requires forall i :: 0 <= i < |floor| ==> StationOk(floor[i])
    requires forall i :: 0 <= i < |qs| ==> AllEligible(qs[i], kind)
    ensures StationOk(s)
  {
    hide Sorted, AllEligible;
    var i :| 0 <= i < |floor| && floor[i].id != except && s == floor[i].(queue := s.queue)
             && (s.queue == floor[i].queue || (floor[i].kind == kind && s.queue in qs));
    if s.queue in qs {
      var j :| 0 <= j < |qs| && qs[j] == s.queue;
      assert s.queue == floor[i].queue || AllEligible(qs[j], kind);
    }
  }

  // ----- runs

  lemma {:induction false} InvAlways(w: World, ops: seq<Op>)
    requires Inv(w) && Runs(w, ops)
    ensures Inv(After(w, ops))
    decreases ops
  {
    hide Inv, Step, Enabled;
    if ops != [] {
      match ops[0] {
        case Assign(guest) => AssignKeepsInv(w, guest);
        case Start(id) => StartKeepsInv(w, id);
        case Finish(id) => FinishKeepsInv(w, id);
        case Open(id, kind) => OpenKeepsInv(w, id, kind);
        case Close(id) => CloseKeepsInv(w, id);
      }
      InvAlways(Step(w, ops[0]), ops[1..]);
    }
  }

  function FreshStart(eu: int, all: int, timeEu: real, timeAll: real): World {
    World(Initial(eu, all, timeEu, timeAll), [], [], timeEu, timeAll)
  }

  lemma {:induction false} NoPeopleIn(qs: seq<Queue>)
    requires forall i :: 0 <= i < |qs| ==> qs[i] == []
    ensures People(qs) == multiset{}
  {
    if qs != [] { NoPeopleIn(qs[1..]); }
  }

  lemma FreshStartIsOk(eu: int, all: int, timeEu: real, timeAll: real)
    requires eu >= 1 && all >= 1
    ensures Inv(FreshStart(eu, all, timeEu, timeAll))
  {
    hide StationOk, People;
    var floor := Initial(eu, all, timeEu, timeAll);
    InitialIsDistinct(eu, all, timeEu, timeAll);
    assert floor[0].kind == "EU" && floor[|floor| - 1].kind == "ALL";
    forall i | 0 <= i < |floor| ensures StationOk(floor[i]) { EmptyIsOk(floor[i]); }
    NoPeopleIn(AllQueues(floor));
    NoPeopleIn(AllBundles(floor));
  }

  /** Over any run of the whole airport from a fresh start with a gate of each type: no arriving guest is ever
      refused; everybody who arrived is waiting at one gate, being served by one, or processed, exactly once; every
      queue is in rank order; and nobody waits at, or is served by, a gate the passport does not allow. */
  lemma NobodyIsLost(eu: int, all: int, timeEu: real, timeAll: real, ops: seq<Op>, guest: Guest)
    requires eu >= 1 && all >= 1 && Runs(FreshStart(eu, all, timeEu, timeAll), ops)
    ensures var w := After(FreshStart(eu, all, timeEu, timeAll), ops);
            && AssignStep(w.floor, guest).1.Success?
            && multiset(w.arrived) == People(AllQueues(w.floor)) + People(AllBundles(w.floor)) + multiset(w.processed)
            && forall i :: 0 <= i < |w.floor| ==>
                 && InPrecedence(w.floor[i].queue)
                 && forall g :: g in w.floor[i].queue || g in w.floor[i].bundle ==>
                     Eligible(w.floor[i].kind, g.passport)
  {
    hide Runs, After, Sorted, InPrecedence, AssignStep, People;
    FreshStartIsOk(eu, all, timeEu, timeAll);
    InvAlways(FreshStart(eu, all, timeEu, timeAll), ops);
    AssignKeepsInv(After(FreshStart(eu, all, timeEu, timeAll), ops), guest);
    var floor := After(FreshStart(eu, all, timeEu, timeAll), ops).floor;
    forall i | 0 <= i < |floor| ensures InPrecedence(floor[i].queue) { SortedIffInPrecedence(floor[i].queue); }
  }

  // ----- the order of every queue

  /** The guests assigned or moved to the gate `id` and not yet taken up there by a worker, in the order they came. */
  function WaitingAt(w: World, ops: seq<Op>, id: string, log: Queue): Queue
    requires Runs(w, ops)
    decreases ops
  {
    if ops == [] then log else WaitingAt(Step(w, ops[0]), ops[1..], id, Logged(w, ops[0], id, log))
  }

  function Logged(w: World, op: Op, id: string, log: Queue): Queue
    requires Enabled(w, op)
  {
    match op
    case Assign(guest) =>
      var r := AssignStep(w.floor, guest).1;
      if r.Success? && r.value.gate == id then log + [guest] else log
    case Start(at) =>
      var bundle := Bundle(w.floor[Find(w.floor, at)].queue);
      if at == id && bundle != [] then OutsideFamily(log, Family(bundle[0])) else log
    case Close(at) =>
      var k, i := Find(w.floor, at), Find(w.floor, id);
      if CloseStep(w.floor, at).1.Failure? || i == |w.floor| then log
      else if at == id then []
      else log + SentTo(w.floor[k].queue, Targets(w.floor, k, w.floor[k].queue), i)
    case _ => log
  }

  /** The gate's queue is the stable sort of its log; a gate that is not there yet has none. */
  ghost predicate InOrder(floor: Floor, id: string, log: Queue) {
    var k := Find(floor, id);
    if k < |floor| then floor[k].queue == ByRank(log) else log == []
  }

  lemma FindKeeps(floor: Floor, k: nat, s: Station, id: string)
    requires k < |floor| && s.id == floor[k].id
    ensures Find(floor[k := s], id) == Find(floor, id)
  {
    hide Find;
    FindIs(floor[k := s], id, Find(floor, id));
  }

  lemma FindLater(floor: Floor, s: Station, id: string)
    ensures var k := Find(floor, id);
            Find(floor + [s], id) == if k < |floor| || s.id == id then k else k + 1
  {
    hide Find;
    var k := Find(floor, id);
    FindIs(floor + [s], id, if k < |floor| || s.id == id then k else k + 1);
  }

  lemma AssignKeepsOrder(w: World, guest: Guest, id: string, log: Queue)
    requires Inv(w) && InOrder(w.floor, id, log)
    ensures InOrder(Step(w, Assign(guest)).floor, id, Logged(w, Assign(guest), id, log))
  {
    hide AssignStep, Insert, Find, StationOk, ByRank, Conserved;
    var floor := w.floor;
    var k := AssignFinds(floor, guest);
    var s := floor[k].(queue := Insert(floor[k].queue, guest));
    FindKeeps(floor, k, s, id);
    var at := Find(floor, id);
    if floor[k].id == id {
      assert at == k;
      InsertKeepsArrivalOrder(log, guest);
    }
  }

  lemma StartKeepsOrder(w: World, at: string, id: string, log: Queue)
    requires Inv(w) && Enabled(w, Start(at)) && InOrder(w.floor, id, log)
    ensures InOrder(Step(w, Start(at)).floor, id, Logged(w, Start(at), id, log))
  {
    hide Find, StationOk, ByRank, Conserved, Bundle, AfterPick, Family, OutsideFamily;
    var floor, k := w.floor, Find(w.floor, at);
    FindKeeps(floor, k, Started(floor[k]), id);
    if at == id {
      PickIsExact(floor[k].queue);
      var bundle := Bundle(floor[k].queue);
      if bundle != [] { RemovalKeepsArrivalOrder(log, Family(bundle[0])); }
    }
  }

  lemma QuietKeepsOrder(w: World, op: Op, id: string, log: Queue)
    requires Enabled(w, op) && (op.Finish? || op.Open?) && InOrder(w.floor, id, log)
    ensures InOrder(Step(w, op).floor, id, Logged(w, op, id, log))
  {
    hide Find, ByRank;
    var floor, after := w.floor, Step(w, op).floor;
    if op.Finish? {
      var k := Find(floor, op.id);
      FindKeeps(floor, k, Finished(floor[k]), id);
    } else if after != floor {
      FindLater(floor, after[|floor|], id);
      NobodySorted();
    }
  }

  lemma CloseKeepsOrder(w: World, at: string, id: string, log: Queue)
    requires Inv(w) && Enabled(w, Close(at)) && InOrder(w.floor, id, log)
    ensures InOrder(Step(w, Close(at)).floor, id, Logged(w, Close(at), id, log))
  {
    hide CloseStep, Find, StationOk, ByRank, Conserved, Targets, SentTo;
    var floor := w.floor;
    var k, i := Find(floor, at), Find(floor, id);
    CloseFails(floor, at);
    if CloseStep(floor, at).1.Success? {
      assert floor[k].Displaced() == floor[k].queue;
      FindAfterClose(floor, k, id);
      if i < |floor| && i != k { GateAfterClose(floor, k, i, log); }
      CloseSucceeds(floor, k);
    }
  }

  lemma CloseFails(floor: Floor, at: string)
    ensures CloseStep(floor, at).1.Failure? ==> CloseStep(floor, at).0 == floor
    ensures CloseStep(floor, at).1.Success? ==> Find(floor, at) < |floor|
  {
  }

  lemma NobodySorted()
    ensures ByRank([]) == []
  {
  }

  lemma {:induction false} OrderAlways(w: World, ops: seq<Op>, id: string, log: Queue)
    requires Inv(w) && Runs(w, ops) && InOrder(w.floor, id, log)
    ensures InOrder(After(w, ops).floor, id, WaitingAt(w, ops, id, log))
    decreases ops
  {
    hide Inv, Step, Enabled, InOrder, Logged;
    if ops != [] {
      var op := ops[0];
      match op {
        case Assign(guest) => AssignKeepsInv(w, guest); AssignKeepsOrder(w, guest, id, log);
        case Start(at) => StartKeepsInv(w, at); StartKeepsOrder(w, at, id, log);
        case Finish(at) => FinishKeepsInv(w, at); QuietKeepsOrder(w, op, id, log);
        case Open(at, kind) => OpenKeepsInv(w, at, kind); QuietKeepsOrder(w, op, id, log);
        case Close(at) => CloseKeepsInv(w, at); CloseKeepsOrder(w, at, id, log);
      }
      OrderAlways(Step(w, op), ops[1..], id, Logged(w, op, id, log));
    }
  }

  /** Over any run of the whole airport, every gate's queue is the stable sort by rank of the guests assigned or, when
      another gate closed, moved to that gate and still waiting, in the order they came there. */
  lemma QueuesAreStableSorts(eu: int, all: int, timeEu: real, timeAll: real, ops: seq<Op>, k: nat)
    requires eu >= 1 && all >= 1 && Runs(FreshStart(eu, all, timeEu, timeAll), ops)
    requires k < |After(FreshStart(eu, all, timeEu, timeAll), ops).floor|
    ensures var w := FreshStart(eu, all, timeEu, timeAll);
            var s := After(w, ops).floor[k];
            s.queue == ByRank(WaitingAt(w, ops, s.id, []))
            && exists at :: Arranged(s.queue, WaitingAt(w, ops, s.id, []), at)
  {
    hide Runs, After, WaitingAt, ByRank, Find, Arranged;
    var w := FreshStart(eu, all, timeEu, timeAll);
    FreshStartIsOk(eu, all, timeEu, timeAll);
    InvAlways(w, ops);
    NobodySorted();
    var floor := After(w, ops).floor;
    OrderAlways(w, ops, floor[k].id, []);
    assert Find(floor, floor[k].id) == k;
    var at := ByRankIsArranged(WaitingAt(w, ops, floor[k].id, []));
  }
}
