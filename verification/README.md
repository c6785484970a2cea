# Island services: a verified model

The repository is a set of small services behind a gateway. This project models the ones that keep real
algorithmic state and proves what they keep over whole runs and over every interleaving:

- the airport's gates (`Airport*`, `Balancing`): stable priority queues, family bundles pulled out of the middle of a
  queue, shortest-queue assignment, redistribution when a gate closes, whole runs of all gates, and the cursor-paged
  arrivals listing;
- the gateway's single-flight response cache (`Gateway*`) and its fixed-window rate limiter (`RateLimiter`,
  `SlidingWindow`, `Counting`);
- the parrot's conversation store, streaming tool loop, transcript and profanity filter (`Parrot*`);
- the broadcast bus and its event-stream reader (`Broadcast*`), with the JSON between them;
- the beach's, the crab's, the goat farm's and the hotel's stock and bookings (`Beach`, `Crab`, `GoatFarm`, `Hotel`).

Code that updates objects in place is a class here, with the same fields. Its methods are proved against functions of
the old state (`ByRank`, `AssignStep`, `CloseStep`, `Trimmed`, `BookStep`, `Drain`, ...), and the theorems are lemmas about those
functions over runs of operations. What such a function means is stated a second time, in the fields, positions and
literals of the service (`AirportOrder`, `AirportClosing`, `ParrotTurns`, `ParrotWords`, `BroadcastFrames`, and lemmas beside the
others). The cache handler is a transition system: each move is what one request does between
two lock acquisitions, channel operations or backend calls, and a run is any interleaving of moves, arrivals and time.
Clocks, fresh ids, backend answers, model output and tool results are parameters.

`dafny verify dfyconfig.toml` checks everything.

## What the code does not do

Each of these is a claim, made by the code's own comments or suggested by its names, that the code does not meet in
general. Each has a lemma that says exactly when it does, or a concrete run where it does not.

- Closing a gate keeps every guest once exactly when its booth is empty: a guest in the booth is queued again while the
  worker still finishes the bundle (`AirportFloor.ClosingKeepsPeopleIffBoothEmpty`).
- `get_estimated_wait` says it returns nothing for held guests, and 0 for the guest being processed
  (services/airport/gate_manager.py:314-317). It returns nothing exactly for guests neither in the booth nor in the queue
  (`AirportFloor.EstimateIffAtGate`). So whoever a worker passes over, and so makes held, keeps an estimate
  (`AirportGate.HeldGuestHasEstimate`, `AirportGate.LoneMinorHasEstimate`), and of the guests being processed together
  exactly the leader gets 0 and the others nothing (`AirportFloor.ServedTogetherEstimates`).
- The estimate counts waiting guests, not bundles. Counted in whole bundles, and while nobody arrives, it is the exact wait
  exactly when the guest and everybody in front are of families with an adult and no two up to the guest share a family.
  For a guest whose family has an adult it is otherwise too long; for any other guest it is too short, as no bundle ever
  comes (`AirportWaiting.EstimateIsExactIff`, with `EstimateCanBeTooLong` and `EstimateCanBeTooShort`).
- The backend is not asked once for each key and ttl (gateway/cache.go:23-27). A move takes its request to the backend
  beside a fresh entry exactly when the request missed and finds no open flight of its key, or waited for a flight that
  closed without a response to replay, and somebody stored, since its lookup, a response that has not expired
  (`GatewayTheorems.AsksBesideFreshIff`). Both ways happen (`SecondFlightBesideFreshEntry`,
  `FollowerAsksBesideFreshEntry`). Two requests of a key are at the backend at the same time only if one of them gave up
  on a flight with nothing to replay (`OverlapNeedsUnreplayableFlight`), and that happens (`FollowerAsksBesideLeader`).
- The captured status is the client's exactly when the handler answers and does not begin with an informational status;
  a response behind such a status is never cached (`GatewayCapture.CapturedStatusIsClientsIff`).
- A coalesced hit is not always fresh: when the leader stalls between storing and closing its flight for longer than the
  ttl, a request that arrives after the expiry still joins and replays the expired page (`GatewayTheorems.StaleHit`).
  A hit is fresh exactly when it came out of the entry table (`HitsAreFreshIffFromTable`).
- The token deltas add up to the final reply (services/parrot/llm.py:285-288) exactly when the turn answers and streamed
  something, or runs out of rounds and streamed nothing (`ParrotChat.ChatStream`).
- A transcript row shows its own call's name exactly when the last named call of its group with that id has the same
  name, and a call without a name shows none exactly when no call of its group with that id has one
  (`ParrotAdmin.RowShowsOwnName`).
- The hotel checks capacity against the party but stores the guest count. A room stays within its capacity exactly when
  the stored count fits; no demand on a grantable request weaker than a count of at most the party ensures this
  (`Hotel.CreateFitsIff`, `Hotel.RoomsStayWithinCapacity`, `Hotel.UncountedGuestsOverfill`).
- `limit=0` on the arrivals listing is let through and then fails on the last row of an empty page, exactly when there is
  a row to show (`AirportListing.CrashesIffLimitIsZero`).

## Model

| member | source | states |
|---|---|---|
| AirportQueue.ByRankIsStableSort | services/airport/gate_manager.py:13-19 | the reference order: ranks ascending, arrival order within a rank, nobody lost |
| AirportQueue.StableSortIsUnique | services/airport/gate_manager.py:36-44 | a sorted queue whose rank classes are those of a log is the stable sort of that log |
| AirportQueue.InsertKeepsArrivalOrder | services/airport/gate_manager.py:36-44 | inserting before the first guest of a later rank equals appending to the arrival log and sorting stably |
| AirportQueue.InsertKeepsSorted | services/airport/gate_manager.py:36-44 | insertion keeps rank order and adds exactly the new guest |
| AirportQueue.RemovalKeepsArrivalOrder | services/airport/gate_manager.py:72-78 | removing a surname group from the queue equals removing it from the log and sorting |
| AirportQueue.OutsideKeepsSorted | services/airport/gate_manager.py:72-78 | removing a surname group keeps rank order |
| AirportQueue.FirstServable | services/airport/gate_manager.py:60-70 | the first index whose surname group, in this queue, holds somebody aged 12 or over |
| AirportQueue.BundleIsWholeFamily | services/airport/gate_manager.py:58-81 | the bundle is the leader's whole group: no member of it was passed over before the leader |
| AirportQueue.PickIsExact | services/airport/gate_manager.py:58-81 | bundle and remainder are the old queue; the remainder is the old queue in order minus one whole group; the bundle has an adult; there is none exactly when nobody is 12 |
| AirportQueue.QueueIsStableSortOfWaiting | services/airport/gate_manager.py:36-81 | after any run of arrivals and picks the queue is the stable sort of those still waiting |
| AirportOrder.RankIsPrecedence | services/airport/gate_manager.py:13-19 | one guest ranks before another exactly when disability, and then the fast priority, puts the one in front |
| AirportOrder.PrioritiesThenArrival | services/airport/gate_manager.py:36-81 | after any run from an empty queue, in the guests' own fields: nobody without a disability in front of somebody with one, among those without nobody else in front of a fast guest, and all others as they arrived |
| AirportOrder.ByRankIsArranged | services/airport/gate_manager.py:36-44 | the stable sort of a log is its guests, each once, by precedence and then by arrival |
| AirportOrder.InsertPutsIn | services/airport/gate_manager.py:36-44 | an arrival is put behind those not to be overtaken and in front of everybody the guest precedes |
| AirportOrder.FamilyIsSurname | services/airport/gate_manager.py:53-56 | two guests are of one group exactly when their surnames differ at most in the case of letters |
| AirportOrder.PickTakesOneSurname | services/airport/gate_manager.py:50-81 | a pick takes nobody exactly when everybody is under 12; otherwise the first guest whose surname somebody of 12 or over shares, then the others of that surname from the back, and leaves all others in order |
| AirportOrder.WaitIsBounded | services/airport/gate_manager.py:36-81 | bounded waiting in the guests' own fields: somebody of the surname is 12 or over, so the guest is served within i + 1 picks plus one for each arrival who precedes the guest |
| AirportWaiting.Progress | services/airport/gate_manager.py:36-81 | where a servable guest is after any run: served by a known bundle, or at most so many places back |
| AirportWaiting.BoundedWaiting | services/airport/gate_manager.py:36-81 | a guest at index i whose group has an adult is served within i + 1 picks plus one for each overtaking arrival |
| AirportWaiting.IndexNeverGrows | services/airport/gate_manager.py:36-81 | while only guests of the same or later rank arrive, the index of a waiting guest never grows |
| AirportWaiting.EstimateBoundsWait | services/airport/gate_manager.py:308-331 | the live estimate bounds the booth's processing time and that of the bundles before the guest's |
| AirportWaiting.ExactWait | services/airport/gate_manager.py:58-81 | while nobody arrives, a family with an adult is served, whole, by the bundle whose number is the number of such families with a member in front of its first, and by none before |
| AirportWaiting.WaitIsIndexIff | services/airport/gate_manager.py:58-81 | that number is at most the guest's index, and equal to it exactly when everybody in front is servable and nobody up to the guest shares a family |
| AirportWaiting.FirstServedIs | services/airport/gate_manager.py:58-81 | while nobody arrives, the first bundle with the guest in it has that number, and there is none for a family without an adult |
| AirportWaiting.ServedAtPlaceIff | services/airport/gate_manager.py:58-81 | a guest's index is the number of the first bundle with the guest in it exactly when the family is servable, everybody in front is, and nobody up to the guest shares a family |
| AirportWaiting.EstimateIsExactIff | services/airport/gate_manager.py:308-331 | over any run of picks: the estimate is the exact wait exactly under that condition; never too short for a guest whose family has an adult; no bundle ever comes for any other |
| AirportWaiting.EstimateCanBeTooLong | services/airport/gate_manager.py:308-331 | two adults of one surname: the second is in the first bundle, though estimated later |
| AirportWaiting.EstimateCanBeTooShort | services/airport/gate_manager.py:308-331 | a minor alone: first in the queue, and in no bundle while nobody arrives |
| AirportWaiting.HeldUntilAdultArrives | services/airport/gate_manager.py:64-70 | minors without an adult of their surname are in no bundle until such an adult arrives |
| AirportWaiting.ServedIffGroupHasAdult | services/airport/gate_manager.py:58-81 | with nobody arriving, a guest is ever served exactly when the group holds an adult |
| AirportGate.FindFamilyMember | services/airport/gate_manager.py:53-56 | an index is found exactly when it has that surname, case aside, and is not excluded |
| AirportGate.SortDescendingReverses | services/airport/gate_manager.py:73 | sorting the found indices in descending order reverses them |
| AirportGate.FamilyPositions | services/airport/gate_manager.py:62-76 | the indices found behind the leader are, in order, the leader's group |
| AirportGate.Gate.Enqueue | services/airport/gate_manager.py:36-44 | the new queue, with the guest at the returned 1-based place: behind those the guest does not precede, in front of one the guest precedes, and of everybody else behind if nobody stood in front of somebody who precedes them |
| AirportGate.Gate.PickNext | services/airport/gate_manager.py:58-81 | the new queue and bundle, exactly the passed-over minors become held, and the newly held are reported front to back, each once |
| AirportGate.Gate.TakeOut | services/airport/gate_manager.py:72-80 | popping indices from the back leaves the old queue in order without the group |
| AirportGate.Gate.PopAll | services/airport/gate_manager.py:77-78 | the popping loop itself removes exactly the group |
| AirportGate.Gate.StartNext | services/airport/gate_manager.py:86-91 | first half of a worker round: the new queue, bundle and booth; all of the bundle are processing, exactly the passed-over minors are held |
| AirportGate.PassedOverStillWaits | services/airport/gate_manager.py:64-70 | whoever is passed over is a minor and still in the queue after the pick |
| AirportGate.NewlyHeldAt | services/airport/gate_manager.py:64-70 | the newly held are those passed over, not held before, in queue order and each once |
| AirportGate.HeldGuestHasEstimate | services/airport/gate_manager.py:308-331 | whoever a worker passes over, and makes held, has an estimate at that gate |
| AirportGate.LoneMinorHasEstimate | services/airport/gate_manager.py:308-331 | the input: a minor alone at a gate is passed over and has an estimate |
| AirportGate.Gate.Finish | services/airport/gate_manager.py:115-135 | second half of a worker round: the bundle is processed, published in order, and the booth empty |
| Balancing.ArgMin | services/airport/gate_manager.py:187-189 | the first of the smallest, as the minimum over gates picks it |
| Balancing.GreedyStaysLevel | services/airport/gate_manager.py:271-275 | one-by-one placement stays level within one, or never raised the longest queue |
| Balancing.GreedyIsOptimal | services/airport/gate_manager.py:271-275 | no other split of the same number over the same queues has a smaller longest queue |
| AirportFloor.RedistributeConserves | services/airport/gate_manager.py:271-281 | redistribution keeps everybody, once, and keeps the target queues in rank order |
| AirportFloor.RedistributeIsGreedy | services/airport/gate_manager.py:271-275 | the queue lengths are those of the greedy placement |
| AirportFloor.RedistributeIsOptimal | services/airport/gate_manager.py:250-288 | any other split of the displaced guests over the same gates has a longest queue at least as long |
| AirportFloor.BoothIsExtra | services/airport/gate_manager.py:262-269 | re-queueing the guest in the booth adds one person; nothing else does |
| AirportFloor.PositionIsTruePlace | services/airport/gate_manager.py:296-306 | with one record for each guest, the reported place is the guest's own 1-based place, and none means absent |
| AirportFloor.PositionIsPlace | services/airport/gate_manager.py:296-306 | 0 in the booth, else one more than the number of guests in front, else nothing |
| AirportFloor.EstimateIsWait | services/airport/gate_manager.py:308-331 | nothing left in the booth, else a processing time for everybody in front and one for a busy booth, else no answer |
| AirportFloor.GuestIsToldWait | services/airport/gate_manager.py:323-330 | with one record for each guest id, the guest at index i is told i processing times, and i + 1 while somebody else is in the booth |
| AirportFloor.InitialIs | services/airport/gate_manager.py:140-155 | a fresh start: EU-1 and on, then ALL-1 and on, each of its own type and time, empty |
| AirportFloor.AssignIsShortest | services/airport/gate_manager.py:191-235 | a guest is refused exactly when a looked-at type has no gate; else joins the allowed gate with the shortest queue, on a tie an EU gate, then the first; the ticket tells that gate, the place taken by precedence, the queue length, and a processing time for everybody in front and for a busy booth |
| AirportFloor.EstimateIffAtGate | services/airport/gate_manager.py:308-331 | there is no estimate exactly for a guest neither in the booth nor in the queue |
| AirportFloor.ServedTogetherEstimates | services/airport/gate_manager.py:308-331 | of a bundle being processed, the leader's estimate is 0 and the others have none |
| AirportFloor.ClosingIsSound | services/airport/gate_manager.py:262-281 | the receiving queues stay in rank order and hold everybody once exactly when the booth was empty |
| AirportFloor.ClosingKeepsPeopleIffBoothEmpty | services/airport/gate_manager.py:250-288 | over all gates, a close keeps everybody who waits, once, exactly when the booth is empty |
| AirportFloor.SpreadIs | services/airport/gate_manager.py:271-283 | what remains after a close is determined by the queues of the gate's type; all else is as before |
| AirportClosing.RedistributePlaces | services/airport/gate_manager.py:271-275 | a receiving queue is the stable sort of whoever came there before and then of those sent there, in order |
| AirportClosing.JoinsShortest | services/airport/gate_manager.py:271-275 | each displaced guest joins the first queue that is shortest at that moment |
| AirportClosing.ClosingPlacesInOrder | services/airport/gate_manager.py:262-281 | a close sends the guest in the booth and then the queue, front to back, each to the first shortest queue of the moment; each queue becomes the stable sort of itself and then of those sent there, in order; nothing else changes |
| AirportClosing.OneReceiverTakesAll | services/airport/gate_manager.py:262-281 | with one other gate of the type, its queue becomes the stable sort of its own guests, the guest in the booth and the whole closing queue |
| AirportClosing.FindAfterClose | services/airport/gate_manager.py:283 | the other gates keep their order, and the closed one is gone |
| AirportManager.GateManager.constructor | services/airport/gate_manager.py:140-155 | the numbered EU gates, then the numbered ALL gates, all empty, with distinct ids |
| AirportManager.GateManager.ShortestQueueGate | services/airport/gate_manager.py:187-189 | the first gate of the type with no shorter one, or none of the type |
| AirportManager.GateManager.AssignAndEnqueue | services/airport/gate_manager.py:191-235 | all gates after the call, the ticket or refusal, and the guest's new status and gate |
| AirportManager.GateManager.JoinQueue | services/airport/gate_manager.py:199-235 | one gate's queue gains the guest at the ticket's place, all other gates are as before |
| AirportManager.GateManager.OpenGate | services/airport/gate_manager.py:237-248 | each refusal in order, and otherwise one new gate of that id and type, with the type's time and nobody there |
| AirportManager.GateManager.MoveToShortest | services/airport/gate_manager.py:272-275 | one displaced guest joins the first shortest target, and only that queue changes |
| AirportManager.GateManager.Vacate | services/airport/gate_manager.py:260-281 | the gate is emptied into the targets; people kept exactly when the booth was empty; rank order kept |
| AirportManager.GateManager.CloseGate | services/airport/gate_manager.py:250-288 | all gates after the call and the count or refusal; displaced guests are recorded where they wait, the one in the booth queued, the others' status kept |
| AirportManager.GateManager.GetGuestPosition | services/airport/gate_manager.py:296-306 | the place at the gate of that id, 0 in the booth, nothing for an unknown gate or guest |
| AirportManager.GateManager.GetEstimatedWait | services/airport/gate_manager.py:308-331 | nothing exactly when not at the gate, 0 in the booth, else a processing time for everybody in front and for a busy booth |
| AirportRuns.CloseKeepsInv | services/airport/gate_manager.py:250-288 | a close with an empty booth keeps distinct gates of each type, rank order, allowed passports and everybody |
| AirportRuns.AssignKeepsInv | services/airport/gate_manager.py:191-235 | with a gate of each type, every guest is accepted, and the same is kept |
| AirportRuns.NobodyIsLost | services/airport/gate_manager.py:83-288 | over any run of arrivals, worker rounds, openings and closings with an empty booth from a fresh start: nobody is ever refused, everybody who arrived is waiting, being served or processed exactly once, nobody stands in front of somebody who precedes them, and nobody is at a gate the passport does not allow |
| AirportRuns.QueuesAreStableSorts | services/airport/gate_manager.py:36-288 | over any such run every gate's queue is the stable sort of the guests assigned or, by a close, moved to it and still waiting, in the order they came there |
| AirportListing.CrashesIffLimitIsZero | services/airport/routes.py:92-99 | the listing fails exactly when the limit is zero and a row would be shown |
| AirportListing.RefusedIff | services/airport/routes.py:77-101 | which parameter is refused, the cursor before the limit; without a limit there is no cursor |
| AirportListing.ListingIsHonest | services/airport/routes.py:60-107 | the total counts the rows the filter lets through; only such rows under the cursor are shown; a cursor is the last id of a page as long as the limit, and is missing exactly when nothing is left |
| AirportListing.PageIsPrefix | services/airport/routes.py:60-107 | a page is the largest ids wanted, at most the limit; a cursor is offered exactly when something is left, and leads to exactly that |
| AirportListing.WalkSeesEverything | services/airport/routes.py:60-107 | following the cursor ends, lists ids strictly descending, only rows present at the start, and every row that matched throughout, whatever changes between pages |
| AirportListing.PagesAreOneListing | services/airport/routes.py:60-107 | for a filter that updates cannot change, the pages together are the one unlimited listing of the start |
| GatewayCapture.CaptureIsExact | gateway/cache.go:129-147 | the capture is cacheable exactly when the first status is a 200 that does not stream; it then has the client's status and every body byte |
| GatewayCapture.CapturedStatusIsClientsIff | gateway/cache.go:129-137 | the captured status is the client's exactly when the handler answers and not with an informational status first; such a response is not cacheable |
| GatewayCapture.ClientSeesEverything | gateway/cache.go:129-147 | the client gets every byte the handler writes |
| GatewayCapture.ClientGetsHandlersCalls | gateway/cache.go:129-147 | the client is sent the handler's header and body calls and nothing else but a 200 in front when a body comes first; it gets the handler's status |
| GatewayCapture.PassedAt | gateway/cache.go:129-147 | those are all the header and body calls, unchanged and in order |
| GatewayCapture.ClientStatusIs | gateway/cache.go:129-147 | the client's status is that of the first header call that is not informational, and 200 when a body comes before it or there is none |
| GatewayCapture.CacheCapture.WriteHeader | gateway/cache.go:129-137 | cacheability is decided once, by the first status; every status is passed on unchanged |
| GatewayCapture.CacheCapture.Write | gateway/cache.go:139-147 | an undecided body decides 200 and sends it; a cacheable body is also kept; every body is passed on unchanged |
| GatewayCache.ResponseCache.BeginFlight | gateway/cache.go:61-70 | leader exactly when the key had no flight; a follower gets the open one |
| GatewayCache.ResponseCache.FinishFlight | gateway/cache.go:75-81 | the result is published, the flight closed and unlisted |
| GatewayCache.ResponseCache.Get | gateway/cache.go:83-95 | an entry only until it expires; an expired one is dropped |
| GatewayCache.ResponseCache.Set | gateway/cache.go:97-102 | the entry, stamped with its expiry |
| GatewayCache.CacheKeyIsInjective | gateway/cache.go:170-172 | different method, path or encoded query means a different key, even with question marks in the path |
| GatewaySafety.StructureAlways | gateway/cache.go:183-229 | every step of every interleaving keeps leaders, followers, flights and the flight table consistent |
| GatewaySafety.SingleFlight | gateway/cache.go:61-81 | a key has an open flight exactly when it has a live leader, and just one; a waiting follower's flight is closed or led for its own key |
| GatewaySafety.MovesAreBounded | gateway/cache.go:164-230 | every run takes at most eight moves for each request |
| GatewaySafety.NobodyIsStuck | gateway/cache.go:185-212 | an unfinished request can move, or one of the same key can |
| GatewaySafety.EveryRequestFinishes | gateway/cache.go:205-229 | a run that cannot go on has answered everybody, panicking leaders included |
| GatewayTruth.InvAlways | gateway/cache.go:164-230 | the history invariant holds in every reachable state |
| GatewayTruth.StoreOrderKept | gateway/cache.go:97-102 | stores of a key happen in the order their flights began |
| GatewayTheorems.HitsAreTrue | gateway/cache.go:174-202 | every hit replays the exact status and whole body of a non-streaming 200 response to its own key |
| GatewayTheorems.HitsAreFreshIffFromTable | gateway/cache.go:83-102 | a hit is unexpired exactly when it came from the table, and then at most ttl old; a flight's response came after the join exactly when its leader was still fetching |
| GatewayTheorems.EntryLivesForTtl | gateway/cache.go:83-102 | in any state: an entry stored is found until the ttl is over since it was stamped, and then dropped |
| GatewayTheorems.EntriesAreLatest | gateway/cache.go:97-102 | an entry is the result of the latest flight of its key that stored |
| GatewayTheorems.FreshIffStoredSince | gateway/cache.go:174-202 | from a miss until the request is answered or asks, the table holds a fresh entry exactly when somebody stored, since the lookup, what has not expired |
| GatewayTheorems.AsksIff | gateway/cache.go:183-215 | a request gets to the backend in two ways and no third: leading a flight, or after a flight with nothing to replay |
| GatewayTheorems.AsksBesideFreshIff | gateway/cache.go:174-215 | over every run and move: a request asks beside a fresh entry exactly when it takes one of these ways and somebody stored, since its lookup, what has not expired |
| GatewayTheorems.OverlapNeedsUnreplayableFlight | gateway/cache.go:183-215 | two requests of a key ask at the same time only if one gave up on a flight with nothing to replay |
| GatewayTheorems.StaleHit | gateway/cache.go:185-196 | a run in which a request that arrives after the expiry replays the expired page |
| GatewayTheorems.SecondFlightBesideFreshEntry | gateway/cache.go:23-27 | a run in which a second flight is led beside a fresh entry |
| GatewayTheorems.FollowerAsksBesideFreshEntry | gateway/cache.go:198-201 | a run in which a follower of a failed flight asks beside a fresh entry |
| GatewayTheorems.FollowerAsksBesideLeader | gateway/cache.go:198-201 | a run in which a follower of a failed flight asks while the next leader asks |
| SlidingWindow.TwiceTheLimit | gateway/ratelimit.go:54-69 | if each window admits at most the limit, any closed interval of the window length has at most twice that |
| SlidingWindow.CountsAre | gateway/ratelimit.go:54-69 | the counts in these bounds are the numbers of admissions of a window, and between two times |
| RateLimiter.RateLimiter.SetLimits | gateway/ratelimit.go:39-45 | a window length of zero or less is ignored |
| RateLimiter.RateLimiter.Allow | gateway/ratelimit.go:47-70 | the decision and the client's new window; other clients' windows are untouched |
| RateLimiter.RateLimiter.Admit | gateway/ratelimit.go:75-91 | a limit of zero or less admits everything |
| RateLimiter.ClientsAreIndependent | gateway/ratelimit.go:47-70 | a client's decisions among any traffic are its decisions alone |
| RateLimiter.RefusedIffWindowIsFull | gateway/ratelimit.go:54-69 | refused exactly when the client has the limit admitted in a window still open |
| RateLimiter.RunRecordsDecisions | gateway/ratelimit.go:54-69 | what the run counts as admitted is what the limiter admitted |
| RateLimiter.RateIsBounded | gateway/ratelimit.go:47-70 | over any traffic: at most the limit in each window, and of a client's requests in any closed interval of its length at most twice the limit are admitted |
| ParrotHistory.TrimmedIsLongest | services/parrot/history.py:38-48 | the reference: the whole log if it fits, else its longest fitting suffix that starts at a user message, or nothing |
| ParrotHistory.TrimAfterTrim | services/parrot/history.py:18-27 | trimming the stored part and then the rest is trimming everything |
| ParrotHistory.IncrementalIsBatch | services/parrot/history.py:18-27 | after any appends of turns the store holds the trim of the unbounded log, and every tool row still follows its call |
| ParrotHistory.VisibleIsContent | services/parrot/history.py:29-36 | the visible messages are exactly the ones the limit counts |
| ParrotHistory.ContentCounts | services/parrot/history.py:40 | the limit counts the user messages and the answers, and not call lists or tool rows |
| ParrotHistory.ConversationStore.Trim | services/parrot/history.py:38-48 | the nested popping loops end and compute that suffix |
| ParrotHistory.ConversationStore.Append | services/parrot/history.py:18-27 | the conversation becomes the trim of old and new, others are untouched |
| ParrotHistory.ConversationStore.GetMessages | services/parrot/history.py:11-16 | the stored messages; a read bumps only the access time |
| ParrotHistory.ConversationStore.GetVisible | services/parrot/history.py:29-36 | the user messages and answers of the conversation, all of them in order; nothing for an unknown guest |
| ParrotHistory.ConversationStore.EvictOldest | services/parrot/history.py:55-58 | at most the capacity remains, and nobody evicted was accessed later than anybody kept |
| ParrotHistory.ConversationStore.Cleanup | services/parrot/history.py:50-58 | everything kept was accessed within the ttl; everything within it that went is no younger than what stayed, and went only for the capacity |
| ParrotChat.CuttingDoesNotMatter | services/parrot/llm.py:245-262 | however the deltas of a round are cut and interleaved, the same list of calls comes out |
| ParrotChat.OnePieceOrTwo | services/parrot/llm.py:245-252 | one delta sent in two pieces anywhere in a stream assembles the same |
| ParrotChat.MadeUpIdsDiffer | services/parrot/llm.py:254-262 | without ids from the model, the made-up ids of a group differ |
| ParrotChat.AddFragment | services/parrot/llm.py:245-252 | one delta extends its own call by its arguments, last id and last name |
| ParrotChat.SortedKeys | services/parrot/llm.py:261 | the call indices ascending, each once |
| ParrotChat.CallsOf | services/parrot/llm.py:254-262 | one call for each slot, in the order of their indices |
| ParrotTurns.CallsAreAssembled | services/parrot/llm.py:245-262 | call number i is that of the i-th smallest index: the arguments of that index's deltas put together in order, their last name, and their last id or one made up from the index |
| ParrotTurns.RoundReads | services/parrot/llm.py:236-252 | a round's deltas, text and token events are those of its chunks, put together in order |
| ParrotTurns.TurnRows | services/parrot/llm.py:263-282 | the messages of a turn's groups: each call list, and for each result a row with the id of the call at its place |
| ParrotTurns.GroupStatuses | services/parrot/llm.py:277-282 | a status event before and after each tool that returned, and one before a tool that raised |
| ParrotChat.RunTools | services/parrot/llm.py:277-282 | results of the calls in order, and the events around each, until one raises |
| ParrotChat.PlayRound | services/parrot/llm.py:224-290 | what one round streams, and whether it breaks, answers or asks |
| ParrotChat.ChatStream | services/parrot/llm.py:198-304 | the messages to store, every event sent, which round failed when it is cut short, the reply, and exactly when the deltas add up to it |
| ParrotTurns.StreamedTurnIs | services/parrot/llm.py:198-304 | any streamed turn in its deltas and tool results: at most five groups, the messages to store, every event sent, and the reply, which is everything streamed unless that is nothing |
| Decimals.DecimalReads | services/parrot/llm.py:257 | an index is written with its digits and none too many, so made-up ids can be read back |
| ParrotChat.TurnOwnsRows | services/parrot/llm.py:263-282 | in any turn, finished or cut short, each tool row follows the call it answers |
| ParrotChat.TurnIsStorable | services/parrot/llm.py:302-304 | what a turn stores starts at its user message and keeps tool rows with their calls |
| ParrotChat.Chat | services/parrot/llm.py:161-195 | the reply and messages of the turn without streaming, and when it raises |
| ParrotAdmin.NormalizeTranscript | services/parrot/admin.py:176-207 | row by row, nothing reordered or dropped: texts, call lists, ids and contents unchanged, and names taken from the nearest call list before |
| ParrotAdmin.RowShowsOwnName | services/parrot/admin.py:191-206 | a row shows its own call's name exactly when the last named call of its group with that id has the same name, or, for a call without one, when no call of its group with that id has a name |
| ParrotAdmin.StoredRowsShowOwnNames | services/parrot/admin.py:191-206 | after any appends and trimming, with ids distinct within groups, each stored row shows its own call's name, even when other groups repeat its id |
| ParrotAdmin.StreamedTurnsShowOwnNames | services/parrot/llm.py:302-304 | end to end: after any streamed turns, finished or cut short, with ids distinct within groups, every stored row follows its call and shows its name |
| ParrotProfanity.ScanFindsWords | services/parrot/profanity.py:33-42 | the pattern matches exactly the maximal token runs that hold a letter |
| ParrotWords.TokensAre | services/parrot/profanity.py:19-42 | tokens are made of letters and the eleven disguises |
| ParrotWords.ProfaneIff | services/parrot/profanity.py:19-65 | a token is profane exactly when, without the exclamation marks at its ends, it stands for a listed word character for character: upper case for lower, a disguise for what it disguises |
| ParrotWords.DisguiseDoesNotMatter | services/parrot/profanity.py:19-65 | neither letter case nor disguise matters |
| ParrotWords.MarksDoNotMatter | services/parrot/profanity.py:54-65 | exclamation marks at the ends do not matter |
| ParrotProfanity.FindProfaneWords | services/parrot/profanity.py:100-116 | the normalised profane tokens in order, exactly those of the text's words; none for empty text or list |
| ParrotWords.ReportIsInOrder | services/parrot/profanity.py:100-116 | one report for each profane word of the text, from left to right, of the word it stands for |
| ParrotProfanity.MaskProfanity | services/parrot/profanity.py:68-92 | the masked text, and the flag exactly when some word is profane |
| ParrotProfanity.MaskedIffFound | services/parrot/profanity.py:100-116 | the flag is set exactly when profane words are found |
| ParrotProfanity.MaskChangesExactlyProfane | services/parrot/profanity.py:68-92 | masking keeps the length and puts an asterisk for exactly the characters of profane words |
| ParrotProfanity.WordsSurvive | services/parrot/profanity.py:81-92 | the words of the masked text are words of the text, unchanged and not profane |
| ParrotProfanity.MaskIsIdempotent | services/parrot/profanity.py:68-92 | masking twice is masking once |
| ParrotProfanity.WordsOfSides | services/parrot/profanity.py:41-42 | a non-token character splits the words of a text into those of its sides |
| ParrotProfanity.MaskDistributes | services/parrot/profanity.py:68-92 | masking works side by side across any non-token character |
| BroadcastJson.PrintPrintable | services/broadcast/src/eventBus.ts:35 | printed JSON has no line break or other control character, whatever strings it holds |
| BroadcastJson.EscapeParses | services/broadcast/src/eventBus.ts:35 | a printed string parses back to itself |
| BroadcastJson.PairUnescapes | services/broadcast/src/__tests__/sse-client.ts:75-76 | two escaped surrogates parse to the one character they stand for |
| BroadcastJson.NumberEndBefore | services/broadcast/src/__tests__/sse-client.ts:75-76 | a number ends where it did, whatever follows it in printed text |
| BroadcastJson.PrintParses | services/broadcast/src/__tests__/sse-client.ts:74-79 | a printed value parses back to itself wherever it stands |
| BroadcastJson.JsonRoundTrip | services/broadcast/src/__tests__/sse-client.ts:74-79 | a printed value, on its own, parses to that value |
| BroadcastFrames.PrintIs | services/broadcast/src/eventBus.ts:35 | the text of every kind of value, with members and items joined by commas |
| BroadcastFrames.EscapeIs | services/broadcast/src/eventBus.ts:35 | what each character of a string is printed as |
| BroadcastSse.SseClient.Ingest | services/broadcast/src/__tests__/sse-client.ts:48-59 | the frames of all finished blocks are added in order, the unfinished rest stays |
| BroadcastSse.SseClient.Parse | services/broadcast/src/__tests__/sse-client.ts:61-83 | at most one frame, from the data lines and the last event line |
| BroadcastFrames.BlockIs | services/broadcast/src/__tests__/sse-client.ts:61-83 | the frame of a block from its lines: none without a data line, else the trimmed texts of all data lines under one another, decoded, under the name of the event line |
| BroadcastFrames.EventFieldIs | services/broadcast/src/__tests__/sse-client.ts:66-70 | the name is that of the last event line, and missing exactly when there is none |
| BroadcastFrames.TrimIs | services/broadcast/src/__tests__/sse-client.ts:68-69 | trimming takes the white space at both ends and nothing else |
| BroadcastSse.DrainConcat | services/broadcast/src/__tests__/sse-client.ts:48-59 | feeding a then b leaves the frames and buffer of feeding a + b |
| BroadcastSse.ChunkingDoesNotMatter | services/broadcast/src/__tests__/sse-client.ts:48-59 | any chunking of the same text leaves the same frames and buffer |
| BroadcastSse.DataBlock | services/broadcast/src/__tests__/sse-client.ts:61-83 | a single data line becomes one unnamed frame with its decoded text |
| BroadcastBus.EventBus.AddClient | services/broadcast/src/eventBus.ts:11-17 | the greeting is written, the connection registered |
| BroadcastBus.EventBus.RemoveClient | services/broadcast/src/eventBus.ts:19-25 | the first registration of that connection goes, all others stay in order |
| BroadcastBus.EventBus.Broadcast | services/broadcast/src/eventBus.ts:27-40 | each connection gets exactly what its granted channels allow |
| BroadcastBus.JsonTellsEvent | services/broadcast/src/eventBus.ts:35 | no two events have the same JSON |
| BroadcastFrames.FieldsOfEvent | services/broadcast/src/eventBus.ts:35 | which member carries which field of the event, and that an absent field has none |
| BroadcastBus.WireReadsBack | services/broadcast/src/eventBus.ts:35 | one event on the wire reads back as one frame with its JSON value |
| BroadcastBus.ReaderSeesGrantedEvents | services/broadcast/src/eventBus.ts:9-40 | for any run and any chunking, the parsed frames are exactly the events broadcast while connected on granted channels, in order |
| BroadcastBus.FramesTellEvents | services/broadcast/src/__tests__/sse-client.ts:74-81 | equal frames come from equal events |
| Beach.BeachService.FindActivityIdByVisitor | services/beach/src/main/kotlin/infrastructure/repository/PostgresActivityRepository.kt:66-75 | an activity the visitor is booked in, or none exactly when not booked |
| Beach.BeachService.Save | services/beach/src/main/kotlin/infrastructure/repository/PostgresActivityRepository.kt:77-120 | deleting and reinserting leaves exactly the activity's bookings, other activities' untouched |
| Beach.BeachService.Book | services/beach/src/main/kotlin/application/usecase/BookActivityUseCase.kt:19-51 | each refusal in order, else one booking, and a full event exactly when that fills it |
| Beach.BeachService.Cancel | services/beach/src/main/kotlin/application/usecase/CancelActivityUseCase.kt:16-35 | each refusal in order, else one booking less, and an available event exactly when it was full |
| Beach.BeachService.CreateActivity | services/beach/src/main/kotlin/application/usecase/CreateActivityUseCase.kt:18-46 | blank, capacity and duplicate checks in order, else an empty activity |
| Beach.BeachService.RemoveActivity | services/beach/src/main/kotlin/application/usecase/RemoveActivityUseCase.kt:16-29 | the activity goes with its bookings |
| Beach.BookedReplaced | services/beach/src/main/kotlin/infrastructure/repository/PostgresActivityRepository.kt:108-118 | replacing the booking set of one activity changes no other |
| Beach.BookedIff | services/beach/src/main/kotlin/application/usecase/BookActivityUseCase.kt:19-51 | a booking is granted exactly to a known, checked-in visitor without any booking, for a known activity with a place left; it adds that booking and nothing else, and publishes exactly when it takes the last place |
| Beach.BookingRefusals | services/beach/src/main/kotlin/application/usecase/BookActivityUseCase.kt:19-42 | which refusal comes first |
| Beach.CancelledIff | services/beach/src/main/kotlin/application/usecase/CancelActivityUseCase.kt:16-35 | granted exactly for a booking of a known activity; it removes that booking and nothing else, and publishes exactly when the activity was full |
| Beach.CreatedIff | services/beach/src/main/kotlin/application/usecase/CreateActivityUseCase.kt:18-46 | granted exactly for a new id and a name that are not blank and a capacity of at least one |
| Beach.RemovedIff | services/beach/src/main/kotlin/application/usecase/RemoveActivityUseCase.kt:16-29 | the activity's row and its bookings go and nothing else |
| Beach.StepKeepsInv | services/beach/src/main/kotlin/application/usecase/BookActivityUseCase.kt:19-51 | every use case keeps capacity, single booking, checked-in visitors and the event trace |
| Beach.BeachRunIsSound | services/beach/src/main/kotlin/application/usecase/CancelActivityUseCase.kt:16-35 | over any run: events since creation alternate full, available; full exactly when the last one says so; capacity kept; nobody booked twice; everybody booked checked in |
| Crab.Store.RestockIfNewDay | services/crab/store.go:60-68 | sales are reset on a later day only |
| Crab.Store.Check | services/crab/store.go:87-105 | the summed wants, or the first fault |
| Crab.Store.Serve | services/crab/store.go:107-114 | every line is counted as sold, repeated items included, and the total is the price-weighted sum |
| Crab.Store.PlaceOrder | services/crab/store.go:82-136 | rejected exactly on a fault and then only restocked; otherwise menu, order, total and the items exhausted |
| Crab.TakenIff | services/crab/store.go:87-105 | an order is taken exactly when it has lines, all good, that together ask for no more than is left; else the first bad line, and then the stock, decides the error |
| Crab.OrderAddsUp | services/crab/store.go:96-114 | wants and price of an order are those of its lines, added up |
| Crab.SoldIs | services/crab/store.go:107-122 | a taken order counts its wants as sold and changes nothing else, and reports the ordered items of which nothing is left |
| Crab.RestockedIs | services/crab/store.go:60-68 | a restock forgets what was sold and changes nothing else |
| Crab.NextKeepsItem | services/crab/store.go:82-136 | each order keeps the count of an item's sales and notices exact |
| Crab.CrabRunIsConserved | services/crab/store.go:82-136 | over any run: sold is the sum over accepted lines since the restock, within the daily stock, and the sold-out notice was given once, exactly when exhausted |
| GoatFarm.Store.Purchase | services/goat-farm/store.go:55-89 | restock first, then each refusal in order, else one item less and the timer started if it was not |
| GoatFarm.Store.Stock | services/goat-farm/store.go:48-53 | restock if due, then items and the wait |
| GoatFarm.RestocksIff | services/goat-farm/store.go:91-103 | everything is restocked, and the timer stopped, exactly when a minute has passed since it started |
| GoatFarm.SoldIff | services/goat-farm/store.go:55-89 | what is sold and refused, and that a sale takes one item and starts the timer if it did not run |
| GoatFarm.WaitIsRoundedUp | services/goat-farm/store.go:117-125 | the wait is the least number of whole seconds until a minute has passed |
| GoatFarm.StockIsConserved | services/goat-farm/store.go:55-103 | over any run: the timer is unset exactly when everything is full; what is missing is what was sold since the restock; at most twice the full stock in any closed minute |
| GoatFarm.WaitIsAtMostAMinute | services/goat-farm/store.go:117-125 | the reported wait is 0 to 60, and 0 exactly when the restock is due |
| Hotel.HotelService.Create | services/hotel/src/reservation/reservation.service.ts:19-131 | each refusal in order, the keys of the two tables included, else one confirmed stay in the first room that fits and is free |
| Hotel.HotelService.Cancel | services/hotel/src/reservation/reservation.service.ts:203-244 | unknown is refused, cancelled again changes nothing and publishes nothing |
| Hotel.BlockingIsZero | services/hotel/src/reservation/reservation.service.ts:66-75 | the overlap count is zero exactly when no confirmed stay of the room touches the days |
| Hotel.FirstFitIsFirst | services/hotel/src/reservation/reservation.service.ts:59-79 | the loop's room suits and no earlier one does; none means none suits |
| Hotel.BeforeIff | services/hotel/src/reservation/reservation.service.ts:36-39 | room ids are compared at their first difference, and a prefix comes first |
| Hotel.Refusals | services/hotel/src/reservation/reservation.service.ts:22-105 | which refusal comes first, and the largest capacity it tells |
| Hotel.GrantedIffRoomExists | services/hotel/src/reservation/reservation.service.ts:36-105 | a cleared guest's request for a night or more is granted exactly when it lists nobody twice and an acceptable room exists, as one confirmed stay with the request's own data in the one of lowest id; refusal changes nothing |
| Hotel.HotelRunIsSound | services/hotel/src/reservation/reservation.service.ts:36-105 | after any run two confirmed stays of one room share no day, not even an end; each stay published one confirmation and, exactly if cancelled, one cancellation |
| Hotel.EventsOfAt | services/hotel/src/reservation/reservation.service.ts:107-118 | the events of a reservation are all those published about it, in order |
| Hotel.CancelsIff | services/hotel/src/reservation/reservation.service.ts:203-244 | unknown is refused; a known reservation is cancelled and published unless it already was; nothing else changes |
| Hotel.OccupancyIsOneStay | services/hotel/src/rooms/rooms.service.ts:17-46 | a room's current guests are none, or the guests of the one stay that spans the day |
| Hotel.CapacityIsPerStay | services/hotel/src/rooms/rooms.service.ts:17-46 | every shown occupancy fits its room exactly when every confirmed stay's count does |
| Hotel.CreateFitsIff | services/hotel/src/reservation/reservation.service.ts:43-58 | a granted request keeps occupancy within capacity exactly when its guest count fits its room |
| Hotel.RoomsStayWithinCapacity | services/hotel/src/rooms/rooms.service.ts:17-46 | over any run of requests whose guest count is at most the party, no room shows more than it holds |
| Hotel.UncountedGuestsOverfill | services/hotel/src/reservation/reservation.service.ts:43-96 | every other request that lists nobody twice overfills some hotel that grants it |

## Left out

- Airport database rows, wait times and timestamps, and the worker's sleeping and polling: a worker round is two steps,
  picking and finishing.
- Rehydration after a restart: rows that were being processed go to the front one by one, so arrival order does not
  survive it.
- AirportManager.GateManager.CloseGate: models the call as one step, while the code takes the locks of the gates one after
  another, so arrivals during a close are not interleaved with it.
- AirportManager.GateManager.AssignAndEnqueue: models choosing and inserting as one step, while the code reads the queue
  lengths before it takes the gate's lock; the admin status listing of all gates is not modelled.
- AirportRuns.NobodyIsLost: closes with an occupied booth are not in its runs, as they double a guest;
  `AirportClosing.ClosingPlacesInOrder` covers them one at a time.
- AirportRuns.QueuesAreStableSorts: has the same runs.
- AirportListing.WalkSeesEverything: the table is a list of rows in the order of their keys, so a transaction that commits
  a lower key after a page was read is not modelled.
- Lower case and letters are ASCII in surnames and in the profanity scanner; characters are Unicode code points.
- Response headers other than the content type, HEAD against GET bodies, methods that bypass the cache, and flushing.
- Go's data races on the response map: every field is read and written under the locks the code holds, and writing and
  closing a finished flight are separate steps of the protocol.
- RateLimiter.RateIsBounded: the limit and window length stay fixed over a run, as changing them mid-window changes what is
  promised; the retry header is not modelled.
- Client disconnects that stop a stream early, tool execution, prompts, request ids and the terminating marker line of a
  stream: a tool returns text or raises.
- Summaries and metrics of conversations: sums over a list.
- BroadcastJson.JsonRoundTrip: numbers are kept as their decimal form, objects as members in the order of the source object,
  and escapes of single surrogates are not values.
- Streams in other line endings than LF, and the reader's waiting promises.
- Beach.BeachRunIsSound: models every use case as one transaction, while the code reads, decides and saves in several.
- Hotel.HotelRunIsSound: models creating and cancelling as one transaction each, and rooms as a fixed list in id order; a
  key that is taken is a refused insert.
- GoatFarm.Store.Purchase: one clock reading serves both the restock and the start of the timer; purchase records and
  formatted times are not modelled.
- Crab orders' copied display fields, and reading orders back.
- Integers are unbounded, and durations are whole nanoseconds; the goat farm's wait is the exact ceiling, not one of a
  rounded float.
- The frontend, the traffic simulator, the other routes, authentication, and all of the web frameworks.
