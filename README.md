# Railway booking core, modelled in Dafny

The railway booking system has three native parts and a few browser scripts, all modelled here:

- **Seat allocator** (`find_best_seat` in core_logic/core_logic.cpp). It picks a coach's lowest free seat that matches a berth preference. If none matches, it takes the lowest free seat. If the coach is full, it returns "WL". The berth label comes from the seat's place in a bay of eight (`get_berth_type`). The result is written into the fixed-size `BookingResult` record of core_logic/core_logic.h.
- **Route graph** (core_logic/core_logic.cpp). `clear_graph` and `build_graph_with_time` build a map from each station to its timed legs. Times are minutes since midnight, and overnight legs wrap past 1440. `find_fastest_path` runs Dijkstra's search over travel plus layover minutes. It then follows `prev` back from the destination and formats "Fastest Path: A -> B (Total time: Hh Mm)".
- **Inventory seeding** (seed_database.py). It labels berths by coach class (`get_berth_type(seat_num, coach_class)`). It builds one seat record per berth, per coach of the layout, per train, before one bulk insert.
- **Array tree** (tree.c). A 50-slot integer table holds a binary tree with the children of `i` at `2i+1` and `2i+2`. `main` resets every slot to -1 and then builds a root with two children.
- **Browser scripts** (static/js):
  - The booking form stores a draft under "pendingBooking".
  - The payment page pays for it and clears the draft only on a confirmed issue.
  - The PNR page looks up a ticket.
  - The manage-bookings page cancels tickets.
  - The registration page checks passwords before sending.

Modules, one per file:

- `Decimal` (decimal.dfy): decimal numerals.
- `Berth` (berth.dfy): `get_berth_type` of the allocator.
- `SeatAllocation` (seat_allocation.dfy): `find_best_seat` and `BookingResult`.
- `RouteGraph` (route_graph.dfy): the graph class and the search.
- `FastestRoute` (fastest_route.dfy): the least elapsed time over timed routes, and a graph on which `find_fastest_path` reports a slower route (see Findings).
- `Inventory` (inventory.dfy): seed_database.py.
- `ArrayTree` (array_tree.dfy): tree.c.
- `JsText` (js_text.dfy): JavaScript string rules and the fetch outcome.
- `BookingSession` (booking_session.dfy): booking.js and payment.js.
- `PnrLookup` (pnr_lookup.dfy): pnr.js.
- `Cancellation` (cancellation.dfy): manage-bookings.js.
- `Registration` (registration.dfy): register.js.

The native code and the page handlers change state step by step, so they are modelled as Dafny methods, and classes where the code updates an object or a global. The graph is a class with an adjacency-map field, the tree a class with an array, and each page a class whose fields are its storage, message box, button state and request log. Each method is proved against pure specification functions, and lemmas state what those functions mean. A request's result is a parameter: either it threw, or it answered with an `ok` flag and a parsed body. A timer is one step.

## Model

| member | source | states |
|---|---|---|
| `Berth.Label` | core_logic/core_logic.cpp:19-27 | every label the allocator copies has 5 to 10 characters, so it fits the 15-byte `berth_type` buffer |
| `Berth.LabelInjective` | core_logic/core_logic.cpp:19-27 | different berths have different labels, so comparing labels compares berths |
| `Berth.CRem8` | core_logic/core_logic.cpp:20 | C++ `%` keeps the sign of the dividend: it agrees with the mathematical remainder for seats >= 0 and is <= 0 for negative seats |
| `Berth.BerthOf` | core_logic/core_logic.cpp:19-27 | the label depends only on seat mod 8 (1,4 lower; 2,5 middle; 3,6 upper; 7 side lower; 0 side upper), and "UNKNOWN" happens exactly for negative seats that are not multiples of 8 |
| `Berth.NeverUnknown` | core_logic/core_logic.cpp:19-27 | no seat number >= 0 gets "UNKNOWN" |
| `Berth.BerthPeriodic` | core_logic/core_logic.cpp:19-27 | the layout repeats every 8 seats |
| `Decimal.NatText` | core_logic/core_logic.cpp:72 | `%d` of a number >= 0 is a non-empty run of digits with no leading zero |
| `Decimal.ParseNatText` | core_logic/core_logic.cpp:226-229 | reading a printed number back gives the number |
| `Decimal.NatTextInjective` | seed_database.py:127 | different numbers print differently |
| `Decimal.NatTextLength` | core_logic/core_logic.cpp:72 | a number below 10^k prints in at most k digits |
| `Decimal.NatTextLengthAtLeast` | core_logic/core_logic.cpp:72 | a number at or above 10^k needs more than k digits |
| `SeatAllocation.Snprintf` | core_logic/core_logic.cpp:71-78 | a copy into a buffer of n bytes keeps a prefix of at most n-1 characters, and all of a shorter text |
| `SeatAllocation.FindBestSeat` | core_logic/core_logic.cpp:31-81 | every text fits its buffer; the status is "CNF" exactly when some seat in 1..total is free; the seat chosen is then the lowest free seat whose berth matches the preference if one exists, else the lowest free seat; the seat id is `seat_id_start + seat - 1`, its number is its `%d` text cut to 9 characters, its berth is `get_berth_type` of it; otherwise the record is all "WL" with id -1 |
| `SeatAllocation.BestSeatUnique` | core_logic/core_logic.cpp:44-67 | the choice rule admits only one seat |
| `SeatAllocation.UnrecognisedPreference` | core_logic/core_logic.cpp:44-59 | "ANY" and any string other than LOWER, MIDDLE, UPPER and SIDE choose the lowest free seat |
| `SeatAllocation.SeatNumberText` | core_logic/core_logic.cpp:72 | seat numbers below 10^9 print in full into the 10-byte `seat_number`; larger ones are cut |
| `RouteGraph.ClockTime` | core_logic/core_logic.h:36 | hours and minutes become minutes since midnight, in 0..1439, and can be read back |
| `RouteGraph.ClockGap` | core_logic/core_logic.cpp:121-126 | the forward distance between two clock times: in 0..1439, and it lands on the target modulo a day |
| `RouteGraph.LegMinutes` | core_logic/core_logic.cpp:184-195 | one leg costs its travel time plus the layover, at most two days less two minutes, and no layover at the start station |
| `RouteGraph.EdgeEndsAreStations` | core_logic/core_logic.cpp:147-153 | both ends of every stored leg are stations of the graph |
| `RouteGraph.JoinArrows` | core_logic/core_logic.cpp:211-221 | prepending " -> station" while walking back and then putting the start in front gives the route joined by " -> " |
| `RouteGraph.ReportedTime` | core_logic/core_logic.cpp:224-229 | the printed hours and minutes add up to the total |
| `RouteGraph.MinExists` | core_logic/core_logic.cpp:169-172 | a non-empty queue has an entry with the least time to pop |
| `RouteGraph.Without` | core_logic/core_logic.cpp:172 | popping removes exactly that one entry and keeps the rest in order |
| `RouteGraph.PopStale` | core_logic/core_logic.cpp:174 | skipping an outdated queue entry keeps the search invariant |
| `RouteGraph.RelaxEdges` | core_logic/core_logic.cpp:177-204 | relaxing the legs of a settled station keeps the search invariant: every distance is the elapsed time of a real route recorded through `prev`, and every settled station has all its legs relaxed |
| `RouteGraph.SettleAndRelax` | core_logic/core_logic.cpp:169-205 | one round of the loop keeps the invariant and settles a new station or shrinks the queue |
| `RouteGraph.Search` | core_logic/core_logic.cpp:164-205 | the loop ends, either with the destination reached at a finite distance or with the queue empty and every reached station relaxed; in both cases every settled station had its legs relaxed from the clock time its distance was set with, and the start is settled unless it is the destination |
| `RouteGraph.SearchStarts` | core_logic/core_logic.cpp:154-166 | every station at "infinity", the start at 0 and clock time 0, one queue entry: the invariant holds at the start |
| `RouteGraph.Exhausted` | core_logic/core_logic.cpp:169-205 | once the queue is empty, every station n legs along a route from the start has a distance of at most n longest legs |
| `RouteGraph.NoRouteWhenExhausted` | core_logic/core_logic.cpp:208-209 | "No path found" is only reported when no route of at most 746,172 legs leads from start to end |
| `RouteGraph.WalkDistinct` | core_logic/core_logic.cpp:213-220 | following `prev` back never revisits a station |
| `RouteGraph.TracePath` | core_logic/core_logic.cpp:207-221 | the reconstruction ends (its failure branch is unreachable) with a route from start to end through the graph, no station twice, its elapsed time equal to the reported distance, and the text equal to the route joined by " -> " |
| `RouteGraph.CollectStations` | core_logic/core_logic.cpp:147-153 | the station set is every source and every destination of the graph |
| `RouteGraph.Routes.constructor` | core_logic/core_logic.cpp:94 | the graph starts empty |
| `RouteGraph.Routes.Clear` | core_logic/core_logic.cpp:108-110 | `clear_graph` empties the graph |
| `RouteGraph.Routes.AddEdge` | core_logic/core_logic.cpp:113-129 | the leg is appended to the station's list, with the duration wrapped past midnight; other stations keep their lists |
| `RouteGraph.Routes.FindFastestPath` | core_logic/core_logic.cpp:132-234 | "Starting station not found" exactly when the start is not in the graph; a found route runs from start to end through real legs, visits no station twice, and has the reported total time; the search never misses a reachable destination; a found time is the destination's distance in a labelling that keeps one distance and one arrival clock time per station and relaxes each settled station's legs from that clock time; the text is the one formatted for the outcome |
| `FastestRoute.RouteMinutesSnoc` | core_logic/core_logic.cpp:185-195 | one more leg at the end of a route adds its travel time and the layover counted from the clock time the route arrived at |
| `FastestRoute.ArrivalInRange` | core_logic/core_logic.cpp:113-129 | a route over stored legs arrives at a clock time in 0..1439 |
| `FastestRoute.BestBelowRoute` | core_logic/core_logic.cpp:169-205 | the corrected search, one label per station and arrival clock time: every route of at most k legs takes at least the label of its last station and arrival clock time |
| `FastestRoute.BestAttained` | core_logic/core_logic.cpp:169-205 | every label of the corrected search is the elapsed time of a real route of at most k legs ending at that station and clock time |
| `FastestRoute.ExtendedAttained` | core_logic/core_logic.cpp:185-201 | every time obtained by extending a label with one more leg is the elapsed time of a real route |
| `FastestRoute.FastestIsLeast` | core_logic/core_logic.cpp:132-234 | the corrected result is reached and is no slower than any route of at most k legs from start to end |
| `FastestRoute.FastestAttained` | core_logic/core_logic.cpp:132-234 | the corrected result is the elapsed time of a real route of at most k legs from start to end |
| `FastestRoute.LateConnection` | core_logic/core_logic.cpp:113-129 | the three-leg example graph has in-range clock times and wrapped durations |
| `FastestRoute.BuildLateConnection` | core_logic/core_logic.cpp:113-129 | three `build_graph_with_time` calls build the example graph |
| `FastestRoute.LinkOf` | core_logic/core_logic.cpp:195-201 | a reached station other than the start has a `prev` link to a settled station, through a stored leg whose minutes account for its distance |
| `FastestRoute.RelaxedAtStart` | core_logic/core_logic.cpp:185-201 | once the start is settled, every leg out of it bounds the distance of where it leads by its travel time (no layover at the start) |
| `FastestRoute.LateConnectionLabel` | core_logic/core_logic.cpp:169-205 | on the example graph every labelling the search can end with gives E 970 minutes: the 5-minute leg wins A, and its 08:25 arrival misses the 00:20 connection |
| `FastestRoute.EarlyRoute` | core_logic/core_logic.cpp:185-195 | on the example graph the route through the 00:10 arrival takes 30 minutes |
| `FastestRoute.OnlyRoute` | core_logic/core_logic.cpp:169-205 | on the example graph every route from S to E is S, A, E |
| `FastestRoute.RouteTimes` | core_logic/core_logic.cpp:185-195 | on the example graph every route from S to E takes at least 30 minutes |
| `FastestRoute.LateConnectionReport` | core_logic/core_logic.cpp:222-229 | 970 minutes are printed as "16h 10m" after "S -> A -> E" |
| `FastestRoute.LateConnectionRun` | core_logic/core_logic.cpp:132-234 | `find_fastest_path` as written, on the example graph, answers the route S, A, E with 970 minutes and the text "Fastest Path: S -> A -> E (Total time: 16h 10m)" |
| `FastestRoute.LateConnectionFastest` | core_logic/core_logic.cpp:132-234 | the corrected result on the example graph is 30 minutes, for every bound of at least two legs |
| `Inventory.SeedBerth` | seed_database.py:55-77 | Sleeper and AC3 coaches get one of the five 8-bay labels, AC2 coaches one of four 6-bay labels (no middle), AC1 "Cabin", any other class "Window" |
| `Inventory.SleeperAgreesWithAllocator` | seed_database.py:57-69 | for Sleeper and AC3 coaches the seeded label is the allocator's `get_berth_type` label, in the seeding script's spelling |
| `Inventory.AC2DisagreesWithAllocator` | seed_database.py:70-74 | in an AC2 coach seat 2 is seeded "Upper", while the allocator, which ignores the class, calls it middle |
| `Inventory.SeedBerthPeriodic` | seed_database.py:55-77 | labels repeat every 8 seats (Sleeper, AC3) or 6 seats (AC2) |
| `Inventory.CoachRows` | seed_database.py:126-131 | a coach gives one record per berth |
| `Inventory.AppendSeats` | seed_database.py:126-131 | the innermost loop appends seats "1" to the berth count of one coach, in order |
| `Inventory.AppendTrain` | seed_database.py:117-131 | the coach loop appends the rows of every coach of the layout, each with its own id |
| `Inventory.GenerateSeatRows` | seed_database.py:104-131 | the seat list is the rows of each coach created, coach after coach, train after train, each with the id its insert returned |
| `Inventory.RowsForLength` | seed_database.py:104-131 | the list has one record per berth of every coach created |
| `Inventory.RowsForAppend` | seed_database.py:109-131 | the records of two runs of coaches are the first run's followed by the second's |
| `Inventory.RowAt` | seed_database.py:126-131 | record `i` of coach `k` sits after all records of the coaches before it and holds that coach's id, the number `i+1` and its class label |
| `Inventory.SeatNumbersDistinct` | seed_database.py:126-127 | within a coach no seat number repeats |
| `Inventory.SeededSeats` | seed_database.py:29-53 | the layout has 840 berths per train, so the three trains give 39 coaches and 2520 seat records |
| `Inventory.RepeatLength` | seed_database.py:109-117 | three trains of thirteen coaches create `trains * layout` coaches |
| `ArrayTree.Tree.constructor` | tree.c:3 | the global table starts with 50 zeros |
| `ArrayTree.Tree.Reset` | tree.c:24-26 | the loop of `main` leaves every slot at -1 |
| `ArrayTree.Tree.CreateTree` | tree.c:5-7 | only slot 0 changes |
| `ArrayTree.Tree.SetLeftChild` | tree.c:9-11 | only slot 2i+1 changes, and the index must lie in the table |
| `ArrayTree.Tree.SetRightChild` | tree.c:13-15 | only slot 2i+2 changes, and the index must lie in the table |
| `ArrayTree.Tree.Build` | tree.c:24-29 | after `main`'s build the table is 1, 2, 3 followed by 47 slots of -1 |
| `ArrayTree.BuiltSlots` | tree.c:27-29 | the built table has the root and its two children set and every other slot empty |
| `ArrayTree.ChildrenAfterParent` | tree.c:10-14 | a node's two children are distinct slots after it, so setting a child never overwrites the parent or the sibling |
| `ArrayTree.LastParents` | tree.c:3-14 | with no bounds check, a right child exists only for i <= 23 and a left child for i <= 24 |
| `ArrayTree.ChildrenInjective` | tree.c:10-14 | no two parents share a child, and a left child is never a right child |
| `ArrayTree.ParentOf` | tree.c:10-14 | every slot but the root is a child of `(k-1)/2` |
| `JsText.OrElse` | static/js/payment.js:77 | the `or` fallback of a string value is the value when it is a non-empty string, otherwise the fallback, never empty when the fallback is not |
| `JsText.TrimStart` | static/js/pnr.js:10 | leading whitespace is dropped, nothing else |
| `JsText.TrimEnd` | static/js/pnr.js:10 | trailing whitespace is dropped, nothing else |
| `JsText.Trim` | static/js/pnr.js:10 | the trimmed text neither starts nor ends with whitespace |
| `JsText.TrimInfix` | static/js/pnr.js:10 | `trim()` keeps an infix of its argument and drops only whitespace on either side |
| `JsText.TrimEmpty` | static/js/pnr.js:10-11 | a PNR trims to "" exactly when it is all whitespace |
| `JsText.TrimIdempotent` | static/js/pnr.js:10 | trimming twice is trimming once |
| `JsText.Lower` | static/js/payment.js:25 | `toLowerCase` maps each character and keeps the length |
| `JsText.Capitalized` | static/js/payment.js:25 | the first character upper-cased, the rest lower-cased, the length kept |
| `JsText.CapitalizedIdempotent` | static/js/payment.js:25 | capitalising a capitalised word changes nothing |
| `JsText.CapitalizedIgnoresCase` | static/js/payment.js:25 | words that differ only in case capitalise alike |
| `BookingSession.MakeDraft` | static/js/booking.js:3-8 | the draft's train name falls back to "Shatabdi Express" exactly when the parameter is missing or empty, its total fare is the base fare, and every other field is copied unchecked |
| `BookingSession.PreferenceSuffix` | static/js/payment.js:24-28 | no suffix exactly for an empty preference or "ANY"; otherwise " (" + the capitalised preference + ")" |
| `BookingSession.PaymentMessage` | static/js/payment.js:59-88 | a success message exactly when the reply is ok and successful; otherwise the server's message or "Booking failed after payment.", or the generic error when the request threw |
| `BookingSession.TicketPage` | static/js/payment.js:72 | the ticket page address is the prefix followed by the PNR |
| `BookingSession.TicketPageInjective` | static/js/payment.js:72 | different PNRs lead to different ticket pages |
| `BookingSession.Browser.constructor` | static/js/booking.js:47 | the browser starts with whatever the slot already holds and no page state |
| `BookingSession.Browser.SubmitBooking` | static/js/booking.js:20-50 | the new draft replaces any earlier one in "pendingBooking" and the browser goes to /payment; nothing else changes |
| `BookingSession.Browser.OpenPayment` | static/js/payment.js:1-32 | with no draft: the error message, a redirect to "/" and no handler; with one: the handler keeps it and the summary shows the class with its suffix |
| `BookingSession.Browser.PressPay` | static/js/payment.js:37-89 | a disabled button or missing handler does nothing; otherwise each press runs the delay and sends the loaded draft, and only a confirmed issue clears the slot, keeps the button disabled and schedules the ticket page, while any failure keeps the draft and re-enables the button |
| `BookingSession.Browser.RunTimer` | static/js/payment.js:11 | a scheduled redirect fires and changes only the location |
| `BookingSession.LowerSuffix` | static/js/payment.js:24-28 | "LOWER" is shown as " (Lower)" |
| `BookingSession.LowercaseAnyShown` | static/js/payment.js:24 | only exactly "ANY" is hidden: "any" is shown as " (Any)" |
| `BookingSession.SuffixIgnoresCase` | static/js/payment.js:24-28 | preferences differing only in case get the same suffix |
| `PnrLookup.StatusClass` | static/js/pnr.js:56-61 | CNF green, WL orange, CANCELLED red, each exactly for its status, and grey for every other value |
| `PnrLookup.Rows` | static/js/pnr.js:63-75 | one row per passenger, numbered from 1 in order, with the passenger's name, age, gender, status, status style and "coach / seat" text |
| `PnrLookup.BuildRows` | static/js/pnr.js:63-75 | the loop builds exactly that table |
| `PnrLookup.Outcome` | static/js/pnr.js:22-34 | a ticket is shown exactly for an ok and successful reply with at least one passenger, with one row per passenger; an empty passenger list fails like a thrown request; a refusal shows the server's message or "PNR not found." |
| `PnrLookup.PnrPage.constructor` | static/js/pnr.js:1-7 | the page starts with nothing shown and nothing sent |
| `PnrLookup.PnrPage.Search` | static/js/pnr.js:9-38 | an all-whitespace PNR shows "Please enter a PNR number." and sends nothing; any other is trimmed, sent, and ends with the outcome's ticket or error and the spinner hidden |
| `PnrLookup.PnrPage.Show` | static/js/pnr.js:22-34 | after the request the page shows the outcome's ticket with the message box hidden, or the outcome's error text with no ticket |
| `PnrLookup.StatusStyles` | static/js/pnr.js:56-61 | the allocator's "CNF" and "WL" get green and orange; the comparison is exact, so "cnf" is grey |
| `PnrLookup.StatusClassInjective` | static/js/pnr.js:56-61 | each known status has a style of its own |
| `PnrLookup.RowsNumbered` | static/js/pnr.js:64-67 | rows are numbered in increasing order, the last one with the passenger count |
| `Cancellation.CancelMessage` | static/js/manage-bookings.js:28-48 | a success message exactly when the reply is ok and successful and the PNR's status element exists; a refusal shows the server's message or "Failed to cancel PNR p."; a thrown request, or a missing status element, gives the generic error |
| `Cancellation.ManageBookings.constructor` | static/js/manage-bookings.js:6-8 | one handler per rendered cancel button |
| `Cancellation.ManageBookings.Cancel` | static/js/manage-bookings.js:9-49 | the request is sent; only a confirmed cancellation with a status element sets that PNR to "CANCELLED" and removes its button, and no other PNR changes; a PNR marked cancelled has no button left |
| `Cancellation.CancelledTextInjective` | static/js/manage-bookings.js:30 | the confirmation names the PNR cancelled |
| `Cancellation.RefusedTextNamesPnr` | static/js/manage-bookings.js:43 | the failure fallback names the PNR |
| `Registration.Validate` | static/js/register.js:20-27 | the form may be sent exactly when the passwords match and have at least 8 characters; a mismatch is reported first |
| `Registration.ReplyMessage` | static/js/register.js:45-58 | a success message exactly when the reply is ok and successful; otherwise the server's message or "Registration failed.", or the generic error |
| `Registration.RegisterPage.constructor` | static/js/register.js:1-4 | the page starts with no message and nothing sent |
| `Registration.RegisterPage.Submit` | static/js/register.js:7-59 | a form failing a check shows that check's message and sends nothing; otherwise username, e-mail and password (not the confirmation) are sent, and a confirmed reply schedules /login |
| `Registration.SentPasswordsValid` | static/js/register.js:20-27 | every password that reaches the server has 8 or more characters and was typed twice alike |
| `Registration.CheckOrder` | static/js/register.js:20-27 | a short password alone is "too short"; a short mismatched pair reports the mismatch |

## Left out

- Where a comment and the code disagree, the code is followed. At seed_database.py:52-53 and :134 the comment counts 872 berths per train and 2616 seats. The layout gives 840 and 2520, as `Inventory.SeededSeats` states.
- The duplicate `total_mins` declaration at core_logic/core_logic.cpp:224-225 does not compile as written. It is modelled as the single declaration evidently meant.
- RouteGraph.Routes.FindFastestPath: it does not state that the reported time is the least over all routes, because the code does not achieve that (see Findings). It keeps modelling the code as written; the corrected definition, `FastestRoute.Fastest`, is proved least only over routes of at most k legs, for every k, and the bound on legs an optimal route needs is not proved.
- RouteGraph.Routes.FindFastestPath: completeness is stated for routes of at most 746,172 legs (legs × 2878 < 2^31 - 1). Longer routes could push a sum past the "infinity" marker.
- RouteGraph.Routes.AddEdge: it requires clock times in 0..1439, though `build_graph_with_time` takes any `int`. The layover and travel bounds the search proofs use hold only for in-range times.
- 32-bit `int` overflow of the C++ sums is not modelled; Dafny integers are unbounded.
- PnrLookup.PnrPage.Search: each lookup is modelled as running to completion, from the click to the reply, before the next event. Overlapping lookups are not captured: a late reply to an older lookup can overwrite a newer one, the first request's `finally` hides the spinner while a second is still in flight, and a failed reply arriving after a successful one leaves the ticket and the error shown together.
- Cancellation.ManageBookings.Cancel: each click is modelled as running to completion, from the click to the reply. The button stays live while its request is pending, so a second click sends a second request for the same PNR; that interleaving is not captured.
- Registration.RegisterPage.Submit: each submit is modelled as running to completion, from the submit to the reply. A second submit while the first request is pending sends a duplicate registration; that interleaving is not captured. Of the pages modelled, only the payment page disables its button for the duration of its request.
- The priority queue pops any entry of least time; the heap's order among equal times is not modelled. The proofs hold for every such order.
- `FindBestSeat` takes the occupied array as a sequence. An array shorter than its count, a null preference, and the static `last_result` shared between calls are not modelled.
- `strncpy` zero padding and the static `path_result_str` buffer are left out. Texts are Dafny strings. The `__declspec`/`extern "C"` export layer is left out.
- tree.c's `display` (printing) is left out.
- Database access in seed_database.py is left out: connecting, truncating, inserting trains and coaches, and the bulk insert. The ids `cursor.lastrowid` returns are a parameter. Train base fares (floats) are not modelled.
- The interpreter's string rules are simplified. `Trim` uses the ASCII and common Unicode white-space characters, not every Unicode space separator. Case mapping covers ASCII letters only. Length is counted in code points, not UTF-16 code units.
- All DOM work is left out: class toggling, innerHTML markup, button texts, the message box auto-hide (static/js/manage-bookings.js:61-64), and the map and search pages (static/js/search.js, static/js/main.js).
- Timer delays are left out, and each request's outcome is an input. The payment page's one-second wait is a counted step. `JSON.stringify`/`JSON.parse` of the draft is taken as exact, including a NaN fare, which JSON would turn into null.
- Fares are not modelled: `parseFloat` and `toFixed(2)` are left out, and a fare is an opaque number that is only copied.
- A form submitted on the payment page when no draft was found falls back to the browser's own submission. That is left out: the model treats it as doing nothing.
- main.py (the web server and API endpoints) is not part of this model. Server replies are inputs.

## Findings

| source | as written | input that shows it | evidently intended | confidence | as-written member | corrected member |
|---|---|---|---|---|---|---|
| core_logic/core_logic.cpp:169-205 | one distance and one arrival clock time per station; a station's legs are relaxed only from the clock time at which it got its least elapsed time, so a slower arrival that catches an earlier connection is dropped | legs S→A 00:00–00:10, S→A 08:20–08:25, A→E 00:20–00:30; search from S to E: 970 minutes reported (16h 10m), while S, A, E through the 00:10 arrival takes 30 | the least elapsed time over all routes: 30 minutes here | not executed; proved for every labelling the search can end with | `FastestRoute.LateConnectionRun` | `FastestRoute.FastestIsLeast` |

`RouteGraph.Routes.FindFastestPath` models the code as written, and `FastestRoute.LateConnectionLabel` shows that the strict-improvement rule leaves it no other answer on this graph. The corrected definition, `FastestRoute.Fastest`, is a Bellman-Ford computation over (station, arrival clock time) pairs. It is proved no slower than any route of at most k legs (`FastestRoute.FastestIsLeast`), proved to be the time of a real route (`FastestRoute.FastestAttained`), and proved to be 30 minutes on this graph (`FastestRoute.LateConnectionFastest`).
