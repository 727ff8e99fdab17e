# Verified model of the appointment backend

A Dafny 4.11 model of the booking backend: the slot engine and its time-zone conversion, the
booking lifecycle and its validator, the listing query, grid replacement, and refresh-token rotation.
`dafny verify dfyconfig.toml` checks all of it.

## Reading the model

- **Time.** Instants and naive wall-clock readings are integers counting microseconds; dates are day numbers
  with Monday as weekday 0. A zone is a base offset and a sequence of transitions with |offset| < 24 h
  whose disturbed wall readings do not run into each other (`Zone.Valid`). UTC-to-local gives a
  reading and a fold bit; local-to-UTC looks the offset up by reading and fold.
- **Slot engine** (`Slots`, `SlotLaws`, `ListingLaws`). The three nested loops are methods proved against
  functions; the laws are about those functions.
- **Validator** (`Validation`). The closed-form checks, the loop over rules, and exactly when they agree with the engine:
  the engine asks for room by length, counted on the wall from the start; the checks ask for room by the
  wall-clock end.
- **Clocks.** `Gain` is how much local clocks gain on UTC between two instants, `Slack` the wall-clock room between the
  end of one slot, by its length, and the start of the next. A plain start reads a whole minute and has no net fall-back over
  its slot. `Jumps` says which grids a forward jump makes overlap, `Pinches` the same of the starts the checks accept.
- **Bookings** (`Bookings`, `BookingLaws`). `Database` holds the tables and the open transaction's view; a
  flush checks the partial unique index, a rollback restores the committed rows. Runs are sequences of atomic calls.
- **Contracts** (`Contracts`). What the engine, the checks and each booking call answer and store, in terms of stored rows,
  settings and what local clocks read, without the functions that compute it.
- **Concurrency** (`Interleaving`, `Conservation`, `Races`, `Refinement`). The same calls cut into read-and-validate, flushed update,
  flushed insert, commit and abort, in any interleaving of any number of transactions. An update waits for the row lock;
  an insert waits while another open transaction has a stake in its key, and is otherwise accepted or refused.
- **Double booking** (`DoubleBooking`). Which organizations can be double-booked at all, over runs and interleavings.
  Transitions are taken to be a slot length apart (two for the closed form), and the lead to lie within the horizon, as
  otherwise nothing can be booked.
- **Grid** (`Availability`) and **tokens** (`Auth`; `TokenRaces` cuts refresh and logout into read and write).
- **Witnesses** (`Witnesses`, `TokenWitnesses`). Concrete inputs showing that the hypotheses are needed, and that they are met.

## What the code does where its documentation says otherwise

- The docstring at `backend/app/core/time.py:11` says ambiguous times resolve to the first occurrence. The
  validator passes times that carry the fold bit (`backend/app/services/booking_service.py:310`), so it accepts the second
  occurrence too, which the engine never lists (`ListedIffFitsByLength`, `AcceptedIffFitsByEnd`).
- The round-trip guard is documented as a protection against clock gaps. It never refuses anything
  (`RoundTripAccepts`): an instant always has a wall time that converts back.
- The grid check drops seconds, so it accepts starts the engine never lists (`ListedIffFitsByLength`).
- Checks compare the wall-clock end of a slot, the engine its wall-clock start plus the duration. They can part when the
  offset at the end of a slot differs from that at its start, in both directions (`OffsetRiseRefusesListed`,
  `OffsetDropAcceptsUnlisted`); `AgreementIsExact` and `PartIff` say when they do.
- "No double booking" rests on the index, which compares starts only. It fails for starts with seconds
  (`SecondsDoubleBook`) and for slots over which clocks fall back (`DropInsideDoubleBooks`, `FallBackDoubleBooks`); for all
  other requests `DoubleBookableIff` says exactly which organizations it fails for (`SpringForwardDoubleBooks` is one).
- Reschedule and refresh act on rows they read without a lock. `ConservedIff`, `AlwaysOkIff` and `RevivesIff` say exactly
  when that breaks conservation, single liveness and the death of a session.

## Model

| member | source | states |
|---|---|---|
| Zones.LocalToUtcIsExact | backend/app/core/time.py:14-23 | the conversion answers None exactly for wall times no instant reads, and otherwise the earliest (fold 0) or latest (fold 1) instant reading it |
| Zones.FirstReadersKeepOrder | backend/app/core/time.py:14-23 | on existing wall times the fold 0 conversion is injective and strictly increasing, both directions |
| Zones.RoundTrip | backend/app/services/booking_service.py:305-310 | UTC to local with its fold bit and back is the identity at every instant |
| Zones.FoldMeansLaterReader | backend/app/services/booking_service.py:306-310 | the fold bit of an instant is set exactly when an earlier instant reads the same wall time |
| Clock.WeekdayIsExact | backend/app/services/slot_service.py:108 | a date is of a weekday exactly when it lies a whole number of weeks from the first such day after a known Monday |
| Slots.IndexRules | backend/app/services/slot_service.py:62-66 | every weekday is indexed to exactly its rules in their given order |
| Slots.OfferSlot | backend/app/services/slot_service.py:114-126 | one cursor position yields its slot unless the wall time does not exist, it is too soon, booked or blocked; the hour handed on is at most 23 |
| Slots.AppendRuleSlots | backend/app/services/slot_service.py:109-126 | the cursor loop terminates and appends exactly the free slots of the rule's window |
| Slots.ComputeAvailableSlots | backend/app/services/slot_service.py:78-128 | the loops and the sort compute the listing function; a non-positive duration is an error |
| Contracts.EngineIsExact | backend/app/services/slot_service.py:98-128 | the listing is, earliest first, exactly the slots that begin at the first instant reading, on a date of the range that is of the rule's weekday, a minute a whole number of slots after the rule's start and one before its end, from the threshold on and sharing no time with a booking or exception |
| SlotLaws.EnumerationIsClosedForm | backend/app/services/slot_service.py:112-115 | counting slots from the start of a rule selects the same minutes as the remainder and fit test |
| SlotLaws.GridIsExact | backend/app/services/slot_service.py:107-126 | the loops meet a slot exactly when some date in range, rule of its weekday and raster minute offer it |
| SlotLaws.ListingIsExact | backend/app/services/slot_service.py:98-128 | the listing is sorted by start and holds exactly the grid slots that are late enough and overlap no booking or exception |
| SlotLaws.GridSlotsHaveRoom | backend/app/services/slot_service.py:109-126 | with disjoint rules there is room on the wall between two grid slots for the earlier one, fall-back included |
| SlotLaws.GridSlotsApart | backend/app/services/slot_service.py:109-126 | with disjoint rules grid slots do not overlap as long as clocks do not jump forward inside them |
| ListingLaws.ListingIsStrict | backend/app/services/slot_service.py:106-128 | with disjoint rules no start is listed twice |
| ListingLaws.ListedSlotsApart | backend/app/services/slot_service.py:106-128 | with disjoint rules, a listed slot without a forward jump inside ends before every later one starts |
| Jumps.GridClearIff | backend/app/services/slot_service.py:106-126 | with disjoint rules, and transitions at least a slot apart, the generated slots of a range of dates are pairwise disjoint if and only if, at every forward jump, a start before and a start behind it are further apart on the wall than a slot plus what the jump skips |
| Jumps.GridMeetsIff | backend/app/services/slot_service.py:106-126 | the same read off the wall clock and the rules: they are disjoint if and only if no jump has a grid reading whose slot runs into it and another behind it before that slot is over |
| Jumps.NeverListsOverlapIff | backend/app/services/availability_query.py:91-114 | whatever is booked and blocked and whenever one asks, no listing of these dates shows two overlapping slots if and only if no jump makes two grid readings meet so |
| ListingLaws.MoreBookingsFilter | backend/app/services/slot_service.py:122-127 | listing against more bookings is filtering the listing against fewer, with the order kept |
| ListingLaws.OrderIsIrrelevant | backend/app/services/slot_service.py:62-128 | the listing does not change when rules, bookings and exceptions are permuted, overlapping rules included |
| ListingLaws.RulesAddUp | backend/app/services/slot_service.py:109-126 | a slot is listed by rules together as often as by some of them and by the others |
| Contracts.OneRuleListsOnce | backend/app/services/slot_service.py:109-128 | one rule lists no slot twice, so rules list a slot as often as there are rules offering it |
| Availability.GridTable.ReplaceGrid | backend/app/services/availability_service.py:32-80 | accepts exactly the grids of non-empty, same-day pairwise disjoint windows, stores the given rules as a multiset, day by day as first met and within a day from early to late, and leaves the old grid on rejection; the error says which test failed, and names the first day that overlaps |
| Availability.GridOkMeans | backend/app/services/availability_service.py:51-60 | a grid is acceptable exactly when its windows are non-empty and no time of a day is within two windows of that day |
| Availability.CheckDays | backend/app/services/availability_service.py:54-75 | sorting each day and comparing neighbours accepts exactly the pairwise disjoint grids |
| Availability.GroupByDay | backend/app/services/availability_service.py:45-52 | grouping succeeds exactly when every window is non-empty, and then leaves the groups of the specification |
| Availability.GroupAllGroups | backend/app/services/availability_service.py:44-52 | these hold each day's rules in order, the days in the order they are first met |
| Availability.SortedNeighboursDecide | backend/app/services/availability_service.py:54-60 | sorted neighbours of one day are disjoint exactly when all its pairs are |
| Availability.GridOkPermutes | backend/app/services/availability_service.py:45-60 | acceptance does not depend on the order of the rules |
| Availability.TruncationKeepsDisjoint | backend/app/services/slot_service.py:110-111 | windows of an accepted grid stay disjoint after truncation to whole minutes |
| Validation.ValidateAgainstGrid | backend/app/services/booking_service.py:295-344 | the checks and the loop over the rules decide as the closed form does, with the same refusal |
| Contracts.VerdictIsExact | backend/app/services/booking_service.py:281-366 | which refusal each start gets, in order: outside lead or horizon, no rule on the weekday read, ending on another date, not granted by any rule, in the way of an exception |
| Validation.RoundTripAccepts | backend/app/services/booking_service.py:309-312 | the round-trip guard refuses no instant |
| Validation.GridCheckIffFitsByEnd | backend/app/services/booking_service.py:305-344 | at every instant the grid check passes if and only if the slot's end reads the same date and some rule of it is aligned with the start and lasts until the minute the end reads; the other refusals never decide |
| Validation.GridCheckIsRaster | backend/app/services/booking_service.py:327-344 | for a slot that ends under the offset it starts under, the grid check passes exactly when a rule of the local date offers its minute |
| Validation.ListedIffFitsByLength | backend/app/services/slot_service.py:106-126 | a start overlapping no booking is listed for its local date if and only if it is a whole minute on the first pass, late enough, not blocked, and some aligned rule has room for a slot length counted from its wall-clock minute |
| Validation.AcceptedIffFitsByEnd | backend/app/services/booking_service.py:281-366 | all checks pass if and only if the start is in the window, meets no exception, and has room by its wall-clock end |
| Validation.AgreementIsExact | backend/app/services/booking_service.py:281-366 | generator and validator agree on a start within the horizon that overlaps no booking if and only if it is no candidate anyway or room by length and room by wall-clock end coincide for it |
| Validation.ListedIffAccepted | backend/app/services/booking_service.py:281-366 | in particular, when the slot ends under the offset it starts under, it is listed exactly when all checks pass, its start is a whole minute and it is not the second pass through a repeated hour |
| Validation.PartIff | backend/app/services/booking_service.py:327-344 | for a candidate whose slot ends on the date it starts, generator and validator part just when the latest end among the aligned rules lies between the slot's end by length and the minute its end reads; if it ends on another date, just when it is listed |
| Validation.AcceptedStartsHaveRoom | backend/app/services/booking_service.py:334-342 | between plain accepted starts (whole minutes, no net fall-back over the slot) there is room on the wall for the earlier slot, except before a second pass under another offset |
| Validation.AcceptedStartsApart | backend/app/services/booking_service.py:334-342 | plain accepted starts (whole minutes, no fall-back over the slot) occupy disjoint stretches when no forward jump falls inside them, under any offsets and on either pass, or when they share one offset |
| Bookings.Database.CreateBooking | backend/app/services/booking_service.py:39-70 | the outcome and the tables are those of the create function, index conflict and rollback included |
| Contracts.CreateIsExact | backend/app/services/booking_service.py:39-70 | create succeeds exactly for a known organization on a start in its window, granted by a stored rule, in the way of no stored exception, that no active booking has; it adds one active row of one slot length; each failure has its error and stores nothing |
| Bookings.Database.CancelBooking | backend/app/services/booking_service.py:75-105 | the outcome and the tables are those of the cancel function; only the one row changes |
| Contracts.CancelIsExact | backend/app/services/booking_service.py:75-105 | cancel succeeds exactly for an active booking of the organization, by an administrator or its owner before the start, and stamps time and actor on that row only; each failure has its error and changes nothing |
| Bookings.Database.RescheduleBooking | backend/app/services/booking_service.py:110-159 | cancel, flush, insert, flush, commit or roll back amounts to the reschedule function; the first flush never fails |
| Contracts.RescheduleIsExact | backend/app/services/booking_service.py:110-159 | reschedule succeeds exactly for an active booking of the organization onto an open start that no other active booking has; it cancels that row, adds one active row of the same user, and keeps all others; each failure has its error and changes no row |
| Bookings.InsertKeepsIndex | backend/alembic/versions/0001_initial.py:187-194 | an insert keeps the partial unique index exactly when no other active row has its key |
| Bookings.CancelFreesKey | backend/app/services/booking_service.py:120-141 | after the flushed cancellation a key is taken exactly when a row other than the cancelled one holds it |
| Bookings.Database.ListAvailableSlots | backend/app/services/availability_query.py:49-114 | the query with its padded pre-filter answers what the engine computes from every active booking and every exception of the organization |
| Contracts.QueryIsExact | backend/app/services/availability_query.py:30-114 | for a known organization and an upright range of at most its horizon the query lists, earliest first, exactly the slots its stored rules offer on the dates of the range, clear of its active bookings and exceptions; otherwise it gives the right error |
| Contracts.QueryIsStrict | backend/app/services/availability_query.py:91-114 | with an accepted grid no start is listed twice, so the answer is determined |
| Contracts.RangeIsItsDates | backend/app/services/availability_query.py:91-114 | a slot is listed for a range exactly when it is listed for one of its dates |
| Contracts.OthersDoNotMatter | backend/app/services/booking_service.py:281-366 | bookings, exceptions and settings of other organizations change no answer to a create or reschedule |
| Contracts.OthersAreNotListed | backend/app/services/availability_query.py:70-89 | nor do they change a listing |
| Contracts.OtherExceptionIsIgnored | backend/app/services/booking_service.py:353-366 | in particular an exception stored for another organization changes nothing for this one |
| Contracts.OwnExceptionBlocks | backend/app/services/booking_service.py:353-366 | one stored for the organization refuses, for that reason, exactly the starts it is in the way of that were bookable before |
| Bookings.PrefilterPreservesListing | backend/app/services/availability_query.py:66-89 | restricting bookings and exceptions to the padded window changes no listing, for every zone with offsets under a day |
| BookingLaws.RunKeepsRows | backend/app/services/booking_service.py:39-159 | over any run a booking never disappears, an active one can only be cancelled, a cancelled one is never touched again |
| BookingLaws.RunPlacesBookings | backend/app/services/booking_service.py:39-159 | over any run of calls and exception edits from no bookings, every active booking occupies one slot length from its start, with room by its wall-clock end, and no two start together |
| BookingLaws.NoDoubleBooking | backend/app/services/booking_service.py:39-159 | such a run keeps active bookings pairwise disjoint when requested starts are plain and no forward jump falls inside a requested slot, whatever offset changes lie between, or when they are plain and share one offset |
| BookingLaws.NoDoubleBookingInFixedZone | backend/app/services/booking_service.py:39-159 | the same for a zone of one whole-minute offset and whole-minute starts |
| BookingLaws.RescheduleConserves | backend/app/services/booking_service.py:124-159 | any error leaves the table unchanged, and in every case each user keeps the same number of active bookings |
| BookingLaws.RescheduleInPlace | backend/app/services/booking_service.py:120-141 | moving a booking onto its own start succeeds exactly when the checks pass; it never conflicts |
| BookingLaws.CreateFilters | backend/app/services/booking_service.py:54-68 | after a successful create the listing is the old one minus precisely the overlapping slots; other organizations' listings are unchanged |
| BookingLaws.CancelUndoesCreate | backend/app/services/booking_service.py:85-103 | a new booking can be cancelled exactly by an administrator, or by its owner before it starts, and cancelling it restores every listing exactly |
| BookingLaws.CancelReleases | backend/app/services/booking_service.py:100-103 | cancelling any booking gives back precisely the slots that overlapped it |
| BookingLaws.RescheduleMoves | backend/app/services/booking_service.py:136-157 | a reschedule changes the listing as cancelling the old booking and then creating the new one |
| BookingLaws.ListedIsBookable | backend/app/services/availability_query.py:91-114 | a listed slot can be booked as listed if and only if it starts within the horizon and has room by its wall-clock end, which it has when it ends under the offset it starts under; the insert cannot conflict |
| BookingLaws.BookableIffListed | backend/app/services/booking_service.py:46-70 | on a start within the horizon that overlaps no active booking, booking and listing agree if and only if it is no candidate anyway or its two kinds of room coincide |
| Interleaving.StepKeepsInv | backend/app/services/booking_service.py:54-159 | every transaction step, conflicts and aborts included, keeps the invariant of committed and pending rows |
| Interleaving.IndexSafety | backend/alembic/versions/0001_initial.py:187-194 | under every interleaving each committed state has at most one active booking per organization and start; rows persist, keep organization, user, start and end, never return to active, and are cancelled exactly when stamped |
| Refinement.RunIsInterleaving | backend/app/services/booking_service.py:39-159 | every run of atomic calls, failures and index conflicts included, is an interleaving of transactions that leaves the same rows |
| Refinement.TransactionsCanDoIt | backend/app/services/booking_service.py:39-159 | from any tables without open transactions, some interleaving leaves the rows that a given run of atomic calls leaves |
| Races.NoConcurrentDoubleBooking | backend/app/services/booking_service.py:3-14 | under every interleaving, with an accepted grid, committed active bookings are pairwise disjoint when requested starts are plain and no forward jump falls inside their slots, or when they are plain and share one offset |
| Pinches.AcceptedClearIff | backend/app/services/booking_service.py:295-344 | the slots of plain accepted starts are pairwise disjoint if and only if they are clear of every forward jump |
| Pinches.PinchIff | backend/app/services/booking_service.py:334-342 | the same read off the settings: with whole-minute jumps two slots apart, they are disjoint if and only if no jump pinches a slot of a rule, that is comes so soon after an aligned start that rounding the jump up to whole slots adds at least as much, with room in the rule for the slot behind it |
| DoubleBooking.NeverDoubleBooksIff | backend/app/services/booking_service.py:39-159 | from no bookings, with an accepted grid, no run of plain requests ever double-books the organization if and only if its accepted starts are clear of every forward jump |
| DoubleBooking.NeverDoubleBooksConcurrentlyIff | backend/app/services/booking_service.py:3-14 | no interleaving of transactions with plain requests ever does, under exactly the same condition |
| DoubleBooking.DoubleBookableIff | backend/app/services/booking_service.py:39-159 | both in terms of the settings: plain requests can double-book the organization if and only if some jump pinches a slot of some rule |
| DoubleBooking.DividingLengthsNeverDoubleBook | backend/app/services/booking_service.py:39-159 | an organization whose slot length divides every jump of its clocks is never double-booked by plain requests |
| Races.ExactlyOneWinner | backend/app/services/booking_service.py:61-70 | however creates of one free key begin, validate, claim and commit among each other and among transactions that ignore the key, exactly one commits, its row is the only one with the key, and all others conflict with their writes rolled back |
| Races.RaceGoesOn | backend/app/services/booking_service.py:61-70 | at every point of every race, while a competitor is unfinished some competitor can take a step, whatever the other transactions hold |
| Races.RunsEnd | backend/app/services/booking_service.py:39-159 | every interleaving ends: N transactions take at most 5 * N steps |
| Conservation.StepBalance | backend/app/services/booking_service.py:124-159 | a user's number of active bookings changes by the effect of the step: only commits count, and the commit of a reschedule adds nothing if and only if its row is still active |
| Conservation.RunBalance | backend/app/services/booking_service.py:39-159 | over any interleaving a user ends with the bookings there were, plus those created, minus those cancelled, plus one for every reschedule of a booking cancelled behind its back |
| Conservation.ConservedIff | backend/app/services/booking_service.py:124-159 | rescheduling conserves over an interleaving if and only if no reschedule in it commits for a booking that is already cancelled |
| Conservation.LockedRowStays | backend/app/services/booking_service.py:136-140 | whether that happens is settled when the row lock is taken: no other transaction changes the row until then |
| Conservation.RescheduledTwice | backend/app/services/booking_service.py:124-157 | two interleaved reschedules of one booking, onto any two free keys that pass the checks, can both commit and leave one booking more |
| Conservation.CancelledComesBack | backend/app/services/booking_service.py:124-157 | a booking cancelled between the validation and the update of its reschedule comes back as a new active one |
| Witnesses.SpringForwardOverlap | backend/app/services/slot_service.py:109-126 | two listed 45-minute slots overlap when clocks jump forward inside one of them |
| Witnesses.OffsetRiseRefusesListed | backend/app/services/booking_service.py:327-344 | a listed start is refused when the offset rises inside its slot |
| Witnesses.OffsetDropAcceptsUnlisted | backend/app/services/booking_service.py:327-344 | an unlisted start is accepted when the offset drops inside its slot |
| Witnesses.OverlappingAcceptedDoubleBooks | backend/app/services/booking_service.py:46-70 | two overlapping starts that pass the checks can both be booked |
| Witnesses.SpringForwardDoubleBooks | backend/app/services/booking_service.py:46-70 | two plain first-pass starts on both sides of a forward jump pass the checks and overlap |
| Witnesses.SpringPinches | backend/app/services/booking_service.py:334-342 | the jump of an hour at two o'clock pinches the 45-minute slot at a quarter to two, and no half-hour slot of any rule |
| Witnesses.SpringIsDoubleBookable | backend/app/services/booking_service.py:39-70 | an organization with 45-minute slots around that jump can be double-booked |
| Witnesses.DropInsideDoubleBooks | backend/app/services/booking_service.py:327-344 | whole-minute first-pass starts without a forward jump overlap when clocks fall back over the earlier slot, which is accepted by the minute its end reads |
| Witnesses.SecondsDoubleBook | backend/app/services/booking_service.py:328-329 | two starts half a minute apart both pass the checks and overlap |
| Witnesses.FallBackDoubleBooks | backend/app/services/booking_service.py:306-310 | the two readings of one repeated wall time both pass the checks and overlap |
| Witnesses.TwoMovesMakeTwo | backend/app/services/booking_service.py:124-157 | a booking at nine, rescheduled to ten and to eleven by interleaved calls, becomes two |
| Witnesses.CancelledBookingReturns | backend/app/services/booking_service.py:124-157 | a booking at nine, cancelled while its reschedule to ten is under way, is active again at ten |
| Witnesses.TwoRaceForTen | backend/app/services/booking_service.py:61-70 | two users race for one slot: both pass the checks, one commits, the other conflicts |
| Auth.TokenTable.RefreshToken | backend/app/services/auth_service.py:138-174 | rotation, reuse detection with family revocation, and the three refusals leave the rows the specification gives |
| Auth.RefreshIsExact | backend/app/services/auth_service.py:138-174 | which answer and which rows each refresh leaves: unknown, revoked, expired, user gone, or rotated into one successor |
| Auth.TokenTable.LogIn | backend/app/services/auth_service.py:125-135 | a login adds one live row of its family, bad credentials add none |
| Auth.LoginIsExact | backend/app/services/auth_service.py:125-135 | a login with a user answers the minted token and adds exactly one row for it, live, of that user and family, until its time to live from now; one without a user is refused and stores nothing |
| Auth.LoginServesRefresh | backend/app/services/auth_service.py:125-174 | the token a login answers is good for a refresh until it expires, whatever calls on other families come between |
| Auth.TokenTable.LogOut | backend/app/services/auth_service.py:177-188 | a live token is revoked, an unknown or revoked one changes nothing |
| Auth.LogoutIsExact | backend/app/services/auth_service.py:177-188 | a logout revokes the presented token if it is stored and live, and nothing else |
| Auth.TokenTable.RevokeLive | backend/app/services/auth_service.py:152-159 | exactly the live rows of the family are revoked |
| Auth.RunKeepsFamilies | backend/app/services/auth_service.py:97-188 | over any run tokens are distinct, a family has one user, and at most its newest token is live |
| Auth.RunKeepsRows | backend/app/services/auth_service.py:150-188 | rows are never lost and revocation is permanent |
| Auth.OtherFamiliesUntouched | backend/app/services/auth_service.py:150-174 | a call on one family neither changes nor adds rows of another |
| Auth.RefreshRotates | backend/app/services/auth_service.py:141-174 | refresh succeeds exactly on a stored, live, unexpired token of an existing user, which is then its family's newest and is replaced |
| Auth.ReuseKills | backend/app/services/auth_service.py:150-161 | presenting a revoked token is refused and leaves its family without a live token |
| Auth.LogoutKills | backend/app/services/auth_service.py:186-188 | logging out the live token leaves its family without a live token |
| Auth.DeadForever | backend/app/services/auth_service.py:150-188 | once dead, a family is never changed, extended or accepted again by any run of calls |
| Auth.RotatedTokenIsATrap | backend/app/services/auth_service.py:150-172 | presenting a rotated token again, after any calls in between, is detected and kills the family |
| TokenRaces.RotationKeepsFamiliesIff | backend/app/services/auth_service.py:141-173 | a rotation on a possibly stale reading keeps one newest live token per family if and only if no other token of the family is live when it writes |
| TokenRaces.AlwaysOkIff | backend/app/services/auth_service.py:125-188 | over every interleaving of reads and writes that guarantee holds throughout if and only if no rotation writes while another token of its family is live |
| TokenRaces.RevivesIff | backend/app/services/auth_service.py:150-188 | a move revives a dead family if and only if it writes a rotation of one of its tokens, and that token was then revoked between the read and the write |
| TokenRaces.DrainedStaysDead | backend/app/services/auth_service.py:150-188 | through every interleaving a dead family stays dead once no refresh is under way that read it alive |
| TokenRaces.RestStaysDead | backend/app/services/auth_service.py:150-188 | in particular a family that is dead while no call is under way stays dead through every interleaving |
| TokenRaces.CurrentRunsAreSafe | backend/app/services/auth_service.py:125-188 | in runs whose rotations find their row still live when they write, as a row lock would ensure, the guarantee holds throughout and a dead family stays dead |
| TokenRaces.ReadThenWriteIsPerform | backend/app/services/auth_service.py:138-188 | a read with its write right behind is the atomic call, and its reading is current |
| TokenRaces.TwoRefreshesFork | backend/app/services/auth_service.py:141-173 | whatever other calls are under way, two refreshes of one usable token that both read before either writes leave two live tokens |
| TokenRaces.RefreshOutlivesLogout | backend/app/services/auth_service.py:141-188 | whatever other calls are under way, a refresh that read its token before a logout and writes after it brings the dead family back |
| TokenWitnesses.ReuseEndsSession | backend/app/services/auth_service.py:125-174 | a login, a rotation and the rotated token presented again: the session is dead |
| TokenWitnesses.LoginsDoNotInterfere | backend/app/services/auth_service.py:125-174 | a session's token is good after another user's login |
| TokenWitnesses.OneTokenForks | backend/app/services/auth_service.py:141-173 | two refreshes of one stored token leave two live ones |
| TokenWitnesses.OneTokenRevives | backend/app/services/auth_service.py:141-188 | a refresh under way outlives the logout of the one stored token |

## Left out

- Routers, request schemas, HTTP error mapping, settings and health checks; the schemas refuse timestamps without a zone, so starts are instants here.
- The registration, organization and exception endpoints: single-branch members. Exception edits are steps of a run with arbitrary new rows.
- The admin calendar and the paginated booking lists: joins and pages over what is modelled, with an order the code leaves open on ties.
- The zone database: a zone is a parameter; the year 9999 limit of datetimes is not modelled.
- Database internals: tables are maps and sequences, the sequence of ids is a counter that a refused insert still advances, deletion by cascade does not occur.
- Clock readings: one reading per call, passed as a parameter.
- Passwords, access tokens and hashing: a refresh token and its hash are one opaque id, generated ids are fresh.
- Deletion of users while token calls interleave; a call whose token is unknown, which ends with its read.
- The wait-for cycle of two reschedules that swap keys: the database breaks it by aborting one, and any open transaction may abort here.
- Zones with two transitions within one slot length: the exact results on overlap do not cover them, the sufficient ones do.
- Grid and duration changes during a run: the no-double-booking results are about an unchanged grid and duration.
- Clock, exception and role checks in the interleaved model may come out either way, so its results hold whatever they answer.
