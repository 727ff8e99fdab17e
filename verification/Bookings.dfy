/** The booking lifecycle as atomic service calls over the tables, and the listing query. */
module Bookings {
  import opened Clock
  import opened Slots
  import opened SlotLaws
  import opened Validation
  import opened Wrappers
  import opened Zones

  datatype Status = Active | Cancelled

  datatype Booking = Booking(org: int, user: int, start: int, end: int, status: Status,
                             cancelledAt: Option<int>, cancelledBy: Option<int>)
  {
    function Span(): Range { Range(start, end) }

    predicate Holds(o: int) { status.Active? && org == o }

    predicate HoldsKey(o: int, u: int) { Holds(o) && start == u }

    /** The row after a cancellation. */
    function Cancel(now: int, actor: int): Booking {
      this.(status := Cancelled, cancelledAt := Some(now), cancelledBy := Some(actor))
    }
  }

  type Table = map<nat, Booking>

  datatype ExceptionRow = ExceptionRow(org: int, start: int, end: int)

  datatype Error = NotFound | Conflict | Forbidden | ValidationFailed(why: Refusal)

  datatype QueryError = UnknownOrganization | InvertedRange | RangeTooWide

  /** A new active row. */
  function NewBooking(org: int, user: int, slot: Range): Booking {
    Booking(org, user, slot.start, slot.end, Active, None, None)
  }

  // ----- the partial unique index -----

  /** No two active rows share organization and start. */
  predicate IndexHolds(t: Table) {
    forall i, j :: i in t && j in t && i != j && t[i].status.Active? ==> !t[j].HoldsKey(t[i].org, t[i].start)
  }

  /** An active row other than `id` has this key. */
  predicate KeyTaken(t: Table, id: nat, org: int, start: int) {
    exists j :: j in t && j != id && t[j].HoldsKey(org, start)
  }

  lemma InsertKeepsIndex(t: Table, id: nat, row: Booking)
    requires IndexHolds(t) && id !in t && row.status.Active?
    ensures IndexHolds(t[id := row]) <==> !KeyTaken(t, id, row.org, row.start)
  {
    var t' := t[id := row];
    if KeyTaken(t, id, row.org, row.start) {
      var j :| j in t && j != id && t[j].HoldsKey(row.org, row.start);
      assert t'[j].HoldsKey(t'[id].org, t'[id].start);
    }
  }

  lemma CancelKeepsIndex(t: Table, id: nat, now: int, actor: int)
    requires IndexHolds(t) && id in t
    ensures IndexHolds(t[id := t[id].Cancel(now, actor)])
  {
  }

  lemma CancelFreesKey(t: Table, id: nat, newId: nat, now: int, actor: int, org: int, start: int)
    requires id in t && newId !in t
    ensures KeyTaken(t[id := t[id].Cancel(now, actor)], newId, org, start) <==> KeyTaken(t, id, org, start)
  {
    var t' := t[id := t[id].Cancel(now, actor)];
    if j :| j in t' && j != newId && t'[j].HoldsKey(org, start) {
      assert t[j].HoldsKey(org, start);
    }
    if j :| j in t && j != id && t[j].HoldsKey(org, start) {
      assert t'[j].HoldsKey(org, start);
    }
  }

  // ----- the tables -----

  /** The stored rules of the organization; none stored is an empty grid. */
  function GridOf(grids: map<int, seq<GridRule>>, org: int): seq<GridRule> { if org in grids then grids[org] else [] }

  /** A booking takes time, and is stamped exactly when it is cancelled. */
  ghost predicate RowOk(b: Booking) {
    b.start < b.end && (b.status.Cancelled? <==> b.cancelledAt.Some?)
  }

  datatype State = State(orgs: map<int, Organization>, grids: map<int, seq<GridRule>>,
                         exceptions: seq<ExceptionRow>, bookings: Table, nextId: nat)
  {
    /** What the schema's constraints and the sequence guarantee. */
    ghost predicate Valid() {
      && (forall o :: o in orgs ==> orgs[o].Valid())
      && (forall i :: i in bookings ==> i < nextId && RowOk(bookings[i]))
      && IndexHolds(bookings)
    }

    function Grid(org: int): seq<GridRule> { GridOf(grids, org) }
  }

  /** The spans of the organization's active rows among ids below n, by id. */
  function ActiveSpans(t: Table, n: nat, org: int): seq<Range> {
    if n == 0 then []
    else ActiveSpans(t, n - 1, org) + if n - 1 in t && t[n - 1].Holds(org) then [t[n - 1].Span()] else []
  }

  function ExceptionSpans(rows: seq<ExceptionRow>, org: int): seq<Range> {
    if rows == [] then []
    else (if rows[0].org == org then [Range(rows[0].start, rows[0].end)] else []) + ExceptionSpans(rows[1..], org)
  }

  lemma {:induction false} ExceptionSpansMembers(rows: seq<ExceptionRow>, org: int, r: Range)
    ensures r in ExceptionSpans(rows, org) <==>
              exists i :: 0 <= i < |rows| && rows[i].org == org && rows[i].start == r.start && rows[i].end == r.end
  {
    if rows != [] {
      var rest := rows[1..];
      ExceptionSpansMembers(rest, org, r);
      if i :| 0 <= i < |rest| && rest[i].org == org && rest[i].start == r.start && rest[i].end == r.end {
        assert rows[i + 1] == rest[i];
      }
      if i :| 1 <= i < |rows| && rows[i].org == org && rows[i].start == r.start && rows[i].end == r.end {
        assert rest[i - 1] == rows[i];
      }
    }
  }

  lemma {:induction false} ActiveSpansMembers(t: Table, n: nat, org: int, r: Range)
    ensures r in ActiveSpans(t, n, org) <==> exists i: nat :: i < n && i in t && t[i].Holds(org) && t[i].Span() == r
  {
    if n > 0 {
      ActiveSpansMembers(t, n - 1, org, r);
    }
  }

  // ----- the calls, as functions of the tables -----

  datatype Outcome = Outcome(result: Result<nat, Error>, after: State)

  ghost function Check(st: State, org: int, u: int, now: int): Option<Refusal>
    requires st.Valid() && org in st.orgs
  {
    Verdict(st.orgs[org], st.Grid(org), ExceptionSpans(st.exceptions, org), u, now)
  }

  /** create_booking. A refused insert still uses up an id of the sequence. */
  ghost function Create(st: State, org: int, user: int, u: int, now: int): Outcome
    requires st.Valid()
  {
    if org !in st.orgs then Outcome(Err(NotFound), st)
    else if Check(st, org, u, now).Some? then Outcome(Err(ValidationFailed(Check(st, org, u, now).value)), st)
    else
      var used := st.(nextId := st.nextId + 1);
      if KeyTaken(st.bookings, st.nextId, org, u) then Outcome(Err(Conflict), used)
      else
        var row := NewBooking(org, user, st.orgs[org].SlotFrom(u));
        Outcome(Ok(st.nextId), used.(bookings := st.bookings[st.nextId := row]))
  }

  predicate InOrg(t: Table, id: nat, org: int) { id in t && t[id].org == org }

  /** cancel_booking. */
  ghost function Cancel(st: State, org: int, actor: int, admin: bool, id: nat, now: int): Outcome {
    if !InOrg(st.bookings, id, org) then Outcome(Err(NotFound), st)
    else
      var row := st.bookings[id];
      if row.status.Cancelled? then Outcome(Err(Conflict), st)
      else if !admin && (row.user != actor || row.start <= now) then Outcome(Err(Forbidden), st)
      else Outcome(Ok(id), st.(bookings := st.bookings[id := row.Cancel(now, actor)]))
  }

  /** reschedule_booking. */
  ghost function Reschedule(st: State, org: int, actor: int, id: nat, u: int, now: int): Outcome
    requires st.Valid()
  {
    if !InOrg(st.bookings, id, org) then Outcome(Err(NotFound), st)
    else
      var row := st.bookings[id];
      if row.status.Cancelled? then Outcome(Err(Conflict), st)
      else if org !in st.orgs then Outcome(Err(NotFound), st)
      else if Check(st, org, u, now).Some? then Outcome(Err(ValidationFailed(Check(st, org, u, now).value)), st)
      else
        var used := st.(nextId := st.nextId + 1);
        if KeyTaken(st.bookings, id, org, u) then Outcome(Err(Conflict), used)
        else
          var moved := NewBooking(org, row.user, st.orgs[org].SlotFrom(u));
          Outcome(Ok(st.nextId), used.(bookings := st.bookings[id := row.Cancel(now, actor)][st.nextId := moved]))
  }

  /** list_available_slots, from every active booking and every exception of the organization. */
  ghost function Listing(st: State, org: int, first: int, last: int, now: int): Result<seq<Range>, QueryError>
    requires st.Valid()
  {
    if org !in st.orgs then Err(UnknownOrganization)
    else if last < first then Err(InvertedRange)
    else if last - first > st.orgs[org].horizonDays then Err(RangeTooWide)
    else
      var o := st.orgs[org];
      Ok(AvailableSlots(o.zone, o.duration, st.Grid(org), ActiveSpans(st.bookings, st.nextId, org),
                        ExceptionSpans(st.exceptions, org), first, last, o.Threshold(now)))
  }

  lemma CreateKeepsValid(st: State, org: int, user: int, u: int, now: int)
    requires st.Valid()
    ensures Create(st, org, user, u, now).after.Valid()
  {
    if org in st.orgs {
      InsertKeepsIndex(st.bookings, st.nextId, NewBooking(org, user, st.orgs[org].SlotFrom(u)));
    }
  }

  lemma CancelKeepsValid(st: State, org: int, actor: int, admin: bool, id: nat, now: int)
    requires st.Valid()
    ensures Cancel(st, org, actor, admin, id, now).after.Valid()
  {
    if id in st.bookings { CancelKeepsIndex(st.bookings, id, now, actor); }
  }

  lemma RescheduleKeepsValid(st: State, org: int, actor: int, id: nat, u: int, now: int)
    requires st.Valid()
    ensures Reschedule(st, org, actor, id, u, now).after.Valid()
  {
    if id in st.bookings && org in st.orgs {
      var lifted := st.bookings[id := st.bookings[id].Cancel(now, actor)];
      CancelKeepsIndex(st.bookings, id, now, actor);
      CancelFreesKey(st.bookings, id, st.nextId, now, actor, org, u);
      InsertKeepsIndex(lifted, st.nextId, NewBooking(org, st.bookings[id].user, st.orgs[org].SlotFrom(u)));
    }
  }

  // ----- the padded pre-filter -----

  /** The rows a query restricted to this window of instants returns. */
  function Within(rows: seq<Range>, lo: int, hi: int): seq<Range> {
    if rows == [] then []
    else (if lo < rows[0].end && rows[0].start < hi then [rows[0]] else []) + Within(rows[1..], lo, hi)
  }

  function PadStart(first: int): int { first * DAY - DAY }

  /** The last microsecond of the last date, a day later. */
  function PadEnd(last: int): int { last * DAY + (DAY - 1) + DAY }

  lemma WithinMembers(rows: seq<Range>, lo: int, hi: int, r: Range)
    ensures r in Within(rows, lo, hi) <==> r in rows && lo < r.end && r.start < hi
  {
  }

  lemma DateBounds(date: int, first: int, last: int)
    requires first <= date <= last
    ensures first * DAY <= date * DAY <= last * DAY
  {
  }

  /** A grid slot of the dates lies inside the padded window, whatever the zone's offsets. */
  lemma GridSlotInsidePad(z: Zone, duration: int, rules: seq<GridRule>, first: int, last: int, s: Range)
    requires z.Valid() && 0 < duration && InGrid(z, duration, rules, first, last, s)
    ensures PadStart(first) < s.start && s.end <= PadEnd(last)
  {
    var date, rule, m :| first <= date <= last && rule in rules && OfferedAt(z, duration, date, rule, m, s);
    SlotAtWall(z, duration, date, rule, m, s);
    assert -DAY < z.OffsetAt(s.start) < DAY;
    DateBounds(date, first, last);
  }

  lemma OutsidePadNoOverlap(s: Range, rows: seq<Range>, lo: int, hi: int)
    requires lo < s.start && s.end <= hi
    ensures OverlapsAny(s, Within(rows, lo, hi)) <==> OverlapsAny(s, rows)
  {
    forall r ensures r in Within(rows, lo, hi) <==> r in rows && lo < r.end && r.start < hi {
      WithinMembers(rows, lo, hi, r);
    }
  }

  lemma {:induction false} KeepFreeAgrees(slots: seq<Range>, threshold: int, b: seq<Range>, b': seq<Range>,
                                          e: seq<Range>, e': seq<Range>)
    requires forall s :: s in slots ==> (OverlapsAny(s, b) <==> OverlapsAny(s, b'))
    requires forall s :: s in slots ==> (OverlapsAny(s, e) <==> OverlapsAny(s, e'))
    ensures KeepFree(slots, threshold, b, e) == KeepFree(slots, threshold, b', e')
  {
    if slots != [] {
      assert slots[0] in slots;
      KeepFreeAgrees(slots[1..], threshold, b, b', e, e');
    }
  }

  /** Restricting bookings and exceptions to the padded window changes nothing in the listing. */
  lemma PrefilterPreservesListing(z: Zone, duration: int, rules: seq<GridRule>, bookings: seq<Range>,
                                  exceptions: seq<Range>, first: int, last: int, threshold: int)
    requires z.Valid() && 0 < duration
    ensures AvailableSlots(z, duration, rules, Within(bookings, PadStart(first), PadEnd(last)),
                           Within(exceptions, PadStart(first), PadEnd(last)), first, last, threshold)
         == AvailableSlots(z, duration, rules, bookings, exceptions, first, last, threshold)
  {
    var lo, hi := PadStart(first), PadEnd(last);
    var grid := GridSlots(z, duration, rules, first, last);
    forall s | s in grid
      ensures OverlapsAny(s, Within(bookings, lo, hi)) <==> OverlapsAny(s, bookings)
      ensures OverlapsAny(s, Within(exceptions, lo, hi)) <==> OverlapsAny(s, exceptions)
    {
      GridIsExact(z, duration, rules, first, last, s);
      GridSlotInsidePad(z, duration, rules, first, last, s);
      OutsidePadNoOverlap(s, bookings, lo, hi);
      OutsidePadNoOverlap(s, exceptions, lo, hi);
    }
    KeepFreeAgrees(grid, threshold, Within(bookings, lo, hi), bookings, Within(exceptions, lo, hi), exceptions);
  }

  // ----- the services -----

  class Database {
    var orgs: map<int, Organization>
    var grids: map<int, seq<GridRule>>
    var exceptions: seq<ExceptionRow>
    /** The committed rows. */
    var bookings: Table
    /** The rows as the open transaction sees them; equal to `bookings` between calls. */
    var view: Table
    var nextId: nat

    ghost function Tables(): State
      reads this
    {
      State(orgs, grids, exceptions, bookings, nextId)
    }

    ghost predicate Valid()
      reads this
    {
      Tables().Valid() && view == bookings
    }

    constructor (orgs: map<int, Organization>, grids: map<int, seq<GridRule>>)
      requires forall o :: o in orgs ==> orgs[o].Valid()
      ensures Valid() && Tables() == State(orgs, grids, [], map[], 0)
    {
      this.orgs, this.grids := orgs, grids;
      exceptions, bookings, view, nextId := [], map[], map[], 0;
    }

    /** Send pending writes: fails when they break the unique index. */
    method Flush() returns (ok: bool)
      ensures ok <==> IndexHolds(view)
    {
      ok := IndexHolds(view);
    }

    method Commit()
      modifies this`bookings
      ensures bookings == view
    {
      bookings := view;
    }

    method Rollback()
      modifies this`view
      ensures view == bookings
    {
      view := bookings;
    }

    /** Add a row, flush, and commit, or roll the whole transaction back when the index refuses. */
    method InsertAndCommit(row: Booking) returns (ok: bool, id: nat)
      modifies this`bookings, this`view, this`nextId
      ensures id == old(nextId) && nextId == id + 1
      ensures ok <==> IndexHolds(old(view)[id := row])
      ensures bookings == view == if ok then old(view)[id := row] else old(bookings)
    {
      id := nextId;
      nextId := nextId + 1;
      view := view[id := row];
      ok := Flush();
      if ok {
        Commit();
      } else {
        Rollback();
      }
    }

    /** Cancel a row, flush, then insert the row that takes its place. The first flush never fails. */
    method CancelAndInsert(id: nat, actor: int, now: int, row: Booking) returns (ok: bool, newId: nat)
      requires Valid() && id in bookings && row.status.Active?
      modifies this`bookings, this`view, this`nextId
      ensures newId == old(nextId) && nextId == newId + 1
      ensures ok <==> !KeyTaken(old(bookings), id, row.org, row.start)
      ensures bookings == view == if ok then old(bookings)[id := old(bookings[id]).Cancel(now, actor)][newId := row]
                                  else old(bookings)
    {
      CancelKeepsIndex(bookings, id, now, actor);
      CancelFreesKey(bookings, id, nextId, now, actor, row.org, row.start);
      InsertKeepsIndex(bookings[id := bookings[id].Cancel(now, actor)], nextId, row);
      view := view[id := view[id].Cancel(now, actor)];
      var lifted := Flush();
      assert lifted;
      ok, newId := InsertAndCommit(row);
    }

    method CreateBooking(org: int, user: int, slotStart: int, now: int) returns (r: Result<nat, Error>)
      requires Valid()
      modifies this`bookings, this`view, this`nextId
      ensures Valid()
      ensures Outcome(r, Tables()) == Create(old(Tables()), org, user, slotStart, now)
    {
      CreateKeepsValid(Tables(), org, user, slotStart, now);
      if org !in orgs {
        return Err(NotFound);
      }
      var o := orgs[org];
      var rules := GridOf(grids, org);
      var refusal := Validate(o, rules, ExceptionSpans(exceptions, org), slotStart, now);
      if refusal.Some? {
        return Err(ValidationFailed(refusal.value));
      }
      var row := NewBooking(org, user, o.SlotFrom(slotStart));
      InsertKeepsIndex(bookings, nextId, row);
      var ok, id := InsertAndCommit(row);
      if !ok {
        return Err(Conflict);
      }
      return Ok(id);
    }

    method CancelBooking(org: int, actor: int, admin: bool, id: nat, now: int) returns (r: Result<nat, Error>)
      requires Valid()
      modifies this`bookings, this`view
      ensures Valid()
      ensures Outcome(r, Tables()) == Cancel(old(Tables()), org, actor, admin, id, now)
    {
      if id !in view || view[id].org != org {
        return Err(NotFound);
      }
      var row := view[id];
      if row.status == Cancelled {
        return Err(Conflict);
      }
      var isOwner := row.user == actor;
      if !(isOwner || admin) {
        return Err(Forbidden);
      }
      if !admin && row.start <= now {
        return Err(Forbidden);
      }
      CancelKeepsIndex(bookings, id, now, actor);
      view := view[id := row.Cancel(now, actor)];
      Commit();
      return Ok(id);
    }

    method RescheduleBooking(org: int, actor: int, id: nat, newStart: int, now: int) returns (r: Result<nat, Error>)
      requires Valid()
      modifies this`bookings, this`view, this`nextId
      ensures Valid()
      ensures Outcome(r, Tables()) == Reschedule(old(Tables()), org, actor, id, newStart, now)
    {
      RescheduleKeepsValid(Tables(), org, actor, id, newStart, now);
      if id !in view || view[id].org != org {
        return Err(NotFound);
      }
      var row := view[id];
      if row.status != Active {
        return Err(Conflict);
      }
      if org !in orgs {
        return Err(NotFound);
      }
      var o := orgs[org];
      var rules := GridOf(grids, org);
      var refusal := Validate(o, rules, ExceptionSpans(exceptions, org), newStart, now);
      if refusal.Some? {
        return Err(ValidationFailed(refusal.value));
      }
      var moved := NewBooking(org, row.user, o.SlotFrom(newStart));
      var ok, newId := CancelAndInsert(id, actor, now, moved);
      if !ok {
        return Err(Conflict);
      }
      return Ok(newId);
    }

    method ListAvailableSlots(org: int, first: int, last: int, now: int) returns (r: Result<seq<Range>, QueryError>)
      requires Valid()
      ensures r == Listing(Tables(), org, first, last, now)
    {
      if org !in orgs {
        return Err(UnknownOrganization);
      }
      var o := orgs[org];
      if last < first {
        return Err(InvertedRange);
      }
      if last - first > o.horizonDays {
        return Err(RangeTooWide);
      }
      var rules := GridOf(grids, org);
      var rangeStart, rangeEnd := PadStart(first), PadEnd(last);
      var booked := ActiveSpans(bookings, nextId, org);
      var blocked := ExceptionSpans(exceptions, org);
      PrefilterPreservesListing(o.zone, o.duration, rules, booked, blocked, first, last, o.Threshold(now));
      var slots := ComputeAvailableSlots(o.zone, o.duration, rules, Within(booked, rangeStart, rangeEnd),
                                         Within(blocked, rangeStart, rangeEnd), first, last, now, o.minLead);
      return Ok(slots.value);
    }
  }
}
