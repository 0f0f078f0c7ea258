/** Cursor pagination of the appointment service, and the client loop that reads it. */
module Paging {
  import opened Wrappers
  import opened Scalars

  datatype Appointment = Appointment(
    appointmentId: string, serviceOrderId: string, technicianId: string, scheduledAt: string, status: string)

  datatype Page = Page(items: seq<Appointment>, nextCursor: Option<string>)

  datatype PagingError = BadCursor | BadPageSize

  // --- Cursors ---

  lemma {:induction false} DigitsRead(n: nat)
    ensures Digits(n) != [] && Magnitude(Digits(n)) == Some(n)
    ensures forall i :: 0 <= i < |Digits(n)| ==> '0' <= Digits(n)[i] <= '9'
  {
    var d := Digits(n);
    if n < 10 {
      assert d == [('0' as int + n) as char];
    } else {
      DigitsRead(n / 10);
      assert d[..|d| - 1] == Digits(n / 10);
    }
  }

  lemma NothingToTrim(t: string)
    requires t != [] && !IsIntSpace(t[0]) && !IsIntSpace(t[|t| - 1])
    ensures Trim(t, IsIntSpace) == t
  {
  }

  lemma DigitsParse(n: nat)
    ensures ParseInt(Digits(n)) == Some(n)
    ensures ParseInt("-" + Digits(n)).Some? && ParseInt("-" + Digits(n)).value == 0 - n as int
  {
    hide Trim, Magnitude, Digits;
    DigitsRead(n);
    var d := Digits(n);
    assert '0' <= d[0] <= '9' && '0' <= d[|d| - 1] <= '9';
    NothingToTrim(d);
    var t := "-" + d;
    assert t[|t| - 1] == d[|d| - 1] && t[1..] == d;
    NothingToTrim(t);
  }

  /** int(str(n)) is n. */
  lemma CursorRoundTrip(n: int)
    ensures IntText(n) != [] && ParseInt(IntText(n)) == Some(n)
  {
    hide ParseInt, Digits;
    if n < 0 {
      DigitsParse(-n);
    } else {
      DigitsRead(n);
      DigitsParse(n);
    }
  }

  // --- Python slices: negative bounds count from the end, and bounds out of range are clamped ---

  function Bound(n: nat, i: int): (r: nat)
    ensures r <= n
  {
    var at := if i < 0 then n + i else i;
    if at < 0 then 0 else if at > n then n else at
  }

  function Slice<T>(s: seq<T>, start: int, stop: int): seq<T> {
    var lo, hi := Bound(|s|, start), Bound(|s|, stop);
    if lo <= hi then s[lo..hi] else []
  }

  function Least(a: int, b: int): int { if a <= b then a else b }

  // --- The service ---

  function ForOrder(appointments: seq<Appointment>, orderId: Option<string>): seq<Appointment> {
    if appointments == [] then []
    else (if orderId.None? || appointments[0].serviceOrderId == orderId.value then [appointments[0]] else [])
         + ForOrder(appointments[1..], orderId)
  }

  // int(cursor or "0")
  function OffsetOf(cursor: Option<string>): Option<int> {
    ParseInt(if cursor.None? || cursor.value == "" then "0" else cursor.value)
  }

  function AppointmentPage(appointments: seq<Appointment>, orderId: Option<string>, cursor: Option<string>, pageSize: int): Result<Page, PagingError>
  {
    var filtered := ForOrder(appointments, orderId);
    match OffsetOf(cursor)
    case None => Err(BadCursor)
    case Some(offset) =>
      if offset < 0 then Err(BadCursor)
      else
        var items := Slice(filtered, offset, offset + pageSize);
        var next := offset + |items|;
        Ok(Page(items, if next < |filtered| then Some(IntText(next)) else None))
  }

  /** The filter keeps the appointments of the order, all of them if none is named, one by one and in order. */
  lemma {:induction false} FilterKeeps(before: seq<Appointment>, a: Appointment, orderId: Option<string>)
    ensures ForOrder([], orderId) == []
    ensures ForOrder(before + [a], orderId)
      == ForOrder(before, orderId) + if orderId == None || orderId == Some(a.serviceOrderId) then [a] else []
  {
    if before == [] {
      assert [] + [a] == [a] && [a][1..] == [];
      assert ForOrder([a], orderId) == (if orderId == None || orderId == Some(a.serviceOrderId) then [a] else []) + ForOrder([], orderId);
    } else {
      FilterKeeps(before[1..], a, orderId);
      assert (before + [a])[1..] == before[1..] + [a];
    }
  }

  lemma {:induction false} NoFilter(appointments: seq<Appointment>)
    ensures ForOrder(appointments, None) == appointments
  {
    if appointments != [] { NoFilter(appointments[1..]); }
  }

  // The cursor a client holds after reading this many rows.
  function CursorAt(count: nat): Option<string> {
    if count == 0 then None else Some(IntText(count))
  }

  lemma PageAt(appointments: seq<Appointment>, orderId: Option<string>, count: nat, pageSize: int)
    requires pageSize >= 1 && count <= |ForOrder(appointments, orderId)|
    ensures var filtered := ForOrder(appointments, orderId);
      var next := Least(count + pageSize, |filtered|);
      AppointmentPage(appointments, orderId, CursorAt(count), pageSize)
      == Ok(Page(filtered[count..next], if next < |filtered| then CursorAt(next) else None))
  {
    hide ParseInt, IntText, ForOrder, OffsetOf;
    OffsetAt(count);
  }

  /** The service refuses exactly a cursor that is not a number or is negative; none and the empty one stand for 0. */
  lemma RefusedExactly(appointments: seq<Appointment>, orderId: Option<string>, cursor: Option<string>, pageSize: int)
    ensures AppointmentPage(appointments, orderId, cursor, pageSize) == Err(BadCursor) <==>
      cursor.Some? && cursor.value != "" && (ParseInt(cursor.value).None? || ParseInt(cursor.value).value < 0)
    ensures AppointmentPage(appointments, orderId, None, pageSize) == AppointmentPage(appointments, orderId, Some("0"), pageSize)
  {
    hide ParseInt, ForOrder, Slice, IntText;
    ZeroReads();
  }

  /** A page size of zero gives an empty page and the same cursor again, for ever. */
  lemma ZeroPageStalls(appointments: seq<Appointment>, count: nat)
    requires count < |appointments|
    ensures AppointmentPage(appointments, None, CursorAt(count), 0) == Ok(Page([], Some(IntText(count))))
    ensures OffsetOf(Some(IntText(count))) == Some(count)
  {
    NoFilter(appointments);
    OffsetAt(count);
    CursorRoundTrip(count);
  }

  /** A page size of minus one gives all rows but the last, and then an empty page and the same cursor for ever. */
  lemma MinusOneStalls(appointments: seq<Appointment>)
    requires appointments != []
    ensures var last := |appointments| - 1;
      && AppointmentPage(appointments, None, None, -1) == Ok(Page(appointments[..last], Some(IntText(last))))
      && AppointmentPage(appointments, None, Some(IntText(last)), -1) == Ok(Page([], Some(IntText(last))))
  {
    hide ParseInt, IntText;
    NoFilter(appointments);
    ZeroReads();
    CursorRoundTrip(|appointments| - 1);
  }

  lemma ZeroReads()
    ensures ParseInt("0") == Some(0)
  {
  }

  lemma OffsetAt(count: nat)
    ensures OffsetOf(CursorAt(count)) == Some(count)
  {
    ZeroReads();
    CursorRoundTrip(count);
  }

  // --- The client ---

  method GetPage(appointments: seq<Appointment>, pageSize: int, cursor: Option<string>, ghost count: nat) returns (page: Page)
    requires pageSize >= 1 && count <= |appointments| && cursor == CursorAt(count)
    ensures var next := Least(count + pageSize, |appointments|);
      page == Page(appointments[count..next], if next < |appointments| then CursorAt(next) else None)
  {
    NoFilter(appointments);
    PageAt(appointments, None, count, pageSize);
    page := AppointmentPage(appointments, None, cursor, pageSize).value;
  }

  /** The loop terminates with exactly the first rows, in order, as many as were asked for. */
  method ReadAppointments(appointments: seq<Appointment>, pageSize: int, limit: int) returns (rows: seq<Appointment>)
    requires pageSize >= 1 && limit > 0
    ensures rows == appointments[..Least(limit, |appointments|)]
  {
    rows := [];
    var cursor: Option<string> := None;
    while |rows| < limit
      invariant |rows| <= Least(limit, |appointments|) && rows == appointments[..|rows|]
      invariant |rows| < limit ==> cursor == CursorAt(|rows|)
      decreases limit - |rows|
    {
      var page := GetPage(appointments, pageSize, cursor, |rows|);
      rows := rows + Slice(page.items, 0, limit - |rows|);
      cursor := page.nextCursor;
      assert rows == appointments[..|rows|];
      if cursor == None {
        break;
      }
    }
  }

  // --- The in-process connector cuts one list into pages ---

  function Joined(pages: seq<seq<Appointment>>): seq<Appointment> {
    if pages == [] then [] else Joined(pages[..|pages| - 1]) + pages[|pages| - 1]
  }

  // The pages that start at start, start + size, ... before the end; a negative start counts from the end, as slices do.
  function PagesFrom(rows: seq<Appointment>, start: int, size: int): (pages: seq<seq<Appointment>>)
    requires size > 0
    decreases |rows| - start
  {
    if start >= |rows| then [] else [Slice(rows, start, start + size)] + PagesFrom(rows, start + size, size)
  }

  lemma {:induction false} JoinedFront(page: seq<Appointment>, pages: seq<seq<Appointment>>)
    ensures Joined([page] + pages) == page + Joined(pages)
  {
    if pages == [] {
      assert [page] + pages == [page] && [page][..0] == [];
    } else {
      var n := |pages| - 1;
      JoinedFront(page, pages[..n]);
      assert ([page] + pages)[..n + 1] == [page] + pages[..n];
    }
  }

  // None empty, all but the last full.
  ghost predicate FullButLast(pages: seq<seq<Appointment>>, size: int) {
    && (forall i :: 0 <= i < |pages| ==> 0 < |pages[i]| <= size)
    && (forall i :: 0 <= i < |pages| - 1 ==> |pages[i]| == size)
  }

  lemma OneMorePage(page: seq<Appointment>, more: seq<seq<Appointment>>, size: int)
    requires FullButLast(more, size) && 0 < |page| <= size && (more != [] ==> |page| == size)
    ensures FullButLast([page] + more, size)
  {
  }

  lemma SliceFrom(rows: seq<Appointment>, start: int, size: int)
    requires size > 0 && 0 <= start < |rows|
    ensures Slice(rows, start, start + size) == rows[start..Least(start + size, |rows|)]
    ensures rows[start..] == Slice(rows, start, start + size) + rows[Least(start + size, |rows|)..]
  {
  }

  /** From a cursor that is not negative, the pages are the rest of the list: none empty, all but the last full. */
  lemma {:induction false} PagesAreTheRest(rows: seq<Appointment>, start: int, size: int)
    requires size > 0 && start >= 0
    ensures Joined(PagesFrom(rows, start, size)) == rows[Least(start, |rows|)..]
    ensures FullButLast(PagesFrom(rows, start, size), size)
    decreases |rows| - start
  {
    hide FullButLast, Slice, Joined;
    if start < |rows| {
      var page, more := Slice(rows, start, start + size), PagesFrom(rows, start + size, size);
      PagesAreTheRest(rows, start + size, size);
      JoinedFront(page, more);
      SliceFrom(rows, start, size);
      OneMorePage(page, more, size);
    } else {
      NoPages(rows, start, size);
    }
  }

  lemma NoPages(rows: seq<Appointment>, start: int, size: int)
    requires size > 0 && start >= |rows|
    ensures PagesFrom(rows, start, size) == [] && Joined([]) == rows[|rows|..] && FullButLast([], size)
  {
  }

  // The pages that start below zero.
  function PagesBelow(rows: seq<Appointment>, start: int, size: int): seq<seq<Appointment>>
    requires size > 0
    decreases -start
  {
    if start >= 0 then [] else [Slice(rows, start, start + size)] + PagesBelow(rows, start + size, size)
  }

  // The first start that is not below zero.
  function FirstAbove(start: int, size: int): (r: int)
    requires size > 0
    ensures r >= 0 && r >= start && (start < 0 ==> r < size)
    decreases -start
  {
    if start >= 0 then start else FirstAbove(start + size, size)
  }

  /**
   A negative cursor does not mean the rest: after the pages that start below zero come those of the whole list
   but for less than a page.
   */
  lemma {:induction false} PagesFromBelow(rows: seq<Appointment>, start: int, size: int)
    requires size > 0 && start < 0
    ensures PagesFrom(rows, start, size) == PagesBelow(rows, start, size) + PagesFrom(rows, FirstAbove(start, size), size)
    ensures Joined(PagesFrom(rows, FirstAbove(start, size), size)) == rows[Least(FirstAbove(start, size), |rows|)..]
    decreases -start
  {
    hide Slice, Joined, FullButLast;
    var page := Slice(rows, start, start + size);
    if start + size < 0 {
      PagesFromBelow(rows, start + size, size);
      var below, above := PagesBelow(rows, start + size, size), PagesFrom(rows, FirstAbove(start, size), size);
      assert [page] + below + above == [page] + (below + above);
    } else {
      PagesAreTheRest(rows, start + size, size);
      assert PagesBelow(rows, start, size) == [page] && FirstAbove(start, size) == start + size;
    }
  }

  // The pages, and an empty one if there is no row at all.
  method YieldPages(appointments: seq<Appointment>, orderId: Option<string>, limit: int, requestedSize: int, cursor: int)
    returns (r: Result<seq<seq<Appointment>>, PagingError>)
    requires limit > 0
    ensures r.Err? <==> requestedSize <= 0
    ensures r.Ok? ==>
      var filtered := ForOrder(appointments, orderId);
      var rows := filtered[..Least(limit, |filtered|)];
      r.value == PagesFrom(rows, cursor, Least(requestedSize, limit)) + if rows == [] then [[]] else []
  {
    var rows := Slice(ForOrder(appointments, orderId), 0, limit);
    var pageSize := Least(requestedSize, limit);
    if pageSize <= 0 {
      return Err(BadPageSize);
    }
    var pages := CutPages(rows, pageSize, cursor);
    if rows == [] {
      pages := pages + [[]];
    }
    return Ok(pages);
  }

  method CutPages(rows: seq<Appointment>, pageSize: int, cursor: int) returns (pages: seq<seq<Appointment>>)
    requires pageSize > 0
    ensures pages == PagesFrom(rows, cursor, pageSize)
  {
    hide Slice;
    pages := [];
    var start := cursor;
    while start < |rows|
      invariant pages + PagesFrom(rows, start, pageSize) == PagesFrom(rows, cursor, pageSize)
      decreases |rows| - start
    {
      var page := Slice(rows, start, start + pageSize);
      assert pages + ([page] + PagesFrom(rows, start + pageSize, pageSize)) == (pages + [page]) + PagesFrom(rows, start + pageSize, pageSize);
      pages := pages + [page];
      start := start + pageSize;
    }
  }
}
