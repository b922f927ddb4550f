/**
 * The ticket table and its queries: the sold count per ticket type, lookup by
 * id and by QR token, storing a token, checking a ticket in, and a
 * customer's tickets.
 */
module TicketDao {
  import opened Wrappers
  import opened Models

  /** The ticket table in insertion order, with the auto-increment counter for ids. */
  datatype Tickets = Tickets(rows: seq<Ticket>, nextId: int) {
    ghost predicate Valid() {
      && nextId >= 1
      && (forall i :: 0 <= i < |rows| ==> 1 <= rows[i].id < nextId)
      && (forall i, j :: 0 <= i < j < |rows| ==> rows[i].id != rows[j].id)
    }
  }

  /** How many tickets of a type take up a seat: the reference the count query is measured against. */
  function SoldOf(ts: seq<Ticket>, typeId: int): (n: nat)
    ensures n <= |ts|
  {
    if |ts| == 0 then 0
    else
      var last := ts[|ts| - 1];
      SoldOf(ts[..|ts| - 1], typeId) + if last.ticketTypeId == typeId && last.status.Occupies() then 1 else 0
  }

  lemma {:induction false} SoldOfConcat(a: seq<Ticket>, b: seq<Ticket>, typeId: int)
    ensures SoldOf(a + b, typeId) == SoldOf(a, typeId) + SoldOf(b, typeId)
    decreases |b|
  {
    if |b| == 0 {
      assert a + b == a;
    } else {
      assert (a + b)[..|a + b| - 1] == a + b[..|b| - 1];
      SoldOfConcat(a, b[..|b| - 1], typeId);
    }
  }

  /** Cancelling or refunding a seat-taking ticket frees exactly one seat of its type. */
  lemma {:induction false} ReleasingFreesOneSeat(ts: seq<Ticket>, i: nat, s: TicketStatus)
    requires i < |ts| && ts[i].status.Occupies() && !s.Occupies()
    ensures SoldOf(ts[i := ts[i].(status := s)], ts[i].ticketTypeId) + 1 == SoldOf(ts, ts[i].ticketTypeId)
  {
    var u := ts[i := ts[i].(status := s)];
    assert ts == ts[..i] + [ts[i]] + ts[i + 1..];
    assert u == ts[..i] + [u[i]] + ts[i + 1..];
    SoldOfConcat(ts[..i] + [ts[i]], ts[i + 1..], ts[i].ticketTypeId);
    SoldOfConcat(ts[..i], [ts[i]], ts[i].ticketTypeId);
    SoldOfConcat(ts[..i] + [u[i]], ts[i + 1..], ts[i].ticketTypeId);
    SoldOfConcat(ts[..i], [u[i]], ts[i].ticketTypeId);
    assert [ts[i]][..0] == [] && [u[i]][..0] == [];
  }

  /** The `GROUP BY ticket_type_id` pass over the seat-taking tickets of the requested types. */
  function GroupSold(ts: seq<Ticket>, ids: seq<int>): (m: map<int, nat>)
    ensures forall t :: t in m <==> t in ids && SoldOf(ts, t) > 0
    ensures forall t :: t in m ==> m[t] == SoldOf(ts, t)
  {
    if |ts| == 0 then map[]
    else
      var m := GroupSold(ts[..|ts| - 1], ids);
      var x := ts[|ts| - 1];
      if x.ticketTypeId in ids && x.status.Occupies() then
        m[x.ticketTypeId := (if x.ticketTypeId in m then m[x.ticketTypeId] else 0) + 1]
      else m
  }

  /**
   * `count_sold_by_ticket_type(ids)`: for each requested type that has any,
   * the number of its ACTIVE or USED tickets. Types with none are absent, and
   * an empty request gives an empty map.
   */
  function CountSold(ts: seq<Ticket>, ids: seq<int>): (m: map<int, nat>)
    ensures ids == [] ==> m == map[]
    ensures forall t :: t in m <==> t in ids && SoldOf(ts, t) > 0
    ensures forall t :: t in m ==> m[t] == SoldOf(ts, t)
  {
    if |ids| == 0 then map[] else GroupSold(ts, ids)
  }

  /** `sold.get(t, 0)`. */
  function SoldOrZero(m: map<int, nat>, t: int): nat {
    if t in m then m[t] else 0
  }

  /** What a caller reads back with the default of 0 is the exact seat count of every requested type. */
  lemma SoldLookup(ts: seq<Ticket>, ids: seq<int>, t: int)
    requires t in ids
    ensures SoldOrZero(CountSold(ts, ids), t) == SoldOf(ts, t)
  {
  }

  /** Index of the first row satisfying `p`, in table order. */
  function FirstIndex(ts: seq<Ticket>, p: Ticket -> bool): (r: Option<nat>)
    ensures r.Some? ==> r.value < |ts| && p(ts[r.value])
    ensures r.Some? ==> forall j :: 0 <= j < r.value ==> !p(ts[j])
    ensures r.None? ==> forall j :: 0 <= j < |ts| ==> !p(ts[j])
  {
    if |ts| == 0 then None
    else if p(ts[0]) then Some(0)
    else
      match FirstIndex(ts[1..], p)
      case None => None
      case Some(i) => Some(i + 1)
  }

  /** `get_ticket_by_id(ticket_id)`, as the position of the row. */
  function GetTicketById(ts: seq<Ticket>, id: int): (r: Option<nat>)
    ensures r.Some? ==> r.value < |ts| && ts[r.value].id == id
    ensures r.Some? ==> forall j :: 0 <= j < r.value ==> ts[j].id != id
    ensures r.None? ==> forall j :: 0 <= j < |ts| ==> ts[j].id != id
  {
    FirstIndex(ts, (t: Ticket) => t.id == id)
  }

  /** `get_ticket_by_qr(token)`: the first ticket whose stored token is exactly `token`. */
  function GetTicketByQr(ts: seq<Ticket>, token: string): (r: Option<nat>)
    ensures r.Some? ==> r.value < |ts| && ts[r.value].qrData == Some(token)
    ensures r.Some? ==> forall j :: 0 <= j < r.value ==> ts[j].qrData != Some(token)
    ensures r.None? ==> forall j :: 0 <= j < |ts| ==> ts[j].qrData != Some(token)
  {
    FirstIndex(ts, (t: Ticket) => t.qrData == Some(token))
  }

  /** `save_ticket_qr(ticket, token)` at time `now`: only the token and the issue time change. */
  function SaveTicketQr(ts: Tickets, i: nat, token: string, now: int): (r: Tickets)
    requires i < |ts.rows|
    ensures |r.rows| == |ts.rows| && r.nextId == ts.nextId
    ensures r.rows[i].qrData == Some(token) && r.rows[i].issuedAt == Some(now)
    ensures r.rows[i].(qrData := ts.rows[i].qrData, issuedAt := ts.rows[i].issuedAt) == ts.rows[i]
    ensures forall j :: 0 <= j < |ts.rows| && j != i ==> r.rows[j] == ts.rows[j]
  {
    ts.(rows := ts.rows[i := ts.rows[i].(qrData := Some(token), issuedAt := Some(now))])
  }

  /** `mark_checked_in(ticket)` at time `now`: only the status, now USED, and the use time change. */
  function MarkCheckedIn(ts: Tickets, i: nat, now: int): (r: Tickets)
    requires i < |ts.rows|
    ensures |r.rows| == |ts.rows| && r.nextId == ts.nextId
    ensures r.rows[i].status == Used && r.rows[i].useAt == Some(now)
    ensures r.rows[i].(status := ts.rows[i].status, useAt := ts.rows[i].useAt) == ts.rows[i]
    ensures forall j :: 0 <= j < |ts.rows| && j != i ==> r.rows[j] == ts.rows[j]
  {
    ts.(rows := ts.rows[i := ts.rows[i].(status := Used, useAt := Some(now))])
  }

  /** Whether a ticket belongs to the customer and, when a status filter is given, is in that state. */
  predicate OwnedWithStatus(t: Ticket, orders: map<int, Order>, userId: int, status: Option<string>) {
    && t.orderId in orders
    && orders[t.orderId].customerId == userId
    && (status.None? || status.value == "" || t.status.Value() == status.value)
  }

  /**
   * `get_tickets_of_user(user_id, status=status)`: the tickets whose order
   * belongs to the customer, restricted to one status when a non-empty one
   * is given. Table order is kept.
   */
  function TicketsOfUser(ts: seq<Ticket>, orders: map<int, Order>, userId: int, status: Option<string>): (r: seq<Ticket>)
    ensures |r| <= |ts|
    ensures forall t :: t in r <==> t in ts && OwnedWithStatus(t, orders, userId, status)
  {
    if |ts| == 0 then []
    else
      var rest := TicketsOfUser(ts[1..], orders, userId, status);
      assert forall t :: t in ts <==> t == ts[0] || t in ts[1..];
      if OwnedWithStatus(ts[0], orders, userId, status) then [ts[0]] + rest else rest
  }
}
