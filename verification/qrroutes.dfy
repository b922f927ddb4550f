/**
 * The two QR routes: issuing a ticket's signed token once, and the
 * organiser's scan that verifies a token and checks the ticket in.
 */
module QrRoutes {
  import opened Wrappers
  import opened PyText
  import opened Json
  import opened Models
  import opened TicketDao
  import opened QrCodec

  /** What the routes answer; every reply but the two successes carries `ok=False` and an error text. */
  datatype Reply =
    | Issued(ticketId: int, qr: string)
    | CheckedIn(ticketId: int, status: string)
    | TicketNotFound
    | MissingInput
    | Refused(reason: string)
    | WrongEvent
    | InvalidState(status: string)
    | ServerError
  {
    function Http(): (code: int)
      ensures code == 200 <==> this.Issued? || this.CheckedIn?
      ensures code == 404 <==> this == TicketNotFound
      ensures code == 500 <==> this == ServerError
    {
      match this
      case Issued(_, _) => 200
      case CheckedIn(_, _) => 200
      case TicketNotFound => 404
      case ServerError => 500
      case _ => 400
    }

    /** The `error` field of the JSON reply; an uncaught exception has none. */
    function Error(): (e: Option<string>)
      ensures e.Some? <==> Http() == 400 || Http() == 404
    {
      match this
      case Issued(_, _) => None
      case CheckedIn(_, _) => None
      case TicketNotFound => Some("Ticket not found")
      case MissingInput => Some("Missing qr or event_id")
      case Refused(reason) => Some(reason)
      case WrongEvent => Some("Wrong event")
      case InvalidState(status) => Some("Invalid state: " + status)
      case ServerError => None
    }
  }

  /** The payload a ticket's token carries: `{"tid": id, "oid": order_id, "eid": event_id}`. */
  function PayloadOf(t: Ticket): Json {
    JObj([("tid", JInt(t.id)), ("oid", JInt(t.orderId)), ("eid", JInt(t.eventId))])
  }

  /** Two tickets get the same payload exactly when they agree on id, order and event. */
  lemma PayloadNamesTicket(a: Ticket, b: Ticket)
    ensures PayloadOf(a) == PayloadOf(b) <==> a.id == b.id && a.orderId == b.orderId && a.eventId == b.eventId
  {
    if PayloadOf(a) == PayloadOf(b) {
      assert PayloadOf(a).fields[0] == PayloadOf(b).fields[0];
      assert PayloadOf(a).fields[1] == PayloadOf(b).fields[1];
      assert PayloadOf(a).fields[2] == PayloadOf(b).fields[2];
    }
  }

  /** Every token stored in the table is the signature of its own ticket's payload. */
  ghost predicate TokensGenuine(k: Keys, ts: Tickets) {
    forall i :: 0 <= i < |ts.rows| && HasQr(ts.rows[i]) ==> ts.rows[i].qrData.value == SignPayload(k, PayloadOf(ts.rows[i]))
  }

  /** A signed token is never empty, so a stored one counts as present. */
  lemma TokenNotEmpty(k: Keys, payload: Json)
    ensures SignPayload(k, payload) != ""
  {
    ThreePartsJoin(SignPayload(k, payload));
  }

  /**
   * `issue_qr(ticket_id)` at time `now`: an unknown id is 404; a ticket that
   * already has a token gets that token back and nothing is written;
   * otherwise its payload is signed, stored with the issue time, and returned.
   */
  function IssueQr(k: Keys, ts: Tickets, ticketId: int, now: int): (r: (Reply, Tickets))
    ensures r.0 == TicketNotFound <==> GetTicketById(ts.rows, ticketId).None?
    ensures r.0 != TicketNotFound ==> r.0.Issued? && r.0.ticketId == ticketId
    ensures r.0.Issued? ==>
      var i := GetTicketById(ts.rows, ticketId).value;
      && |r.1.rows| == |ts.rows| && r.1.nextId == ts.nextId
      && r.1.rows[i].qrData == Some(r.0.qr)
      && r.1.rows[i].id == ticketId
      && (HasQr(ts.rows[i]) ==> r.1 == ts)
      && (!HasQr(ts.rows[i]) ==> r.0.qr == SignPayload(k, PayloadOf(ts.rows[i])) && r.1.rows[i].issuedAt == Some(now))
      && (forall j :: 0 <= j < |ts.rows| && j != i ==> r.1.rows[j] == ts.rows[j])
    ensures r.1 != ts ==> r.0.Issued?
  {
    match GetTicketById(ts.rows, ticketId)
    case None => (TicketNotFound, ts)
    case Some(i) =>
      var t := ts.rows[i];
      if HasQr(t) then (Issued(t.id, t.qrData.value), ts)
      else
        var token := SignPayload(k, PayloadOf(t));
        (Issued(t.id, token), SaveTicketQr(ts, i, token, now))
  }

  /** Issuing keeps the table valid and every stored token genuine. */
  lemma IssueQrKeepsInvariants(k: Keys, ts: Tickets, ticketId: int, now: int)
    requires ts.Valid() && TokensGenuine(k, ts)
    ensures var r := IssueQr(k, ts, ticketId, now);
      r.1.Valid() && TokensGenuine(k, r.1)
  {
    var r := IssueQr(k, ts, ticketId, now);
    if r.1 != ts {
      var i := GetTicketById(ts.rows, ticketId).value;
      SaveRowKeepsInvariants(k, ts, i, now);
    }
  }

  /** Storing a row's own signed payload as its token keeps ids unique and every token genuine. */
  lemma SaveRowKeepsInvariants(k: Keys, ts: Tickets, i: nat, now: int)
    requires i < |ts.rows|
    requires ts.Valid() && TokensGenuine(k, ts)
    ensures var u := SaveTicketQr(ts, i, SignPayload(k, PayloadOf(ts.rows[i])), now);
      u.Valid() && TokensGenuine(k, u)
  {
    var token := SignPayload(k, PayloadOf(ts.rows[i]));
    var u := SaveTicketQr(ts, i, token, now);
    TokenNotEmpty(k, PayloadOf(ts.rows[i]));
    assert PayloadOf(u.rows[i]) == PayloadOf(ts.rows[i]);
    assert forall j :: 0 <= j < |u.rows| ==> u.rows[j].id == ts.rows[j].id;
  }

  /** Asking again for the same ticket returns the same token and writes nothing. */
  lemma IssueQrIdempotent(k: Keys, ts: Tickets, ticketId: int, now: int, later: int)
    ensures var first := IssueQr(k, ts, ticketId, now);
      IssueQr(k, first.1, ticketId, later) == (first.0, first.1)
  {
    var first := IssueQr(k, ts, ticketId, now);
    if first.0.Issued? {
      var i := GetTicketById(ts.rows, ticketId).value;
      if !HasQr(ts.rows[i]) {
        TokenNotEmpty(k, PayloadOf(ts.rows[i]));
      }
      var i' := GetTicketById(first.1.rows, ticketId);
      assert i'.Some?;
      assert first.1.rows[i].id == ticketId;
      assert i'.value == i;
    }
  }

  /** Under a lawful serialiser, a token the route hands out verifies to the ticket's own payload. */
  lemma IssuedTokenVerifies(k: Keys, ts: Tickets, ticketId: int, now: int)
    requires Lawful(k.json) && TokensGenuine(k, ts)
    requires IssueQr(k, ts, ticketId, now).0.Issued?
    ensures var i := GetTicketById(ts.rows, ticketId).value;
      VerifyToken(k, IssueQr(k, ts, ticketId, now).0.qr) == QrCodec.Valid(PayloadOf(ts.rows[i]))
  {
    var i := GetTicketById(ts.rows, ticketId).value;
    SignThenVerify(k, PayloadOf(ts.rows[i]));
  }

  /**
   * `int(v)` on a decoded JSON value: an int is itself, a bool is 0 or 1, a
   * string is parsed, and anything else raises (`None`).
   */
  function JsonInt(j: Json): (r: Option<int>)
    ensures j.JInt? ==> r == Some(j.i)
    ensures j.JStr? ==> r == ParseInt(j.s)
    ensures j.JNull? || j.JArr? || j.JObj? ==> r.None?
  {
    match j
    case JInt(i) => Some(i)
    case JBool(b) => Some(if b then 1 else 0)
    case JStr(s) => ParseInt(s)
    case _ => None
  }

  /** What the scan request body yields: no object to read, a missing or empty field, or both fields. */
  datatype Input = NotAnObject | Incomplete | Fields(qr: Json, eventId: Json)

  /**
   * `data = request.get_json(silent=True) or {}` followed by the two
   * `data.get` calls and the emptiness test. `body` is `None` when the body
   * is absent or not JSON; a truthy value that is not an object has no `get`.
   */
  function ReadBody(body: Option<Json>): (r: Input)
    ensures body.None? || !Truthy(body.value) ==> r == Incomplete
    ensures r == NotAnObject <==> body.Some? && Truthy(body.value) && !body.value.JObj?
    ensures r.Fields? ==>
      && body.Some? && body.value.JObj?
      && Field(body.value, "qr") == Some(r.qr) && Truthy(r.qr)
      && Field(body.value, "event_id") == Some(r.eventId) && Truthy(r.eventId)
    ensures r == Incomplete && body.Some? && body.value.JObj? ==>
      || Field(body.value, "qr").None? || !Truthy(Field(body.value, "qr").value)
      || Field(body.value, "event_id").None? || !Truthy(Field(body.value, "event_id").value)
  {
    var data := if body.Some? && Truthy(body.value) then body.value else JObj([]);
    if !data.JObj? then NotAnObject
    else
      var qr := Field(data, "qr");
      var eventId := Field(data, "event_id");
      if qr.None? || !Truthy(qr.value) || eventId.None? || !Truthy(eventId.value) then Incomplete
      else Fields(qr.value, eventId.value)
  }

  /** The body an organiser's scanner sends: `{"qr": token, "event_id": id}`. */
  function ScanBody(token: string, eventId: int): Json {
    JObj([("qr", JStr(token)), ("event_id", JInt(eventId))])
  }

  /** A scanner body with a non-empty token and a non-zero event id yields both fields. */
  lemma ScanBodyReads(token: string, eventId: int)
    requires token != "" && eventId != 0
    ensures ReadBody(Some(ScanBody(token, eventId))) == Fields(JStr(token), JInt(eventId))
  {
    var fs := ScanBody(token, eventId).fields;
    assert fs[..1] == [("qr", JStr(token))];
    assert LastField(fs, "qr") == Some(JStr(token));
    assert LastField(fs, "event_id") == Some(JInt(eventId));
  }

  /**
   * The scan once both fields are present: verify the token (a token that
   * is not a string cannot be split and is malformed), find the ticket
   * holding it, compare the event, require ACTIVE, then mark it used.
   */
  function Admit(k: Keys, ts: Tickets, qr: Json, eventId: Json, now: int): (r: (Reply, Tickets))
    ensures r.1 != ts ==> r.0.CheckedIn?
    ensures r.0.Refused? <==> !qr.JStr? || !VerifyToken(k, qr.s).Valid?
    ensures r.0.Refused? ==> r.0.reason == (if qr.JStr? then VerifyToken(k, qr.s) else Malformed).Message()
    ensures r.0 == TicketNotFound <==> qr.JStr? && VerifyToken(k, qr.s).Valid? && GetTicketByQr(ts.rows, qr.s).None?
    ensures r.0.CheckedIn? || r.0 == WrongEvent || r.0.InvalidState? || r.0 == ServerError ==>
      && qr.JStr? && VerifyToken(k, qr.s).Valid? && GetTicketByQr(ts.rows, qr.s).Some?
    ensures r.0 == ServerError ==> JsonInt(eventId).None?
    ensures r.0 == WrongEvent ==>
      JsonInt(eventId).Some? && JsonInt(eventId).value != ts.rows[GetTicketByQr(ts.rows, qr.s).value].eventId
    ensures r.0.InvalidState? ==>
      var t := ts.rows[GetTicketByQr(ts.rows, qr.s).value];
      JsonInt(eventId) == Some(t.eventId) && t.status != Active && r.0.status == t.status.Value()
    ensures r.0.CheckedIn? ==>
      var i := GetTicketByQr(ts.rows, qr.s).value;
      && JsonInt(eventId) == Some(ts.rows[i].eventId) && ts.rows[i].status == Active
      && r.0 == CheckedIn(ts.rows[i].id, Used.Value())
      && r.1 == MarkCheckedIn(ts, i, now)
    ensures !r.0.Refused? ==> r.0 in {TicketNotFound, ServerError, WrongEvent} || r.0.InvalidState? || r.0.CheckedIn?
  {
    if !qr.JStr? then (Refused(Malformed.Message()), ts)
    else
      var v := VerifyToken(k, qr.s);
      if !v.Valid? then (Refused(v.Message()), ts)
      else
        match GetTicketByQr(ts.rows, qr.s)
        case None => (TicketNotFound, ts)
        case Some(i) =>
          var t := ts.rows[i];
          match JsonInt(eventId)
          case None => (ServerError, ts)
          case Some(e) =>
            if t.eventId != e then (WrongEvent, ts)
            else if t.status != Active then (InvalidState(t.status.Value()), ts)
            else (CheckedIn(t.id, Used.Value()), MarkCheckedIn(ts, i, now))
  }

  /** `validate_and_checkin()` at time `now`. Only a successful check-in writes. */
  function ValidateAndCheckIn(k: Keys, ts: Tickets, body: Option<Json>, now: int): (r: (Reply, Tickets))
    ensures r.1 != ts ==> r.0.CheckedIn?
    ensures r.0 == MissingInput <==> ReadBody(body) == Incomplete
    ensures ReadBody(body) == NotAnObject ==> r.0 == ServerError
    ensures ReadBody(body).Fields? ==> r == Admit(k, ts, ReadBody(body).qr, ReadBody(body).eventId, now)
  {
    match ReadBody(body)
    case NotAnObject => (ServerError, ts)
    case Incomplete => (MissingInput, ts)
    case Fields(qr, eventId) => Admit(k, ts, qr, eventId, now)
  }

  /** A check-in keeps the table valid and every stored token genuine. */
  lemma CheckInKeepsInvariants(k: Keys, ts: Tickets, body: Option<Json>, now: int)
    requires ts.Valid() && TokensGenuine(k, ts)
    ensures var r := ValidateAndCheckIn(k, ts, body, now);
      r.1.Valid() && TokensGenuine(k, r.1)
  {
    var r := ValidateAndCheckIn(k, ts, body, now);
    if r.1 != ts {
      var f := ReadBody(body);
      var i := GetTicketByQr(ts.rows, f.qr.s).value;
      assert r.1 == MarkCheckedIn(ts, i, now);
      CheckInRowKeepsInvariants(k, ts, i, now);
    }
  }

  /** Marking one row used changes neither ids nor tokens nor payloads. */
  lemma CheckInRowKeepsInvariants(k: Keys, ts: Tickets, i: nat, now: int)
    requires i < |ts.rows|
    requires ts.Valid() && TokensGenuine(k, ts)
    ensures MarkCheckedIn(ts, i, now).Valid() && TokensGenuine(k, MarkCheckedIn(ts, i, now))
  {
    var u := MarkCheckedIn(ts, i, now);
    assert PayloadOf(u.rows[i]) == PayloadOf(ts.rows[i]);
    assert forall j :: 0 <= j < |u.rows| ==> u.rows[j].id == ts.rows[j].id && u.rows[j].qrData == ts.rows[j].qrData;
  }

  /**
   * Scanning the same code twice: the second scan finds the ticket USED,
   * answers "Invalid state: USED" and writes nothing.
   */
  lemma SecondScanRefused(k: Keys, ts: Tickets, body: Option<Json>, now: int, later: int)
    requires ValidateAndCheckIn(k, ts, body, now).0.CheckedIn?
    ensures var first := ValidateAndCheckIn(k, ts, body, now).1;
      ValidateAndCheckIn(k, first, body, later) == (InvalidState("USED"), first)
  {
    var f := ReadBody(body);
    var first := ValidateAndCheckIn(k, ts, body, now).1;
    var i := GetTicketByQr(ts.rows, f.qr.s).value;
    var i' := GetTicketByQr(first.rows, f.qr.s);
    assert first.rows[i].qrData == ts.rows[i].qrData;
    assert i'.Some?;
    assert i'.value == i;
  }

  /** In a valid table of genuine tokens, looking a stored token up finds the ticket that holds it. */
  lemma GenuineTokenFindsItsTicket(k: Keys, ts: Tickets, i: nat)
    requires Lawful(k.json) && ts.Valid() && TokensGenuine(k, ts)
    requires i < |ts.rows| && HasQr(ts.rows[i])
    ensures GetTicketByQr(ts.rows, ts.rows[i].qrData.value) == Some(i)
  {
    var token := ts.rows[i].qrData.value;
    var j := GetTicketByQr(ts.rows, token).value;
    var u := ts.rows[j];
    assert HasQr(u);
    assert SignPayload(k, PayloadOf(u)) == token;
    assert SignPayload(k, PayloadOf(ts.rows[i])) == token;
    TokensDistinguishPayloads(k, PayloadOf(u), PayloadOf(ts.rows[i]));
    PayloadNamesTicket(u, ts.rows[i]);
    assert u.id == ts.rows[i].id;
    assert j == i;
  }

  /**
   * The whole flow: a token issued for an ACTIVE ticket, scanned with its
   * event id, checks that ticket in. The tokens already stored must be
   * genuine, so no other ticket can hold the same one.
   */
  lemma IssueThenCheckIn(k: Keys, ts: Tickets, ticketId: int, now: int, later: int)
    requires Lawful(k.json) && ts.Valid() && TokensGenuine(k, ts)
    requires GetTicketById(ts.rows, ticketId).Some?
    requires ts.rows[GetTicketById(ts.rows, ticketId).value].status == Active
    requires ts.rows[GetTicketById(ts.rows, ticketId).value].eventId != 0
    ensures var issued := IssueQr(k, ts, ticketId, now);
      var t := ts.rows[GetTicketById(ts.rows, ticketId).value];
      ValidateAndCheckIn(k, issued.1, Some(ScanBody(issued.0.qr, t.eventId)), later).0 == CheckedIn(ticketId, "USED")
  {
    var issued := IssueQr(k, ts, ticketId, now);
    var i := GetTicketById(ts.rows, ticketId).value;
    var t := ts.rows[i];
    var token := issued.0.qr;
    var u := issued.1.rows[i];
    IssueQrKeepsInvariants(k, ts, ticketId, now);
    IssuedTokenVerifies(k, ts, ticketId, now);
    TokenNotEmpty(k, PayloadOf(t));
    assert u.qrData == Some(token) && u.id == ticketId && u.status == Active && u.eventId == t.eventId;
    ScanBodyReads(token, t.eventId);
    ScanFindsGenuineTicket(k, issued.1, i, later);
  }

  /** Scanning the token an ACTIVE ticket holds, with that ticket's event id, checks it in. */
  lemma ScanFindsGenuineTicket(k: Keys, ts: Tickets, i: nat, now: int)
    requires Lawful(k.json) && ts.Valid() && TokensGenuine(k, ts)
    requires i < |ts.rows| && HasQr(ts.rows[i]) && ts.rows[i].status == Active
    ensures Admit(k, ts, JStr(ts.rows[i].qrData.value), JInt(ts.rows[i].eventId), now).0 == CheckedIn(ts.rows[i].id, "USED")
  {
    var t := ts.rows[i];
    GenuineTokenFindsItsTicket(k, ts, i);
    SignThenVerify(k, PayloadOf(t));
  }
}
