/**
 * The order routes: placing an order from the event page's form, choosing
 * the payment method for a gateway, and issuing the tickets of a paid order
 * after a last capacity check.
 */
module OrderRoutes {
  import opened Wrappers
  import opened PyText
  import opened Dict
  import opened Models
  import opened TicketDao

  // ---------------------------------------------------------------------
  // Reading the order form
  // ---------------------------------------------------------------------

  /** A requested line: a ticket type and how many seats of it. */
  datatype Item = Item(typeId: int, qty: int)

  /** The field name `items[<id>]` the event page posts for a ticket type. */
  function ItemKey(typeId: int): string {
    "items[" + IntToString(typeId) + "]"
  }

  /** `k.startswith("items[")`. */
  predicate IsItemKey(k: string) {
    |k| >= 6 && k[..6] == "items["
  }

  /** `k[6:-1]`: what lies between the prefix and the last character, whatever that character is. */
  function Bracketed(k: string): string
    requires IsItemKey(k)
  {
    if |k| > 6 then k[6..|k| - 1] else ""
  }

  /** `int(v or 0)`: an empty value counts as 0. */
  function QtyOf(v: string): Option<int> {
    if v == "" then Some(0) else ParseInt(v)
  }

  /**
   * One form entry read as a line. `None` when the entry is no item field,
   * when either number raises `ValueError`, or when the quantity is not
   * positive: all of these are skipped.
   */
  function ParseItem(p: Pair): (r: Option<Item>)
    ensures r.Some? ==> r.value.qty > 0
    ensures r.Some? ==> IsItemKey(p.0) && ParseInt(Bracketed(p.0)) == Some(r.value.typeId)
    ensures r.Some? ==> QtyOf(p.1) == Some(r.value.qty)
    ensures r.None? ==> !IsItemKey(p.0) || ParseInt(Bracketed(p.0)).None? || QtyOf(p.1).None? || QtyOf(p.1).value <= 0
  {
    if !IsItemKey(p.0) then None
    else
      match (ParseInt(Bracketed(p.0)), QtyOf(p.1))
      case (Some(tid), Some(qty)) => if qty > 0 then Some(Item(tid, qty)) else None
      case _ => None
  }

  /** An optional value as a list of zero or one element. */
  function OptList<T>(o: Option<T>): (r: seq<T>)
    ensures |r| <= 1 && (r == [] <==> o.None?)
    ensures o.Some? ==> r == [o.value]
  {
    if o.Some? then [o.value] else []
  }

  /** `ParseItem`'s answer as a list of zero or one line. */
  function LineOf(p: Pair): (r: seq<Item>)
    ensures |r| <= 1 && (r == [] <==> ParseItem(p).None?)
    ensures r != [] ==> r[0] == ParseItem(p).value && r[0].qty > 0
  {
    OptList(ParseItem(p))
  }

  /**
   * The loop over a form's fields: what `read` makes of each field, in form
   * order, skipping the fields it rejects.
   */
  function Collect<T>(read: Pair -> Option<T>, form: seq<Pair>): (r: seq<T>)
    ensures |r| <= |form|
  {
    if |form| == 0 then [] else OptList(read(form[0])) + Collect(read, form[1..])
  }

  /** The loop collects nothing exactly when `read` rejects every field. */
  lemma {:induction false} CollectEmpty<T>(read: Pair -> Option<T>, form: seq<Pair>)
    ensures Collect(read, form) == [] <==> forall i :: 0 <= i < |form| ==> read(form[i]).None?
  {
    if |form| > 0 {
      CollectEmpty(read, form[1..]);
      assert forall i :: 1 <= i < |form| ==> form[i] == form[1..][i - 1];
    }
  }

  /** Whatever `read` promises of each value it yields holds of everything collected. */
  lemma {:induction false} CollectAll<T>(read: Pair -> Option<T>, form: seq<Pair>, good: T -> bool)
    requires forall p :: read(p).Some? ==> good(read(p).value)
    ensures forall i :: 0 <= i < |Collect(read, form)| ==> good(Collect(read, form)[i])
  {
    if |form| > 0 {
      CollectAll(read, form[1..], good);
      var head := OptList(read(form[0]));
      var tail := Collect(read, form[1..]);
      assert Collect(read, form) == head + tail;
      assert forall i :: 0 <= i < |head| ==> good(head[i]);
    }
  }

  /** The values collected from two runs of fields are the first run's followed by the second's. */
  lemma {:induction false} CollectAppend<T>(read: Pair -> Option<T>, a: seq<Pair>, b: seq<Pair>)
    ensures Collect(read, a + b) == Collect(read, a) + Collect(read, b)
  {
    if |a| > 0 {
      assert (a + b)[1..] == a[1..] + b;
      CollectAppend(read, a[1..], b);
    } else {
      assert a + b == b;
    }
  }

  /** A field `read` accepts puts its value before the values of the rest. */
  lemma CollectCons<T>(read: Pair -> Option<T>, form: seq<Pair>, x: T)
    requires |form| > 0 && read(form[0]) == Some(x)
    ensures Collect(read, form) == [x] + Collect(read, form[1..])
  {
  }

  /** A field `read` rejects adds nothing. */
  lemma CollectSkip<T>(read: Pair -> Option<T>, form: seq<Pair>)
    requires |form| > 0 && read(form[0]).None?
    ensures Collect(read, form) == Collect(read, form[1..])
  {
    assert OptList(read(form[0])) == [];
  }

  /** One field yields what `read` makes of it, if anything. */
  lemma CollectSingle<T>(read: Pair -> Option<T>, p: Pair)
    ensures Collect(read, [p]) == OptList(read(p))
  {
    assert [p][1..] == [];
  }

  /** Two fields that both read as `x` yield `x` twice. */
  lemma CollectTwo<T>(read: Pair -> Option<T>, form: seq<Pair>, x: T)
    requires |form| == 2 && read(form[0]) == Some(x) && read(form[1]) == Some(x)
    ensures Collect(read, form) == [x, x]
  {
    CollectCons(read, form, x);
    assert form[1..] == [form[1]];
    CollectSingle(read, form[1]);
  }

  /** The loop over the `items[` fields: every parsed line, in form order. */
  function ParseItems(form: seq<Pair>): (r: seq<Item>)
    ensures |r| <= |form|
    ensures forall i :: 0 <= i < |r| ==> r[i].qty > 0
  {
    CollectAll(ParseItem, form, (it: Item) => it.qty > 0);
    Collect(ParseItem, form)
  }

  /** A form has no lines exactly when none of its fields parses as one. */
  lemma NoLinesExactly(form: seq<Pair>)
    ensures ParseItems(form) == [] <==> forall i :: 0 <= i < |form| ==> ParseItem(form[i]).None?
  {
    CollectEmpty(ParseItem, form);
  }

  /** The lines of a form are the lines of its front followed by the lines of its back: form order is kept. */
  lemma ParseItemsAppend(a: seq<Pair>, b: seq<Pair>)
    ensures ParseItems(a + b) == ParseItems(a) + ParseItems(b)
  {
    CollectAppend(ParseItem, a, b);
  }

  /** A one-field form yields that field's line, if it has one. */
  lemma ParseItemsSingle(p: Pair)
    ensures ParseItems([p]) == LineOf(p)
  {
    CollectSingle(ParseItem, p);
  }

  /** The form fields a page posts for the given lines. */
  function ItemFields(items: seq<Item>): (r: seq<Pair>)
    ensures |r| == |items|
    ensures forall i :: 0 <= i < |items| ==> r[i] == (ItemKey(items[i].typeId), IntToString(items[i].qty))
  {
    seq(|items|, i requires 0 <= i < |items| => (ItemKey(items[i].typeId), IntToString(items[i].qty)))
  }

  /** A field written as `items[<id>]` with a positive count reads back as that line. */
  lemma ParseItemRoundTrip(it: Item)
    requires it.qty > 0
    ensures ParseItem((ItemKey(it.typeId), IntToString(it.qty))) == Some(it)
  {
    var k := ItemKey(it.typeId);
    assert k[..6] == "items[";
    assert Bracketed(k) == IntToString(it.typeId);
    ParseIntRoundTrip(it.typeId);
    ParseIntRoundTrip(it.qty);
  }

  /** Parsing the fields a page posts for positive lines gives back exactly those lines, in order. */
  lemma {:induction false} ParseItemsRoundTrip(items: seq<Item>)
    requires forall i :: 0 <= i < |items| ==> items[i].qty > 0
    ensures ParseItems(ItemFields(items)) == items
  {
    if |items| > 0 {
      ItemFieldsStep(items);
      ParseItemsRoundTrip(items[1..]);
      assert items == [items[0]] + items[1..];
    }
  }

  /** The fields for positive lines parse as the first line followed by what the other fields parse as. */
  lemma ItemFieldsStep(items: seq<Item>)
    requires |items| > 0 && items[0].qty > 0
    ensures ParseItems(ItemFields(items)) == [items[0]] + ParseItems(ItemFields(items[1..]))
  {
    ItemFieldsHead(items);
    ParseItemsCons(ItemFields(items), items[0]);
    ItemFieldsTail(items);
  }

  /** The first field posted for positive lines reads back as the first line. */
  lemma ItemFieldsHead(items: seq<Item>)
    requires |items| > 0 && items[0].qty > 0
    ensures ParseItem(ItemFields(items)[0]) == Some(items[0])
  {
    ParseItemRoundTrip(items[0]);
  }

  /** A form whose first field parses puts that line before the lines of the rest. */
  lemma ParseItemsCons(form: seq<Pair>, it: Item)
    requires |form| > 0 && ParseItem(form[0]) == Some(it)
    ensures ParseItems(form) == [it] + ParseItems(form[1..])
  {
    CollectCons(ParseItem, form, it);
  }

  /** The fields for all but the first line are all but the first field. */
  lemma ItemFieldsTail(items: seq<Item>)
    requires |items| > 0
    ensures ItemFields(items)[1..] == ItemFields(items[1..])
  {
  }

  /** The closing bracket is never looked at: any last character reads the same as `]`. */
  lemma ClosingCharacterIgnored(typeId: int, close: char, v: string)
    ensures ParseItem(("items[" + IntToString(typeId) + [close], v)) == ParseItem((ItemKey(typeId), v))
  {
    var k := "items[" + IntToString(typeId) + [close];
    assert k[..6] == "items[" && ItemKey(typeId)[..6] == "items[";
    assert Bracketed(k) == IntToString(typeId) == Bracketed(ItemKey(typeId));
  }

  /** `request.form.get("event_id", type=int)`: missing or not an integer gives `None`. */
  function EventIdOf(form: Dict): (r: Option<int>)
    ensures Get(form, "event_id").None? ==> r.None?
    ensures Get(form, "event_id").Some? ==> r == ParseInt(Get(form, "event_id").value)
  {
    match Get(form, "event_id")
    case Some(v) => ParseInt(v)
    case None => None
  }

  /** `request.form.get("current_user.id", 2, type=int)`: the placeholder customer 2 unless an integer is posted. */
  function CustomerIdOf(form: Dict): (r: int)
    ensures Get(form, "current_user.id").Some? && ParseInt(Get(form, "current_user.id").value).Some? ==>
      r == ParseInt(Get(form, "current_user.id").value).value
    ensures Get(form, "current_user.id").None? || ParseInt(Get(form, "current_user.id").value).None? ==> r == 2
  {
    match Get(form, "current_user.id")
    case Some(v) => ParseInt(v).GetOr(2)
    case None => 2
  }

  // ---------------------------------------------------------------------
  // Placing an order
  // ---------------------------------------------------------------------

  /** A requested type exists and belongs to the posted event; a missing event id matches no type. */
  predicate TypeFits(types: map<int, TicketType>, eventId: Option<int>, typeId: int) {
    typeId in types && eventId == Some(types[typeId].eventId)
  }

  /** `max(0, (t.quantity or 0) - sold)`: the seats of a type still for sale. */
  function Remaining(t: TicketType, sold: int): (n: nat)
    ensures n >= Capacity(t) - sold
    ensures n == 0 || n == Capacity(t) - sold
  {
    if Capacity(t) - sold > 0 then Capacity(t) - sold else 0
  }

  /** Every requested type exists and belongs to the posted event. */
  predicate AllFit(items: seq<Item>, types: map<int, TicketType>, eventId: Option<int>) {
    forall i :: 0 <= i < |items| ==> TypeFits(types, eventId, items[i].typeId)
  }

  /** Every line, taken on its own, asks for no more seats than its type has left. */
  predicate AllWithin(items: seq<Item>, types: map<int, TicketType>, tickets: seq<Ticket>)
    requires forall i :: 0 <= i < |items| ==> items[i].typeId in types
  {
    forall i :: 0 <= i < |items| ==> items[i].qty <= Remaining(types[items[i].typeId], SoldOf(tickets, items[i].typeId))
  }

  /** No two lines name the same type. */
  predicate DistinctTypes(items: seq<Item>) {
    forall i, j :: 0 <= i < j < |items| ==> items[i].typeId != items[j].typeId
  }

  function TypeIds(items: seq<Item>): (r: seq<int>)
    ensures |r| == |items| && forall i :: 0 <= i < |items| ==> r[i] == items[i].typeId
  {
    seq(|items|, i requires 0 <= i < |items| => items[i].typeId)
  }

  /** The seats left for the line's type, measured against the sold count alone. */
  function LeftFor(it: Item, types: map<int, TicketType>, tickets: seq<Ticket>): nat
    requires it.typeId in types
  {
    Remaining(types[it.typeId], SoldOf(tickets, it.typeId))
  }

  /** The line asks for more seats than its type has left. */
  predicate Over(it: Item, types: map<int, TicketType>, tickets: seq<Ticket>)
    requires it.typeId in types
  {
    it.qty > LeftFor(it, types, tickets)
  }

  /** The "only N left" notice for a line: its type's name and the seats left. */
  function Notice(it: Item, types: map<int, TicketType>, tickets: seq<Ticket>): (string, nat)
    requires it.typeId in types
  {
    (types[it.typeId].name, LeftFor(it, types, tickets))
  }

  /**
   * The "only N left" notices: the name and remaining seats of each line that
   * asks for more than remain, in form order. Each line is measured against
   * the same sold count, not against what earlier lines of the form already
   * took.
   */
  function Lacks(items: seq<Item>, types: map<int, TicketType>, tickets: seq<Ticket>): (r: seq<(string, nat)>)
    requires forall i :: 0 <= i < |items| ==> items[i].typeId in types
    ensures |r| <= |items|
    ensures r == [] <==> AllWithin(items, types, tickets)
    ensures forall p :: p in r ==>
      exists i :: 0 <= i < |items| && Over(items[i], types, tickets) && p == Notice(items[i], types, tickets)
    ensures forall i :: 0 <= i < |items| && Over(items[i], types, tickets) ==> Notice(items[i], types, tickets) in r
  {
    if |items| == 0 then []
    else
      var rest := Lacks(items[1..], types, tickets);
      assert forall i :: 1 <= i < |items| ==> items[i] == items[1..][i - 1];
      if Over(items[0], types, tickets) then [Notice(items[0], types, tickets)] + rest else rest
  }

  /** The notices of two runs of lines are those of the first run followed by those of the second. */
  lemma {:induction false} LacksAppend(a: seq<Item>, b: seq<Item>, types: map<int, TicketType>, tickets: seq<Ticket>)
    requires forall i :: 0 <= i < |a| ==> a[i].typeId in types
    requires forall i :: 0 <= i < |b| ==> b[i].typeId in types
    ensures forall i :: 0 <= i < |a + b| ==> (a + b)[i].typeId in types
    ensures Lacks(a + b, types, tickets) == Lacks(a, types, tickets) + Lacks(b, types, tickets)
  {
    if |a| > 0 {
      assert (a + b)[1..] == a[1..] + b;
      LacksAppend(a[1..], b, types, tickets);
    } else {
      assert a + b == b;
    }
  }

  /** One line gives its notice exactly when it asks for more than is left. */
  lemma LacksSingle(it: Item, types: map<int, TicketType>, tickets: seq<Ticket>)
    requires it.typeId in types
    ensures Lacks([it], types, tickets) == if Over(it, types, tickets) then [Notice(it, types, tickets)] else []
  {
    assert [it][1..] == [];
  }

  /** The order and order-line tables, with the next order id the database hands out. */
  datatype Shop = Shop(orders: map<int, Order>, details: seq<OrderDetail>, nextOrderId: int) {
    ghost predicate Valid() {
      && nextOrderId >= 1
      && (forall id :: id in orders ==> 1 <= id < nextOrderId)
      && (forall i :: 0 <= i < |details| ==> details[i].orderId in orders)
    }
  }

  /** The order lines written for the requested lines, each with the type's price at this moment. */
  function Lines(orderId: int, items: seq<Item>, types: map<int, TicketType>): (r: seq<OrderDetail>)
    requires forall i :: 0 <= i < |items| ==> items[i].typeId in types
    ensures |r| == |items|
    ensures forall i :: 0 <= i < |items| ==>
      r[i] == OrderDetail(orderId, items[i].typeId, items[i].qty, types[items[i].typeId].price)
  {
    seq(|items|, i requires 0 <= i < |items| && items[i].typeId in types =>
      OrderDetail(orderId, items[i].typeId, items[i].qty, types[items[i].typeId].price))
  }

  /** Σ `(price or 0) * quantity` over order lines: what an order's lines are worth. */
  function LineTotal(ds: seq<OrderDetail>): int {
    if |ds| == 0 then 0 else PriceOrZero(ds[0].price) * ds[0].quantity + LineTotal(ds[1..])
  }

  /** Why the order form is sent back to the event page, or the id of the order placed. */
  datatype CreateOutcome = NoItems | InvalidType | Lacking(lines: seq<(string, nat)>) | Placed(orderId: int)

  /**
   * `create`: read the lines, check every type belongs to the event, check
   * every line against the seats left, then write the order with its lines.
   * `code` is the generated order code; `tickets` is the ticket table the
   * sold count is taken from.
   */
  function CreateOrder(form: Dict, types: map<int, TicketType>, tickets: seq<Ticket>, shop: Shop, code: string): (r: (CreateOutcome, Shop))
    ensures r.0 == NoItems <==> ParseItems(form) == []
    ensures r.0 == InvalidType <==> ParseItems(form) != [] && !AllFit(ParseItems(form), types, EventIdOf(form))
    ensures r.0.Placed? <==>
      var items := ParseItems(form);
      items != [] && AllFit(items, types, EventIdOf(form)) && AllWithin(items, types, tickets)
    ensures r.0.Lacking? ==>
      var items := ParseItems(form);
      AllFit(items, types, EventIdOf(form)) && r.0.lines == Lacks(items, types, tickets) && r.0.lines != []
    ensures !r.0.Placed? ==> r.1 == shop
    ensures r.0.Placed? ==>
      var items := ParseItems(form);
      var id := r.0.orderId;
      && id == shop.nextOrderId && r.1.nextOrderId == id + 1
      && AllFit(items, types, EventIdOf(form))
      && r.1.details == shop.details + Lines(id, items, types)
      && r.1.orders == shop.orders[id := Order(code, CustomerIdOf(form), LineTotal(Lines(id, items, types)), 0, 0)]
    ensures shop.Valid() ==> r.1.Valid()
  {
    var items := ParseItems(form);
    var eventId := EventIdOf(form);
    if items == [] then (NoItems, shop)
    else if !AllFit(items, types, eventId) then (InvalidType, shop)
    else
      var lacks := Lacks(items, types, tickets);
      if lacks != [] then (Lacking(lacks), shop)
      else (Placed(shop.nextOrderId), PlaceOrder(shop, items, types, CustomerIdOf(form), code))
  }

  /** Writing a checked order: the order under the next id, with no fee and no discount, and its lines. */
  function PlaceOrder(shop: Shop, items: seq<Item>, types: map<int, TicketType>, customerId: int, code: string): (r: Shop)
    requires forall i :: 0 <= i < |items| ==> items[i].typeId in types
    ensures r.nextOrderId == shop.nextOrderId + 1
    ensures r.details == shop.details + Lines(shop.nextOrderId, items, types)
    ensures r.orders == shop.orders[shop.nextOrderId := Order(code, customerId, LineTotal(Lines(shop.nextOrderId, items, types)), 0, 0)]
    ensures shop.Valid() ==> r.Valid()
  {
    var id := shop.nextOrderId;
    var ds := Lines(id, items, types);
    var extraFee, discount := 0, 0;
    var order := Order(code, customerId, LineTotal(ds) + extraFee - discount, extraFee, discount);
    Shop(shop.orders[id := order], shop.details + ds, id + 1)
  }

  /** The count `create` measures against is the one `count_sold_by_ticket_type` returns. */
  lemma SoldCountsAgree(items: seq<Item>, tickets: seq<Ticket>, i: nat)
    requires i < |items|
    ensures SoldOrZero(CountSold(tickets, TypeIds(items)), items[i].typeId) == SoldOf(tickets, items[i].typeId)
  {
    SoldLookup(tickets, TypeIds(items), items[i].typeId);
  }

  /** `[od for od in details if od.order_id == orderId]`, table order kept. */
  function DetailsOf(ds: seq<OrderDetail>, orderId: int): (r: seq<OrderDetail>)
    ensures |r| <= |ds|
    ensures forall d :: d in r <==> d in ds && d.orderId == orderId
  {
    if |ds| == 0 then []
    else
      var rest := DetailsOf(ds[1..], orderId);
      assert forall d :: d in ds <==> d == ds[0] || d in ds[1..];
      if ds[0].orderId == orderId then [ds[0]] + rest else rest
  }

  lemma {:induction false} DetailsOfConcat(a: seq<OrderDetail>, b: seq<OrderDetail>, orderId: int)
    ensures DetailsOf(a + b, orderId) == DetailsOf(a, orderId) + DetailsOf(b, orderId)
  {
    if |a| > 0 {
      assert (a + b)[1..] == a[1..] + b;
      DetailsOfConcat(a[1..], b, orderId);
    } else {
      assert a + b == b;
    }
  }

  lemma {:induction false} DetailsOfAll(ds: seq<OrderDetail>, orderId: int)
    requires forall i :: 0 <= i < |ds| ==> ds[i].orderId == orderId
    ensures DetailsOf(ds, orderId) == ds
  {
    if |ds| > 0 {
      DetailsOfAll(ds[1..], orderId);
    }
  }

  lemma {:induction false} DetailsOfNone(ds: seq<OrderDetail>, orderId: int)
    requires forall i :: 0 <= i < |ds| ==> ds[i].orderId != orderId
    ensures DetailsOf(ds, orderId) == []
  {
    if |ds| > 0 {
      DetailsOfNone(ds[1..], orderId);
    }
  }

  /**
   * A placed order's lines, as the order-line query finds them, are exactly
   * the lines of its form, and its total is what those lines are worth at
   * their snapshot prices (no fee, no discount).
   */
  lemma PlacedTotalMatchesLines(form: Dict, types: map<int, TicketType>, tickets: seq<Ticket>, shop: Shop, code: string)
    requires shop.Valid()
    requires CreateOrder(form, types, tickets, shop, code).0.Placed?
    ensures var r := CreateOrder(form, types, tickets, shop, code);
      var id := r.0.orderId;
      && AllFit(ParseItems(form), types, EventIdOf(form))
      && DetailsOf(r.1.details, id) == Lines(id, ParseItems(form), types)
      && r.1.orders[id].totalAmount == LineTotal(DetailsOf(r.1.details, id))
  {
    var r := CreateOrder(form, types, tickets, shop, code);
    OldLinesPrecedeNextOrder(shop);
    DetailsOfAppended(shop.details, Lines(r.0.orderId, ParseItems(form), types), r.0.orderId);
  }

  lemma DetailsOfAppended(before: seq<OrderDetail>, added: seq<OrderDetail>, id: int)
    requires forall i :: 0 <= i < |before| ==> before[i].orderId != id
    requires forall i :: 0 <= i < |added| ==> added[i].orderId == id
    ensures DetailsOf(before + added, id) == added
  {
    DetailsOfConcat(before, added, id);
    DetailsOfNone(before, id);
    DetailsOfAll(added, id);
  }

  /** Every stored line belongs to an order older than the next one. */
  lemma OldLinesPrecedeNextOrder(shop: Shop)
    requires shop.Valid()
    ensures forall i :: 0 <= i < |shop.details| ==> shop.details[i].orderId != shop.nextOrderId
  {
  }

  /**
   * A form naming one type twice: once as `items[<id>]` and once with a
   * different closing character, which reads the same.
   */
  function TwiceNamedForm(eventId: int, typeId: int, q: int): (form: Dict)
    ensures form == [("event_id", IntToString(eventId)), (ItemKey(typeId), IntToString(q)), ("items[" + IntToString(typeId) + ")", IntToString(q))]
  {
    var k1 := ItemKey(typeId);
    var k2 := "items[" + IntToString(typeId) + ")";
    assert "event_id"[0] != k1[0] && "event_id"[0] != k2[0];
    assert k1[|k1| - 1] != k2[|k2| - 1];
    [("event_id", IntToString(eventId)), (k1, IntToString(q)), (k2, IntToString(q))]
  }

  lemma TwiceNamedFormReads(eventId: int, typeId: int, q: int)
    requires q > 0
    ensures ParseItems(TwiceNamedForm(eventId, typeId, q)) == [Item(typeId, q), Item(typeId, q)]
    ensures EventIdOf(TwiceNamedForm(eventId, typeId, q)) == Some(eventId)
  {
    var form := TwiceNamedForm(eventId, typeId, q);
    ParseItemRoundTrip(Item(typeId, q));
    ClosingCharacterIgnored(typeId, ')', IntToString(q));
    assert ParseItem(form[0]).None? by { assert "event_id"[..6][0] == 'e'; }
    SkipThenTwice(form, Item(typeId, q));
    TwiceNamedFormEvent(eventId, typeId, q);
  }

  lemma SkipThenTwice(form: seq<Pair>, it: Item)
    requires |form| == 3 && ParseItem(form[0]).None?
    requires ParseItem(form[1]) == Some(it) && ParseItem(form[2]) == Some(it)
    ensures ParseItems(form) == [it, it]
  {
    TwoLines(form[1..], it);
    ParseItemsSkip(form);
  }

  lemma TwoLines(form: seq<Pair>, it: Item)
    requires |form| == 2 && ParseItem(form[0]) == Some(it) && ParseItem(form[1]) == Some(it)
    ensures ParseItems(form) == [it, it]
  {
    CollectTwo(ParseItem, form, it);
  }

  /** A first field that is no line adds nothing. */
  lemma ParseItemsSkip(form: seq<Pair>)
    requires |form| > 0 && ParseItem(form[0]).None?
    ensures ParseItems(form) == ParseItems(form[1..])
  {
    CollectSkip(ParseItem, form);
  }

  lemma TwiceNamedFormEvent(eventId: int, typeId: int, q: int)
    ensures EventIdOf(TwiceNamedForm(eventId, typeId, q)) == Some(eventId)
  {
    assert Get(TwiceNamedForm(eventId, typeId, q), "event_id") == Some(IntToString(eventId));
    ParseIntRoundTrip(eventId);
  }

  /**
   * The per-line check does not add up lines of the same type: a form that
   * names a type twice, each line within the seats left but the two
   * together beyond them, is placed with both lines.
   */
  lemma RepeatedTypeSlipsPastCheck(
    types: map<int, TicketType>, tickets: seq<Ticket>, shop: Shop, code: string, eventId: int, typeId: int, q: int)
    requires typeId in types && types[typeId].eventId == eventId
    requires 0 < q <= Remaining(types[typeId], SoldOf(tickets, typeId)) < 2 * q
    ensures var (o, s) := CreateOrder(TwiceNamedForm(eventId, typeId, q), types, tickets, shop, code);
      && o.Placed?
      && s.details[|shop.details|..] == [OrderDetail(o.orderId, typeId, q, types[typeId].price), OrderDetail(o.orderId, typeId, q, types[typeId].price)]
  {
    TwiceNamedFormReads(eventId, typeId, q);
    var items := ParseItems(TwiceNamedForm(eventId, typeId, q));
    assert AllFit(items, types, Some(eventId));
    assert AllWithin(items, types, tickets);
  }

  // ---------------------------------------------------------------------
  // Payment method
  // ---------------------------------------------------------------------

  /** `method_for_gateway`: MoMo is a digital wallet; VNPay and anything else is a bank transfer. */
  function MethodForGateway(gateway: Option<string>): (m: PaymentMethod)
    ensures m == DigitalWallet <==> gateway.Some? && Upper(gateway.value) == "MOMO"
    ensures m != CreditCard
  {
    var g := if gateway.Some? then Upper(gateway.value) else "";
    if g == "MOMO" then DigitalWallet
    else if g == "VN_PAY" then BankTransfer
    else BankTransfer
  }

  /** The gateway name is read without regard to ASCII letter case. */
  lemma MethodIgnoresCase(g: string)
    ensures MethodForGateway(Some(g)) == MethodForGateway(Some(Upper(g)))
    ensures MethodForGateway(Some(g)) == MethodForGateway(Some(Lower(g)))
  {
    assert Upper(Upper(g)) == Upper(g);
    assert Upper(Lower(g)) == Upper(g);
  }

  // ---------------------------------------------------------------------
  // Issuing tickets
  // ---------------------------------------------------------------------

  /** `sold.get(k, 0)` on the running count. */
  function Held(sold: map<int, int>, k: int): int {
    if k in sold then sold[k] else 0
  }

  /** How the last capacity check ends: all lines fit, one does not (its type's name), or a line whose type is gone. */
  datatype Recheck = Pass | Short(name: string) | NoType

  /**
   * The re-check loop: each line is measured against the running count,
   * which then grows by the line's quantity, so lines of the same type add up.
   */
  function RecheckLines(ods: seq<OrderDetail>, types: map<int, TicketType>, sold: map<int, int>): (r: Recheck)
    ensures r == Pass ==> forall i :: 0 <= i < |ods| ==> ods[i].ticketTypeId in types
    ensures r.Short? ==> exists i :: 0 <= i < |ods| && ods[i].ticketTypeId in types && types[ods[i].ticketTypeId].name == r.name
    ensures r == NoType ==> exists i :: 0 <= i < |ods| && ods[i].ticketTypeId !in types
    decreases |ods|
  {
    if |ods| == 0 then Pass
    else
      var k := ods[0].ticketTypeId;
      if k !in types then NoType
      else
        var s := Held(sold, k);
        if ods[0].quantity > Remaining(types[k], s) then Short(types[k].name)
        else
          var r := RecheckLines(ods[1..], types, sold[k := s + ods[0].quantity]);
          assert forall i :: 1 <= i < |ods| ==> ods[i] == ods[1..][i - 1];
          r
  }

  /** `range(quantity)` runs zero times for a quantity below one. */
  function Minted(q: int): nat {
    if q > 0 then q else 0
  }

  /** Seats the lines of type `k` take once issued. */
  function Added(ods: seq<OrderDetail>, k: int): nat {
    if |ods| == 0 then 0 else (if ods[0].ticketTypeId == k then Minted(ods[0].quantity) else 0) + Added(ods[1..], k)
  }

  /** Tickets all the lines mint. */
  function TotalMinted(ods: seq<OrderDetail>): nat {
    if |ods| == 0 then 0 else Minted(ods[0].quantity) + TotalMinted(ods[1..])
  }

  /** A ticket just issued: the next id, its code, ACTIVE, of the order, the event of its type, no QR code yet. */
  predicate FreshTicket(t: Ticket, id: int, orderId: int, types: map<int, TicketType>, code: int -> string) {
    && t.id == id && t.code == code(id)
    && t.status == Active && t.orderId == orderId
    && t.ticketTypeId in types && t.eventId == types[t.ticketTypeId].eventId
    && t.qrData.None? && t.issuedAt.None? && t.useAt.None?
  }

  /** The tickets one line mints, numbered from `firstId`. */
  function LineTickets(od: OrderDetail, t: TicketType, orderId: int, firstId: int, code: int -> string): (r: seq<Ticket>)
    ensures |r| == Minted(od.quantity)
    ensures forall j :: 0 <= j < |r| ==> r[j] == Ticket(firstId + j, code(firstId + j), Active, orderId, od.ticketTypeId, t.eventId, None, None, None)
  {
    seq(Minted(od.quantity), j => Ticket(firstId + j, code(firstId + j), Active, orderId, od.ticketTypeId, t.eventId, None, None, None))
  }

  /** The tickets all the lines mint, line by line, numbered from `firstId`. */
  function Mint(ods: seq<OrderDetail>, types: map<int, TicketType>, orderId: int, firstId: int, code: int -> string): (r: seq<Ticket>)
    requires forall i :: 0 <= i < |ods| ==> ods[i].ticketTypeId in types
    ensures |r| == TotalMinted(ods)
  {
    if |ods| == 0 then []
    else
      var head := LineTickets(ods[0], types[ods[0].ticketTypeId], orderId, firstId, code);
      head + Mint(ods[1..], types, orderId, firstId + |head|, code)
  }

  /** Every minted ticket is fresh, and they are numbered consecutively from `firstId`. */
  lemma {:induction false} MintFresh(ods: seq<OrderDetail>, types: map<int, TicketType>, orderId: int, firstId: int, code: int -> string)
    requires forall i :: 0 <= i < |ods| ==> ods[i].ticketTypeId in types
    ensures forall j :: 0 <= j < |Mint(ods, types, orderId, firstId, code)| ==>
      FreshTicket(Mint(ods, types, orderId, firstId, code)[j], firstId + j, orderId, types, code)
  {
    if |ods| > 0 {
      var head := LineTickets(ods[0], types[ods[0].ticketTypeId], orderId, firstId, code);
      var tail := Mint(ods[1..], types, orderId, firstId + |head|, code);
      MintFresh(ods[1..], types, orderId, firstId + |head|, code);
      assert Mint(ods, types, orderId, firstId, code) == head + tail;
      forall j | 0 <= j < |head + tail|
        ensures FreshTicket((head + tail)[j], firstId + j, orderId, types, code)
      {
        if j < |head| {
          assert (head + tail)[j] == head[j];
        } else {
          var i := j - |head|;
          assert (head + tail)[j] == tail[i];
          assert FreshTicket(tail[i], firstId + |head| + i, orderId, types, code);
          assert firstId + |head| + i == firstId + j;
        }
      }
    }
  }

  /** What `_issue_tickets` leaves behind: the grown ticket table, a sold-out error, or an uncaught exception. */
  datatype IssueResult = Issued(tickets: Tickets) | SoldOutWhilePaying(name: string) | IssueCrash

  /**
   * `_issue_tickets(order_id)`: nothing for an order without lines;
   * otherwise re-check every line against the running sold count and, only
   * when all fit, mint each line's tickets. `code` gives the ticket code of
   * a new ticket id.
   */
  function IssueTickets(shop: Shop, types: map<int, TicketType>, ts: Tickets, orderId: int, code: int -> string): (r: IssueResult)
    ensures DetailsOf(shop.details, orderId) == [] ==> r == Issued(ts)
    ensures r.Issued? <==> (DetailsOf(shop.details, orderId) == [] ||
      RecheckLines(DetailsOf(shop.details, orderId), types, CountSold(ts.rows, IdsOf(DetailsOf(shop.details, orderId)))) == Pass)
    ensures r.Issued? ==> GrownBy(ts, r.tickets, DetailsOf(shop.details, orderId), orderId, types, code)
    ensures ts.Valid() && r.Issued? ==> r.tickets.Valid()
  {
    var ods := DetailsOf(shop.details, orderId);
    if ods == [] then
      assert GrownBy(ts, ts, ods, orderId, types, code) by {
        assert ts.rows[..|ts.rows|] == ts.rows;
      }
      Issued(ts)
    else
      match RecheckLines(ods, types, CountSold(ts.rows, IdsOf(ods)))
      case NoType => IssueCrash
      case Short(name) => SoldOutWhilePaying(name)
      case Pass => Issued(MintInto(ts, ods, types, orderId, code))
  }

  /**
   * `after` is `before` with the lines' tickets appended: as many as the
   * lines mint, each fresh, numbered on from `before`'s next id.
   */
  predicate GrownBy(before: Tickets, after: Tickets, ods: seq<OrderDetail>, orderId: int, types: map<int, TicketType>, code: int -> string) {
    var n := |before.rows|;
    && |after.rows| == n + TotalMinted(ods)
    && after.rows[..n] == before.rows
    && after.nextId == before.nextId + (|after.rows| - n)
    && forall j :: n <= j < |after.rows| ==> FreshTicket(after.rows[j], before.nextId + (j - n), orderId, types, code)
  }

  /** The table with every line's tickets appended, numbered from its next id. */
  function MintInto(ts: Tickets, ods: seq<OrderDetail>, types: map<int, TicketType>, orderId: int, code: int -> string): (r: Tickets)
    requires forall i :: 0 <= i < |ods| ==> ods[i].ticketTypeId in types
    ensures GrownBy(ts, r, ods, orderId, types, code)
    ensures ts.Valid() ==> r.Valid()
  {
    var minted := Mint(ods, types, orderId, ts.nextId, code);
    MintFresh(ods, types, orderId, ts.nextId, code);
    var r := AddTickets(ts, minted);
    assert r.rows[..|ts.rows|] == ts.rows;
    assert forall j :: |ts.rows| <= j < |r.rows| ==> r.rows[j] == minted[j - |ts.rows|];
    r
  }

  /**
   * A refusal names the type of one of the order's own lines, and an
   * exception comes from a line whose type no longer exists.
   */
  lemma IssueFailureComesFromALine(shop: Shop, types: map<int, TicketType>, ts: Tickets, orderId: int, code: int -> string)
    ensures var r := IssueTickets(shop, types, ts, orderId, code);
      && (r.SoldOutWhilePaying? ==>
            exists d :: d in shop.details && d.orderId == orderId && d.ticketTypeId in types && types[d.ticketTypeId].name == r.name)
      && (r == IssueCrash ==> exists d :: d in shop.details && d.orderId == orderId && d.ticketTypeId !in types)
  {
    var ods := DetailsOf(shop.details, orderId);
    assert forall i :: 0 <= i < |ods| ==> ods[i] in ods;
  }

  /** Appending tickets numbered from the table's next id keeps the ids unique. */
  function AddTickets(ts: Tickets, minted: seq<Ticket>): (r: Tickets)
    ensures r.rows == ts.rows + minted && r.nextId == ts.nextId + |minted|
    ensures ts.Valid() && (forall j :: 0 <= j < |minted| ==> minted[j].id == ts.nextId + j) ==> r.Valid()
  {
    Tickets(ts.rows + minted, ts.nextId + |minted|)
  }

  function IdsOf(ods: seq<OrderDetail>): (r: seq<int>)
    ensures |r| == |ods| && forall i :: 0 <= i < |ods| ==> r[i] == ods[i].ticketTypeId
  {
    seq(|ods|, i requires 0 <= i < |ods| => ods[i].ticketTypeId)
  }

  function Max(a: int, b: int): int {
    if a >= b then a else b
  }

  /**
   * When every line passes the re-check and no quantity is negative, the
   * running count of a type ends no higher than its starting value or its
   * capacity, whichever is larger.
   */
  lemma {:induction false} RecheckBound(ods: seq<OrderDetail>, types: map<int, TicketType>, sold: map<int, int>, k: int)
    requires RecheckLines(ods, types, sold) == Pass && k in types
    requires forall i :: 0 <= i < |ods| ==> ods[i].quantity >= 0
    ensures Held(sold, k) + Added(ods, k) <= Max(Held(sold, k), Capacity(types[k]))
  {
    if |ods| > 0 {
      var k0 := ods[0].ticketTypeId;
      var s := Held(sold, k0);
      var sold' := sold[k0 := s + ods[0].quantity];
      assert RecheckLines(ods[1..], types, sold') == Pass;
      RecheckBound(ods[1..], types, sold', k);
    }
  }

  /** The seat count of tickets that all share one type and are ACTIVE. */
  lemma {:induction false} SoldOfUniform(ts: seq<Ticket>, tid: int, k: int)
    requires forall i :: 0 <= i < |ts| ==> ts[i].ticketTypeId == tid && ts[i].status == Active
    ensures SoldOf(ts, k) == if tid == k then |ts| else 0
  {
    if |ts| > 0 {
      SoldOfUniform(ts[..|ts| - 1], tid, k);
    }
  }

  /** The freshly minted tickets take exactly the seats their lines ask for. */
  lemma {:induction false} MintedSeats(ods: seq<OrderDetail>, types: map<int, TicketType>, orderId: int, firstId: int, code: int -> string, k: int)
    requires forall i :: 0 <= i < |ods| ==> ods[i].ticketTypeId in types
    ensures SoldOf(Mint(ods, types, orderId, firstId, code), k) == Added(ods, k)
  {
    if |ods| > 0 {
      var head := LineTickets(ods[0], types[ods[0].ticketTypeId], orderId, firstId, code);
      var tail := Mint(ods[1..], types, orderId, firstId + |head|, code);
      assert Mint(ods, types, orderId, firstId, code) == head + tail;
      SoldOfConcat(head, tail, k);
      SoldOfUniform(head, ods[0].ticketTypeId, k);
      MintedSeats(ods[1..], types, orderId, firstId + |head|, code, k);
    }
  }

  /**
   * Issuing never pushes a type past its capacity: a type that was within
   * capacity stays within it, and one already over gains no ticket. The
   * seats added are exactly those its lines ask for.
   */
  lemma IssuingStaysWithinCapacity(shop: Shop, types: map<int, TicketType>, ts: Tickets, orderId: int, code: int -> string, k: int)
    requires IssueTickets(shop, types, ts, orderId, code).Issued?
    requires k in types
    requires forall d :: d in shop.details && d.orderId == orderId ==> d.quantity >= 0
    ensures var after := IssueTickets(shop, types, ts, orderId, code).tickets.rows;
      && SoldOf(after, k) == SoldOf(ts.rows, k) + Added(DetailsOf(shop.details, orderId), k)
      && SoldOf(after, k) <= Max(SoldOf(ts.rows, k), Capacity(types[k]))
  {
    var ods := DetailsOf(shop.details, orderId);
    if ods != [] {
      var sold := CountSold(ts.rows, IdsOf(ods));
      assert RecheckLines(ods, types, sold) == Pass;
      var minted := Mint(ods, types, orderId, ts.nextId, code);
      assert IssueTickets(shop, types, ts, orderId, code).tickets.rows == ts.rows + minted;
      SoldOfConcat(ts.rows, minted, k);
      MintedSeats(ods, types, orderId, ts.nextId, code, k);
      assert forall i :: 0 <= i < |ods| ==> ods[i] in ods;
      RecheckBound(ods, types, sold, k);
      if k in IdsOf(ods) {
        SoldLookup(ts.rows, IdsOf(ods), k);
      } else {
        NoLinesAddNothing(ods, k);
      }
    }
  }

  lemma {:induction false} NoLinesAddNothing(ods: seq<OrderDetail>, k: int)
    requires k !in IdsOf(ods)
    ensures Added(ods, k) == 0
  {
    if |ods| > 0 {
      assert IdsOf(ods[1..]) == IdsOf(ods)[1..];
      NoLinesAddNothing(ods[1..], k);
    }
  }

  /** Lines of pairwise different types each within the seats left pass the cumulative re-check. */
  lemma {:induction false} DistinctLinesPass(ods: seq<OrderDetail>, types: map<int, TicketType>, sold: map<int, int>)
    requires forall i :: 0 <= i < |ods| ==> ods[i].ticketTypeId in types
    requires forall i, j :: 0 <= i < j < |ods| ==> ods[i].ticketTypeId != ods[j].ticketTypeId
    requires forall i :: 0 <= i < |ods| ==> ods[i].quantity <= Remaining(types[ods[i].ticketTypeId], Held(sold, ods[i].ticketTypeId))
    ensures RecheckLines(ods, types, sold) == Pass
  {
    if |ods| > 0 {
      var k := ods[0].ticketTypeId;
      var sold' := sold[k := Held(sold, k) + ods[0].quantity];
      var rest := ods[1..];
      assert forall i :: 0 <= i < |rest| ==> rest[i] == ods[i + 1] && Held(sold', rest[i].ticketTypeId) == Held(sold, rest[i].ticketTypeId);
      DistinctLinesPass(rest, types, sold');
    }
  }

  /**
   * An order placed from a form that names each type once is issued in
   * full right away: the re-check agrees with the check at placing, and
   * one ticket is minted per seat asked for.
   */
  lemma PlacedOrderIssues(form: Dict, types: map<int, TicketType>, ts: Tickets, shop: Shop, code: string, ticketCode: int -> string)
    requires shop.Valid()
    requires CreateOrder(form, types, ts.rows, shop, code).0.Placed?
    requires DistinctTypes(ParseItems(form))
    ensures var placed := CreateOrder(form, types, ts.rows, shop, code);
      var issued := IssueTickets(placed.1, types, ts, placed.0.orderId, ticketCode);
      && issued.Issued?
      && |issued.tickets.rows| == |ts.rows| + TotalMinted(DetailsOf(placed.1.details, placed.0.orderId))
  {
    PlacedLinesIssuable(form, types, ts.rows, shop, code);
    var r := CreateOrder(form, types, ts.rows, shop, code);
    IssueDistinctLines(r.1, types, ts, r.0.orderId, ticketCode);
  }

  /** Lines of pairwise different, existing types, each within the seats its type has left. */
  predicate IssuablePlan(ods: seq<OrderDetail>, types: map<int, TicketType>, tickets: seq<Ticket>) {
    && (forall i :: 0 <= i < |ods| ==> ods[i].ticketTypeId in types)
    && (forall i, j :: 0 <= i < j < |ods| ==> ods[i].ticketTypeId != ods[j].ticketTypeId)
    && (forall i :: 0 <= i < |ods| ==> ods[i].quantity <= Remaining(types[ods[i].ticketTypeId], SoldOf(tickets, ods[i].ticketTypeId)))
  }

  lemma PlacedLinesIssuable(form: Dict, types: map<int, TicketType>, tickets: seq<Ticket>, shop: Shop, code: string)
    requires shop.Valid()
    requires CreateOrder(form, types, tickets, shop, code).0.Placed?
    requires DistinctTypes(ParseItems(form))
    ensures var r := CreateOrder(form, types, tickets, shop, code);
      IssuablePlan(DetailsOf(r.1.details, r.0.orderId), types, tickets)
  {
    var items := ParseItems(form);
    var r := CreateOrder(form, types, tickets, shop, code);
    PlacedTotalMatchesLines(form, types, tickets, shop, code);
    LinesCarryChecks(r.0.orderId, items, types, EventIdOf(form), tickets);
  }

  /** Order lines copied from checked form lines inherit their checks. */
  lemma LinesCarryChecks(id: int, items: seq<Item>, types: map<int, TicketType>, eventId: Option<int>, tickets: seq<Ticket>)
    requires AllFit(items, types, eventId) && AllWithin(items, types, tickets) && DistinctTypes(items)
    ensures IssuablePlan(Lines(id, items, types), types, tickets)
  {
  }

  /** The order's lines, of pairwise different types and each within the seats left, are issued in full. */
  lemma IssueDistinctLines(shop: Shop, types: map<int, TicketType>, ts: Tickets, orderId: int, code: int -> string)
    requires IssuablePlan(DetailsOf(shop.details, orderId), types, ts.rows)
    ensures IssueTickets(shop, types, ts, orderId, code).Issued?
  {
    var ods := DetailsOf(shop.details, orderId);
    if ods != [] {
      var sold := CountSold(ts.rows, IdsOf(ods));
      assert forall i :: 0 <= i < |ods| ==> Held(sold, ods[i].ticketTypeId) == SoldOf(ts.rows, ods[i].ticketTypeId);
      DistinctLinesPass(ods, types, sold);
    }
  }
}
