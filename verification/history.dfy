/** The order history page: the split into ordered and delivered groups, the status label,
    and the lines of an order card read back from the stored `items` text. */
module HistoryPage {
  import opened Common
  import opened Text
  import opened Seqs
  import opened Tables
  import opened Api
  import opened CartPage

  const CompletedStatus: string := "completed"
  const InProgressLabel: string := "В обработке"
  const DeliveredLabel: string := "Доставлено"
  const UnnamedItem: string := "Товар"

  function WithStatus(status: string): Order -> bool
  {
    (o: Order) => o.status == status
  }

  /** `orders.filter((o) => o.status === "pending")`. */
  function Pending(orders: seq<Order>): (r: seq<Order>)
    ensures forall o :: o in r <==> o in orders && o.status == PendingStatus
  {
    Filter(orders, WithStatus(PendingStatus))
  }

  /** `orders.filter((o) => o.status === "completed")`. */
  function Completed(orders: seq<Order>): (r: seq<Order>)
    ensures forall o :: o in r <==> o in orders && o.status == CompletedStatus
  {
    Filter(orders, WithStatus(CompletedStatus))
  }

  /** Both groups keep the order of the list, and together they never hold more orders
      than the list: an order of any other status is shown in neither. */
  lemma {:induction false} GroupsWithinList(orders: seq<Order>)
    ensures Subseq(Pending(orders), orders) && Subseq(Completed(orders), orders)
    ensures |Pending(orders)| + |Completed(orders)| <= |orders|
  {
    FilterIsSubseq(orders, WithStatus(PendingStatus));
    FilterIsSubseq(orders, WithStatus(CompletedStatus));
    if orders != [] {
      GroupsWithinList(orders[..|orders| - 1]);
    }
  }

  /** "Пока нет заказов" is shown exactly when the list is empty. */
  predicate ShowsEmptyMessage(orders: seq<Order>)
  {
    |orders| == 0
  }

  /** A non-empty list whose orders all have some other status shows no group and no
      empty message either. */
  lemma UnknownStatusesShowNothing(orders: seq<Order>)
    requires orders != []
    requires forall k :: 0 <= k < |orders| ==> orders[k].status != PendingStatus && orders[k].status != CompletedStatus
    ensures Pending(orders) == [] && Completed(orders) == [] && !ShowsEmptyMessage(orders)
  {
    FilterKeepsNone(orders, WithStatus(PendingStatus));
    FilterKeepsNone(orders, WithStatus(CompletedStatus));
  }

  /** The backend creates every order as pending and never changes a status, so a list it
      returns is shown entirely in the first group and the second group stays empty. */
  lemma BackendOrdersArePending(orders: seq<Order>)
    requires AllPending(orders)
    ensures Pending(orders) == orders && Completed(orders) == []
  {
    FilterKeepsAll(orders, WithStatus(PendingStatus));
    assert |CompletedStatus| != |PendingStatus|;
    FilterKeepsNone(orders, WithStatus(CompletedStatus));
  }

  function StatusLabel(status: string): (r: string)
    ensures r == InProgressLabel <==> status == PendingStatus
    ensures r == DeliveredLabel <==> status != PendingStatus
  {
    if status == PendingStatus then InProgressLabel else DeliveredLabel
  }

  /** `v[key]` for a parsed JSON value: the last member with that key of an object, and
      undefined for a missing key or a value that is not an object. */
  function Field(v: JsValue, key: string): JsValue
  {
    match v
    case Obj(fields) => FieldIn(fields, key)
    case _ => Undefined
  }

  function FieldIn(fields: seq<(string, JsValue)>, key: string): JsValue
  {
    if fields == [] then Undefined
    else if fields[|fields| - 1].0 == key then fields[|fields| - 1].1
    else FieldIn(fields[..|fields| - 1], key)
  }

  /** `v || fallback` as the operand of `*`: a falsy value gives the fallback, any other
      value is read by `Number` (`Text.NumberValue`), so a number gives itself and a digit
      string its value; `None` stands for NaN. */
  function NumberOr(v: JsValue, fallback: int): (r: Option<int>)
    ensures !Truthy(v) ==> r == Some(fallback)
    ensures Truthy(v) ==> r == NumberValue(v)
    ensures v.Num? && v.n != 0 ==> r == Some(v.n)
    ensures v.Str? && v.s != "" && AllDigits(v.s) ==> r == Some(DigitsValue(v.s))
  {
    if v.Str? && v.s != "" && AllDigits(v.s) then DigitsReadAsValue(v.s); NumberValue(v)
    else if !Truthy(v) then Some(fallback) else NumberValue(v)
  }

  /** One line of an order card: its name (or "Товар"), its quantity (or 1) and its
      amount `(price || 0) * (quantity || 1)`. */
  datatype LineView = LineView(name: JsValue, quantity: JsValue, amount: Option<int>)

  function LineOf(e: JsValue): (l: LineView)
    ensures !Truthy(Field(e, "name")) ==> l.name == Str(UnnamedItem)
    ensures Truthy(Field(e, "name")) ==> l.name == Field(e, "name")
    ensures !Truthy(Field(e, "quantity")) ==> l.quantity == Num(1)
    ensures Truthy(Field(e, "quantity")) ==> l.quantity == Field(e, "quantity")
    ensures var p, q := NumberOr(Field(e, "price"), 0), NumberOr(Field(e, "quantity"), 1);
      p.Some? && q.Some? ==> l.amount == Some(p.value * q.value)
    ensures var p, q := NumberOr(Field(e, "price"), 0), NumberOr(Field(e, "quantity"), 1);
      p.None? || q.None? ==> l.amount.None?
  {
    var name := Field(e, "name");
    var quantity := Field(e, "quantity");
    var p, q := NumberOr(Field(e, "price"), 0), NumberOr(quantity, 1);
    LineView(if Truthy(name) then name else Str(UnnamedItem),
             if Truthy(quantity) then quantity else Num(1),
             if p.Some? && q.Some? then Some(p.value * q.value) else None)
  }

  /** A value React accepts as a child: anything but a plain object, and an array only
      when each of its elements is accepted in turn. */
  predicate Renderable(v: JsValue)
  {
    match v
    case Obj(_) => false
    case Arr(elems) => forall k :: 0 <= k < |elems| ==> Renderable(elems[k])
    case _ => true
  }

  /** An element of the items array renders: it is neither null nor undefined (reading
      `i.name` on those throws), and the name and quantity it shows are values React
      accepts as children. A falsy name or quantity is replaced by a text or a number, so
      only a truthy one can fail. */
  predicate LineRenders(e: JsValue)
  {
    !IsNullish(e) && Renderable(Field(e, "name")) && Renderable(Field(e, "quantity"))
  }

  /** What an order card renders for its items (`parsed` is what `JSON.parse(order.items)`
      gave): the lines, or a render error when the parsed value is not an array or holds an
      element that does not render. */
  datatype CardLines = Lines(lines: seq<LineView>) | RenderError

  function CardOf(parsed: Parsed): (c: CardLines)
    ensures parsed == ParseFailed ==> c == Lines([])
    ensures parsed.ParsedValue? && !parsed.v.Arr? ==> c == RenderError
    ensures parsed.ParsedValue? && parsed.v.Arr? ==>
      (c.RenderError? <==> exists k :: 0 <= k < |parsed.v.elems| && !LineRenders(parsed.v.elems[k]))
    ensures parsed.ParsedValue? && parsed.v.Arr? && c.Lines? ==>
      |c.lines| == |parsed.v.elems| && forall k :: 0 <= k < |c.lines| ==> c.lines[k] == LineOf(parsed.v.elems[k])
  {
    match parsed
    case ParseFailed => Lines([])
    case ParsedValue(v) =>
      if !v.Arr? then RenderError
      else if exists k :: 0 <= k < |v.elems| && !LineRenders(v.elems[k]) then RenderError
      else Lines(LinesOf(v.elems))
  }

  /** An element without a name or quantity, such as a bare number, renders as a line. */
  lemma BareNumberRenders()
    ensures CardOf(ParsedValue(Arr([Num(3)]))) == Lines([LineOf(Num(3))])
  {
    assert LineRenders([Num(3)][0]);
  }

  /** A name that is an object makes the whole card fail. */
  lemma ObjectNameFailsToRender()
    ensures CardOf(ParsedValue(Arr([Obj([("name", Obj([]))])]))) == RenderError
  {
    assert !LineRenders([Obj([("name", Obj([]))])][0]);
  }

  /** A quantity that is an array holding an object makes the whole card fail. */
  lemma NestedObjectFailsToRender()
    ensures CardOf(ParsedValue(Arr([Obj([("quantity", Arr([Obj([])]))])]))) == RenderError
  {
    assert !Renderable(Arr([Obj([])])) by {
      assert [Obj([])][0] == Obj([]);
    }
    assert !LineRenders([Obj([("quantity", Arr([Obj([])]))])][0]);
  }

  /** A null element makes the whole card fail, even after lines that render. */
  lemma NullLineFailsToRender()
    ensures CardOf(ParsedValue(Arr([Num(3), Null]))) == RenderError
  {
    assert !LineRenders([Num(3), Null][1]);
  }

  /** The card of an order the checkout placed renders every line. */
  lemma CheckoutCardRenders(items: seq<CartItem>, elems: seq<JsValue>)
    requires |elems| == |items|
    requires forall k :: 0 <= k < |items| ==> EncodesItem(elems[k], items[k])
    ensures CardOf(ParsedValue(Arr(elems))) == Lines(LinesOf(elems))
  {
    forall k | 0 <= k < |elems|
      ensures LineRenders(elems[k])
    {
      EncodedLineRenders(elems[k], items[k]);
    }
    AllLinesRender(elems);
  }

  /** A line the checkout wrote has a text name and a number quantity. */
  lemma EncodedLineRenders(e: JsValue, i: CartItem)
    requires EncodesItem(e, i)
    ensures LineRenders(e)
  {
  }

  /** An array each of whose elements renders gives its lines. */
  lemma AllLinesRender(elems: seq<JsValue>)
    requires forall k :: 0 <= k < |elems| ==> LineRenders(elems[k])
    ensures CardOf(ParsedValue(Arr(elems))) == Lines(LinesOf(elems))
  {
  }

  /** `items.map(...)`: one line per element, in order. */
  function LinesOf(elems: seq<JsValue>): (r: seq<LineView>)
    ensures |r| == |elems| && forall k :: 0 <= k < |r| ==> r[k] == LineOf(elems[k])
  {
    if elems == [] then [] else LinesOf(elems[..|elems| - 1]) + [LineOf(elems[|elems| - 1])]
  }

  /** The amounts of a card's lines added up, when every line has one. */
  function LinesTotal(lines: seq<LineView>): Option<int>
  {
    if lines == [] then Some(0)
    else
      match (LinesTotal(lines[..|lines| - 1]), lines[|lines| - 1].amount)
      case (Some(a), Some(b)) => Some(a + b)
      case _ => None
  }

  /** A line written by the checkout with its name, price and quantity as JSON members. */
  predicate EncodesItem(e: JsValue, i: CartItem)
  {
    Field(e, "name") == Str(i.name) && Field(e, "price") == Num(i.price) && Field(e, "quantity") == Num(i.quantity)
  }

  /** A line the checkout wrote is shown with the amount its price times its quantity. */
  lemma LineAmount(e: JsValue, i: CartItem)
    requires EncodesItem(e, i) && i.quantity != 0
    ensures LineOf(e).amount == Some(i.price * i.quantity)
  {
  }

  /** Appending a line with an amount adds that amount to the card's sum. */
  lemma LinesTotalSnoc(init: seq<LineView>, line: LineView, a: int, b: int)
    requires LinesTotal(init) == Some(a) && line.amount == Some(b)
    ensures LinesTotal(init + [line]) == Some(a + b)
  {
    assert (init + [line])[..|init|] == init;
  }

  lemma LinesOfSnoc(elems: seq<JsValue>)
    requires elems != []
    ensures LinesOf(elems) == LinesOf(elems[..|elems| - 1]) + [LineOf(elems[|elems| - 1])]
  {
  }

  /** Read back from the history, the lines of an order the checkout placed add up to the
      total it stored, as long as no quantity is 0 (a 0 quantity is shown as 1). */
  lemma HistoryMatchesCheckout(items: seq<CartItem>, elems: seq<JsValue>)
    requires |elems| == |items|
    requires forall k :: 0 <= k < |items| ==> EncodesItem(elems[k], items[k]) && items[k].quantity != 0
    ensures LinesTotal(LinesOf(elems)) == Some(Total(items))
  {
    var lines := LinesOf(elems);
    forall k | 0 <= k < |items|
      ensures lines[k].amount == Some(items[k].price * items[k].quantity)
    {
      LineAmount(elems[k], items[k]);
    }
    LinesAddUp(items, lines);
  }

  /** Lines whose amounts are the cart lines' price times quantity add up to the cart's
      total. */
  lemma {:induction false} LinesAddUp(items: seq<CartItem>, lines: seq<LineView>)
    requires |lines| == |items|
    requires forall k :: 0 <= k < |items| ==> lines[k].amount == Some(items[k].price * items[k].quantity)
    ensures LinesTotal(lines) == Some(Total(items))
  {
    if items != [] {
      var n := |items| - 1;
      var items', lines' := items[..n], lines[..n];
      forall k | 0 <= k < n
        ensures lines'[k].amount == Some(items'[k].price * items'[k].quantity)
      {
        assert lines'[k] == lines[k] && items'[k] == items[k];
      }
      LinesAddUp(items', lines');
      var amount := items[n].price * items[n].quantity;
      assert lines == lines' + [lines[n]];
      LinesTotalSnoc(lines', lines[n], Total(items'), amount);
      assert Total(items) == Total(items') + amount;
    }
  }
}
