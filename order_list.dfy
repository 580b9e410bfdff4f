/**
 * The order list page of qrstroyka.kz-master/order/order.js: the list
 * container, the "no orders" placeholder, and the load that fills them.
 */
module OrderList {

  const OrdersUrl := "https://cmr.api.stroyka.kz/rest/api/v1/order"
  const NoOrdersText := "Нет заказов"
  const LoadFailedText := "Ошибка загрузки заказов"
  const ErrorLead := "Ошибка: "
  /** The message of the TypeError thrown by `addOrder(null)`. */
  const NullOrderMessage := "Cannot read properties of null (reading 'id')"
  /** The message of the TypeError thrown when the placeholder element is absent. */
  const NoPlaceholderMessage := "Cannot set properties of null (setting 'innerText')"

  /** An order of the response, its fields as the text they render. */
  datatype OrderRecord = OrderRecord(id: string, email: string, phone: string, status: string)

  /** An element of the response array: an order object, or `null`. */
  datatype Element = OrderObject(order: OrderRecord) | NullElement

  /** The parsed response body. */
  datatype Body = JsonArray(elements: seq<Element>) | NotArray | Unparsable(message: string)

  /** What `fetch` yields: a response (ok flag and body), or a thrown error. */
  datatype Response = Answered(ok: bool, body: Body) | Unreachable(message: string)

  /** A child of the list container: an order entry (its lines) or the error paragraph. */
  datatype Node = Entry(lines: seq<string>) | ErrorParagraph(message: string)

  /** The lines of an order entry: id, email, phone and status, in that order. */
  function EntryLines(o: OrderRecord): (r: seq<string>)
    ensures |r| == 4
    ensures r[0] == "ID заказа: " + o.id && r[1] == "Email: " + o.email
    ensures r[2] == "Телефон: " + o.phone && r[3] == "Статус: " + o.status
  {
    ["ID заказа: " + o.id, "Email: " + o.email, "Телефон: " + o.phone, "Статус: " + o.status]
  }

  /** The entries `addOrder` leaves at the top of the list after adding `orders` one by one. */
  function Prepended(orders: seq<OrderRecord>): (r: seq<Node>)
    ensures |r| == |orders|
    decreases |orders|
  {
    if orders == [] then []
    else [Entry(EntryLines(orders[|orders| - 1]))] + Prepended(orders[..|orders| - 1])
  }

  /** The list shows the orders in reverse response order: entry `k` is the `k`-th order from the end. */
  lemma {:induction false} PrependedReverses(orders: seq<OrderRecord>)
    ensures forall k :: 0 <= k < |orders| ==> Prepended(orders)[k] == Entry(EntryLines(orders[|orders| - 1 - k]))
    decreases |orders|
  {
    if orders != [] {
      var init, last := orders[..|orders| - 1], orders[|orders| - 1];
      var rest := Prepended(init);
      PrependedReverses(init);
      assert Prepended(orders) == [Entry(EntryLines(last))] + rest;
      forall k | 1 <= k < |orders|
        ensures Prepended(orders)[k] == Entry(EntryLines(orders[|orders| - 1 - k]))
      {
        assert Prepended(orders)[k] == rest[k - 1];
        assert init[|init| - 1 - (k - 1)] == orders[|orders| - 1 - k];
      }
    }
  }

  /** Every element is an order object. */
  predicate AllOrders(elements: seq<Element>)
  {
    forall k :: 0 <= k < |elements| ==> elements[k].OrderObject?
  }

  function Orders(elements: seq<Element>): (r: seq<OrderRecord>)
    requires AllOrders(elements)
    ensures |r| == |elements|
  {
    if elements == [] then [] else [elements[0].order] + Orders(elements[1..])
  }

  /** The orders of an all-object response are the ones its elements carry. */
  lemma {:induction false} OrdersArePointwise(elements: seq<Element>, orders: seq<OrderRecord>)
    requires |orders| == |elements|
    requires forall k :: 0 <= k < |elements| ==> elements[k] == OrderObject(orders[k])
    ensures AllOrders(elements) && Orders(elements) == orders
    decreases |elements|
  {
    if elements != [] {
      OrdersArePointwise(elements[1..], orders[1..]);
      assert orders == [orders[0]] + orders[1..];
    }
  }

  /** The list container and the placeholder element of the page. */
  class OrderListPage {
    var content: seq<Node>
    var placeholderVisible: bool
    var placeholderText: string
    /** Whether the page has the placeholder element at all. */
    const hasPlaceholder: bool

    constructor (hasPlaceholder: bool, placeholderText: string)
      ensures content == [] && placeholderVisible && this.placeholderText == placeholderText
      ensures this.hasPlaceholder == hasPlaceholder
    {
      this.hasPlaceholder := hasPlaceholder;
      content := [];
      placeholderVisible := true;
      this.placeholderText := placeholderText;
    }

    /** `addOrder(order)`: hide the placeholder and put the order's entry first. */
    method AddOrder(o: OrderRecord)
      modifies this
      ensures content == [Entry(EntryLines(o))] + old(content)
      ensures placeholderVisible == (old(placeholderVisible) && !hasPlaceholder)
      ensures placeholderText == old(placeholderText)
    {
      if hasPlaceholder {
        placeholderVisible := false;
      }
      content := [Entry(EntryLines(o))] + content;
    }

    /** The catch block: the whole list becomes one error paragraph. */
    method Fail(message: string)
      modifies this
      ensures content == [ErrorParagraph(ErrorLead + message)]
      ensures placeholderVisible == old(placeholderVisible) && placeholderText == old(placeholderText)
    {
      content := [ErrorParagraph(ErrorLead + message)];
    }

    /**
     * The `forEach(addOrder)` loop; a `null` element aborts it with a TypeError,
     * after `addOrder` has hidden the placeholder.
     */
    method AddAll(elements: seq<Element>)
      requires elements != []
      modifies this
      ensures AllOrders(elements) ==> content == Prepended(Orders(elements)) + old(content)
      ensures !AllOrders(elements) ==> content == [ErrorParagraph(ErrorLead + NullOrderMessage)]
      ensures placeholderVisible == (old(placeholderVisible) && !hasPlaceholder)
      ensures placeholderText == old(placeholderText)
    {
      var i := 0;
      ghost var added: seq<OrderRecord> := [];
      while i < |elements|
        invariant 0 <= i <= |elements| && |added| == i
        invariant forall k :: 0 <= k < i ==> elements[k] == OrderObject(added[k])
        invariant content == Prepended(added) + old(content)
        invariant placeholderVisible == (old(placeholderVisible) && !(hasPlaceholder && i > 0))
        invariant placeholderText == old(placeholderText)
      {
        if elements[i].NullElement? {
          // `addOrder(null)` hides the placeholder before `order.id` throws
          if hasPlaceholder {
            placeholderVisible := false;
          }
          Fail(NullOrderMessage);
          return;
        }
        var o := elements[i].order;
        assert (added + [o])[..i] == added;
        assert Prepended(added + [o]) == [Entry(EntryLines(o))] + Prepended(added);
        AddOrder(o);
        added := added + [o];
        i := i + 1;
      }
      OrdersArePointwise(elements, added);
    }

    /** `loadOrders()` once `fetch` has yielded `response`. */
    method LoadOrders(response: Response)
      modifies this
      ensures response.Unreachable? ==> content == [ErrorParagraph(ErrorLead + response.message)]
      ensures response.Answered? && !response.ok ==> content == [ErrorParagraph(ErrorLead + LoadFailedText)]
      ensures response.Answered? && response.ok && response.body.Unparsable? ==>
                content == [ErrorParagraph(ErrorLead + response.body.message)]
      ensures response == Answered(true, NotArray) || response == Answered(true, JsonArray([])) ==>
                if hasPlaceholder then content == old(content) && placeholderText == NoOrdersText
                else content == [ErrorParagraph(ErrorLead + NoPlaceholderMessage)] && placeholderText == old(placeholderText)
      ensures response.Answered? && response.ok && response.body.JsonArray? && response.body.elements != [] ==>
                && (AllOrders(response.body.elements) ==> content == Prepended(Orders(response.body.elements)) + old(content))
                && (!AllOrders(response.body.elements) ==> content == [ErrorParagraph(ErrorLead + NullOrderMessage)])
                && placeholderVisible == (old(placeholderVisible) && !hasPlaceholder)
      ensures !(response.Answered? && response.ok && response.body.JsonArray? && response.body.elements != []) ==>
                placeholderVisible == old(placeholderVisible)
    {
      match response {
        case Unreachable(m) =>
          Fail(m);
        case Answered(ok, body) =>
          if !ok {
            Fail(LoadFailedText);
          } else {
            match body {
              case Unparsable(m) =>
                Fail(m);
              case JsonArray(elements) =>
                if |elements| > 0 {
                  AddAll(elements);
                } else {
                  ShowNoOrders();
                }
              case NotArray =>
                ShowNoOrders();
            }
          }
      }
    }

    /** `emptyEl.innerText = "Нет заказов"`, which throws when the element is absent. */
    method ShowNoOrders()
      modifies this
      ensures hasPlaceholder ==> content == old(content) && placeholderText == NoOrdersText
      ensures !hasPlaceholder ==> content == [ErrorParagraph(ErrorLead + NoPlaceholderMessage)] && placeholderText == old(placeholderText)
      ensures placeholderVisible == old(placeholderVisible)
    {
      if hasPlaceholder {
        placeholderText := NoOrdersText;
      } else {
        Fail(NoPlaceholderMessage);
      }
    }
  }
}
