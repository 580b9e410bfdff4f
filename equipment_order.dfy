/**
 * The equipment-order deep-link page of equipment-order/equipment-order.js:
 * the path that selects an order, the request for it, the rendering of its
 * fields and the visibility of the two page containers.
 */
module EquipmentOrder {
  import opened Wrappers
  import opened Text

  const PathPrefix := "/equipment-order/"

  /**
   * `path.match(/^\/equipment-order\/([^\/]+)$/)` with its group: the
   * registration number when the path is the prefix and one non-empty
   * segment without a slash.
   */
  function MatchOrderPath(path: string): (r: Option<string>)
    ensures r.Some? <==> StartsWith(path, PathPrefix) && |path| > |PathPrefix| && '/' !in path[|PathPrefix|..]
    ensures r.Some? ==> path == PathPrefix + r.value && r.value != "" && '/' !in r.value
  {
    if StartsWith(path, PathPrefix) && |path| > |PathPrefix| && '/' !in path[|PathPrefix|..] then
      assert path == path[..|PathPrefix|] + path[|PathPrefix|..];
      Some(path[|PathPrefix|..])
    else None
  }

  /** The page path of a registration number is matched back to that number. */
  lemma MatchOrderPathInverse(reg: string)
    requires reg != "" && '/' !in reg
    ensures MatchOrderPath(PathPrefix + reg) == Some(reg)
  {
    var path := PathPrefix + reg;
    assert path[..|PathPrefix|] == PathPrefix;
    assert path[|PathPrefix|..] == reg;
  }

  /** `DEFAULT_EQUIPMENT_ORDER_CONFIG`; the timeout is in milliseconds. */
  datatype Config = Config(apiBaseUrl: string, orderEndpoint: string, requestTimeout: nat)

  const DefaultConfig := Config("https://cmr.api.stroyka.kz", "/rest/api/v1/order/special-machinery/reg/", 30000)

  /** The URL `getOrderByRegNumber` fetches. */
  function OrderUrl(config: Config, reg: string): (r: string)
    ensures StartsWith(r, config.apiBaseUrl + config.orderEndpoint)
    ensures r[|config.apiBaseUrl + config.orderEndpoint|..] == reg
  {
    var base := config.apiBaseUrl + config.orderEndpoint;
    var r := config.apiBaseUrl + config.orderEndpoint + reg;
    assert r[..|base|] == base;
    r
  }

  /**
   * The order fields the page shows, each as the text it renders; an empty
   * text stands for a falsy or missing field (`null`, `undefined`, `0`, `""`).
   */
  datatype EquipmentOrder = EquipmentOrder(
    categoryName: string,
    subcategoryName: string,
    orderAmount: string,
    negotiable: bool,
    name: string,
    regNumber: string,
    viewCount: string,
    addressName: string,
    plannedDate: string,
    advanceAmount: string,
    createdDate: string,
    description: string,
    customerName: string)

  /** The JSON the order request yields: an order object, or `null`. */
  datatype OrderJson = OrderObject(order: EquipmentOrder) | JsonNull

  /** What `fetch` yields: a response (with its parsed body, None when `json()` throws), or a thrown error. */
  datatype FetchOutcome =
    | Answered(ok: bool, status: int, statusText: string, json: Option<OrderJson>)
    | Unreachable(message: string)

  datatype LoadError = HttpStatus(status: int, statusText: string) | Thrown(message: string)

  datatype Loaded = Loaded(json: OrderJson) | LoadFailed(error: LoadError)

  const BadJsonMessage := "Unexpected token in JSON"

  /**
   * `getOrderByRegNumber(regNumber)`: `fetch` stands for the network call,
   * including its abort after `requestTimeout` milliseconds.
   */
  function GetOrderByRegNumber(config: Config, reg: string, fetch: string -> FetchOutcome): (r: Loaded)
    ensures fetch(OrderUrl(config, reg)).Answered? && !fetch(OrderUrl(config, reg)).ok ==>
              r == LoadFailed(HttpStatus(fetch(OrderUrl(config, reg)).status, fetch(OrderUrl(config, reg)).statusText))
    ensures r.Loaded? <==> fetch(OrderUrl(config, reg)).Answered? && fetch(OrderUrl(config, reg)).ok && fetch(OrderUrl(config, reg)).json.Some?
    ensures r.Loaded? ==> r.json == fetch(OrderUrl(config, reg)).json.value
  {
    match fetch(OrderUrl(config, reg))
    case Unreachable(m) => LoadFailed(Thrown(m))
    case Answered(ok, status, statusText, json) =>
      if !ok then LoadFailed(HttpStatus(status, statusText))
      else match json
        case None => LoadFailed(Thrown(BadJsonMessage))
        case Some(v) => Loaded(v)
  }

  /** `x || '-'`. */
  function OrDash(s: string): (r: string)
    ensures r != ""
    ensures s != "" ==> r == s
    ensures s == "" ==> r == "-"
  {
    if s != "" then s else "-"
  }

  /** The category pills: one per non-empty name, category first; no block at all when both are empty. */
  function CategoryPills(category: string, subcategory: string): (r: seq<string>)
    ensures r == [] <==> category == "" && subcategory == ""
    ensures forall k :: 0 <= k < |r| ==> r[k] != ""
    ensures category != "" ==> r[0] == category
    ensures subcategory != "" ==> r[|r| - 1] == subcategory
    ensures |r| == (if category != "" then 1 else 0) + (if subcategory != "" then 1 else 0)
  {
    (if category != "" then [category] else []) + (if subcategory != "" then [subcategory] else [])
  }

  const NegotiableNote := " (Договорная)"
  /** The eye sign and space before the view count. */
  const ViewsLead := "👁 "

  /** The texts `displayOrderData` writes into the card, field by field. */
  datatype OrderCard = OrderCard(
    amount: string,
    amountNote: string,
    typeName: string,
    regLabel: string,
    views: string,
    pills: seq<string>,
    city: string,
    plannedDate: string,
    advance: string,
    createdDate: string,
    description: string,
    customer: string)

  /** `displayOrderData(order)` on the texts it renders. */
  function Render(o: EquipmentOrder): (c: OrderCard)
    ensures c.amount == OrDash(o.orderAmount) && c.city == OrDash(o.addressName)
    ensures c.plannedDate == OrDash(o.plannedDate) && c.advance == OrDash(o.advanceAmount)
    ensures c.createdDate == OrDash(o.createdDate) && c.description == OrDash(o.description)
    ensures c.customer == OrDash(o.customerName)
    ensures c.amountNote != "" <==> o.negotiable
    ensures o.negotiable ==> c.amountNote == NegotiableNote
    ensures c.typeName == o.name && c.regLabel == "#" + o.regNumber
    ensures c.views == "" <==> o.viewCount == ""
    ensures o.viewCount != "" ==> c.views == ViewsLead + o.viewCount
    ensures c.pills == CategoryPills(o.categoryName, o.subcategoryName)
    ensures c.pills == [] <==> o.categoryName == "" && o.subcategoryName == ""
  {
    OrderCard(
      amount := OrDash(o.orderAmount),
      amountNote := if o.negotiable then NegotiableNote else "",
      typeName := o.name,
      regLabel := "#" + o.regNumber,
      views := if o.viewCount != "" then ViewsLead + o.viewCount else "",
      pills := CategoryPills(o.categoryName, o.subcategoryName),
      city := OrDash(o.addressName),
      plannedDate := OrDash(o.plannedDate),
      advance := OrDash(o.advanceAmount),
      createdDate := OrDash(o.createdDate),
      description := OrDash(o.description),
      customer := OrDash(o.customerName))
  }

  /** A field renders as `-` exactly when it is missing or is itself `-`. */
  lemma DashMeansMissing(s: string)
    ensures OrDash(s) == "-" <==> s == "" || s == "-"
    ensures OrDash(s) != "-" ==> OrDash(s) == s
  {
  }

  const LoadFailedMessage := "Не удалось загрузить данные заказа. Проверьте подключение к интернету."

  /** What the deep-link container shows. */
  datatype Panel = Blank | Loading | Card(card: OrderCard) | ErrorPanel(message: string)

  /** The outcome of the load: the card, or the error panel when the request failed or yielded `null`. */
  function PanelFor(loaded: Loaded): (p: Panel)
    ensures p.Card? <==> loaded.Loaded? && loaded.json.OrderObject?
    ensures p.Card? ==> p.card == Render(loaded.json.order)
    ensures !p.Card? ==> p == ErrorPanel(LoadFailedMessage)
  {
    match loaded
    case Loaded(OrderObject(o)) => Card(Render(o))
    case _ => ErrorPanel(LoadFailedMessage)
  }

  /** The page: the default content, the deep-link container and what the latter shows. */
  class EquipmentOrderPage {
    var defaultVisible: bool
    var deepLinkVisible: bool
    var panel: Panel
    /** Every panel the deep-link container has shown, in order. */
    ghost var shown: seq<Panel>

    constructor ()
      ensures defaultVisible && deepLinkVisible && panel == Blank && shown == [Blank]
    {
      defaultVisible := true;
      deepLinkVisible := true;
      panel := Blank;
      shown := [Blank];
    }

    method Show(p: Panel)
      modifies this
      ensures panel == p && shown == old(shown) + [p]
      ensures defaultVisible == old(defaultVisible) && deepLinkVisible == old(deepLinkVisible)
    {
      panel := p;
      shown := shown + [p];
    }

    /**
     * The `DOMContentLoaded` handler: on a matching path hide the default
     * content, show the loading panel, then the card or the error; on any
     * other path hide only the deep-link container.
     */
    method OnLoad(path: string, config: Config, fetch: string -> FetchOutcome)
      modifies this
      ensures MatchOrderPath(path).Some? ==>
        && !defaultVisible && deepLinkVisible == old(deepLinkVisible)
        && panel == PanelFor(GetOrderByRegNumber(config, MatchOrderPath(path).value, fetch))
        && shown == old(shown) + [Loading, panel]
      ensures MatchOrderPath(path).None? ==>
        && defaultVisible == old(defaultVisible) && !deepLinkVisible
        && panel == old(panel) && shown == old(shown)
    {
      match MatchOrderPath(path) {
        case Some(reg) =>
          defaultVisible := false;
          Show(Loading);
          var loaded := GetOrderByRegNumber(config, reg, fetch);
          Show(PanelFor(loaded));
        case None =>
          deepLinkVisible := false;
      }
    }
  }
}
