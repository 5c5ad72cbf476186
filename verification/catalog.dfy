/** The catalog client's deterministic parts: the order-search query string
    and the extraction of product and order nodes from the GraphQL
    response (the HTTP call itself is an input of the model). */
module Catalog {
  import opened Common

  /** A key of a JSON object as `dict.get` sees it: missing, `null`, or a value. */
  datatype Field<+T> = Absent | Null | Present(value: T)

  /** A product node of the product search; only passed on to the reply
      composer, so only its identifying fields are kept. */
  datatype Product = Product(id: string, title: string, handle: string, vendor: string)

  datatype ProductEdge = ProductEdge(node: Product)
  datatype ProductConnection = ProductConnection(edges: Field<seq<ProductEdge>>)
  datatype ProductsData = ProductsData(products: Field<ProductConnection>)
  /** The decoded body of the product search response. */
  datatype ProductsPayload = ProductsPayload(data: Field<ProductsData>)

  /** An order node; each field holds the JSON scalar's text, `None` for
      `null`. `totalAmount` is `totalPriceSet.shopMoney.amount`. */
  datatype Order = Order(name: Option<string>, orderNumber: Option<string>,
                         fulfillmentStatus: Option<string>, totalAmount: Option<string>)

  datatype OrderConnection = OrderConnection(nodes: Field<seq<Order>>)
  datatype OrdersData = OrdersData(orders: Field<OrderConnection>)
  /** The decoded body of the order search response. */
  datatype OrdersPayload = OrdersPayload(data: Field<OrdersData>)

  /** `str(e)` of the exception raised by `None.get(...)`. */
  const NoneHasNoGet := OtherError("'NoneType' object has no attribute 'get'")
  /** `str(e)` of the exception raised by `for e in None`. */
  const NoneNotIterable := OtherError("'NoneType' object is not iterable")

  /** The product response reaches an edge list: `data`, `products` and
      `edges` are all present. */
  predicate HasEdges(payload: ProductsPayload)
  {
    payload.data.Present? && payload.data.value.products.Present? &&
    payload.data.value.products.value.edges.Present?
  }

  /** The product response has a `null` on the way to the edges, where
      the chain of `.get` calls (or the loop over the edges) raises. */
  predicate ProductsBroken(payload: ProductsPayload)
  {
    payload.data.Null? ||
    (payload.data.Present? && (payload.data.value.products.Null? ||
      (payload.data.value.products.Present? && payload.data.value.products.value.edges.Null?)))
  }

  /** `[e["node"] for e in data.get("data", {}).get("products", {}).get("edges", [])]`:
      the nodes of the edges in order; no products when a key is missing;
      a Python error (never an HTTP one) when a value on the way is `null`. */
  function ProductNodes(payload: ProductsPayload): (r: Outcome<seq<Product>>)
    ensures r.Fail? <==> ProductsBroken(payload)
    ensures r.Fail? ==> r.failure.OtherError?
    ensures r.Ok? && HasEdges(payload) ==>
      var edges := payload.data.value.products.value.edges.value;
      |r.value| == |edges| && forall i :: 0 <= i < |edges| ==> r.value[i] == edges[i].node
    ensures r.Ok? && !HasEdges(payload) ==> r.value == []
  {
    match payload.data
    case Absent => Ok([])
    case Null => Fail(NoneHasNoGet)
    case Present(data) =>
      match data.products
      case Absent => Ok([])
      case Null => Fail(NoneHasNoGet)
      case Present(conn) =>
        match conn.edges
        case Absent => Ok([])
        case Null => Fail(NoneNotIterable)
        case Present(edges) => Ok(seq(|edges|, i requires 0 <= i < |edges| => edges[i].node))
  }

  /** `search_products_by_text`: the search text goes out unchanged as the
      query; `catalog` is the outcome of the GraphQL call for a query. A
      failed call fails the search with the same exception; otherwise the
      products are the response's nodes, so an HTTP error can only come from
      the call. */
  function SearchProducts(text: string, catalog: string -> Outcome<ProductsPayload>): (r: Outcome<seq<Product>>)
    ensures catalog(text).Fail? ==> r == Fail(catalog(text).failure)
    ensures r.Fail? && r.failure.HttpError? ==> catalog(text) == Fail(r.failure)
    ensures r.Ok? ==> catalog(text).Ok? && !ProductsBroken(catalog(text).value)
    ensures catalog(text).Ok? ==> r == ProductNodes(catalog(text).value)
  {
    match catalog(text)
    case Fail(f) => Fail(f)
    case Ok(payload) => ProductNodes(payload)
  }

  /** The order search query of `find_order`: `name:<order>`, followed by
      ` AND email:<email>` exactly when the e-mail is truthy. */
  function OrderQuery(orderNumber: string, email: Option<string>): (q: string)
    ensures |q| >= 5 + |orderNumber| && q[..5 + |orderNumber|] == "name:" + orderNumber
    ensures Truthy(email) <==> |q| > 5 + |orderNumber|
    ensures Truthy(email) ==> q[5 + |orderNumber|..] == " AND email:" + email.value
  {
    var q := "name:" + orderNumber;
    if Truthy(email) then q + " AND email:" + email.value else q
  }

  /** The order response reaches a node list. */
  predicate HasNodes(payload: OrdersPayload)
  {
    payload.data.Present? && payload.data.value.orders.Present? &&
    payload.data.value.orders.value.nodes.Present?
  }

  /** `nodes = data.get("data", {}).get("orders", {}).get("nodes", [])` and
      `nodes[0] if nodes else None`: the first node, or `None` when there is
      none (a `null` node list is falsy too); a Python error when `data` or
      `orders` is `null`. */
  function FirstOrder(payload: OrdersPayload): (r: Outcome<Option<Order>>)
    ensures r.Fail? <==> payload.data.Null? || (payload.data.Present? && payload.data.value.orders.Null?)
    ensures r.Fail? ==> r.failure.OtherError?
    ensures r.Ok? && r.value.Some? <==>
      HasNodes(payload) && |payload.data.value.orders.value.nodes.value| > 0
    ensures r.Ok? && r.value.Some? ==> r.value.value == payload.data.value.orders.value.nodes.value[0]
  {
    match payload.data
    case Absent => Ok(None)
    case Null => Fail(NoneHasNoGet)
    case Present(data) =>
      match data.orders
      case Absent => Ok(None)
      case Null => Fail(NoneHasNoGet)
      case Present(conn) =>
        match conn.nodes
        case Present(nodes) => if |nodes| > 0 then Ok(Some(nodes[0])) else Ok(None)
        case _ => Ok(None)
  }

  /** `find_order`: one order search with the query built from the order
      number and the e-mail. A failed call fails with the same exception;
      an order found is the first node of the response to that query. */
  function FindOrder(orderNumber: string, email: Option<string>,
                     catalog: string -> Outcome<OrdersPayload>): (r: Outcome<Option<Order>>)
    ensures catalog(OrderQuery(orderNumber, email)).Fail? ==>
      r == Fail(catalog(OrderQuery(orderNumber, email)).failure)
    ensures r.Fail? && r.failure.HttpError? ==> catalog(OrderQuery(orderNumber, email)) == Fail(r.failure)
    ensures r.Ok? && r.value.Some? ==>
      var answer := catalog(OrderQuery(orderNumber, email));
      answer.Ok? && HasNodes(answer.value) && |answer.value.data.value.orders.value.nodes.value| > 0 &&
      r.value.value == answer.value.data.value.orders.value.nodes.value[0]
    ensures catalog(OrderQuery(orderNumber, email)).Ok? ==>
      r == FirstOrder(catalog(OrderQuery(orderNumber, email)).value)
  {
    match catalog(OrderQuery(orderNumber, email))
    case Fail(f) => Fail(f)
    case Ok(payload) => FirstOrder(payload)
  }
}
