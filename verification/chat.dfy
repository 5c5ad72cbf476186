/** The `/chat` endpoint: message validation, classification, dispatch on
    the intent, the fixed replies, and the mapping of exceptions to status
    codes. The remote services are inputs; every call made to them is
    recorded in the response so that a contract can say which were made. */
module ChatEndpoint {
  import opened Common
  import opened Text
  import opened Classifier
  import opened Catalog

  /** One call made to a remote service while handling a message. */
  datatype RemoteCall =
    | ClassifyCall(message: string)     // language model, extraction prompt
    | ProductSearchCall(query: string)  // catalog, product search
    | OrderSearchCall(query: string)    // catalog, order search
    | ComposeCall(product: Product)     // language model, product reply prompt
    | GenerateCall(prompt: string)      // language model, the raw message

  predicate IsCatalogCall(c: RemoteCall)
  {
    c.ProductSearchCall? || c.OrderSearchCall?
  }

  /** What a language-model call gives: its text, or the message of the
      exception it raised (never a `requests.HTTPError`). */
  datatype Generation = Text(text: string) | Raised(detail: string)

  /** The answers of the remote services, as functions of what they are
      asked. `classify` is `None` when the extraction call raised or its
      answer was not a JSON object. */
  datatype Services = Services(
    classify: string -> Option<Classification>,
    products: string -> Outcome<ProductsPayload>,
    orders: string -> Outcome<OrdersPayload>,
    compose: Product -> Generation,
    generate: string -> Generation)

  /** The JSON body: `{"reply": ...}` or `{"error": ...}`. */
  datatype Body = Reply(reply: string) | Error(error: string)

  /** An HTTP response with the remote calls made to produce it, in order. */
  datatype Response = Response(status: nat, body: Body, calls: seq<RemoteCall>)

  const NoMessage := "No message provided"
  const AskOrderNumber := "Please provide your order number (and the email used for the order) so I can look it up."
  const OrderNotFound := "I couldn't find that order. Double-check the order number and email, or type just the order number without '#'. "
  const GreetingReply := "Hi! I'm LayerLabs support \U{2014} I can help with product details, order status, and tracking. How can I help?"
  const CatalogErrorPrefix := "Shopify API error: "

  /** The apology when no product matches the search text. */
  function NoProductsReply(query: string): (reply: string)
    ensures Occurs(reply, query)
  {
    OccursInConcat("Sorry, I couldn't find products matching \"", query, "\". Can you try the exact product name?");
    "Sorry, I couldn't find products matching \"" + query + "\". Can you try the exact product name?"
  }

  /** Python's f-string rendering of an optional JSON scalar. */
  function Show(o: Option<string>): string
  {
    if o.Some? then o.value else "None"
  }

  /** `order.get("fulfillmentStatus") or "Not fulfilled yet"`. */
  function ShippingText(o: Order): string
  {
    if Truthy(o.fulfillmentStatus) then o.fulfillmentStatus.value else "Not fulfilled yet"
  }

  /** The reply for an order found: it names the order, its number, its
      shipping status and its total. */
  function OrderSummary(o: Order): (reply: string)
    ensures Occurs(reply, Show(o.name))
    ensures Occurs(reply, Show(o.orderNumber))
    ensures Occurs(reply, ShippingText(o))
    ensures Occurs(reply, Show(o.totalAmount))
  {
    var pieces := ["Order ", Show(o.name), " (", Show(o.orderNumber), ") \U{2014} status: ", ShippingText(o),
                   ". Total: ", Show(o.totalAmount),
                   ". If you'd like tracking details, reply 'tracking' and I'll fetch more info."];
    OccursInJoin(pieces, 1);
    OccursInJoin(pieces, 3);
    OccursInJoin(pieces, 5);
    OccursInJoin(pieces, 7);
    Join(pieces)
  }

  /** The two `except` clauses: a `requests.HTTPError` gives 502, anything
      else 500, each with the exception's text. */
  function ErrorResponse(f: Failure, calls: seq<RemoteCall>): (r: Response)
    ensures r.status == 502 <==> f.HttpError?
    ensures r.status == 500 <==> f.OtherError?
    ensures f.HttpError? ==> r.body == Error(CatalogErrorPrefix + f.detail)
    ensures f.OtherError? ==> r.body == Error(f.detail)
    ensures r.calls == calls
  {
    match f
    case HttpError(detail) => Response(502, Error(CatalogErrorPrefix + detail), calls)
    case OtherError(detail) => Response(500, Error(detail), calls)
  }

  /** The `product_info` branch. */
  function ProductBranch(msg: string, e: Entities, svc: Services, calls: seq<RemoteCall>): (r: Response)
    ensures var q := if Truthy(e.product) then e.product.value else msg;
      |calls| < |r.calls| <= |calls| + 2 && r.calls[..|calls|] == calls && r.calls[|calls|] == ProductSearchCall(q)
    ensures var q := if Truthy(e.product) then e.product.value else msg;
      SearchProducts(q, svc.products) == Ok([]) ==> r == Response(200, Reply(NoProductsReply(q)), calls + [ProductSearchCall(q)])
    ensures var q := if Truthy(e.product) then e.product.value else msg;
      SearchProducts(q, svc.products).Fail? ==>
        r == ErrorResponse(SearchProducts(q, svc.products).failure, calls + [ProductSearchCall(q)])
    ensures var q := if Truthy(e.product) then e.product.value else msg;
      var found := SearchProducts(q, svc.products);
      found.Ok? && |found.value| > 0 ==>
        && |r.calls| == |calls| + 2 && r.calls[|calls| + 1] == ComposeCall(found.value[0])
        && (svc.compose(found.value[0]).Text? ==>
              r.status == 200 && r.body == Reply(svc.compose(found.value[0]).text))
        && (svc.compose(found.value[0]).Raised? ==>
              r.status == 500 && r.body == Error(svc.compose(found.value[0]).detail))
    ensures |r.calls| == |calls| + 2 ==>
      && r.calls[|calls| + 1].ComposeCall?
      && (r.status == 200 <==> svc.compose(r.calls[|calls| + 1].product).Text?)
      && (r.status == 200 ==> r.body == Reply(svc.compose(r.calls[|calls| + 1].product).text))
    ensures r.status == 502 ==> |r.calls| == |calls| + 1
    ensures r.status == 200 <==> r.body.Reply?
  {
    var q := if Truthy(e.product) then e.product.value else msg;
    var afterSearch := calls + [ProductSearchCall(q)];
    match SearchProducts(q, svc.products)
    case Fail(f) => ErrorResponse(f, afterSearch)
    case Ok(products) =>
      if |products| == 0 then
        Response(200, Reply(NoProductsReply(q)), afterSearch)
      else
        var first := products[0];
        var afterCompose := afterSearch + [ComposeCall(first)];
        match svc.compose(first)
        case Text(t) => Response(200, Reply(t), afterCompose)
        case Raised(detail) => Response(500, Error(detail), afterCompose)
  }

  /** `r` is a 200 reply that shows the order's name, number, shipping
      status and total. */
  ghost predicate OrderReply(r: Response, o: Order)
  {
    r.status == 200 && r.body.Reply? && Occurs(r.body.reply, Show(o.name)) &&
    Occurs(r.body.reply, Show(o.orderNumber)) && Occurs(r.body.reply, ShippingText(o)) &&
    Occurs(r.body.reply, Show(o.totalAmount))
  }

  /** The `order_status` / `order_tracking` branch. */
  function OrderBranch(e: Entities, svc: Services, calls: seq<RemoteCall>): (r: Response)
    ensures !Truthy(e.orderNumber) ==> r == Response(200, Reply(AskOrderNumber), calls)
    ensures Truthy(e.orderNumber) ==>
      var found := FindOrder(e.orderNumber.value, e.email, svc.orders);
      && r.calls == calls + [OrderSearchCall(OrderQuery(e.orderNumber.value, e.email))]
      && (found == Ok(None) ==> r.status == 200 && r.body == Reply(OrderNotFound))
      && (found.Ok? && found.value.Some? ==> OrderReply(r, found.value.value))
      && (r.status != 200 <==> found.Fail?)
      && (found.Fail? ==>
            r == ErrorResponse(found.failure, calls + [OrderSearchCall(OrderQuery(e.orderNumber.value, e.email))]))
    ensures r.status == 200 <==> r.body.Reply?
  {
    if !Truthy(e.orderNumber) then
      Response(200, Reply(AskOrderNumber), calls)
    else
      var afterSearch := calls + [OrderSearchCall(OrderQuery(e.orderNumber.value, e.email))];
      match FindOrder(e.orderNumber.value, e.email, svc.orders)
      case Fail(f) => ErrorResponse(f, afterSearch)
      case Ok(None) => Response(200, Reply(OrderNotFound), afterSearch)
      case Ok(Some(o)) => Response(200, Reply(OrderSummary(o)), afterSearch)
  }

  /** The `else` branch: the raw message goes to the language model and its
      text is the reply. */
  function FallbackBranch(msg: string, svc: Services, calls: seq<RemoteCall>): (r: Response)
    ensures r.calls == calls + [GenerateCall(msg)]
    ensures svc.generate(msg).Text? ==> r == Response(200, Reply(svc.generate(msg).text), r.calls)
    ensures svc.generate(msg).Raised? ==> r.status == 500 && r.body == Error(svc.generate(msg).detail)
  {
    match svc.generate(msg)
    case Text(t) => Response(200, Reply(t), calls + [GenerateCall(msg)])
    case Raised(detail) => Response(500, Error(detail), calls + [GenerateCall(msg)])
  }

  /** `chat()`: `message` is the request's `message` value (`None` when it
      is missing or `null`). */
  function Chat(message: Option<string>, svc: Services): (r: Response)
    ensures !Truthy(message) ==> r == Response(400, Error(NoMessage), [])
    ensures Truthy(message) ==> r.status != 400 && |r.calls| >= 1 && r.calls[0] == ClassifyCall(message.value)
    ensures r.status == 200 || r.status == 400 || r.status == 500 || r.status == 502
    ensures r.status == 200 <==> r.body.Reply?
    ensures |r.calls| <= 3
    ensures r.status == 502 ==>
      |r.calls| == 2 && IsCatalogCall(r.calls[1]) && r.body.Error? &&
      |r.body.error| >= |CatalogErrorPrefix| && r.body.error[..|CatalogErrorPrefix|] == CatalogErrorPrefix
    ensures Truthy(message) ==>
      var msg := message.value;
      var c := Classify(msg, svc.classify(msg));
      (c.intent == Greeting ==> r == Response(200, Reply(GreetingReply), [ClassifyCall(msg)])) &&
      (c.intent == ProductInfo ==> r == ProductBranch(msg, c.entities, svc, [ClassifyCall(msg)])) &&
      (c.intent == OrderStatus || c.intent == OrderTracking ==> r == OrderBranch(c.entities, svc, [ClassifyCall(msg)])) &&
      (c.intent == Fallback || c.intent == Other ==> r == FallbackBranch(msg, svc, [ClassifyCall(msg)]))
  {
    if !Truthy(message) then
      Response(400, Error(NoMessage), [])
    else
      var msg := message.value;
      var c := Classify(msg, svc.classify(msg));
      var calls := [ClassifyCall(msg)];
      match c.intent
      case ProductInfo => ProductBranch(msg, c.entities, svc, calls)
      case OrderStatus => OrderBranch(c.entities, svc, calls)
      case OrderTracking => OrderBranch(c.entities, svc, calls)
      case Greeting => Response(200, Reply(GreetingReply), calls)
      case _ => FallbackBranch(msg, svc, calls)
  }

  /** An order lookup that the catalog answers with an HTTP error status
      ends the request with 502 and the catalog's message; the language
      model is asked nothing more. */
  lemma OrderLookupHttpError(msg: string, svc: Services, d: string)
    requires msg != ""
    requires var c := Classify(msg, svc.classify(msg));
      (c.intent == OrderStatus || c.intent == OrderTracking) && Truthy(c.entities.orderNumber) &&
      svc.orders(OrderQuery(c.entities.orderNumber.value, c.entities.email)) == Fail(HttpError(d))
    ensures var c := Classify(msg, svc.classify(msg));
      Chat(Some(msg), svc) ==
        Response(502, Error(CatalogErrorPrefix + d),
                 [ClassifyCall(msg), OrderSearchCall(OrderQuery(c.entities.orderNumber.value, c.entities.email))])
  {
  }

  /** A product search that the catalog answers with an HTTP error status
      ends the request with 502 and the catalog's message, before any reply
      is composed. */
  lemma ProductSearchHttpError(msg: string, svc: Services, d: string)
    requires msg != ""
    requires var c := Classify(msg, svc.classify(msg));
      var q := if Truthy(c.entities.product) then c.entities.product.value else msg;
      c.intent == ProductInfo && svc.products(q) == Fail(HttpError(d))
    ensures var c := Classify(msg, svc.classify(msg));
      var q := if Truthy(c.entities.product) then c.entities.product.value else msg;
      Chat(Some(msg), svc) == Response(502, Error(CatalogErrorPrefix + d), [ClassifyCall(msg), ProductSearchCall(q)])
  {
  }
}
