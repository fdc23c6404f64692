// InAppPurchases.java: the purchasable items and the orders the billing service
// reported, kept in two lists that update replaces only when every fetch
// succeeded, and the queries over them.  The billing service's answers are
// parameters (what each call returned, already split into the JSON fields the
// constructors read, or None where the JSON did not parse).

module InAppPurchases {
  import opened JavaText

  datatype ProductType = Once | Subscription
  datatype OrderState = Purchased | Canceled | Refunded

  /** InAppPurchase's type: "subs" is a subscription, anything else a one-off. */
  function TypeOf(t: string): (ty: ProductType)
    ensures ty == Subscription <==> t == "subs"
  {
    if t == "subs" then Subscription else Once
  }

  /** Order's state switch: 0, 1 and 2 are PURCHASED, CANCELED and REFUNDED, and
      every other value counts as CANCELED. */
  function StateOf(state: int): (s: OrderState)
    ensures s == Purchased <==> state == 0
    ensures s == Refunded <==> state == 2
    ensures s == Canceled <==> state != 0 && state != 2
  {
    match state
    case 0 => Purchased
    case 1 => Canceled
    case 2 => Refunded
    case _ => Canceled
  }

  /** The fields the InAppPurchase constructor reads from its JSON. */
  datatype PurchaseJson = PurchaseJson(productId: string, productType: string, price: string, priceMicros: int,
                                       priceCurrency: string, title: string, description: string)

  /** The fields the Order constructor reads from its JSON. */
  datatype OrderJson = OrderJson(orderId: string, packageName: string, productId: string, purchaseTime: int,
                                 purchaseState: int, developerPayload: string, purchaseToken: string)

  datatype InAppPurchase = InAppPurchase(productId: string, ty: ProductType, price: string, priceMicros: int,
                                         priceCurrency: string, title: string, description: string)

  datatype Order = Order(orderId: string, packageName: string, productId: string, purchaseTime: int,
                         state: OrderState, developerPayload: string, purchaseToken: string)

  function PurchaseOf(j: PurchaseJson): (p: InAppPurchase)
    ensures p.productId == j.productId && p.priceMicros == j.priceMicros && p.ty == TypeOf(j.productType)
  {
    InAppPurchase(j.productId, TypeOf(j.productType), j.price, j.priceMicros, j.priceCurrency, j.title, j.description)
  }

  function OrderOf(j: OrderJson): (o: Order)
    ensures o.productId == j.productId && o.purchaseToken == j.purchaseToken && o.state == StateOf(j.purchaseState)
  {
    Order(j.orderId, j.packageName, j.productId, j.purchaseTime, StateOf(j.purchaseState), j.developerPayload,
          j.purchaseToken)
  }

  // ---------------------------------------------------------------- fetching

  /** A list of JSON items, all of which must parse; one that does not throws. */
  function PurchasesOf(ds: seq<Option<PurchaseJson>>): (r: Option<seq<InAppPurchase>>)
    ensures r.Some? <==> forall k :: 0 <= k < |ds| ==> ds[k].Some?
    ensures r.Some? ==> |r.value| == |ds| && forall k :: 0 <= k < |ds| ==> r.value[k] == PurchaseOf(ds[k].value)
  {
    if ds == [] then Some([])
    else
      var init := PurchasesOf(ds[..|ds| - 1]);
      var last := ds[|ds| - 1];
      if init.None? || last.None? then None else Some(init.value + [PurchaseOf(last.value)])
  }

  function OrdersOf(ds: seq<Option<OrderJson>>): (r: Option<seq<Order>>)
    ensures r.Some? <==> forall k :: 0 <= k < |ds| ==> ds[k].Some?
    ensures r.Some? ==> |r.value| == |ds| && forall k :: 0 <= k < |ds| ==> r.value[k] == OrderOf(ds[k].value)
  {
    if ds == [] then Some([])
    else
      var init := OrdersOf(ds[..|ds| - 1]);
      var last := ds[|ds| - 1];
      if init.None? || last.None? then None else Some(init.value + [OrderOf(last.value)])
  }

  /** What getSkuDetails gave: an exception, a null bundle, a bundle without
      DETAILS_LIST, or the list. */
  datatype SkuAnswer = SkuFailed | SkuNull | SkuNoList | SkuList(details: seq<Option<PurchaseJson>>)

  /** The items of one getSkuDetails answer; None when it throws. */
  function SkuItems(a: SkuAnswer): Option<seq<InAppPurchase>>
  {
    match a
    case SkuFailed => None
    case SkuNull => Some([])
    case SkuNoList => Some([])
    case SkuList(ds) => PurchasesOf(ds)
  }

  /** What one getPurchases call gave: an exception, a null bundle, or the
      bundle's RESPONSE_CODE (-1 when absent), INAPP_PURCHASE_DATA_LIST and
      INAPP_CONTINUATION_TOKEN. */
  datatype Page = PageFailed | PageNull | Page(code: int, data: Option<seq<Option<OrderJson>>>, token: Option<string>)

  /** What the loop does with one page: throw, stop after it, or ask for more. */
  datatype Step = Throw | Stop(orders: seq<Order>) | More(orders: seq<Order>, token: string)

  function StepOf(p: Page): (s: Step)
    ensures s.More? <==> p.Page? && p.code == 0 && p.data.Some? && OrdersOf(p.data.value).Some? && p.token.Some?
    ensures s.Throw? <==> p.PageFailed? || (p.Page? && p.code == 0 && p.data.Some? && OrdersOf(p.data.value).None?)
  {
    match p
    case PageFailed => Throw
    case PageNull => Stop([])
    case Page(code, data, token) =>
      if code != 0 || data.None? then Stop([])
      else
        var os := OrdersOf(data.value);
        if os.None? then Throw
        else if token.None? then Stop(os.value)
        else More(os.value, token.value)
  }

  /** The answers the service gives in turn end with one that stops the loop
      (the ones after it are never asked for). */
  predicate Ends(pages: seq<Page>)
  {
    |pages| > 0 && !StepOf(pages[|pages| - 1]).More?
  }

  /** How many getPurchases calls the loop makes: it goes on exactly while a page
      asks for more. */
  function Calls(pages: seq<Page>): (n: nat)
    requires Ends(pages)
    ensures 1 <= n <= |pages|
    ensures forall k :: 0 <= k < n - 1 ==> StepOf(pages[k]).More?
    ensures !StepOf(pages[n - 1]).More?
    decreases |pages|
  {
    if StepOf(pages[0]).More? then
      var n := Calls(pages[1..]);
      assert forall k :: 0 < k < n ==> pages[k] == pages[1..][k - 1];
      n + 1
    else 1
  }

  /** The orders of one type: every page's orders in turn, or None when a call
      threw or an order did not parse. */
  function Paginate(pages: seq<Page>): (r: Option<seq<Order>>)
    requires Ends(pages)
    ensures r.None? <==> StepOf(pages[Calls(pages) - 1]).Throw?
    decreases |pages|
  {
    match StepOf(pages[0])
    case Throw => None
    case Stop(os) => Some(os)
    case More(os, _) =>
      var rest := Paginate(pages[1..]);
      assert pages[1..][Calls(pages[1..]) - 1] == pages[Calls(pages) - 1];
      if rest.None? then None else Some(os + rest.value)
  }

  /** The continuation tokens the calls pass: the given one first, then each
      page's token to the call after it. */
  function Tokens(first: Option<string>, pages: seq<Page>): (sent: seq<Option<string>>)
    requires Ends(pages)
    ensures |sent| == Calls(pages) && sent[0] == first
    ensures forall k :: 0 < k < |sent| ==> sent[k] == Some(StepOf(pages[k - 1]).token)
    decreases |pages|
  {
    match StepOf(pages[0])
    case More(_, token) =>
      var rest := Tokens(Some(token), pages[1..]);
      assert forall k :: 0 < k < |rest| ==> pages[k] == pages[1..][k - 1];
      [first] + rest
    case _ => [first]
  }

  /** update's four fetches: None when any of them throws, else the new lists. */
  datatype Lists = Lists(iaps: seq<InAppPurchase>, orders: seq<Order>)

  function UpdateOf(once: SkuAnswer, subs: SkuAnswer, inappPages: seq<Page>, subsPages: seq<Page>): (r: Option<Lists>)
    requires Ends(inappPages) && Ends(subsPages)
    ensures r.Some? <==> SkuItems(once).Some? && SkuItems(subs).Some?
                         && Paginate(inappPages).Some? && Paginate(subsPages).Some?
    ensures r.Some? ==> r.value.iaps == SkuItems(once).value + SkuItems(subs).value
                        && r.value.orders == Paginate(inappPages).value + Paginate(subsPages).value
  {
    var a, b := SkuItems(once), SkuItems(subs);
    var o1, o2 := Paginate(inappPages), Paginate(subsPages);
    if a.None? || b.None? || o1.None? || o2.None? then None
    else Some(Lists(a.value + b.value, o1.value + o2.value))
  }

  /** The inner `for (String details : data)` loop of the order pages. */
  method AddOrders(acc: seq<Order>, ds: seq<Option<OrderJson>>) returns (r: Option<seq<Order>>)
    ensures r == if OrdersOf(ds).None? then None else Some(acc + OrdersOf(ds).value)
  {
    var out := acc;
    var i := 0;
    while i < |ds|
      invariant 0 <= i <= |ds|
      invariant OrdersOf(ds[..i]).Some? && out == acc + OrdersOf(ds[..i]).value
    {
      assert ds[..i + 1][..i] == ds[..i];
      if ds[i].None? {
        assert !(forall k :: 0 <= k < |ds| ==> ds[k].Some?);
        return None;
      }
      out := out + [OrderOf(ds[i].value)];
      i := i + 1;
    }
    assert ds[..i] == ds;
    r := Some(out);
  }

  /** The same loop over the item details. */
  method AddPurchases(acc: seq<InAppPurchase>, ds: seq<Option<PurchaseJson>>) returns (r: Option<seq<InAppPurchase>>)
    ensures r == if PurchasesOf(ds).None? then None else Some(acc + PurchasesOf(ds).value)
  {
    var out := acc;
    var i := 0;
    while i < |ds|
      invariant 0 <= i <= |ds|
      invariant PurchasesOf(ds[..i]).Some? && out == acc + PurchasesOf(ds[..i]).value
    {
      assert ds[..i + 1][..i] == ds[..i];
      if ds[i].None? {
        assert !(forall k :: 0 <= k < |ds| ==> ds[k].Some?);
        return None;
      }
      out := out + [PurchaseOf(ds[i].value)];
      i := i + 1;
    }
    assert ds[..i] == ds;
    r := Some(out);
  }

  /** One getSkuDetails answer added to the items so far. */
  method AddSku(acc: seq<InAppPurchase>, a: SkuAnswer) returns (r: Option<seq<InAppPurchase>>)
    ensures r == if SkuItems(a).None? then None else Some(acc + SkuItems(a).value)
  {
    match a
    case SkuFailed => r := None;
    case SkuNull => assert acc + [] == acc; r := Some(acc);
    case SkuNoList => assert acc + [] == acc; r := Some(acc);
    case SkuList(ds) => r := AddPurchases(acc, ds);
  }

  /** Prepend acc to a list that may be missing. */
  function After(acc: seq<Order>, r: Option<seq<Order>>): Option<seq<Order>>
  {
    if r.None? then None else Some(acc + r.value)
  }

  /** One page of the loop: the null, response-code and data-list checks, the
      orders added, and the continuation token when there is one. */
  method ReadPage(out: seq<Order>, p: Page) returns (r: Option<seq<Order>>, more: Option<string>)
    ensures StepOf(p).Throw? ==> r.None?
    ensures StepOf(p).Stop? ==> r == Some(out + StepOf(p).orders) && more.None?
    ensures StepOf(p).More? ==> r == Some(out + StepOf(p).orders) && more == Some(StepOf(p).token)
  {
    more := None;
    if p.PageFailed? {
      return None, None;
    }
    if p.PageNull? || p.code != 0 || p.data.None? {
      assert out + [] == out;
      return Some(out), None;
    }
    r := AddOrders(out, p.data.value);
    if r.Some? {
      more := p.token;
    }
  }

  /** A page that asks for more: its orders come first, then the rest's, and
      its token goes to the next call. */
  lemma PageMore(q: seq<Page>, token: Option<string>, out: seq<Order>)
    requires Ends(q) && StepOf(q[0]).More?
    ensures Ends(q[1..])
    ensures Tokens(token, q) == [token] + Tokens(Some(StepOf(q[0]).token), q[1..])
    ensures After(out, Paginate(q)) == After(out + StepOf(q[0]).orders, Paginate(q[1..]))
  {
    assert q[1..][|q[1..]| - 1] == q[|q| - 1];
    var rest := Paginate(q[1..]);
    if rest.Some? {
      assert out + (StepOf(q[0]).orders + rest.value) == out + StepOf(q[0]).orders + rest.value;
    }
  }

  /** The page that ends the loop. */
  lemma PageLast(q: seq<Page>, token: Option<string>, out: seq<Order>)
    requires Ends(q) && !StepOf(q[0]).More?
    ensures Tokens(token, q) == [token]
    ensures After(out, Paginate(q)) == if StepOf(q[0]).Throw? then None else Some(out + StepOf(q[0]).orders)
  {
  }

  /** The `while (true)` loop over one type's pages, added to the orders so far;
      `sent` are the continuation tokens passed, in order. */
  method FetchOrders(acc: seq<Order>, pages: seq<Page>) returns (r: Option<seq<Order>>, sent: seq<Option<string>>)
    requires Ends(pages)
    ensures r == After(acc, Paginate(pages))
    ensures sent == Tokens(None, pages)
  {
    var out := acc;
    var token: Option<string> := None;
    sent := [];
    var i := 0;
    while true
      invariant 0 <= i < |pages| && Ends(pages[i..])
      invariant After(acc, Paginate(pages)) == After(out, Paginate(pages[i..]))
      invariant Tokens(None, pages) == sent + Tokens(token, pages[i..])
      decreases |pages| - i
    {
      var q := pages[i..];
      var p := pages[i];
      assert q[0] == p;
      var next, more := ReadPage(out, p);
      if next.None? || more.None? {
        PageLast(q, token, out);
        sent := sent + [token];
        return next, sent;
      }
      PageMore(q, token, out);
      assert sent + ([token] + Tokens(more, q[1..])) == sent + [token] + Tokens(more, q[1..]);
      sent := sent + [token];
      out := next.value;
      token := more;
      assert q[1..] == pages[i + 1..];
      i := i + 1;
    }
  }

  // ---------------------------------------------------------------- queries

  /** getInAppPurchase: the first item with the product id; null never matches. */
  function FirstWithId(iaps: seq<InAppPurchase>, productId: Option<string>): (r: Option<InAppPurchase>)
    ensures r.None? <==> productId.None? || forall k :: 0 <= k < |iaps| ==> iaps[k].productId != productId.value
    ensures r.Some? ==> exists k :: 0 <= k < |iaps| && iaps[k] == r.value && r.value.productId == productId.value
                                     && forall j :: 0 <= j < k ==> iaps[j].productId != productId.value
    decreases |iaps|
  {
    if productId.None? || iaps == [] then None
    else if iaps[0].productId == productId.value then Some(iaps[0])
    else
      var r := FirstWithId(iaps[1..], productId);
      assert forall k :: 0 < k < |iaps| ==> iaps[k] == iaps[1..][k - 1];
      r
  }

  /** getOrders' test: the product (null matches every product) and, unless
      inactive orders are asked for, the PURCHASED state. */
  predicate Keeps(o: Order, productId: Option<string>, returnInactive: bool)
  {
    (productId.None? || o.productId == productId.value) && (returnInactive || o.state == Purchased)
  }

  function OrdersFor(orders: seq<Order>, productId: Option<string>, returnInactive: bool): (r: seq<Order>)
    ensures |r| <= |orders|
  {
    if orders == [] then []
    else
      var o := orders[|orders| - 1];
      OrdersFor(orders[..|orders| - 1], productId, returnInactive) + (if Keeps(o, productId, returnInactive) then [o] else [])
  }

  /** getOrders returns exactly the stored orders that pass the test. */
  lemma {:induction false} OrdersForMembers(orders: seq<Order>, productId: Option<string>, returnInactive: bool, o: Order)
    ensures o in OrdersFor(orders, productId, returnInactive) <==> o in orders && Keeps(o, productId, returnInactive)
    decreases |orders|
  {
    if orders != [] {
      var init := orders[..|orders| - 1];
      OrdersForMembers(init, productId, returnInactive, o);
      assert orders == init + [orders[|orders| - 1]];
    }
  }

  /** getOrders keeps the stored order: the selection of a concatenation is the
      concatenation of the selections. */
  lemma {:induction false} OrdersForAppend(a: seq<Order>, b: seq<Order>, productId: Option<string>, returnInactive: bool)
    ensures OrdersFor(a + b, productId, returnInactive) == OrdersFor(a, productId, returnInactive) + OrdersFor(b, productId, returnInactive)
    decreases |b|
  {
    if b == [] {
      assert a + b == a;
    } else {
      var init := b[..|b| - 1];
      OrdersForAppend(a, init, productId, returnInactive);
      assert (a + b)[..|a + b| - 1] == a + init;
      assert (a + b)[|a + b| - 1] == b[|b| - 1];
    }
  }

  /** With no product and inactive orders asked for, every order comes back. */
  lemma {:induction false} OrdersForAll(orders: seq<Order>)
    ensures OrdersFor(orders, None, true) == orders
    decreases |orders|
  {
    if orders != [] {
      OrdersForAll(orders[..|orders| - 1]);
      assert orders[..|orders| - 1] + [orders[|orders| - 1]] == orders;
    }
  }

  // ---------------------------------------------------------------- sorting

  /** getInAppPurchases' comparator: one-off items first, then by price.  Two
      references to the same item compare equal, as the key comparison does. */
  function Compare(lhs: InAppPurchase, rhs: InAppPurchase): (c: int)
    ensures c in {-1, 0, 1}
    ensures c < 0 <==> (lhs.ty == Once && rhs.ty == Subscription) || (lhs.ty == rhs.ty && lhs.priceMicros < rhs.priceMicros)
    ensures c == 0 <==> lhs.ty == rhs.ty && lhs.priceMicros == rhs.priceMicros
  {
    if lhs == rhs then 0
    else if lhs.ty == rhs.ty then
      if lhs.priceMicros == rhs.priceMicros then 0 else if lhs.priceMicros < rhs.priceMicros then -1 else 1
    else if lhs.ty == Once then assert rhs.ty == Subscription; -1
    else 1
  }

  /** The comparator obeys Comparator's contract: it is antisymmetric and
      transitive, and equal elements compare alike with everything. */
  lemma CompareContract(x: InAppPurchase, y: InAppPurchase, z: InAppPurchase)
    ensures Compare(x, y) == -Compare(y, x)
    ensures Compare(x, y) <= 0 && Compare(y, z) <= 0 ==> Compare(x, z) <= 0
    ensures Compare(x, y) == 0 ==> Compare(x, z) == Compare(y, z)
  {
  }

  predicate Sorted(s: seq<InAppPurchase>)
  {
    forall i, j :: 0 <= i < j < |s| ==> Compare(s[i], s[j]) <= 0
  }

  /** Arrays.sort, a stable sort, modelled as insertion: x goes before the first
      element it does not compare above. */
  function Insert(x: InAppPurchase, t: seq<InAppPurchase>): (r: seq<InAppPurchase>)
    ensures multiset(r) == multiset(t) + multiset{x}
    ensures |r| == |t| + 1
    decreases |t|
  {
    if t == [] || Compare(x, t[0]) <= 0 then [x] + t
    else
      var rest := Insert(x, t[1..]);
      assert t == [t[0]] + t[1..];
      [t[0]] + rest
  }

  function SortPurchases(s: seq<InAppPurchase>): (r: seq<InAppPurchase>)
    ensures multiset(r) == multiset(s)
    decreases |s|
  {
    if s == [] then []
    else
      var r := Insert(s[0], SortPurchases(s[1..]));
      assert s == [s[0]] + s[1..];
      r
  }

  lemma {:induction false} InsertSorted(x: InAppPurchase, t: seq<InAppPurchase>)
    requires Sorted(t)
    ensures Sorted(Insert(x, t))
    decreases |t|
  {
    if t == [] || Compare(x, t[0]) <= 0 {
      InsertFront(x, t);
    } else {
      assert Sorted(t[1..]);
      InsertSorted(x, t[1..]);
      InsertAfterHead(x, t);
    }
  }

  /** x placed before a sorted t it does not compare above. */
  lemma InsertFront(x: InAppPurchase, t: seq<InAppPurchase>)
    requires Sorted(t) && (t == [] || Compare(x, t[0]) <= 0)
    ensures Sorted([x] + t)
  {
    var r := [x] + t;
    forall i, j | 0 <= i < j < |r|
      ensures Compare(r[i], r[j]) <= 0
    {
      if i == 0 {
        CompareContract(x, t[0], t[j - 1]);
      }
    }
  }

  /** The head of t stays first when x goes further in. */
  lemma InsertAfterHead(x: InAppPurchase, t: seq<InAppPurchase>)
    requires Sorted(t) && t != [] && Compare(x, t[0]) > 0
    requires Sorted(Insert(x, t[1..]))
    ensures Sorted(Insert(x, t))
  {
    var rest := Insert(x, t[1..]);
    var r := [t[0]] + rest;
    assert Insert(x, t) == r;
    HeadBelowRest(x, t, rest);
    forall i, j | 0 <= i < j < |r|
      ensures Compare(r[i], r[j]) <= 0
    {
      if i > 0 {
        assert r[i] == rest[i - 1] && r[j] == rest[j - 1];
      }
    }
  }

  lemma HeadBelowRest(x: InAppPurchase, t: seq<InAppPurchase>, rest: seq<InAppPurchase>)
    requires Sorted(t) && t != [] && Compare(x, t[0]) > 0
    requires multiset(rest) == multiset(t[1..]) + multiset{x}
    ensures forall j :: 0 <= j < |rest| ==> Compare(t[0], rest[j]) <= 0
  {
    forall j | 0 <= j < |rest|
      ensures Compare(t[0], rest[j]) <= 0
    {
      assert rest[j] in multiset(rest);
      assert rest[j] == x || rest[j] in multiset(t[1..]);
      if rest[j] != x {
        var k :| 0 <= k < |t[1..]| && t[1..][k] == rest[j];
        assert t[k + 1] == rest[j];
      }
    }
  }

  /** getInAppPurchases returns the items sorted by the comparator. */
  lemma {:induction false} SortedPurchases(s: seq<InAppPurchase>)
    ensures Sorted(SortPurchases(s))
    decreases |s|
  {
    if s != [] {
      SortedPurchases(s[1..]);
      InsertSorted(s[0], SortPurchases(s[1..]));
    }
  }

  /** One-off items come before subscriptions, and each group is in ascending price. */
  lemma OnceFirstThenByPrice(s: seq<InAppPurchase>, i: nat, j: nat)
    requires i < j < |SortPurchases(s)|
    ensures var r := SortPurchases(s);
      (r[i].ty == Subscription ==> r[j].ty == Subscription)
      && (r[i].ty == r[j].ty ==> r[i].priceMicros <= r[j].priceMicros)
  {
    SortedPurchases(s);
  }

  /** The elements that compare equal to e, in order. */
  function EqualTo(s: seq<InAppPurchase>, e: InAppPurchase): seq<InAppPurchase>
    decreases |s|
  {
    if s == [] then [] else (if Compare(s[0], e) == 0 then [s[0]] else []) + EqualTo(s[1..], e)
  }

  lemma {:induction false} InsertStable(x: InAppPurchase, t: seq<InAppPurchase>, e: InAppPurchase)
    ensures EqualTo(Insert(x, t), e) == (if Compare(x, e) == 0 then [x] else []) + EqualTo(t, e)
    decreases |t|
  {
    if t == [] || Compare(x, t[0]) <= 0 {
      var r := [x] + t;
      assert r[0] == x && r[1..] == t;
    } else {
      var rest := Insert(x, t[1..]);
      InsertStable(x, t[1..], e);
      var r := [t[0]] + rest;
      assert r[0] == t[0] && r[1..] == rest;
      // x and t[0] compare unequal, so at most one of them equals e.
      CompareContract(x, e, t[0]);
      CompareContract(t[0], e, x);
    }
  }

  /** The sort is stable: items the comparator finds equal keep their stored order. */
  lemma {:induction false} SortStable(s: seq<InAppPurchase>, e: InAppPurchase)
    ensures EqualTo(SortPurchases(s), e) == EqualTo(s, e)
    decreases |s|
  {
    if s != [] {
      SortStable(s[1..], e);
      InsertStable(s[0], SortPurchases(s[1..]), e);
    }
  }

  // ---------------------------------------------------------------- consume

  /** What consumePurchase did: returned a code, threw RemoteException, or could
      not be called because the service is not bound (a NullPointerException
      consume does not catch). */
  datatype Call = Returned(code: int) | RemoteFailure | Unbound

  /** consume's outcome: a result, or the exception that escapes. */
  datatype Outcome = Done(ok: bool) | Thrown

  /** consume(productId): null is refused before the service is called; the
      request names "inapp:<package>:<product>". */
  function ConsumeProduct(packageName: string, productId: Option<string>, call: Call): (r: (Outcome, Option<string>))
    ensures productId.None? ==> r == (Done(false), None)
    ensures productId.Some? ==> r.1 == Some("inapp:" + packageName + ":" + productId.value)
    ensures r.0 == Done(true) <==> productId.Some? && call == Returned(0)
    ensures r.0 == Thrown <==> productId.Some? && call == Unbound
  {
    if productId.None? then (Done(false), None)
    else
      var request := "inapp:" + packageName + ":" + productId.value;
      match call
      case Returned(code) => (Done(code == 0), Some(request))
      case RemoteFailure => (Done(false), Some(request))
      case Unbound => (Thrown, Some(request))
  }

  /** consume(order): null is refused; the request is the order's purchase token. */
  function ConsumeOrder(order: Option<Order>, call: Call): (r: (Outcome, Option<string>))
    ensures order.None? ==> r == (Done(false), None)
    ensures order.Some? ==> r.1 == Some(order.value.purchaseToken)
    ensures r.0 == Done(true) <==> order.Some? && call == Returned(0)
    ensures r.0 == Thrown <==> order.Some? && call == Unbound
  {
    if order.None? then (Done(false), None)
    else
      match call
      case Returned(code) => (Done(code == 0), Some(order.value.purchaseToken))
      case RemoteFailure => (Done(false), Some(order.value.purchaseToken))
      case Unbound => (Thrown, Some(order.value.purchaseToken))
  }

  // ---------------------------------------------------------------- the store

  class Purchases {
    var iaps: seq<InAppPurchase>
    var orders: seq<Order>

    constructor ()
      ensures iaps == [] && orders == []
    {
      iaps := [];
      orders := [];
    }

    /** update: fetch everything into local lists, and copy them into the fields
        only when nothing threw. */
    method Update(once: SkuAnswer, subs: SkuAnswer, inappPages: seq<Page>, subsPages: seq<Page>) returns (ok: bool)
      requires Ends(inappPages) && Ends(subsPages)
      modifies this
      ensures ok <==> UpdateOf(once, subs, inappPages, subsPages).Some?
      ensures ok ==> iaps == UpdateOf(once, subs, inappPages, subsPages).value.iaps
                     && orders == UpdateOf(once, subs, inappPages, subsPages).value.orders
      ensures !ok ==> iaps == old(iaps) && orders == old(orders)
    {
      ghost var u := UpdateOf(once, subs, inappPages, subsPages);
      var a := AddSku([], once);
      if a.None? {
        return false;
      }
      assert a.value == SkuItems(once).value;
      var b := AddSku(a.value, subs);
      if b.None? {
        return false;
      }
      var o1, sent1 := FetchOrders([], inappPages);
      if o1.None? {
        return false;
      }
      assert o1.value == Paginate(inappPages).value;
      var o2, sent2 := FetchOrders(o1.value, subsPages);
      if o2.None? {
        return false;
      }
      assert u == Some(Lists(b.value, o2.value));
      CopyItems(b.value);
      CopyOrders(o2.value);
      ok := true;
    }

    /** `this.iaps.clear()` and the copy loop. */
    method CopyItems(from: seq<InAppPurchase>)
      modifies this
      ensures iaps == from && orders == old(orders)
    {
      iaps := [];
      var i := 0;
      while i < |from|
        invariant 0 <= i <= |from| && iaps == from[..i] && orders == old(orders)
      {
        iaps := iaps + [from[i]];
        assert from[..i + 1] == from[..i] + [from[i]];
        i := i + 1;
      }
      assert from[..i] == from;
    }

    /** `this.orders.clear()` and the copy loop. */
    method CopyOrders(from: seq<Order>)
      modifies this
      ensures orders == from && iaps == old(iaps)
    {
      orders := [];
      var i := 0;
      while i < |from|
        invariant 0 <= i <= |from| && orders == from[..i] && iaps == old(iaps)
      {
        orders := orders + [from[i]];
        assert from[..i + 1] == from[..i] + [from[i]];
        i := i + 1;
      }
      assert from[..i] == from;
    }

    /** getInAppPurchase's loop. */
    method GetInAppPurchase(productId: Option<string>) returns (r: Option<InAppPurchase>)
      ensures r == FirstWithId(iaps, productId)
    {
      if productId.None? {
        return None;
      }
      var i := 0;
      while i < |iaps|
        invariant 0 <= i <= |iaps|
        invariant FirstWithId(iaps, productId) == FirstWithId(iaps[i..], productId)
      {
        if iaps[i].productId == productId.value {
          return Some(iaps[i]);
        }
        assert iaps[i..][1..] == iaps[i + 1..];
        i := i + 1;
      }
      r := None;
    }

    /** getInAppPurchases: the items, sorted. */
    method GetInAppPurchases() returns (r: seq<InAppPurchase>)
      ensures r == SortPurchases(iaps)
      ensures Sorted(r) && multiset(r) == multiset(iaps)
    {
      r := SortPurchases(iaps);
      SortedPurchases(iaps);
    }

    /** getOrders' loop. */
    method GetOrders(productId: Option<string>, returnInactive: bool) returns (r: seq<Order>)
      ensures r == OrdersFor(orders, productId, returnInactive)
    {
      r := [];
      var i := 0;
      while i < |orders|
        invariant 0 <= i <= |orders|
        invariant r == OrdersFor(orders[..i], productId, returnInactive)
      {
        var o := orders[i];
        assert orders[..i + 1][..i] == orders[..i];
        if (productId.None? || o.productId == productId.value) && (returnInactive || o.state == Purchased) {
          r := r + [o];
        }
        i := i + 1;
      }
      assert orders[..i] == orders;
    }
  }
}
