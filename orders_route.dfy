/** The order routes: create stores the request as a new pending order (with
    no stock check and no change to any product), update-status replaces one
    order's status, and all-orders lists every order newest first with each
    line's product looked up. */
module OrdersRoute {
  import opened Js
  import opened Models

  predicate DistinctOrderIds(os: seq<Order>) {
    forall i, j :: 0 <= i < j < |os| ==> os[i].id != os[j].id
  }

  /** `findById`: the stored order with that id. */
  function FindOrder(os: seq<Order>, id: string): (r: Option<Order>)
    ensures r.None? <==> forall i :: 0 <= i < |os| ==> os[i].id != id
    ensures r.Some? ==> r.value.id == id && r.value in os
  {
    if os == [] then None
    else if os[0].id == id then Some(os[0])
    else FindOrder(os[1..], id)
  }

  /** `findByIdAndUpdate(id, {status})`: the order with that id gets the new
      status; a missing status (`undefined`) is dropped from the update, so
      nothing changes. The schema's enum is not enforced on updates. */
  function SetStatus(os: seq<Order>, id: string, status: Option<string>): (r: seq<Order>)
    ensures |r| == |os|
    ensures forall i :: 0 <= i < |os| && (os[i].id != id || status.None?) ==> r[i] == os[i]
    ensures forall i :: 0 <= i < |os| && os[i].id == id && status.Some? ==> r[i] == os[i].(status := status.value)
  {
    seq(|os|, i requires 0 <= i < |os| =>
      if os[i].id == id && status.Some? then os[i].(status := status.value) else os[i])
  }

  /** The update touches the identified order's status and nothing else, and
      that order then carries the new status. */
  lemma {:induction false} SetStatusSpec(os: seq<Order>, id: string, status: string)
    requires DistinctOrderIds(os)
    ensures var r := SetStatus(os, id, Some(status));
            DistinctOrderIds(r) &&
            (FindOrder(os, id).Some? ==> FindOrder(r, id) == Some(FindOrder(os, id).value.(status := status))) &&
            (FindOrder(os, id).None? ==> r == os)
  {
    var r := SetStatus(os, id, Some(status));
    if os != [] {
      var tail := SetStatus(os[1..], id, Some(status));
      assert r[1..] == tail;
      assert DistinctOrderIds(os[1..]) by {
        forall i, j | 0 <= i < j < |os[1..]| ensures os[1..][i].id != os[1..][j].id {
          assert os[1..][i] == os[i + 1] && os[1..][j] == os[j + 1];
        }
      }
      SetStatusSpec(os[1..], id, status);
      if os[0].id == id {
        assert FindOrder(os[1..], id).None? by {
          forall i | 0 <= i < |os[1..]| ensures os[1..][i].id != id {
            assert os[1..][i] == os[i + 1];
          }
        }
      }
    }
  }

  // ---- all-orders ---------------------------------------------------------------

  /** A listed line: `productId`, the product's title or "Unknown Product",
      `imageURL` (the product has no `img` field, so it is undefined for a
      known product and "default.jpg" for an unknown one) and `quantity`. The
      stored size is not listed. */
  datatype ListedLine = ListedLine(productId: string, productName: string, imageURL: Option<string>, quantity: int)

  /** A listed order: the stored fields with the lines replaced. */
  datatype ListedOrder = ListedOrder(
    id: string,
    customer: Customer,
    lines: seq<ListedLine>,
    totalAmount: int,
    status: string,
    createdAt: int)

  const UNKNOWN_PRODUCT: string := "Unknown Product"

  function PopulateLine(l: OrderLine, ps: seq<Product>): (r: ListedLine)
    ensures r.productId == l.productId && r.quantity == l.quantity
    ensures FindProduct(ps, l.productId).Some? ==>
              r.productName == FindProduct(ps, l.productId).value.title && r.imageURL.None?
    ensures FindProduct(ps, l.productId).None? ==>
              r.productName == UNKNOWN_PRODUCT && r.imageURL == Some("default.jpg")
  {
    match FindProduct(ps, l.productId)
    case Some(p) => ListedLine(l.productId, p.title, None, l.quantity)
    case None => ListedLine(l.productId, UNKNOWN_PRODUCT, Some("default.jpg"), l.quantity)
  }

  /** `{...order._doc, products: populatedProducts}`. */
  function PopulateOrder(o: Order, ps: seq<Product>): (r: ListedOrder)
    ensures r.id == o.id && r.customer == o.customer && r.totalAmount == o.totalAmount
    ensures r.status == o.status && r.createdAt == o.createdAt
    ensures |r.lines| == |o.products| &&
            forall i :: 0 <= i < |o.products| ==> r.lines[i] == PopulateLine(o.products[i], ps)
  {
    ListedOrder(o.id, o.customer,
      seq(|o.products|, i requires 0 <= i < |o.products| => PopulateLine(o.products[i], ps)),
      o.totalAmount, o.status, o.createdAt)
  }

  predicate NewestFirst(os: seq<Order>) {
    forall i, j :: 0 <= i < j < |os| ==> os[i].createdAt >= os[j].createdAt
  }

  /** Places `o` before the first order that is not newer than it. */
  function Insert(o: Order, s: seq<Order>): (r: seq<Order>)
    ensures multiset(r) == multiset(s) + multiset{o}
    ensures |r| == |s| + 1
  {
    if s == [] || s[0].createdAt <= o.createdAt then [o] + s
    else
      assert s == [s[0]] + s[1..];
      [s[0]] + Insert(o, s[1..])
  }

  lemma {:induction false} InsertNewestFirst(o: Order, s: seq<Order>)
    requires NewestFirst(s)
    ensures NewestFirst(Insert(o, s))
  {
    if s != [] && s[0].createdAt > o.createdAt {
      NewestFirstTail(s);
      InsertNewestFirst(o, s[1..]);
      var t := Insert(o, s[1..]);
      forall y | y in t ensures y.createdAt <= s[0].createdAt {
        assert y in multiset(t);
      }
      NewestFirstCons(s[0], t);
    } else {
      NewestFirstCons(o, s);
    }
  }

  lemma NewestFirstTail(s: seq<Order>)
    requires NewestFirst(s) && s != []
    ensures NewestFirst(s[1..])
    ensures forall y :: y in s[1..] ==> y.createdAt <= s[0].createdAt
  {
    forall i, j | 0 <= i < j < |s[1..]| ensures s[1..][i].createdAt >= s[1..][j].createdAt {
      assert s[1..][i] == s[i + 1] && s[1..][j] == s[j + 1];
    }
    forall y | y in s[1..] ensures y.createdAt <= s[0].createdAt {
      var k :| 0 <= k < |s[1..]| && s[1..][k] == y;
      assert s[1..][k] == s[k + 1];
    }
  }

  lemma NewestFirstCons(x: Order, t: seq<Order>)
    requires NewestFirst(t)
    requires forall y :: y in t ==> y.createdAt <= x.createdAt
    ensures NewestFirst([x] + t)
  {
    var r := [x] + t;
    forall i, j | 0 <= i < j < |r| ensures r[i].createdAt >= r[j].createdAt {
      assert r[j] == t[j - 1] && r[j] in t;
      if i > 0 {
        assert r[i] == t[i - 1];
      }
    }
  }

  /** `sort({createdAt: -1})`. */
  function SortNewestFirst(os: seq<Order>): (r: seq<Order>)
    ensures multiset(r) == multiset(os)
  {
    if os == [] then []
    else
      assert os == [os[0]] + os[1..];
      Insert(os[0], SortNewestFirst(os[1..]))
  }

  lemma {:induction false} SortedNewestFirst(os: seq<Order>)
    ensures NewestFirst(SortNewestFirst(os))
  {
    if os != [] {
      SortedNewestFirst(os[1..]);
      InsertNewestFirst(os[0], SortNewestFirst(os[1..]));
    }
  }

  /** The all-orders response. */
  function ListOrders(os: seq<Order>, ps: seq<Product>): (r: seq<ListedOrder>)
    ensures |r| == |os|
  {
    var s := SortNewestFirst(os);
    assert |s| == |multiset(s)| == |os|;
    seq(|s|, i requires 0 <= i < |s| => PopulateOrder(s[i], ps))
  }

  /** One listed entry per stored order, each the populated form of a stored
      order, newest first. */
  lemma ListOrdersSpec(os: seq<Order>, ps: seq<Product>)
    ensures var r := ListOrders(os, ps);
            var s := SortNewestFirst(os);
            multiset(s) == multiset(os) &&
            (forall i :: 0 <= i < |r| ==> r[i] == PopulateOrder(s[i], ps)) &&
            (forall i, j :: 0 <= i < j < |r| ==> r[i].createdAt >= r[j].createdAt)
  {
    SortedNewestFirst(os);
  }

  // ---- the collection --------------------------------------------------------------

  class OrderStore {
    var orders: seq<Order>

    ghost predicate Valid()
      reads this
    {
      DistinctOrderIds(orders)
    }

    constructor ()
      ensures Valid() && orders == []
    {
      orders := [];
    }

    /** `/create`: the body's fields as given, status Pending, the fresh id and
        the clock's time. Nothing but the order collection changes. */
    method Create(id: string, customer: Customer, products: seq<OrderLine>, totalAmount: int, now: int)
      returns (o: Order)
      requires Valid() && forall i :: 0 <= i < |orders| ==> orders[i].id != id
      modifies this
      ensures Valid()
      ensures o == Order(id, customer, products, totalAmount, PENDING, now)
      ensures orders == old(orders) + [o]
    {
      o := Order(id, customer, products, totalAmount, PENDING, now);
      orders := orders + [o];
    }

    /** `/update-status/:id`: the updated order, or None (a `null` body) when
        no order has that id. */
    method UpdateStatus(id: string, status: Option<string>) returns (r: Option<Order>)
      requires Valid()
      modifies this
      ensures Valid() && orders == SetStatus(old(orders), id, status)
      ensures r == FindOrder(orders, id)
    {
      if status.Some? {
        SetStatusSpec(orders, id, status.value);
      } else {
        assert SetStatus(orders, id, status) == orders;
      }
      orders := SetStatus(orders, id, status);
      r := FindOrder(orders, id);
    }
  }
}
