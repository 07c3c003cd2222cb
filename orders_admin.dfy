/** The admin order list: the status and id filters, the status toggle, the
    merge of an updated order into the list, and the product details shown
    for one order. */
module OrdersAdmin {
  import opened Js
  import opened Models
  import opened OrdersRoute

  const ALL: string := "All"

  // ---- the filter -----------------------------------------------------------------

  /** `filter(order => order.status === filter)`. */
  function ByStatus(os: seq<ListedOrder>, status: string): seq<ListedOrder> {
    if os == [] then []
    else (if os[0].status == status then [os[0]] else []) + ByStatus(os[1..], status)
  }

  /** The id search: the lower-cased id contains the lower-cased search text
      (untrimmed, although the trimmed text decides whether to search). */
  predicate IdMatches(o: ListedOrder, search: string) {
    Includes(ToLower(o.id), ToLower(search))
  }

  function BySearch(os: seq<ListedOrder>, search: string): seq<ListedOrder> {
    if os == [] then []
    else (if IdMatches(os[0], search) then [os[0]] else []) + BySearch(os[1..], search)
  }

  /** The filter effect: the status filter unless "All", then the search unless
      the search text is blank. */
  function FilterOrders(os: seq<ListedOrder>, filter: string, search: string): seq<ListedOrder> {
    var byStatus := if filter != ALL then ByStatus(os, filter) else os;
    if !IsBlank(search) then BySearch(byStatus, search) else byStatus
  }

  /** What the two stages keep, as one condition. */
  predicate Shown(o: ListedOrder, filter: string, search: string) {
    (filter == ALL || o.status == filter) && (IsBlank(search) || IdMatches(o, search))
  }

  /** The orders kept by a condition, in list order. */
  function Select(os: seq<ListedOrder>, filter: string, search: string): (r: seq<ListedOrder>)
    ensures forall o :: o in r <==> o in os && Shown(o, filter, search)
  {
    if os == [] then []
    else
      assert forall o :: o in os <==> o == os[0] || o in os[1..];
      (if Shown(os[0], filter, search) then [os[0]] else []) + Select(os[1..], filter, search)
  }

  /** `a` is `b` with some elements left out, the rest in their order. */
  predicate IsSubsequence(a: seq<ListedOrder>, b: seq<ListedOrder>)
    decreases |b|
  {
    if a == [] then true
    else if b == [] then false
    else (a[0] == b[0] && IsSubsequence(a[1..], b[1..])) || IsSubsequence(a, b[1..])
  }

  lemma {:induction false} SelectIsSubsequence(os: seq<ListedOrder>, filter: string, search: string)
    ensures IsSubsequence(Select(os, filter, search), os)
  {
    if os != [] {
      SelectIsSubsequence(os[1..], filter, search);
      var r := Select(os, filter, search);
      if Shown(os[0], filter, search) {
        assert r[0] == os[0] && r[1..] == Select(os[1..], filter, search);
      } else {
        assert r == Select(os[1..], filter, search);
      }
    }
  }

  lemma {:induction false} ByStatusSelects(os: seq<ListedOrder>, status: string, search: string)
    requires status != ALL
    ensures (if !IsBlank(search) then BySearch(ByStatus(os, status), search) else ByStatus(os, status)) ==
            Select(os, status, search)
  {
    if os != [] {
      ByStatusSelects(os[1..], status, search);
      if os[0].status == status {
        assert ByStatus(os, status) == [os[0]] + ByStatus(os[1..], status);
        if !IsBlank(search) {
          assert BySearch(ByStatus(os, status), search) ==
                 (if IdMatches(os[0], search) then [os[0]] else []) + BySearch(ByStatus(os[1..], status), search);
        }
      } else {
        assert ByStatus(os, status) == ByStatus(os[1..], status);
      }
    }
  }

  lemma {:induction false} BySearchSelects(os: seq<ListedOrder>, search: string)
    ensures (if !IsBlank(search) then BySearch(os, search) else os) == Select(os, ALL, search)
  {
    if os != [] {
      BySearchSelects(os[1..], search);
      if IsBlank(search) {
        assert Select(os, ALL, search) == [os[0]] + Select(os[1..], ALL, search);
      }
    }
  }

  /** The filtered list keeps exactly the orders with that status (any status
      for "All") whose id contains the search text (any id for a blank one),
      in the order of the list. */
  lemma FilterSpec(os: seq<ListedOrder>, filter: string, search: string)
    ensures FilterOrders(os, filter, search) == Select(os, filter, search)
    ensures IsSubsequence(FilterOrders(os, filter, search), os)
    ensures forall o :: o in FilterOrders(os, filter, search) <==> o in os && Shown(o, filter, search)
  {
    if filter != ALL {
      ByStatusSelects(os, filter, search);
    } else {
      BySearchSelects(os, search);
    }
    SelectIsSubsequence(os, filter, search);
  }

  /** "All" with a blank search shows every order. */
  lemma {:induction false} NoFilterShowsAll(os: seq<ListedOrder>, search: string)
    requires IsBlank(search)
    ensures FilterOrders(os, ALL, search) == os
  {
  }

  // ---- the status toggle ---------------------------------------------------------

  /** `toggleOrderStatus`: Pending becomes Delivered, anything else Pending. */
  function NextStatus(status: string): (r: string)
    ensures StatusInEnum(r)
    ensures status == PENDING <==> r == DELIVERED
  {
    if status == PENDING then DELIVERED else PENDING
  }

  lemma ToggleTwice(status: string)
    requires StatusInEnum(status)
    ensures NextStatus(NextStatus(status)) == status
  {
  }

  /** The merge of the server's answer: the order with that id takes the
      returned status, every other field and every other order stays. A null
      answer (no such order) fails before the merge and changes nothing. */
  function MergeUpdate(os: seq<ListedOrder>, updated: Option<Order>): (r: seq<ListedOrder>)
    ensures |r| == |os|
    ensures updated.None? ==> r == os
    ensures updated.Some? ==> forall i :: 0 <= i < |os| ==>
              r[i] == (if os[i].id == updated.value.id then os[i].(status := updated.value.status) else os[i])
  {
    if updated.None? then os
    else seq(|os|, i requires 0 <= i < |os| =>
           if os[i].id == updated.value.id then os[i].(status := updated.value.status) else os[i])
  }

  /** Toggling a stored order: the list entry with that id shows the new
      status, and nothing else in the list changes. */
  lemma ToggleReachesList(stored: seq<Order>, os: seq<ListedOrder>, i: nat)
    requires DistinctOrderIds(stored) && i < |os|
    requires FindOrder(stored, os[i].id).Some?
    ensures var after := SetStatus(stored, os[i].id, Some(NextStatus(os[i].status)));
            var r := MergeUpdate(os, FindOrder(after, os[i].id));
            |r| == |os| && r[i] == os[i].(status := NextStatus(os[i].status)) &&
            forall j :: 0 <= j < |os| && os[j].id != os[i].id ==> r[j] == os[j]
  {
    SetStatusSpec(stored, os[i].id, NextStatus(os[i].status));
  }

  // ---- product details of one order --------------------------------------------------

  /** A line with the product's details: `title || "Unknown Product"`,
      `price || 0`; the listed fields are kept. */
  datatype DetailLine = DetailLine(productId: string, quantity: int, productName: string, price: int)

  function DetailOf(l: ListedLine, ps: seq<Product>): (r: DetailLine)
    ensures r.productId == l.productId && r.quantity == l.quantity
    ensures FindProduct(ps, l.productId).Some? && FindProduct(ps, l.productId).value.title != "" ==>
              r.productName == FindProduct(ps, l.productId).value.title
    ensures FindProduct(ps, l.productId).Some? && FindProduct(ps, l.productId).value.title == "" ==>
              r.productName == UNKNOWN_PRODUCT
    ensures FindProduct(ps, l.productId).None? ==> r.productName == UNKNOWN_PRODUCT && r.price == 0
    ensures FindProduct(ps, l.productId).Some? ==> r.price == FindProduct(ps, l.productId).value.price
  {
    match FindProduct(ps, l.productId)
    case Some(p) => DetailLine(l.productId, l.quantity, if p.title != "" then p.title else UNKNOWN_PRODUCT, p.price)
    case None => DetailLine(l.productId, l.quantity, UNKNOWN_PRODUCT, 0)
  }

  /** `fetchOrderProducts`: one detail line per order line, in order; an order
      without lines sends an empty id list, which the products route rejects,
      so nothing is shown. */
  function OrderDetails(o: ListedOrder, ps: seq<Product>): (r: Option<seq<DetailLine>>)
    ensures r.None? <==> o.lines == []
    ensures r.Some? ==> (|r.value| == |o.lines| &&
                         forall i :: 0 <= i < |o.lines| ==> r.value[i] == DetailOf(o.lines[i], ps))
  {
    if o.lines == [] then None
    else Some(seq(|o.lines|, i requires 0 <= i < |o.lines| => DetailOf(o.lines[i], ps)))
  }
}
