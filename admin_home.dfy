/** The admin dashboard: which view a section shows, and the three order
    counts. */
module AdminHome {
  import opened Models
  import opened OrdersRoute

  datatype View = OrdersView | ProductsView | CategoriesView | DashboardView

  const DASHBOARD: string := "Dashboard"

  /** `renderComponent`: the three named sections, the dashboard otherwise. */
  function Render(section: string): (r: View)
    ensures r == OrdersView <==> section == "Orders"
    ensures r == ProductsView <==> section == "Products"
    ensures r == CategoriesView <==> section == "Categories"
  {
    if section == "Orders" then OrdersView
    else if section == "Products" then ProductsView
    else if section == "Categories" then CategoriesView
    else DashboardView
  }

  /** The section every sub-view's back action sets. */
  function Back(): (section: string)
    ensures Render(section) == DashboardView
  {
    DASHBOARD
  }

  /** `filter(x => key(x) === k).length`. */
  function CountBy<T>(xs: seq<T>, key: T -> string, k: string): (n: nat)
    ensures n <= |xs|
  {
    if xs == [] then 0 else (if key(xs[0]) == k then 1 else 0) + CountBy(xs[1..], key, k)
  }

  /** The orders of the listing with that status. */
  function CountStatus(os: seq<ListedOrder>, status: string): (n: nat)
    ensures n <= |os|
  {
    CountBy(os, (o: ListedOrder) => o.status, status)
  }

  /** The stored orders with that status. */
  function CountStored(os: seq<Order>, status: string): (n: nat)
    ensures n <= |os|
  {
    CountBy(os, (o: Order) => o.status, status)
  }

  predicate AllInEnum(os: seq<Order>) {
    forall i :: 0 <= i < |os| ==> StatusInEnum(os[i].status)
  }

  lemma {:induction false} StoredCountsBound(os: seq<Order>)
    ensures CountStored(os, DELIVERED) + CountStored(os, PENDING) <= |os|
    ensures AllInEnum(os) ==> CountStored(os, DELIVERED) + CountStored(os, PENDING) == |os|
  {
    if os != [] {
      assert AllInEnum(os) ==> AllInEnum(os[1..]) by {
        if AllInEnum(os) {
          forall i | 0 <= i < |os[1..]| ensures StatusInEnum(os[1..][i].status) {
            assert os[1..][i] == os[i + 1];
          }
        }
      }
      StoredCountsBound(os[1..]);
    }
  }

  lemma {:induction false} CountInsert(o: Order, s: seq<Order>, status: string)
    ensures CountStored(Insert(o, s), status) == CountStored(s, status) + (if o.status == status then 1 else 0)
  {
    if s != [] && s[0].createdAt > o.createdAt {
      CountInsert(o, s[1..], status);
      assert Insert(o, s)[1..] == Insert(o, s[1..]);
    }
  }

  lemma {:induction false} CountSorted(os: seq<Order>, status: string)
    ensures CountStored(SortNewestFirst(os), status) == CountStored(os, status)
  {
    if os != [] {
      CountSorted(os[1..], status);
      CountInsert(os[0], SortNewestFirst(os[1..]), status);
    }
  }

  lemma {:induction false} CountPopulated(s: seq<Order>, ps: seq<Product>, status: string)
    ensures CountStatus(seq(|s|, i requires 0 <= i < |s| => PopulateOrder(s[i], ps)), status) == CountStored(s, status)
  {
    if s != [] {
      var l := seq(|s|, i requires 0 <= i < |s| => PopulateOrder(s[i], ps));
      assert l[1..] == seq(|s[1..]|, i requires 0 <= i < |s[1..]| => PopulateOrder(s[1..][i], ps));
      CountPopulated(s[1..], ps, status);
    }
  }

  /** The dashboard's counts over the all-orders list are the counts over the
      stored orders; delivered plus pending never exceeds the total the
      dashboard shows, and equals it while every status is in the enum (an
      update may store any other status). */
  lemma DashboardCounts(stored: seq<Order>, ps: seq<Product>)
    ensures var listed := ListOrders(stored, ps);
            CountStatus(listed, DELIVERED) == CountStored(stored, DELIVERED) &&
            CountStatus(listed, PENDING) == CountStored(stored, PENDING) &&
            CountStatus(listed, DELIVERED) + CountStatus(listed, PENDING) <= |stored| &&
            (AllInEnum(stored) ==> CountStatus(listed, DELIVERED) + CountStatus(listed, PENDING) == |stored|)
  {
    var s := SortNewestFirst(stored);
    assert |s| == |multiset(s)| == |stored|;
    assert ListOrders(stored, ps) == seq(|s|, i requires 0 <= i < |s| => PopulateOrder(s[i], ps));
    CountPopulated(s, ps, DELIVERED);
    CountPopulated(s, ps, PENDING);
    CountSorted(stored, DELIVERED);
    CountSorted(stored, PENDING);
    StoredCountsBound(stored);
  }
}
