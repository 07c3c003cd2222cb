/** The cart page: which product ids it fetches, the subtotal, the stock each
    line may reach, and when it shows the empty view. */
module CartPage {
  import opened Js
  import opened Table
  import opened Models
  import opened CartStore

  /** An id the page sends to the server: not blank and not "undefined". */
  predicate SentId(id: string) {
    !IsBlank(id) && id != "undefined"
  }

  /** The product ids of the lines, in line order, that pass `SentId`. */
  function LineProductIds(es: Entries): (r: seq<string>)
    ensures forall x :: x in r <==> exists i :: 0 <= i < |es| && es[i].1.productId == x && SentId(x)
  {
    if es == [] then []
    else
      var rest := LineProductIds(es[1..]);
      assert forall i :: 1 <= i < |es| ==> es[i] == es[1..][i - 1];
      assert forall i :: 0 <= i < |es[1..]| ==> es[1..][i] == es[i + 1];
      if SentId(es[0].1.productId) then [es[0].1.productId] + rest else rest
  }

  /** `[...new Set(xs)]`: the first occurrence of each value, in order. */
  function Dedup(xs: seq<string>): (r: seq<string>)
    ensures NoDuplicates(r)
    ensures forall x :: x in r <==> x in xs
    ensures forall i, j :: 0 <= i < j < |r| ==> FirstIndex(xs, r[i]) < FirstIndex(xs, r[j])
  {
    if xs == [] then []
    else
      var init := xs[..|xs| - 1];
      var d := Dedup(init);
      assert forall x :: x in xs <==> x in init || x == xs[|xs| - 1];
      FirstIndexOfInit(xs);
      if xs[|xs| - 1] in d then d else d + [xs[|xs| - 1]]
  }

  /** The position of the first occurrence of `x`. */
  function FirstIndex(xs: seq<string>, x: string): (k: nat)
    requires x in xs
    ensures k < |xs| && xs[k] == x
    ensures forall j :: 0 <= j < k ==> xs[j] != x
  {
    if xs[0] == x then 0
    else
      assert forall j :: 1 <= j < |xs| ==> xs[j] == xs[1..][j - 1];
      1 + FirstIndex(xs[1..], x)
  }

  /** Dropping the last element keeps the first positions of what remains,
      and a last element seen nowhere before sits at the end. */
  lemma FirstIndexOfInit(xs: seq<string>)
    requires xs != []
    ensures forall x :: x in xs[..|xs| - 1] ==> FirstIndex(xs, x) == FirstIndex(xs[..|xs| - 1], x) < |xs| - 1
    ensures xs[|xs| - 1] !in xs[..|xs| - 1] ==> FirstIndex(xs, xs[|xs| - 1]) == |xs| - 1
  {
    var init := xs[..|xs| - 1];
    forall x | x in init
      ensures FirstIndex(xs, x) == FirstIndex(init, x) < |xs| - 1
    {
      var a := FirstIndex(xs, x);
      var b := FirstIndex(init, x);
      assert xs[b] == init[b] == x;
      assert a <= b;
      assert init[a] == xs[a];
    }
  }

  /** The ids of the products the page fetches. */
  function CartProductIds(es: Entries): (r: seq<string>)
    ensures NoDuplicates(r)
    ensures forall x :: x in r <==> exists i :: 0 <= i < |es| && es[i].1.productId == x && SentId(x)
  {
    Dedup(LineProductIds(es))
  }

  /** The products request, or None when there is no id to send (the page then
      shows no products and makes no request). */
  function ProductsRequest(es: Entries): (r: Option<seq<string>>)
    ensures r.None? <==> forall i :: 0 <= i < |es| ==> !SentId(es[i].1.productId)
    ensures r.Some? ==> r.value == CartProductIds(es) && |r.value| > 0
  {
    var ids := CartProductIds(es);
    NoIdsSent(es);
    if |ids| == 0 then None else Some(ids)
  }

  lemma NoIdsSent(es: Entries)
    ensures |CartProductIds(es)| == 0 <==> forall i :: 0 <= i < |es| ==> !SentId(es[i].1.productId)
  {
    var ids := CartProductIds(es);
    if |ids| > 0 {
      assert ids[0] in ids;
    }
    forall i | 0 <= i < |es| && SentId(es[i].1.productId) ensures es[i].1.productId in ids {
    }
  }

  // ---- subtotal ---------------------------------------------------------------

  /** What one line adds to the subtotal: price times quantity, only for a
      positive quantity. */
  function LineValue(price: int, quantity: int): int {
    if quantity > 0 then price * quantity else 0
  }

  /** The inner reduce: one product's lines. */
  function ProductSubtotal(p: Product, es: Entries): int {
    if es == [] then 0
    else (if es[0].1.productId == p.id then LineValue(p.price, es[0].1.quantity) else 0) + ProductSubtotal(p, es[1..])
  }

  /** `total`: the outer reduce over the fetched products. */
  function Subtotal(ps: seq<Product>, es: Entries): int {
    if ps == [] then 0 else ProductSubtotal(ps[0], es) + Subtotal(ps[1..], es)
  }

  /** What a line adds, looked up from the line's side. */
  function ItemValue(ps: seq<Product>, it: CartItem): int {
    match FindProduct(ps, it.productId)
    case Some(p) => LineValue(p.price, it.quantity)
    case None => 0
  }

  /** The subtotal summed line by line instead of product by product. */
  function SubtotalByLine(ps: seq<Product>, es: Entries): int {
    if es == [] then 0 else ItemValue(ps, es[0].1) + SubtotalByLine(ps, es[1..])
  }

  /** What one line adds across all products. */
  function LineAcross(ps: seq<Product>, it: CartItem): int {
    if ps == [] then 0
    else (if it.productId == ps[0].id then LineValue(ps[0].price, it.quantity) else 0) + LineAcross(ps[1..], it)
  }

  lemma {:induction false} SubtotalFirstLine(ps: seq<Product>, es: Entries)
    requires es != []
    ensures Subtotal(ps, es) == LineAcross(ps, es[0].1) + Subtotal(ps, es[1..])
  {
    if ps != [] {
      SubtotalFirstLine(ps[1..], es);
    }
  }

  lemma {:induction false} LineAcrossIsItemValue(ps: seq<Product>, it: CartItem)
    requires DistinctIds(ps)
    ensures LineAcross(ps, it) == ItemValue(ps, it)
  {
    if ps != [] {
      assert DistinctIds(ps[1..]) by {
        forall i, j | 0 <= i < j < |ps[1..]| ensures ps[1..][i].id != ps[1..][j].id {
          assert ps[1..][i] == ps[i + 1] && ps[1..][j] == ps[j + 1];
        }
      }
      LineAcrossIsItemValue(ps[1..], it);
      if it.productId == ps[0].id {
        assert FindProduct(ps[1..], it.productId).None? by {
          forall i | 0 <= i < |ps[1..]| ensures ps[1..][i].id != it.productId {
            assert ps[1..][i] == ps[i + 1];
          }
        }
      }
    }
  }

  /** With distinct product ids, the product-by-product subtotal is the sum of
      every line's price times quantity, lines without a fetched product or
      with a non-positive quantity counting 0. */
  lemma {:induction false} SubtotalPerLine(ps: seq<Product>, es: Entries)
    requires DistinctIds(ps)
    ensures Subtotal(ps, es) == SubtotalByLine(ps, es)
  {
    if es == [] {
      assert Subtotal(ps, es) == 0 by { SubtotalOfNoLines(ps, es); }
    } else {
      SubtotalFirstLine(ps, es);
      LineAcrossIsItemValue(ps, es[0].1);
      SubtotalPerLine(ps, es[1..]);
    }
  }

  lemma {:induction false} SubtotalOfNoLines(ps: seq<Product>, es: Entries)
    requires es == []
    ensures Subtotal(ps, es) == 0
  {
    if ps != [] {
      SubtotalOfNoLines(ps[1..], es);
    }
  }

  /** Non-negative prices give a non-negative subtotal. */
  lemma {:induction false} SubtotalNonNegative(ps: seq<Product>, es: Entries)
    requires forall i :: 0 <= i < |ps| ==> ps[i].price >= 0
    ensures Subtotal(ps, es) >= 0
  {
    if ps != [] {
      ProductSubtotalNonNegative(ps[0], es);
      SubtotalNonNegative(ps[1..], es);
    }
  }

  lemma {:induction false} ProductSubtotalNonNegative(p: Product, es: Entries)
    requires p.price >= 0
    ensures ProductSubtotal(p, es) >= 0
  {
    if es != [] {
      ProductSubtotalNonNegative(p, es[1..]);
    }
  }

  // ---- line stock and the empty view ------------------------------------------

  /** `getStockForSize`: a sized product's stock for the line's size (0 when
      the product has no entry for it), an unsized product's own stock. */
  function StockForSize(p: Product, it: CartItem): (r: int)
    ensures |p.sizes| == 0 ==> r == p.stock
    ensures |p.sizes| > 0 && (forall i :: 0 <= i < |p.sizes| ==> p.sizes[i].size != it.size) ==> r == 0
    ensures |p.sizes| > 0 && r != 0 ==> exists i :: 0 <= i < |p.sizes| && p.sizes[i] == SizeStock(it.size, r)
    ensures (exists i :: 0 <= i < |p.sizes| && p.sizes[i].size == it.size) ==>
              exists i :: 0 <= i < |p.sizes| && p.sizes[i].size == it.size && r == p.sizes[i].stock &&
                          forall j :: 0 <= j < i ==> p.sizes[j].size != it.size
  {
    if |p.sizes| > 0 then
      match FindSize(p.sizes, it.size)
      case Some(s) => s.stock
      case None => 0
    else p.stock
  }

  /** The empty view is shown when the piece count is 0 (or falsy). */
  predicate ShowsEmptyView(count: int) {
    count == 0
  }

  lemma {:induction false} TotalPositive(es: Entries)
    requires forall i :: 0 <= i < |es| ==> es[i].1.quantity > 0
    ensures es != [] ==> Total(es) > 0
    ensures es == [] ==> Total(es) == 0
  {
    if es != [] {
      assert forall i :: 0 <= i < |es[1..]| ==> es[1..][i] == es[i + 1];
      TotalPositive(es[1..]);
    }
  }

  /** When every line holds at least one piece (as adds guarantee), the empty
      view is shown exactly for a cart without lines. */
  lemma EmptyViewIffNoLines(es: Entries)
    requires forall i :: 0 <= i < |es| ==> es[i].1.quantity > 0
    ensures ShowsEmptyView(Total(es)) <==> es == []
  {
    TotalPositive(es);
  }

  /** A restored line with quantity 0 keeps the cart non-empty while the page
      shows the empty view. */
  lemma EmptyViewWithLines()
    ensures var es := [("p_no-size", CartItem("p", "", 0))];
            es != [] && ShowsEmptyView(Total(es))
  {
  }
}
