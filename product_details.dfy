/** The product page: the selected size, the quantity picker with its clamps,
    the image slider, and the guard in front of the add-to-cart call. */
module ProductDetails {
  import opened Js
  import opened Models
  import opened Table
  import opened CartStore

  /** The page state: chosen quantity, selected size ("" for none), slide. */
  datatype View = View(items: int, selectedSize: string, slide: int)

  const INITIAL_VIEW: View := View(1, "", 0)

  /** `getSelectedSizeStock`: the stock of the selected size, 0 when no size
      is selected or the product has no entry for it. */
  function SelectedSizeStock(p: Product, selected: string): (r: int)
    ensures (selected == "" || forall i :: 0 <= i < |p.sizes| ==> p.sizes[i].size != selected) ==> r == 0
    ensures r != 0 ==> exists i :: 0 <= i < |p.sizes| && p.sizes[i] == SizeStock(selected, r)
    ensures selected != "" && (exists i :: 0 <= i < |p.sizes| && p.sizes[i].size == selected) ==>
              exists i :: 0 <= i < |p.sizes| && p.sizes[i].size == selected && r == p.sizes[i].stock &&
                          forall j :: 0 <= j < i ==> p.sizes[j].size != selected
  {
    if selected == "" then 0
    else match FindSize(p.sizes, selected)
      case Some(s) => s.stock
      case None => 0
  }

  /** `getMaxQuantity`: a sized product allows the selected size's stock (0
      with no size selected), an unsized one its own stock. */
  function MaxQuantity(p: Product, selected: string): (r: int)
    ensures |p.sizes| > 0 ==> r == SelectedSizeStock(p, selected)
    ensures |p.sizes| == 0 ==> r == p.stock
    ensures |p.sizes| > 0 && selected == "" ==> r == 0
  {
    if |p.sizes| > 0 then (if selected != "" then SelectedSizeStock(p, selected) else 0)
    else p.stock
  }

  function Max(a: int, b: int): int { if a >= b then a else b }
  function Min(a: int, b: int): int { if a <= b then a else b }

  /** A size button only reacts when that size is in stock; choosing a size
      resets the quantity to 1. */
  function ClickSize(v: View, s: SizeStock): (r: View)
    ensures r.slide == v.slide
    ensures r != v ==> s.stock > 0 && r.selectedSize == s.size && r.items == 1
    ensures s.stock > 0 ==> r.selectedSize == s.size && r.items == 1
  {
    if s.stock > 0 then v.(selectedSize := s.size, items := 1) else v
  }

  /** A sized product whose size is not chosen yet. */
  predicate NeedsSize(p: Product, v: View) {
    |p.sizes| > 0 && v.selectedSize == ""
  }

  predicate MinusDisabled(p: Product, v: View) {
    v.items <= 1 || NeedsSize(p, v) || MaxQuantity(p, v.selectedSize) <= 0
  }

  predicate PlusDisabled(p: Product, v: View) {
    v.items >= MaxQuantity(p, v.selectedSize) || NeedsSize(p, v) || MaxQuantity(p, v.selectedSize) <= 0
  }

  /** The minus button: `max(1, q - 1)` when enabled. */
  function PressMinus(p: Product, v: View): View {
    if MinusDisabled(p, v) then v else v.(items := Max(1, v.items - 1))
  }

  /** The plus button: `min(max, q + 1)` when enabled. */
  function PressPlus(p: Product, v: View): View {
    if PlusDisabled(p, v) then v else v.(items := Min(MaxQuantity(p, v.selectedSize), v.items + 1))
  }

  /** The quantity stays in 1..max, or at 1 while nothing can be bought. */
  predicate QuantityInRange(p: Product, v: View) {
    1 <= v.items <= Max(1, MaxQuantity(p, v.selectedSize))
  }

  /** Every quantity control keeps the quantity in range, starting from the
      initial view. */
  lemma QuantityStaysInRange(p: Product, v: View, s: SizeStock)
    requires QuantityInRange(p, v)
    ensures QuantityInRange(p, INITIAL_VIEW)
    ensures QuantityInRange(p, PressMinus(p, v))
    ensures QuantityInRange(p, PressPlus(p, v))
    ensures QuantityInRange(p, ClickSize(v, s))
  {
  }

  /** The clamps themselves: with `max >= 1`, decrement and increment keep
      `1 <= q <= max`. */
  lemma ClampsKeepBounds(q: int, m: int)
    requires 1 <= q <= m
    ensures 1 <= Max(1, q - 1) <= m
    ensures 1 <= Min(m, q + 1) <= m
  {
  }

  /** What pressing "Add to Cart" does. */
  datatype AddClick =
    | SelectSizeAlert
    | OutOfStockAlert
    | AddToCart(productId: string, amount: int, size: string, stock: int)

  function ClickAddToCart(id: string, p: Product, v: View): (r: AddClick)
    ensures r.AddToCart? <==> !NeedsSize(p, v) && MaxQuantity(p, v.selectedSize) > 0
    ensures r.AddToCart? ==> r == AddToCart(id, v.items, v.selectedSize, MaxQuantity(p, v.selectedSize))
    ensures r == SelectSizeAlert <==> NeedsSize(p, v)
  {
    if NeedsSize(p, v) then SelectSizeAlert
    else if MaxQuantity(p, v.selectedSize) <= 0 then OutOfStockAlert
    else AddToCart(id, v.items, v.selectedSize, MaxQuantity(p, v.selectedSize))
  }

  /** An add from the product page never takes the cart line above the stock
      the page allows, and always adds at least one piece. */
  lemma PageAddWithinStock(id: string, p: Product, v: View, es: Entries)
    requires QuantityInRange(p, v)
    requires ClickAddToCart(id, p, v).AddToCart?
    ensures var m := MaxQuantity(p, v.selectedSize);
            var key := ItemKey(id, v.selectedSize);
            var r := AddEntries(es, id, JNum(v.items), v.selectedSize, Some(m));
            v.items >= 1 &&
            (Find(r, key).Some? && Find(r, key) != Find(es, key) ==> Quantity(r, key) <= m) &&
            (Quantity(es, key) + v.items > m && Quantity(es, key) + v.items > 0 ==> r == es)
  {
    AddRespectsStock(es, id, JNum(v.items), v.selectedSize, MaxQuantity(p, v.selectedSize));
  }

  /** JavaScript's `%` for a positive divisor (the sign follows the dividend). */
  function JsRem(a: int, n: int): int
    requires n > 0
  {
    if a >= 0 then a % n else -((-a) % n)
  }

  lemma ModSmall(a: int, n: int)
    requires 0 <= a < n
    ensures a % n == a
  {
  }

  lemma ModShift(a: int, n: int)
    requires 0 <= a < n
    ensures (a + n) % n == a
  {
  }

  /** The "next" arrow. */
  function NextSlide(i: int, n: int): int
    requires n > 0
  {
    JsRem(i + 1, n)
  }

  /** The "prev" arrow. */
  function PrevSlide(i: int, n: int): int
    requires n > 0
  {
    JsRem(i - 1 + n, n)
  }

  /** Both arrows keep the slide index in range, and each undoes the other. */
  lemma SlidesCycle(i: int, n: int)
    requires n > 0 && 0 <= i < n
    ensures 0 <= NextSlide(i, n) < n && 0 <= PrevSlide(i, n) < n
    ensures PrevSlide(NextSlide(i, n), n) == i
    ensures NextSlide(PrevSlide(i, n), n) == i
  {
    if i + 1 < n {
      ModSmall(i + 1, n);
      ModShift(i, n);
    } else {
      ModShift(0, n);
      ModSmall(n - 1, n);
    }
    if i > 0 {
      ModShift(i - 1, n);
      ModSmall(i, n);
    } else {
      ModSmall(n - 1, n);
      ModShift(0, n);
    }
  }
}
