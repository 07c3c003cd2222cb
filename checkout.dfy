/** The checkout page: the required fields, the shipping rule, the order that
    is sent, the totals shown, and the free-delivery notice of the cart page
    that announces the same rule. */
module Checkout {
  import opened Js
  import opened Table
  import opened Models
  import opened CartStore
  import opened CartPage

  // ---- form -------------------------------------------------------------------

  /** The six required fields are non-blank; additional information is
      optional. */
  predicate FormValid(c: Customer) {
    !IsBlank(c.firstName) && !IsBlank(c.lastName) && !IsBlank(c.city) &&
    !IsBlank(c.address) && !IsBlank(c.phone) && !IsBlank(c.email)
  }

  // ---- shipping -----------------------------------------------------------------

  /** Free delivery applies: a threshold is set and the total reaches it. */
  predicate FreeDelivery(s: Settings, total: int) {
    s.threshold.Some? && total >= s.threshold.value
  }

  /** `deliveryFee || 250`: a missing fee and a fee of 0 both charge 250. */
  function ChargedFee(s: Settings): (r: int)
    ensures r != 0
    ensures s.fee.Some? && s.fee.value != 0 ==> r == s.fee.value
    ensures s.fee.None? || s.fee == Some(0) ==> r == 250
  {
    match s.fee
    case Some(f) => if f != 0 then f else 250
    case None => 250
  }

  /** The shipping cost charged with an order. */
  function ShippingCost(s: Settings, total: int): (r: int)
    ensures r == 0 <==> FreeDelivery(s, total)
    ensures !FreeDelivery(s, total) ==> r == ChargedFee(s)
  {
    if FreeDelivery(s, total) then 0 else ChargedFee(s)
  }

  // ---- totals -------------------------------------------------------------------

  /** The pieces of the lines for product `id`. */
  function QuantityFor(id: string, es: Entries): int {
    if es == [] then 0
    else (if es[0].1.productId == id then es[0].1.quantity else 0) + QuantityFor(id, es[1..])
  }

  /** `total`: price times the summed quantity of its lines, per fetched product. */
  function CheckoutTotal(ps: seq<Product>, es: Entries): int {
    if ps == [] then 0 else ps[0].price * QuantityFor(ps[0].id, es) + CheckoutTotal(ps[1..], es)
  }

  lemma {:induction false} ProductTotalAgrees(p: Product, es: Entries)
    requires forall i :: 0 <= i < |es| ==> es[i].1.quantity > 0
    ensures p.price * QuantityFor(p.id, es) == ProductSubtotal(p, es)
  {
    if es != [] {
      assert forall i :: 0 <= i < |es[1..]| ==> es[1..][i] == es[i + 1];
      ProductTotalAgrees(p, es[1..]);
      var q := if es[0].1.productId == p.id then es[0].1.quantity else 0;
      assert p.price * (q + QuantityFor(p.id, es[1..])) == p.price * q + p.price * QuantityFor(p.id, es[1..]);
    }
  }

  /** While every line holds a positive quantity, the checkout total and the
      cart page's subtotal agree. */
  lemma {:induction false} CheckoutTotalIsSubtotal(ps: seq<Product>, es: Entries)
    requires forall i :: 0 <= i < |es| ==> es[i].1.quantity > 0
    ensures CheckoutTotal(ps, es) == Subtotal(ps, es)
  {
    if ps != [] {
      ProductTotalAgrees(ps[0], es);
      CheckoutTotalIsSubtotal(ps[1..], es);
    }
  }

  /** A line with a non-positive quantity lowers the checkout total but not
      the cart page's subtotal. */
  lemma TotalsDifferOnNonPositiveLine()
    ensures var p := Product("p", "c", "t", 100, [], "d", "x", [], 5);
            var es := [("p_no-size", CartItem("p", "", -1))];
            CheckoutTotal([p], es) == -100 && Subtotal([p], es) == 0
  {
  }

  // ---- the order sent ---------------------------------------------------------

  /** One order line per cart line, in line order: `{productId, quantity, size}`. */
  function OrderLines(es: Entries): (r: seq<OrderLine>)
    ensures |r| == |es|
    ensures forall i :: 0 <= i < |es| ==> r[i] == OrderLine(es[i].1.productId, es[i].1.quantity, es[i].1.size)
  {
    seq(|es|, i requires 0 <= i < |es| => OrderLine(es[i].1.productId, es[i].1.quantity, es[i].1.size))
  }

  function LinePieces(ls: seq<OrderLine>): int {
    if ls == [] then 0 else ls[0].quantity + LinePieces(ls[1..])
  }

  /** The order carries exactly the cart's pieces. */
  lemma {:induction false} OrderPiecesAreCartCount(es: Entries)
    ensures LinePieces(OrderLines(es)) == Total(es)
  {
    if es != [] {
      assert OrderLines(es)[1..] == OrderLines(es[1..]);
      OrderPiecesAreCartCount(es[1..]);
    }
  }

  /** The request body of `/api/orders/create`. */
  datatype OrderRequest = OrderRequest(customer: Customer, products: seq<OrderLine>, totalAmount: int)

  function Payload(c: Customer, es: Entries, ps: seq<Product>, s: Settings): (r: OrderRequest)
    ensures r.customer == c && r.products == OrderLines(es)
    ensures r.totalAmount == CheckoutTotal(ps, es) + ShippingCost(s, CheckoutTotal(ps, es))
  {
    var total := CheckoutTotal(ps, es);
    OrderRequest(c, OrderLines(es), total + ShippingCost(s, total))
  }

  /** The "Total Amount" the page shows. */
  function DisplayedTotal(ps: seq<Product>, es: Entries, s: Settings): int {
    var total := CheckoutTotal(ps, es);
    var shipping := if s.threshold.Some? && total >= s.threshold.value then 0 else ChargedFee(s);
    total + shipping
  }

  /** The amount charged is the amount shown. */
  lemma ChargedIsDisplayed(c: Customer, es: Entries, ps: seq<Product>, s: Settings)
    ensures Payload(c, es, ps, s).totalAmount == DisplayedTotal(ps, es, s)
  {
  }

  /** What submitting does: an invalid form only alerts; otherwise the order
      is sent, and the cart is reset only when the server accepts it. */
  datatype Submission = FormAlert | Rejected(request: OrderRequest) | Placed(request: OrderRequest)

  function Submit(c: Customer, es: Entries, ps: seq<Product>, s: Settings, accepted: bool): (r: Submission)
    ensures r == FormAlert <==> !FormValid(c)
    ensures r.Placed? <==> FormValid(c) && accepted
    ensures r != FormAlert ==> r.request == Payload(c, es, ps, s)
  {
    if !FormValid(c) then FormAlert
    else if accepted then Placed(Payload(c, es, ps, s))
    else Rejected(Payload(c, es, ps, s))
  }

  /** The cart after a submission. */
  function CartAfter(r: Submission, es: Entries): (after: Entries)
    ensures r.Placed? ==> after == []
    ensures !r.Placed? ==> after == es
  {
    if r.Placed? then [] else es
  }

  /** The cart is left non-empty exactly when it was non-empty and the order
      was not placed: an invalid form or a refused order keeps every line. */
  lemma SubmitThenCart(c: Customer, es: Entries, ps: seq<Product>, s: Settings, accepted: bool)
    ensures var after := CartAfter(Submit(c, es, ps, s, accepted), es);
            (after == [] <==> es == [] || (FormValid(c) && accepted)) &&
            (!FormValid(c) || !accepted ==> after == es)
  {
  }

  // ---- what the pages print about shipping -------------------------------------

  /** The shipping line of the order summary. */
  datatype ShippingLabel = FreeLabel | FeeLabel(rupees: int)

  /** As written: the fee printed is the stored fee, and 250 only when the
      fee is missing. */
  function ShippingLabelAsWritten(s: Settings, total: int): ShippingLabel {
    if FreeDelivery(s, total) then FreeLabel
    else match s.fee
      case Some(f) => FeeLabel(f)
      case None => FeeLabel(250)
  }

  /** A fee of 0 is printed as "Rs. 0" while 250 is charged. */
  lemma LabelAsWrittenMisstatesZeroFee()
    ensures var s := Settings(None, Some(0));
            ShippingLabelAsWritten(s, 1000) == FeeLabel(0) && ShippingCost(s, 1000) == 250
  {
  }

  /** Corrected: the label prints the fee that is charged. */
  function ShippingLabelFor(s: Settings, total: int): (r: ShippingLabel)
    ensures r == FreeLabel <==> ShippingCost(s, total) == 0
    ensures r.FeeLabel? ==> r.rupees == ShippingCost(s, total)
  {
    if FreeDelivery(s, total) then FreeLabel else FeeLabel(ChargedFee(s))
  }

  /** The as-written label is right for every fee other than 0. */
  lemma LabelAsWrittenRightForNonZeroFee(s: Settings, total: int)
    requires s.fee != Some(0)
    ensures ShippingLabelAsWritten(s, total) == ShippingLabelFor(s, total)
  {
  }

  /** The delivery notice of the cart page. */
  datatype DeliveryNotice = GotFreeDelivery | MoreForFree(remaining: int) | StandardCharge(shown: Option<int>)

  /** As written: without a threshold the stored fee is printed (nothing for a
      missing fee, 0 for a fee of 0). */
  function DeliveryNoticeAsWritten(s: Settings, subtotal: int): DeliveryNotice {
    match s.threshold
    case Some(t) => if subtotal >= t then GotFreeDelivery else MoreForFree(t - subtotal)
    case None => StandardCharge(s.fee)
  }

  /** A fee of 0 is announced as a charge of 0 while checkout charges 250. */
  lemma NoticeAsWrittenMisstatesZeroFee()
    ensures var s := Settings(None, Some(0));
            DeliveryNoticeAsWritten(s, 500) == StandardCharge(Some(0)) && ShippingCost(s, 500) == 250
  {
  }

  /** Corrected: the standard charge announced is the fee checkout charges. */
  function DeliveryNoticeFor(s: Settings, subtotal: int): (r: DeliveryNotice)
    ensures r == GotFreeDelivery <==> ShippingCost(s, subtotal) == 0
    ensures r.MoreForFree? ==> r.remaining > 0 && s.threshold == Some(subtotal + r.remaining)
    ensures r.StandardCharge? ==> s.threshold.None? && r.shown == Some(ShippingCost(s, subtotal))
  {
    match s.threshold
    case Some(t) => if subtotal >= t then GotFreeDelivery else MoreForFree(t - subtotal)
    case None => StandardCharge(Some(ChargedFee(s)))
  }

  /** Free delivery and the remaining amount are announced as written; only the
      standard charge differs, and only for a missing fee or a fee of 0. */
  lemma NoticeAsWrittenAgreesElsewhere(s: Settings, subtotal: int)
    requires s.threshold.Some? || (s.fee.Some? && s.fee.value != 0)
    ensures DeliveryNoticeAsWritten(s, subtotal) == DeliveryNoticeFor(s, subtotal)
  {
  }

  /** The cart page and checkout announce free delivery for the same totals,
      while every line holds a positive quantity. */
  lemma PagesAgreeOnFreeDelivery(ps: seq<Product>, es: Entries, s: Settings)
    requires forall i :: 0 <= i < |es| ==> es[i].1.quantity > 0
    ensures DeliveryNoticeFor(s, Subtotal(ps, es)) == GotFreeDelivery <==>
            ShippingLabelFor(s, CheckoutTotal(ps, es)) == FreeLabel
  {
    CheckoutTotalIsSubtotal(ps, es);
  }
}
