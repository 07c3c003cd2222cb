/** One line of the cart page: its plus, minus and delete buttons and the size
    label. The buttons only call into the cart store. */
module CartProductCard {
  import opened Js
  import opened Table
  import opened CartStore

  /** The call a button makes on the cart store. */
  datatype CartCall =
    | NoCall
    | AddCall(productId: string, amount: int, size: string, stock: Option<int>)
    | RemoveCall(productId: string, size: string)

  /** The effect of a call on the cart lines. */
  function Apply(es: Entries, call: CartCall): Entries {
    match call
    case NoCall => es
    case AddCall(p, a, s, st) => AddEntries(es, p, JNum(a), s, st)
    case RemoveCall(p, s) => RemoveEntries(es, p, s)
  }

  /** The plus button is disabled once the line holds the stock. */
  predicate PlusDisabled(count: int, stock: int) {
    count >= stock
  }

  /** `handleIncrease`: one more piece, only below the stock. */
  function Increase(id: string, count: int, size: string, stock: int): (r: CartCall)
    ensures r != NoCall <==> !PlusDisabled(count, stock)
    ensures r != NoCall ==> r == AddCall(id, 1, size, Some(stock))
  {
    if count < stock then AddCall(id, 1, size, Some(stock)) else NoCall
  }

  /** `handleDecrease`: one piece less, never stock-checked. */
  function Decrease(id: string, size: string, stock: int): (r: CartCall)
    ensures r.AddCall? && r.amount == -1
  {
    AddCall(id, -1, size, Some(stock))
  }

  /** The delete button. */
  function DeleteLine(id: string, size: string): (r: CartCall)
    ensures r.RemoveCall? && r.productId == id && r.size == size
  {
    RemoveCall(id, size)
  }

  /** The size label is shown for a real size only. */
  predicate ShowsSizeLabel(size: string) {
    size != "" && size != NO_SIZE
  }

  /** A line holds sizes "" and "no-size" under one key, and neither shows a
      label; every other size does. */
  lemma SizeLabelAgreesWithKey(id: string, size: string)
    ensures ShowsSizeLabel(size) <==> size != "" && ItemKey(id, size) != ItemKey(id, "")
  {
    if size != "" && size != NO_SIZE {
      assert ItemKey(id, size)[|id| + 1..] == size;
      assert ItemKey(id, "")[|id| + 1..] == NO_SIZE;
    }
  }

  /** Pressing minus on a line holding one piece removes the line. */
  lemma DecreaseAtOneRemoves(es: Entries, id: string, size: string, stock: int)
    requires DistinctKeys(es) && ValidProductId(id)
    requires Quantity(es, ItemKey(id, size)) == 1 && Find(es, ItemKey(id, size)).Some?
    ensures Find(Apply(es, Decrease(id, size, stock)), ItemKey(id, size)) == None
    ensures forall k :: k != ItemKey(id, size) ==> Find(Apply(es, Decrease(id, size, stock)), k) == Find(es, k)
  {
    var key := ItemKey(id, size);
    var r := Apply(es, Decrease(id, size, stock));
    assert r == AddEntries(es, id, JNum(-1), size, Some(stock));
    assert r == AddCount(es, id, -1, size, Some(stock));
    assert r == Delete(es, key) by {
      assert HasKey(es, key);
    }
    FindDelete(es, key, key);
    forall k | k != key ensures Find(r, k) == Find(es, k) {
      FindDelete(es, key, k);
    }
  }

  /** Pressing plus on the line showing the cart's own quantity never takes it
      above the stock shown on the card. */
  lemma IncreaseWithinStock(es: Entries, id: string, size: string, stock: int)
    requires ValidProductId(id)
    ensures var key := ItemKey(id, size);
            var r := Apply(es, Increase(id, Quantity(es, key), size, stock));
            Find(r, key).Some? && Find(r, key) != Find(es, key) ==> Quantity(r, key) <= stock
  {
    var key := ItemKey(id, size);
    if Quantity(es, key) < stock {
      AddRespectsStock(es, id, JNum(1), size, stock);
    }
  }

  /** The delete button removes exactly that line. */
  lemma DeleteRemovesLine(es: Entries, id: string, size: string, k: string)
    requires DistinctKeys(es) && ValidProductId(id)
    ensures Find(Apply(es, DeleteLine(id, size)), ItemKey(id, size)) == None
    ensures k != ItemKey(id, size) ==> Find(Apply(es, DeleteLine(id, size)), k) == Find(es, k)
  {
    RemoveSpec(es, id, size, k);
  }
}
