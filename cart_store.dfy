/** The shopping cart the storefront keeps in the browser: a table of line items
    keyed by `<productId>_<size or "no-size">` together with a running piece
    count, restored from local storage (in the current or in the legacy,
    per-product format), changed by adding, removing and resetting, and written
    back after every change. */
module CartStore {
  import opened Js
  import opened Table

  /** One line of the cart. */
  datatype CartItem = CartItem(productId: string, size: string, quantity: int)

  /** `cart.items` in key order. */
  type Entries = seq<(string, CartItem)>

  const NO_SIZE: string := "no-size"

  /** The key of the line for a product in a size; an empty size is "no-size". */
  function ItemKey(productId: string, size: string): string {
    productId + "_" + (if size == "" then NO_SIZE else size)
  }

  /** The product id check of `addItemToCart` and `removeItemFromCart`. */
  predicate ValidProductId(productId: string) {
    productId != "" && productId != "undefined" && productId != "items"
  }

  /** The stricter check a stored line must pass when the cart is restored. */
  predicate StoredIdOk(productId: string) {
    !IsBlank(productId) && productId != "undefined" && productId != "items"
  }

  /** Every line sits under the key of its own product and size. */
  predicate Coherent(es: Entries) {
    forall i :: 0 <= i < |es| ==> es[i].0 == ItemKey(es[i].1.productId, es[i].1.size)
  }

  /** The quantity stored under `key`, 0 when there is no such line. */
  function Quantity(es: Entries, key: string): int {
    match Find(es, key)
    case Some(it) => it.quantity
    case None => 0
  }

  /** The sum of the quantities of all lines. */
  function Total(es: Entries): int {
    if es == [] then 0 else es[0].1.quantity + Total(es[1..])
  }

  lemma {:induction false} TotalSnoc(es: Entries, e: (string, CartItem))
    ensures Total(es + [e]) == Total(es) + e.1.quantity
  {
    if es != [] {
      assert (es + [e])[1..] == es[1..] + [e];
      TotalSnoc(es[1..], e);
    }
  }

  /** Writing a line changes the total by the change of that line's quantity. */
  lemma {:induction false} TotalPut(es: Entries, key: string, v: CartItem)
    requires DistinctKeys(es)
    ensures Total(Put(es, key, v)) == Total(es) - Quantity(es, key) + v.quantity
  {
    if es != [] && es[0].0 != key {
      DistinctTail(es);
      TotalPut(es[1..], key, v);
      assert Put(es, key, v)[1..] == Put(es[1..], key, v);
    } else if es != [] {
      assert Put(es, key, v)[1..] == es[1..];
    }
  }

  /** Deleting a line takes its quantity off the total. */
  lemma {:induction false} TotalDelete(es: Entries, key: string)
    requires DistinctKeys(es)
    ensures Total(Delete(es, key)) == Total(es) - Quantity(es, key)
  {
    if es != [] {
      DistinctTail(es);
      if es[0].0 == key {
        assert !HasKey(es[1..], key) by {
          forall i | 0 <= i < |es[1..]| ensures es[1..][i].0 != key {
            assert es[1..][i] == es[i + 1];
          }
        }
        DeleteAbsent(es[1..], key);
      } else {
        TotalDelete(es[1..], key);
        assert Delete(es, key)[1..] == Delete(es[1..], key);
      }
    }
  }

  // ---- restoring from local storage ----------------------------------------

  /** The legacy format `{<productId>: <quantity>, ..., count: <n>}`. */
  predicate IsLegacy(saved: Json) {
    saved.JObj? &&
    match Prop(saved, "count")
    case Some(JNum(n)) => n != 0 && !TruthyOpt(Prop(saved, "items"))
    case _ => false
  }

  /** The current format stores its lines under an object (or array) `items`. */
  predicate HasItemsObject(saved: Json) {
    match Prop(saved, "items")
    case Some(JObj(_)) => true
    case Some(JArr(_)) => true
    case _ => false
  }

  /** A legacy key names a product: not "count", not "undefined", not blank. */
  predicate IsLegacyKey(k: string) {
    k != "count" && k != "undefined" && !IsBlank(k)
  }

  /** The line one legacy member is converted into, if any. */
  function LegacyStep(m: Member): Entries {
    if IsLegacyKey(m.key) && m.value.JNum? then [(ItemKey(m.key, ""), CartItem(m.key, "", m.value.n))] else []
  }

  /** The lines the legacy members convert into, in member order. */
  function LegacyEntries(ms: seq<Member>): Entries {
    if ms == [] then [] else LegacyEntries(ms[..|ms| - 1]) + LegacyStep(ms[|ms| - 1])
  }

  /** The size a stored line keeps: its size string, "" when that is falsy. */
  function StoredSize(v: Option<Json>): string {
    match v
    case Some(JStr(s)) => s
    case _ => ""
  }

  /** `parseInt(item.quantity) || 0`. */
  function StoredQuantity(v: Option<Json>): int {
    match ParseInt(v)
    case Some(n) => n
    case None => 0
  }

  /** The cleaned copy of one stored line, None when it is dropped. */
  function CleanItem(item: Json): Option<CartItem> {
    match Prop(item, "productId")
    case Some(JStr(p)) =>
      if StoredIdOk(p) then Some(CartItem(p, StoredSize(Prop(item, "size")), StoredQuantity(Prop(item, "quantity"))))
      else None
    case _ => None
  }

  function CleanStep(m: Member): Entries {
    match CleanItem(m.value)
    case Some(it) => [(m.key, it)]
    case None => []
  }

  /** The lines that survive cleaning, under their stored keys, in key order. */
  function CleanEntries(ms: seq<Member>): Entries {
    if ms == [] then [] else CleanEntries(ms[..|ms| - 1]) + CleanStep(ms[|ms| - 1])
  }

  /** The cart restored from what local storage holds (None: nothing, or text
      that does not parse). */
  function LoadEntries(stored: Option<Json>): Entries {
    match stored
    case None => []
    case Some(saved) =>
      if IsLegacy(saved) then LegacyEntries(saved.members)
      else if HasItemsObject(saved) then CleanEntries(OwnEntries(Prop(saved, "items").value))
      else []
  }

  lemma {:induction false} LegacyOrigin(ms: seq<Member>)
    ensures forall i :: 0 <= i < |LegacyEntries(ms)| ==>
              exists j :: 0 <= j < |ms| && LegacyStep(ms[j]) == [LegacyEntries(ms)[i]]
  {
    if ms != [] {
      var p := ms[..|ms| - 1];
      LegacyOrigin(p);
      var r := LegacyEntries(ms);
      assert r == LegacyEntries(p) + LegacyStep(ms[|ms| - 1]);
      forall i | 0 <= i < |r| ensures exists j :: 0 <= j < |ms| && LegacyStep(ms[j]) == [r[i]] {
        if i < |LegacyEntries(p)| {
          var j :| 0 <= j < |p| && LegacyStep(p[j]) == [LegacyEntries(p)[i]];
          assert ms[j] == p[j] && r[i] == LegacyEntries(p)[i];
          assert LegacyStep(ms[j]) == [r[i]];
        } else {
          var j := |ms| - 1;
          assert LegacyStep(ms[j]) == [r[i]];
        }
      }
    } else {
      assert LegacyEntries(ms) == [];
    }
  }

  lemma {:induction false} CleanOrigin(ms: seq<Member>)
    ensures forall i :: 0 <= i < |CleanEntries(ms)| ==>
              exists j :: 0 <= j < |ms| && CleanStep(ms[j]) == [CleanEntries(ms)[i]]
  {
    if ms != [] {
      var p := ms[..|ms| - 1];
      CleanOrigin(p);
      var r := CleanEntries(ms);
      assert r == CleanEntries(p) + CleanStep(ms[|ms| - 1]);
      forall i | 0 <= i < |r| ensures exists j :: 0 <= j < |ms| && CleanStep(ms[j]) == [r[i]] {
        if i < |CleanEntries(p)| {
          var j :| 0 <= j < |p| && CleanStep(p[j]) == [CleanEntries(p)[i]];
          assert ms[j] == p[j] && r[i] == CleanEntries(p)[i];
          assert CleanStep(ms[j]) == [r[i]];
        } else {
          var j := |ms| - 1;
          assert CleanStep(ms[j]) == [r[i]];
        }
      }
    } else {
      assert CleanEntries(ms) == [];
    }
  }

  /** Distinct product ids give distinct "no-size" keys. */
  lemma NoSizeKeyInjective(a: string, b: string)
    requires ItemKey(a, "") == ItemKey(b, "")
    ensures a == b
  {
    assert |a| == |b|;
    assert a == ItemKey(a, "")[..|a|];
  }

  lemma {:induction false} LegacyDistinct(ms: seq<Member>)
    requires DistinctMembers(ms)
    ensures DistinctKeys(LegacyEntries(ms))
  {
    if ms != [] {
      var p := ms[..|ms| - 1];
      var m := ms[|ms| - 1];
      LegacyDistinct(p);
      LegacyOrigin(p);
      var lp := LegacyEntries(p);
      if LegacyStep(m) != [] {
        forall i | 0 <= i < |lp| ensures lp[i].0 != ItemKey(m.key, "") {
          var j :| 0 <= j < |p| && LegacyStep(p[j]) == [lp[i]];
          assert p[j] == ms[j];
          if lp[i].0 == ItemKey(m.key, "") {
            NoSizeKeyInjective(p[j].key, m.key);
          }
        }
      }
    }
  }

  lemma {:induction false} CleanDistinct(ms: seq<Member>)
    requires DistinctMembers(ms)
    ensures DistinctKeys(CleanEntries(ms))
  {
    if ms != [] {
      var p := ms[..|ms| - 1];
      var m := ms[|ms| - 1];
      CleanDistinct(p);
      CleanOrigin(p);
      var cp := CleanEntries(p);
      forall i | 0 <= i < |cp| ensures cp[i].0 != m.key {
        var j :| 0 <= j < |p| && CleanStep(p[j]) == [cp[i]];
        assert p[j] == ms[j];
      }
    }
  }

  lemma WellFormedGet(ms: seq<Member>, key: string)
    requires forall i :: 0 <= i < |ms| ==> WellFormed(ms[i].value)
    requires Get(ms, key).Some?
    ensures WellFormed(Get(ms, key).value)
  {
    var i :| 0 <= i < |ms| && ms[i] == Member(key, Get(ms, key).value);
  }

  /** A restored cart never has two lines under one key. */
  lemma LoadDistinct(stored: Option<Json>)
    requires stored.Some? ==> WellFormed(stored.value)
    ensures DistinctKeys(LoadEntries(stored))
  {
    if stored.Some? {
      var saved := stored.value;
      if IsLegacy(saved) {
        LegacyDistinct(saved.members);
      } else if HasItemsObject(saved) {
        WellFormedGet(saved.members, "items");
        OwnEntriesDistinct(Prop(saved, "items").value);
        CleanDistinct(OwnEntries(Prop(saved, "items").value));
      }
    }
  }

  /** Every restored line passes the stored-line check: a cleaned line by its
      own test, a migrated line because a legacy key is neither blank nor
      "undefined" (a legacy key "items" survives migration). */
  lemma {:induction false} LoadedIdsOk(ms: seq<Member>)
    ensures forall i :: 0 <= i < |CleanEntries(ms)| ==> StoredIdOk(CleanEntries(ms)[i].1.productId)
    ensures forall i :: 0 <= i < |LegacyEntries(ms)| ==>
              var it := LegacyEntries(ms)[i].1; !IsBlank(it.productId) && it.productId != "undefined" && it.size == ""
  {
    LegacyOrigin(ms);
    CleanOrigin(ms);
    var c := CleanEntries(ms);
    forall i | 0 <= i < |c| ensures StoredIdOk(c[i].1.productId) {
      var j :| 0 <= j < |ms| && CleanStep(ms[j]) == [c[i]];
      assert CleanItem(ms[j].value) == Some(c[i].1);
    }
    var l := LegacyEntries(ms);
    forall i | 0 <= i < |l| ensures !IsBlank(l[i].1.productId) && l[i].1.productId != "undefined" && l[i].1.size == "" {
      var j :| 0 <= j < |ms| && LegacyStep(ms[j]) == [l[i]];
    }
  }

  /** Each legacy product with a numeric quantity is migrated to the line the
      "no-size" add would update, with its quantity kept. */
  lemma {:induction false} LegacyMigrated(ms: seq<Member>, i: nat)
    requires DistinctMembers(ms) && i < |ms|
    requires IsLegacyKey(ms[i].key) && ms[i].value.JNum?
    ensures Find(LegacyEntries(ms), ItemKey(ms[i].key, "")) == Some(CartItem(ms[i].key, "", ms[i].value.n))
  {
    var p := ms[..|ms| - 1];
    var m := ms[|ms| - 1];
    var key := ItemKey(ms[i].key, "");
    LegacyDistinct(ms);
    if i == |ms| - 1 {
      var r := LegacyEntries(ms);
      assert r[|r| - 1] == (key, CartItem(ms[i].key, "", ms[i].value.n));
      FindElement(r, |r| - 1);
    } else {
      assert p[i] == ms[i];
      LegacyMigrated(p, i);
      if LegacyStep(m) != [] {
        assert ItemKey(m.key, "") != key by {
          if ItemKey(m.key, "") == key { NoSizeKeyInjective(m.key, ms[i].key); }
        }
        assert HasKey(LegacyEntries(p), key);
        assert LegacyEntries(ms) == LegacyEntries(p) + [(ItemKey(m.key, ""), LegacyStep(m)[0].1)];
        FindPut(LegacyEntries(p), ItemKey(m.key, ""), LegacyStep(m)[0].1, key);
        LegacyDistinct(p);
        assert !HasKey(LegacyEntries(p), ItemKey(m.key, "")) by {
          var r := LegacyEntries(ms);
          forall j | 0 <= j < |LegacyEntries(p)| ensures LegacyEntries(p)[j].0 != ItemKey(m.key, "") {
            assert r[j] == LegacyEntries(p)[j] && r[|r| - 1].0 == ItemKey(m.key, "");
          }
        }
      } else {
        assert LegacyEntries(ms) == LegacyEntries(p);
      }
    }
  }

  /** A stored value that is neither format restores to an empty cart. */
  lemma UnrecognisedIsEmpty(saved: Json)
    requires !IsLegacy(saved) && !HasItemsObject(saved)
    ensures LoadEntries(Some(saved)) == []
  {
  }

  // ---- writing back to local storage ----------------------------------------

  /** `JSON.stringify` of a line: `{productId, size, quantity}`. */
  function ItemJson(it: CartItem): Json {
    JObj([Member("productId", JStr(it.productId)), Member("size", JStr(it.size)), Member("quantity", JNum(it.quantity))])
  }

  function ItemMembers(es: Entries): (r: seq<Member>)
    ensures |r| == |es| && forall i :: 0 <= i < |es| ==> r[i] == Member(es[i].0, ItemJson(es[i].1))
  {
    seq(|es|, i requires 0 <= i < |es| => Member(es[i].0, ItemJson(es[i].1)))
  }

  /** What is written to local storage: `{items: {...}, count: n}`. */
  function Persisted(es: Entries, count: int): Json {
    JObj([Member("items", JObj(ItemMembers(es))), Member("count", JNum(count))])
  }

  lemma CleanItemJson(it: CartItem)
    requires StoredIdOk(it.productId)
    ensures CleanItem(ItemJson(it)) == Some(it)
  {
    var ms := ItemJson(it).members;
    assert Get(ms, "productId") == Some(JStr(it.productId));
    assert Get(ms, "size") == Some(JStr(it.size)) by {
      assert ms[1..][0].key == "size";
    }
    assert Get(ms, "quantity") == Some(JNum(it.quantity)) by {
      assert ms[1..][1..][0].key == "quantity";
      assert ms[0].key != "quantity" && ms[1].key != "quantity";
    }
  }

  lemma {:induction false} CleanItemMembers(es: Entries)
    requires forall i :: 0 <= i < |es| ==> StoredIdOk(es[i].1.productId)
    ensures CleanEntries(ItemMembers(es)) == es
  {
    var ms := ItemMembers(es);
    if es != [] {
      var p := es[..|es| - 1];
      var last := es[|es| - 1];
      assert es == p + [last];
      assert ms[..|ms| - 1] == ItemMembers(p);
      assert forall i :: 0 <= i < |p| ==> p[i] == es[i];
      CleanItemMembers(p);
      CleanItemJson(last.1);
      assert CleanStep(ms[|ms| - 1]) == [last];
      assert CleanEntries(ms) == CleanEntries(ms[..|ms| - 1]) + CleanStep(ms[|ms| - 1]);
    } else {
      assert ms == [];
    }
  }

  /** Writing the cart back and restoring it gives the same lines, provided no
      product id is blank (the add check lets a blank id through, the restore
      check drops it). */
  lemma PersistRoundTrip(es: Entries, count: int)
    requires forall i :: 0 <= i < |es| ==> StoredIdOk(es[i].1.productId)
    ensures LoadEntries(Some(Persisted(es, count))) == es
  {
    var saved := Persisted(es, count);
    assert Prop(saved, "items") == Some(JObj(ItemMembers(es)));
    assert !IsLegacy(saved);
    CleanItemMembers(es);
  }

  /** A line whose id is blank is dropped on the next restore. */
  lemma BlankIdDropped(id: string, size: string, q: int)
    requires IsBlank(id) && id != ""
    ensures ValidProductId(id)
    ensures LoadEntries(Some(Persisted([(ItemKey(id, size), CartItem(id, size, q))], q))) == []
  {
    assert IsSpace(id[0]);
    var es := [(ItemKey(id, size), CartItem(id, size, q))];
    var saved := Persisted(es, q);
    assert Prop(saved, "items") == Some(JObj(ItemMembers(es)));
    assert !IsLegacy(saved);
    var ms := ItemMembers(es);
    assert ms[..0] == [];
    assert Get(ItemJson(es[0].1).members, "productId") == Some(JStr(id));
    assert CleanStep(ms[0]) == [];
    assert CleanEntries(ms) == [];
  }

  // ---- adding and removing --------------------------------------------------

  /** `removeItemFromCart(productId, size)`. */
  function RemoveEntries(es: Entries, productId: string, size: string): Entries {
    if !ValidProductId(productId) then es
    else
      var key := ItemKey(productId, size);
      if HasKey(es, key) then Delete(es, key) else es
  }

  /** `addItemToCart(productId, amount, size, stock)`; `stock` None is null. An
      invalid id or an amount that does not parse changes nothing. */
  function AddEntries(es: Entries, productId: string, amount: Json, size: string, stock: Option<int>): Entries {
    if !ValidProductId(productId) then es
    else match ParseInt(Some(amount))
      case None => es
      case Some(c) => AddCount(es, productId, c, size, stock)
  }

  /** The add once the amount has parsed to `c`. */
  function AddCount(es: Entries, productId: string, c: int, size: string, stock: Option<int>): Entries
    requires ValidProductId(productId)
  {
    var key := ItemKey(productId, size);
    match Find(es, key)
    case Some(cur) =>
      if cur.quantity == 1 && c == -1 then RemoveEntries(es, productId, size)
      else if cur.quantity + c <= 0 then RemoveEntries(es, productId, size)
      else if stock.Some? && c > 0 && cur.quantity + c > stock.value then es
      else Put(es, key, cur.(quantity := cur.quantity + c))
    case None =>
      if c <= 0 then es
      else if stock.Some? && c > stock.value then es
      else Put(es, key, CartItem(productId, size, c))
  }

  /** Removing deletes exactly the product's line in that size. */
  lemma RemoveSpec(es: Entries, productId: string, size: string, k: string)
    requires DistinctKeys(es) && ValidProductId(productId)
    ensures var r := RemoveEntries(es, productId, size);
            var key := ItemKey(productId, size);
            Find(r, key) == None &&
            (k != key ==> Find(r, k) == Find(es, k)) &&
            Total(r) == Total(es) - Quantity(es, key) &&
            DistinctKeys(r)
  {
    var key := ItemKey(productId, size);
    FindDelete(es, key, k);
    FindDelete(es, key, key);
    TotalDelete(es, key);
    DistinctDelete(es, key);
  }

  /** Adding touches only the line of that product in that size. */
  lemma AddKeepsOtherLines(es: Entries, productId: string, amount: Json, size: string, stock: Option<int>, k: string)
    requires k != ItemKey(productId, size)
    ensures Find(AddEntries(es, productId, amount, size, stock), k) == Find(es, k)
  {
    if ValidProductId(productId) && ParseInt(Some(amount)).Some? {
      CountKeepsOtherLines(es, productId, ParseInt(Some(amount)).value, size, stock, k);
    }
  }

  lemma CountKeepsOtherLines(es: Entries, productId: string, c: int, size: string, stock: Option<int>, k: string)
    requires ValidProductId(productId) && k != ItemKey(productId, size)
    ensures Find(AddCount(es, productId, c, size, stock), k) == Find(es, k)
  {
    var key := ItemKey(productId, size);
    var r := AddCount(es, productId, c, size, stock);
    match Find(es, key)
    case Some(cur) =>
      if (cur.quantity == 1 && c == -1) || cur.quantity + c <= 0 {
        assert r == RemoveEntries(es, productId, size) && HasKey(es, key);
        assert r == Delete(es, key);
        FindDelete(es, key, k);
      } else if stock.Some? && c > 0 && cur.quantity + c > stock.value {
        assert r == es;
      } else {
        assert r == Put(es, key, cur.(quantity := cur.quantity + c));
        FindPut(es, key, cur.(quantity := cur.quantity + c), k);
      }
    case None =>
      if c <= 0 || (stock.Some? && c > stock.value) {
        assert r == es;
      } else {
        assert r == Put(es, key, CartItem(productId, size, c));
        FindPut(es, key, CartItem(productId, size, c), k);
      }
  }

  /** Whatever line an add writes has a positive quantity (`AddRemovesEmptied`
      states that the line is removed instead). */
  lemma AddNeverStoresNonPositive(es: Entries, productId: string, amount: Json, size: string, stock: Option<int>)
    ensures var r := AddEntries(es, productId, amount, size, stock);
            var key := ItemKey(productId, size);
            Find(r, key) != Find(es, key) && Find(r, key).Some? ==> Find(r, key).value.quantity > 0
  {
    if ValidProductId(productId) && ParseInt(Some(amount)).Some? {
      CountWritesPositive(es, productId, ParseInt(Some(amount)).value, size, stock);
    }
  }

  lemma CountWritesPositive(es: Entries, productId: string, c: int, size: string, stock: Option<int>)
    requires ValidProductId(productId)
    ensures var r := AddCount(es, productId, c, size, stock);
            var key := ItemKey(productId, size);
            Find(r, key) != Find(es, key) && Find(r, key).Some? ==> Find(r, key).value.quantity > 0
  {
    var key := ItemKey(productId, size);
    var r := AddCount(es, productId, c, size, stock);
    match Find(es, key)
    case Some(cur) =>
      if (cur.quantity == 1 && c == -1) || cur.quantity + c <= 0 {
        assert r == RemoveEntries(es, productId, size) && HasKey(es, key);
        assert r == Delete(es, key);
        FindDelete(es, key, key);
      } else if stock.Some? && c > 0 && cur.quantity + c > stock.value {
        assert r == es;
      } else {
        assert r == Put(es, key, cur.(quantity := cur.quantity + c));
        FindPut(es, key, cur.(quantity := cur.quantity + c), key);
      }
    case None =>
      if c <= 0 || (stock.Some? && c > stock.value) {
        assert r == es;
      } else {
        assert r == Put(es, key, CartItem(productId, size, c));
        FindPut(es, key, CartItem(productId, size, c), key);
      }
  }

  /** An increase that would take the line above a known stock is refused
      outright, and an increase that is accepted never leaves the line above
      that stock. */
  lemma AddRespectsStock(es: Entries, productId: string, amount: Json, size: string, s: int)
    requires ParseInt(Some(amount)).Some? && ParseInt(Some(amount)).value > 0
    ensures var r := AddEntries(es, productId, amount, size, Some(s));
            var key := ItemKey(productId, size);
            var q := Quantity(es, key) + ParseInt(Some(amount)).value;
            (q > s && q > 0 ==> r == es) &&
            (Find(r, key).Some? && Find(r, key) != Find(es, key) ==> Quantity(r, key) <= s)
  {
    if ValidProductId(productId) {
      CountRespectsStock(es, productId, ParseInt(Some(amount)).value, size, s);
    }
  }

  lemma CountRespectsStock(es: Entries, productId: string, c: int, size: string, s: int)
    requires ValidProductId(productId) && c > 0
    ensures var r := AddCount(es, productId, c, size, Some(s));
            var key := ItemKey(productId, size);
            var q := Quantity(es, key) + c;
            (q > s && q > 0 ==> r == es) &&
            (Find(r, key).Some? && Find(r, key) != Find(es, key) ==> Quantity(r, key) <= s)
  {
    var key := ItemKey(productId, size);
    var r := AddCount(es, productId, c, size, Some(s));
    match Find(es, key)
    case Some(cur) =>
      if (cur.quantity == 1 && c == -1) || cur.quantity + c <= 0 {
        assert r == RemoveEntries(es, productId, size) && HasKey(es, key);
        assert r == Delete(es, key);
        FindDelete(es, key, key);
      } else if cur.quantity + c > s {
        assert r == es;
      } else {
        assert r == Put(es, key, cur.(quantity := cur.quantity + c));
        FindPut(es, key, cur.(quantity := cur.quantity + c), key);
      }
    case None =>
      if c > s {
        assert r == es;
      } else {
        assert r == Put(es, key, CartItem(productId, size, c));
        FindPut(es, key, CartItem(productId, size, c), key);
      }
  }

  /** The piece count moves by exactly the change of the one line an add
      touches. */
  lemma AddTotal(es: Entries, productId: string, amount: Json, size: string, stock: Option<int>)
    requires DistinctKeys(es)
    ensures var r := AddEntries(es, productId, amount, size, stock);
            var key := ItemKey(productId, size);
            DistinctKeys(r) && Total(r) == Total(es) + Quantity(r, key) - Quantity(es, key)
  {
    if ValidProductId(productId) && ParseInt(Some(amount)).Some? {
      CountTotal(es, productId, ParseInt(Some(amount)).value, size, stock);
    }
  }

  lemma CountTotal(es: Entries, productId: string, c: int, size: string, stock: Option<int>)
    requires DistinctKeys(es) && ValidProductId(productId)
    ensures var r := AddCount(es, productId, c, size, stock);
            var key := ItemKey(productId, size);
            DistinctKeys(r) && Total(r) == Total(es) + Quantity(r, key) - Quantity(es, key)
  {
    var key := ItemKey(productId, size);
    var r := AddCount(es, productId, c, size, stock);
    match Find(es, key)
    case Some(cur) =>
      if (cur.quantity == 1 && c == -1) || cur.quantity + c <= 0 {
        assert r == RemoveEntries(es, productId, size) && HasKey(es, key);
        assert r == Delete(es, key);
        FindDelete(es, key, key);
        TotalDelete(es, key);
        DistinctDelete(es, key);
      } else if stock.Some? && c > 0 && cur.quantity + c > stock.value {
        assert r == es;
      } else {
        assert r == Put(es, key, cur.(quantity := cur.quantity + c));
        TotalWrite(es, key, cur.(quantity := cur.quantity + c));
      }
    case None =>
      if c <= 0 || (stock.Some? && c > stock.value) {
        assert r == es;
      } else {
        assert r == Put(es, key, CartItem(productId, size, c));
        TotalWrite(es, key, CartItem(productId, size, c));
      }
  }

  lemma TotalWrite(es: Entries, key: string, v: CartItem)
    requires DistinctKeys(es)
    ensures DistinctKeys(Put(es, key, v))
    ensures Total(Put(es, key, v)) == Total(es) + Quantity(Put(es, key, v), key) - Quantity(es, key)
  {
    FindPut(es, key, v, key);
    TotalPut(es, key, v);
    DistinctPut(es, key, v);
  }

  /** A decrease that leaves a positive quantity is never stock-checked. */
  lemma DecreaseIgnoresStock(es: Entries, productId: string, amount: Json, size: string, stock: Option<int>)
    requires ValidProductId(productId)
    requires ParseInt(Some(amount)).Some? && ParseInt(Some(amount)).value < 0
    requires Find(es, ItemKey(productId, size)).Some?
    requires Quantity(es, ItemKey(productId, size)) + ParseInt(Some(amount)).value > 0
    ensures var key := ItemKey(productId, size);
            Find(AddEntries(es, productId, amount, size, stock), key)
              == Some(Find(es, key).value.(quantity := Quantity(es, key) + ParseInt(Some(amount)).value))
  {
    CountDecreases(es, productId, ParseInt(Some(amount)).value, size, stock);
  }

  lemma CountDecreases(es: Entries, productId: string, c: int, size: string, stock: Option<int>)
    requires ValidProductId(productId) && c < 0
    requires Find(es, ItemKey(productId, size)).Some?
    requires Quantity(es, ItemKey(productId, size)) + c > 0
    ensures var key := ItemKey(productId, size);
            Find(AddCount(es, productId, c, size, stock), key)
              == Some(Find(es, key).value.(quantity := Quantity(es, key) + c))
  {
    var key := ItemKey(productId, size);
    var cur := Find(es, key).value;
    assert AddCount(es, productId, c, size, stock) == Put(es, key, cur.(quantity := cur.quantity + c));
    FindPut(es, key, cur.(quantity := cur.quantity + c), key);
  }

  /** What an accepted add writes: a product not yet in the cart gets a line
      holding the amount, an existing line grows by the amount. A null stock
      never refuses, and a known stock only refuses an increase above it. */
  lemma AddWrites(es: Entries, productId: string, amount: Json, size: string, stock: Option<int>)
    requires ValidProductId(productId) && ParseInt(Some(amount)).Some?
    ensures var c := ParseInt(Some(amount)).value;
            var key := ItemKey(productId, size);
            var r := AddEntries(es, productId, amount, size, stock);
            (Find(es, key).None? && c > 0 && (stock.None? || c <= stock.value) ==>
               Find(r, key) == Some(CartItem(productId, size, c))) &&
            (Find(es, key).Some? && Quantity(es, key) + c > 0 &&
             (stock.None? || c <= 0 || Quantity(es, key) + c <= stock.value) ==>
               Find(r, key) == Some(Find(es, key).value.(quantity := Quantity(es, key) + c)))
  {
    var c := ParseInt(Some(amount)).value;
    var key := ItemKey(productId, size);
    if Find(es, key).None? && c > 0 && (stock.None? || c <= stock.value) {
      CountWritesNew(es, productId, c, size, stock);
    }
    if Find(es, key).Some? && Quantity(es, key) + c > 0 &&
       (stock.None? || c <= 0 || Quantity(es, key) + c <= stock.value) {
      CountWritesExisting(es, productId, c, size, stock);
    }
  }

  lemma CountWritesNew(es: Entries, productId: string, c: int, size: string, stock: Option<int>)
    requires ValidProductId(productId) && Find(es, ItemKey(productId, size)).None?
    requires c > 0 && (stock.None? || c <= stock.value)
    ensures Find(AddCount(es, productId, c, size, stock), ItemKey(productId, size)) == Some(CartItem(productId, size, c))
  {
    var key := ItemKey(productId, size);
    assert AddCount(es, productId, c, size, stock) == Put(es, key, CartItem(productId, size, c));
    FindPut(es, key, CartItem(productId, size, c), key);
  }

  lemma CountWritesExisting(es: Entries, productId: string, c: int, size: string, stock: Option<int>)
    requires ValidProductId(productId) && Find(es, ItemKey(productId, size)).Some?
    requires Quantity(es, ItemKey(productId, size)) + c > 0
    requires stock.None? || c <= 0 || Quantity(es, ItemKey(productId, size)) + c <= stock.value
    ensures var key := ItemKey(productId, size);
            Find(AddCount(es, productId, c, size, stock), key)
              == Some(Find(es, key).value.(quantity := Quantity(es, key) + c))
  {
    var key := ItemKey(productId, size);
    var cur := Find(es, key).value;
    assert AddCount(es, productId, c, size, stock) == Put(es, key, cur.(quantity := cur.quantity + c));
    FindPut(es, key, cur.(quantity := cur.quantity + c), key);
  }

  /** An add that takes an existing line to zero or below removes it, whatever
      the stock: the add is then the remove of that line. */
  lemma AddRemovesEmptied(es: Entries, productId: string, amount: Json, size: string, stock: Option<int>)
    requires ValidProductId(productId) && ParseInt(Some(amount)).Some?
    requires Find(es, ItemKey(productId, size)).Some?
    requires Quantity(es, ItemKey(productId, size)) + ParseInt(Some(amount)).value <= 0
    ensures var r := AddEntries(es, productId, amount, size, stock);
            r == RemoveEntries(es, productId, size) && Find(r, ItemKey(productId, size)).None?
  {
    CountRemovesEmptied(es, productId, ParseInt(Some(amount)).value, size, stock);
  }

  lemma CountRemovesEmptied(es: Entries, productId: string, c: int, size: string, stock: Option<int>)
    requires ValidProductId(productId) && Find(es, ItemKey(productId, size)).Some?
    requires Quantity(es, ItemKey(productId, size)) + c <= 0
    ensures var r := AddCount(es, productId, c, size, stock);
            r == RemoveEntries(es, productId, size) && Find(r, ItemKey(productId, size)).None?
  {
    var key := ItemKey(productId, size);
    assert HasKey(es, key);
    assert AddCount(es, productId, c, size, stock) == Delete(es, key);
    FindDelete(es, key, key);
  }

  /** With a null stock (as the product cards pass it) the line ends up with
      exactly the old quantity plus the amount, or is gone when that is not
      positive. */
  lemma NullStockNeverLimits(es: Entries, productId: string, amount: Json, size: string)
    requires ValidProductId(productId) && ParseInt(Some(amount)).Some?
    ensures var key := ItemKey(productId, size);
            var q := Quantity(es, key) + ParseInt(Some(amount)).value;
            var r := AddEntries(es, productId, amount, size, None);
            (q > 0 ==> Find(r, key).Some? && Quantity(r, key) == q) &&
            (q <= 0 ==> Find(r, key).None?)
  {
    var key := ItemKey(productId, size);
    var c := ParseInt(Some(amount)).value;
    AddWrites(es, productId, amount, size, None);
    if Find(es, key).Some? && Quantity(es, key) + c <= 0 {
      assert AddCount(es, productId, c, size, None) == Delete(es, key);
      FindDelete(es, key, key);
    }
  }

  /** Invalid ids, unparsable amounts and non-positive amounts for a product
      not yet in the cart change nothing. */
  lemma AddNoops(es: Entries, productId: string, amount: Json, size: string, stock: Option<int>)
    requires !ValidProductId(productId) || ParseInt(Some(amount)).None? ||
             (Find(es, ItemKey(productId, size)).None? && ParseInt(Some(amount)).value <= 0)
    ensures AddEntries(es, productId, amount, size, stock) == es
  {
  }

  /** Adds and removes keep every line under the key of its product and size,
      and a migrated legacy cart starts out that way. */
  lemma CoherentPreserved(es: Entries, productId: string, amount: Json, size: string, stock: Option<int>)
    requires Coherent(es)
    ensures Coherent(AddEntries(es, productId, amount, size, stock))
    ensures Coherent(RemoveEntries(es, productId, size))
  {
    DeleteCoherent(es, ItemKey(productId, size));
    if ValidProductId(productId) && ParseInt(Some(amount)).Some? {
      CountCoherent(es, productId, ParseInt(Some(amount)).value, size, stock);
    }
  }

  lemma CountCoherent(es: Entries, productId: string, c: int, size: string, stock: Option<int>)
    requires Coherent(es) && ValidProductId(productId)
    ensures Coherent(AddCount(es, productId, c, size, stock))
  {
    var key := ItemKey(productId, size);
    var r := AddCount(es, productId, c, size, stock);
    match Find(es, key)
    case Some(cur) =>
      if (cur.quantity == 1 && c == -1) || cur.quantity + c <= 0 {
        assert r == RemoveEntries(es, productId, size) && HasKey(es, key);
        assert r == Delete(es, key);
        DeleteCoherent(es, key);
      } else if stock.Some? && c > 0 && cur.quantity + c > stock.value {
        assert r == es;
      } else {
        assert r == Put(es, key, cur.(quantity := cur.quantity + c));
        var j :| 0 <= j < |es| && es[j] == (key, cur);
        PutCoherent(es, key, cur.(quantity := cur.quantity + c));
      }
    case None =>
      if c <= 0 || (stock.Some? && c > stock.value) {
        assert r == es;
      } else {
        assert r == Put(es, key, CartItem(productId, size, c));
        PutCoherent(es, key, CartItem(productId, size, c));
      }
  }

  lemma DeleteCoherent(es: Entries, key: string)
    requires Coherent(es)
    ensures Coherent(Delete(es, key))
  {
    DeleteElements(es, key);
    var d := Delete(es, key);
    forall i | 0 <= i < |d| ensures d[i].0 == ItemKey(d[i].1.productId, d[i].1.size) {
      assert d[i] in es;
    }
  }

  lemma PutCoherent(es: Entries, key: string, v: CartItem)
    requires Coherent(es) && key == ItemKey(v.productId, v.size)
    ensures Coherent(Put(es, key, v))
  {
    PutElements(es, key, v);
    var r := Put(es, key, v);
    forall i | 0 <= i < |r| ensures r[i].0 == ItemKey(r[i].1.productId, r[i].1.size) {
      assert r[i] in r;
      if r[i] != (key, v) {
        assert r[i] in es;
      }
    }
  }

  lemma LegacyCoherent(ms: seq<Member>)
    ensures Coherent(LegacyEntries(ms))
  {
    LegacyOrigin(ms);
  }

  /** The position of the first '_' in `s` (`|s|` when there is none). */
  function FirstUnderscore(s: string): nat {
    if s == [] || s[0] == '_' then 0 else 1 + FirstUnderscore(s[1..])
  }

  lemma {:induction false} FirstUnderscoreOf(p: string, t: string)
    requires forall i :: 0 <= i < |p| ==> p[i] != '_'
    ensures FirstUnderscore(p + "_" + t) == |p|
  {
    if p != [] {
      assert (p + "_" + t)[1..] == p[1..] + "_" + t;
      FirstUnderscoreOf(p[1..], t);
    }
  }

  /** A product id without '_' determines its line: distinct (id, size) pairs
      get distinct keys. */
  lemma ItemKeyInjective(p1: string, s1: string, p2: string, s2: string)
    requires forall i :: 0 <= i < |p1| ==> p1[i] != '_'
    requires forall i :: 0 <= i < |p2| ==> p2[i] != '_'
    requires ItemKey(p1, s1) == ItemKey(p2, s2)
    ensures p1 == p2
    ensures (if s1 == "" then NO_SIZE else s1) == (if s2 == "" then NO_SIZE else s2)
  {
    var k := ItemKey(p1, s1);
    FirstUnderscoreOf(p1, if s1 == "" then NO_SIZE else s1);
    FirstUnderscoreOf(p2, if s2 == "" then NO_SIZE else s2);
    assert p1 == k[..|p1|] && p2 == k[..|p2|];
    assert k[|p1| + 1..] == (if s1 == "" then NO_SIZE else s1);
  }

  /** Without that restriction two different lines can share a key, and the
      size "no-size" shares the key of the empty size. */
  lemma ItemKeyCollisions()
    ensures ItemKey("a_b", "") == ItemKey("a", "b_no-size")
    ensures ItemKey("a", "no-size") == ItemKey("a", "")
  {
  }

  /** The migration loop over the members of a legacy cart, counting pieces
      as it goes. */
  method MigrateLegacy(ms: seq<Member>) returns (es: Entries, n: int)
    ensures es == LegacyEntries(ms) && n == Total(es)
  {
    es, n := [], 0;
    var i := 0;
    while i < |ms|
      invariant 0 <= i <= |ms|
      invariant es == LegacyEntries(ms[..i]) && n == Total(es)
    {
      var m := ms[i];
      assert ms[..i + 1][..i] == ms[..i];
      if IsLegacyKey(m.key) && m.value.JNum? {
        TotalSnoc(es, (ItemKey(m.key, ""), CartItem(m.key, "", m.value.n)));
        es := es + [(ItemKey(m.key, ""), CartItem(m.key, "", m.value.n))];
        n := n + m.value.n;
      }
      i := i + 1;
    }
    assert ms[..|ms|] == ms;
  }

  /** The cleaning loop over the stored lines, counting pieces as it goes. */
  method RestoreItems(ms: seq<Member>) returns (es: Entries, n: int)
    ensures es == CleanEntries(ms) && n == Total(es)
  {
    es, n := [], 0;
    var i := 0;
    while i < |ms|
      invariant 0 <= i <= |ms|
      invariant es == CleanEntries(ms[..i]) && n == Total(es)
    {
      var m := ms[i];
      assert ms[..i + 1][..i] == ms[..i];
      var item := CleanItem(m.value);
      if item.Some? {
        TotalSnoc(es, (m.key, item.value));
        es := es + [(m.key, item.value)];
        n := n + item.value.quantity;
      }
      i := i + 1;
    }
    assert ms[..|ms|] == ms;
  }

  /** The cart held by the storefront's cart provider. */
  class Cart {
    var entries: Entries
    var count: int

    /** The count always equals the sum of the line quantities, and keys are
        distinct. */
    ghost predicate Valid()
      reads this
    {
      DistinctKeys(entries) && count == Total(entries)
    }

    /** The state initialiser: restores the cart from local storage. */
    constructor Load(stored: Option<Json>)
      requires stored.Some? ==> WellFormed(stored.value)
      ensures Valid() && entries == LoadEntries(stored)
    {
      var es: Entries := [];
      var n := 0;
      if stored.Some? && IsLegacy(stored.value) {
        es, n := MigrateLegacy(stored.value.members);
      } else if stored.Some? && HasItemsObject(stored.value) {
        es, n := RestoreItems(OwnEntries(Prop(stored.value, "items").value));
      }
      LoadDistinct(stored);
      entries := es;
      count := n;
    }
    /** Recomputes the count from the lines. */
    method Recount()
      modifies this
      ensures entries == old(entries) && count == Total(entries)
    {
      var n := 0;
      var i := 0;
      while i < |entries|
        invariant entries == old(entries)
        invariant 0 <= i <= |entries|
        invariant n == Total(entries[..i])
      {
        assert entries[..i + 1] == entries[..i] + [entries[i]];
        TotalSnoc(entries[..i], entries[i]);
        n := n + entries[i].1.quantity;
        i := i + 1;
      }
      assert entries[..|entries|] == entries;
      count := n;
    }

    /** `removeItemFromCart`. */
    method RemoveItem(productId: string, size: string)
      requires Valid()
      modifies this
      ensures Valid() && entries == RemoveEntries(old(entries), productId, size)
    {
      if !ValidProductId(productId) {
        return;
      }
      var key := ItemKey(productId, size);
      if Find(entries, key).None? {
        return;
      }
      DistinctDelete(entries, key);
      entries := Delete(entries, key);
      Recount();
    }

    /** `addItemToCart`; `stock` None is the default null (no limit). */
    method AddItem(productId: string, amount: Json, size: string, stock: Option<int>)
      requires Valid()
      modifies this
      ensures Valid() && entries == AddEntries(old(entries), productId, amount, size, stock)
    {
      if !ValidProductId(productId) {
        return;
      }
      var parsed := ParseInt(Some(amount));
      if parsed.None? {
        return;
      }
      AddParsed(productId, parsed.value, size, stock);
    }

    /** The add once the amount has parsed to `c`. */
    method AddParsed(productId: string, c: int, size: string, stock: Option<int>)
      requires Valid() && ValidProductId(productId)
      modifies this
      ensures Valid() && entries == AddCount(old(entries), productId, c, size, stock)
    {
      ghost var target := AddCount(entries, productId, c, size, stock);
      var key := ItemKey(productId, size);
      var current := Find(entries, key);
      if current.Some? {
        var q := current.value.quantity + c;
        if (current.value.quantity == 1 && c == -1) || q <= 0 {
          assert target == RemoveEntries(entries, productId, size);
          RemoveItem(productId, size);
        } else if stock.Some? && c > 0 && q > stock.value {
          assert target == entries;
        } else {
          assert target == Put(entries, key, current.value.(quantity := q));
          DistinctPut(entries, key, current.value.(quantity := q));
          entries := Put(entries, key, current.value.(quantity := q));
          Recount();
        }
      } else if c > 0 && !(stock.Some? && c > stock.value) {
        assert target == Put(entries, key, CartItem(productId, size, c));
        DistinctPut(entries, key, CartItem(productId, size, c));
        entries := Put(entries, key, CartItem(productId, size, c));
        Recount();
      }
    }

    /** `resetCart`. */
    method Reset()
      modifies this
      ensures Valid() && entries == [] && count == 0
    {
      entries := [];
      count := 0;
    }
  }
}
