/** The wishlist store: a JavaScript object from product id to a stored value
    (`true` for every id the page adds), cleaned when it is read back from
    local storage. */
module Wishlist {
  import opened Js
  import opened Table

  /** The wishlist object, members in enumeration order. */
  type Entries = seq<(string, Json)>

  /** A key kept when the saved wishlist is read back: not blank after trim
      and not the string "undefined". */
  predicate KeptKey(k: string) {
    !IsBlank(k) && k != "undefined"
  }

  /** An id the operations accept: a non-empty string other than "undefined".
      A blank id such as " " is accepted here but dropped on the next load. */
  predicate ValidId(id: string) {
    id != "" && id != "undefined"
  }

  // ---- load -------------------------------------------------------------------

  /** `JSON.parse(saved) || {}` listed by `Object.keys`: nothing for a missing or
      falsy value, the members or elements of anything else. */
  function Saved(stored: Option<Json>): (r: seq<Member>)
    ensures stored.None? || !Truthy(stored.value) ==> r == []
  {
    if stored.Some? && Truthy(stored.value) then OwnEntries(stored.value) else []
  }

  function CleanStep(m: Member): Entries {
    if KeptKey(m.key) then [(m.key, m.value)] else []
  }

  /** The cleaned object, filled key by key in enumeration order. */
  function CleanEntries(ms: seq<Member>): Entries {
    if ms == [] then [] else CleanEntries(ms[..|ms| - 1]) + CleanStep(ms[|ms| - 1])
  }

  function LoadEntries(stored: Option<Json>): Entries {
    CleanEntries(Saved(stored))
  }

  /** `Get` on a sequence extended at the back. */
  lemma {:induction false} GetSnoc(p: seq<Member>, m: Member, k: string)
    ensures Get(p + [m], k) == if Get(p, k).Some? then Get(p, k) else if m.key == k then Some(m.value) else None
  {
    if p != [] {
      assert (p + [m])[1..] == p[1..] + [m];
      GetSnoc(p[1..], m, k);
    }
  }

  /** Cleaning keeps exactly the members under kept keys, values unchanged, and
      yields distinct keys. */
  lemma {:induction false} CleanFind(ms: seq<Member>, k: string)
    requires DistinctMembers(ms)
    ensures Find(CleanEntries(ms), k) == if KeptKey(k) then Get(ms, k) else None
    ensures DistinctKeys(CleanEntries(ms))
  {
    if ms == [] {
      assert CleanEntries(ms) == [];
    } else {
      var p := ms[..|ms| - 1];
      var m := ms[|ms| - 1];
      assert ms == p + [m];
      CleanFind(p, k);
      CleanFind(p, m.key);
      GetSnoc(p, m, k);
      assert Get(p, m.key).None? by {
        forall i | 0 <= i < |p| ensures p[i].key != m.key {
          assert p[i] == ms[i];
        }
      }
      if KeptKey(m.key) {
        assert CleanEntries(ms) == CleanEntries(p) + [(m.key, m.value)];
        assert Put(CleanEntries(p), m.key, m.value) == CleanEntries(ms);
        FindPut(CleanEntries(p), m.key, m.value, k);
        DistinctPut(CleanEntries(p), m.key, m.value);
      } else {
        assert CleanEntries(ms) == CleanEntries(p);
      }
    }
  }

  /** Load keeps exactly the saved entries whose key is kept, with their
      values unchanged, under distinct keys. */
  lemma LoadKeepsExactly(stored: Option<Json>, k: string)
    requires stored.Some? ==> WellFormed(stored.value)
    ensures Find(LoadEntries(stored), k) == if KeptKey(k) then Get(Saved(stored), k) else None
    ensures DistinctKeys(LoadEntries(stored))
  {
    if stored.Some? && Truthy(stored.value) {
      OwnEntriesDistinct(stored.value);
    }
    CleanFind(Saved(stored), k);
  }

  // ---- operations ---------------------------------------------------------------

  /** `addItemToWishlist`: `{...wishlist, [id]: true}`. */
  function AddEntries(t: Entries, id: string): Entries {
    if ValidId(id) then Put(t, id, JBool(true)) else t
  }

  /** `removeItemFromWishlist`: a copy without `id`. */
  function RemoveEntries(t: Entries, id: string): Entries {
    if ValidId(id) then Delete(t, id) else t
  }

  /** `isInWishlist`: false for an invalid id, else the truthiness of the
      stored value. */
  predicate InWishlist(t: Entries, id: string) {
    ValidId(id) && TruthyOpt(Find(t, id))
  }

  /** `toggleItemInWishlist`: removes an id whose value is truthy, adds any
      other valid id. */
  function ToggleEntries(t: Entries, id: string): Entries {
    if !ValidId(id) then t
    else if TruthyOpt(Find(t, id)) then RemoveEntries(t, id)
    else AddEntries(t, id)
  }

  /** Add makes the id a member and leaves every other entry as it was. */
  lemma AddSpec(t: Entries, id: string, k: string)
    requires ValidId(id)
    ensures InWishlist(AddEntries(t, id), id)
    ensures Find(AddEntries(t, id), id) == Some(JBool(true))
    ensures k != id ==> Find(AddEntries(t, id), k) == Find(t, k)
  {
    FindPut(t, id, JBool(true), id);
    FindPut(t, id, JBool(true), k);
  }

  /** Remove deletes the id only. */
  lemma RemoveSpec(t: Entries, id: string, k: string)
    requires ValidId(id)
    ensures !InWishlist(RemoveEntries(t, id), id)
    ensures Find(RemoveEntries(t, id), id) == None
    ensures k != id ==> Find(RemoveEntries(t, id), k) == Find(t, k)
  {
    FindDelete(t, id, id);
    FindDelete(t, id, k);
  }

  /** Operations on an invalid id change nothing and report no membership. */
  lemma InvalidIdIgnored(t: Entries, id: string)
    requires !ValidId(id)
    ensures ToggleEntries(t, id) == t && AddEntries(t, id) == t && RemoveEntries(t, id) == t
    ensures !InWishlist(t, id)
  {
  }

  /** Toggle flips membership of a valid id and leaves the other ids alone. */
  lemma ToggleFlips(t: Entries, id: string, k: string)
    requires ValidId(id)
    ensures InWishlist(ToggleEntries(t, id), id) <==> !InWishlist(t, id)
    ensures k != id ==> Find(ToggleEntries(t, id), k) == Find(t, k)
  {
    AddSpec(t, id, k);
    RemoveSpec(t, id, k);
  }

  /** Two toggles restore membership; from an id that is absent they restore
      the whole object. */
  lemma ToggleTwice(t: Entries, id: string)
    requires ValidId(id)
    ensures InWishlist(ToggleEntries(ToggleEntries(t, id), id), id) == InWishlist(t, id)
    ensures !HasKey(t, id) ==> ToggleEntries(ToggleEntries(t, id), id) == t
  {
    ToggleFlips(t, id, id);
    ToggleFlips(ToggleEntries(t, id), id, id);
    if !HasKey(t, id) {
      FindPut(t, id, JBool(true), id);
      DeleteAppended(t, id, JBool(true));
    }
  }

  /** The operations keep the keys distinct. */
  lemma OperationsKeepDistinct(t: Entries, id: string)
    requires DistinctKeys(t)
    ensures DistinctKeys(AddEntries(t, id)) && DistinctKeys(RemoveEntries(t, id)) && DistinctKeys(ToggleEntries(t, id))
  {
    DistinctPut(t, id, JBool(true));
    DistinctDelete(t, id);
  }

  // ---- the store ------------------------------------------------------------------

  class WishlistStore {
    var entries: Entries

    ghost predicate Valid()
      reads this
    {
      DistinctKeys(entries)
    }

    /** The initialiser: the cleaned object, filled in a loop. */
    constructor Load(stored: Option<Json>)
      requires stored.Some? ==> WellFormed(stored.value)
      ensures Valid() && entries == LoadEntries(stored)
    {
      var ms := Saved(stored);
      var es: Entries := [];
      var i := 0;
      while i < |ms|
        invariant 0 <= i <= |ms|
        invariant es == CleanEntries(ms[..i])
      {
        assert ms[..i + 1][..i] == ms[..i];
        if KeptKey(ms[i].key) {
          es := es + [(ms[i].key, ms[i].value)];
        }
        i := i + 1;
      }
      assert ms[..|ms|] == ms;
      LoadKeepsExactly(stored, "");
      entries := es;
    }

    method Add(id: string)
      requires Valid()
      modifies this
      ensures Valid() && entries == AddEntries(old(entries), id)
    {
      OperationsKeepDistinct(entries, id);
      if ValidId(id) {
        entries := Put(entries, id, JBool(true));
      }
    }

    method Remove(id: string)
      requires Valid()
      modifies this
      ensures Valid() && entries == RemoveEntries(old(entries), id)
    {
      OperationsKeepDistinct(entries, id);
      if ValidId(id) {
        entries := Delete(entries, id);
      }
    }

    method Toggle(id: string)
      requires Valid()
      modifies this
      ensures Valid() && entries == ToggleEntries(old(entries), id)
    {
      if !ValidId(id) {
        return;
      }
      if TruthyOpt(Find(entries, id)) {
        Remove(id);
      } else {
        Add(id);
      }
    }

  }
}
