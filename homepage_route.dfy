/** The homepage collection: the product ids featured on the home page. The
    add route refuses an id already present, so the collection never holds
    one twice; delete removes the entry for an id. */
module HomepageRoute {
  import opened Table

  /** `findOneAndDelete({productID})`: the first entry for `x` removed. */
  function RemoveFirst(xs: seq<string>, x: string): (r: seq<string>)
    ensures x !in xs ==> r == xs
    ensures x in xs ==> |r| == |xs| - 1
    ensures forall y :: y in r ==> y in xs
    ensures forall y :: y in xs && y != x ==> y in r
  {
    if xs == [] then []
    else if xs[0] == x then xs[1..]
    else [xs[0]] + RemoveFirst(xs[1..], x)
  }

  lemma {:induction false} RemoveFirstNoDuplicates(xs: seq<string>, x: string)
    requires NoDuplicates(xs)
    ensures NoDuplicates(RemoveFirst(xs, x)) && x !in RemoveFirst(xs, x)
  {
    if xs != [] {
      assert NoDuplicates(xs[1..]) by {
        forall i, j | 0 <= i < j < |xs[1..]| ensures xs[1..][i] != xs[1..][j] {
          assert xs[1..][i] == xs[i + 1] && xs[1..][j] == xs[j + 1];
        }
      }
      RemoveFirstNoDuplicates(xs[1..], x);
      if xs[0] == x {
        assert forall i :: 0 <= i < |xs[1..]| ==> xs[1..][i] == xs[i + 1];
      } else {
        var r := RemoveFirst(xs, x);
        forall j | 1 <= j < |r| ensures r[0] != r[j] {
          assert r[j] in RemoveFirst(xs[1..], x);
          var k :| 0 <= k < |xs[1..]| && xs[1..][k] == r[j];
          assert xs[1..][k] == xs[k + 1];
        }
      }
    }
  }

  /** Adding an absent id and deleting it again restores the collection. */
  lemma {:induction false} RemoveAppended(xs: seq<string>, x: string)
    requires x !in xs
    ensures RemoveFirst(xs + [x], x) == xs
  {
    if xs != [] {
      assert (xs + [x])[1..] == xs[1..] + [x];
      RemoveAppended(xs[1..], x);
    }
  }

  datatype Status = Created | Removed | BadRequest | NotFound

  class HomepageStore {
    var ids: seq<string>

    ghost predicate Valid()
      reads this
    {
      NoDuplicates(ids)
    }

    constructor ()
      ensures Valid() && ids == []
    {
      ids := [];
    }

    /** `/add`: 400 for an id already featured, otherwise one new entry. */
    method Add(productID: string) returns (r: Status)
      requires Valid()
      modifies this
      ensures Valid()
      ensures r == BadRequest <==> productID in old(ids)
      ensures r == BadRequest ==> ids == old(ids)
      ensures r != BadRequest ==> r == Created && ids == old(ids) + [productID]
    {
      if productID in ids {
        return BadRequest;
      }
      ids := ids + [productID];
      r := Created;
    }

    /** `/delete/:id`: 404 when the id is not featured, otherwise its entry
        is removed. */
    method Delete(id: string) returns (r: Status)
      requires Valid()
      modifies this
      ensures Valid() && ids == RemoveFirst(old(ids), id) && id !in ids
      ensures r == NotFound <==> id !in old(ids)
      ensures r != NotFound ==> r == Removed
    {
      RemoveFirstNoDuplicates(ids, id);
      if id !in ids {
        return NotFound;
      }
      ids := RemoveFirst(ids, id);
      r := Removed;
    }
  }
}
