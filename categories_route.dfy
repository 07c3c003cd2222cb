/** The category routes over the category collection: add (both fields
    required, names unique by the schema's index), edit by id, delete by id. */
module CategoriesRoute {
  import opened Js
  import opened Models

  /** A body field is truthy: sent and not the empty string. */
  predicate Given(x: Option<string>) {
    x.Some? && x.value != ""
  }

  predicate DistinctCategories(cs: seq<Category>) {
    forall i, j :: 0 <= i < j < |cs| ==> cs[i].id != cs[j].id && cs[i].name != cs[j].name
  }

  function FindCategory(cs: seq<Category>, id: string): (r: Option<Category>)
    ensures r.None? <==> forall i :: 0 <= i < |cs| ==> cs[i].id != id
    ensures r.Some? ==> r.value in cs && r.value.id == id
  {
    FindBy(cs, (c: Category) => c.id, id)
  }

  /** Another category than `id` already carries `name`. */
  predicate NameTaken(cs: seq<Category>, name: string, id: string) {
    exists i :: 0 <= i < |cs| && cs[i].name == name && cs[i].id != id
  }

  /** `findByIdAndUpdate(id, {category, img})`: the fields sent replace the
      stored ones; an unsent field is left out of the update. The add route's
      check does not run, so an empty name or picture is stored. */
  function EditedCategory(c: Category, name: Option<string>, img: Option<string>): (r: Category)
    ensures r.id == c.id
    ensures r.name == (if name.Some? then name.value else c.name)
    ensures r.img == (if img.Some? then img.value else c.img)
  {
    Category(c.id, if name.Some? then name.value else c.name, if img.Some? then img.value else c.img)
  }

  function ReplaceCategory(cs: seq<Category>, c: Category): (r: seq<Category>)
    ensures |r| == |cs|
    ensures forall i :: 0 <= i < |cs| ==> r[i] == if cs[i].id == c.id then c else cs[i]
  {
    seq(|cs|, i requires 0 <= i < |cs| => if cs[i].id == c.id then c else cs[i])
  }

  function DeleteCategory(cs: seq<Category>, id: string): (r: seq<Category>)
    ensures forall c :: c in r <==> c in cs && c.id != id
    ensures |r| <= |cs|
  {
    if cs == [] then []
    else
      assert forall c :: c in cs <==> c == cs[0] || c in cs[1..];
      (if cs[0].id != id then [cs[0]] else []) + DeleteCategory(cs[1..], id)
  }

  lemma {:induction false} DeleteKeepsDistinct(cs: seq<Category>, id: string)
    requires DistinctCategories(cs)
    ensures DistinctCategories(DeleteCategory(cs, id))
  {
    if cs != [] {
      DistinctTail(cs);
      DeleteKeepsDistinct(cs[1..], id);
      var t := DeleteCategory(cs[1..], id);
      if cs[0].id != id {
        assert DeleteCategory(cs, id) == [cs[0]] + t;
        DistinctCons(cs[0], t);
      } else {
        assert DeleteCategory(cs, id) == t;
      }
    }
  }

  lemma DistinctTail(cs: seq<Category>)
    requires DistinctCategories(cs) && cs != []
    ensures DistinctCategories(cs[1..])
    ensures forall c :: c in cs[1..] ==> c.id != cs[0].id && c.name != cs[0].name
  {
    forall i, j | 0 <= i < j < |cs[1..]| ensures cs[1..][i].id != cs[1..][j].id && cs[1..][i].name != cs[1..][j].name {
      assert cs[1..][i] == cs[i + 1] && cs[1..][j] == cs[j + 1];
    }
    forall c | c in cs[1..] ensures c.id != cs[0].id && c.name != cs[0].name {
      var k :| 0 <= k < |cs[1..]| && cs[1..][k] == c;
      assert cs[1..][k] == cs[k + 1];
    }
  }

  lemma DistinctCons(c: Category, t: seq<Category>)
    requires DistinctCategories(t)
    requires forall x :: x in t ==> x.id != c.id && x.name != c.name
    ensures DistinctCategories([c] + t)
  {
    var r := [c] + t;
    forall i, j | 0 <= i < j < |r| ensures r[i].id != r[j].id && r[i].name != r[j].name {
      assert r[j] == t[j - 1] && r[j] in t;
      if i > 0 {
        assert r[i] == t[i - 1];
      }
    }
  }

  datatype Status = Created(created: Category) | Updated(updated: Category) | Removed | BadRequest | NotFound | ServerError

  class CategoryStore {
    var categories: seq<Category>

    ghost predicate Valid()
      reads this
    {
      DistinctCategories(categories)
    }

    constructor ()
      ensures Valid() && categories == []
    {
      categories := [];
    }

    /** `/add`: 400 unless both fields are given; a name already in use breaks
        the unique index (500); otherwise exactly one category is appended. */
    method Add(id: string, name: Option<string>, img: Option<string>) returns (r: Status)
      requires Valid() && forall i :: 0 <= i < |categories| ==> categories[i].id != id
      modifies this
      ensures Valid()
      ensures r == BadRequest <==> !Given(name) || !Given(img)
      ensures r == ServerError <==> Given(name) && Given(img) && NameTaken(old(categories), name.value, id)
      ensures !r.Created? ==> categories == old(categories)
      ensures r.Created? ==> r.created == Category(id, name.value, img.value) && categories == old(categories) + [r.created]
    {
      if !Given(name) || !Given(img) {
        return BadRequest;
      }
      if exists i :: 0 <= i < |categories| && categories[i].name == name.value && categories[i].id != id {
        return ServerError;
      }
      var c := Category(id, name.value, img.value);
      categories := categories + [c];
      r := Created(c);
    }

    /** `/edit/:id`: 404 for an unknown id; a name another category carries
        breaks the unique index (500); otherwise the category is updated in
        place. */
    method Edit(id: string, name: Option<string>, img: Option<string>) returns (r: Status)
      requires Valid()
      modifies this
      ensures Valid()
      ensures r == NotFound <==> FindCategory(old(categories), id).None?
      ensures !r.Updated? ==> categories == old(categories)
      ensures r.Updated? ==> r.updated == EditedCategory(FindCategory(old(categories), id).value, name, img) &&
                             categories == ReplaceCategory(old(categories), r.updated)
      ensures FindCategory(old(categories), id).Some? && !r.Updated? ==>
                r == ServerError && name.Some? && NameTaken(old(categories), name.value, id)
    {
      var found := FindCategory(categories, id);
      if found.None? {
        return NotFound;
      }
      var c := EditedCategory(found.value, name, img);
      if exists i :: 0 <= i < |categories| && categories[i].name == c.name && categories[i].id != id {
        return ServerError;
      }
      categories := ReplaceCategory(categories, c);
      r := Updated(c);
    }

    /** `/delete/:id`: 404 for an unknown id, otherwise the category is gone. */
    method Delete(id: string) returns (r: Status)
      requires Valid()
      modifies this
      ensures Valid()
      ensures r == NotFound <==> FindCategory(old(categories), id).None?
      ensures r != NotFound ==> r == Removed && categories == DeleteCategory(old(categories), id) &&
                                FindCategory(categories, id).None?
      ensures r == NotFound ==> categories == old(categories)
    {
      if FindCategory(categories, id).None? {
        return NotFound;
      }
      DeleteKeepsDistinct(categories, id);
      categories := DeleteCategory(categories, id);
      r := Removed;
    }
  }
}
