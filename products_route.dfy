/** The product routes: the upload filter, the parsing of the `sizes` and
    `keptImageIndexes` form fields, add, edit (with the kept-image merge and
    the homepage sync), delete (with its cascade to the homepage collection),
    and the lookup by a list of ids. */
module ProductsRoute {
  import opened Js
  import opened Table
  import opened Models
  import HomepageRoute

  // ---- uploads and form fields ------------------------------------------------------

  /** The file filter admits exactly four image types. */
  function FileFilter(mimetype: string): (r: bool)
    ensures r <==> mimetype == "image/jpeg" || mimetype == "image/png" || mimetype == "image/jpg" || mimetype == "image/gif"
  {
    mimetype in ["image/jpeg", "image/png", "image/jpg", "image/gif"]
  }

  /** `field ? JSON.parse(field) : []`: an absent or empty field is the empty
      list; otherwise the parser's reading, None for a syntax error. */
  function ParseListField<T>(field: Option<string>, parse: string -> Option<seq<T>>): (r: Option<seq<T>>)
    ensures field.None? || field == Some("") ==> r == Some([])
    ensures field.Some? && field.value != "" ==> r == parse(field.value)
  {
    if field.Some? && field.value != "" then parse(field.value) else Some([])
  }

  /** `keptIndexes.map(index => images[index]).filter(Boolean)`: the images at
      the listed indexes, in the listed order; an index out of range reads
      `undefined` and is dropped, a repeated index repeats its image. */
  function KeptImages(images: seq<Image>, idx: seq<int>): (r: seq<Image>)
    ensures |r| <= |idx|
    ensures forall x :: x in r ==> x in images
  {
    if idx == [] then []
    else (if 0 <= idx[0] < |images| then [images[idx[0]]] else []) + KeptImages(images, idx[1..])
  }

  /** With every index in range, the kept images are exactly the indexed ones. */
  lemma {:induction false} KeptImagesInRange(images: seq<Image>, idx: seq<int>)
    requires forall i :: 0 <= i < |idx| ==> 0 <= idx[i] < |images|
    ensures |KeptImages(images, idx)| == |idx|
    ensures forall i :: 0 <= i < |idx| ==> KeptImages(images, idx)[i] == images[idx[i]]
  {
    if idx != [] {
      KeptImagesInRange(images, idx[1..]);
      var r := KeptImages(images, idx);
      assert r == [images[idx[0]]] + KeptImages(images, idx[1..]);
      forall i | 1 <= i < |idx| ensures r[i] == images[idx[i]] {
        assert idx[1..][i - 1] == idx[i];
      }
    }
  }

  /** Out-of-range indexes are skipped: they leave the same images as the
      list without them. */
  lemma {:induction false} KeptImagesSkipsOutOfRange(images: seq<Image>, idx: seq<int>, bad: int)
    requires !(0 <= bad < |images|)
    ensures KeptImages(images, [bad] + idx) == KeptImages(images, idx)
    ensures KeptImages(images, idx + [bad]) == KeptImages(images, idx)
  {
    assert ([bad] + idx)[1..] == idx;
    if idx != [] {
      assert (idx + [bad])[1..] == idx[1..] + [bad];
      KeptImagesSkipsOutOfRange(images, idx[1..], bad);
    } else {
      assert KeptImages(images, [bad]) == [] + KeptImages(images, [bad][1..]);
    }
  }

  // ---- request bodies ----------------------------------------------------------------

  /** The `price` of a form: not sent, a value that casts to a number, or one
      that does not (Mongoose then refuses it with a `CastError`). */
  datatype PriceField = NoPrice | Price(v: int) | Uncastable

  /** The text fields of an add or edit form; None is a field not sent. */
  datatype ProductForm = ProductForm(
    title: Option<string>,
    price: PriceField,
    category: Option<string>,
    description: Option<string>,
    designDetails: Option<string>,
    sizes: Option<string>,
    homepage: Option<string>,
    keptImageIndexes: Option<string>)

  /** The schema's required fields: present, and strings non-empty. */
  predicate RequiredPresent(f: ProductForm) {
    f.title.Some? && f.title.value != "" && f.price.Price? &&
    f.category.Some? && f.category.value != "" &&
    f.description.Some? && f.description.value != "" &&
    f.designDetails.Some? && f.designDetails.value != ""
  }

  predicate OnHomepage(f: ProductForm) {
    f.homepage == Some("true")
  }

  function Or<T>(x: Option<T>, d: T): T {
    if x.Some? then x.value else d
  }

  /** `findByIdAndUpdate(id, updateData)`: the fields sent replace the stored
      ones (an undefined field is left out of the update); sizes and images
      are always replaced. */
  function Edited(p: Product, f: ProductForm, sizes: seq<SizeStock>, images: seq<Image>): (r: Product)
    requires !f.price.Uncastable?
    ensures r.id == p.id && r.stock == p.stock && r.sizes == sizes && r.images == images
    ensures r.title == Or(f.title, p.title)
    ensures r.price == if f.price.Price? then f.price.v else p.price
    ensures r.category == Or(f.category, p.category) && r.description == Or(f.description, p.description)
    ensures r.designDetails == Or(f.designDetails, p.designDetails)
  {
    Product(p.id, Or(f.category, p.category), Or(f.title, p.title), if f.price.Price? then f.price.v else p.price, images,
            Or(f.description, p.description), Or(f.designDetails, p.designDetails), sizes, p.stock)
  }

  /** The product with id `id` replaced by `q`, in place. */
  function Replace(ps: seq<Product>, id: string, q: Product): (r: seq<Product>)
    ensures |r| == |ps|
    ensures forall i :: 0 <= i < |ps| ==> r[i] == if ps[i].id == id then q else ps[i]
  {
    seq(|ps|, i requires 0 <= i < |ps| => if ps[i].id == id then q else ps[i])
  }

  /** The products other than `id`, in order. */
  function Without(ps: seq<Product>, id: string): (r: seq<Product>)
    ensures forall p :: p in r <==> p in ps && p.id != id
    ensures |r| <= |ps|
  {
    if ps == [] then []
    else
      assert forall p :: p in ps <==> p == ps[0] || p in ps[1..];
      (if ps[0].id != id then [ps[0]] else []) + Without(ps[1..], id)
  }

  lemma ReplaceKeepsIds(ps: seq<Product>, id: string, q: Product)
    requires DistinctIds(ps) && q.id == id
    ensures DistinctIds(Replace(ps, id, q))
  {
  }

  lemma {:induction false} WithoutKeepsIds(ps: seq<Product>, id: string)
    requires DistinctIds(ps)
    ensures DistinctIds(Without(ps, id))
  {
    if ps != [] {
      assert DistinctIds(ps[1..]) by {
        forall i, j | 0 <= i < j < |ps[1..]| ensures ps[1..][i].id != ps[1..][j].id {
          assert ps[1..][i] == ps[i + 1] && ps[1..][j] == ps[j + 1];
        }
      }
      WithoutKeepsIds(ps[1..], id);
      var r := Without(ps, id);
      if ps[0].id != id {
        forall j | 1 <= j < |r| ensures r[0].id != r[j].id {
          assert r[j] in Without(ps[1..], id);
          var k :| 0 <= k < |ps[1..]| && ps[1..][k] == r[j];
          assert ps[1..][k] == ps[k + 1];
        }
      }
    }
  }

  // ---- the ids lookup ------------------------------------------------------------------

  datatype IdsResponse = IdsBadRequest | IdsServerError | IdsFound(products: seq<Product>)

  /** `Product.find({_id: {$in: ids}})`: the stored products whose id is in the
      list, in stored order. */
  function WithIds(ps: seq<Product>, ids: seq<string>): (r: seq<Product>)
    ensures forall p :: p in r <==> p in ps && p.id in ids
  {
    if ps == [] then []
    else
      assert forall p :: p in ps <==> p == ps[0] || p in ps[1..];
      (if ps[0].id in ids then [ps[0]] else []) + WithIds(ps[1..], ids)
  }

  function StringElems(es: seq<Json>): (r: Option<seq<string>>)
    ensures r.Some? <==> forall i :: 0 <= i < |es| ==> es[i].JStr?
    ensures r.Some? ==> |r.value| == |es| && forall i :: 0 <= i < |es| ==> es[i] == JStr(r.value[i])
  {
    if es == [] then Some([])
    else if !es[0].JStr? then None
    else
      match StringElems(es[1..])
      case Some(rest) => Some([es[0].s] + rest)
      case None => None
  }

  /** `/ids`: 400 unless `ids` is a non-empty array; an element that is not an
      id string fails the query. */
  function ProductsByIds(ps: seq<Product>, ids: Option<Json>): (r: IdsResponse)
    ensures r == IdsBadRequest <==> !(ids.Some? && ids.value.JArr? && |ids.value.elems| > 0)
    ensures r.IdsFound? ==> exists xs :: StringElems(ids.value.elems) == Some(xs) && r.products == WithIds(ps, xs)
  {
    if !(ids.Some? && ids.value.JArr? && |ids.value.elems| > 0) then IdsBadRequest
    else match StringElems(ids.value.elems)
      case Some(xs) => IdsFound(WithIds(ps, xs))
      case None => IdsServerError
  }

  /** The JSON array of an id list. */
  function IdArray(xs: seq<string>): (r: Json)
    ensures r.JArr? && |r.elems| == |xs| && forall i :: 0 <= i < |xs| ==> r.elems[i] == JStr(xs[i])
  {
    JArr(seq(|xs|, i requires 0 <= i < |xs| => JStr(xs[i])))
  }

  /** A non-empty list of id strings is answered with the products having
      those ids; an empty one is rejected. */
  lemma IdArrayAnswered(ps: seq<Product>, xs: seq<string>)
    ensures |xs| > 0 ==> ProductsByIds(ps, Some(IdArray(xs))) == IdsFound(WithIds(ps, xs))
    ensures |xs| == 0 ==> ProductsByIds(ps, Some(IdArray(xs))) == IdsBadRequest
  {
    var a := IdArray(xs);
    var r := StringElems(a.elems);
    if |xs| > 0 {
      assert r.value == xs;
    }
  }

  // ---- the collection -------------------------------------------------------------------

  datatype Response = BadRequest | NotFound | ServerError | Saved(product: Product) | Deleted

  class ProductStore {
    var products: seq<Product>

    ghost predicate Valid()
      reads this
    {
      DistinctIds(products)
    }

    constructor ()
      ensures Valid() && products == []
    {
      products := [];
    }

    /** `/add`: 400 for unreadable sizes; a form missing a required field fails
        validation (500) and stores nothing; otherwise the product is stored
        with stock 0 and, for `homepage === 'true'`, featured unless it already
        is. */
    method Add(hp: HomepageRoute.HomepageStore, id: string, f: ProductForm, images: seq<Image>,
               parseSizes: string -> Option<seq<SizeStock>>) returns (r: Response)
      requires Valid() && hp.Valid()
      requires forall i :: 0 <= i < |products| ==> products[i].id != id
      modifies this, hp
      ensures Valid() && hp.Valid()
      ensures ParseListField(f.sizes, parseSizes).None? ==> r == BadRequest
      ensures ParseListField(f.sizes, parseSizes).Some? && !RequiredPresent(f) ==> r == ServerError
      ensures !r.Saved? ==> products == old(products) && hp.ids == old(hp.ids)
      ensures r.Saved? <==> ParseListField(f.sizes, parseSizes).Some? && RequiredPresent(f)
      ensures r.Saved? ==>
                r.product == Product(id, f.category.value, f.title.value, f.price.v, images,
                                     f.description.value, f.designDetails.value,
                                     ParseListField(f.sizes, parseSizes).value, 0) &&
                products == old(products) + [r.product]
      ensures r.Saved? && OnHomepage(f) ==> hp.ids == (if id in old(hp.ids) then old(hp.ids) else old(hp.ids) + [id])
      ensures r.Saved? && !OnHomepage(f) ==> hp.ids == old(hp.ids)
    {
      var sizes := ParseListField(f.sizes, parseSizes);
      if sizes.None? {
        return BadRequest;
      }
      if !RequiredPresent(f) {
        return ServerError;
      }
      var p := Product(id, f.category.value, f.title.value, f.price.v, images,
                       f.description.value, f.designDetails.value, sizes.value, 0);
      products := products + [p];
      if OnHomepage(f) && id !in hp.ids {
        var _ := hp.Add(id);
      }
      r := Saved(p);
    }

    /** `/edit/:id`: 400 for unreadable sizes or indexes, 404 for an unknown
        product, all before any write; a price that does not cast makes the
        update throw (500) with nothing written and the homepage untouched;
        otherwise the fields are updated, the images become the kept ones
        followed by the uploads, and the product is featured exactly when
        `homepage === 'true'`. */
    method Edit(hp: HomepageRoute.HomepageStore, id: string, f: ProductForm, uploads: seq<Image>,
                parseSizes: string -> Option<seq<SizeStock>>, parseIndexes: string -> Option<seq<int>>)
      returns (r: Response)
      requires Valid() && hp.Valid()
      modifies this, hp
      ensures Valid() && hp.Valid()
      ensures r == BadRequest <==>
                ParseListField(f.sizes, parseSizes).None? || ParseListField(f.keptImageIndexes, parseIndexes).None?
      ensures r == NotFound <==> r != BadRequest && FindProduct(old(products), id).None?
      ensures r == ServerError <==> r != BadRequest && r != NotFound && f.price.Uncastable?
      ensures r == BadRequest || r == NotFound || r == ServerError ==>
                products == old(products) && hp.ids == old(hp.ids)
      ensures r != BadRequest && r != NotFound && r != ServerError ==>
                var old_p := FindProduct(old(products), id).value;
                var kept := KeptImages(old_p.images, ParseListField(f.keptImageIndexes, parseIndexes).value);
                r == Saved(Edited(old_p, f, ParseListField(f.sizes, parseSizes).value, kept + uploads)) &&
                products == Replace(old(products), id, r.product) &&
                (id in hp.ids <==> OnHomepage(f)) &&
                (forall y :: y != id ==> (y in hp.ids <==> y in old(hp.ids)))
    {
      var sizes := ParseListField(f.sizes, parseSizes);
      if sizes.None? {
        return BadRequest;
      }
      var idx := ParseListField(f.keptImageIndexes, parseIndexes);
      if idx.None? {
        return BadRequest;
      }
      var existing := FindProduct(products, id);
      if existing.None? {
        return NotFound;
      }
      if f.price.Uncastable? {
        return ServerError;
      }
      var kept := KeptImages(existing.value.images, idx.value);
      var q := Edited(existing.value, f, sizes.value, kept + uploads);
      ReplaceKeepsIds(products, id, q);
      products := Replace(products, id, q);
      if OnHomepage(f) && id !in hp.ids {
        var _ := hp.Add(id);
      } else if !OnHomepage(f) && id in hp.ids {
        var _ := hp.Delete(id);
      }
      r := Saved(q);
    }

    /** `/delete/:id`: 404 for an unknown product (nothing changes); otherwise
        the product and its homepage entry are removed. */
    method Delete(hp: HomepageRoute.HomepageStore, id: string) returns (r: Response)
      requires Valid() && hp.Valid()
      modifies this, hp
      ensures Valid() && hp.Valid()
      ensures r == NotFound <==> FindProduct(old(products), id).None?
      ensures r == NotFound ==> products == old(products) && hp.ids == old(hp.ids)
      ensures r != NotFound ==> r == Deleted && products == Without(old(products), id) &&
                                hp.ids == HomepageRoute.RemoveFirst(old(hp.ids), id) && id !in hp.ids
    {
      if FindProduct(products, id).None? {
        return NotFound;
      }
      WithoutKeepsIds(products, id);
      products := Without(products, id);
      var _ := hp.Delete(id);
      r := Deleted;
    }
  }
}
