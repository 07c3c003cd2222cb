/** The stored records of the storefront (products, orders, settings,
    categories, users) as the client and the routes see them. Ids are the hex
    strings of MongoDB object ids; money is whole rupees. */
module Models {
  import opened Js

  /** Stock kept for one size of a product. */
  datatype SizeStock = SizeStock(size: string, stock: int)

  /** An uploaded image; its bytes are carried along, never inspected. */
  datatype Image = Image(data: seq<bv8>)

  /** A product; `stock` is the schema default 0 unless set, and is what an
      unsized product has on hand. */
  datatype Product = Product(
    id: string,
    category: string,
    title: string,
    price: int,
    images: seq<Image>,
    description: string,
    designDetails: string,
    sizes: seq<SizeStock>,
    stock: int)

  /** `sizes.find(s => s.size === size)`: the first entry for that size. */
  function FindSize(sizes: seq<SizeStock>, size: string): (r: Option<SizeStock>)
    ensures r.None? <==> forall i :: 0 <= i < |sizes| ==> sizes[i].size != size
    ensures r.Some? ==> exists i :: 0 <= i < |sizes| && sizes[i] == r.value && r.value.size == size &&
                                    forall j :: 0 <= j < i ==> sizes[j].size != size
  {
    if sizes == [] then None
    else if sizes[0].size == size then Some(sizes[0])
    else FindSize(sizes[1..], size)
  }

  /** Distinct product ids, as in the product collection and in any query on it. */
  predicate DistinctIds(ps: seq<Product>) {
    forall i, j :: 0 <= i < j < |ps| ==> ps[i].id != ps[j].id
  }

  /** `findOne` on one field: the first record whose `key` is `k`. */
  function FindBy<T(==)>(xs: seq<T>, key: T -> string, k: string): (r: Option<T>)
    ensures r.Some? ==> key(r.value) == k && r.value in xs
    ensures r.None? <==> forall i :: 0 <= i < |xs| ==> key(xs[i]) != k
  {
    if xs == [] then None
    else if key(xs[0]) == k then Some(xs[0])
    else FindBy(xs[1..], key, k)
  }

  /** The product with that id among `ps` (`findById`, or a search of the
      products fetched by id). */
  function FindProduct(ps: seq<Product>, id: string): (r: Option<Product>)
    ensures r.Some? ==> r.value.id == id && r.value in ps
    ensures r.None? <==> forall i :: 0 <= i < |ps| ==> ps[i].id != id
  {
    FindBy(ps, (p: Product) => p.id, id)
  }

  /** The contact fields of an order. */
  datatype Customer = Customer(
    firstName: string,
    lastName: string,
    city: string,
    address: string,
    phone: string,
    email: string,
    additionalInfo: string)

  /** One ordered product line: `{productId, quantity, size}`. */
  datatype OrderLine = OrderLine(productId: string, quantity: int, size: string)

  const PENDING: string := "Pending"
  const DELIVERED: string := "Delivered"

  /** The statuses the order schema's enum admits. */
  predicate StatusInEnum(s: string) {
    s == PENDING || s == DELIVERED
  }

  /** A stored order; `createdAt` is a timestamp in milliseconds. */
  datatype Order = Order(
    id: string,
    customer: Customer,
    products: seq<OrderLine>,
    totalAmount: int,
    status: string,
    createdAt: int)

  /** The delivery settings: `threshold` None is null (no free delivery), `fee`
      None is a null or missing fee. */
  datatype Settings = Settings(threshold: Option<int>, fee: Option<int>)

  /** The schema defaults: no threshold, a fee of 250. */
  const DEFAULT_SETTINGS: Settings := Settings(None, Some(250))

  /** A product category (`category` is its unique name) with its picture, as
      the request sent it; the schema stores the picture as a buffer. */
  datatype Category = Category(id: string, name: string, img: string)

  /** An account; `password` holds the bcrypt hash. */
  datatype User = User(id: string, name: string, username: string, email: string, password: string, isAdmin: bool)
}
