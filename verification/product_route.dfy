/**
 * The `POST` handler of `app/api/products/route.ts`: required-field guards,
 * then a product record built from the JSON body with defaults, handed to the
 * database's `createProduct`.
 */
module ProductRoute {
  import opened Wrappers
  import opened Products

  /** The JSON body's fields; `None` is an absent or `null` field. */
  datatype ProductBody = ProductBody(
    name: Option<string>,
    description: Option<string>,
    price: Option<real>,
    category: Option<string>,
    colors: Option<seq<string>>,
    sizes: Option<seq<string>>,
    images: Option<seq<string>>,
    discountPercentage: Option<real>)

  /** The request as `request.json()` sees it. */
  datatype Request = MalformedJson | Json(body: ProductBody)

  /** The record handed to `createProduct`. */
  datatype NewProduct = NewProduct(
    name: string,
    slug: string,
    description: string,
    price: real,
    category: string,
    colors: seq<string>,
    sizes: seq<string>,
    images: seq<string>,
    discountPercentage: real,
    discountedPrice: real,
    inStock: bool)

  /** A stored row as the database returns it. */
  datatype StoredProduct = StoredProduct(id: string, product: NewProduct)

  /** What `createProduct` does when called: return the stored row, or throw. */
  datatype CreateOutcome = Stored(row: StoredProduct) | Threw

  datatype Reply =
    | Created(row: StoredProduct)   // 201
    | MissingFields                 // 400 "Missing required fields"
    | Failed                        // 500 "Failed to create product"
  {
    function Status(): int {
      match this
      case Created(_) => 201
      case MissingFields => 400
      case Failed => 500
    }
  }

  /** The reply and the record `createProduct` was called with, if it was called at all. */
  datatype Handled = Handled(reply: Reply, created: Option<NewProduct>)

  /** JavaScript truthiness of the three required fields: absent, "" and 0 are falsy. */
  predicate HasRequiredFields(body: ProductBody) {
    && body.name.Some? && body.name.value != ""
    && body.price.Some? && body.price.value != 0.0
    && body.category.Some? && body.category.value != ""
  }

  /** The object literal passed to `createProduct`, with its `||` defaults. */
  function NewProductRecord(body: ProductBody): (p: NewProduct)
    requires HasRequiredFields(body)
    ensures p.slug == GenerateSlug(p.name) && IsSlug(p.slug)
    ensures p.name == body.name.value && p.price == body.price.value && p.category == body.category.value
    ensures p.discountPercentage == body.discountPercentage.GetOr(0.0)
    ensures p.discountedPrice == DiscountedPrice(p.price, p.discountPercentage)
    ensures body.discountPercentage.None? ==> p.discountedPrice == p.price
    ensures p.description == body.description.GetOr("")
    ensures p.colors == body.colors.GetOr([]) && p.sizes == body.sizes.GetOr([]) && p.images == body.images.GetOr([])
    ensures p.inStock
  {
    var name := body.name.value;
    var price := body.price.value;
    var discount := if body.discountPercentage.Some? && body.discountPercentage.value != 0.0
                    then body.discountPercentage.value else 0.0;
    NewProduct(
      name := name,
      slug := GenerateSlug(name),
      description := if body.description.Some? && body.description.value != "" then body.description.value else "",
      price := price,
      category := body.category.value,
      colors := if body.colors.Some? then body.colors.value else [],
      sizes := if body.sizes.Some? then body.sizes.value else [],
      images := if body.images.Some? then body.images.value else [],
      discountPercentage := discount,
      discountedPrice := DiscountedPrice(price, discount),
      inStock := true)
  }

  /** The handler: guard, build, create; every thrown error becomes a 500. */
  function Post(request: Request, db: CreateOutcome): (h: Handled)
    ensures request.MalformedJson? ==> h.reply == Failed && h.created.None?
    ensures request.Json? && !HasRequiredFields(request.body) ==>
      h.reply == MissingFields && h.reply.Status() == 400 && h.created.None?
    ensures request.Json? && HasRequiredFields(request.body) ==>
      && h.created == Some(NewProductRecord(request.body))
      && (db.Stored? ==> h.reply == Created(db.row) && h.reply.Status() == 201)
      && (db.Threw? ==> h.reply == Failed && h.reply.Status() == 500)
    ensures h.created.Some? ==> request.Json? && HasRequiredFields(request.body)
    ensures h.created.Some? ==> h.created.value.inStock && IsSlug(h.created.value.slug)
    ensures h.reply.Created? ==> h.created.Some?
  {
    match request
    case MalformedJson => Handled(Failed, None)
    case Json(body) =>
      if !HasRequiredFields(body) then Handled(MissingFields, None)
      else
        var record := NewProductRecord(body);
        match db
        case Stored(row) => Handled(Created(row), Some(record))
        case Threw => Handled(Failed, Some(record))
  }

  /** A price of 0 counts as missing: nothing is created. */
  lemma ZeroPriceIsRejected(body: ProductBody, db: CreateOutcome)
    requires body.price == Some(0.0)
    ensures Post(Json(body), db) == Handled(MissingFields, None)
  {
  }

  /** Price 100 with a 20% discount is stored as 80. */
  lemma TwentyPercentOffHundred(body: ProductBody)
    requires HasRequiredFields(body) && body.price == Some(100.0) && body.discountPercentage == Some(20.0)
    ensures NewProductRecord(body).discountedPrice == 80.0
  {
  }
}
