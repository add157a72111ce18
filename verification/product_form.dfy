/**
 * The admin product form of `components/forms/product-form.tsx`: its initial
 * field values, the colour/size checkbox updaters, the discounted-price
 * preview and the submit handler with its "at least one image" guard.
 */
module ProductForm {
  import opened Wrappers
  import opened Seqs
  import Products
  import ProductRoute

  /** The product being edited, as loaded; `None` fields are absent or `null`. */
  datatype AdminProduct = AdminProduct(
    name: Option<string>,
    description: Option<string>,
    price: Option<real>,
    category: Option<string>,
    colors: Option<seq<string>>,
    sizes: Option<seq<string>>,
    images: Option<seq<string>>,
    discountPercentage: Option<real>,
    inStock: Option<bool>)

  datatype FormData = FormData(
    name: string,
    description: string,
    price: real,
    category: string,
    colors: seq<string>,
    sizes: seq<string>,
    images: seq<string>,
    discountPercentage: real,
    inStock: bool)

  /** `x || ""` on an optional string. */
  function OrEmpty(s: Option<string>): string {
    if s.Some? && s.value != "" then s.value else ""
  }

  /** `x || 0` on an optional number. */
  function OrZero(x: Option<real>): real {
    if x.Some? && x.value != 0.0 then x.value else 0.0
  }

  /** `x || []` on an optional list (an empty list is truthy). */
  function OrNone(xs: Option<seq<string>>): seq<string> {
    if xs.Some? then xs.value else []
  }

  /** The `useState` initialiser: `||` defaults everywhere except `in_stock`, which uses `??`. */
  function InitialFormData(product: Option<AdminProduct>): (f: FormData)
    ensures product.None? ==> f == FormData("", "", 0.0, "", [], [], [], 0.0, true)
    ensures product.Some? ==>
      var p := product.value;
      && f.name == p.name.GetOr("") && f.description == p.description.GetOr("")
      && f.price == p.price.GetOr(0.0) && f.category == p.category.GetOr("")
      && f.colors == p.colors.GetOr([]) && f.sizes == p.sizes.GetOr([]) && f.images == p.images.GetOr([])
      && f.discountPercentage == p.discountPercentage.GetOr(0.0)
    // `??`: an existing value, false included, is kept; only an absent one defaults to true
    ensures product.Some? && product.value.inStock.Some? ==> f.inStock == product.value.inStock.value
    ensures product.None? || product.value.inStock.None? ==> f.inStock
  {
    if product.None? then FormData("", "", 0.0, "", [], [], [], 0.0, true)
    else
      var p := product.value;
      FormData(OrEmpty(p.name), OrEmpty(p.description), OrZero(p.price), OrEmpty(p.category),
               OrNone(p.colors), OrNone(p.sizes), OrNone(p.images), OrZero(p.discountPercentage),
               if p.inStock.Some? then p.inStock.value else true)
  }

  /** The filter callback of an unchecked box: keep the entries different from `x`. */
  function DifferentFrom(x: string): string -> bool {
    (y: string) => y != x
  }

  /** `list.filter(y => y !== x)` */
  function RemoveAll(list: seq<string>, x: string): seq<string> {
    Filter(list, DifferentFrom(x))
  }

  /** The checkbox updater: checking appends (no de-duplication); unchecking drops every occurrence. */
  function Toggled(list: seq<string>, x: string, checked: bool): (r: seq<string>)
    ensures checked ==> |r| == |list| + 1 && r[..|list|] == list && r[|list|] == x
    ensures !checked ==> x !in r && |r| <= |list|
    ensures !checked ==> forall i :: 0 <= i < |list| && list[i] != x ==> list[i] in r
    ensures !checked ==> forall i :: 0 <= i < |r| ==> r[i] in list
  {
    if checked then list + [x] else FilterKeepsPassing(list, DifferentFrom(x)); RemoveAll(list, x)
  }

  /** Unchecking removes every copy of `x` and keeps every other entry as often as it was there. */
  lemma {:induction false} RemoveAllMultiset(list: seq<string>, x: string)
    ensures multiset(RemoveAll(list, x)) == multiset(list)[x := 0]
  {
    if list != [] {
      RemoveAllMultiset(list[1..], x);
      assert list == [list[0]] + list[1..];
      assert multiset(list) == multiset{list[0]} + multiset(list[1..]);
      var head := if list[0] != x then [list[0]] else [];
      assert RemoveAll(list, x) == head + RemoveAll(list[1..], x);
      assert multiset(RemoveAll(list, x)) == multiset(head) + multiset(list[1..])[x := 0];
    }
  }

  /** Unchecking keeps the other entries in their order: it distributes over concatenation. */
  lemma RemoveAllKeepsOrder(a: seq<string>, b: seq<string>, x: string)
    ensures RemoveAll(a + b, x) == RemoveAll(a, x) + RemoveAll(b, x)
  {
    FilterAppend(a, b, DifferentFrom(x));
  }

  /** Unchecking a value that is not in the list changes nothing. */
  lemma RemoveAllAbsent(list: seq<string>, x: string)
    requires x !in list
    ensures RemoveAll(list, x) == list
  {
    FilterKeepsAll(list, DifferentFrom(x));
  }

  /** The preview shown under the discount field. */
  function DiscountedPreview(f: FormData): (d: real)
    ensures f.discountPercentage == 0.0 ==> d == f.price
    ensures f.price >= 0.0 && 0.0 <= f.discountPercentage <= 100.0 ==> 0.0 <= d <= f.price
  {
    Products.DiscountedPrice(f.price, f.discountPercentage)
  }

  /** `JSON.stringify(formData)` as the new-product page posts it: every field is present. */
  function PostedBody(f: FormData): ProductRoute.ProductBody {
    ProductRoute.ProductBody(Some(f.name), Some(f.description), Some(f.price), Some(f.category),
                             Some(f.colors), Some(f.sizes), Some(f.images), Some(f.discountPercentage))
  }

  /**
   * A form the create route accepts is stored with the price its preview showed and
   * the lists it held; its `in_stock` box is ignored, the product is created in stock.
   */
  lemma PostedFormIsStoredAsPreviewed(f: FormData)
    requires f.name != "" && f.price != 0.0 && f.category != ""
    ensures ProductRoute.HasRequiredFields(PostedBody(f))
    ensures var p := ProductRoute.NewProductRecord(PostedBody(f));
      && p.discountedPrice == DiscountedPreview(f)
      && p.colors == f.colors && p.sizes == f.sizes && p.images == f.images
      && p.slug == Products.GenerateSlug(f.name)
      && p.inStock
  {
  }

  datatype Submission = Submission(data: FormData, loadingWhileSaving: bool)

  /** The toast a submit ends with, and where a successful save navigates. */
  datatype SubmitOutcome =
    | NeedsImage(description: string)
    | Saved(description: string, redirect: string)
    | SaveFailed(description: string)

  const NeedsImageMessage: string := "Please add at least one product image"

  /** The component's state: the form fields, the `loading` flag and the payloads given to `onSubmit`. */
  class ProductFormComponent {
    const editing: bool
    var formData: FormData
    var loading: bool
    var submissions: seq<Submission>

    constructor (product: Option<AdminProduct>)
      ensures editing == product.Some?
      ensures formData == InitialFormData(product) && !loading && submissions == []
    {
      editing := product.Some?;
      formData := InitialFormData(product);
      loading := false;
      submissions := [];
    }

    /** `handleColorChange`: only `colors` changes. */
    method HandleColorChange(color: string, checked: bool)
      modifies this`formData
      ensures formData == old(formData).(colors := Toggled(old(formData).colors, color, checked))
    {
      formData := formData.(colors := Toggled(formData.colors, color, checked));
    }

    /** `handleSizeChange`: only `sizes` changes. */
    method HandleSizeChange(size: string, checked: bool)
      modifies this`formData
      ensures formData == old(formData).(sizes := Toggled(old(formData).sizes, size, checked))
    {
      formData := formData.(sizes := Toggled(formData.sizes, size, checked));
    }

    /**
     * `handleSubmit`, with the awaited `onSubmit` reduced to whether it resolves.
     * Without images nothing is submitted and `loading` is untouched; otherwise the
     * form is submitted while `loading` is true, and `loading` is false afterwards.
     */
    method HandleSubmit(saveSucceeds: bool) returns (outcome: SubmitOutcome)
      modifies this`loading, this`submissions
      ensures old(formData.images) == [] ==>
        outcome == NeedsImage(NeedsImageMessage) && loading == old(loading) && submissions == old(submissions)
      ensures old(formData.images) != [] ==>
        && submissions == old(submissions) + [Submission(formData, true)]
        && !loading
        && outcome == if saveSucceeds
                      then Saved("Product " + (if editing then "updated" else "created") + " successfully",
                                 "/admin/products")
                      else SaveFailed("Failed to " + (if editing then "update" else "create") + " product")
    {
      if |formData.images| == 0 {
        outcome := NeedsImage(NeedsImageMessage);
        return;
      }
      loading := true;
      submissions := submissions + [Submission(formData, loading)];
      if saveSucceeds {
        outcome := Saved("Product " + (if editing then "updated" else "created") + " successfully",
                         "/admin/products");
      } else {
        outcome := SaveFailed("Failed to " + (if editing then "update" else "create") + " product");
      }
      loading := false;
    }
  }
}
