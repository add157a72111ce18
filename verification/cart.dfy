/**
 * The shopping-cart store of `contexts/cart-context.tsx`: a list of line items
 * and the active display currency. Every operation computes the new list from
 * the old one (the pure functions below); `CartStore` holds the state the
 * provider keeps and replaces it on each operation.
 */
module Cart {
  import opened Wrappers
  import opened Seqs
  import opened CurrencyTables

  /** The product snapshot a cart line owns (copied at add time). */
  datatype Product = Product(id: string, name: string, price: real, image: string, category: string,
                             sizes: Option<seq<string>>)

  datatype CartItem = CartItem(id: string, product: Product, quantity: int, size: Option<string>)

  /** Every line has a quantity of at least 1. */
  predicate AllPositive(items: seq<CartItem>) {
    forall k :: 0 <= k < |items| ==> items[k].quantity >= 1
  }

  /** No two lines share an id. */
  predicate UniqueIds(items: seq<CartItem>) {
    forall j, k :: 0 <= j < k < |items| ==> items[j].id != items[k].id
  }

  predicate IsLineFor(item: CartItem, productId: string, size: Option<string>) {
    item.product.id == productId && item.size == size
  }

  /** `items.find(...)` on product id and size: the index of the first matching line. */
  function FindLine(items: seq<CartItem>, productId: string, size: Option<string>): (r: Option<nat>)
    ensures r.Some? ==> r.value < |items| && IsLineFor(items[r.value], productId, size)
    ensures r.Some? ==> forall k :: 0 <= k < r.value ==> !IsLineFor(items[k], productId, size)
    ensures r.None? <==> forall k :: 0 <= k < |items| ==> !IsLineFor(items[k], productId, size)
  {
    if items == [] then None
    else if IsLineFor(items[0], productId, size) then Some(0)
    else match FindLine(items[1..], productId, size)
      case None => None
      case Some(i) => Some(i + 1)
  }

  /** The decimal rendering of a natural number, as a template literal prints it. */
  function Decimal(n: nat): (r: string)
    ensures r != []
    ensures forall i :: 0 <= i < |r| ==> '0' <= r[i] <= '9'
  {
    var digit := ['0' + (n % 10) as char];
    if n < 10 then digit else Decimal(n / 10) + digit
  }

  /** The id of a new line: product id, size (or "no-size") and the add-time stamp. */
  function LineId(productId: string, size: Option<string>, stamp: nat): (id: string)
    ensures |id| > |productId| + 1 && id[..|productId| + 1] == productId + "-"
    ensures '0' <= id[|id| - 1] <= '9'
  {
    var sizePart := if size.Some? && size.value != "" then size.value else "no-size";
    productId + "-" + sizePart + "-" + Decimal(stamp)
  }

  /** The number a string of decimal digits denotes, read most significant digit first. */
  function DigitsValue(s: string): nat
    requires forall i :: 0 <= i < |s| ==> '0' <= s[i] <= '9'
  {
    if s == [] then 0 else DigitsValue(s[..|s| - 1]) * 10 + (s[|s| - 1] - '0') as nat
  }

  /** Reading back the decimal rendering of a number gives the number. */
  lemma {:induction false} DecimalRoundTrip(n: nat)
    ensures DigitsValue(Decimal(n)) == n
    decreases n
  {
    var d := Decimal(n);
    var digit := ['0' + (n % 10) as char];
    if n < 10 {
      assert d == digit && d[..0] == [];
    } else {
      DecimalRoundTrip(n / 10);
      assert d == Decimal(n / 10) + digit;
      assert d[..|d| - 1] == Decimal(n / 10);
    }
  }

  /** Different numbers are rendered differently. */
  lemma DecimalInjective(a: nat, b: nat)
    requires Decimal(a) == Decimal(b)
    ensures a == b
  {
    DecimalRoundTrip(a);
    DecimalRoundTrip(b);
  }

  /** The stamp tells apart two lines of the same product and size added at different times. */
  lemma LineIdStampsDiffer(productId: string, size: Option<string>, t1: nat, t2: nat)
    requires t1 != t2
    ensures LineId(productId, size, t1) != LineId(productId, size, t2)
  {
    var sizePart := if size.Some? && size.value != "" then size.value else "no-size";
    var prefix := productId + "-" + sizePart + "-";
    var id1, id2 := LineId(productId, size, t1), LineId(productId, size, t2);
    assert id1 == prefix + Decimal(t1) && id2 == prefix + Decimal(t2);
    if id1 == id2 {
      assert Decimal(t1) == id1[|prefix|..] == Decimal(t2);
      DecimalInjective(t1, t2);
      assert false;
    }
  }

  /** A missing size and an empty size give the same id, so two lines can share one. */
  lemma EmptyAndMissingSizeShareId(productId: string, stamp: nat)
    ensures LineId(productId, Some(""), stamp) == LineId(productId, None, stamp)
  {
  }

  function IncrementLines(items: seq<CartItem>, id: string): seq<CartItem> {
    seq(|items|, k requires 0 <= k < |items| =>
      if items[k].id == id then items[k].(quantity := items[k].quantity + 1) else items[k])
  }

  /** `addItem`: merge into the first line for (product id, size), or append a new line of quantity 1. */
  function AddedTo(items: seq<CartItem>, product: Product, size: Option<string>, stamp: nat): (r: seq<CartItem>)
    // merge: only quantities change; the found line gains exactly one
    ensures FindLine(items, product.id, size).Some? ==>
      var i := FindLine(items, product.id, size).value;
      && |r| == |items|
      && r[i].quantity == items[i].quantity + 1
      && (forall k :: 0 <= k < |r| ==> r[k].(quantity := items[k].quantity) == items[k])
      && (forall k :: 0 <= k < |r| && items[k].id != items[i].id ==> r[k] == items[k])
      && (forall k :: 0 <= k < |r| && items[k].id == items[i].id ==> r[k].quantity == items[k].quantity + 1)
      && (UniqueIds(items) ==> forall k :: 0 <= k < |r| && k != i ==> r[k] == items[k])
    // append: one new line at the end, earlier lines untouched
    ensures FindLine(items, product.id, size).None? ==>
      && |r| == |items| + 1
      && r[..|items|] == items
      && r[|items|].product == product && r[|items|].size == size && r[|items|].quantity == 1
      && r[|items|].id == LineId(product.id, size, stamp)
    ensures AllPositive(items) ==> AllPositive(r)
  {
    match FindLine(items, product.id, size)
    case Some(i) => IncrementLines(items, items[i].id)
    case None => items + [CartItem(LineId(product.id, size, stamp), product, 1, size)]
  }

  /** The filter callback of `removeItem`: keep lines whose id differs from `id`. */
  function OtherId(id: string): CartItem -> bool {
    (item: CartItem) => item.id != id
  }

  /** `removeItem`: `items.filter(item => item.id !== id)`. */
  function RemoveLines(items: seq<CartItem>, id: string): (r: seq<CartItem>)
    ensures forall k :: 0 <= k < |r| ==> r[k].id != id && r[k] in items
    ensures forall k :: 0 <= k < |items| && items[k].id != id ==> items[k] in r
    ensures (forall k :: 0 <= k < |items| ==> items[k].id != id) ==> r == items
    ensures AllPositive(items) ==> AllPositive(r)
  {
    assert (forall k :: 0 <= k < |items| ==> items[k].id != id) ==> Filter(items, OtherId(id)) == items by {
      if forall k :: 0 <= k < |items| ==> items[k].id != id {
        FilterKeepsAll(items, OtherId(id));
      }
    }
    FilterKeepsPassing(items, OtherId(id));
    Filter(items, OtherId(id))
  }

  /** Removing keeps the other lines in their order: it distributes over concatenation. */
  lemma RemoveLinesAppend(a: seq<CartItem>, b: seq<CartItem>, id: string)
    ensures RemoveLines(a + b, id) == RemoveLines(a, id) + RemoveLines(b, id)
  {
    FilterAppend(a, b, OtherId(id));
  }

  /** Removing drops every copy of a line with the id and keeps every other line as often as it was there. */
  lemma RemoveLinesCounts(items: seq<CartItem>, id: string, x: CartItem)
    ensures multiset(RemoveLines(items, id))[x] == if x.id == id then 0 else multiset(items)[x]
  {
    FilterCount(items, OtherId(id), x);
  }

  function SetQuantity(items: seq<CartItem>, id: string, quantity: int): seq<CartItem> {
    seq(|items|, k requires 0 <= k < |items| =>
      if items[k].id == id then items[k].(quantity := quantity) else items[k])
  }

  /** `updateQuantity`: remove on a quantity of zero or less, otherwise set it exactly. */
  function UpdatedQuantity(items: seq<CartItem>, id: string, quantity: int): (r: seq<CartItem>)
    ensures quantity <= 0 ==> r == RemoveLines(items, id)
    ensures quantity > 0 ==>
      && |r| == |items|
      && (forall k :: 0 <= k < |r| && items[k].id == id ==> r[k] == items[k].(quantity := quantity))
      && (forall k :: 0 <= k < |r| && items[k].id != id ==> r[k] == items[k])
    ensures (forall k :: 0 <= k < |items| ==> items[k].id != id) ==> r == items
    ensures AllPositive(items) ==> AllPositive(r)
  {
    if quantity <= 0 then RemoveLines(items, id) else SetQuantity(items, id, quantity)
  }

  /** `getTotalItems`: `items.reduce((total, item) => total + item.quantity, 0)`. */
  function TotalItems(items: seq<CartItem>): (n: int)
    ensures AllPositive(items) ==> n >= |items|
  {
    if items == [] then 0 else TotalItems(items[..|items| - 1]) + items[|items| - 1].quantity
  }

  /** `getTotalPrice`: the sum of price × quantity × rate, folded from the left. */
  function TotalPrice(items: seq<CartItem>, rate: real): (t: real)
    // no negative total from non-negative prices, quantities and rate
    ensures rate >= 0.0 && (forall k :: 0 <= k < |items| ==> items[k].product.price >= 0.0 && items[k].quantity >= 0)
            ==> t >= 0.0
  {
    if items == [] then 0.0
    else
      var last := items[|items| - 1];
      var front := items[..|items| - 1];
      assert forall k :: 0 <= k < |front| ==> front[k] == items[k];
      var lineBase := last.product.price * (last.quantity as real);
      assert last.product.price >= 0.0 && last.quantity >= 0 ==> lineBase >= 0.0;
      assert lineBase >= 0.0 && rate >= 0.0 ==> lineBase * rate >= 0.0;
      TotalPrice(front, rate) + lineBase * rate
  }

  /** Resolution of a detected country code: its mapped currency, US dollars when unmapped. */
  function ResolveCurrency(countryCode: string): (c: Currency)
    ensures countryCode in CountryCurrencyMap ==> c == Currencies[CountryCurrencyMap[countryCode]]
    ensures countryCode !in CountryCurrencyMap ==> c == Currencies["USD"] && c.code == "USD"
    ensures c.code in Currencies && Currencies[c.code] == c && c.rate > 0.0
  {
    CountryMapIsClosed();
    CodesMatchKeys();
    RatesArePositive();
    var code := if countryCode in CountryCurrencyMap && CountryCurrencyMap[countryCode] != ""
                then CountryCurrencyMap[countryCode] else "USD";
    Currencies[code]
  }

  // ---------------------------------------------------------------------------
  // Properties relating several operations
  // ---------------------------------------------------------------------------

  lemma {:induction false} TotalItemsAppend(a: seq<CartItem>, b: seq<CartItem>)
    ensures TotalItems(a + b) == TotalItems(a) + TotalItems(b)
    decreases |b|
  {
    if b != [] {
      assert (a + b)[..|a + b| - 1] == a + b[..|b| - 1];
      TotalItemsAppend(a, b[..|b| - 1]);
    } else {
      assert a + b == a;
    }
  }

  lemma TotalItemsSingle(x: CartItem)
    ensures TotalItems([x]) == x.quantity
  {
    assert [x][..0] == [];
  }

  /** Splitting the list around one line. */
  lemma TotalItemsAround(items: seq<CartItem>, i: nat)
    requires i < |items|
    ensures TotalItems(items) == TotalItems(items[..i]) + items[i].quantity + TotalItems(items[i + 1..])
  {
    var front, mid, back := items[..i], [items[i]], items[i + 1..];
    assert items == (front + mid) + back;
    TotalItemsAppend(front + mid, back);
    TotalItemsAppend(front, mid);
    TotalItemsSingle(items[i]);
  }

  /** With unique ids, adding a product raises the item count by exactly one. */
  lemma AddRaisesTotalByOne(items: seq<CartItem>, product: Product, size: Option<string>, stamp: nat)
    requires UniqueIds(items)
    ensures TotalItems(AddedTo(items, product, size, stamp)) == TotalItems(items) + 1
  {
    var r := AddedTo(items, product, size, stamp);
    var found := FindLine(items, product.id, size);
    if found.Some? {
      var i := found.value;
      assert |r| == |items|;
      assert r[..i] == items[..i] by {
        forall k | 0 <= k < i ensures r[k] == items[k] { }
      }
      assert r[i + 1..] == items[i + 1..] by {
        forall k | i + 1 <= k < |items| ensures r[k] == items[k] { }
      }
      TotalItemsAround(items, i);
      TotalItemsAround(r, i);
    } else {
      var line := r[|items|];
      assert r == items + [line];
      TotalItemsAppend(items, [line]);
      TotalItemsSingle(line);
    }
  }

  /** With unique ids, removing a present line deletes exactly that position and keeps the order. */
  lemma RemoveUniqueLine(items: seq<CartItem>, j: nat)
    requires UniqueIds(items) && j < |items|
    ensures RemoveLines(items, items[j].id) == items[..j] + items[j + 1..]
  {
    var p := OtherId(items[j].id);
    var front, back := items[..j], items[j + 1..];
    var tail := [items[j]] + back;
    assert items == front + tail;
    assert Filter(front, p) == front by {
      forall i | 0 <= i < |front| ensures p(front[i]) {
        assert front[i] == items[i];
      }
      FilterKeepsAll(front, p);
    }
    assert Filter(back, p) == back by {
      forall i | 0 <= i < |back| ensures p(back[i]) {
        assert back[i] == items[j + 1 + i];
      }
      FilterKeepsAll(back, p);
    }
    assert Filter(tail, p) == Filter(back, p) by {
      assert tail[1..] == back;
      assert !p(tail[0]);
    }
    FilterAppend(front, tail, p);
  }

  /** With unique ids, removing a present line lowers the item count by that line's quantity. */
  lemma RemoveLowersTotal(items: seq<CartItem>, j: nat)
    requires UniqueIds(items) && j < |items|
    ensures TotalItems(RemoveLines(items, items[j].id)) == TotalItems(items) - items[j].quantity
  {
    RemoveUniqueLine(items, j);
    TotalItemsAround(items, j);
    TotalItemsAppend(items[..j], items[j + 1..]);
  }

  /** Adding the same product and size twice to a cart without such a line gives one line of quantity 2. */
  lemma AddTwiceMerges(items: seq<CartItem>, product: Product, size: Option<string>, t1: nat, t2: nat)
    requires FindLine(items, product.id, size).None?
    requires forall k :: 0 <= k < |items| ==> items[k].id != LineId(product.id, size, t1)
    ensures var r := AddedTo(AddedTo(items, product, size, t1), product, size, t2);
      |r| == |items| + 1 && r[..|items|] == items && r[|items|].quantity == 2 && r[|items|].size == size
  {
    var once := AddedTo(items, product, size, t1);
    assert FindLine(once, product.id, size) == Some(|items|) by {
      assert IsLineFor(once[|items|], product.id, size);
      assert forall k :: 0 <= k < |items| ==> once[k] == items[k];
    }
    var twice := AddedTo(once, product, size, t2);
    assert twice == IncrementLines(once, LineId(product.id, size, t1));
    forall k | 0 <= k < |items|
      ensures twice[k] == items[k]
    {
      assert once[k] == items[k];
    }
  }

  /** The same product in two different sizes makes two lines. */
  lemma AddTwoSizesMakesTwoLines(items: seq<CartItem>, product: Product, s1: Option<string>, s2: Option<string>,
                                 t1: nat, t2: nat)
    requires s1 != s2
    requires FindLine(items, product.id, s1).None? && FindLine(items, product.id, s2).None?
    ensures var r := AddedTo(AddedTo(items, product, s1, t1), product, s2, t2);
      |r| == |items| + 2 && r[|items|].size == s1 && r[|items| + 1].size == s2
      && r[|items|].quantity == 1 && r[|items| + 1].quantity == 1
  {
    var once := AddedTo(items, product, s1, t1);
    assert FindLine(once, product.id, s2).None? by {
      assert forall k :: 0 <= k < |items| ==> once[k] == items[k];
    }
  }

  /** The total price is the rate times the total in base units: the currency never touches item prices. */
  lemma {:induction false} TotalPriceScales(items: seq<CartItem>, rate: real)
    ensures TotalPrice(items, rate) == rate * TotalPrice(items, 1.0)
    decreases |items|
  {
    if items != [] {
      var init := items[..|items| - 1];
      var last := items[|items| - 1];
      TotalPriceScales(init, rate);
      var a := last.product.price * (last.quantity as real);
      assert a * rate == rate * (a * 1.0);
    }
  }

  /** A single line at the base rate costs price × quantity. */
  lemma SingleLinePrice(x: CartItem)
    ensures TotalPrice([x], 1.0) == x.product.price * (x.quantity as real)
  {
    assert [x][..0] == [];
  }

  // ---------------------------------------------------------------------------
  // The provider's state
  // ---------------------------------------------------------------------------

  class CartStore {
    var items: seq<CartItem>
    var currency: Currency
    var isOpen: bool

    ghost predicate Valid()
      reads this
    {
      AllPositive(items)
    }

    /** The provider's initial state: empty, US dollars, sidebar closed. */
    constructor ()
      ensures items == [] && currency == Currencies["USD"] && !isOpen
      ensures Valid()
    {
      items := [];
      currency := Currencies["USD"];
      isOpen := false;
    }

    /** The mount effect: adopt the stored list and currency; ask for detection when no currency was stored. */
    method Hydrate(savedCart: Option<seq<CartItem>>, savedCurrency: Option<Currency>) returns (detect: bool)
      modifies this`items, this`currency
      ensures items == savedCart.GetOr(old(items))
      ensures currency == savedCurrency.GetOr(old(currency))
      ensures detect <==> savedCurrency.None?
    {
      if savedCart.Some? {
        items := savedCart.value;
      }
      detect := savedCurrency.None?;
      if !detect {
        currency := savedCurrency.value;
      }
    }

    /** The detection callback: the resolved currency for the detected country. */
    method ApplyDetectedCountry(countryCode: string)
      modifies this`currency
      ensures currency == ResolveCurrency(countryCode)
      ensures currency.code in Currencies && currency.rate > 0.0
    {
      currency := ResolveCurrency(countryCode);
    }

    method AddItem(product: Product, size: Option<string>, stamp: nat)
      modifies this`items
      ensures items == AddedTo(old(items), product, size, stamp)
      ensures old(Valid()) ==> Valid()
      ensures old(UniqueIds(items)) ==> TotalItems(items) == old(TotalItems(items)) + 1
    {
      if UniqueIds(items) {
        AddRaisesTotalByOne(items, product, size, stamp);
      }
      items := AddedTo(items, product, size, stamp);
    }

    method RemoveItem(id: string)
      modifies this`items
      ensures items == RemoveLines(old(items), id)
      ensures old(Valid()) ==> Valid()
    {
      items := RemoveLines(items, id);
    }

    method UpdateQuantity(id: string, quantity: int)
      modifies this`items
      ensures items == UpdatedQuantity(old(items), id, quantity)
      ensures quantity <= 0 ==> items == RemoveLines(old(items), id)
      ensures old(Valid()) ==> Valid()
    {
      if quantity <= 0 {
        RemoveItem(id);
        return;
      }
      items := SetQuantity(items, id, quantity);
    }

    method ClearCart()
      modifies this`items
      ensures items == []
      ensures TotalItems(items) == 0 && TotalPrice(items, currency.rate) == 0.0
      ensures Valid()
    {
      items := [];
    }

    method SetIsOpen(open: bool)
      modifies this`isOpen
      ensures isOpen == open
    {
      isOpen := open;
    }

    function GetTotalItems(): (n: int)
      reads this
      ensures Valid() ==> n >= |items|
    {
      TotalItems(items)
    }

    function GetTotalPrice(): (t: real)
      reads this
      ensures t == currency.rate * TotalPrice(items, 1.0)
    {
      TotalPriceScales(items, currency.rate);
      TotalPrice(items, currency.rate)
    }
  }
}
