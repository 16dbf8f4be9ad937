/** The cashier's cart (client/src/components/Dashboard/KasirDashboard.jsx): a list of
    entries the dashboard's handlers rebuild on every click, the total it shows, and the
    order it posts at checkout. Prices are integer cents. */
module CashierCart {
  import opened Common
  import opened Rows
  import opened ProductModel
  import opened OrderModel
  import opened OrderControllers

  /** A product as the dashboard offers it, with the size the cashier picked (if any). */
  datatype CartProduct = CartProduct(id: int, name: string, size: Option<string>, price: int)

  /** One entry of the cart. */
  datatype CartItem = CartItem(id: int, name: string, size: Option<string>, price: int, quantity: int)

  function CartItemId(item: CartItem): int { item.id }

  /** The size surcharge: 3 of the currency unit, in cents. */
  const SizeStep: int := 300

  /** `sizePriceAdjustment`: "small" is one step cheaper, "large" one step dearer, and
      "medium", any other size or none is the list price. */
  function SizePriceAdjustment(price: int, size: Option<string>): (adjusted: int)
    ensures size == Some("small") ==> adjusted == price - SizeStep
    ensures size == Some("large") ==> adjusted == price + SizeStep
    ensures size != Some("small") && size != Some("large") ==> adjusted == price
  {
    match size
    case Some(s) =>
      if s == "small" then price - SizeStep
      else if s == "large" then price + SizeStep
      else price
    case None => price
  }

  // ---------------------------------------------------------------------------
  // The total

  /** `calculateTotalPrice`: price times quantity, summed over the cart. */
  function TotalPrice(cart: seq<CartItem>): int
  {
    if cart == [] then 0 else cart[0].price * cart[0].quantity + TotalPrice(cart[1..])
  }

  /** The total is never negative when no entry has a negative price or quantity. */
  lemma {:induction false} TotalPriceNonNegative(cart: seq<CartItem>)
    requires forall k :: 0 <= k < |cart| ==> cart[k].price >= 0 && cart[k].quantity >= 0
    ensures TotalPrice(cart) >= 0
  {
    if cart != [] {
      assert forall k :: 0 <= k < |cart[1..]| ==> cart[1..][k] == cart[k + 1];
      TotalPriceNonNegative(cart[1..]);
    }
  }

  /** The total of a cart made of two parts is the sum of their totals. */
  lemma {:induction false} TotalPriceConcat(a: seq<CartItem>, b: seq<CartItem>)
    ensures TotalPrice(a + b) == TotalPrice(a) + TotalPrice(b)
  {
    if a == [] {
      assert a + b == b;
    } else {
      assert (a + b)[0] == a[0] && (a + b)[1..] == a[1..] + b;
      TotalPriceConcat(a[1..], b);
    }
  }

  /** Replacing one entry changes the total by the difference of the two entries' amounts. */
  lemma {:induction false} TotalPriceUpdateAt(cart: seq<CartItem>, k: nat, x: CartItem)
    requires k < |cart|
    ensures TotalPrice(cart[k := x]) == TotalPrice(cart) - cart[k].price * cart[k].quantity + x.price * x.quantity
  {
    if k > 0 {
      assert cart[k := x][1..] == cart[1..][k - 1 := x];
      TotalPriceUpdateAt(cart[1..], k - 1, x);
    } else {
      assert cart[0 := x][1..] == cart[1..];
    }
  }

  /** One more unit of one entry adds that entry's price to the total. */
  lemma OneMoreUnitTotal(cart: seq<CartItem>, k: nat)
    requires k < |cart|
    ensures TotalPrice(cart[k := cart[k].(quantity := cart[k].quantity + 1)]) == TotalPrice(cart) + cart[k].price
  {
    var p, q := cart[k].price, cart[k].quantity;
    TotalPriceUpdateAt(cart, k, cart[k].(quantity := q + 1));
    assert p * (q + 1) == p * q + p;
  }

  /** One unit less of one entry takes that entry's price off the total. */
  lemma OneLessUnitTotal(cart: seq<CartItem>, k: nat)
    requires k < |cart|
    ensures TotalPrice(cart[k := cart[k].(quantity := cart[k].quantity - 1)]) == TotalPrice(cart) - cart[k].price
  {
    var p, q := cart[k].price, cart[k].quantity;
    TotalPriceUpdateAt(cart, k, cart[k].(quantity := q - 1));
    assert p * (q - 1) == p * q - p;
  }

  // ---------------------------------------------------------------------------
  // Adding

  /** `cart.find(item => item.name === product.name && item.size === product.size)`, as a
      yes/no: whether an entry of that name and size exists. */
  predicate HasNameAndSize(cart: seq<CartItem>, name: string, size: Option<string>)
  {
    exists k :: 0 <= k < |cart| && cart[k].name == name && cart[k].size == size
  }

  /** The entry for a product not yet in the cart in that size: quantity 1 at the adjusted price. */
  function NewEntry(product: CartProduct): CartItem
  {
    CartItem(product.id, product.name, product.size, SizePriceAdjustment(product.price, product.size), 1)
  }

  /** `handleAddToCart`: the match is by name and size, but the update is applied to every
      entry with the product's id. Either way an entry with the product's name and size is in
      the cart afterwards (not necessarily one with its id), and no existing entry changes
      which product or size it holds. */
  function AddToCart(cart: seq<CartItem>, product: CartProduct): (after: seq<CartItem>)
    ensures HasNameAndSize(after, product.name, product.size)
    ensures |after| == |cart| || |after| == |cart| + 1
    ensures forall k :: 0 <= k < |cart| ==>
      after[k].id == cart[k].id && after[k].name == cart[k].name && after[k].size == cart[k].size
  {
    var adjusted := SizePriceAdjustment(product.price, product.size);
    if HasNameAndSize(cart, product.name, product.size) then
      var after := seq(|cart|, k requires 0 <= k < |cart| =>
        if cart[k].id == product.id then cart[k].(quantity := cart[k].quantity + 1, price := adjusted) else cart[k]);
      assert forall k :: 0 <= k < |cart| ==> after[k].name == cart[k].name && after[k].size == cart[k].size;
      after
    else
      assert (cart + [NewEntry(product)])[|cart|] == NewEntry(product);
      cart + [NewEntry(product)]
  }

  /** A product not in the cart in that name and size is appended as one new entry, the
      earlier entries are untouched, and the total grows by the adjusted price. */
  lemma AddToCartNewEntry(cart: seq<CartItem>, product: CartProduct)
    requires !HasNameAndSize(cart, product.name, product.size)
    ensures var after := AddToCart(cart, product);
      && |after| == |cart| + 1
      && after[..|cart|] == cart
      && after[|cart|] == CartItem(product.id, product.name, product.size,
                                   SizePriceAdjustment(product.price, product.size), 1)
      && TotalPrice(after) == TotalPrice(cart) + SizePriceAdjustment(product.price, product.size)
  {
    TotalPriceConcat(cart, [NewEntry(product)]);
    assert [NewEntry(product)][1..] == [];
  }

  /** When an entry of that name and size exists, the cart keeps its length, every entry with
      the product's id, whatever its size, gets one more unit at the adjusted price, and the
      entries of other products are untouched. */
  lemma AddToCartExisting(cart: seq<CartItem>, product: CartProduct, k: nat)
    requires HasNameAndSize(cart, product.name, product.size)
    requires k < |cart|
    ensures var after := AddToCart(cart, product);
      && |after| == |cart|
      && (cart[k].id == product.id ==>
            after[k] == cart[k].(quantity := cart[k].quantity + 1, price := SizePriceAdjustment(product.price, product.size)))
      && (cart[k].id != product.id ==> after[k] == cart[k])
  {
  }

  /** The evidently intended `handleAddToCart`: only the entries of that name and size get
      the extra unit and the adjusted price. */
  function AddToCartBySize(cart: seq<CartItem>, product: CartProduct): (after: seq<CartItem>)
    ensures HasNameAndSize(cart, product.name, product.size) ==> |after| == |cart|
    ensures !HasNameAndSize(cart, product.name, product.size) ==> after == cart + [NewEntry(product)]
  {
    var adjusted := SizePriceAdjustment(product.price, product.size);
    if HasNameAndSize(cart, product.name, product.size) then
      seq(|cart|, k requires 0 <= k < |cart| =>
        if cart[k].name == product.name && cart[k].size == product.size
        then cart[k].(quantity := cart[k].quantity + 1, price := adjusted) else cart[k])
    else cart + [NewEntry(product)]
  }

  /** No two entries share a name and a size. */
  ghost predicate OneEntryPerSize(cart: seq<CartItem>)
  {
    forall i, j :: 0 <= i < j < |cart| ==> !(cart[i].name == cart[j].name && cart[i].size == cart[j].size)
  }

  /** Under the intended handler, adding to an entry that already carries the adjusted price
      raises the total by exactly that price and leaves every other entry, other sizes of the
      same product included, untouched. */
  lemma AddToCartBySizeCharges(cart: seq<CartItem>, product: CartProduct, k: nat)
    requires OneEntryPerSize(cart)
    requires k < |cart| && cart[k].name == product.name && cart[k].size == product.size
    requires cart[k].price == SizePriceAdjustment(product.price, product.size)
    ensures TotalPrice(AddToCartBySize(cart, product)) == TotalPrice(cart) + cart[k].price
  {
    AddToCartBySizeAt(cart, product, k);
    OneMoreUnitTotal(cart, k);
  }

  /** With one entry per name and size, the intended handler touches the matching entry only. */
  lemma AddToCartBySizeAt(cart: seq<CartItem>, product: CartProduct, k: nat)
    requires OneEntryPerSize(cart)
    requires k < |cart| && cart[k].name == product.name && cart[k].size == product.size
    requires cart[k].price == SizePriceAdjustment(product.price, product.size)
    ensures AddToCartBySize(cart, product) == cart[k := cart[k].(quantity := cart[k].quantity + 1)]
  {
    var after := AddToCartBySize(cart, product);
    var x := cart[k].(quantity := cart[k].quantity + 1);
    assert HasNameAndSize(cart, product.name, product.size);
    forall j | 0 <= j < |cart| ensures after[j] == cart[k := x][j] {
      if j != k {
        assert !(cart[j].name == product.name && cart[j].size == product.size) by {
          if j < k { assert !(cart[j].name == cart[k].name && cart[j].size == cart[k].size); }
          else { assert !(cart[k].name == cart[j].name && cart[k].size == cart[j].size); }
        }
      }
    }
  }

  /** Adding keeps one entry per name and size under the intended handler. */
  lemma AddToCartBySizeKeepsOneEntry(cart: seq<CartItem>, product: CartProduct)
    requires OneEntryPerSize(cart)
    ensures OneEntryPerSize(AddToCartBySize(cart, product))
  {
    var after := AddToCartBySize(cart, product);
    forall i, j | 0 <= i < j < |after|
      ensures !(after[i].name == after[j].name && after[i].size == after[j].size)
    {
      if j == |cart| {
        assert after[i] == cart[i];
      } else {
        assert after[i].name == cart[i].name && after[i].size == cart[i].size;
        assert after[j].name == cart[j].name && after[j].size == cart[j].size;
      }
    }
  }

  /** As written, adding a small coffee to a cart that holds a small and a large one also
      adds a unit to the large entry and reprices it at the small price. */
  lemma AddToCartRepricesOtherSizes()
    ensures var small := CartItem(7, "Latte", Some("small"), 2200, 1);
      var large := CartItem(7, "Latte", Some("large"), 2800, 1);
      var after := AddToCart([small, large], CartProduct(7, "Latte", Some("small"), 2500));
      && after[1] == CartItem(7, "Latte", Some("large"), 2200, 2)
      && TotalPrice(after) == 8800
      && TotalPrice(AddToCartBySize([small, large], CartProduct(7, "Latte", Some("small"), 2500))) == 7200
  {
    var small := CartItem(7, "Latte", Some("small"), 2200, 1);
    var large := CartItem(7, "Latte", Some("large"), 2800, 1);
    var cart := [small, large];
    var product := CartProduct(7, "Latte", Some("small"), 2500);
    assert cart[0].name == "Latte" && cart[0].size == Some("small");
    var written := AddToCart(cart, product);
    assert written == [small.(quantity := 2), large.(quantity := 2, price := 2200)];
    assert TotalPrice(written[1..]) == 4400 by { assert written[1..][1..] == []; }
    var intended := AddToCartBySize(cart, product);
    assert intended == [small.(quantity := 2), large];
    assert TotalPrice(intended[1..]) == 2800 by { assert intended[1..][1..] == []; }
  }

  // ---------------------------------------------------------------------------
  // Reducing, increasing and removing

  /** `handleRemoveFromCart`: `cart.filter(item => item.id !== id)`; no entry with that id is
      left, and nothing is added. */
  function RemoveFromCart(cart: seq<CartItem>, id: int): (after: seq<CartItem>)
    ensures |after| <= |cart|
    ensures forall k :: 0 <= k < |after| ==> after[k].id != id
  {
    RemoveKey(cart, CartItemId, id)
  }

  /** Every entry with that id goes, the others stay in their relative order, and the total
      drops by the amount of what went. */
  lemma RemoveFromCartEffect(cart: seq<CartItem>, id: int)
    ensures forall x :: x in RemoveFromCart(cart, id) <==> x in cart && x.id != id
    ensures forall a, b :: cart == a + b ==> RemoveFromCart(cart, id) == RemoveFromCart(a, id) + RemoveFromCart(b, id)
    ensures TotalPrice(cart) == TotalPrice(RemoveFromCart(cart, id)) + AmountOf(cart, id)
  {
    forall x ensures x in RemoveFromCart(cart, id) <==> x in cart && x.id != id {
      RemoveKeyMember(cart, CartItemId, id, x);
    }
    forall a, b | cart == a + b ensures RemoveFromCart(cart, id) == RemoveFromCart(a, id) + RemoveFromCart(b, id) {
      RemoveKeyConcat(a, b, CartItemId, id);
    }
    RemoveFromCartTotal(cart, id);
  }

  /** The amount of the entries with that id. */
  function AmountOf(cart: seq<CartItem>, id: int): int
  {
    if cart == [] then 0
    else (if cart[0].id == id then cart[0].price * cart[0].quantity else 0) + AmountOf(cart[1..], id)
  }

  lemma {:induction false} RemoveFromCartTotal(cart: seq<CartItem>, id: int)
    ensures TotalPrice(cart) == TotalPrice(RemoveFromCart(cart, id)) + AmountOf(cart, id)
  {
    if cart != [] {
      RemoveFromCartTotal(cart[1..], id);
      if cart[0].id != id {
        assert RemoveFromCart(cart, id) == [cart[0]] + RemoveFromCart(cart[1..], id);
        TotalPriceConcat([cart[0]], RemoveFromCart(cart[1..], id));
        assert [cart[0]][1..] == [];
      }
    }
  }

  /** The cart with one unit less of every entry with that id. */
  function DecrementAll(cart: seq<CartItem>, id: int): seq<CartItem>
  {
    seq(|cart|, k requires 0 <= k < |cart| =>
      if cart[k].id == id then cart[k].(quantity := cart[k].quantity - 1) else cart[k])
  }

  /** `handleReduceQuantity`: the first entry with that id decides; above one unit every entry
      with that id loses a unit, otherwise all of them are removed. The cart never grows, and
      it either keeps its shape or holds no entry with that id any more. */
  function ReduceQuantity(cart: seq<CartItem>, id: int): (after: seq<CartItem>)
    ensures |after| <= |cart|
    ensures |after| == |cart| || forall k :: 0 <= k < |after| ==> after[k].id != id
  {
    match FindKey(cart, CartItemId, id)
    case Some(first) => if first.quantity > 1 then DecrementAll(cart, id) else RemoveFromCart(cart, id)
    case None => RemoveFromCart(cart, id)
  }

  /** The unit prices of the entries with that id, summed: what one unit less of each costs. */
  function UnitPrices(cart: seq<CartItem>, id: int): int
  {
    if cart == [] then 0
    else (if cart[0].id == id then cart[0].price else 0) + UnitPrices(cart[1..], id)
  }

  /** One unit less of every entry with that id takes their unit prices off the total. */
  lemma {:induction false} DecrementAllTotal(cart: seq<CartItem>, id: int)
    ensures TotalPrice(DecrementAll(cart, id)) == TotalPrice(cart) - UnitPrices(cart, id)
  {
    if cart != [] {
      var after := DecrementAll(cart, id);
      assert after[1..] == DecrementAll(cart[1..], id);
      DecrementAllTotal(cart[1..], id);
      var p, q := cart[0].price, cart[0].quantity;
      assert p * (q - 1) == p * q - p;
    }
  }

  /** The lookup `cart.find(item => item.id === id)` finds the entry `findIndex` points at. */
  lemma {:induction false} FindKeyIsFirstIndex(cart: seq<CartItem>, id: int)
    ensures FindKey(cart, CartItemId, id) == if FirstIndex(cart, id) == -1 then None else Some(cart[FirstIndex(cart, id)])
  {
    if cart != [] && cart[0].id != id {
      FindKeyIsFirstIndex(cart[1..], id);
    }
  }

  /** `handleReduceQuantity` for every cart: the first entry with that id decides for all
      entries with that id, whatever their size. Above one unit, every one of them loses a unit,
      an entry of another size holding a single unit included (it is left at 0), and the total
      drops by their unit prices; at one unit, all of them are removed and the total drops by
      their whole amount; without such an entry the cart stays as it was. */
  lemma ReduceQuantityEffect(cart: seq<CartItem>, id: int)
    ensures var k := FirstIndex(cart, id);
      var after := ReduceQuantity(cart, id);
      && (k == -1 ==> after == cart)
      && (k >= 0 && cart[k].quantity > 1 ==>
            && |after| == |cart|
            && (forall j :: 0 <= j < |cart| && cart[j].id == id ==>
                  after[j] == cart[j].(quantity := cart[j].quantity - 1))
            && (forall j :: 0 <= j < |cart| && cart[j].id != id ==> after[j] == cart[j])
            && TotalPrice(after) == TotalPrice(cart) - UnitPrices(cart, id))
      && (k >= 0 && cart[k].quantity <= 1 ==>
            && after == RemoveFromCart(cart, id)
            && (forall x :: x in after <==> x in cart && x.id != id)
            && TotalPrice(after) == TotalPrice(cart) - AmountOf(cart, id))
  {
    FindKeyIsFirstIndex(cart, id);
    var k := FirstIndex(cart, id);
    if k == -1 {
      RemoveKeyAbsent(cart, CartItemId, id);
    } else if cart[k].quantity > 1 {
      DecrementAllTotal(cart, id);
    } else {
      RemoveFromCartEffect(cart, id);
    }
  }

  /** In the cart [Latte small x3, Latte large x1], reducing the Latte leaves the large entry
      at 0 units; in [Latte small x1, Latte large x3] it empties the cart. */
  lemma ReduceQuantityAcrossSizes()
    ensures var small := CartItem(7, "Latte", Some("small"), 2200, 3);
      var large := CartItem(7, "Latte", Some("large"), 2800, 1);
      && ReduceQuantity([small, large], 7) == [small.(quantity := 2), large.(quantity := 0)]
      && ReduceQuantity([small.(quantity := 1), large.(quantity := 3)], 7) == []
  {
    var small := CartItem(7, "Latte", Some("small"), 2200, 3);
    var large := CartItem(7, "Latte", Some("large"), 2800, 1);
    var c1 := [small, large];
    assert FindKey(c1, CartItemId, 7) == Some(small);
    var d := DecrementAll(c1, 7);
    assert |d| == 2 && d[0] == small.(quantity := 2) && d[1] == large.(quantity := 0);
    assert d == [small.(quantity := 2), large.(quantity := 0)];
    assert ReduceQuantity(c1, 7) == d;
    var c2 := [small.(quantity := 1), large.(quantity := 3)];
    assert FindKey(c2, CartItemId, 7) == Some(c2[0]);
    var rest := c2[1..];
    assert rest[0].id == 7 && rest[1..] == [];
    assert RemoveKey(rest, CartItemId, 7) == RemoveKey(rest[1..], CartItemId, 7) == [];
    assert RemoveFromCart(c2, 7) == RemoveKey(rest, CartItemId, 7);
    assert ReduceQuantity(c2, 7) == RemoveFromCart(c2, 7);
  }

  /** Reducing a product held in one entry of several units takes exactly one unit off the
      total; reducing one held in one entry of a single unit cuts that entry out. */
  lemma ReduceQuantityOneEntry(cart: seq<CartItem>, id: int, k: nat)
    requires k < |cart| && cart[k].id == id
    requires forall j :: 0 <= j < |cart| && j != k ==> cart[j].id != id
    ensures cart[k].quantity > 1 ==>
              && ReduceQuantity(cart, id) == cart[k := cart[k].(quantity := cart[k].quantity - 1)]
              && TotalPrice(ReduceQuantity(cart, id)) == TotalPrice(cart) - cart[k].price
    ensures cart[k].quantity <= 1 ==> ReduceQuantity(cart, id) == cart[..k] + cart[k + 1..]
  {
    var found := FindKey(cart, CartItemId, id);
    var i :| 0 <= i < |cart| && cart[i] == found.value;
    assert i == k;
    var x := cart[k].(quantity := cart[k].quantity - 1);
    if cart[k].quantity > 1 {
      assert DecrementAll(cart, id) == cart[k := x];
      OneLessUnitTotal(cart, k);
    } else {
      RemoveOnlyEntry(cart, id, k);
    }
  }

  /** Filtering out an id held by one entry only cuts that entry out. */
  lemma {:induction false} RemoveOnlyEntry(cart: seq<CartItem>, id: int, k: nat)
    requires k < |cart| && cart[k].id == id
    requires forall j :: 0 <= j < |cart| && j != k ==> cart[j].id != id
    ensures RemoveFromCart(cart, id) == cart[..k] + cart[k + 1..]
  {
    assert cart == cart[..k] + ([cart[k]] + cart[k + 1..]);
    RemoveKeyConcat(cart[..k], [cart[k]] + cart[k + 1..], CartItemId, id);
    RemoveKeyConcat([cart[k]], cart[k + 1..], CartItemId, id);
    RemoveKeyAbsent(cart[..k], CartItemId, id);
    RemoveKeyAbsent(cart[k + 1..], CartItemId, id);
    assert [cart[k]][1..] == [];
  }

  /** `cart.findIndex(cartItem => cartItem.id === id)`: the first position with that id, or -1. */
  function FirstIndex(cart: seq<CartItem>, id: int): (r: int)
    ensures -1 <= r < |cart|
    ensures r >= 0 ==> cart[r].id == id
    ensures forall j :: 0 <= j < |cart| && (r == -1 || j < r) ==> cart[j].id != id
  {
    if cart == [] then -1
    else if cart[0].id == id then 0
    else
      var r := FirstIndex(cart[1..], id);
      if r == -1 then -1 else r + 1
  }

  /** `handleIncreaseQuantity`: copy the cart, find the first entry with that id and give it
      one more unit in place; without such an entry the cart is returned as it was. */
  method IncreaseQuantity(cart: seq<CartItem>, id: int) returns (newCart: seq<CartItem>)
    ensures FirstIndex(cart, id) == -1 ==> newCart == cart
    ensures FirstIndex(cart, id) >= 0 ==>
      var k := FirstIndex(cart, id);
      && newCart == cart[k := cart[k].(quantity := cart[k].quantity + 1)]
      && TotalPrice(newCart) == TotalPrice(cart) + cart[k].price
  {
    var a := new CartItem[|cart|](j requires 0 <= j < |cart| => cart[j]);
    var i := 0;
    while i < a.Length && a[i].id != id
      invariant 0 <= i <= a.Length
      invariant a[..] == cart
      invariant forall j :: 0 <= j < i ==> cart[j].id != id
    {
      i := i + 1;
    }
    if i < a.Length {
      assert i == FirstIndex(cart, id);
      a[i] := a[i].(quantity := a[i].quantity + 1);
      OneMoreUnitTotal(cart, i);
    }
    newCart := a[..];
  }

  // ---------------------------------------------------------------------------
  // Checkout

  /** `handleCheckout`: nothing is sent for an empty cart; otherwise the order body for
      `POST /orders` with user 1, the name typed in, and the cart's `(id, name, price,
      quantity)` entries in cart order. */
  function Checkout(cart: seq<CartItem>, customerName: string): (payload: Option<CreateOrderBody>)
    ensures payload.None? <==> cart == []
    ensures payload.Some? ==>
      && payload.value.userId == Some(1)
      && payload.value.customerName == Some(customerName)
      && payload.value.items.Some? && |payload.value.items.value| == |cart|
      && forall k :: 0 <= k < |cart| ==>
           payload.value.items.value[k] == Line(cart[k].id, cart[k].name, cart[k].price, cart[k].quantity)
  {
    if cart == [] then None
    else
      Some(CreateOrderBody(Some(1), Some(customerName),
                           Some(seq(|cart|, k requires 0 <= k < |cart| =>
                                  Line(cart[k].id, cart[k].name, cart[k].price, cart[k].quantity)))))
  }

  /** A checkout payload passes the server's request check exactly when a customer name was typed. */
  lemma CheckoutPassesOrderCheck(cart: seq<CartItem>, customerName: string)
    requires cart != []
    ensures ValidOrderData(Checkout(cart, customerName).value) <==> customerName != ""
  {
  }

  /** The server charges catalog prices: two carts that agree on ids and quantities, whatever
      the prices, sizes or names they show, place the very same order; the size adjustment
      never reaches the stored total. */
  lemma CheckoutIgnoresCartPrices(t: Tables, products: seq<Product>, cart: seq<CartItem>, other: seq<CartItem>,
                                  customerName: string, now: int)
    requires cart != [] && |other| == |cart|
    requires forall k :: 0 <= k < |cart| ==> other[k].id == cart[k].id && other[k].quantity == cart[k].quantity
    ensures HandleCreateOrder(t, products, Checkout(other, customerName).value, now)
            == HandleCreateOrder(t, products, Checkout(cart, customerName).value, now)
  {
    if customerName != "" {
      CreateIgnoresClientPriceAndName(t, products, 1, customerName, Checkout(cart, customerName).value.items.value,
                                      Checkout(other, customerName).value.items.value, now);
    }
  }
}
