/** The customer-side cart and checkout: two storage slots, the cart and
    the customer's orders. Cart lines are keyed by product id; checkout
    turns the whole cart into one pending order. */
module CustomerStore {
  import opened Wrappers
  import opened JsStrings
  import opened Seqs
  import opened Data
  import OrderCode

  /** Storage slots: None when absent or unreadable. */
  type CartSlot = Option<seq<CartItem>>
  type OrdersSlot = Option<seq<CustomerOrder>>

  /** `getCart`: the stored cart; an absent or unreadable slot is an empty cart. */
  function GetCart(slot: CartSlot): (cart: seq<CartItem>)
    ensures slot.None? ==> cart == []
    ensures slot.Some? ==> cart == slot.value
  {
    slot.GetOr([])
  }

  function SaveCart(cart: seq<CartItem>): (slot: CartSlot)
    ensures GetCart(slot) == cart
  {
    Some(cart)
  }

  /** `getOrders`: the stored orders; an absent or unreadable slot holds none. */
  function GetOrders(slot: OrdersSlot): (orders: seq<CustomerOrder>)
    ensures slot.None? ==> orders == []
    ensures slot.Some? ==> orders == slot.value
  {
    slot.GetOr([])
  }

  function SaveOrders(orders: seq<CustomerOrder>): (slot: OrdersSlot)
    ensures GetOrders(slot) == orders
  {
    Some(orders)
  }

  /** At most one cart line per product. */
  predicate OneLinePerProduct(cart: seq<CartItem>)
  {
    forall i, j :: 0 <= i < j < |cart| ==> cart[i].product.id != cart[j].product.id
  }

  predicate QuantitiesPositive(cart: seq<CartItem>)
  {
    forall i :: 0 <= i < |cart| ==> cart[i].quantity > 0
  }

  /** The position of the first cart line for the product, if any. */
  function FindItem(cart: seq<CartItem>, productId: string): (r: Option<nat>)
    ensures r.Some? ==> r.value < |cart| && cart[r.value].product.id == productId
    ensures r.Some? ==> forall j :: 0 <= j < r.value ==> cart[j].product.id != productId
    ensures r.None? ==> forall j :: 0 <= j < |cart| ==> cart[j].product.id != productId
  {
    if |cart| == 0 then None
    else if cart[0].product.id == productId then Some(0)
    else
      match FindItem(cart[1..], productId)
      case None => None
      case Some(k) => Some(k + 1)
  }

  /** How much of a product the cart holds over all its lines: the bag
      view of the cart. */
  function QuantityOf(cart: seq<CartItem>, productId: string): int
  {
    if |cart| == 0 then 0 else Share(cart[0], productId) + QuantityOf(cart[1..], productId)
  }

  /** What one line contributes to the quantity of a product. */
  function Share(item: CartItem, productId: string): int
  {
    if item.product.id == productId then item.quantity else 0
  }

  /** `addToCart`: an existing line for the product grows by `quantity`;
      otherwise one new line keyed by the product id is appended. */
  function AddToCart(slot: CartSlot, product: Product, quantity: int): (r: seq<CartItem>)
    ensures FindItem(GetCart(slot), product.id).Some? ==>
      var i := FindItem(GetCart(slot), product.id).value;
      && |r| == |GetCart(slot)|
      && r[i] == GetCart(slot)[i].(quantity := GetCart(slot)[i].quantity + quantity)
      && forall j :: 0 <= j < |r| && j != i ==> r[j] == GetCart(slot)[j]
    ensures FindItem(GetCart(slot), product.id).None? ==>
      r == GetCart(slot) + [CartItem(product.id, product, quantity)]
  {
    var cart := GetCart(slot);
    match FindItem(cart, product.id)
    case Some(i) => cart[i := cart[i].(quantity := cart[i].quantity + quantity)]
    case None => cart + [CartItem(product.id, product, quantity)]
  }

  function NotForProduct(productId: string): CartItem -> bool
  {
    (item: CartItem) => item.product.id != productId
  }

  /** `removeFromCart`: the lines of other products, each once, in cart
      order (`RemoveKeepsOrder`, `RemoveOneLine`). */
  function RemoveFromCart(slot: CartSlot, productId: string): (r: seq<CartItem>)
    ensures forall i :: 0 <= i < |r| ==> r[i].product.id != productId && r[i] in GetCart(slot)
    ensures forall i :: 0 <= i < |GetCart(slot)| && GetCart(slot)[i].product.id != productId ==>
      GetCart(slot)[i] in r
    ensures |r| == Count(GetCart(slot), NotForProduct(productId))
  {
    FilterMembers(GetCart(slot), NotForProduct(productId));
    Filter(GetCart(slot), NotForProduct(productId))
  }

  /** Removal works line by line: removing from two carts laid end to end
      is removing from each and laying the results end to end. */
  lemma RemoveKeepsOrder(a: seq<CartItem>, b: seq<CartItem>, productId: string)
    ensures RemoveFromCart(SaveCart(a + b), productId)
         == RemoveFromCart(SaveCart(a), productId) + RemoveFromCart(SaveCart(b), productId)
  {
    FilterAppend(a, b, NotForProduct(productId));
  }

  /** A one-line cart loses its line exactly when the line is the product's. */
  lemma RemoveOneLine(item: CartItem, productId: string)
    ensures RemoveFromCart(SaveCart([item]), productId) == if item.product.id == productId then [] else [item]
  {
    FilterCons(item, [], NotForProduct(productId));
    assert [item] + [] == [item];
  }

  /** `updateCartQuantity`: a quantity of zero or less removes the
      product's lines; a positive one replaces the quantity of its first
      line and keeps the number of lines. */
  function UpdateCartQuantity(slot: CartSlot, productId: string, quantity: int): (r: seq<CartItem>)
    ensures quantity <= 0 ==> r == RemoveFromCart(slot, productId)
    ensures quantity > 0 ==> |r| == |GetCart(slot)|
    ensures quantity > 0 && FindItem(GetCart(slot), productId).Some? ==>
      var i := FindItem(GetCart(slot), productId).value;
      && r[i] == GetCart(slot)[i].(quantity := quantity)
      && forall j :: 0 <= j < |r| && j != i ==> r[j] == GetCart(slot)[j]
    ensures quantity > 0 && FindItem(GetCart(slot), productId).None? ==> r == GetCart(slot)
  {
    var cart := GetCart(slot);
    if quantity <= 0 then Filter(cart, NotForProduct(productId))
    else
      match FindItem(cart, productId)
      case Some(i) => cart[i := cart[i].(quantity := quantity)]
      case None => cart
  }

  /** `clearCart`: the slot is removed, so the cart reads as empty. */
  function ClearCart(slot: CartSlot): (r: CartSlot)
    ensures GetCart(r) == []
  {
    None
  }

  // ------------------------------------------------------------- checkout

  datatype CustomerDetails = CustomerDetails(id: string, name: string)

  /** The two slots after checkout, and the order it returned (None for
      `null`). */
  datatype Checkout = Checkout(order: Option<CustomerOrder>, cart: CartSlot, orders: OrdersSlot)

  function ItemCost(item: CartItem): int
  {
    item.product.wholesalePrice * item.quantity
  }

  function LineCost(line: CustomerOrderLine): int
  {
    line.price * line.quantity
  }

  /** The order line recorded for a cart line. */
  function LineOf(item: CartItem): CustomerOrderLine
  {
    CustomerOrderLine(item.product.id, item.product.name, item.quantity, item.product.wholesalePrice)
  }

  function LinesOf(cart: seq<CartItem>): (lines: seq<CustomerOrderLine>)
    ensures |lines| == |cart|
    ensures forall i :: 0 <= i < |cart| ==> lines[i] == LineOf(cart[i])
  {
    seq(|cart|, i requires 0 <= i < |cart| => LineOf(cart[i]))
  }

  /** Costing the cart and costing the order's lines agree. */
  lemma {:induction false} LinesCostAsCart(cart: seq<CartItem>)
    ensures Sum(LinesOf(cart), LineCost) == Sum(cart, ItemCost)
  {
    if |cart| > 0 {
      LinesCostAsCart(cart[1..]);
      assert LinesOf(cart)[1..] == LinesOf(cart[1..]);
    }
  }

  /** `createOrder`. An empty cart gives `null` and touches nothing.
      Otherwise the order has one line per cart line, the total of
      wholesale price times quantity, status pending and the number
      `|orders| + 1` of the year; it is put first among the saved orders
      and the cart is cleared. `now` is the clock in milliseconds (the
      order id is its decimal text) and `year` its calendar year. */
  function CreateOrder(cartSlot: CartSlot, ordersSlot: OrdersSlot, customer: CustomerDetails,
                       now: nat, year: nat): (r: Checkout)
    ensures |GetCart(cartSlot)| == 0 <==> r.order.None?
    ensures r.order.None? ==> r.cart == cartSlot && r.orders == ordersSlot
    ensures r.order.Some? ==>
      var o := r.order.value;
      var cart := GetCart(cartSlot);
      && o.status == Pending
      && o.customerId == customer.id && o.customerName == customer.name
      && |o.items| == |cart|
      && o.id == NatToString(now)
      && (forall i :: 0 <= i < |cart| ==>
            o.items[i].productId == cart[i].product.id && o.items[i].productName == cart[i].product.name
            && o.items[i].quantity == cart[i].quantity && o.items[i].price == cart[i].product.wholesalePrice)
      && o.totalAmount == Sum(cart, ItemCost)
      && o.totalAmount == Sum(o.items, LineCost)
      && o.orderNumber == OrderCode.Format(year, |GetOrders(ordersSlot)| + 1)
      && OrderCode.NumberOf(o.orderNumber) == Some(|GetOrders(ordersSlot)| + 1)
      && StartsWith(o.orderNumber, OrderCode.Prefix(year))
      && o.createdAt == now
      && o.deliveryDate.None?
      && GetCart(r.cart) == []
      && GetOrders(r.orders) == [o] + GetOrders(ordersSlot)
  {
    var cart := GetCart(cartSlot);
    if |cart| == 0 then Checkout(None, cartSlot, ordersSlot)
    else
      var orders := GetOrders(ordersSlot);
      var total := Sum(cart, ItemCost);
      LinesCostAsCart(cart);
      OrderCode.FormatRoundTrip(year, |orders| + 1);
      var order := CustomerOrder(
        NatToString(now),
        OrderCode.Format(year, |orders| + 1),
        customer.id,
        customer.name,
        LinesOf(cart),
        total,
        Pending,
        now,
        None);
      Checkout(Some(order), ClearCart(cartSlot), SaveOrders([order] + orders))
  }

  // ------------------------------------------------------ the bag of goods

  lemma {:induction false} QuantityOfAppend(cart: seq<CartItem>, item: CartItem, productId: string)
    ensures QuantityOf(cart + [item], productId) == QuantityOf(cart, productId) + Share(item, productId)
  {
    if |cart| > 0 {
      assert (cart + [item])[1..] == cart[1..] + [item];
      QuantityOfAppend(cart[1..], item, productId);
    }
  }

  lemma {:induction false} QuantityOfReplace(cart: seq<CartItem>, i: nat, item: CartItem, productId: string)
    requires i < |cart|
    ensures QuantityOf(cart[i := item], productId)
         == QuantityOf(cart, productId) - Share(cart[i], productId) + Share(item, productId)
  {
    if i > 0 {
      assert cart[i := item][1..] == cart[1..][i - 1 := item];
      QuantityOfReplace(cart[1..], i - 1, item, productId);
    } else {
      assert cart[i := item][1..] == cart[1..];
    }
  }

  lemma {:induction false} QuantityOfWithout(cart: seq<CartItem>, removed: string, productId: string)
    ensures QuantityOf(Filter(cart, NotForProduct(removed)), productId)
         == if productId == removed then 0 else QuantityOf(cart, productId)
  {
    if |cart| > 0 {
      QuantityOfWithout(cart[1..], removed, productId);
      var rest := Filter(cart[1..], NotForProduct(removed));
      if cart[0].product.id != removed {
        assert Filter(cart, NotForProduct(removed)) == [cart[0]] + rest;
        assert ([cart[0]] + rest)[1..] == rest;
      } else {
        assert Filter(cart, NotForProduct(removed)) == rest;
        assert Share(cart[0], productId) == if productId == removed then cart[0].quantity else 0;
      }
    }
  }

  /** With one line per product, the product's quantity is that line's. */
  lemma {:induction false} QuantityOfSingleLine(cart: seq<CartItem>, i: nat)
    requires OneLinePerProduct(cart) && i < |cart|
    ensures QuantityOf(cart, cart[i].product.id) == cart[i].quantity
  {
    var id := cart[i].product.id;
    if i == 0 {
      QuantityOfAbsent(cart[1..], id);
    } else {
      QuantityOfSingleLine(cart[1..], i - 1);
    }
  }

  lemma {:induction false} QuantityOfAbsent(cart: seq<CartItem>, productId: string)
    requires forall j :: 0 <= j < |cart| ==> cart[j].product.id != productId
    ensures QuantityOf(cart, productId) == 0
  {
    if |cart| > 0 {
      QuantityOfAbsent(cart[1..], productId);
    }
  }

  /** Adding merges by product: the product's quantity in the cart grows
      by exactly `quantity` and no other product's quantity moves. */
  lemma AddToCartMerges(slot: CartSlot, product: Product, quantity: int, other: string)
    ensures QuantityOf(AddToCart(slot, product, quantity), product.id) == QuantityOf(GetCart(slot), product.id) + quantity
    ensures other != product.id ==> QuantityOf(AddToCart(slot, product, quantity), other) == QuantityOf(GetCart(slot), other)
  {
    var cart := GetCart(slot);
    var item := CartItem(product.id, product, quantity);
    match FindItem(cart, product.id)
    case Some(i) =>
      QuantityOfReplace(cart, i, cart[i].(quantity := cart[i].quantity + quantity), product.id);
      QuantityOfReplace(cart, i, cart[i].(quantity := cart[i].quantity + quantity), other);
    case None =>
      QuantityOfAppend(cart, item, product.id);
      QuantityOfAppend(cart, item, other);
  }

  /** Adding never creates a second line for a product. */
  lemma AddToCartKeepsOneLinePerProduct(slot: CartSlot, product: Product, quantity: int)
    requires OneLinePerProduct(GetCart(slot))
    ensures OneLinePerProduct(AddToCart(slot, product, quantity))
  {
    var cart := GetCart(slot);
    var r := AddToCart(slot, product, quantity);
    assert forall j :: 0 <= j < |cart| ==> r[j].product.id == cart[j].product.id;
  }

  /** Adding a positive quantity keeps every line's quantity positive. */
  lemma AddToCartKeepsQuantitiesPositive(slot: CartSlot, product: Product, quantity: int)
    requires QuantitiesPositive(GetCart(slot)) && quantity > 0
    ensures QuantitiesPositive(AddToCart(slot, product, quantity))
  {
  }

  /** Setting a quantity: zero or less takes the product out of the cart,
      a positive value becomes the product's quantity; other products keep
      theirs. */
  lemma UpdateCartQuantitySets(slot: CartSlot, productId: string, quantity: int, other: string)
    requires OneLinePerProduct(GetCart(slot))
    ensures quantity <= 0 ==> QuantityOf(UpdateCartQuantity(slot, productId, quantity), productId) == 0
    ensures quantity > 0 && FindItem(GetCart(slot), productId).Some? ==>
      QuantityOf(UpdateCartQuantity(slot, productId, quantity), productId) == quantity
    ensures other != productId ==>
      QuantityOf(UpdateCartQuantity(slot, productId, quantity), other) == QuantityOf(GetCart(slot), other)
  {
    var cart := GetCart(slot);
    if quantity <= 0 {
      QuantityOfWithout(cart, productId, productId);
      QuantityOfWithout(cart, productId, other);
    } else {
      match FindItem(cart, productId)
      case Some(i) =>
        var r := UpdateCartQuantity(slot, productId, quantity);
        assert OneLinePerProduct(r) by {
          assert forall j :: 0 <= j < |cart| ==> r[j].product.id == cart[j].product.id;
        }
        QuantityOfSingleLine(r, i);
        QuantityOfReplace(cart, i, cart[i].(quantity := quantity), other);
      case None =>
    }
  }

  /** Whatever the quantity, an update leaves only positive quantities
      behind when it started from them: the cart's invariant. */
  lemma UpdateCartQuantityKeepsQuantitiesPositive(slot: CartSlot, productId: string, quantity: int)
    requires QuantitiesPositive(GetCart(slot))
    ensures QuantitiesPositive(UpdateCartQuantity(slot, productId, quantity))
  {
  }

  /** Removing a product is setting its quantity to zero. */
  lemma RemoveIsZeroQuantity(slot: CartSlot, productId: string)
    ensures RemoveFromCart(slot, productId) == UpdateCartQuantity(slot, productId, 0)
    ensures QuantityOf(RemoveFromCart(slot, productId), productId) == 0
  {
    QuantityOfWithout(GetCart(slot), productId, productId);
  }

  /** Right after a checkout the cart is empty, so a second checkout
      returns `null` and changes nothing. */
  lemma CheckoutTwiceGivesNull(cartSlot: CartSlot, ordersSlot: OrdersSlot, customer: CustomerDetails,
                               now: nat, year: nat, later: nat)
    ensures var first := CreateOrder(cartSlot, ordersSlot, customer, now, year);
      var second := CreateOrder(first.cart, first.orders, customer, later, year);
      second.order.None? && second.orders == first.orders
  {
  }
}
