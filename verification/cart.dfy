/**
 * The client-side cart (CartContext): one line per menu item with a quantity,
 * grown by `addToCart`, shrunk by `decreaseFromCart`, dropped by
 * `removeFromCart` or `clearCart`, and priced by `total`. Keys are compared
 * with `===`, so a missing id (`undefined`) is a key like any other.
 */
module Cart {
  import opened Wrappers
  import opened Seqs

  /** What a page hands to the cart: a menu item (`id`) or an order line (`menu_item_id`). */
  datatype CartItem = CartItem(id: Option<int>, menuItemId: Option<int>, name: string, price: int)

  datatype CartLine = CartLine(menuItemId: Option<int>, name: string, price: int, quantity: int)

  /** `item.id || item.menu_item_id`: the `id` unless it is falsy (missing or 0). */
  function Key(item: CartItem): (k: Option<int>)
    ensures item.id.Some? && item.id.value != 0 ==> k == item.id
    ensures item.id.None? || item.id.value == 0 ==> k == item.menuItemId
  {
    if item.id.Some? && item.id.value != 0 then item.id else item.menuItemId
  }

  /** `prev.find((i) => i.menu_item_id === id)`. */
  function Find(cart: seq<CartLine>, key: Option<int>): Option<nat> {
    FirstIndex(cart, (l: CartLine) => l.menuItemId == key)
  }

  /** At most one line per key, and every line holds at least one unit. */
  ghost predicate Valid(cart: seq<CartLine>) {
    && (forall i, j :: 0 <= i < j < |cart| ==> cart[i].menuItemId != cart[j].menuItemId)
    && (forall i :: 0 <= i < |cart| ==> cart[i].quantity >= 1)
  }

  /** The units of `key` in the cart: its line's quantity, or 0. */
  function Quantity(cart: seq<CartLine>, key: Option<int>): int {
    match Find(cart, key)
    case None => 0
    case Some(i) => cart[i].quantity
  }

  /** What one line costs. */
  function LineTotal(l: CartLine): int {
    l.price * l.quantity
  }

  /** `cart.reduce((sum, i) => sum + i.price * i.quantity, 0)`. */
  function Total(cart: seq<CartLine>): int {
    SumBy(cart, LineTotal)
  }

  /** `delta` more units of a line cost `delta` times its price more. */
  lemma LineTotalStep(l: CartLine, delta: int)
    ensures LineTotal(l.(quantity := l.quantity + delta)) == LineTotal(l) + delta * l.price
  {
    assert l.price * (l.quantity + delta) == l.price * l.quantity + delta * l.price;
  }

  /** Adds `delta` units to every line with the key: `prev.map(...)`. */
  function Bump(cart: seq<CartLine>, key: Option<int>, delta: int): (r: seq<CartLine>)
    ensures |r| == |cart|
    ensures forall i :: 0 <= i < |cart| ==>
      r[i] == if cart[i].menuItemId == key then cart[i].(quantity := cart[i].quantity + delta) else cart[i]
  {
    UpdateWhere(cart, (l: CartLine) => l.menuItemId == key, (l: CartLine) => l.(quantity := l.quantity + delta))
  }

  /** `prev.filter((i) => i.menu_item_id !== id)`. */
  function Without(cart: seq<CartLine>, key: Option<int>): (r: seq<CartLine>)
    ensures |r| <= |cart|
    ensures forall l :: l in r <==> l in cart && l.menuItemId != key
  {
    FilterContents(cart, (l: CartLine) => l.menuItemId != key);
    Filter(cart, (l: CartLine) => l.menuItemId != key)
  }

  /** In a valid cart, bumping the key touches only its one line. */
  lemma BumpOne(cart: seq<CartLine>, key: Option<int>, delta: int)
    requires Valid(cart) && Find(cart, key).Some?
    ensures var i := Find(cart, key).value;
      Bump(cart, key, delta) == cart[i := cart[i].(quantity := cart[i].quantity + delta)]
  {
  }

  /** In a valid cart, dropping the key deletes its one line, or nothing when it has none. */
  lemma WithoutOne(cart: seq<CartLine>, key: Option<int>)
    requires Valid(cart)
    ensures Find(cart, key).None? ==> Without(cart, key) == cart
    ensures Find(cart, key).Some? ==>
      var i := Find(cart, key).value;
      Without(cart, key) == cart[..i] + cart[i + 1..]
  {
    match Find(cart, key)
    case None =>
      FilterAll(cart, (l: CartLine) => l.menuItemId != key);
    case Some(i) =>
      FilterDropsOne(cart, (l: CartLine) => l.menuItemId != key, i);
  }

  /** Deleting one line keeps a valid cart valid. */
  lemma DropLineValid(cart: seq<CartLine>, i: nat)
    requires Valid(cart) && i < |cart|
    ensures Valid(cart[..i] + cart[i + 1..])
  {
    var r := cart[..i] + cart[i + 1..];
    assert forall a :: 0 <= a < |r| ==> r[a] == cart[if a < i then a else a + 1];
  }

  /** Dropping lines keeps a valid cart valid. */
  lemma WithoutValid(cart: seq<CartLine>, key: Option<int>)
    ensures Valid(cart) ==> Valid(Without(cart, key))
  {
    if Valid(cart) {
      WithoutOne(cart, key);
      if Find(cart, key).Some? {
        DropLineValid(cart, Find(cart, key).value);
      }
    }
  }

  /** `addToCart`: one more unit of an item already in the cart, or a new line of one unit at the end. */
  function Add(cart: seq<CartLine>, item: CartItem): (r: seq<CartLine>)
    ensures Valid(cart) ==> Valid(r)
    ensures Find(r, Key(item)).Some?
    ensures Find(cart, Key(item)).None? ==> r == cart + [CartLine(Key(item), item.name, item.price, 1)]
    ensures Find(cart, Key(item)).Some? ==> r == Bump(cart, Key(item), 1)
  {
    var key := Key(item);
    match Find(cart, key)
    case Some(i) =>
      FirstIndexSomeIff(Bump(cart, key, 1), (l: CartLine) => l.menuItemId == key, i);
      Bump(cart, key, 1)
    case None =>
      var r := cart + [CartLine(key, item.name, item.price, 1)];
      FirstIndexSomeIff(r, (l: CartLine) => l.menuItemId == key, |cart|);
      r
  }

  /**
   * `decreaseFromCart`: nothing when the item is not in the cart, one unit
   * fewer when its (first) line holds more than one, otherwise its line goes.
   */
  function Decrease(cart: seq<CartLine>, item: CartItem): (r: seq<CartLine>)
    ensures Valid(cart) ==> Valid(r)
    ensures Find(cart, Key(item)).None? ==> r == cart
    ensures Find(cart, Key(item)).Some? ==>
      var i := Find(cart, Key(item)).value;
      if cart[i].quantity > 1 then r == Bump(cart, Key(item), -1) else r == Without(cart, Key(item))
  {
    var key := Key(item);
    match Find(cart, key)
    case None => cart
    case Some(i) =>
      if cart[i].quantity > 1 then Bump(cart, key, -1)
      else
        WithoutValid(cart, key);
        Without(cart, key)
  }

  /** `removeFromCart(id)`. */
  function Remove(cart: seq<CartLine>, key: Option<int>): (r: seq<CartLine>)
    ensures Valid(cart) ==> Valid(r)
    ensures Find(r, key).None?
    ensures forall l :: l in r <==> l in cart && l.menuItemId != key
  {
    var r := Without(cart, key);
    WithoutValid(cart, key);
    assert forall k :: 0 <= k < |r| ==> r[k].menuItemId != key by {
      forall k | 0 <= k < |r| ensures r[k].menuItemId != key { assert r[k] in r; }
    }
    r
  }

  /** `clearCart`: the empty cart, whatever was in it. */
  function Clear(cart: seq<CartLine>): (r: seq<CartLine>)
    ensures Valid(r) && Total(r) == 0
    ensures forall key :: Find(r, key).None?
  {
    []
  }

  // ---------------------------------------------------------------------------
  // Properties

  /** Adding an item puts one more unit of it in the cart. */
  lemma AddQuantity(cart: seq<CartLine>, item: CartItem)
    requires Valid(cart)
    ensures Quantity(Add(cart, item), Key(item)) == Quantity(cart, Key(item)) + 1
  {
    var key := Key(item);
    if Find(cart, key).Some? {
      var i := Find(cart, key).value;
      BumpOne(cart, key, 1);
      FirstIndexAgree(Add(cart, item), (l: CartLine) => l.menuItemId == key, cart, (l: CartLine) => l.menuItemId == key);
    }
  }

  /** Decreasing takes one unit away, down to none. */
  lemma DecreaseQuantity(cart: seq<CartLine>, item: CartItem)
    requires Valid(cart)
    ensures Quantity(Decrease(cart, item), Key(item)) == if Quantity(cart, Key(item)) > 0 then Quantity(cart, Key(item)) - 1 else 0
  {
    var key := Key(item);
    if Find(cart, key).Some? {
      var i := Find(cart, key).value;
      if cart[i].quantity > 1 {
        BumpOne(cart, key, -1);
        FirstIndexAgree(Decrease(cart, item), (l: CartLine) => l.menuItemId == key, cart, (l: CartLine) => l.menuItemId == key);
      } else {
        WithoutOne(cart, key);
      }
    }
  }

  /** Decreasing undoes adding: the cart is back as it was. */
  lemma AddThenDecrease(cart: seq<CartLine>, item: CartItem)
    requires Valid(cart)
    ensures Decrease(Add(cart, item), item) == cart
  {
    var key := Key(item);
    var added := Add(cart, item);
    match Find(cart, key)
    case Some(i) =>
      BumpOne(cart, key, 1);
      FirstIndexAgree(added, (l: CartLine) => l.menuItemId == key, cart, (l: CartLine) => l.menuItemId == key);
      BumpOne(added, key, -1);
      assert added[i := added[i].(quantity := added[i].quantity - 1)] == cart;
    case None =>
      WithoutOne(added, key);
      assert added[..|cart|] == cart;
  }

  /** Adding an item raises the total by the price of its line. */
  lemma AddTotal(cart: seq<CartLine>, item: CartItem)
    requires Valid(cart)
    ensures var r := Add(cart, item);
      Total(r) == Total(cart) + r[Find(r, Key(item)).value].price
  {
    var key := Key(item);
    var r := Add(cart, item);
    match Find(cart, key)
    case Some(i) =>
      BumpOne(cart, key, 1);
      FirstIndexAgree(r, (l: CartLine) => l.menuItemId == key, cart, (l: CartLine) => l.menuItemId == key);
      SumByUpdate(cart, i, cart[i].(quantity := cart[i].quantity + 1), LineTotal);
      LineTotalStep(cart[i], 1);
    case None =>
      var line := CartLine(key, item.name, item.price, 1);
      SumByAppend(cart, [line], LineTotal);
      assert [line][..0] == [];
      assert SumBy([line], LineTotal) == LineTotal(line);
  }

  /** Decreasing an item in the cart lowers the total by its price; otherwise nothing changes. */
  lemma DecreaseTotal(cart: seq<CartLine>, item: CartItem)
    requires Valid(cart)
    ensures Find(cart, Key(item)).Some? ==>
      Total(Decrease(cart, item)) == Total(cart) - cart[Find(cart, Key(item)).value].price
    ensures Find(cart, Key(item)).None? ==> Total(Decrease(cart, item)) == Total(cart)
  {
    var key := Key(item);
    if Find(cart, key).Some? {
      var i := Find(cart, key).value;
      if cart[i].quantity > 1 {
        BumpOne(cart, key, -1);
        SumByUpdate(cart, i, cart[i].(quantity := cart[i].quantity - 1), LineTotal);
        LineTotalStep(cart[i], -1);
      } else {
        WithoutOne(cart, key);
        SumByRemove(cart, i, LineTotal);
        assert cart[i].quantity == 1;
        assert LineTotal(cart[i]) == cart[i].price;
      }
    }
  }

  /** Removing an item takes its whole line off the total. */
  lemma RemoveTotal(cart: seq<CartLine>, key: Option<int>)
    requires Valid(cart)
    ensures Find(cart, key).Some? ==> Total(Remove(cart, key)) == Total(cart) - LineTotal(cart[Find(cart, key).value])
    ensures Find(cart, key).None? ==> Remove(cart, key) == cart
  {
    WithoutOne(cart, key);
    if Find(cart, key).Some? {
      SumByRemove(cart, Find(cart, key).value, LineTotal);
    }
  }

  /** Removing twice is removing once. */
  lemma RemoveIdempotent(cart: seq<CartLine>, key: Option<int>)
    ensures Remove(Remove(cart, key), key) == Remove(cart, key)
  {
    FilterIdempotent(cart, (l: CartLine) => l.menuItemId != key);
  }
}
