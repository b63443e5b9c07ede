/** The shopping cart: a list of entries keyed by (product id, selected size). */
module Cart {
  import opened Common

  /** One cart entry. */
  datatype CartItem = CartItem(id: int, selectedSize: string, quantity: int, price: int, note: string)

  /** What a caller asks to add: a product with its two prices, and an optional
      quantity and note (0 and "" count as absent, as JavaScript's `||` does). */
  datatype AddRequest = AddRequest(id: int, selectedSize: string, quantity: int,
                                   price: int, largeSizePrice: int, note: string)

  predicate HasKey(e: CartItem, id: int, size: string)
  {
    e.id == id && e.selectedSize == size
  }

  /** No two entries share a key. */
  predicate UniqueKeys(cart: seq<CartItem>)
  {
    forall i, j :: 0 <= i < j < |cart| ==> !HasKey(cart[j], cart[i].id, cart[i].selectedSize)
  }

  predicate AllPositive(cart: seq<CartItem>)
  {
    forall i :: 0 <= i < |cart| ==> cart[i].quantity > 0
  }

  /** The first index holding the key, or -1 (Array.prototype.findIndex). */
  function FindIndex(cart: seq<CartItem>, id: int, size: string): (i: int)
    ensures -1 <= i < |cart|
    ensures i == -1 <==> forall k :: 0 <= k < |cart| ==> !HasKey(cart[k], id, size)
    ensures i >= 0 ==> HasKey(cart[i], id, size) && forall k :: 0 <= k < i ==> !HasKey(cart[k], id, size)
  {
    if cart == [] then -1
    else if HasKey(cart[0], id, size) then 0
    else
      var j := FindIndex(cart[1..], id, size);
      if j == -1 then -1 else j + 1
  }

  /** The quantity an add contributes: the requested one, or 1 when it is 0. */
  function AddedQuantity(item: AddRequest): int
  {
    if item.quantity != 0 then item.quantity else 1
  }

  /** The unit price of a size: the large price for "large", the base price otherwise. */
  function UnitPrice(item: AddRequest): int
  {
    if item.selectedSize == "large" then item.largeSizePrice else item.price
  }

  /** The entry a first add of a key creates. */
  function NewEntry(item: AddRequest): CartItem
  {
    CartItem(item.id, item.selectedSize, AddedQuantity(item), UnitPrice(item), item.note)
  }

  /** The entry after adding to it: quantities add up, a non-empty note replaces the old one. */
  function Merged(e: CartItem, item: AddRequest): CartItem
  {
    e.(quantity := e.quantity + AddedQuantity(item), note := if item.note != "" then item.note else e.note)
  }

  /** addToCart: merge into the entry with the same key, or append a new entry. */
  function AddToCart(cart: seq<CartItem>, item: AddRequest): (r: seq<CartItem>)
    ensures var i := FindIndex(cart, item.id, item.selectedSize);
      i >= 0 ==> |r| == |cart| && r[i] == Merged(cart[i], item) &&
                 forall k :: 0 <= k < |cart| && k != i ==> r[k] == cart[k]
    ensures FindIndex(cart, item.id, item.selectedSize) == -1 ==> r == cart + [NewEntry(item)]
  {
    var i := FindIndex(cart, item.id, item.selectedSize);
    if i > -1 then cart[i := Merged(cart[i], item)]
    else cart + [NewEntry(item)]
  }

  /** removeFromCart: keep exactly the entries with another key. */
  function RemoveFromCart(cart: seq<CartItem>, id: int, size: string): (r: seq<CartItem>)
    ensures |r| <= |cart|
    ensures forall e :: e in r <==> e in cart && !HasKey(e, id, size)
  {
    if cart == [] then []
    else if HasKey(cart[0], id, size) then RemoveFromCart(cart[1..], id, size)
    else [cart[0]] + RemoveFromCart(cart[1..], id, size)
  }

  /** One entry after updateQuantity: None when its new quantity is not positive. */
  function Adjusted(e: CartItem, id: int, size: string, change: int): Option<CartItem>
  {
    if HasKey(e, id, size) then
      (if e.quantity + change > 0 then Some(e.(quantity := e.quantity + change)) else None)
    else Some(e)
  }

  /** updateQuantity: change the matching entry's quantity, dropping it when that
      quantity is no longer positive. */
  function UpdateQuantity(cart: seq<CartItem>, id: int, size: string, change: int): (r: seq<CartItem>)
    ensures |r| <= |cart|
    ensures forall e :: e in r && !HasKey(e, id, size) ==> e in cart
    ensures forall e :: e in cart && !HasKey(e, id, size) ==> e in r
    ensures forall e :: e in r && HasKey(e, id, size) ==>
              e.quantity > 0 && e.(quantity := e.quantity - change) in cart
    ensures forall d :: d in cart && HasKey(d, id, size) && d.quantity + change > 0 ==>
              d.(quantity := d.quantity + change) in r
  {
    if cart == [] then []
    else
      var rest := UpdateQuantity(cart[1..], id, size, change);
      match Adjusted(cart[0], id, size, change)
      case None => rest
      case Some(e) => [e] + rest
  }

  function ClearCart(): (r: seq<CartItem>)
    ensures |r| == 0
  {
    []
  }

  /** Σ price·quantity. */
  function Total(cart: seq<CartItem>): int
  {
    if cart == [] then 0 else cart[0].price * cart[0].quantity + Total(cart[1..])
  }

  /** Σ quantity. */
  function ItemCount(cart: seq<CartItem>): int
  {
    if cart == [] then 0 else cart[0].quantity + ItemCount(cart[1..])
  }

  // ---------------------------------------------------------------------
  // Lemmas about the operations
  // ---------------------------------------------------------------------

  lemma {:induction false} TotalAppend(a: seq<CartItem>, b: seq<CartItem>)
    ensures Total(a + b) == Total(a) + Total(b)
    ensures ItemCount(a + b) == ItemCount(a) + ItemCount(b)
  {
    if a != [] {
      assert (a + b)[1..] == a[1..] + b;
      TotalAppend(a[1..], b);
    } else {
      assert a + b == b;
    }
  }

  lemma {:induction false} TotalUpdate(cart: seq<CartItem>, i: int, e: CartItem)
    requires 0 <= i < |cart|
    ensures Total(cart[i := e]) == Total(cart) - cart[i].price * cart[i].quantity + e.price * e.quantity
    ensures ItemCount(cart[i := e]) == ItemCount(cart) - cart[i].quantity + e.quantity
  {
    if i > 0 {
      assert cart[i := e][1..] == cart[1..][i - 1 := e];
      TotalUpdate(cart[1..], i - 1, e);
    } else {
      assert cart[i := e][1..] == cart[1..];
    }
  }

  /** Adding raises the item count by the added quantity, and the total by that
      quantity times the entry's unit price (the stored price when the key exists). */
  lemma AddToCartTotals(cart: seq<CartItem>, item: AddRequest)
    ensures ItemCount(AddToCart(cart, item)) == ItemCount(cart) + AddedQuantity(item)
    ensures var i := FindIndex(cart, item.id, item.selectedSize);
      Total(AddToCart(cart, item)) ==
        Total(cart) + AddedQuantity(item) * (if i >= 0 then cart[i].price else UnitPrice(item))
  {
    var i := FindIndex(cart, item.id, item.selectedSize);
    var q := AddedQuantity(item);
    if i >= 0 {
      var m := Merged(cart[i], item);
      TotalUpdate(cart, i, m);
      Distribute(cart[i].price, cart[i].quantity, q);
      assert m.price * m.quantity == cart[i].price * cart[i].quantity + cart[i].price * q;
      Commute(cart[i].price, q);
    } else {
      var e := NewEntry(item);
      TotalAppend(cart, [e]);
      assert [e][1..] == [];
      Commute(e.price, q);
    }
  }

  lemma Distribute(p: int, a: int, b: int)
    ensures p * (a + b) == p * a + p * b
  {
  }

  lemma Commute(a: int, b: int)
    ensures a * b == b * a
  {
  }

  /** Every cart operation keeps the keys unique. */
  lemma AddToCartKeepsUnique(cart: seq<CartItem>, item: AddRequest)
    requires UniqueKeys(cart)
    ensures UniqueKeys(AddToCart(cart, item))
  {
    var r := AddToCart(cart, item);
    var i := FindIndex(cart, item.id, item.selectedSize);
    if i >= 0 {
      assert forall k :: 0 <= k < |r| ==> r[k].id == cart[k].id && r[k].selectedSize == cart[k].selectedSize;
    }
  }

  /** Prepending an entry whose key is not among the rest keeps keys unique. */
  lemma ConsUnique(x: CartItem, rest: seq<CartItem>)
    requires UniqueKeys(rest)
    requires forall e :: e in rest ==> !HasKey(e, x.id, x.selectedSize)
    ensures UniqueKeys([x] + rest)
  {
    var r := [x] + rest;
    forall i, j | 0 <= i < j < |r|
      ensures !HasKey(r[j], r[i].id, r[i].selectedSize)
    {
      if i > 0 {
        assert r[i] == rest[i - 1] && r[j] == rest[j - 1];
      } else {
        assert r[j] in rest;
      }
    }
  }

  /** The tail of a cart with unique keys holds no entry with the head's key. */
  lemma HeadKeyNotInTail(cart: seq<CartItem>, e: CartItem)
    requires UniqueKeys(cart) && cart != [] && e in cart[1..]
    ensures !HasKey(e, cart[0].id, cart[0].selectedSize)
  {
    var k :| 0 <= k < |cart[1..]| && cart[1..][k] == e;
    assert cart[k + 1] == e;
  }

  lemma {:induction false} RemoveKeepsUnique(cart: seq<CartItem>, id: int, size: string)
    requires UniqueKeys(cart)
    ensures UniqueKeys(RemoveFromCart(cart, id, size))
  {
    if cart != [] {
      RemoveKeepsUnique(cart[1..], id, size);
      var rest := RemoveFromCart(cart[1..], id, size);
      if !HasKey(cart[0], id, size) {
        forall e | e in rest
          ensures !HasKey(e, cart[0].id, cart[0].selectedSize)
        {
          HeadKeyNotInTail(cart, e);
        }
        ConsUnique(cart[0], rest);
      }
    }
  }

  /** Every entry left by updateQuantity has the key of an entry of the old cart. */
  lemma UpdateKeyFrom(cart: seq<CartItem>, id: int, size: string, change: int, e: CartItem)
    requires e in UpdateQuantity(cart, id, size, change)
    ensures exists d :: d in cart && d.id == e.id && d.selectedSize == e.selectedSize
  {
    if !HasKey(e, id, size) {
      assert e in cart;
    }
  }

  lemma {:induction false} UpdateKeepsUnique(cart: seq<CartItem>, id: int, size: string, change: int)
    requires UniqueKeys(cart)
    ensures UniqueKeys(UpdateQuantity(cart, id, size, change))
  {
    if cart != [] {
      UpdateKeepsUnique(cart[1..], id, size, change);
      var rest := UpdateQuantity(cart[1..], id, size, change);
      forall e | e in rest
        ensures !HasKey(e, cart[0].id, cart[0].selectedSize)
      {
        UpdateKeyFrom(cart[1..], id, size, change, e);
        var d :| d in cart[1..] && d.id == e.id && d.selectedSize == e.selectedSize;
        HeadKeyNotInTail(cart, d);
      }
      match Adjusted(cart[0], id, size, change)
      case None =>
      case Some(e0) =>
        ConsUnique(e0, rest);
    }
  }

  /** Updating quantities never leaves a non-positive quantity behind. */
  lemma {:induction false} UpdateKeepsPositive(cart: seq<CartItem>, id: int, size: string, change: int)
    requires AllPositive(cart)
    ensures AllPositive(UpdateQuantity(cart, id, size, change))
  {
    var r := UpdateQuantity(cart, id, size, change);
    forall k | 0 <= k < |r|
      ensures r[k].quantity > 0
    {
      assert r[k] in r;
      if !HasKey(r[k], id, size) {
        var m :| 0 <= m < |cart| && cart[m] == r[k];
      }
    }
  }

  /** Removal distributes over concatenation, so the kept entries keep their order. */
  lemma {:induction false} RemoveDistributes(a: seq<CartItem>, b: seq<CartItem>, id: int, size: string)
    ensures RemoveFromCart(a + b, id, size) == RemoveFromCart(a, id, size) + RemoveFromCart(b, id, size)
  {
    if a != [] {
      assert (a + b)[1..] == a[1..] + b;
      RemoveDistributes(a[1..], b, id, size);
    } else {
      assert a + b == b;
    }
  }

  /** Updating distributes over concatenation, so the entries keep their order. */
  lemma {:induction false} UpdateDistributes(a: seq<CartItem>, b: seq<CartItem>, id: int, size: string, change: int)
    ensures UpdateQuantity(a + b, id, size, change) == UpdateQuantity(a, id, size, change) + UpdateQuantity(b, id, size, change)
  {
    if a != [] {
      assert (a + b)[1..] == a[1..] + b;
      UpdateDistributes(a[1..], b, id, size, change);
    } else {
      assert a + b == b;
    }
  }

  /** Removing a key that is not in the cart leaves it as it is. */
  lemma {:induction false} RemoveAbsent(cart: seq<CartItem>, id: int, size: string)
    requires FindIndex(cart, id, size) == -1
    ensures RemoveFromCart(cart, id, size) == cart
  {
    if cart != [] {
      assert FindIndex(cart[1..], id, size) == -1 by {
        assert forall k :: 0 <= k < |cart[1..]| ==> cart[1..][k] == cart[k + 1];
      }
      RemoveAbsent(cart[1..], id, size);
    }
  }

  /** No entry before the first match has the key. */
  lemma NoKeyBefore(cart: seq<CartItem>, id: int, size: string)
    requires FindIndex(cart, id, size) >= 0
    ensures FindIndex(cart[..FindIndex(cart, id, size)], id, size) == -1
  {
    var head := cart[..FindIndex(cart, id, size)];
    forall k | 0 <= k < |head|
      ensures !HasKey(head[k], id, size)
    {
      assert head[k] == cart[k];
    }
  }

  /** With unique keys, no entry after the first match has the key. */
  lemma NoKeyAfter(cart: seq<CartItem>, id: int, size: string)
    requires UniqueKeys(cart)
    requires FindIndex(cart, id, size) >= 0
    ensures FindIndex(cart[FindIndex(cart, id, size) + 1..], id, size) == -1
  {
    var i := FindIndex(cart, id, size);
    var tail := cart[i + 1..];
    forall k | 0 <= k < |tail|
      ensures !HasKey(tail[k], id, size)
    {
      assert tail[k] == cart[i + 1 + k];
      assert !HasKey(cart[i + 1 + k], cart[i].id, cart[i].selectedSize);
    }
  }

  /** In a cart with unique keys, removing a present key removes exactly that one entry. */
  lemma RemovePresent(cart: seq<CartItem>, id: int, size: string)
    requires UniqueKeys(cart)
    requires FindIndex(cart, id, size) >= 0
    ensures var i := FindIndex(cart, id, size);
      RemoveFromCart(cart, id, size) == cart[..i] + cart[i + 1..]
  {
    var i := FindIndex(cart, id, size);
    var head, rest, tail := cart[..i], cart[i..], cart[i + 1..];
    assert cart == head + rest;
    NoKeyBefore(cart, id, size);
    NoKeyAfter(cart, id, size);
    RemoveDistributes(head, rest, id, size);
    RemoveAbsent(head, id, size);
    RemoveMatchingHead(rest, id, size);
    assert rest[1..] == tail;
    RemoveAbsent(tail, id, size);
  }

  /** A leading entry with the key is dropped. */
  lemma RemoveMatchingHead(cart: seq<CartItem>, id: int, size: string)
    requires cart != [] && HasKey(cart[0], id, size)
    ensures RemoveFromCart(cart, id, size) == RemoveFromCart(cart[1..], id, size)
  {
  }
}
