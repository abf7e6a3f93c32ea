/**
 * The cart line-item engine of Models/cart.js: one cart per user, an ordered
 * list of (dish, quantity) lines, and the get-or-create, add-one,
 * remove-one and clear operations that update it and answer with a
 * `{ code, result }` pair.
 */
module Carts {
  import opened Ids

  /** A line of CartItemSchema: the referenced dish and its quantity. */
  datatype Item = Item(product: ObjectId, qty: int)

  /** A stored cart document: its own `_id`, its owning `user` and its `items` in order. */
  datatype Cart = Cart(id: ObjectId, user: ObjectId, items: seq<Item>)

  /** The two dish fields a line's reference is populated with. Prices are passed through untouched. */
  datatype Dish = Dish(name: string, price: int)

  /** A flattened line of a cart response. */
  datatype Line = Line(product: ObjectId, name: string, price: int, qty: int)

  /** A cart turned into a plain object with its virtuals: flattened lines and `totalQty`. */
  datatype CartObject = CartObject(id: ObjectId, user: ObjectId, items: seq<Line>, totalQty: int)

  datatype Payload = Message(text: string) | Plain(cart: CartObject)

  /** The `{ code, result }` pair that every cart operation returns. */
  datatype Reply = Reply(code: int, result: Payload)

  const CartNotFound := "Cart not found"
  const ProductNotFound := "Product not found in cart"
  const UserDeleted := "User Deleted successfully"

  /** The schema's invariant on a cart's lines: every qty is at least 1 and no dish has two lines. */
  predicate WellFormed(items: seq<Item>) {
    && (forall i :: 0 <= i < |items| ==> items[i].qty >= 1)
    && (forall i, j :: 0 <= i < j < |items| ==> items[i].product != items[j].product)
  }

  predicate Contains(items: seq<Item>, p: ObjectId) {
    exists i :: 0 <= i < |items| && items[i].product == p
  }

  /** The index of the first line for dish `p`, or -1 when there is none. */
  function IndexOf(items: seq<Item>, p: ObjectId): (k: int)
    ensures -1 <= k < |items|
    ensures k == -1 <==> !Contains(items, p)
    ensures k >= 0 ==> items[k].product == p && forall i :: 0 <= i < k ==> items[i].product != p
  {
    if |items| == 0 then -1
    else if items[0].product == p then 0
    else
      var k := IndexOf(items[1..], p);
      assert k >= 0 ==> items[1..][k] == items[k + 1];
      assert k == -1 ==> forall i :: 1 <= i < |items| ==> items[1..][i - 1] == items[i];
      if k == -1 then -1 else k + 1
  }

  /** `findIndex` over a cart's lines, comparing each line's dish id with `p`. */
  method FindLine(items: seq<Item>, p: ObjectId) returns (k: int)
    ensures k == IndexOf(items, p)
  {
    k := 0;
    while k < |items| && items[k].product != p
      invariant 0 <= k <= |items|
      invariant forall i :: 0 <= i < k ==> items[i].product != p
    {
      k := k + 1;
    }
    if k == |items| {
      k := -1;
    }
  }

  /** The lines after adding one of dish `p`: its line goes up by one, or a line with qty 1 is appended. */
  function AddOne(items: seq<Item>, p: ObjectId): seq<Item> {
    var k := IndexOf(items, p);
    if k >= 0 then items[k := items[k].(qty := items[k].qty + 1)]
    else items + [Item(p, 1)]
  }

  /** The lines after taking one away from line `k`: its qty drops by one, or the line is spliced out at qty 1. */
  function RemoveAt(items: seq<Item>, k: nat): seq<Item>
    requires k < |items|
  {
    if items[k].qty > 1 then items[k := items[k].(qty := items[k].qty - 1)]
    else items[..k] + items[k + 1..]
  }

  /** The `totalQty` virtual: a left fold adding up every line's qty. */
  function TotalQty(items: seq<Item>): (total: int)
    ensures (forall i :: 0 <= i < |items| ==> items[i].qty >= 1) ==> total >= |items|
  {
    if |items| == 0 then 0 else TotalQty(items[..|items| - 1]) + items[|items| - 1].qty
  }

  /** The `items.map(...)` that flattens each populated line into a response line. */
  function Flatten(items: seq<Item>, catalog: ObjectId -> Dish): (lines: seq<Line>)
    ensures |lines| == |items|
    ensures forall i :: 0 <= i < |items| ==>
      lines[i].product == items[i].product && lines[i].qty == items[i].qty
      && lines[i].name == catalog(items[i].product).name
      && lines[i].price == catalog(items[i].product).price
  {
    if |items| == 0 then []
    else
      var d := catalog(items[0].product);
      [Line(items[0].product, d.name, d.price, items[0].qty)] + Flatten(items[1..], catalog)
  }

  /** `cart.toObject({ virtuals: true })` with its items flattened against the live catalog. */
  function View(cart: Cart, catalog: ObjectId -> Dish): CartObject {
    CartObject(cart.id, cart.user, Flatten(cart.items, catalog), TotalQty(cart.items))
  }

  /** `Cart.findByIdAndDelete(id)`: drops every cart whose own `_id` equals `id`. */
  function DeleteById(carts: map<ObjectId, Cart>, id: ObjectId): map<ObjectId, Cart> {
    map u | u in carts && carts[u].id != id :: carts[u]
  }

  // ---------------------------------------------------------------------------
  // Lemmas about the line-item functions
  // ---------------------------------------------------------------------------

  lemma TotalQtyAppend(items: seq<Item>, x: Item)
    ensures TotalQty(items + [x]) == TotalQty(items) + x.qty
  {
    assert (items + [x])[..|items|] == items;
  }

  /** Replacing one line changes the total by exactly the change in that line's qty. */
  lemma {:induction false} TotalQtyUpdate(items: seq<Item>, k: nat, x: Item)
    requires k < |items|
    ensures TotalQty(items[k := x]) == TotalQty(items) - items[k].qty + x.qty
  {
    var n := |items| - 1;
    if k == n {
      assert items[k := x][..n] == items[..n];
    } else {
      assert items[k := x][..n] == items[..n][k := x];
      TotalQtyUpdate(items[..n], k, x);
    }
  }

  /** Splicing one line out lowers the total by that line's qty. */
  lemma {:induction false} TotalQtyDelete(items: seq<Item>, k: nat)
    requires k < |items|
    ensures TotalQty(items[..k] + items[k + 1..]) == TotalQty(items) - items[k].qty
  {
    var n := |items| - 1;
    var s := items[..k] + items[k + 1..];
    if k == n {
      assert s == items[..n];
    } else {
      var t := items[..n];
      assert s[..n - 1] == t[..k] + t[k + 1..];
      assert s[n - 1] == items[n];
      TotalQtyDelete(t, k);
    }
  }

  /** With one line per dish, the first line for `p` is the only one. */
  lemma IndexOfUnique(items: seq<Item>, p: ObjectId, k: nat)
    requires WellFormed(items) && k < |items| && items[k].product == p
    ensures IndexOf(items, p) == k
  {
  }

  /**
   * Adding a dish already in the cart raises its line by exactly one; adding a
   * new dish appends one line with qty 1. Every other line and the order stay.
   */
  lemma AddOneEffect(items: seq<Item>, p: ObjectId)
    requires WellFormed(items)
    ensures Contains(items, p) ==>
      exists k :: 0 <= k < |items| && items[k].product == p
        && AddOne(items, p) == items[k := Item(p, items[k].qty + 1)]
    ensures !Contains(items, p) ==> AddOne(items, p) == items + [Item(p, 1)]
  {
    if Contains(items, p) {
      var k := IndexOf(items, p);
      assert AddOne(items, p) == items[k := Item(p, items[k].qty + 1)];
    }
  }

  lemma AddOneWellFormed(items: seq<Item>, p: ObjectId)
    requires WellFormed(items)
    ensures WellFormed(AddOne(items, p))
    ensures Contains(AddOne(items, p), p)
  {
    var r := AddOne(items, p);
    var k := IndexOf(items, p);
    if k < 0 {
      assert r[|items|].product == p;
    } else {
      assert r[k].product == p;
    }
  }

  /** A successful add raises `totalQty` by one. */
  lemma AddOneTotal(items: seq<Item>, p: ObjectId)
    ensures TotalQty(AddOne(items, p)) == TotalQty(items) + 1
  {
    var k := IndexOf(items, p);
    if k >= 0 {
      TotalQtyUpdate(items, k, items[k].(qty := items[k].qty + 1));
    } else {
      TotalQtyAppend(items, Item(p, 1));
    }
  }

  /**
   * Removing from a line with qty > 1 lowers it by exactly one; removing a
   * line with qty 1 deletes it and the remaining lines keep their order.
   */
  lemma RemoveAtEffect(items: seq<Item>, k: nat)
    requires WellFormed(items) && k < |items|
    ensures items[k].qty > 1 ==>
      RemoveAt(items, k) == items[k := Item(items[k].product, items[k].qty - 1)]
    ensures items[k].qty == 1 ==>
      |RemoveAt(items, k)| == |items| - 1
      && (forall i :: 0 <= i < k ==> RemoveAt(items, k)[i] == items[i])
      && (forall i :: k <= i < |items| - 1 ==> RemoveAt(items, k)[i] == items[i + 1])
      && !Contains(RemoveAt(items, k), items[k].product)
  {
    if items[k].qty == 1 {
      var r := RemoveAt(items, k);
      forall i | 0 <= i < |r|
        ensures r[i].product != items[k].product
      {
        if i < k { assert r[i] == items[i]; } else { assert r[i] == items[i + 1]; }
      }
    }
  }

  lemma RemoveAtWellFormed(items: seq<Item>, k: nat)
    requires WellFormed(items) && k < |items|
    ensures WellFormed(RemoveAt(items, k))
  {
    if items[k].qty == 1 {
      var r := RemoveAt(items, k);
      assert forall i :: 0 <= i < |r| ==> r[i] == if i < k then items[i] else items[i + 1];
    }
  }

  /** A successful remove lowers `totalQty` by one, whether it decrements or splices. */
  lemma RemoveAtTotal(items: seq<Item>, k: nat)
    requires WellFormed(items) && k < |items|
    ensures TotalQty(RemoveAt(items, k)) == TotalQty(items) - 1
  {
    if items[k].qty > 1 {
      TotalQtyUpdate(items, k, items[k].(qty := items[k].qty - 1));
    } else {
      TotalQtyDelete(items, k);
    }
  }

  /** Removing one of a dish just added gives back the lines as they were. */
  lemma RemoveUndoesAdd(items: seq<Item>, p: ObjectId)
    requires WellFormed(items)
    ensures Contains(AddOne(items, p), p)
    ensures RemoveAt(AddOne(items, p), IndexOf(AddOne(items, p), p)) == items
  {
    AddOneWellFormed(items, p);
    var r := AddOne(items, p);
    var k := IndexOf(items, p);
    if k >= 0 {
      IndexOfUnique(r, p, k);
      assert RemoveAt(r, k) == items;
    } else {
      IndexOfUnique(r, p, |items|);
      assert r[..|items|] == items;
    }
  }

  /** Adding the same dish twice to an empty cart gives one line with qty 2, not two lines. */
  lemma AddTwiceOneLine(p: ObjectId)
    ensures AddOne(AddOne([], p), p) == [Item(p, 2)]
  {
    assert AddOne([], p) == [Item(p, 1)];
    assert IndexOf([Item(p, 1)], p) == 0;
  }

  /** The literal clear keeps the owner's cart whenever that cart's own id differs from the owner's id. */
  lemma ClearByIdKeepsOwnersCart(carts: map<ObjectId, Cart>, user: ObjectId)
    requires user in carts && carts[user].id != user
    ensures user in DeleteById(carts, user) && DeleteById(carts, user)[user] == carts[user]
  {
  }

  /** A concrete store on which the literal clear leaves the user's cart in place. */
  lemma ClearByIdMissesOwnersCart()
    ensures var user, dish := ObjectId(UserDocs, 7), ObjectId(DishDocs, 1);
      var carts := map[user := Cart(ObjectId(CartDocs, 3), user, [Item(dish, 2)])];
      user in DeleteById(carts, user) && DeleteById(carts, user)[user].items == [Item(dish, 2)]
  {
    var user, dish := ObjectId(UserDocs, 7), ObjectId(DishDocs, 1);
    var carts := map[user := Cart(ObjectId(CartDocs, 3), user, [Item(dish, 2)])];
    ClearByIdKeepsOwnersCart(carts, user);
  }

  // ---------------------------------------------------------------------------
  // The carts collection
  // ---------------------------------------------------------------------------

  /**
   * Every cart is keyed by its owner, has well-formed lines and an id the carts
   * collection has already minted; no two carts share an id.
   */
  ghost predicate ValidCarts(carts: map<ObjectId, Cart>, nextId: nat) {
    && (forall u :: u in carts ==>
          && carts[u].user == u && WellFormed(carts[u].items)
          && carts[u].id.minted == CartDocs && carts[u].id.serial < nextId)
    && (forall u, v :: u in carts && v in carts && u != v ==> carts[u].id != carts[v].id)
  }

  /** In a valid collection, deleting by an id the carts collection did not mint deletes nothing. */
  lemma DeleteByForeignIdKeepsAll(carts: map<ObjectId, Cart>, nextId: nat, id: ObjectId)
    requires ValidCarts(carts, nextId) && id.minted != CartDocs
    ensures DeleteById(carts, id) == carts
  {
    assert DeleteById(carts, id).Keys == carts.Keys;
  }

  lemma UpdateTwice(m: map<ObjectId, Cart>, k: ObjectId, a: Cart, b: Cart)
    ensures m[k := a][k := b] == m[k := b]
  {
  }

  /** Saving new well-formed lines into an existing cart keeps the collection valid. */
  lemma SaveItemsValid(carts: map<ObjectId, Cart>, nextId: nat, u: ObjectId, items: seq<Item>)
    requires ValidCarts(carts, nextId) && u in carts && WellFormed(items)
    ensures ValidCarts(carts[u := carts[u].(items := items)], nextId)
  {
  }

  /** The carts collection, keyed by owning user (`user` is a unique field). */
  class CartStore {
    var carts: map<ObjectId, Cart>
    /** The serial of the `_id` the database mints for the next cart it creates. */
    var nextId: nat

    ghost predicate Valid()
      reads this
    {
      ValidCarts(carts, nextId)
    }

    constructor ()
      ensures Valid() && carts == map[]
    {
      carts := map[];
      nextId := 0;
    }

    /** `Cart.findOne({ user })`, and `Cart.create({ user, items: [] })` when that finds nothing. */
    method FindOrCreate(userId: ObjectId) returns (cart: Cart)
      requires Valid()
      modifies this
      ensures Valid()
      ensures userId in old(carts) ==> carts == old(carts) && nextId == old(nextId)
      ensures userId !in old(carts) ==>
        carts == old(carts)[userId := Cart(ObjectId(CartDocs, old(nextId)), userId, [])] && nextId == old(nextId) + 1
      ensures userId in carts && cart == carts[userId]
    {
      if userId in carts {
        cart := carts[userId];
      } else {
        cart := Cart(ObjectId(CartDocs, nextId), userId, []);
        carts := carts[userId := cart];
        nextId := nextId + 1;
      }
    }

    /** getOrCreateCart: the user's cart, created empty on first access, never otherwise changed. */
    method GetOrCreate(userId: ObjectId, catalog: ObjectId -> Dish) returns (reply: Reply)
      requires Valid()
      modifies this
      ensures Valid()
      ensures userId in old(carts) ==> carts == old(carts)
      ensures userId !in old(carts) ==> carts == old(carts)[userId := Cart(ObjectId(CartDocs, old(nextId)), userId, [])]
      ensures nextId == if userId in old(carts) then old(nextId) else old(nextId) + 1
      ensures reply == Reply(200, Plain(View(carts[userId], catalog)))
    {
      var cart := FindOrCreate(userId);
      reply := Reply(200, Plain(View(cart, catalog)));
    }

    /** addItemToCart: bump the dish's line or append it, creating the cart first if needed. */
    method AddItem(userId: ObjectId, productId: ObjectId, catalog: ObjectId -> Dish) returns (reply: Reply)
      requires Valid()
      modifies this
      ensures Valid()
      ensures userId in old(carts) ==>
        carts == old(carts)[userId := old(carts)[userId].(items := AddOne(old(carts)[userId].items, productId))]
      ensures userId !in old(carts) ==>
        carts == old(carts)[userId := Cart(ObjectId(CartDocs, old(nextId)), userId, [Item(productId, 1)])]
      ensures nextId == if userId in old(carts) then old(nextId) else old(nextId) + 1
      ensures TotalQty(carts[userId].items)
        == (if userId in old(carts) then TotalQty(old(carts)[userId].items) else 0) + 1
      ensures reply == Reply(200, Plain(View(carts[userId], catalog)))
    {
      var cart := FindOrCreate(userId);
      var items := cart.items;
      var k := FindLine(items, productId);
      if k >= 0 {
        items := items[k := items[k].(qty := items[k].qty + 1)];
      } else {
        items := items + [Item(productId, 1)];
      }
      assert items == AddOne(cart.items, productId);
      AddOneWellFormed(cart.items, productId);
      AddOneTotal(cart.items, productId);
      SaveItemsValid(carts, nextId, userId, items);
      cart := cart.(items := items);
      if userId !in old(carts) {
        assert items == [Item(productId, 1)];
        UpdateTwice(old(carts), userId, carts[userId], cart);
      }
      carts := carts[userId := cart];
      reply := Reply(200, Plain(View(cart, catalog)));
    }

    /**
     * removeItemFromCart: take one of the dish off its line. A missing cart or
     * a dish not in the cart answers 404 before anything is saved.
     */
    method RemoveItem(userId: ObjectId, productId: ObjectId, catalog: ObjectId -> Dish) returns (reply: Reply)
      requires Valid()
      modifies this
      ensures Valid() && nextId == old(nextId)
      ensures userId !in old(carts) ==> reply == Reply(404, Message(CartNotFound)) && carts == old(carts)
      ensures userId in old(carts) && !Contains(old(carts)[userId].items, productId) ==>
        reply == Reply(404, Message(ProductNotFound)) && carts == old(carts)
      ensures userId in old(carts) && Contains(old(carts)[userId].items, productId) ==>
        var before := old(carts)[userId].items;
        && carts == old(carts)[userId := old(carts)[userId].(items := RemoveAt(before, IndexOf(before, productId)))]
        && TotalQty(carts[userId].items) == TotalQty(before) - 1
        && reply == Reply(200, Plain(View(carts[userId], catalog)))
    {
      if userId !in carts {
        return Reply(404, Message(CartNotFound));
      }
      var cart := carts[userId];
      var items := cart.items;
      var k := FindLine(items, productId);
      if k == -1 {
        return Reply(404, Message(ProductNotFound));
      }
      if items[k].qty > 1 {
        items := items[k := items[k].(qty := items[k].qty - 1)];
      } else {
        items := items[..k] + items[k + 1..];
      }
      assert items == RemoveAt(cart.items, k);
      RemoveAtWellFormed(cart.items, k);
      RemoveAtTotal(cart.items, k);
      SaveItemsValid(carts, nextId, userId, items);
      cart := cart.(items := items);
      carts := carts[userId := cart];
      reply := Reply(200, Plain(View(cart, catalog)));
    }

    /**
     * clearCartForUser as written: deletes the cart whose own `_id` equals the
     * user's id and answers 404 "User Deleted successfully" either way.
     */
    method ClearCartForUser(userId: ObjectId) returns (reply: Reply)
      requires Valid()
      modifies this
      ensures Valid() && nextId == old(nextId)
      ensures carts == DeleteById(old(carts), userId)
      ensures userId.minted != CartDocs ==> carts == old(carts)
      ensures reply == Reply(404, Message(UserDeleted))
    {
      if userId.minted != CartDocs {
        DeleteByForeignIdKeepsAll(carts, nextId, userId);
      }
      carts := DeleteById(carts, userId);
      reply := Reply(404, Message(UserDeleted));
    }

    /** Clearing as intended: the user's own cart is deleted, every other cart stays, and the answer is 200. */
    method ClearCartOfOwner(userId: ObjectId) returns (reply: Reply)
      requires Valid()
      modifies this
      ensures Valid() && nextId == old(nextId)
      ensures userId !in carts
      ensures carts == old(carts) - {userId}
      ensures reply == Reply(200, Message(UserDeleted))
    {
      carts := carts - {userId};
      reply := Reply(200, Message(UserDeleted));
    }
  }
}
