/** The `CartProvider` component: the cart state it holds, the snapshot it
    keeps in local storage, and its three operations, each working on a copy
    of the cart and committing both the state and the snapshot only when it
    succeeds. */
module CartHook {
  import opened CartState
  import CartSession

  class CartProvider {
    /** The `cart` state of the component. */
    var cart: seq<Product>
    /** The local-storage slot holding the cart snapshot, None while unset. */
    var stored: Option<seq<Product>>

    /** Hydrating from the stored snapshot yields the in-memory cart. */
    ghost predicate Valid()
      reads this
    {
      Hydrate(stored) == cart
    }

    /** The `useState` initializer: the stored snapshot if any, else empty. */
    constructor (snapshot: Option<seq<Product>>)
      ensures Valid()
      ensures stored == snapshot
      ensures cart == (if snapshot.Some? then snapshot.value else [])
    {
      stored := snapshot;
      if snapshot.Some? {
        cart := snapshot.value;
      } else {
        cart := [];
      }
    }

    method AddProduct(productId: int, stock: StockReply, catalog: CatalogReply) returns (outcome: Outcome, lookups: seq<Lookup>)
      requires Valid()
      modifies this
      ensures Valid()
      ensures Step(outcome, cart, lookups) == AddStep(old(cart), productId, stock, catalog)
      ensures stored == if outcome == Committed then Some(cart) else old(stored)
      ensures WellFormed(old(cart)) && CatalogAnswers(catalog, productId) ==> WellFormed(cart)
    {
      var updatedCart := cart;
      var index := FindIndex(updatedCart, productId);
      lookups := [StockLookup(productId)];
      if stock.StockFail? {
        return AddFailed, lookups;
      }
      var stockAmount := stock.amount;
      var currentAmount := if index >= 0 then updatedCart[index].amount else 0;
      var amount := currentAmount + 1;
      if amount > stockAmount {
        return OutOfStock, lookups;
      }
      if index >= 0 {
        updatedCart := updatedCart[index := updatedCart[index].(amount := amount)];
      } else {
        lookups := lookups + [CatalogLookup(productId)];
        if catalog.CatalogFail? {
          return AddFailed, lookups;
        }
        updatedCart := updatedCart + [Product(catalog.item.id, catalog.item.meta, 1)];
      }
      ghost var before := cart;
      cart := updatedCart;
      stored := Some(updatedCart);
      outcome := Committed;
      if WellFormed(before) && CatalogAnswers(catalog, productId) {
        AddPreservesWellFormed(before, productId, stock, catalog);
      }
    }

    method RemoveProduct(productId: int) returns (outcome: Outcome)
      requires Valid()
      modifies this
      ensures Valid()
      ensures Step(outcome, cart, []) == RemoveStep(old(cart), productId)
      ensures stored == if outcome == Committed then Some(cart) else old(stored)
      ensures WellFormed(old(cart)) ==> WellFormed(cart) && !Contains(cart, productId)
    {
      ghost var before := cart;
      var updatedCart := cart;
      var productIndex := FindIndex(updatedCart, productId);
      if productIndex >= 0 {
        updatedCart := updatedCart[..productIndex] + updatedCart[productIndex + 1..];
        cart := updatedCart;
        stored := Some(updatedCart);
        outcome := Committed;
      } else {
        outcome := RemoveFailed;
      }
      if WellFormed(before) {
        RemovePreservesWellFormed(before, productId);
        RemoveDropsId(before, productId);
      }
    }

    method UpdateProductAmount(productId: int, amount: int, stock: StockReply) returns (outcome: Outcome, lookups: seq<Lookup>)
      requires Valid()
      modifies this
      ensures Valid()
      ensures Step(outcome, cart, lookups) == UpdateStep(old(cart), productId, amount, stock)
      ensures stored == if outcome == Committed then Some(cart) else old(stored)
      ensures WellFormed(old(cart)) ==> WellFormed(cart)
    {
      ghost var before := cart;
      if amount <= 0 {
        return NoOp, [];
      }
      lookups := [StockLookup(productId)];
      if stock.StockFail? {
        return UpdateFailed, lookups;
      }
      var stockAmount := stock.amount;
      if amount > stockAmount {
        return OutOfStock, lookups;
      }
      var updatedCart := cart;
      var index := FindIndex(updatedCart, productId);
      if index >= 0 {
        updatedCart := updatedCart[index := updatedCart[index].(amount := amount)];
        cart := updatedCart;
        stored := Some(updatedCart);
        outcome := Committed;
      } else {
        outcome := UpdateFailed;
      }
      if WellFormed(before) {
        UpdatePreservesWellFormed(before, productId, amount, stock);
      }
    }
  }

  /** A page reload: a new provider hydrated from the snapshot the old one
      left behind holds the same cart. */
  method Reload(provider: CartProvider) returns (reloaded: CartProvider)
    requires provider.Valid()
    ensures reloaded.cart == provider.cart && reloaded.stored == provider.stored
  {
    reloaded := new CartProvider(provider.stored);
  }

  /** Mounts a provider over `snapshot` and performs `ops` on it one call at
      a time: the provider ends in the state the value-level run predicts. */
  method Replay(snapshot: Option<seq<Product>>, ops: seq<CartSession.Op>) returns (provider: CartProvider)
    ensures provider.Valid()
    ensures CartSession.State(provider.cart, provider.stored) == CartSession.Run(CartSession.Boot(snapshot), ops)
  {
    provider := new CartProvider(snapshot);
    var i := 0;
    while i < |ops|
      invariant 0 <= i <= |ops|
      invariant provider.Valid()
      invariant CartSession.Run(CartSession.State(provider.cart, provider.stored), ops[i..])
             == CartSession.Run(CartSession.Boot(snapshot), ops)
    {
      assert ops[i..][1..] == ops[i + 1..];
      match ops[i] {
        case Add(id, stock, catalog) =>
          var _, _ := provider.AddProduct(id, stock, catalog);
        case Remove(id) =>
          var _ := provider.RemoveProduct(id);
        case Update(id, amount, stock) =>
          var _, _ := provider.UpdateProductAmount(id, amount, stock);
      }
      i := i + 1;
    }
  }
}
