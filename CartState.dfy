/** The cart state engine of the storefront's CartProvider: its data, the
    three operations as transitions on a cart value, and what they promise.

    An operation never talks to the stock or catalog services itself: the
    caller passes the reply that service gives, and the operation reports in
    `lookups` which requests it actually issued.  A reply that is passed but
    does not appear in `lookups` was never asked for.  The toast the source
    raises is the `Outcome` tag. */
module CartState {

  datatype Option<T> = None | Some(value: T)

  /** Descriptive product data from the catalog (title, price, image, ...). */
  type Meta

  /** A cart line: the catalog record with the quantity held in the cart. */
  datatype Product = Product(id: int, meta: Meta, amount: int)

  /** The catalog's record for a product, which carries its own id. */
  datatype CatalogItem = CatalogItem(id: int, meta: Meta)

  /** Reply of `GET /stock/{id}`: the units available, or a failed request. */
  datatype StockReply = StockOk(amount: int) | StockFail

  /** Reply of `GET /products/{id}`. */
  datatype CatalogReply = CatalogOk(item: CatalogItem) | CatalogFail

  /** A request an operation sends to the remote services. */
  datatype Lookup = StockLookup(id: int) | CatalogLookup(id: int)

  /** How an operation ended; every tag but Committed and NoOp raises a toast. */
  datatype Outcome = Committed | OutOfStock | AddFailed | RemoveFailed | UpdateFailed | NoOp

  /** The result of one operation: how it ended, the cart afterwards and the
      requests it issued. */
  datatype Step = Step(outcome: Outcome, cart: seq<Product>, lookups: seq<Lookup>)

  predicate Notifies(o: Outcome)
  {
    o != Committed && o != NoOp
  }

  // ----- Cart invariants -----

  predicate Contains(cart: seq<Product>, id: int)
  {
    exists k :: 0 <= k < |cart| && cart[k].id == id
  }

  /** `i` is where `Array.prototype.find` stops: the first entry with `id`. */
  predicate FirstAt(cart: seq<Product>, id: int, i: int)
  {
    0 <= i < |cart| && cart[i].id == id && forall k :: 0 <= k < i ==> cart[k].id != id
  }

  predicate UniqueIds(cart: seq<Product>)
  {
    forall j, k :: 0 <= j < k < |cart| ==> cart[j].id != cart[k].id
  }

  predicate PositiveAmounts(cart: seq<Product>)
  {
    forall k :: 0 <= k < |cart| ==> cart[k].amount >= 1
  }

  predicate WellFormed(cart: seq<Product>)
  {
    UniqueIds(cart) && PositiveAmounts(cart)
  }

  /** The catalog, asked for `id`, answers with the record of that id. */
  predicate CatalogAnswers(catalog: CatalogReply, id: int)
  {
    catalog.CatalogOk? ==> catalog.item.id == id
  }

  /** The cart a freshly mounted provider starts with: the stored snapshot
      if there is one, otherwise the empty cart. */
  function Hydrate(stored: Option<seq<Product>>): seq<Product>
  {
    match stored
    case None => []
    case Some(snapshot) => snapshot
  }

  // ----- Lookup in the cart -----

  /** `findIndex(p => p.id === id)`: the first index holding `id`, or -1. */
  function FindIndex(cart: seq<Product>, id: int): (r: int)
    ensures -1 <= r < |cart|
    ensures r == -1 <==> !Contains(cart, id)
    ensures r >= 0 ==> FirstAt(cart, id, r)
  {
    if |cart| == 0 then -1
    else if cart[0].id == id then 0
    else
      var r := FindIndex(cart[1..], id);
      assert Contains(cart, id) ==> Contains(cart[1..], id) by {
        if Contains(cart, id) {
          var k :| 0 <= k < |cart| && cart[k].id == id;
          assert cart[1..][k - 1].id == id;
        }
      }
      if r == -1 then -1 else r + 1
  }

  /** The amount held for `id`, 0 when the cart has no entry for it: an
      independent, recursive reading of "the amount of the first match". */
  function CurrentAmount(cart: seq<Product>, id: int): int
  {
    if |cart| == 0 then 0
    else if cart[0].id == id then cart[0].amount
    else CurrentAmount(cart[1..], id)
  }

  lemma {:induction false} CurrentAmountAtFirst(cart: seq<Product>, id: int)
    ensures CurrentAmount(cart, id) == (if FindIndex(cart, id) >= 0 then cart[FindIndex(cart, id)].amount else 0)
  {
    if |cart| > 0 && cart[0].id != id {
      CurrentAmountAtFirst(cart[1..], id);
    }
  }

  lemma FirstAtIsFound(cart: seq<Product>, id: int, i: int)
    requires FirstAt(cart, id, i)
    ensures FindIndex(cart, id) == i
  {
    assert Contains(cart, id);
  }

  // ----- The three operations -----

  /** `addProduct(productId)`: the stock is asked first; one more unit of an
      existing line, or a new line of amount 1 built from the catalog record. */
  function AddStep(cart: seq<Product>, productId: int, stock: StockReply, catalog: CatalogReply): (r: Step)
    ensures r.outcome == Committed || r.outcome == OutOfStock || r.outcome == AddFailed
    ensures r.outcome != Committed ==> r.cart == cart
    ensures r.lookups == [StockLookup(productId)]
         || r.lookups == [StockLookup(productId), CatalogLookup(productId)]
  {
    var index := FindIndex(cart, productId);
    match stock
    case StockFail => Step(AddFailed, cart, [StockLookup(productId)])
    case StockOk(stockAmount) =>
      var amount := (if index >= 0 then cart[index].amount else 0) + 1;
      if amount > stockAmount then Step(OutOfStock, cart, [StockLookup(productId)])
      else if index >= 0 then
        Step(Committed, cart[index := cart[index].(amount := amount)], [StockLookup(productId)])
      else
        match catalog
        case CatalogFail => Step(AddFailed, cart, [StockLookup(productId), CatalogLookup(productId)])
        case CatalogOk(item) =>
          Step(Committed, cart + [Product(item.id, item.meta, 1)],
               [StockLookup(productId), CatalogLookup(productId)])
  }

  /** `removeProduct(productId)`: splice the first matching line out. */
  function RemoveStep(cart: seq<Product>, productId: int): (r: Step)
    ensures r.outcome == Committed || r.outcome == RemoveFailed
    ensures r.outcome != Committed ==> r.cart == cart
    ensures r.lookups == []
  {
    var index := FindIndex(cart, productId);
    if index >= 0 then Step(Committed, cart[..index] + cart[index + 1..], [])
    else Step(RemoveFailed, cart, [])
  }

  /** `updateProductAmount({productId, amount})`: the guard, then the stock,
      then the line; an absolute set of the amount. */
  function UpdateStep(cart: seq<Product>, productId: int, amount: int, stock: StockReply): (r: Step)
    ensures r.outcome == Committed || r.outcome == OutOfStock || r.outcome == UpdateFailed || r.outcome == NoOp
    ensures r.outcome != Committed ==> r.cart == cart
    ensures r.lookups == [] || r.lookups == [StockLookup(productId)]
  {
    if amount <= 0 then Step(NoOp, cart, [])
    else
      match stock
      case StockFail => Step(UpdateFailed, cart, [StockLookup(productId)])
      case StockOk(stockAmount) =>
        if amount > stockAmount then Step(OutOfStock, cart, [StockLookup(productId)])
        else
          var index := FindIndex(cart, productId);
          if index >= 0 then
            Step(Committed, cart[index := cart[index].(amount := amount)], [StockLookup(productId)])
          else Step(UpdateFailed, cart, [StockLookup(productId)])
  }

  // ----- addProduct -----

  lemma AddOutOfStock(cart: seq<Product>, productId: int, s: int, catalog: CatalogReply)
    requires CurrentAmount(cart, productId) + 1 > s
    ensures AddStep(cart, productId, StockOk(s), catalog) == Step(OutOfStock, cart, [StockLookup(productId)])
  {
    CurrentAmountAtFirst(cart, productId);
  }

  lemma AddExisting(cart: seq<Product>, productId: int, i: int, s: int, catalog: CatalogReply)
    requires FirstAt(cart, productId, i) && cart[i].amount + 1 <= s
    ensures var r := AddStep(cart, productId, StockOk(s), catalog);
      && r.outcome == Committed
      && r.lookups == [StockLookup(productId)]
      && |r.cart| == |cart|
      && r.cart[i].id == productId && r.cart[i].meta == cart[i].meta
      && r.cart[i].amount == cart[i].amount + 1 <= s
      && (forall k :: 0 <= k < |cart| && k != i ==> r.cart[k] == cart[k])
  {
    FirstAtIsFound(cart, productId, i);
  }

  lemma AddNew(cart: seq<Product>, productId: int, s: int, item: CatalogItem)
    requires !Contains(cart, productId) && s >= 1
    ensures var r := AddStep(cart, productId, StockOk(s), CatalogOk(item));
      && r.outcome == Committed
      && r.lookups == [StockLookup(productId), CatalogLookup(productId)]
      && |r.cart| == |cart| + 1
      && r.cart[..|cart|] == cart
      && r.cart[|cart|] == Product(item.id, item.meta, 1)
  {
  }

  lemma AddStockFailure(cart: seq<Product>, productId: int, catalog: CatalogReply)
    ensures AddStep(cart, productId, StockFail, catalog) == Step(AddFailed, cart, [StockLookup(productId)])
  {
  }

  lemma AddCatalogFailure(cart: seq<Product>, productId: int, s: int)
    requires !Contains(cart, productId) && s >= 1
    ensures AddStep(cart, productId, StockOk(s), CatalogFail)
         == Step(AddFailed, cart, [StockLookup(productId), CatalogLookup(productId)])
  {
  }

  /** A committed add changes exactly one line, and that line's amount is
      within the stock queried by the call. */
  lemma AddWithinStock(cart: seq<Product>, productId: int, stock: StockReply, catalog: CatalogReply)
    requires AddStep(cart, productId, stock, catalog).outcome == Committed
    ensures var r := AddStep(cart, productId, stock, catalog);
      && stock.StockOk?
      && exists j :: 0 <= j < |r.cart| && r.cart[j].amount <= stock.amount
           && |r.cart| == |cart| + (if j == |cart| then 1 else 0)
           && forall k :: 0 <= k < |cart| && k != j ==> r.cart[k] == cart[k]
  {
    var r := AddStep(cart, productId, stock, catalog);
    var index := FindIndex(cart, productId);
    var j := if index >= 0 then index else |cart|;
    assert r.cart[j].amount <= stock.amount;
  }

  lemma AddPreservesWellFormed(cart: seq<Product>, productId: int, stock: StockReply, catalog: CatalogReply)
    requires WellFormed(cart) && CatalogAnswers(catalog, productId)
    ensures WellFormed(AddStep(cart, productId, stock, catalog).cart)
  {
  }

  // ----- removeProduct -----

  lemma RemovePresent(cart: seq<Product>, productId: int, i: int)
    requires FirstAt(cart, productId, i)
    ensures var r := RemoveStep(cart, productId);
      && r.outcome == Committed
      && |r.cart| == |cart| - 1
      && (forall k :: 0 <= k < i ==> r.cart[k] == cart[k])
      && (forall k :: i <= k < |r.cart| ==> r.cart[k] == cart[k + 1])
  {
    FirstAtIsFound(cart, productId, i);
  }

  /** With unique ids the removed id is gone afterwards. */
  lemma RemoveDropsId(cart: seq<Product>, productId: int)
    requires UniqueIds(cart)
    ensures !Contains(RemoveStep(cart, productId).cart, productId)
  {
    var r := RemoveStep(cart, productId);
    var i := FindIndex(cart, productId);
    if i >= 0 {
      forall k | 0 <= k < |r.cart|
        ensures r.cart[k].id != productId
      {
        if k >= i {
          assert r.cart[k] == cart[k + 1];
        }
      }
    }
  }

  lemma RemoveAbsent(cart: seq<Product>, productId: int)
    requires !Contains(cart, productId)
    ensures RemoveStep(cart, productId) == Step(RemoveFailed, cart, [])
  {
  }

  lemma RemovePreservesWellFormed(cart: seq<Product>, productId: int)
    requires WellFormed(cart)
    ensures WellFormed(RemoveStep(cart, productId).cart)
  {
    var r := RemoveStep(cart, productId);
    var i := FindIndex(cart, productId);
    if i >= 0 {
      assert forall k :: 0 <= k < |r.cart| ==> r.cart[k] == cart[if k < i then k else k + 1];
    }
  }

  // ----- updateProductAmount -----

  lemma UpdateNonPositive(cart: seq<Product>, productId: int, amount: int, stock: StockReply)
    requires amount <= 0
    ensures UpdateStep(cart, productId, amount, stock) == Step(NoOp, cart, [])
    ensures !Notifies(UpdateStep(cart, productId, amount, stock).outcome)
  {
  }

  /** The stock check comes before the lookup, so this holds whether or not
      the cart holds `productId`. */
  lemma UpdateOutOfStock(cart: seq<Product>, productId: int, amount: int, s: int)
    requires 0 < amount && s < amount
    ensures UpdateStep(cart, productId, amount, StockOk(s)) == Step(OutOfStock, cart, [StockLookup(productId)])
  {
  }

  lemma UpdateSuccess(cart: seq<Product>, productId: int, i: int, amount: int, s: int)
    requires FirstAt(cart, productId, i) && 0 < amount <= s
    ensures var r := UpdateStep(cart, productId, amount, StockOk(s));
      && r.outcome == Committed
      && r.lookups == [StockLookup(productId)]
      && |r.cart| == |cart|
      && r.cart[i] == Product(productId, cart[i].meta, amount)
      && (forall k :: 0 <= k < |cart| && k != i ==> r.cart[k] == cart[k])
  {
    FirstAtIsFound(cart, productId, i);
  }

  lemma UpdateAbsent(cart: seq<Product>, productId: int, amount: int, s: int)
    requires !Contains(cart, productId) && 0 < amount <= s
    ensures UpdateStep(cart, productId, amount, StockOk(s)) == Step(UpdateFailed, cart, [StockLookup(productId)])
  {
  }

  lemma UpdateStockFailure(cart: seq<Product>, productId: int, amount: int)
    requires 0 < amount
    ensures UpdateStep(cart, productId, amount, StockFail) == Step(UpdateFailed, cart, [StockLookup(productId)])
  {
  }

  /** A committed update sets one line to a positive amount within the stock
      queried by the call, and keeps every other line. */
  lemma UpdateWithinStock(cart: seq<Product>, productId: int, amount: int, stock: StockReply)
    requires UpdateStep(cart, productId, amount, stock).outcome == Committed
    ensures var r := UpdateStep(cart, productId, amount, stock);
      && stock.StockOk? && 0 < amount <= stock.amount
      && |r.cart| == |cart|
      && exists j :: 0 <= j < |cart| && r.cart[j].id == productId && r.cart[j].amount == amount
           && forall k :: 0 <= k < |cart| && k != j ==> r.cart[k] == cart[k]
  {
    var j := FindIndex(cart, productId);
    assert UpdateStep(cart, productId, amount, stock).cart[j].amount == amount;
  }

  lemma UpdatePreservesWellFormed(cart: seq<Product>, productId: int, amount: int, stock: StockReply)
    requires WellFormed(cart)
    ensures WellFormed(UpdateStep(cart, productId, amount, stock).cart)
  {
  }

  // ----- Repeated adds -----

  /** The cart after `k` calls of `addProduct(productId)` with the same replies. */
  function AddRepeatedly(cart: seq<Product>, productId: int, stock: StockReply, catalog: CatalogReply, k: nat): seq<Product>
    decreases k
  {
    if k == 0 then cart
    else AddRepeatedly(AddStep(cart, productId, stock, catalog).cart, productId, stock, catalog, k - 1)
  }

  /** The cart holding `a` units of the catalog's product, empty for a == 0. */
  function Holding(item: CatalogItem, a: int): seq<Product>
  {
    if a == 0 then [] else [Product(item.id, item.meta, a)]
  }

  function Min(a: int, b: int): int
  {
    if a <= b then a else b
  }

  /** Adding one product k times to a cart holding a <= s units of it, with
      stock s, ends at min(a + k, s) units: the calls past the stock change
      nothing. */
  lemma {:induction false} AddRepeatedlyCaps(item: CatalogItem, s: int, a: int, k: nat)
    requires 0 <= a <= s
    decreases k
    ensures AddRepeatedly(Holding(item, a), item.id, StockOk(s), CatalogOk(item), k) == Holding(item, Min(a + k, s))
  {
    if k > 0 {
      var c := Holding(item, a);
      if a == 0 {
        assert !Contains(c, item.id);
      } else {
        FirstAtIsFound(c, item.id, 0);
      }
      if a + 1 > s {
        AddRepeatedlyCaps(item, s, a, k - 1);
      } else {
        assert AddStep(c, item.id, StockOk(s), CatalogOk(item)).cart == Holding(item, a + 1);
        AddRepeatedlyCaps(item, s, a + 1, k - 1);
      }
    }
  }

  /** One add moves the amount of `productId` up by exactly one when it
      commits, and not at all otherwise; a committed amount is within the
      stock the call queried. */
  lemma AddCountsOne(cart: seq<Product>, productId: int, stock: StockReply, catalog: CatalogReply)
    requires CatalogAnswers(catalog, productId)
    ensures var r := AddStep(cart, productId, stock, catalog);
      && CurrentAmount(r.cart, productId) == CurrentAmount(cart, productId) + (if r.outcome == Committed then 1 else 0)
      && (r.outcome == Committed ==> stock.StockOk? && CurrentAmount(r.cart, productId) <= stock.amount)
  {
    var r := AddStep(cart, productId, stock, catalog);
    var i := FindIndex(cart, productId);
    CurrentAmountAtFirst(cart, productId);
    CurrentAmountAtFirst(r.cart, productId);
    if r.outcome == Committed {
      if i >= 0 {
        FirstAtIsFound(r.cart, productId, i);
      } else {
        FirstAtIsFound(r.cart, productId, |cart|);
      }
    }
  }

  /** The cart after one `addProduct(productId)` per pair of replies, in order. */
  function AddSeries(cart: seq<Product>, productId: int, replies: seq<(StockReply, CatalogReply)>): seq<Product>
    decreases |replies|
  {
    if replies == [] then cart
    else AddSeries(AddStep(cart, productId, replies[0].0, replies[0].1).cart, productId, replies[1..])
  }

  /** How many of those calls committed. */
  function CommittedAdds(cart: seq<Product>, productId: int, replies: seq<(StockReply, CatalogReply)>): nat
    decreases |replies|
  {
    if replies == [] then 0
    else
      var r := AddStep(cart, productId, replies[0].0, replies[0].1);
      (if r.outcome == Committed then 1 else 0) + CommittedAdds(r.cart, productId, replies[1..])
  }

  /** Over any series of adds of one product, each with its own stock
      reply, the amount grows by exactly the number of calls that committed. */
  lemma {:induction false} AddSeriesCounts(cart: seq<Product>, productId: int, replies: seq<(StockReply, CatalogReply)>)
    requires forall i :: 0 <= i < |replies| ==> CatalogAnswers(replies[i].1, productId)
    ensures CurrentAmount(AddSeries(cart, productId, replies), productId)
         == CurrentAmount(cart, productId) + CommittedAdds(cart, productId, replies)
    decreases |replies|
  {
    if replies != [] {
      AddCountsOne(cart, productId, replies[0].0, replies[0].1);
      var next := AddStep(cart, productId, replies[0].0, replies[0].1).cart;
      assert forall i :: 0 <= i < |replies[1..]| ==> replies[1..][i] == replies[i + 1];
      AddSeriesCounts(next, productId, replies[1..]);
    }
  }

  /** Stock 5 for product 1: three adds give amount 3; three more stop at 5,
      and the sixth call is rejected as out of stock. */
  lemma FiveInStockScenario(meta: Meta)
    ensures var item := CatalogItem(1, meta);
      && AddRepeatedly([], 1, StockOk(5), CatalogOk(item), 3) == [Product(1, meta, 3)]
      && AddRepeatedly([], 1, StockOk(5), CatalogOk(item), 5) == [Product(1, meta, 5)]
      && AddStep([Product(1, meta, 5)], 1, StockOk(5), CatalogOk(item)).outcome == OutOfStock
      && AddRepeatedly([], 1, StockOk(5), CatalogOk(item), 6) == [Product(1, meta, 5)]
  {
    var item := CatalogItem(1, meta);
    AddRepeatedlyCaps(item, 5, 0, 3);
    AddRepeatedlyCaps(item, 5, 0, 5);
    AddRepeatedlyCaps(item, 5, 0, 6);
    AddOutOfStock([Product(1, meta, 5)], 1, 5, CatalogOk(item));
  }
}
