/** Sequences of cart operations from page load on, with the local-storage
    snapshot each commit writes: what a reload brings back and which
    invariants every run keeps. */
module CartSession {
  import opened CartState

  /** One call of the engine, with the replies its requests would receive. */
  datatype Op =
    | Add(productId: int, stock: StockReply, catalog: CatalogReply)
    | Remove(productId: int)
    | Update(productId: int, amount: int, stock: StockReply)

  /** The in-memory cart and the stored snapshot. */
  datatype State = State(cart: seq<Product>, stored: Option<seq<Product>>)

  /** Mounting the provider over what local storage holds. */
  function Boot(snapshot: Option<seq<Product>>): State
  {
    State(Hydrate(snapshot), snapshot)
  }

  function Apply(cart: seq<Product>, op: Op): Step
  {
    match op
    case Add(id, stock, catalog) => AddStep(cart, id, stock, catalog)
    case Remove(id) => RemoveStep(cart, id)
    case Update(id, amount, stock) => UpdateStep(cart, id, amount, stock)
  }

  /** `setCart` and `localStorage.setItem` together on success; nothing on failure. */
  function Commit(st: State, step: Step): State
  {
    if step.outcome == Committed then State(step.cart, Some(step.cart)) else st
  }

  function Run(st: State, ops: seq<Op>): State
    decreases |ops|
  {
    if ops == [] then st else Run(Commit(st, Apply(st.cart, ops[0])), ops[1..])
  }

  predicate Synced(st: State)
  {
    Hydrate(st.stored) == st.cart
  }

  /** Every catalog reply in `ops` is the record of the id that was asked for. */
  predicate CatalogConsistent(ops: seq<Op>)
  {
    forall i :: 0 <= i < |ops| && ops[i].Add? ==> CatalogAnswers(ops[i].catalog, ops[i].productId)
  }

  /** A failed or ignored call discards a candidate cart equal to the old
      one, and leaves both the cart and the snapshot as they were. */
  lemma FailureTouchesNothing(st: State, op: Op)
    requires Apply(st.cart, op).outcome != Committed
    ensures Apply(st.cart, op).cart == st.cart
    ensures Commit(st, Apply(st.cart, op)) == st
  {
  }

  lemma {:induction false} RunStaysSynced(st: State, ops: seq<Op>)
    requires Synced(st)
    ensures Synced(Run(st, ops))
    decreases |ops|
  {
    if ops != [] {
      RunStaysSynced(Commit(st, Apply(st.cart, ops[0])), ops[1..]);
    }
  }

  /** Whatever happened since the page was loaded, reloading it brings back
      the cart of the moment before the reload. */
  lemma RestartRestoresCart(snapshot: Option<seq<Product>>, ops: seq<Op>)
    ensures Boot(Run(Boot(snapshot), ops).stored) == Run(Boot(snapshot), ops)
  {
    RunStaysSynced(Boot(snapshot), ops);
  }

  lemma {:induction false} RunPreservesWellFormed(st: State, ops: seq<Op>)
    requires WellFormed(st.cart) && CatalogConsistent(ops)
    ensures WellFormed(Run(st, ops).cart)
    decreases |ops|
  {
    if ops != [] {
      match ops[0] {
        case Add(id, stock, catalog) => AddPreservesWellFormed(st.cart, id, stock, catalog);
        case Remove(id) => RemovePreservesWellFormed(st.cart, id);
        case Update(id, amount, stock) => UpdatePreservesWellFormed(st.cart, id, amount, stock);
      }
      assert CatalogConsistent(ops[1..]) by {
        forall i | 0 <= i < |ops[1..]| && ops[1..][i].Add?
          ensures CatalogAnswers(ops[1..][i].catalog, ops[1..][i].productId)
        {
          assert ops[1..][i] == ops[i + 1];
        }
      }
      RunPreservesWellFormed(Commit(st, Apply(st.cart, ops[0])), ops[1..]);
    }
  }

  /** A well-formed snapshot stays well-formed, in memory and in storage,
      through any run. */
  lemma BootedRunWellFormed(snapshot: seq<Product>, ops: seq<Op>)
    requires WellFormed(snapshot) && CatalogConsistent(ops)
    ensures WellFormed(Run(Boot(Some(snapshot)), ops).cart)
    ensures WellFormed(Hydrate(Run(Boot(Some(snapshot)), ops).stored))
  {
    RunPreservesWellFormed(Boot(Some(snapshot)), ops);
    RunStaysSynced(Boot(Some(snapshot)), ops);
  }
}
