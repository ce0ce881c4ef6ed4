# Cart state engine of the RocketShoes `CartProvider`

This project models the shopping-cart hook of a React storefront. The cart is a
list of lines, each with a product id, the catalog's descriptive data and an
amount. The engine offers three operations:

- `addProduct` adds one unit of a product. It raises the amount of the line the
  product already has, or fetches the product from the catalog and appends a
  new line with amount 1. It first checks the new amount against the remote
  stock.
- `removeProduct` deletes the line of a product.
- `updateProductAmount` sets a line's amount to a given value. It ignores
  non-positive values and refuses values above the stock.

Each operation works on a copy of the cart. Only on success does it replace the
component's `cart` state and write the snapshot to local storage. On failure it
shows a toast and changes nothing. When the page loads, the cart is hydrated
from that snapshot.

The project has three modules:

- `CartState` (CartState.dfy) holds the data model. It has the three operations
  as transitions on a cart value (`AddStep`, `RemoveStep`, `UpdateStep`), the
  first-match lookup `FindIndex`, and the properties of each operation as
  lemmas. Replies of the stock and catalog services are parameters. Each
  transition returns the requests it actually issued (`lookups`), so that "the
  catalog is not queried" and "no stock query is made" can be stated. The
  toast is the `Outcome` tag: every tag except `Committed` and `NoOp` raises
  one.
- `CartHook` (CartHook.dfy) holds the class `CartProvider`, whose fields are
  the `cart` state and the local-storage slot `stored`. Its constructor is the
  `useState` initializer. Its methods follow the source step by step: copy the
  cart, find the line, update the copy, then commit both fields. Each method is
  proved equal to its transition function. Each also keeps the invariant that
  hydrating the stored snapshot yields the in-memory cart, and keeps the cart
  well formed (unique ids, amounts at least 1).
- `CartSession` (CartSession.dfy) is the value-level model of the same
  component: its `State` is the provider's two fields, `Boot` its
  constructor, and `Commit` the commit its methods perform. It runs any
  sequence of operations from page load, and proves that a reload restores
  the cart and that a well-formed snapshot stays well formed through every
  run. `CartHook.Replay` ties the two together: a provider driven through a
  sequence of calls ends in the state `Run` gives.

Two details of the code that the model keeps:

- `addProduct` builds the new line by spreading the catalog's record, so the
  line gets the id the catalog returned, not the id that was requested. The
  model keeps this. Uniqueness of ids is therefore proved under the assumption
  `CatalogAnswers`: the catalog's reply for an id has that id.
- `find` and `findIndex` stop at the first match. The model does the same
  (`FindIndex`, `FirstAt`), so even a cart with duplicate ids behaves as the
  code does.

## Model

| member | source | states |
|---|---|---|
| CartHook.CartProvider.constructor | src/hooks/useCart.tsx:25-34 | the cart starts as the stored snapshot if there is one, otherwise empty; the storage slot is unchanged, so hydrating it gives the cart |
| CartState.FindIndex | src/hooks/useCart.tsx:40-42 | -1 exactly when no line has the id; otherwise the index of the first line with that id, as `find`/`findIndex` return |
| CartState.CurrentAmountAtFirst | src/hooks/useCart.tsx:47 | the amount of the line found by the lookup (0 when there is none) equals an independent recursive definition of "amount of the first line with the id" |
| CartState.FirstAtIsFound | src/hooks/useCart.tsx:82-84 | the lookup returns exactly the index of the first line carrying the id |
| CartState.AddStep | src/hooks/useCart.tsx:36-77 | only Committed, OutOfStock or AddFailed; on any outcome other than Committed the cart is unchanged; the requests are the stock lookup, optionally followed by the catalog lookup |
| CartState.AddOutOfStock | src/hooks/useCart.tsx:44-54 | when the current amount (0 if absent) plus 1 exceeds the stock, the result is OutOfStock, the cart is unchanged, and only the stock was queried, never the catalog |
| CartState.AddExisting | src/hooks/useCart.tsx:40-57 | for a product already in the cart, within stock: committed; that line's amount rises by exactly 1 and stays within the stock; id and data kept; length and every other line unchanged; no catalog query |
| CartState.AddNew | src/hooks/useCart.tsx:58-68 | for an absent product with stock at least 1 and a catalog reply: committed; exactly one line appended at the end, holding the catalog's record with amount 1; earlier lines unchanged; stock then catalog queried |
| CartState.AddStockFailure | src/hooks/useCart.tsx:44-76 | a failed stock request gives AddFailed with the cart unchanged |
| CartState.AddCatalogFailure | src/hooks/useCart.tsx:59-76 | for an absent product in stock, a failed catalog request gives AddFailed with the cart unchanged |
| CartState.AddWithinStock | src/hooks/useCart.tsx:44-68 | a committed add got a stock reply; it changed or appended exactly one line, whose amount is within that reply, and kept every other line |
| CartState.AddPreservesWellFormed | src/hooks/useCart.tsx:36-77 | if the cart has unique ids and amounts of at least 1, and the catalog answers with the requested id, the cart after the add has both properties too |
| CartState.RemoveStep | src/hooks/useCart.tsx:79-101 | only Committed or RemoveFailed; the cart is unchanged unless committed; no remote request is made |
| CartState.RemovePresent | src/hooks/useCart.tsx:81-91 | for a present id: committed; the length drops by 1; the lines before the removed one keep their place and the lines after it move one place down, in order |
| CartState.RemoveDropsId | src/hooks/useCart.tsx:82-87 | with unique ids, no line carries the removed id afterwards |
| CartState.RemoveAbsent | src/hooks/useCart.tsx:92-99 | for an absent id: RemoveFailed; the cart is unchanged |
| CartState.RemovePreservesWellFormed | src/hooks/useCart.tsx:81-91 | removing keeps unique ids and amounts of at least 1 |
| CartState.UpdateStep | src/hooks/useCart.tsx:103-137 | only Committed, OutOfStock, UpdateFailed or NoOp; the cart is unchanged unless committed; at most one request, the stock lookup |
| CartState.UpdateNonPositive | src/hooks/useCart.tsx:108-110 | an amount of 0 or less is NoOp, whatever the stock: no request, no change and no toast |
| CartState.UpdateOutOfStock | src/hooks/useCart.tsx:112-119 | a positive amount above the stock gives OutOfStock with the cart unchanged, whether or not the id is in the cart |
| CartState.UpdateSuccess | src/hooks/useCart.tsx:121-129 | for a present id with 0 < amount <= stock: committed; the line's amount becomes exactly `amount` (an absolute set), its id and data are kept, and every other line and the length are unchanged |
| CartState.UpdateAbsent | src/hooks/useCart.tsx:121-135 | for an absent id, within stock: UpdateFailed; the cart is unchanged |
| CartState.UpdateStockFailure | src/hooks/useCart.tsx:112-136 | a failed stock request for a positive amount gives UpdateFailed with the cart unchanged |
| CartState.UpdateWithinStock | src/hooks/useCart.tsx:112-129 | a committed update got a stock reply; the amount is positive and within it; exactly one line with the id took that amount; all other lines and the length are unchanged |
| CartState.UpdatePreservesWellFormed | src/hooks/useCart.tsx:103-137 | updating keeps unique ids and amounts of at least 1 |
| CartState.AddCountsOne | src/hooks/useCart.tsx:40-68 | for any cart, one add raises the amount held for the product by exactly 1 when it commits and leaves it otherwise; a committed amount is within the stock that call queried |
| CartState.AddSeriesCounts | src/hooks/useCart.tsx:36-77 | for any cart and any series of adds of one product, each with its own stock and catalog reply, the final amount is the starting amount plus the number of calls that committed |
| CartState.AddRepeatedlyCaps | src/hooks/useCart.tsx:44-68 | on the cart holding only that product (a <= s units, or nothing), k adds with the same stock reply s on each call leave min(a + k, s) units; the calls past the stock change nothing |
| CartState.FiveInStockScenario | src/hooks/useCart.tsx:44-68 | with stock 5: three adds give `[{id 1, amount 3}]`; five and six adds both give amount 5, and the sixth call is rejected as out of stock |
| CartHook.CartProvider.AddProduct | src/hooks/useCart.tsx:36-77 | outcome, requests and new cart are those of AddStep on the old cart; the snapshot equals the new cart after a commit and is untouched otherwise; hydration stays in sync; well-formedness is kept |
| CartHook.CartProvider.RemoveProduct | src/hooks/useCart.tsx:79-101 | outcome and new cart are those of RemoveStep; the snapshot is written only on commit; hydration stays in sync; well-formedness is kept and the id is gone |
| CartHook.CartProvider.UpdateProductAmount | src/hooks/useCart.tsx:103-137 | outcome, requests and new cart are those of UpdateStep; the snapshot is written only on commit; hydration stays in sync; well-formedness is kept |
| CartHook.Reload | src/hooks/useCart.tsx:25-34 | a provider mounted over the snapshot another one left holds the same cart |
| CartHook.Replay | src/hooks/useCart.tsx:24-137 | a provider mounted over a snapshot and driven through any sequence of calls ends with the cart and stored snapshot that the value-level run predicts, with hydration in sync |
| CartSession.FailureTouchesNothing | src/hooks/useCart.tsx:36-137 | an operation that does not commit produced a candidate cart equal to the old cart, and leaves both the cart and the stored snapshot as they were |
| CartSession.RunStaysSynced | src/hooks/useCart.tsx:68-70 | through any sequence of operations, hydrating the stored snapshot gives the in-memory cart |
| CartSession.RestartRestoresCart | src/hooks/useCart.tsx:25-34 | after any run from page load, a reload gives exactly the state before it |
| CartSession.RunPreservesWellFormed | src/hooks/useCart.tsx:36-137 | through any run whose catalog replies have the requested ids, unique ids and amounts of at least 1 are kept |
| CartSession.BootedRunWellFormed | src/hooks/useCart.tsx:25-34 | from a well-formed stored snapshot, both the cart and the stored snapshot stay well formed through any run |

## Left out

- React plumbing is not modelled: `createContext`, the context provider, the JSX children and the `useCart` hook (src/hooks/useCart.tsx:22, 139-152). They hold no logic.
- The HTTP client is not modelled. Each reply of `GET /stock/{id}` and `GET /products/{id}` is a parameter that may be a failure. The issued requests are returned as `lookups`.
- A stock reply without a numeric `amount` is not modelled. In JavaScript such a reply makes the comparison false and the operation goes on. The model treats every successful reply as carrying an integer.
- Amounts and ids are JavaScript numbers. The model uses unbounded integers, so fractional amounts, NaN and floating-point rounding are not covered.
- Toasts are not modelled: their display and message texts are left out. The `Outcome` tag says which toast, if any, is raised.
- The storage key and `JSON.stringify`/`JSON.parse` are not modelled. The snapshot is the sequence itself, so serialization is taken to be an exact round trip. A corrupt snapshot, which would make `JSON.parse` throw in the initializer, is left out.
- The empty-string snapshot, which `if (storagedCart)` treats like a missing one, is folded into `None`.
- Interleaving at the `await` points is not modelled. Operations run one at a time. The closure's capture of a stale `cart` under concurrent calls is not captured.
- Aliasing from the shallow copy (`productExists.amount = ...` on an entry that the old state shares) is modelled as a value update of the line in the new sequence. The assignment also changes the entry inside the previous state array; that is not captured. No remote call comes between the assignment and `setCart`, which replaces the previous array at once.
- A throwing `localStorage.setItem` (for example when storage is full) is not modelled: every snapshot write is taken to succeed. In the source, `setCart` has already run when `setItem` throws (src/hooks/useCart.tsx:68-70, 89-91, 127-129), so the catch shows the failure toast while the in-memory cart holds the change and storage keeps the old snapshot. `CartHook.CartProvider.Valid`, `CartSession.RunStaysSynced`, `CartSession.RestartRestoresCart` and `CartHook.Replay` rely on writes never failing.
- The fields of `Product` from `../types` are not modelled. `../types` is not part of this model, so the catalog data is the opaque type `Meta`.
