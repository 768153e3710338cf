# Request-lifecycle reducers of an e-commerce client

This project models the two Redux stores of an e-commerce web client that mirror
server data into the UI: the admin **products** store and the shop **address**
store. Each store has four asynchronous actions: fetch-all, add, edit and
delete. Each action dispatches a *pending* event when it starts and one
*fulfilled* or *rejected* event when it settles. The store's reducer cases update
the state in place.

- `lifecycle.dfy`, module `Lifecycle`: the action kinds, an `Option` type, and
  event traces reduced to their stages (started or settled). It defines what
  "one request at a time" and "a request is still outstanding" mean.
- `admin_products.dfy`, module `AdminProducts`: the state
  `{isLoading, productList, error}`. The class `ProductsStore` has these fields.
  Its `Dispatch` method runs the reducer case for an event. A pending event clears
  `error`. A fulfilled event replaces the list, appends to it, replaces the
  first record with a matching `_id` (found by the `FindIndex` loop, like
  `findIndex`), or filters that id out (`Without`). A rejected event records the
  rejection payload or a fixed message for its action.
- `shop_address.dfy`, module `ShopAddress`: the state `{isLoading, addressList}`,
  with no error field. The class `AddressStore` has these fields and a `Dispatch`
  method. Only fetch-all touches the list.

Each `Dispatch` is proved against a ghost reducer function `Next(state, event)`.
The lemmas about `Next`, and about `Replay` (which folds `Next` over a sequence
of events), state the properties. Records and server error bodies are opaque:
they are abstract types, and only a record's `_id` is read.

The model follows the code as written, including where it differs from what the stores are generally taken to guarantee:

- The address store has no `error` field at all. It records nothing on rejection.
- The uniqueness of ids is not kept by the code. Add appends without checking
  (`AddMayDuplicateId`), and fetch-all takes whatever the server sends. Pending
  and rejected events, edit and delete do keep it (`KeepsUniqueIds`).
- Delete removes every record with the deleted id, not just one. When the ids are
  unique and the id is present, it removes exactly one (`WithoutRemovesOne`).
- `isLoading` tracks an outstanding request only when one request is in flight
  at a time (`LoadingIffOutstanding`). An overlapping request can clear the flag
  while another is still pending (`OverlappingAddClearsLoading`). "Outstanding"
  matches a settlement to every earlier start of the same action, so two
  overlapping requests of the same action are not told apart.

## Model

| member | source | states |
|---|---|---|
| `AdminProducts.ProductsStore.constructor` | src/store/admin/products-slice/index.js:4-8 | the store starts with `isLoading` false, an empty `productList` and a null `error` |
| `AdminProducts.ProductsStore.Dispatch` | src/store/admin/products-slice/index.js:88-151 | the fields after the event are what the reducer `Next` gives for the old fields and the event; `isLoading` is true exactly after a pending event |
| `AdminProducts.FindIndex` | src/store/admin/products-slice/index.js:126 | returns the first position whose `_id` matches; returns -1 exactly when no product matches |
| `AdminProducts.IndexOfId` | src/store/admin/products-slice/index.js:126 | the reference for `findIndex`: -1 exactly when no id matches, otherwise the first index with that id |
| `AdminProducts.Initial` | src/store/admin/products-slice/index.js:4-8 | the initial state: `isLoading` false, an empty `productList`, a null `error` |
| `AdminProducts.FallbackMessage` | src/store/admin/products-slice/index.js:98-151 | the fixed message per action ("Failed to fetch products", "Failed to add product", "Failed to update product", "Failed to delete product" at lines 101, 115, 133, 150); never empty |
| `AdminProducts.RejectionError` | src/store/admin/products-slice/index.js:98-151 | the payload-or-fallback expression at lines 101, 115, 133, 150: the recorded error is the server payload exactly when there is one, otherwise the action's fallback message |
| `AdminProducts.Merge` | src/store/admin/products-slice/index.js:94-147 | the list a success leaves: fetch gives exactly the data (line 96); add appends the created record after the old list (line 111); edit keeps the length and changes positions only to the updated record (lines 125-129); delete shortens or keeps the list and leaves no record with the deleted id (lines 143-146) |
| `AdminProducts.Next` | src/store/admin/products-slice/index.js:88-151 | the reducer: `isLoading` is true exactly after a pending event; pending clears `error`, success leaves it, rejection always records one; pending events and add, edit or delete rejections leave the list as it was |
| `AdminProducts.Without` | src/store/admin/products-slice/index.js:143-146 | the list is no longer than before; no product with the deleted id remains; every other product occurs as often as before, and only products of the input occur; with no match the list is returned unchanged |
| `AdminProducts.PendingClearsError` | src/store/admin/products-slice/index.js:90-93 | a pending event of any action (the same code is at lines 105-108, 119-122, 137-140) sets `isLoading`, sets `error` to null and leaves the list unchanged |
| `AdminProducts.FetchFulfilledReplaces` | src/store/admin/products-slice/index.js:94-97 | fetch success makes the list exactly the returned data, clears `isLoading` and leaves `error` as it was |
| `AdminProducts.FetchRejectedEmpties` | src/store/admin/products-slice/index.js:98-102 | fetch failure empties the list, clears `isLoading`, and sets `error` to the payload or to "Failed to fetch products" |
| `AdminProducts.AddFulfilledAppends` | src/store/admin/products-slice/index.js:109-112 | add success gives the old list followed by the created record, so the list grows by one; `error` is untouched |
| `AdminProducts.AddMayDuplicateId` | src/store/admin/products-slice/index.js:109-112 | add makes no duplicate check: a created record whose id is already present breaks id uniqueness |
| `AdminProducts.EditFulfilledReplacesFirstMatch` | src/store/admin/products-slice/index.js:123-130 | edit success keeps the length and replaces only the first record with the updated id, at its position; with no match the list is unchanged |
| `AdminProducts.DeleteFulfilledFilters` | src/store/admin/products-slice/index.js:141-147 | delete success leaves no record with the deleted id; it keeps every other record as often as before and in its original relative order; with no match the list is unchanged |
| `AdminProducts.WithoutIsSubsequence` | src/store/admin/products-slice/index.js:144-146 | the filtered list is a subsequence of the original: order is preserved |
| `AdminProducts.WithoutKeepsUniqueIds` | src/store/admin/products-slice/index.js:144-146 | filtering a list with unique ids gives a list with unique ids |
| `AdminProducts.WithoutRemovesOne` | src/store/admin/products-slice/index.js:144-146 | with unique ids, deleting an id that is present shortens the list by exactly one |
| `AdminProducts.OtherRejectedKeepsList` | src/store/admin/products-slice/index.js:113-116 | an add, edit or delete failure (lines 113-116, 131-134, 148-151) keeps the list, clears `isLoading`, and sets `error` to the payload or to "Failed to add product", "Failed to update product" or "Failed to delete product" |
| `AdminProducts.KeepsUniqueIds` | src/store/admin/products-slice/index.js:88-151 | every event except a fetch or add success preserves id uniqueness of the list |
| `AdminProducts.ReplayLoading` | src/store/admin/products-slice/index.js:88-151 | after any non-empty sequence of events, `isLoading` is true exactly when the last event was pending |
| `AdminProducts.LoadingIffOutstanding` | src/store/admin/products-slice/index.js:88-151 | from the initial state, with one request in flight at a time, `isLoading` holds exactly while a started action has not settled |
| `AdminProducts.ListUnchangedWithoutMerge` | src/store/admin/products-slice/index.js:88-151 | a sequence of pending events and non-fetch rejections never changes the list |
| `ShopAddress.AddressStore.constructor` | src/store/shop/address-slice/index.js:4-7 | the store starts with `isLoading` false and an empty `addressList`; there is no error field |
| `ShopAddress.Initial` | src/store/shop/address-slice/index.js:4-7 | the initial state: `isLoading` false and an empty `addressList` |
| `ShopAddress.Next` | src/store/shop/address-slice/index.js:56-96 | the reducer: `isLoading` is true exactly after a pending event; pending keeps the list; fetch success makes it exactly the data; fetch failure empties it |
| `ShopAddress.AddressStore.Dispatch` | src/store/shop/address-slice/index.js:56-96 | the fields after the event are what the reducer `Next` gives for the old fields and the event; `isLoading` is true exactly after a pending event |
| `ShopAddress.PendingSetsLoading` | src/store/shop/address-slice/index.js:57-59 | a pending event of any action (the same code is at lines 66-68, 78-80, 88-90) sets `isLoading` and leaves the list unchanged |
| `ShopAddress.FetchFulfilledReplaces` | src/store/shop/address-slice/index.js:69-72 | fetch success makes the list exactly the returned data and clears `isLoading` |
| `ShopAddress.FetchRejectedEmpties` | src/store/shop/address-slice/index.js:73-76 | fetch failure, whatever its cause, empties the list and clears `isLoading` |
| `ShopAddress.OtherSettleOnlyClearsLoading` | src/store/shop/address-slice/index.js:60-65 | an add, edit or delete settlement (lines 60-65, 81-86, 91-96) only clears `isLoading`; the list is not modified, even on success |
| `ShopAddress.ListChangesOnlyOnFetch` | src/store/shop/address-slice/index.js:56-96 | if an event changes the list, it is a fetch-all settlement |
| `ShopAddress.ReplayLoading` | src/store/shop/address-slice/index.js:56-96 | after any non-empty sequence of events, `isLoading` is true exactly when the last event was pending |
| `ShopAddress.LoadingIffOutstanding` | src/store/shop/address-slice/index.js:56-96 | from the initial state, with one request in flight at a time, `isLoading` holds exactly between a pending event and its settlement |
| `ShopAddress.OverlappingAddClearsLoading` | src/store/shop/address-slice/index.js:57-68 | the flag is last-write-wins: an add that starts and succeeds while a fetch-all is in flight leaves `isLoading` false with the fetch unsettled |
| `ShopAddress.ListUnchangedWithoutFetch` | src/store/shop/address-slice/index.js:56-96 | a sequence of events in which no fetch-all settles leaves the list unchanged |
| `Lifecycle.LastStartedIffUnsettled` | src/store/shop/address-slice/index.js:56-96 | with one request at a time, the last event being a start is equivalent to some request being outstanding; it serves both stores (the products reducer at src/store/admin/products-slice/index.js lines 88-151 as well), through `LoadingIffOutstanding` in each |
| `Lifecycle.OverlapHidesOutstanding` | src/store/shop/address-slice/index.js:56-96 | with two different actions overlapping, a request can be outstanding although the last event settled one; this holds for the products store too (src/store/admin/products-slice/index.js lines 88-151), whose flag follows the same last-event rule |

## Left out

- The asynchronous thunks and their HTTP calls, headers and URLs are network I/O. The model takes the events they produce as input.
- The extraction `rejectWithValue(error.response.data)` depends on the HTTP client's error shape. The rejection payload is an optional opaque value. `None` stands for a missing payload, including the case where `error.response` is undefined and the thunk itself throws.
- JavaScript truthiness in `action.payload || "…"`: a present but falsy payload (an empty string, `0`, `false`) also takes the fallback message. The model does not distinguish it from a missing payload.
- The shape of `action.payload.data` is not validated by the source. The model types it (a list for fetch-all, a record otherwise), so malformed responses are not modelled.
- The Redux Toolkit and Immer machinery (`createSlice`, `builder.addCase`, draft proxies). Each reducer case is a direct update of the store's fields. The list is a value that the methods reassign, so aliasing of the draft array by `push` and index assignment is not modelled.
- Concurrency: interleaved in-flight requests are modelled only as an arbitrary order of events, not as asynchronous tasks.
- Record contents beyond `_id`, server error bodies and the replies to address add, edit and delete are abstract types, never inspected.
- The address store's `action.error` on rejection is ignored by the source, so it is not part of the address events.
