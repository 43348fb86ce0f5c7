# Katuu ordering app — a Dafny model of its business logic

Katuu is a milk-tea ordering app. Staff compose drinks for customers and save
them as *pending orders*. Staff members later merge several pending orders
into one *merged order* for the kitchen. Administrators maintain the catalogue
(products, toppings, sizes, categories) and read revenue statistics. The app
has three layers:

- a small Express server (`server/index.js`). It has a `.env` loader, a
  `base64("username:role")` bearer token, login, role gates, a
  category-in-use guard, a pending-order endpoint and the merge handler.
- client service modules: the order service with its local cache, the admin
  catalogue service, and the authentication service.
- React contexts and pages, whose state updates the model states as methods
  on classes: the order session, realtime order lists, ordering page, order
  summary, pending-orders panel, history page, admin panel, audit log,
  auth context and route guards. The dashboard, order history and merged-order
  report compute statistics.

The model follows the source file by file, one module per file:

- Pure code (the mappers, the token codec, validators, the merge aggregation,
  the statistics) is written as functions.
- State that the source updates in place is written as classes whose methods
  state the whole new state. This covers the local caches, component state
  and `process.env`.
- The store, `localStorage`, the clock and random ids are plain fields or
  parameters. A store call that can fail is a boolean or an outcome parameter,
  so both the success and the failure branch are modelled.
- Shared helpers live in their own modules:
  - `Wrappers`: Option and Result;
  - `Seqs`: sums, filter, first-seen dedup, `findIndex`, a stable descending
    sort, and the grouping-map loop;
  - `Text`: trim, lower case, `includes`, `split`;
  - `Codec`: base64 per section 4 of RFC 4648, UTF-8, and the Latin-1 view
    behind `btoa`/`atob`;
  - `ById`: replace and remove by key;
  - `Stats`: the sort-and-cut ranking tables.

Prices are whole VND amounts, so they are modelled as unbounded integers.

Some of the code's behaviour is easy to misread; the model keeps it as written:

- The `.env` loader sets a key when `process.env[key]` is falsy. So it also
  replaces an existing empty value, not only a missing one
  (`EnvLoader.NeverOverwrites` states exactly this).
- The order service clears a guest history stored under
  `bobaBlissOrderHistory`. The ordering and history pages keep theirs under
  `katuu_order_history`. The model keeps these as two separate stores, so
  clearing the first leaves the second as it was.
- `fetchOrderHistory` reads `item.totalPrice`, a field order items never carry.
  Every flattened history entry therefore costs 0
  (`OrderService.FlattenHistoryPricesZero`).
- The merge is not atomic. The server inserts the merged row first and then
  deletes the source rows; a failed delete is only logged.
- The client merge returns the merged order even when the store insert failed.

## Model

| member | source | states |
|---|---|---|
| EnvLoader.ParseLine | server/index.js:15-18 | a line that matches binds a name made only of `[A-Za-z0-9_]` characters |
| EnvLoader.ParseLineExactly | server/index.js:15-18 | a line matches exactly when it is white space, a name of `[A-Za-z0-9_]` characters, white space, `=` and the rest; it then binds that name to the value read after the spaces following `=` |
| EnvLoader.ParseSplit | server/index.js:15-18 | a line of that shape parses to its name and the value read from the rest |
| EnvLoader.ParsedHasShape | server/index.js:15-18 | a line that parses has that shape |
| EnvLoader.AssignmentLine | server/index.js:15-18 | a line opening with a name and `=` binds that name to the value read after the spaces following `=` |
| EnvLoader.ParseQuotedLine | server/index.js:15-18 | a double- or single-quoted value is taken verbatim up to the closing quote, whatever follows |
| EnvLoader.ParseUnquotedLine | server/index.js:15-18 | an unquoted value is cut at the first `#` and trimmed |
| EnvLoader.LinesWithoutCR | server/index.js:14 | for text without carriage returns, the lines are exactly the pieces between line feeds |
| EnvLoader.NeverOverwrites | server/index.js:19 | a variable that already has a non-empty value keeps it, and no variable disappears |
| EnvLoader.OnlyNamedKeys | server/index.js:14-21 | every variable the loader adds was named by some line of the file |
| EnvLoader.FirstValueWins | server/index.js:14-21 | for a variable that was unset or empty, the first line giving it a non-empty value decides its value |
| EnvLoader.UnsetStaysUnset | server/index.js:14-21 | a variable no line gives a non-empty value stays unset or empty |
| EnvLoader.ProcessEnv.LoadEnvIfNeeded | server/index.js:9-23 | when both store variables are set, or there is no `.env` file, the environment is unchanged; otherwise it is the result of applying every parsed line in order |
| EnvLoader.ProcessEnv.AssignLines | server/index.js:14-21 | the `forEach` over the lines leaves the environment equal to the in-order application of the parsed lines |
| ServerAuth.MakeToken | server/index.js:50-52 | the token is non-empty padded base64 text (a multiple of four characters) |
| ServerAuth.DecodeToken | server/index.js:53-59 | a decoded name, and a decoded role when there is one, hold no `:`; text that is not base64 gives nothing |
| ServerAuth.DecodeMakeToken | server/index.js:50-59 | a token made for a name and role without `:` decodes to exactly that name and role |
| ServerAuth.ColonCutsUsername | server/index.js:50-59 | a name holding a `:` does not survive the token round trip: the decoded name differs |
| ServerAuth.UserFromHeader | server/index.js:82-100 | a user is found exactly for a `Bearer <token>` header with a non-empty token that decodes and whose decoded name the store's lookup finds; the user is then that row's, with the display name falling back to the user name |
| ServerAuth.HeaderOfMadeToken | server/index.js:50-100 | the `Bearer` header carrying the token made for a stored user (name and role without `:`) yields that user, with the display name falling back to the user name |
| ServerAuth.Authenticate | server/index.js:102-107 | the request passes exactly when it has a user; otherwise 401 Unauthorized |
| ServerAuth.RequireAdmin | server/index.js:109-113 | passes exactly for the admin role; 401 without a user, 403 "Admin role required" for every other role |
| ServerAuth.RequireStaff | server/index.js:363-366 | the order endpoints' check passes exactly for the staff and admin roles, else 403 "Staff/Admin required" |
| ServerAuth.AdminIsStaff | server/index.js:109-113 | whoever passes the admin check passes the staff/admin check |
| ServerAuth.Login | server/index.js:116-146 | 400 exactly when name or password is empty; 500 when the query fails; an unknown name logs in exactly with the built-in user's password; a stored name logs in exactly with the stored hash text or a development password; the returned user is the built-in user (name, role, display name) or the stored row's user, and its token is the token made for that user; once the query succeeded, every refusal is exactly 401 "Invalid credentials" |
| ServerAuth.DevPasswordOpensStoredUsers | server/index.js:136-140 | `admin123` and `staff123` open every stored account whatever its hash |
| ServerAuth.LoginTokenAuthenticates | server/index.js:116-146 | the token a successful login hands out authenticates its holder as the same user on later requests |
| ServerStore.AdminGate | server/index.js:102-113 | `authMiddleware` then `requireAdmin` pass exactly for a user with the admin role, else 401 or 403 |
| ServerStore.StaffGate | server/index.js:363-366 | `authMiddleware` then the role check pass exactly for staff and admins, else 401 or 403 |
| ServerStore.StoredTotalOfItemSum | server/index.js:388 | a client that sends the sum of its item prices has exactly that total stored |
| ServerStore.Converted | server/index.js:452 | one order per row, in order, each the row's camelCase conversion |
| ServerStore.RowsWithIds | server/index.js:448 | the fetched rows are exactly the stored rows whose id was requested |
| ServerStore.RowsWithoutIds | server/index.js:477 | the rows left after the delete are exactly those whose id was not requested |
| ServerStore.ConvertedRowsWithIds | server/index.js:448-452 | fetching the requested rows then converting them equals converting all rows then keeping the requested ids |
| ServerStore.ServerMergeIsClientMerge | server/index.js:447-470 | the server finds no rows exactly when the client-side merge reports none found, and otherwise builds the same merged order (items in order, summed totals, distinct names first-seen) |
| ServerStore.Database.DeleteCategory | server/index.js:192-207 | refused callers, query failures and categories still listed by a product leave the table unchanged (403/401, 500, 400 "Category in use"); otherwise the category is removed, or 500 when the delete fails |
| ServerStore.Database.CreatePendingOrder | server/index.js:378-401 | a body without a name or without an item list is refused with 400; a failed insert gives 500 and stores nothing; otherwise exactly the new pending order is appended and returned |
| ServerStore.Database.MergeOrders | server/index.js:436-487 | refused callers, a missing id list (400), a failed fetch (500), no matching row (404) and a failed insert (500) change nothing; a success appends the merged order and then removes the merged pending rows, except when that delete fails, in which case they stay |
| Rows.SizeFromRow | server/index.js:71-73 | `price_modifier` becomes `priceModifier`; converting back gives the same row |
| Rows.PendingFromRow | server/index.js:74-76 | every pending-order column lands in its field; converting back gives the same row |
| Rows.MergedFromRow | server/index.js:77-79 | every merged-order column lands in its field; converting back gives the same row |
| Rows.RecordsSurviveRows | server/index.js:71-79 | converting a size, pending order or merged order to its row and back loses nothing |
| Rows.MapRows | server/index.js:62-79 | a `null` result set reads as empty; otherwise one converted record per row, in order |
| OrderService.Matched | src/models/orderService.ts:276 | the orders to merge are exactly the pending orders whose id was requested, in their order |
| OrderService.MatchedIsFilter | src/models/orderService.ts:276 | the requested orders are the filter of the pending list by requested id, so they keep the list's order |
| OrderService.BuildMergedOrder | src/models/orderService.ts:275-304 | fails with "No orders to merge" exactly when no pending order has a requested id; otherwise the merged order keeps the requested ids, the given id, merger and time, and counts its own items |
| OrderService.AllItemsOfMatched | src/models/orderService.ts:276-282 | the items of the orders to merge are the requested orders' items, order by order |
| OrderService.SumOfMatched | src/models/orderService.ts:276-283 | the summed total (a missing total counting 0) is the total of the requested orders |
| OrderService.MergedItems | src/models/orderService.ts:282-299 | the merged order holds exactly the requested orders' items and counts them |
| OrderService.MergedTotal | src/models/orderService.ts:283-300 | the merged total is the sum of the requested orders' totals |
| OrderService.MatchedNamesCover | src/models/orderService.ts:284-286 | every requested order's customer is among the merged names |
| OrderService.MatchedNamesOnly | src/models/orderService.ts:284-286 | every merged name is the customer of some requested order |
| OrderService.MergedNames | src/models/orderService.ts:284-298 | the merged names are distinct, and are exactly the customers of the requested orders |
| OrderService.MergedNamesOrder | src/models/orderService.ts:284-286 | the merged names keep the order in which each customer is first seen |
| OrderService.NewPendingOrder | src/models/orderService.ts:74-79 | a new pending order has a `PO-` id, status pending, and the given name, items and total |
| OrderService.IndexOfId | src/models/orderService.ts:171 | `findIndex` by id: -1 exactly when no order has the id, else the first order with it |
| OrderService.WithoutIds | src/models/orderService.ts:219 | the orders left are exactly those whose id is not among the given ones |
| OrderService.WithoutIdsStep | src/models/orderService.ts:219 | deleting ids one after another is deleting them all at once |
| OrderService.RowHistory | src/models/orderService.ts:425-435 | a merged order turns into one history entry per item |
| OrderService.FlattenHistoryEntry | src/models/orderService.ts:423-436 | the `flatMap` yields one entry per item of every merged order, and the entry for item `k` of order `j` sits after all items of the orders before `j` |
| OrderService.FlattenHistoryPricesZero | src/models/orderService.ts:434 | every entry rebuilt from merged orders has total 0 (order items carry no `totalPrice`) and no pending-order link |
| OrderService.OrderCache.FetchPendingOrders | src/models/orderService.ts:11-71 | without a store or on failure the cached orders are returned and nothing changes; otherwise the store's rows are returned converted, an empty answer removes the cached orders and clears the guest history with a timestamp, and a non-empty one replaces the cache |
| OrderService.OrderCache.CreatePendingOrder | src/models/orderService.ts:73-132 | the order returned is the store's echo converted when there is one, else the locally built order (which equals an exact echo); in every case it is put at the front of the cached list |
| OrderService.OrderCache.UpdatePendingOrder | src/models/orderService.ts:137-201 | the updated order keeps the id and takes the new name, items, total and time; it replaces the first cached order with that id, and the cache is unchanged when there is none |
| OrderService.OrderCache.DeletePendingOrder | src/models/orderService.ts:203-222 | every cached order with the id is removed, whatever the store answered; a missing cache stays missing |
| OrderService.OrderCache.FetchMergedOrders | src/models/orderService.ts:226-268 | without a store or on failure the cached merged orders are returned unchanged; otherwise the converted rows are returned and replace the cache, an empty answer removing it |
| OrderService.OrderCache.CreateMergedOrder | src/models/orderService.ts:270-361 | with nothing to merge the error is returned and nothing changes; otherwise the store's converted echo (or the locally built order) is returned and put at the front of the cached list |
| OrderService.OrderCache.ClearOrderHistory | src/models/orderService.ts:365-400 | the guest history becomes empty and the clearing time is recorded |
| OrderService.OrderCache.FetchOrderHistory | src/models/orderService.ts:406-445 | with a store the history is the flattening of the merged orders (a `null` set read as empty); otherwise, or on failure, the stored guest history (empty when missing) |
| Realtime.Reduce | src/hooks/useRealtimeOrders.ts:129-153 | an insert puts the converted row first; an update replaces every order with the row's id and keeps the rest in place; a delete removes every order with the deleted id; any other event changes nothing |
| Realtime.InsertThenDelete | src/hooks/useRealtimeOrders.ts:132-150 | inserting a new order and then deleting its id gives back the list |
| Realtime.DeleteTwice | src/hooks/useRealtimeOrders.ts:148-150 | a repeated delete event changes nothing more |
| Realtime.UpdateOfUnknownId | src/hooks/useRealtimeOrders.ts:143-147 | an update for an id the list does not hold changes nothing (it does not insert) |
| Realtime.RealtimeOrders.FetchOrders | src/hooks/useRealtimeOrders.ts:51-105 | without a store both lists come from the stored copies (empty when missing); a loaded snapshot becomes both lists, converted row by row, and is stored; a failure keeps the lists and records the error message, or "Failed to fetch orders"; loading ends in every case |
| Realtime.RealtimeOrders.OnPendingChange | src/hooks/useRealtimeOrders.ts:126-155 | the pending list becomes its reduction by the change, and the stored copy follows it |
| Realtime.RealtimeOrders.OnMergedChange | src/hooks/useRealtimeOrders.ts:169-190 | the merged list becomes its reduction by the change, and the stored copy follows it |
| OrderSession.AddPendingOrder | src/controllers/OrderSessionContext.tsx:40-59 | the cached list grows by exactly one order at the front, whose id is returned; without a store echo that order is the new order with the sum of the item prices as its total |
| OrderSession.UpdatePendingOrder | src/controllers/OrderSessionContext.tsx:61-78 | the first cached order with the id is replaced by one with the new name, items and item-price sum; the cache is unchanged when no order has the id |
| OrderSession.MergePendingOrders | src/controllers/OrderSessionContext.tsx:80-102 | with nothing to merge the error is returned and the cache is unchanged; otherwise the merged order returned is the store's echo, or the locally built order without one, and it becomes the head of the cached merged orders; every merged pending order is deleted, and the guest history is cleared |
| OrderSession.DeleteAll | src/controllers/OrderSessionContext.tsx:89 | deleting each id in turn leaves exactly the orders whose id was not given |
| OrderSession.ActiveOrders | src/controllers/OrderSessionContext.tsx:117 | the orders with status pending, and only those |
| OrderSession.PendingCountAll | src/controllers/OrderSessionContext.tsx:116-118 | the pending count never exceeds the number of orders, and equals it exactly when every order is pending |
| HistoryPage.CleanHistory | src/views/pages/HistoryPage.tsx:33-47 | an entry is kept exactly when it has no pending-order link or its pending order still exists |
| HistoryPage.CleanHistoryUnchanged | src/views/pages/HistoryPage.tsx:50 | the cleaned history has the same length exactly when it is unchanged, which happens exactly when every entry is kept |
| HistoryPage.HistoryView.LoadHistory | src/views/pages/HistoryPage.tsx:19-68 | with no stored history nothing changes; while the pending orders are loading the stored history is shown as it is; otherwise the cleaned history is shown and stored; loading ends |
| HistoryPage.HistoryView.DeleteOrder | src/views/pages/HistoryPage.tsx:76-96 | every entry with the id is removed and the result stored; the first such entry's pending order is deleted as well when it has a link and the delete does not throw; the loading flag and the rest of the cache are untouched |
| PendingPanel.SelectedOrders | src/views/pages/PendingOrdersPanel.tsx:13-45 | the selected orders are exactly the still-pending orders of the list whose id was picked, in the list's order |
| PendingPanel.AllItemsCount | src/views/pages/PendingOrdersPanel.tsx:47 | summing the item counts order by order counts all items of the orders |
| PendingPanel.SelectedTotalsAreMergedTotals | src/views/pages/PendingOrdersPanel.tsx:45-47 | when every listed order is pending, the panel's selected price and item count are the total and item count of the merged order the selection produces |
| PendingPanel.PendingOrdersPanel.ToggleSelect | src/views/pages/PendingOrdersPanel.tsx:17-27 | the selection loses the id when it held it and gains it otherwise, and stays free of duplicates |
| PendingPanel.PendingOrdersPanel.SelectAll | src/views/pages/PendingOrdersPanel.tsx:29-35 | when as many ids are selected as there are pending orders the selection is cleared; otherwise it becomes the distinct ids of the pending orders |
| PendingPanel.PendingOrdersPanel.HandleMerge | src/views/pages/PendingOrdersPanel.tsx:37-43 | with nothing selected or nobody signed in nothing happens; otherwise the selected ids are sent for merging under the user's name and the selection is cleared |
| PendingPanel.Toggled | src/views/pages/PendingOrdersPanel.tsx:18-26 | a picked id is dropped and any other is added at the end; every other id keeps its membership, and no id appears twice |
| PendingPanel.ToggleTwice | src/views/pages/PendingOrdersPanel.tsx:17-27 | toggling the same order twice gives back the same selected set, and the same sequence when the order was not selected |
| Ordering.InitialOrder | src/views/pages/OrderingPage.tsx:9-16 | the fresh order has no drink, no toppings, no name, size M, full sugar and normal ice |
| Ordering.ToggleOffSubtractsPrice | src/views/pages/OrderingPage.tsx:114-139 | un-choosing a topping chosen once lowers the total by exactly its price |
| Ordering.ToggleTopping | src/views/pages/OrderingPage.tsx:129-139 | a topping not yet chosen is added at the end; a chosen one is removed completely |
| Ordering.ToggleTwice | src/views/pages/OrderingPage.tsx:129-139 | choosing a topping and un-choosing it gives back the same toppings |
| Ordering.ToggleOnAddsPrice | src/views/pages/OrderingPage.tsx:114-139 | choosing a new topping raises the total by exactly its price |
| Ordering.HistoryItem | src/views/pages/OrderingPage.tsx:173-204 | a history entry keeps its id and date, the order's drink, toppings, size, sugar, ice and name, the order's total and the pending-order link |
| Ordering.NextHistory | src/views/pages/OrderingPage.tsx:169-208 | a reorder replaces the entry with the reordered id in place and keeps the length and every id; a new order puts one new entry first, stamped with the time |
| Ordering.OrderingPage.ReorderTarget | src/views/pages/OrderingPage.tsx:171 | the history entry to replace is the reordered one, only while reordering and when its id is truthy |
| Ordering.OrderingPage.RestoreReorder | src/views/pages/OrderingPage.tsx:78-112 | without reorder data nothing changes; otherwise the order is rebuilt from the history entry, reordering starts, and its pending-order link and history id are remembered |
| Ordering.OrderingPage.ChangeTopping | src/views/pages/OrderingPage.tsx:129-139 | only the toppings change, by the toggle |
| Ordering.OrderingPage.ResetOrder | src/views/pages/OrderingPage.tsx:157-164 | the order goes back to the initial order and nothing else on the page changes |
| Ordering.OrderingPage.AddToHistory | src/views/pages/OrderingPage.tsx:166-221 | without a drink or with a blank name nothing changes; otherwise the history becomes its next version and is stored, the reorder state is cleared and the order is reset |
| OrderSummary.NameOrGuest | src/views/components/OrderSummary.tsx:49 | never empty, and the given name when there is one |
| OrderSummary.SingleItemTotal | src/views/components/OrderSummary.tsx:42-62 | the one-item order is priced by the session at the drink's total |
| OrderSummary.CustomizationLines | src/views/components/OrderSummary.tsx:112-152 | no lines without a drink; otherwise the toppings' lines close the list, and a size line appears exactly for a drink sold in several sizes with a size chosen, showing that size |
| OrderSummary.Submit | src/views/components/OrderSummary.tsx:52-64 | a throwing session changes nothing and gives no id; a reorder updates its pending order and keeps its id; otherwise one new pending order goes to the front and its id is returned |
| OrderSummary.PlaceOrder | src/views/components/OrderSummary.tsx:38-87 | without a drink nothing happens; a throwing call leaves the cache alone; a reorder updates its pending order in place and keeps its id; otherwise exactly one new pending order goes to the front and its id is the one returned; the history gets the order linked to that id, or unlinked when the call threw, is stored, the order is reset and the reorder state cleared; with a blank name the history, its stored copy and the reorder state stay, but the order is still reset, as both branches schedule `onResetOrder` |
| OrderSummary.LegacyPlaceOrder | src/views/pages/OrderSummary.tsx:37-70 | without a drink nothing happens; otherwise one new pending order goes to the front unless the call throws, and the order is added to the history exactly when it did not throw |
| Customization.Sections | src/views/pages/CustomizationOptions.tsx:27-70 | the selectors are numbered 2, 3, … without a gap; toppings come first and are the only multi-select one; a size selector is shown exactly for a drink sold in several sizes, as step 3; sugar and ice close the list; each single-select selector gets at most one chosen option, and missing topping or size lists offer nothing |
| Customization.SelectedSize | src/views/pages/CustomizationOptions.tsx:51 | exactly the size buttons with the id of the order's size show as chosen, and none without a size |
| Customization.SelectedLevel | src/views/pages/CustomizationOptions.tsx:61-68 | exactly the button of the chosen sugar or ice level shows as chosen, and none when the level is empty |
| OptionSelector.NothingSelected | src/views/pages/OptionSelector.tsx:25-32 | with nothing selected no option shows as selected, in either mode |
| OptionSelector.SingleWithinMulti | src/views/pages/OptionSelector.tsx:25-32 | an option selected in single mode is selected in multi mode, the two agree when at most one option is selected, and single mode is multi mode over the first selected option alone |
| ProductSelection.FilteredProducts | src/views/pages/ProductSelection.tsx:69-74 | "all" lists every product; any other category lists exactly the products of that category, in order |
| ProductSelection.FilteredProductsAppend | src/views/pages/ProductSelection.tsx:73 | filtering two runs of products is filtering each and joining the results |
| ProductSelection.OneSelectedCard | src/views/pages/ProductSelection.tsx:124-129 | two products with different ids are never both marked selected |
| Audit.Stamped | src/controllers/AuditContext.tsx:36-43 | the entry carries the generated id and timestamp, records the signed-in user's name and role (none without a user) and keeps every field of the input |
| Audit.PrependedShape | src/controllers/AuditContext.tsx:44 | the new entry comes first, the older ones follow in order, and the log is cut to the 1000 most recent |
| Audit.LogStaysCapped | src/controllers/AuditContext.tsx:44 | however many entries are added, the log holds at most 1000, the latest first |
| Audit.AuditLog.constructor | src/controllers/AuditContext.tsx:16-34 | the log starts from the stored entries, or empty, and is written back |
| Audit.AuditLog.AddAudit | src/controllers/AuditContext.tsx:36-45 | the stamped entry is put in front of the capped log, and the log is stored |
| Audit.AuditLog.ClearAudits | src/controllers/AuditContext.tsx:47 | the log becomes empty, and so does its stored copy |
| AdminService.ConfiguredIffHost | src/models/adminService.ts:5-8 | the store counts as configured exactly when its URL is set and contains `supabase.co` |
| AdminService.PatchProduct | src/models/adminService.ts:82 | `{ ...product, ...patch }`: the id is kept, and each field is the patch's value when given, else the old one; an empty patch leaves the product as it was, and a full one gives exactly the patch's values under the old id |
| AdminService.PatchTopping | src/models/adminService.ts:213 | the same spread for a topping: id kept, given fields replaced, others kept; an empty patch changes nothing and a full one gives the patch's values under the old id |
| AdminService.PatchSize | src/models/adminService.ts:357 | the same spread for a size: an empty patch changes nothing and a full one gives the patch's values under the old id |
| AdminService.PatchCategory | src/models/adminService.ts:492 | the same spread for a category: without a name nothing changes, and with one the category gets it under the old id |
| AdminService.PatchProductThen | src/models/adminService.ts:82 | two successive product updates equal one update with the second patch spread over the first |
| AdminService.PatchProductTwice | src/models/adminService.ts:82 | applying the same patch twice is applying it once |
| AdminService.SizeUpdateCommutes | src/models/adminService.ts:365-382 | the store's update with only the given snake_case columns, read back as a size, equals the local spread of the patch over the size |
| AdminService.SizeAnswer | src/models/adminService.ts:330-337 | a stored size row is converted field for field (converting back gives the row), and an error is passed on unchanged |
| AdminService.SizeRowsAnswer | src/models/adminService.ts:286-293 | a `null` result set reads as empty; otherwise one size per row, each converting back to its row; an error is passed on |
| AdminService.Table.Fetch | src/models/adminService.ts:12-39 | without a store, or when the store fails, the cached list is returned and kept; otherwise the store's rows (a `null` set read as empty) are returned and replace the cache only when non-empty |
| AdminService.Table.Create | src/models/adminService.ts:41-74 | without a store the locally built record is appended and returned; with a store its answer is returned, and a created record is appended; a success always grows the list by one |
| AdminService.Table.Update | src/models/adminService.ts:76-113 | without a store the first record with the id is patched, or "not found" leaves the list unchanged; with a store the answer is returned and, on success, replaces the first cached record with the id; the length never changes |
| AdminService.Table.Delete | src/models/adminService.ts:115-141 | without a store every record with the id is removed; with a store they are removed only when the store's delete succeeded, whose answer is returned |
| ById.Replace | src/views/pages/AdminPanel.tsx:280 | every element with the key is replaced and every other is kept, position by position |
| ById.IndexOfKey | src/models/adminService.ts:80 | `findIndex`: -1 exactly when no element has the key, else the first index holding it |
| ById.Remove | src/models/adminService.ts:119 | `filter(x => x.id !== id)`: the kept elements are exactly those of the input without the key |
| ById.RemoveIdempotent | src/models/adminService.ts:115-141 | deleting the same id twice is deleting it once |
| ById.RemoveAbsent | src/models/adminService.ts:115-141 | deleting an id no element has leaves the list unchanged |
| ById.ReplaceIdempotent | src/views/pages/AdminPanel.tsx:280 | writing the same record back twice is writing it once |
| Catalog.ProductsWellFormed | src/models/constants.ts:11-51 | the built-in menu has 30 products with ids 1 to 30 in order, positive prices, and categories from the category list |
| Catalog.ToppingsWellFormed | src/models/constants.ts:53-66 | 12 toppings with ids 1 to 12; the first seven cost 5000, the next four 7000, and "Full Topping" 10000 |
| Catalog.DefaultsAreFirstChoices | src/models/constants.ts:68-74 | size M (no surcharge) and size L (+5000) come first; five sugar levels starting at 100%, three ice levels starting at normal ice |
| Codec.EncodeLength | server/index.js:51 | base64 text is four characters for every started group of three bytes |
| Codec.DecodeEncode | server/index.js:50-56 | decoding the base64 text of any bytes gives back those bytes |
| Codec.DecodeEncodeUtf8 | server/index.js:51-55 | decoding the UTF-8 bytes of any text gives back that text |
| Codec.AtobBtoa | src/models/authService.ts:40 | `atob(btoa(s)) == s` for every text `btoa` accepts (all characters below 256) |
| Codec.Latin1Bytes | src/models/authService.ts:40 | `btoa`'s input check: a byte per character exactly when every character is below 256 |
| Text.JoinSplit | src/models/authService.ts:116 | joining the pieces of `split(':')` with `:` gives back the text |
| Text.SplitJoin | src/models/authService.ts:116 | splitting `:`-joined pieces that hold no `:` gives back the pieces |
| Text.TrimEmptyIffBlank | src/views/components/OrderHistory.tsx:118 | `trim()` yields the empty text exactly for an all-whitespace text |
| Text.ContainsIffOccurs | src/views/components/OrderHistory.tsx:121 | `includes` holds exactly when the searched text occurs at some position |
| AdminPanel.Flag | src/views/pages/AdminPanel.tsx:166-174 | `if (cond) errs[field] = msg`: the field is added (or overwritten) exactly when the condition holds, every other entry is kept |
| AdminPanel.ProductErrorMap | src/views/pages/AdminPanel.tsx:165-177 | the name is flagged exactly when blank or taken, with the "already exists" message winning; price, category and image are flagged exactly on their own failures; no error exactly when nothing failed |
| AdminPanel.ProductFormAccepted | src/views/pages/AdminPanel.tsx:165-177 | a product form passes exactly when its name is not blank, its price is positive, its category exists, its image is empty or a valid URL, and no other product has the same trimmed, lower-cased name |
| AdminPanel.TwoFieldErrors | src/views/pages/AdminPanel.tsx:179-197 | the name is flagged exactly when blank or taken, with the "already exists" message winning; the number field is flagged exactly when it is bad; no error exactly when nothing failed |
| AdminPanel.ToppingErrors | src/views/pages/AdminPanel.tsx:179-187 | a topping form passes exactly when its name is neither blank nor taken and its price is not negative; the name message says which |
| AdminPanel.SizeErrors | src/views/pages/AdminPanel.tsx:189-197 | a size form passes exactly when its name is neither blank nor taken and its surcharge is not negative; the name message says which |
| AdminPanel.CategoryErrorMap | src/views/pages/AdminPanel.tsx:199-208 | the id is flagged exactly when blank, off-pattern or taken, with taken winning over pattern and pattern over blank; the name exactly when blank |
| AdminPanel.CategoryFormAccepted | src/views/pages/AdminPanel.tsx:199-208 | a category form passes exactly when its id matches `^[a-z0-9-]+$`, its name is not blank, and no other category has the id |
| AdminPanel.PatternNotBlank | src/views/pages/AdminPanel.tsx:201-202 | an id matching the pattern is never blank |
| AdminPanel.BlankIdMessageNeverShown | src/views/pages/AdminPanel.tsx:201-205 | the blank-id message is always overwritten, so the form never shows it |
| AdminPanel.AddKeepsNamesDistinct | src/views/pages/AdminPanel.tsx:173-174 | adding a product whose form passed keeps product names distinct after trimming and lower-casing, provided no product has the id 0 that the check skips |
| AdminPanel.Panel.ResetEditing | src/views/pages/AdminPanel.tsx:215-228 | editing stops and no record is being edited |
| AdminPanel.Panel.ChangeTab | src/views/pages/AdminPanel.tsx:541-544 | the tab changes and editing stops |
| AdminPanel.Panel.StartEditing | src/views/pages/AdminPanel.tsx:258-263 | the given record is being edited |
| AdminPanel.Panel.ConfirmDelete | src/views/pages/AdminPanel.tsx:546-549 | the record to delete is remembered and the confirmation shows |
| AdminPanel.Panel.AddProduct | src/views/pages/AdminPanel.tsx:231-256 | a non-admin gets the permission message and nothing changes; otherwise the form's errors are recorded, and the list is unchanged when there are any or the store fails ("Thêm sản phẩm thất bại"); a created product is appended and editing stops; the other lists never change; editing state stays unless the store succeeded, the shown error stays on success, and nothing but that list, its form errors, the shown error and the editing state can change |
| AdminPanel.Panel.UpdateProduct | src/views/pages/AdminPanel.tsx:265-292 | as for adding, but a success replaces the product with the edited id; editing state stays unless the store succeeded, the shown error stays on success, and nothing but that list, its form errors, the shown error and the editing state can change |
| AdminPanel.Panel.AddTopping | src/views/pages/AdminPanel.tsx:314-337 | a non-admin changes nothing; errors or a store failure leave the toppings unchanged; a created topping is appended; editing state stays unless the store succeeded, the shown error stays on success, and nothing but that list, its form errors, the shown error and the editing state can change |
| AdminPanel.Panel.UpdateTopping | src/views/pages/AdminPanel.tsx:346-371 | as for adding, but a success replaces the topping with the edited id; editing state stays unless the store succeeded, the shown error stays on success, and nothing but that list, its form errors, the shown error and the editing state can change |
| AdminPanel.Panel.AddSize | src/views/pages/AdminPanel.tsx:393-418 | a non-admin changes nothing; errors or a failure leave the sizes unchanged; a created size is appended; editing state stays unless the store succeeded, the shown error stays on success, and nothing but that list, its form errors, the shown error and the editing state can change |
| AdminPanel.Panel.UpdateSize | src/views/pages/AdminPanel.tsx:427-453 | as for adding, but a success replaces the size with the edited id; editing state stays unless the store succeeded, the shown error stays on success, and nothing but that list, its form errors, the shown error and the editing state can change |
| AdminPanel.Panel.ValidateCategory | src/views/pages/AdminPanel.tsx:199-208 | the recorded errors are those of the form, and the form is valid exactly when there are none |
| AdminPanel.Panel.AddCategory | src/views/pages/AdminPanel.tsx:479-493 | a non-admin changes nothing; errors or a failure leave the categories unchanged; a created category is appended; editing state stays unless the store succeeded, the shown error stays on success, and nothing but that list, its form errors, the shown error and the editing state can change |
| AdminPanel.Panel.UpdateCategory | src/views/pages/AdminPanel.tsx:502-517 | as for adding, but a success replaces the category with the edited id; editing state stays unless the store succeeded, the shown error stays on success, and nothing but that list, its form errors, the shown error and the editing state can change |
| AdminPanel.Panel.Delete | src/views/pages/AdminPanel.tsx:551-569 | a non-admin gets the permission message, the confirmation closes and no list changes; with nothing picked nothing happens; otherwise the active tab's list loses the record when the store's delete succeeds, a category still used by a product is kept with an error, and a failure keeps the list with an error; the tab, the editing state and the form errors never change |
| AdminPanel.Panel.CloseConfirm | src/views/pages/AdminPanel.tsx:304-305 | the confirmation closes and nothing is picked for deletion |
| AuthService.FindFallback | src/models/authService.ts:35-37 | the first built-in user with the given name (and password, when one is compared), and none exactly when no built-in user matches |
| AuthService.FindInFallback | src/models/authService.ts:22-25 | the built-in users are `admin`/`admin123` and `staff`/`staff123`; the lookup answers exactly those pairs |
| AuthService.FallbackLogin | src/models/authService.ts:32-56 | without a store a login succeeds iff the pair is a built-in one; the user keeps the given name and its built-in role, the token is the base64 of `username:role`; otherwise the invalid-login message |
| AuthService.StoreLogin | src/models/authService.ts:58-107 | with a store a login succeeds iff the row exists, the password equals its `password_hash`, the last-login update does not throw and the token text encodes; the user is the row's (display name falling back to the username) and the token the base64 of `username:role:id`; a missing row or a different password gives the invalid-login message; a throwing query, a throwing last-login update or a token text `btoa` refuses gives the retry message |
| AuthService.LoginThenCurrentUser | src/models/authService.ts:31-165 | after a successful login, built-in or through the store (stored name and role free of ':' and non-empty), the stored token makes the current-user query answer the user who logged in |
| AuthService.TokenFields | src/models/authService.ts:115-120 | a token yields (name, role) iff it decodes and splits at ':' into at least two parts, the first two non-empty |
| AuthService.VerifyToken | src/models/authService.ts:113-153 | a verified token has fields; without a store it verifies iff the name is a built-in user, giving that user whatever role the token says; with a store it gives the row found for the name, or nothing |
| AuthService.EmptyTokenFails | src/models/authService.ts:113-120 | an empty token verifies as nobody, with or without a store |
| AuthService.SplitPrefix | src/models/authService.ts:116 | a text `a:b…` with ':'-free `a` and `b` splits into parts starting with `a`, `b` |
| AuthService.TokenFieldsOf | src/models/authService.ts:115-120 | the token made from `a:b…` yields exactly (a, b) |
| AuthService.FallbackTokenVerifies | src/models/authService.ts:40-130 | the token of a successful built-in login verifies back to the same user |
| AuthService.StoreTokenVerifies | src/models/authService.ts:89-148 | the token of a successful store login verifies back to the same user |
| AuthService.FallbackIgnoresTokenRole | src/models/authService.ts:122-130 | without a store a token `admin:<any role>` verifies as the built-in administrator: the role in the token is never checked |
| AuthContext.SuccessIsAccepted | src/controllers/AuthContext.tsx:48 | every successful service login carries a non-empty token, so the context's test accepts exactly the successful answers |
| AuthContext.Session.constructor | src/controllers/AuthContext.tsx:17-18 | the provider starts with no user and loading |
| AuthContext.Session.RestoreSession | src/controllers/AuthContext.tsx:22-43 | the current user of the stored token replaces the user when there is one; the token is kept and loading ends |
| AuthContext.Session.Login | src/controllers/AuthContext.tsx:45-65 | answers true iff the service's answer is accepted, then holds its user and token; otherwise nothing changes |
| AuthContext.Session.Logout | src/controllers/AuthContext.tsx:67-81 | no user and no stored token afterwards |
| AuthContext.FallbackSessionSurvivesReload | src/controllers/AuthContext.tsx:22-65 | without a store, restoring from a successful login's token gives back the same user |
| Routes.Guard | src/routes/ProtectedRoute.tsx:24-50 | loading first, then visitors to the login page; the page renders iff signed in and meeting the admin and staff requirements (an admin meets the staff one); a refusal carries the admin-only message when the admin requirement failed, else the staff-only one |
| Routes.GuardMonotone | src/routes/ProtectedRoute.tsx:40-46 | an admin-only pass implies a staff-only pass, and any pass implies a pass without requirements |
| Routes.PageGuard.constructor | src/views/pages/ProtectedRoute.tsx:11-12 | the guard starts with the given remembered view |
| Routes.PageGuard.Render | src/views/pages/ProtectedRoute.tsx:11-70 | visitors get the login modal and the desired view is remembered (forgotten when none or empty); a non-admin on an admin page is denied; otherwise the children render; a signed-in user leaves the remembered view alone |
| Routes.PageGuard.CloseLogin | src/views/pages/ProtectedRoute.tsx:34-37 | closing the modal forgets the remembered view |
| Stats.Average | src/views/pages/Dashboard.tsx:45 | zero for no orders, else the value that times the count gives the total |
| Stats.Rank | src/views/pages/Dashboard.tsx:48-70 | the filled grouping map, sorted by the ranking field descending and cut to `n` |
| Stats.RankedCorrect | src/views/pages/Dashboard.tsx:48-70 | the ranking has min(distinct keys, n) rows, sorted descending, one per key, each counting and summing exactly its key's contributions |
| Stats.RankedBeatsRest | src/views/pages/Dashboard.tsx:67-69 | every grouping row the cut drops ranks no higher than each row it keeps |
| Stats.RankedComplete | src/views/pages/Dashboard.tsx:48-70 | when the cut does not bite, every key with a contribution has a row |
| Stats.Lookup | src/views/pages/Dashboard.tsx:53 | `map.get(k)`: a row exactly when some row has key `k`, and then one with that key |
| Stats.LookupTally | src/views/pages/Dashboard.tsx:96 | looking a key up in the grouping finds its count and sum, and nothing exactly when the key had no contribution (sum 0) |
| Stats.KeyAppend | src/views/pages/Dashboard.tsx:51-65 | counting and summing a key over two runs of contributions adds up |
| Dashboard.TotalRevenueAdds | src/views/pages/Dashboard.tsx:37-39 | revenue is additive over history and non-negative for non-negative prices |
| Dashboard.AverageOrderValue | src/views/pages/Dashboard.tsx:42-45 | zero for an empty history, else revenue divided by the number of orders |
| Dashboard.ProductEntries | src/views/pages/Dashboard.tsx:51-65 | each contribution is keyed by its product's id |
| Dashboard.ProductEntriesCount | src/views/pages/Dashboard.tsx:51-65 | a product id is counted once per order of it and summed over those orders' totals |
| Dashboard.ProductStats | src/views/pages/Dashboard.tsx:48-70 | the product grouping ranked by revenue, top 10 |
| Dashboard.ProductStatsCorrect | src/views/pages/Dashboard.tsx:48-70 | at most 10 rows, by revenue descending, one per product, each with that product's order count (positive) and revenue |
| Dashboard.CategoryEntriesCount | src/views/pages/Dashboard.tsx:76-90 | a category is counted once per order of a product in it and summed over those totals |
| Dashboard.StatsInOrderRight | src/views/pages/Dashboard.tsx:94-103 | the rows built from the grouping, one per listed category in list order, carry each category's own order count and revenue (zero for a category without orders) |
| Dashboard.CategoryStats | src/views/pages/Dashboard.tsx:73-106 | the category rows with orders, by revenue descending |
| Dashboard.CategoryStatsCorrect | src/views/pages/Dashboard.tsx:73-106 | sorted by revenue; each row is a listed category with its positive order count and its revenue; every listed category with orders has a row |
| Dashboard.ToppingEntriesOf | src/views/pages/Dashboard.tsx:113-124 | one contribution per topping, keyed by name, worth its price |
| Dashboard.ToppingEntriesCount | src/views/pages/Dashboard.tsx:112-125 | a topping name is counted once per use over the whole history |
| Dashboard.ToppingStats | src/views/pages/Dashboard.tsx:109-135 | the topping grouping ranked by use count, top 10 |
| Dashboard.ToppingStatsCorrect | src/views/pages/Dashboard.tsx:109-135 | at most 10 rows, by count descending, one per name, each with its positive use count; no dropped topping is used more than a kept one |
| OrderHistory.NameEntriesCount | src/views/components/OrderHistory.tsx:92-95 | the count kept for a name is its number of occurrences |
| OrderHistory.GetTopN | src/views/components/OrderHistory.tsx:90-101 | nothing for no names, else the names ranked by occurrence and cut to `n` |
| OrderHistory.TopNCorrect | src/views/components/OrderHistory.tsx:90-101 | min(distinct names, n) distinct names, each from the input, in non-increasing order of occurrence |
| OrderHistory.TopNBeatsRest | src/views/components/OrderHistory.tsx:97-100 | no name left out occurs more often than a name returned |
| OrderHistory.DrinkNames | src/views/components/OrderHistory.tsx:103 | exactly the non-empty names of ordered products |
| OrderHistory.ToppingNames | src/views/components/OrderHistory.tsx:106 | exactly the names of all toppings of all orders |
| OrderHistory.Summary | src/views/components/OrderHistory.tsx:87-115 | the order count, the revenue, and the top three drink and topping names |
| OrderHistory.Matching | src/views/components/OrderHistory.tsx:119-124 | keeps exactly the orders whose customer name contains the trimmed lower-cased search and whose category matches ("all" matches every one) |
| OrderHistory.EmptySearchKeepsAll | src/views/components/OrderHistory.tsx:118-124 | a blank search over all categories lists the whole history |
| OrderHistory.FilteredHistory | src/views/components/OrderHistory.tsx:117-130 | a permutation of the matching orders, newest first, orders with the same date keeping their history order as the stable `sort` does |
| Report.OnDay | src/views/components/OrderSummaryReport.tsx:27-38 | exactly the merged orders whose merge date falls on the day |
| Report.ByDateBuckets | src/views/components/OrderSummaryReport.tsx:24-41 | a day has a bucket iff some order falls on it, and the bucket is that day's orders |
| Report.OrdersByDate | src/views/components/OrderSummaryReport.tsx:24-41 | the grouping loop builds the day buckets |
| Report.SelectedIsOnDay | src/views/components/OrderSummaryReport.tsx:45-47 | a chosen day (not "all") selects that day's orders, and a day without orders selects none |
| Report.Choose | src/views/components/OrderSummaryReport.tsx:45-47 | all orders for "all", else the chosen day's bucket or nothing |
| Report.CustomerNames | src/views/components/OrderSummaryReport.tsx:52 | exactly the customer names of the chosen orders |
| Report.UniqueCustomers | src/views/components/OrderSummaryReport.tsx:52 | the number of distinct customer names |
| Report.ItemEntriesCount | src/views/components/OrderSummaryReport.tsx:56-65 | a product name is counted once per item and summed over item prices |
| Report.TopProductsCorrect | src/views/components/OrderSummaryReport.tsx:55-70 | at most 5 rows, by item count descending, one per name, each with that name's item count and revenue; no dropped product sold more items than a kept one |
| Report.StaffEntriesSum | src/views/components/OrderSummaryReport.tsx:73-76 | each staff member's sum is the total of the orders they merged |
| Report.StaffRevenueCorrect | src/views/components/OrderSummaryReport.tsx:73-84 | one row per staff member in first-merge order, each with the total of the orders they merged |
| Report.Figures | src/views/components/OrderSummaryReport.tsx:44-87 | revenue, order and item counts, distinct customers, top products and staff revenue of the chosen orders, and their average value |
| Seqs.Filter | src/views/pages/Dashboard.tsx:104 | `Array.prototype.filter`: keeps exactly the elements the test accepts |
| Seqs.FilterAppend | src/views/pages/Dashboard.tsx:104 | filtering distributes over concatenation |
| Seqs.FilterFilter | src/views/pages/PendingOrdersPanel.tsx:13-45 | filtering by one test and then another is filtering once by both |
| Seqs.FindIndex | src/models/orderService.ts:171 | `findIndex`: -1 iff no element matches, else the first matching position |
| Seqs.Dedup | src/models/orderService.ts:284-285 | `[...new Set(s)]`: distinct elements, exactly those of `s` |
| Seqs.DedupFirstSeen | src/models/orderService.ts:284-285 | the distinct elements keep the order of their first occurrence |
| Seqs.SortDesc | src/views/pages/Dashboard.tsx:68 | the descending sort by a numeric key is a permutation of its input and sorted |
| Seqs.SortDescStable | src/views/pages/Dashboard.tsx:68 | the sort is stable: for every key, the elements with that key come out in their input order |
| Seqs.InsertDescAfterEqual | src/views/pages/Dashboard.tsx:68 | inserting into a sorted sequence places the new element after every element with its key |
| Seqs.Tally | src/views/pages/Dashboard.tsx:49-65 | the `forEach` that fills the grouping map computes the grouping |
| Seqs.TallyCorrect | src/views/pages/Dashboard.tsx:49-65 | each grouping row counts and sums exactly its key's contributions |
| Text.TrimStart | src/views/components/OrderHistory.tsx:118 | strips exactly the leading white space |
| Text.TrimEnd | src/views/components/OrderHistory.tsx:118 | strips exactly the trailing white space |
| Text.ToLower | src/views/components/OrderHistory.tsx:118 | lower-cases character by character, keeping the length |
| Text.Split | src/models/authService.ts:116 | `split` gives at least one part and no part holds the separator |
| Text.NatToStringValue | src/models/orderService.ts:75 | the decimal text of a number reads back as that number |
| ServerAuth.SplitBearer | server/index.js:84 | `Bearer <token>` splits into the scheme and the token |
| Ordering.OrderingPage.constructor | src/views/pages/OrderingPage.tsx:23-29 | the page starts with the initial order, the stored history and no reorder in progress |
| AdminPanel.Panel.constructor | src/views/pages/AdminPanel.tsx:74-158 | the panel starts on the products tab with the given catalogue, not editing, no confirmation open and no error |
| HistoryPage.HistoryView.constructor | src/views/pages/HistoryPage.tsx:11-12 | the page starts with an empty history and loading |

## Left out

- Network and store I/O: Supabase queries, Express routing, `app.listen`/`tryListen` port retries, `process.exit` and `fs` reads. The store is plain state, and each call's success or failure is a parameter.
- Browser storage and events: `localStorage` and `sessionStorage` are fields. The `katuu:*` and `historyUpdated` events, `Notification` and `window.location.reload` are not modelled.
- JSON serialisation of stored values: the parsed value is the field itself.
- Ids and clocks: `Date.now()`, `Math.random()` suffixes and ISO timestamps are parameters (`now`, `suffix`, `createdAt`, `mergedAt`). Date parsing and locale day keys are functions passed in (`stamp`, `dayOf`).
- Timers: the success and error message timeouts, the 300 ms reset delay on the ordering page, the search debounce and the logout timer.
- Realtime channel subscription and teardown: only the change handlers are modelled.
- `Promise.all`: the per-id deletions in the session merge and the history cleanup are modelled one after the other.
- Floating point: the dashboard's category percentages, growth rate and seven-day revenue, and `toFixed`/`toLocaleString` formatting. `Stats.Average` is an exact rational, not a JavaScript double.
- URL validation (`new URL(...)`): it is the predicate parameter `validUrl`.
- Number parsing: `NaN` prices are not represented, and neither is an order item posted to the server without a price.
- Lenient base64 decoding: Node's `Buffer.from(..., 'base64')` on the server and the browser's `atob` in the client (src/models/authService.ts:116) both forgive missing `=` padding and ASCII white space, and Node also skips other stray characters. `ServerAuth.DecodeToken`, `Codec.Decode` and `Codec.Atob` decode strictly and reject such text, so a token that is only well-formed after that forgiveness is rejected rather than decoded.
- Codec.DecodeUtf8: an ill-formed UTF-8 sequence is replaced by one U+FFFD per byte, while Node replaces each maximal ill-formed subpart (for example a truncated three-byte sequence) by a single U+FFFD; well-formed text, the case the token round trip relies on, decodes the same.
- Text: `ToLower` maps ASCII letters only, with no Unicode case folding.
- Object key order: `Object.entries` is taken in insertion order. The JavaScript rule that integer-like keys come first is not modelled.
- OptionSelector's `String(option)` default label and value: options are modelled by their value only.
- The store path of `clearOrderHistory`, which deletes old merged rows remotely: only the cache effect is modelled.
- The store's `status = 'pending'` filter on fetch is taken as already applied to the rows given.
- Audit entries and success messages written by the admin panel's handlers, and the form contents reset by `resetForms`: only the editing, tab and confirmation state and the lists are modelled.
- The router's `from` location state on the redirect to `/login`.
- The ordering page's menu loading through `menuService`: the catalogue lists are given.
- Rendering: icons, invoices, headers, layouts, login forms, the theme toggle and other views without business logic.
- AuthService.StoreTokenVerifies: requires the stored username and role to be non-empty and free of ':'. Otherwise the token's own split gives different fields, and the round trip does not hold.
- AdminPanel.AddKeepsNamesDistinct: requires that no existing product has id 0. When adding, the duplicate-name check skips a product with id 0, so such a product could share the new name.
- ServerAuth.DecodeMakeToken: requires ':'-free username and role (`ServerAuth.ColonCutsUsername` shows what happens otherwise).
