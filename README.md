# Restaurant and hotel back office, modelled in Dafny

This project models the core of a restaurant and hotel management application. It has two halves.

The **server** is an Express/Mongoose service:
- orders, tables, rooms, room bookings, point-of-sale (POS) bills, menu items and users;
- their schemas' enums, defaults and validators;
- every request handler that creates, edits or releases them.

The **client** is a React/Redux application:
- the customer cart and order slices and the hooks that drive them;
- order submission;
- the waiter's POS cart and checkout panel;
- the admin menu and order pages, with search, sort, bill grouping and status badges;
- the cook dashboard;
- the add-item, edit-item and sign-up forms.

How the model is laid out:
- **One module per source file.**
- **The server collections** live in one `Store.Db` object. Each is a sequence in insertion order, so `findOne` is the first match, and ids come from one counter.
- **Each handler** is a module-level method that takes the `Db` object and modifies it. It keeps `Db.Valid()`: stored documents pass their schema, a table or room that points at an order is booked, the unique indexes hold, and every id of a stored document or line item is below the counter. Its `ensures` give the whole new store for every reply.
- **Validation and computation** are pure functions with their own contracts. The guards list, in source order, the replies a handler can give.
- **Client reducers** become functions. Those that mutate Redux state in place (`cartSlice`, `orderSlice`) become classes whose methods change their fields.

Cross-layer lemmas connect the two halves:
- what the client sends and what the server then stores;
- the total the client shows and the stored order's `total` virtual;
- the credit the POS panel shows and the credit on the stored bill.

Money is a `real`. Rounding to two decimals for display (`toFixed(2)`) is not modelled.

## Model

| member | source | states |
|---|---|---|
| OrderModel.ParseOrderType | backend/models/order.model.js:25-30 | exactly "delivery" and "dine-in" are order types, and each parses back from its name |
| OrderModel.ParsePaymentMethod | backend/models/order.model.js:50-55 | exactly "counter" and "card" are payment methods, and each parses back from its name |
| OrderModel.ParseStatus | backend/models/order.model.js:61-65 | exactly the five status names parse, and each parses back from its name |
| OrderModel.EnumNamesRoundTrip | backend/models/order.model.js:25-65 | every order type, payment method and status value parses back from its name |
| OrderModel.CastItems | backend/models/order.model.js:10-23 | request items cast exactly when each has a name, a quantity and a price; the cast keeps them in order with consecutive sub-document ids |
| OrderModel.Construct | backend/models/order.model.js:3-70 | `new Order` fills in the defaults (customer "Guest", dine-in, counter, pending, not sent to the kitchen) and fails exactly on an unknown enum value or an item missing a field |
| OrderModel.SaveNew | backend/models/order.model.js:3-70 | an order is stored exactly when it constructs and passes every validator: required customer name, item minimums, a table for dine-in, a phone and address for delivery, a subtotal of at least 0 |
| OrderModel.Total | backend/models/order.model.js:77-79 | the `total` virtual is the subtotal for dine-in and exceeds it (by the 2.50 fee) exactly for delivery |
| TableModel.NewTable | backend/models/table.model.js:3-25 | a new table is free, has no current order, and keeps its number |
| TableModel.Occupied | backend/controllers/order.controller.js:102-111 | an occupied table points at the order, and keeps the occupancy link exactly when it is booked |
| TableModel.Released | backend/controllers/table.controller.js:106-130 | a released table is free and points at no order |
| RoomModel.NewRoom | backend/models/room.model.js:3-55 | a new room gets capacity 2 when none is given and no amenities when none are given; it is free with no current order |
| RoomBookModel.ParseBookingStatus | backend/models/roombook.model.js:26-30 | exactly the four booking statuses parse |
| RoomBookModel.BookingStatusRoundTrip | backend/models/roombook.model.js:26-30 | every booking status parses back from its name |
| RoomBookModel.SaveNewBooking | backend/models/roombook.model.js:4-31 | a booking is stored exactly when it has a customer name, a contact number and a known status (default "booked") |
| PosModel.ParsePosPayment | backend/models/pos.model.js:41-45 | exactly the seven payment names parse, and each parses back from its name |
| PosModel.ParsePosOrderType | backend/models/pos.model.js:46-50 | exactly the three POS order types parse, and each parses back from its name |
| PosModel.CastPosItems | backend/models/pos.model.js:4-24 | cart entries cast exactly when each has a name, price and quantity, and keep their order |
| PosModel.CreatePosBill | backend/models/pos.model.js:3-62 | a bill is stored exactly when its lines are valid, a total is given and its enums are known; cash, credit and online default to 0 |
| PosModel.AmountsNotReconciled | backend/models/pos.model.js:25-40 | the schema accepts a bill whose parts do not add up to its total |
| MenuItemModel.SaveNewMenuItem | backend/models/menuItem.model.js:3-45 | an item is stored exactly when name, price, category and creator are present and the validators pass; the status defaults to "available" |
| MenuItemModel.CustomNeedsName | backend/models/menuItem.model.js:23-29 | a stored "Custom" item always has a custom category name |
| UserModel.ParseRole | backend/models/user.model.js:22-26 | exactly "admin" and "cook" are roles, and each parses back from its name |
| UserModel.CreateUser | backend/models/user.model.js:3-33 | a user is stored exactly when the required strings are non-empty and the role is known; the role defaults to "admin" |
| Store.OccupyByNumber | backend/controllers/order.controller.js:102-111 | only the first table with the number takes the booking and the order; nothing is created; the occupancy link survives a booking |
| Store.ReleaseByNumber | backend/controllers/order.controller.js:414-425 | only the first table with the number becomes free; every other table is untouched and the link survives |
| Store.TablesLinkedAfterWrite | backend/models/table.model.js:9-17 | writing one linked table keeps the whole collection linked |
| Store.NewOrderIds | backend/controllers/order.controller.js:83-97 | an order whose ids are drawn from the counter reuses no stored order or line item id, and the bound holds for the new counter |
| Common.FilterSelects | client/src/pages/cook/CookDashboard.jsx:145 | `filter` keeps exactly the elements that pass, in their order and with their multiplicity |
| Store.AddedItemIds | backend/controllers/order.controller.js:225-231 | items appended with ids drawn from the counter reuse no stored id, and the bound holds for the new counter |
| OrderController.FirstItemError | backend/controllers/order.controller.js:22-38 | the item check reports the first failing item's message, and none exactly when every item passes |
| OrderController.CheckedItemsCast | backend/controllers/order.controller.js:22-38 | items that pass the handler's checks always cast into line items |
| OrderController.CastItemsTotal | backend/controllers/order.controller.js:83-85 | the reduce over the request items equals the stored items' Σ price × quantity |
| OrderController.CreateOrderGuard | backend/controllers/order.controller.js:18-81 | createOrder's refusals in source order; a table must exist but its booking is never consulted |
| OrderController.CreateOrderIgnoresOccupancy | backend/controllers/order.controller.js:47-73 | swapping a table for a booked or free one with the same number never changes createOrder's answer |
| OrderController.CreatedOrderShape | backend/controllers/order.controller.js:83-97 | a saved order is a pending dine-in order not sent to the kitchen, on the requested table, with the given or computed subtotal; a delivery order is never saved |
| OrderController.CreateOrder | backend/controllers/order.controller.js:4-130 | on success the order is appended and its table is booked on it; neither the order's id nor any of its item ids is used by a stored order or line item; on refusal nothing changes |
| OrderController.AddItemGuard | backend/controllers/order.controller.js:162-224 | addItemToOrder's refusals in source order, including the 500 for a booked table with no current order |
| OrderController.AddedItemsKeepTotal | backend/controllers/order.controller.js:225-231 | appending items keeps the subtotal equal to Σ price × quantity when it was before, with the old items first |
| OrderController.AddItemToOrder | backend/controllers/order.controller.js:162-237 | on success the items are appended with ids no stored order or line item uses, the counter moves past them, and the subtotal grows by their amount; a draft the schema refuses changes nothing |
| OrderController.UpdateOrderStatus | backend/controllers/order.controller.js:295-350 | any of the five statuses replaces the status from any state; the order is saved before the table check, and tables are never written |
| OrderController.CompleteOpen | backend/controllers/order.controller.js:388-410 | exactly the open dine-in orders on the table become completed; every other order is unchanged |
| OrderController.CompleteOpenChangesMatched | backend/controllers/order.controller.js:406-434 | the matched and modified counts both equal the number of open orders on the table |
| OrderController.CompleteOrder | backend/controllers/order.controller.js:377-440 | no table number is 400 and no open order is 404; otherwise the open orders complete, the table is freed, and the counts are reported |
| OrderController.ItemIndex | backend/controllers/order.controller.js:471 | finds the first item with the id, and none when no item has it |
| OrderController.PatchAllKeepsItems | backend/controllers/order.controller.js:469-492 | patches keep the items, their order and ids; a quantity or price only changes to a value above 0 |
| OrderController.PatchAllReportsMissing | backend/controllers/order.controller.js:471-476 | a patch naming an absent id stops the loop and reports that id |
| OrderController.ApplyPatches | backend/controllers/order.controller.js:469-492 | the in-place loop over the patches produces the patched items or the first missing id |
| OrderController.EditOrder | backend/controllers/order.controller.js:442-511 | only open orders are edited; a missing item id saves nothing; a patch list recomputes the subtotal from all items |
| OrderController.SendToKot | backend/controllers/order.controller.js:513-538 | the kitchen flag goes from false to true once; a second send is 400 and the status is never touched |
| TableController.CreateTableGuard | backend/controllers/table.controller.js:10-23 | a missing or already used table number is refused |
| TableController.CreateTable | backend/controllers/table.controller.js:8-72 | a new free table with the next id is appended; refusals change nothing |
| TableController.ReleaseTableGuard | backend/controllers/table.controller.js:96-126 | a missing or free table is refused; an order that exists but is not completed blocks the release; a missing order does not |
| TableController.ReleaseTable | backend/controllers/table.controller.js:96-136 | every release path frees the table and drops its order; a refusal changes nothing |
| TableController.ReleaseFreesTable | backend/controllers/table.controller.js:106-130 | after a release the named table is free and points at no order |
| TableController.DeleteTableGuard | backend/controllers/table.controller.js:171-183 | only an existing, free table may be deleted |
| TableController.DeleteTable | backend/controllers/table.controller.js:171-198 | the table is removed and the others keep their order |
| TableController.Toggled | backend/controllers/table.controller.js:200-216 | the flag takes the requested value, unbooking clears the order, and the occupancy link holds |
| TableController.ToggleTableBooking | backend/controllers/table.controller.js:200-228 | only the table with that id changes |
| TableController.BookingStatusCounts | backend/controllers/table.controller.js:151-169 | the booked and free counts add up to the total |
| RoomController.CreateAmenities | backend/controllers/room.controller.js:60-70 | absent amenities give [], an array is kept, and a single value is wrapped |
| RoomController.CreateRoomGuard | backend/controllers/room.controller.js:20-28 | a missing number, type or price (0 counts as missing), or a used number, is refused |
| RoomController.CreatedRoom | backend/controllers/room.controller.js:71-89 | the stored room gets capacity 2 for 0 or none, and the uploaded photos |
| RoomController.CreateRoom | backend/controllers/room.controller.js:9-99 | a new free room with the next id is appended; refusals change nothing |
| RoomController.UpdateRoomGuard | backend/controllers/room.controller.js:137-145 | the room must exist, and a new, different number must be unused |
| RoomController.UpdatedRoom | backend/controllers/room.controller.js:148-178 | capacity is replaced whenever given; number, type and price only when truthy; amenities when present |
| RoomController.UpdateRoom | backend/controllers/room.controller.js:125-186 | only that room changes and room numbers stay unique |
| RoomController.CheckInGuard | backend/controllers/room.controller.js:196-198 | only an existing, free room may be checked in |
| RoomController.CheckInRoom | backend/controllers/room.controller.js:190-209 | the room becomes booked on the given order and nothing else changes |
| RoomController.CheckOutGuard | backend/controllers/room.controller.js:217-224 | the room must be booked and its order must exist and be completed |
| RoomController.CheckOutRoom | backend/controllers/room.controller.js:212-235 | the room becomes free and drops its order |
| RoomController.BookedWithoutOrderNeverChecksOut | backend/controllers/room.controller.js:217-224 | a booked room with no current order is refused whatever the orders are |
| RoomController.RoomOrderNeverSaves | backend/controllers/room.controller.js:247-256 | the room food order never passes the order schema |
| RoomController.PlaceRoomOrder | backend/controllers/room.controller.js:238-265 | a free or missing room is 400; a booked room answers 500 and nothing is stored |
| RoomController.DeleteRoomGuard | backend/controllers/room.controller.js:273-277 | only an existing, free room may be deleted |
| RoomController.DeleteRoom | backend/controllers/room.controller.js:268-294 | the room is removed and the others keep their order |
| RoomController.WithoutPhoto | backend/controllers/room.controller.js:331-337 | exactly the photos with that public id leave; the photo list is unchanged when none has it |
| RoomController.WithoutPhotoKeepsOrder | backend/controllers/room.controller.js:335 | the photos that stay keep their order and multiplicity |
| RoomController.DeletePhotoGuard | backend/controllers/room.controller.js:319-330 | no public id is 400; an unknown room or photo is 404 |
| RoomController.DeleteRoomPhoto | backend/controllers/room.controller.js:314-344 | only that room's photos with that id are removed |
| BookingController.BookRoomGuard | backend/controllers/booking.controller.js:8-18 | the room must exist and no booking may still hold it; the room's own flag is not consulted |
| BookingController.BookRoomAsCustomer | backend/controllers/booking.controller.js:3-40 | the booking is stored checked-in and the room flagged booked, with its current order untouched |
| BookingController.CustomerBookingBlocksCheckOut | backend/controllers/room.controller.js:217-224 | a room a customer booked cannot be checked out until something checks it in |
| BookingController.UpdateBookingStatus | backend/controllers/booking.controller.js:43-69 | any valid status replaces the booking's, with no transition check; rooms are never touched |
| BillController.BillLines | backend/controllers/bill.controller.js:32-37 | one bill line per order item, in order, each totalling quantity × price |
| BillController.BillLinesTotal | backend/controllers/bill.controller.js:32-38 | the line totals add up to the items' Σ price × quantity |
| BillController.BillFor | backend/controllers/bill.controller.js:24-41 | the customer defaults to "Guest"; tax is 13% and the total is subtotal + tax |
| BillController.GetBillDetails | backend/controllers/bill.controller.js:3-48 | a missing table is 404, no current order is 400, an incomplete order is 400, otherwise the bill of that order |
| BillController.BillLinesMatchSubtotal | backend/controllers/bill.controller.js:32-38 | a bill's lines add up to its subtotal when the order's subtotal matched its items |
| PosController.KitchenItems | backend/controllers/pos.controller.js:50-54 | one kitchen line per cart entry, keeping name, price and quantity |
| PosController.BillCustomer | backend/controllers/pos.controller.js:43-46 | the customer name defaults to "Guest" and the contact to "" |
| PosController.KitchenOrderShape | backend/controllers/pos.controller.js:57-78 | a stored kitchen order pays at the counter, totals the bill, is in progress and sent, and its lines take the ids right after its own; it is dine-in exactly when a table is given |
| PosController.CreateBill | backend/controllers/pos.controller.js:7-99 | an empty cart is 400 and a refused bill 500; a stored bill stays even when the kitchen order then fails; a given table is booked on the kitchen order |
| PosController.AddItemsGuard | backend/controllers/pos.controller.js:106-124 | a non-empty cart, a booked table with an order, and that order still open |
| PosController.OpenOrderIndex | backend/controllers/pos.controller.js:118-124 | the guard's open order is the table's current order |
| PosController.WithCartKeepsTotal | backend/controllers/pos.controller.js:127-139 | appending the cart keeps the subtotal equal to Σ price × quantity when it was before |
| PosController.AddItemsToOrder | backend/controllers/pos.controller.js:101-153 | on success the cart lines are appended to the open order with ids no stored order or line item uses, and the counter moves past them; otherwise nothing changes |
| PosController.KitchenOrderIdsFresh | backend/controllers/pos.controller.js:57-78 | the bill's id and the kitchen order's ids are used by no stored bill, order or line item, and lie below the new counter |
| PosController.ParseTransferTarget | backend/controllers/pos.controller.js:302-307 | the target defaults to cash; only cash and online are accepted |
| PosController.Transferred | backend/controllers/pos.controller.js:312-319 | the amount moves from credit to the target, keeping the sum of the parts and the total |
| PosController.TransferCreditTo | backend/controllers/pos.controller.js:301-329 | a bad target is 400, an unknown bill 404, an amount above the credit 400; otherwise only that bill changes |
| PosController.AbsentNameSumsToZero | backend/controllers/pos.controller.js:279-295 | an item name that was never sold has zero quantity and sales |
| PosController.GroupIndex | backend/controllers/pos.controller.js:279-295 | finds the entry of a name when the grouping has one |
| PosController.SnocSums | backend/controllers/pos.controller.js:279-295 | one more line adds its quantity and amount to its name's sums only |
| PosController.AddLineAppends | backend/controllers/pos.controller.js:279-295 | folding in a line of a new name appends one entry |
| PosController.AddLineNew | backend/controllers/pos.controller.js:279-295 | a line of a new name keeps the grouping exact |
| PosController.AddLineExisting | backend/controllers/pos.controller.js:279-295 | a line of a known name keeps the grouping exact |
| PosController.GroupCorrect | backend/controllers/pos.controller.js:279-295 | the line-by-line fold is exactly the `$group` stage: one entry per sold name, holding that name's sums |
| PosController.RankedByQuantity | backend/controllers/pos.controller.js:290 | the comparator sort, descending on the quantity key, ranks by quantity sold, highest first |
| PosController.SortKeepsNamesDistinct | backend/controllers/pos.controller.js:290 | reordering keeps the names distinct |
| PosController.InsertNamesDistinct | backend/controllers/pos.controller.js:290 | inserting a new name keeps the names distinct |
| PosController.InsertNamesDistinctAux | backend/controllers/pos.controller.js:290 | a new name inserted among distinct ones stays distinct |
| PosController.ItemsSold | backend/controllers/pos.controller.js:279-299 | every sold name appears once with its quantity and sales, ranked by quantity |
| PosController.SortedEntriesHoldSums | backend/controllers/pos.controller.js:279-299 | the ranked entries keep every name's sums |
| PosController.TopItems | backend/controllers/pos.controller.js:227-248 | at most five entries, the best-selling first, each with its name's sums |
| MenuItemController.ChooseImage | backend/controllers/menuItem.controller.js:10-26 | the upload's url wins, then the body's image, else `{}` |
| MenuItemController.NewMenuItemShape | backend/controllers/menuItem.controller.js:36-47 | the item is stored exactly when a "Custom" category is not chosen and the fields validate; the description defaults to "" |
| MenuItemController.AddMenuItem | backend/controllers/menuItem.controller.js:7-57 | no user id is 401, an unknown user 400; otherwise the new item is appended or the save answers 500 |
| MenuItemController.GetAllMenuItems | backend/controllers/menuItem.controller.js:60-76 | 404 exactly when there are no items |
| MenuItemController.Patched | backend/controllers/menuItem.controller.js:110-130 | present fields are written unvalidated and absent ones kept; the image is always written |
| MenuItemController.UpdateMenuItem | backend/controllers/menuItem.controller.js:98-143 | only the item with the id changes; an unknown id is 404 |
| MenuItemController.DeleteMenuItem | backend/controllers/menuItem.controller.js:146-166 | the item is removed, the others keep their order; an unknown id is 404 |
| MenuItemController.ListedCategories | backend/controllers/menuItem.controller.js:178-187 | each item is listed under its custom name when it is a named "Custom" item, otherwise its category |
| MenuItemController.GetMenuCategories | backend/controllers/menuItem.controller.js:169-197 | the categories have no repeats, appear in first-seen order, and are exactly the items' listed categories; 404 when there are no items |
| UserController.RegisteredRole | backend/controllers/user.controller.js:28-36 | a request for "admin" or no role becomes "cook"; others pass on to the schema |
| UserController.RegisteredNeverAdmin | backend/controllers/user.controller.js:28-36 | a registered account is never an admin |
| UserController.RegisterPhoto | backend/controllers/user.controller.js:20-35 | the uploaded url, or the avatar when no file was sent or the upload failed |
| UserController.Register | backend/controllers/user.controller.js:7-66 | a used email is 400 and a missing password 500; otherwise the account is appended, or a validation error is 400 and nothing changes |
| UserController.PublicView | backend/controllers/user.controller.js:96-111 | the login reply copies the account's public fields, and its type has no password hash |
| UserController.Login | backend/controllers/user.controller.js:68-131 | missing fields is 400; an unknown email or a wrong password give the same 400; otherwise that user |
| UserController.LoginSucceedsIff | backend/controllers/user.controller.js:68-131 | login succeeds exactly for a stored email whose hash matches, and returns that account |
| UserController.ProfileEdited | backend/controllers/user.controller.js:156-180 | only non-empty values replace fields; the password is hashed; the photo only changes on an upload |
| UserController.UpdateProfile | backend/controllers/user.controller.js:143-202 | only the authenticated user changes; an unknown user is 400; a refused save stores nothing |
| UserController.SetRole | backend/controllers/user.controller.js:248-290 | only the role of that user changes |
| UserController.PromoteToAdmin | backend/controllers/user.controller.js:248-268 | the user becomes an admin; an unknown id is 404 |
| UserController.DemoteFromAdmin | backend/controllers/user.controller.js:270-290 | the user becomes a cook; an unknown id is 404 |
| CartSlice.InitialConsistent | client/src/redux/cartSlice.js:6-11 | the initial cart's totals agree with its (empty) items |
| CartSlice.Merged | client/src/redux/cartSlice.js:13-15 | the payload's keys win and every other field is kept |
| CartSlice.ItemIndex | client/src/redux/cartSlice.js:18 | finds the first item with the id, and none when no item has it |
| CartSlice.Without | client/src/redux/cartSlice.js:33 | an item stays in the cart exactly when it was there and carries a different id |
| CartSlice.WithoutUnique | client/src/redux/cartSlice.js:33 | with unique ids, filtering out an id removes exactly that item |
| CartSlice.QuantityUpdated | client/src/redux/cartSlice.js:16-26 | only the first item with the id takes the quantity, and the totals move by its change |
| CartSlice.QuantityUpdatedConsistent | client/src/redux/cartSlice.js:16-26 | updating a quantity keeps the totals in agreement with the items |
| CartSlice.ItemRemoved | client/src/redux/cartSlice.js:27-35 | the first match's amount is subtracted and every item with the id leaves |
| CartSlice.ItemRemovedConsistent | client/src/redux/cartSlice.js:27-35 | with unique ids, removal keeps the totals in agreement with the items |
| CartSlice.RepeatedIdBreaksTotals | client/src/redux/cartSlice.js:27-35 | with a repeated id, removal makes the totals drift from the items |
| CartSlice.CartStore.constructor | client/src/redux/cartSlice.js:6-11 | the store starts empty, closed and consistent |
| CartSlice.CartStore.SetOrderItems | client/src/redux/cartSlice.js:13-15 | the state becomes the merge of the payload |
| CartSlice.CartStore.UpdateItemQuantity | client/src/redux/cartSlice.js:16-26 | the in-place update leaves exactly the state `QuantityUpdated` describes |
| CartSlice.CartStore.RemoveItem | client/src/redux/cartSlice.js:27-35 | the in-place removal leaves exactly the state `ItemRemoved` describes |
| UseCart.AddToCart | client/src/hooks/custumer/useCart.js:13-22 | the item is appended, the totals rise by its amount and quantity, and the cart opens |
| UseCart.UpdateQuantity | client/src/hooks/custumer/useCart.js:24-30 | a quantity of 0 or less removes the item, any other sets it |
| UseCart.UpdateQuantityConsistent | client/src/hooks/custumer/useCart.js:24-30 | with unique ids both paths keep the totals in agreement with the items |
| UseCart.RemoveFromCart | client/src/hooks/custumer/useCart.js:32-34 | no item with the id is left and the panel flag is kept |
| UseCart.RemoveFromCartExact | client/src/hooks/custumer/useCart.js:32-34 | with unique ids exactly that item leaves, the rest keep their order, and the totals agree |
| UseCart.ClearCart | client/src/hooks/custumer/useCart.js:36-45 | whatever the state, the result is the initial cart |
| UseCart.SetIsCartOpen | client/src/hooks/custumer/useCart.js:50-51 | only the open flag changes |
| OrderSlice.OrderStore.constructor | client/src/redux/orderSlice.js:4-14 | the store starts in the initial order state |
| OrderSlice.OrderStore.SetOrderItems | client/src/redux/orderSlice.js:20-24 | items, subtotal and totalItems are all overwritten, absent ones included |
| OrderSlice.OrderStore.UpdateOrderType | client/src/redux/orderSlice.js:25-27 | only the order type changes |
| OrderSlice.OrderStore.UpdateTableNumber | client/src/redux/orderSlice.js:28-30 | only the table number changes |
| OrderSlice.OrderStore.UpdateDeliveryAddress | client/src/redux/orderSlice.js:31-33 | only the delivery address changes |
| OrderSlice.OrderStore.UpdatePhoneNumber | client/src/redux/orderSlice.js:34-36 | only the phone number changes |
| OrderSlice.OrderStore.UpdateSpecialInstructions | client/src/redux/orderSlice.js:37-39 | only the instructions change |
| OrderSlice.OrderStore.UpdatePaymentMethod | client/src/redux/orderSlice.js:40-42 | only the payment method changes |
| OrderSlice.OrderStore.ClearOrder | client/src/redux/orderSlice.js:43-53 | every field returns to its initial value |
| PosSlice.SetPOSData | client/src/redux/posSlice.js:20-22 | the payload's keys overwrite and every other field is kept |
| PosSlice.SetPOSDataIdempotent | client/src/redux/posSlice.js:20-22 | merging the same payload twice equals merging it once |
| PosSlice.ClearPOSData | client/src/redux/posSlice.js:23-25 | the result is the initial state whatever the current one |
| PosCart.IncreaseQty | client/src/hooks/usePOSCart.js:29-35 | every entry with the id gains 1 and the others are untouched |
| PosCart.AddToCart | client/src/hooks/usePOSCart.js:13-23 | a known id gains 1; a new one is appended with quantity 1 |
| PosCart.RemoveFromCart | client/src/hooks/usePOSCart.js:25-27 | every entry with the id leaves and the others keep their order |
| PosCart.DecreaseQty | client/src/hooks/usePOSCart.js:37-47 | an entry with the id loses 1 but stays at 1 or more and is kept; another entry is kept when its quantity is positive; nothing new appears and every quantity left is positive |
| PosCart.DecreaseQtyKeepsEntries | client/src/hooks/usePOSCart.js:37-47 | lowering a quantity never removes an entry and never goes below 1 |
| PosCart.IncreaseQtySubtotal | client/src/hooks/usePOSCart.js:29-35 | with unique ids, raising an entry adds its price to the subtotal |
| PosCart.AddToCartSubtotal | client/src/hooks/usePOSCart.js:13-23 | with unique ids, adding raises the subtotal by one unit's price |
| PosCart.CreditAmount | client/src/hooks/usePOSCart.js:64-67 | the credit is what is still owed after every payment, or 0 |
| PosCart.Change | client/src/hooks/usePOSCart.js:69-74 | the change is what was paid beyond the total, or 0 |
| PosCart.CreditChangeBalance | client/src/hooks/usePOSCart.js:64-74 | credit minus change is what is owed, so at most one is positive |
| PosCart.ClearCart | client/src/hooks/usePOSCart.js:49-56 | the cart and every amount reset, and the customer is kept |
| PosPanel.PanelCredit | client/src/components/admin/POSPanel.jsx:30-33 | what cash and online leave unpaid, or 0 |
| PosPanel.PanelChange | client/src/components/admin/POSPanel.jsx:34-37 | what cash and online exceed the total by, or 0 |
| PosPanel.PanelBalance | client/src/components/admin/POSPanel.jsx:29-37 | credit minus change is the total less what was paid, so at most one is positive |
| PosPanel.PaymentLabel | client/src/components/admin/POSPanel.jsx:39-46 | the label is mixed, cash, online or credit by which amounts are positive, and always a value the bill schema accepts |
| PosPanel.PayloadCart | client/src/components/admin/POSPanel.jsx:50-55 | one payload entry per cart entry, keeping id, name, price and quantity |
| PosPanel.CheckoutRequest | client/src/components/admin/POSPanel.jsx:48-65 | the request carries the panel's total, amounts and label; the credit only when some is owed; never a table |
| PosPanel.CheckoutBillMatchesPanel | client/src/components/admin/POSPanel.jsx:48-71 | a bill stored from the request records the panel's total, cash, online and credit |
| PosPanel.CheckoutKitchenOrderIsTakeaway | client/src/components/admin/POSPanel.jsx:48-65 | the kitchen order derived from a panel checkout is always a delivery to "Takeaway" |
| PosPanel.CheckoutPatchEffect | client/src/components/admin/POSPanel.jsx:73-85 | after checkout the POS state holds the panel's figures and keeps discountPercent |
| SubmitOrder.ValidateOrder | client/src/hooks/custumer/useSubmitOrder.js:25-43 | the first failing check's message in source order, and none exactly when all pass |
| SubmitOrder.PayloadItem | client/src/hooks/custumer/useSubmitOrder.js:67-72 | name, quantity and price are kept; empty instructions are sent as null |
| SubmitOrder.PayloadItems | client/src/hooks/custumer/useSubmitOrder.js:67-72 | one payload item per cart item, in order |
| SubmitOrder.OrderRequest | client/src/hooks/custumer/useSubmitOrder.js:65-80 | customer "Guest"; the table only for dine-in; the address only for delivery; the subtotal as held |
| SubmitOrder.PayloadTotal | client/src/hooks/custumer/useSubmitOrder.js:79 | the subtotal, plus the 2.50 fee for delivery |
| SubmitOrder.StoredTotalMatchesClient | client/src/hooks/custumer/useSubmitOrder.js:65-80 | when the server stores the request, the stored `total` equals the total the client sent |
| SubmitOrder.ClientDeliveryNeverStored | client/src/hooks/custumer/useSubmitOrder.js:65-80 | a delivery order from the client is never stored, since no phone number reaches the server |
| SubmitOrder.RequestFor | client/src/hooks/custumer/useSubmitOrder.js:84-110 | an active order id sends an add-item request for that order and its table, carrying every cart item as it is (empty instructions are not turned into null); otherwise the create-order request |
| SubmitOrder.FailureMessage | client/src/hooks/custumer/useSubmitOrder.js:129-153 | the server's message, else "Server error: status", else the generic or no-response text |
| SubmitOrder.DispatchRemoveItem | client/src/redux/cartSlice.js:27-35 | a dispatch without a payload throws; one with a payload removes the item |
| SubmitOrder.AcceptedSubmissionReportsFailure | client/src/hooks/custumer/useSubmitOrder.js:117-130 | as written, every accepted submission reports both success and the generic failure, leaving the cart |
| SubmitOrder.StuckSubmitting | client/src/hooks/custumer/useSubmitOrder.js:45-55 | with no items array the hook throws before any check: it stays submitting, shows no error, sends nothing and changes neither slice |
| SubmitOrder.SubmitAsWritten | client/src/hooks/custumer/useSubmitOrder.js:45-159 | as written, success is exactly a passing check and an accepted reply, and then the generic failure message is set and the customer cart is left as it was |
| SubmitOrder.Submit | client/src/hooks/custumer/useSubmitOrder.js:45-159 | success is exactly a passing check and an accepted reply; success clears the order slice and the cart and shows no error; otherwise neither slice changes |
| SubmitOrder.SubmitOutcome | client/src/hooks/custumer/useSubmitOrder.js:45-159 | with no items array the hook stays submitting with no message; otherwise a failed check sends nothing and shows its message, success is exactly an accepted reply, carries no error and empties the cart, and the hook stops submitting |
| UseMenu.StaticCategoriesDistinct | client/src/hooks/custumer/useMenu.js:5-12 | the static categories have no repeats |
| UseMenu.ItemCategories | client/src/hooks/custumer/useMenu.js:31-33 | one category per item, in order |
| UseMenu.MergedCategoriesProperties | client/src/hooks/custumer/useMenu.js:35 | the static categories come first, with no repeats, and exactly the static and item categories appear |
| UseMenu.NoDuplicatesCons | client/src/hooks/custumer/useMenu.js:35 | a list with a new head has no repeats exactly when its tail has none and lacks the head |
| UseMenu.FetchedCategories | client/src/hooks/custumer/useMenu.js:31-37 | "All" first, then the static categories, then unseen item categories; repeat-free exactly when no item is in category "All" |
| UseMenu.AfterFetch | client/src/hooks/custumer/useMenu.js:22-45 | an array replaces items and tabs; anything else only records the error; loading ends either way |
| UseMenu.FilteredItems | client/src/hooks/custumer/useMenu.js:51-58 | exactly the items in the active tab whose name contains the query, in menu order |
| UseMenu.AllTabEmptyQueryShowsAll | client/src/hooks/custumer/useMenu.js:51-58 | the "All" tab with an empty search shows the whole menu |
| Sorting.StrLessIrreflexive | client/src/pages/admin/sidebarpage/Menu.jsx:42-52 | no string sorts before itself |
| Sorting.StrLessAsymmetric | client/src/pages/admin/sidebarpage/Menu.jsx:42-52 | two strings never sort before each other |
| Sorting.StrLessTransitive | client/src/pages/admin/sidebarpage/Menu.jsx:42-52 | string order is transitive |
| Sorting.StrLessTotal | client/src/pages/admin/sidebarpage/Menu.jsx:42-52 | two different strings are always ordered one way |
| Sorting.KeyLessIsStrictTotalOrder | client/src/pages/admin/sidebarpage/Menu.jsx:42-52 | the comparison of sort keys is a strict total order |
| Sorting.BeforeAsymmetric | client/src/pages/admin/sidebarpage/Menu.jsx:42-52 | the comparator never puts two entries before each other |
| Sorting.BeforeSplits | client/src/pages/admin/sidebarpage/Menu.jsx:42-52 | of two entries with different keys, one goes first |
| Sorting.InsertElements | client/src/pages/admin/sidebarpage/Menu.jsx:42 | insertion adds exactly the new element |
| Sorting.InsertSorted | client/src/pages/admin/sidebarpage/Menu.jsx:42 | inserting into a sorted list keeps it sorted |
| Sorting.SortCorrect | client/src/pages/admin/sidebarpage/Menu.jsx:42-52 | the sorted copy is ordered by the comparator and a permutation of the input |
| Sorting.SortTiesKeepOrder | client/src/pages/admin/sidebarpage/Orders.jsx:25-29 | a list whose keys are all equal comes back unchanged |
| Sorting.InsertKeepsTies | client/src/pages/admin/sidebarpage/Menu.jsx:42 | among the elements with any one key, the inserted element lands first and the others keep their order |
| Sorting.SortStable | client/src/pages/admin/sidebarpage/Menu.jsx:42-52 | the sort is stable: for every key, the elements with that key come out in their input order |
| Sorting.FilterKeepsSorted | client/src/pages/admin/sidebarpage/Menu.jsx:54-62 | filtering a sorted list keeps it sorted |
| MenuPage.SortedItems | client/src/pages/admin/sidebarpage/Menu.jsx:42-52 | a sorted copy on the chosen column and direction, a permutation of the items |
| MenuPage.FilteredItems | client/src/pages/admin/sidebarpage/Menu.jsx:54-62 | still sorted; an item is listed exactly when it is on the menu and matches; and the rows are exactly the matching rows of the sorted copy, in its order and each as often as it occurs there |
| MenuPage.OpenFiltersListEverything | client/src/pages/admin/sidebarpage/Menu.jsx:54-62 | open filters and an empty search list every item |
| MenuPage.RequestSort | client/src/pages/admin/sidebarpage/Menu.jsx:64-71 | descending only when the same column is already ascending |
| MenuPage.RequestSortToggles | client/src/pages/admin/sidebarpage/Menu.jsx:64-71 | clicking the same column twice flips the direction |
| MenuPage.Deleted | client/src/pages/admin/sidebarpage/Menu.jsx:73-84 | every item with the id leaves, the others keep their order |
| Common.ReplaceWhere | client/src/pages/admin/sidebarpage/Menu.jsx:89 | same length; every element satisfying the predicate becomes the new one and every other element stays in place |
| MenuPage.Saved | client/src/pages/admin/sidebarpage/Menu.jsx:86-94 | editing replaces every entry with the saved id in place and keeps the others; adding appends the saved item after the unchanged list |
| MenuPage.ReplacedThenDeleted | client/src/pages/admin/sidebarpage/Menu.jsx:73-94 | deleting after a replace is deleting alone |
| MenuPage.SaveThenDelete | client/src/pages/admin/sidebarpage/Menu.jsx:73-94 | saving then deleting an item leaves the list as deleting it alone would |
| MenuPage.EntryId | client/src/pages/admin/sidebarpage/Menu.jsx:89 | a reply body stored in the list has no `_id`; a menu item's is its id |
| MenuPage.SavedReplyAsWritten | client/src/components/menu/MenuItemModal.jsx:123 | as written, the page's save handler receives the reply body; editing keeps the length and adding adds one entry |
| MenuPage.EditedReplyIsLost | client/src/pages/admin/sidebarpage/Menu.jsx:86-90 | as written, an edit leaves the list exactly as it was, so an edited item that is not already listed never appears |
| MenuPage.AddedReplyBreaksRender | client/src/pages/admin/sidebarpage/Menu.jsx:91-94 | as written, an add appends the reply body itself, so the list holds an entry with no name for the next render |
| MenuPage.SavedReply | client/src/pages/admin/sidebarpage/Menu.jsx:86-94 | with the reply's `menuItem` unwrapped, an edit replaces the entries with its id and an add appends it |
| MenuPage.SavedReplyShowsItem | client/src/pages/admin/sidebarpage/Menu.jsx:86-94 | with the reply unwrapped, the saved item is listed after an add, and after an edit of a listed id |
| OrdersPage.AfterFetch | client/src/pages/admin/sidebarpage/Orders.jsx:19-39 | the orders newest first, a permutation of the reply; [] on a failed or non-array reply; at least one page |
| OrdersPage.SameTimeKeepsServerOrder | client/src/pages/admin/sidebarpage/Orders.jsx:25-29 | a list whose orders all share one creation time comes back unchanged |
| OrdersPage.NewestFirstIsStable | client/src/pages/admin/sidebarpage/Orders.jsx:25-29 | for every creation time, the orders created then appear in the server's order |
| OrdersPage.StatusChanged | client/src/pages/admin/sidebarpage/Orders.jsx:45-62 | only the orders with that id take the new status |
| OrdersPage.SentToKitchen | client/src/pages/admin/sidebarpage/Orders.jsx:64-79 | the order shows as sent and in progress; the others are untouched |
| OrdersPage.KitchenViewDiffersFromServer | client/src/pages/admin/sidebarpage/Orders.jsx:64-79 | for an order not in progress, the page shows a status the server does not store |
| OrdersPage.BillGroup | client/src/pages/admin/sidebarpage/Orders.jsx:81-89 | an order is on the bill exactly when it shares type and customer, and for dine-in the table; the group is exactly those orders of the list, in list order and each as often as it is listed |
| OrdersPage.BillTotal | client/src/pages/admin/sidebarpage/Orders.jsx:91-94 | the total is the sum of the subtotals (0 when missing) of exactly the listed orders on the bill, each counted as often as it is listed |
| OrdersPage.FilterSamePredicate | client/src/pages/admin/sidebarpage/Orders.jsx:81-89 | two pointwise-equal filters select the same orders |
| OrdersPage.BillFromAnyMember | client/src/pages/admin/sidebarpage/Orders.jsx:81-95 | generating the bill from any order on it gives the same group and total |
| OrdersPage.SubtotalsNonNegative | client/src/pages/admin/sidebarpage/Orders.jsx:91-94 | stored orders contribute non-negative amounts |
| OrdersPage.BillTotalNonNegative | client/src/pages/admin/sidebarpage/Orders.jsx:91-94 | a bill of stored orders never totals below zero |
| OrdersPage.FilteredOrders | client/src/pages/admin/sidebarpage/Orders.jsx:134-146 | exactly the orders passing the search, type and status filters, in order |
| OrdersPage.OpenFiltersListEverything | client/src/pages/admin/sidebarpage/Orders.jsx:134-146 | an empty search with open filters lists every order |
| OrdersPage.StatusClass | client/src/pages/admin/sidebarpage/Orders.jsx:149-164 | the gray badge is for exactly the unknown statuses |
| OrdersPage.StatusClassesDistinct | client/src/pages/admin/sidebarpage/Orders.jsx:149-164 | the five statuses get five different badges |
| OrdersPage.NextPage | client/src/pages/admin/sidebarpage/Orders.jsx:166-168 | moves forward only below the last page |
| OrdersPage.PreviousPage | client/src/pages/admin/sidebarpage/Orders.jsx:170-172 | moves back only above the first page |
| OrdersPage.PagingStaysInRange | client/src/pages/admin/sidebarpage/Orders.jsx:166-172 | the buttons keep the page between 1 and the page count |
| OrderDetails.OrderSubtotal | client/src/pages/admin/sidebarpage/OrderDetails.jsx:138-143 | Σ price × quantity over the items, 0 when there are none |
| OrderDetails.GrandTotalAppend | client/src/pages/admin/sidebarpage/OrderDetails.jsx:145-148 | one more order raises the grand total by its own subtotal |
| OrderDetails.ItemsTotalNonNegative | client/src/pages/admin/sidebarpage/OrderDetails.jsx:138-143 | valid items never total below zero |
| OrderDetails.GrandTotalNonNegative | client/src/pages/admin/sidebarpage/OrderDetails.jsx:145-148 | the grand total of valid orders is never below zero |
| OrderDetails.AllCompleted | client/src/pages/admin/sidebarpage/OrderDetails.jsx:80-87 | every loaded order shows as completed, with its other fields kept |
| OrderDetails.HandlePrint | client/src/pages/admin/sidebarpage/OrderDetails.jsx:56-90 | no table, a non-ok reply, or no matched order ends in an alert; otherwise it prints, marking orders completed when some changed |
| OrderDetails.AllCompletedKeepsTotal | client/src/pages/admin/sidebarpage/OrderDetails.jsx:80-87 | marking orders completed keeps the grand total |
| OrderDetails.PrintKeepsGrandTotal | client/src/pages/admin/sidebarpage/OrderDetails.jsx:56-148 | printing never changes the amounts on the bill |
| CookDashboard.StatusChanged | client/src/pages/cook/CookDashboard.jsx:44-48 | only the orders with that id take the new status |
| CookDashboard.NotificationAfter | client/src/pages/cook/CookDashboard.jsx:52-55 | the new-order light goes off exactly on a completion |
| CookDashboard.WithNewItem | client/src/pages/cook/CookDashboard.jsx:83-93 | a named item with a positive price is appended and the drift is kept; any other is ignored |
| CookDashboard.WithoutItem | client/src/pages/cook/CookDashboard.jsx:95-105 | the indexed item leaves and the drift is kept |
| CookDashboard.SubtotalChangeIsAmountChange | client/src/pages/cook/CookDashboard.jsx:107-126 | the subtotal shift of an edit equals the change in that item's amount |
| CookDashboard.WithItemEdit | client/src/pages/cook/CookDashboard.jsx:107-126 | the indexed item takes the edit and the drift is kept |
| CookDashboard.EditsKeepSubtotalExact | client/src/pages/cook/CookDashboard.jsx:83-126 | a subtotal that matched the items still matches after each edit |
| CookDashboard.SavedEdit | client/src/pages/cook/CookDashboard.jsx:72-81 | the entries with the edited id are replaced and the others are kept |
| CookDashboard.TabOrders | client/src/pages/cook/CookDashboard.jsx:145 | exactly the orders with the tab's status, in order |
| CookDashboard.FilterLengthIsCount | client/src/pages/cook/CookDashboard.jsx:145-192 | a filter's length is the count of its predicate |
| CookDashboard.BadgeMatchesTab | client/src/pages/cook/CookDashboard.jsx:145-192 | each badge counts exactly the orders its tab lists |
| CookDashboard.BadgesWithinOrders | client/src/pages/cook/CookDashboard.jsx:179-192 | the three badges never count more orders than there are |
| AddMenuItemForm.InvalidFields | client/src/pages/admin/menu/AddMenuItem.jsx:9-43 | a field is reported exactly when its rule fails |
| AddMenuItemForm.InitialValuesRejected | client/src/pages/admin/menu/AddMenuItem.jsx:9-43 | the empty form fails every rule except the custom name |
| AddMenuItemForm.SubmittedCategory | client/src/pages/admin/menu/AddMenuItem.jsx:88-92 | the custom name is sent under "Custom", otherwise the chosen category |
| AddMenuItemForm.SubmittedBody | client/src/pages/admin/menu/AddMenuItem.jsx:86-94 | name, description, price and the submitted category are sent, with no status or image object |
| AddMenuItemForm.SubmittableFormIsStored | client/src/pages/admin/menu/AddMenuItem.jsx:86-94 | a valid form is stored exactly unless its custom category is literally "Custom" |
| MenuItemModal.Prefill | client/src/components/menu/MenuItemModal.jsx:42-64 | the edited item's fields, or a blank "available" item under the first category |
| MenuItemModal.HandleChange | client/src/components/menu/MenuItemModal.jsx:66-72 | only the named field changes; the price is parsed |
| MenuItemModal.TrimStartEmpty | client/src/components/menu/MenuItemModal.jsx:85-92 | the start trim leaves "" exactly when the string is all whitespace |
| MenuItemModal.TrimEndKeepsFirst | client/src/components/menu/MenuItemModal.jsx:85-92 | a string starting with a non-space character never trims to "" at its end |
| MenuItemModal.TrimEmptyIff | client/src/components/menu/MenuItemModal.jsx:85-92 | a string trims to "" exactly when it is all whitespace |
| MenuItemModal.TrimStartShape | client/src/components/menu/MenuItemModal.jsx:85-92 | what the start trim leaves, when anything, begins with a non-space character |
| MenuItemModal.ValidateForm | client/src/components/menu/MenuItemModal.jsx:85-92 | a message per failing field, and valid exactly when there is none |
| MenuItemModal.FormBody | client/src/components/menu/MenuItemModal.jsx:100-108 | the body carries name, description, price, category and status |
| MenuItemModal.HandleSubmit | client/src/components/menu/MenuItemModal.jsx:94-130 | a request goes out exactly when the trimmed name and category are non-empty and the price is above 0; an edit updates by id, otherwise it adds |
| MenuItemModal.ValidatedAddIsStored | client/src/components/menu/MenuItemModal.jsx:94-130 | a validated new item is stored unless its category is "Custom" or its status is unknown |
| SignupForm.InvalidFields | client/src/components/auth/Signup.jsx:27-43 | a field is reported exactly when its rule fails |
| SignupForm.InitialValuesRejected | client/src/components/auth/Signup.jsx:19-43 | the empty form fails every rule |
| SignupForm.PhoneRuleExamples | client/src/components/auth/Signup.jsx:35-37 | for example, ten digits pass; nine digits or a letter fail |
| SignupForm.Sent | client/src/hooks/auth/useSignup.js:14-22 | only non-empty values are sent |
| SignupForm.SubmittableFormCreatesCook | client/src/hooks/auth/useSignup.js:14-30 | for a valid form with role "cook" or "admin", the user document built from it is a cook account |

## Left out

- Cloudinary uploads, QR code images, temporary files and photo deletion are I/O. An upload result is a parameter.
- bcrypt hashing and comparison are parameters (`hash`, `matches`). JWT tokens and cookies are not modelled.
- Socket.IO, toasts, alerts, navigation and `window.print` are not modelled. Neither are axios timeouts and loading flags, except the order submission hook's `isSubmitting`.
- Dates are not modelled. That covers `createdAt` as a number in `OrdersPage.AfterFetch`, the date filter in Orders.jsx, and the daily, monthly, time-range and payment-type sales reports of the POS controller (`getFilteredOrders`, `getDailySales`, `getMonthlySales`, `getSalesByTimeRange`, `getTotalByPaymentType`).
- `toFixed(2)` rounding of tax, totals and change is not modelled, and amounts are exact reals.
- Read-only listings without logic are not modelled: `getAllOrders` paging, `getActiveOrder`, `getAllTables`, `getTableByNumber`, `getAllTableQRCodes`, `getAllRooms`, `getRoomByNumber`, `getRoomBookingStatusCounts`, `getAllBookings`, `getMenuItemById`, `getMenuItemCount`, `getAllUsers`, `logout` and `checkLoginStatus`.
- Mongo's ObjectId casts are not modelled. Ids are naturals and a malformed id is just an absent one.
- `null` and an absent field are both `None`.
- Mongoose `trim` and JSON type coercion are not modelled.
- Mongo gives no order guarantee for `$group` output or for ties in `$sort`. The model fixes one order, first seen first, and sorts stably.
- `OrderController.UpdateOrderStatus`: the table write is commented out in the source, so only the look-up is modelled.
- `OrderController.ApplyPatches` models `order.items.id(...)` on unique sub-document ids. Aliasing of Mongoose sub-documents is not modelled.
- `BillController.GetBillDetails` requires that the stored orders are valid, because its subtotal is read as a number.
- `CartSlice.ItemRemovedConsistent` and `UseCart.RemoveFromCartExact` hold only with unique cart ids. `CartSlice.RepeatedIdBreaksTotals` shows what happens otherwise.
- `UserController.RegisterPhoto` takes `encodeURIComponent` as a parameter.
- `PosPanel.CheckoutRequest` sends the panel's discount, which the server ignores. It is carried but given no meaning.
- `CookDashboard.WithItemEdit` and `MenuItemModal.HandleChange` take `parseFloat` as a parameter, and NaN is not modelled. `updateItem` copies the array but mutates the shared item object; that aliasing is not modelled.
- `MenuItemModal.HandleSubmit` returns the request it sends. The reply and the modal's hand-off of `response.data` to the page are modelled by `MenuPage.SavedReplyAsWritten`. The upload and the error message on a failed request are not modelled.
- `MenuPage.Saved` takes the saved menu item itself. What the page actually receives, the reply body, is modelled by `MenuPage.SavedReplyAsWritten`; see the findings.
- `MenuPage.FilteredItems` reads a missing description as "". The source would throw on `undefined.toLowerCase()`.
- `Sorting.StrLessTotal` and the other string-order lemmas compare code points. JavaScript compares UTF-16 code units, which differ only for characters outside the Basic Multilingual Plane.
- `Common.Lower` lower-cases ASCII letters only.
- `SignupForm.InvalidFields` and `AddMenuItemForm.InvalidFields` model which fields Yup reports, not which message is shown when several tests fail. The email format test is not modelled.
- `UseMenu.AfterFetch` does not model a reply whose `menuItems` field is missing, beyond treating it as not an array.
- `OrderDetails.HandlePrint` takes the completion reply as given. How the server routes `PUT /orders/complete` is not modelled.

## Findings

| source | as written | input that shows it | evidently intended | confidence | as-written member | corrected member |
|---|---|---|---|---|---|---|
| client/src/hooks/custumer/useSubmitOrder.js:117-125 | after an accepted reply the hook dispatches `removeItem()` with no payload; the reducer destructures `action.payload`, throws, and the catch block reports "Failed to submit order. Please try again." | any valid cart submitted while the server answers 201 | the customer cart is cleared and no error is shown, as the log line after the dispatch says | not executed | SubmitOrder.SubmitAsWritten, SubmitOrder.AcceptedSubmissionReportsFailure | SubmitOrder.Submit, SubmitOrder.SubmitOutcome |
| client/src/components/menu/MenuItemModal.jsx:123 | the modal hands the whole reply body `{message, menuItem}` to the page's save handler (Menu.jsx:369, 86-94), which treats it as the item: an edit compares `item._id` with the body's missing `_id` and replaces nothing, and an add appends the body, whose missing `name` the next render's `toLowerCase()` reads | editing item 7's price: the reply is `{message, menuItem: item 7 with the new price}`, and the list still shows the old price | the page saves `response.data.menuItem` | not executed | MenuPage.SavedReplyAsWritten, MenuPage.EditedReplyIsLost, MenuPage.AddedReplyBreaksRender | MenuPage.SavedReply, MenuPage.SavedReplyShowsItem |
