# Restaurant POS core in Dafny

This project models the logic at the heart of a restaurant point-of-sale system. The system has a React front end for customers and staff, and a Django back end. The model covers the rules that decide amounts, states and what is shown, not the network or the screens:

- **Orders** (`orders.dfy`, `order_modal.dfy`, `payment.dfy`): loyalty points earned per 10 000 VND, the points discount in steps of 10 points, the order status graph (pending → approved → delivering → delivered, with cancellation from each open state), order creation with its price checks and points bookkeeping, the status-update endpoint, the staff dialog that advances an order, and the checkout page's client-side discount.
- **Cart and item selection** (`cart.dfy`, `product_detail.dfy`, `quantity_input.dfy`, `price_slider.dfy`): the cart as a list keyed by product id and size, the product dialog with its running total, the numeric stepper's guards and the two-thumb price filter.
- **Reconciling pushed events** (`invoices.dfy`, `notifications.dfy`, `reconnect.dfy`, `table_updates.dfy`, `order_updates.dfy`): the invoice list's upsert of order events, the notification list with its separately kept unread counter, and the two push feeds. Each feed is a state machine over the events open, close with a code, error, timer firing and unmount.
- **Table occupancy** (`table_occupancy.dfy`): seating a customer unseats them everywhere else, so each customer sits at one table at most.
- **Validators and access control** (`accounts.dfy`, `login.dfy`, `permissions.dfy`, `admin_dashboard.dfy`): generated staff passwords, login and password change, the customer login form, the role-permission decorator, the permission picker and the admin menu.
- **List views** (`data_table.dfy`, `order_tracking.dfy`, `home_page.dfy`, `breadcrumb.dfy`, `point_history.dfy`): search, sort and pagination, the breadcrumb trail and the de-duplicated points history.
- **Statistics windows** (`statistics.dfy`): the current and previous reporting periods, the change percentage, the dead-product window and the last seven days.

Shared modules: `common.dfy` (Option, Result, the JSON-like `Value` and JavaScript truthiness), `text.dfy` (ASCII lower-casing, substring search, the string order of `<`, integer rendering) and `collections.dfy` (filter, and a stable insertion sort standing for `Array.prototype.sort`).

Code that computes values is modelled as functions and lemmas. Code that keeps state (React state cells, refs, ORM rows updated in place) is modelled as classes whose methods state the whole new state in terms of those functions. Lookups in the database are maps. Network replies, clocks and library calls are parameters.

Behaviour that is easy to misread, and that the model follows as written:

- The table feed stops after 5 failed attempts and reports `failed` (src/hooks/useTableUpdates.js:20-24).
- The order feed resets its counter at 10 and retries forever (src/hooks/useOrderUpdates.js:21-25).
- The invoice merge copies every key of the event, nulls included (src/components/sections/InvoicesSection.jsx:27-28).
- `markAsRead` lowers the unread counter even for a read or unknown id, so the counter can drift from the list. `Notifications.MarkAsReadOnReadIdDiverges` exhibits this.
- For columns other than dates, the admin table's `'asc'` puts larger values first (src/components/DataTable.jsx:37-38).

## Model

| member | source | states |
|---|---|---|
| Orders.CalculatePoints | backend/orders/views.py:14-16 | the points earned are the amount divided by 10000, rounded down: p·10000 ≤ amount < p·10000 + 10000, so an amount below 10000 earns nothing and a non-negative amount never earns negative points |
| Orders.CalculatePointsDiscount | backend/orders/views.py:18-20 | the discount is the largest multiple of 10000 not above 1000 per point, i.e. (points div 10)·10000: exactly 1000 per point when the points are a multiple of 10 |
| Orders.PointsDiscountMonotone | backend/orders/views.py:18-20 | using more points never gives a smaller discount |
| Orders.TransitionCharacterised | backend/orders/views.py:22-31 | a status change is allowed exactly from a known non-terminal status, either to cancelled or to the next status of pending → approved → delivering → delivered |
| Orders.TransitionProgresses | backend/orders/views.py:22-31 | every allowed change moves forward to a known status |
| Orders.NoMoveFromTerminalOrUnknown | backend/orders/views.py:22-31 | nothing is allowed from delivered, cancelled or an unknown status |
| Orders.CheckItem | backend/orders/views.py:66-96 | an item is accepted exactly when its product exists, its quantity is positive and the sent price is within 1 of the size's price; the accepted line keeps the sent price, quantity, product and size (default `'default'`) |
| Orders.PriceItemsAccepts | backend/orders/views.py:66-102 | the item list is accepted exactly when every item is, and then yields one line per item carrying that item's price, quantity and product |
| Orders.AcceptedLinesPositive | backend/orders/views.py:72-76 | in an accepted order every quantity is positive |
| Orders.AccumulateItems | backend/orders/views.py:62-102 | the loop returns the first item's error, or the sum of sent price × quantity together with the priced lines |
| Orders.PriceItemsPrefixErr | backend/orders/views.py:66-102 | once an item in a prefix is rejected, later items cannot change the error |
| Orders.ApplyPoints | backend/orders/views.py:107-117 | without `use_points` or with fewer than 10 points nothing is used and the final amount is the total; otherwise the points used are the largest multiple of 10 within both the customer's points and what the total needs, the discount is 1000 per point used, and the final amount is the total minus the discount, floored at 0, so 0 ≤ final amount ≤ total |
| Orders.CreateOrder | backend/orders/views.py:35-160 | a failed precheck changes no customer; otherwise the customer's points become old − used + earned (earned from the total before the discount), total spent grows by the final amount, no other customer changes, a customer without a table gives `NoTable` after that update, and the receipt carries status `'Chờ duyệt'` |
| Orders.UpdateOrderStatus | backend/orders/views.py:261-295 | checks in order a present status, the order's existence, a known status and an allowed move; the status changes exactly on success and no other order changes |
| OrderModal.GetNextStatus | src/components/OrderItemModal.jsx:56-67 | the status moves on exactly from pending, approved and delivering, always by an allowed, non-cancelling move; any other status is kept, and keeping it is never an allowed move |
| OrderModal.GetButtonText | src/components/OrderItemModal.jsx:119-130 | the generic label is shown exactly for the statuses that do not move on |
| OrderModal.AdvanceFixed | src/components/OrderItemModal.jsx:56-67 | advancing a status that does not move on any number of times keeps it |
| OrderModal.AdvanceFromPending | src/components/OrderItemModal.jsx:56-67 | three or more advances from pending reach delivered |
| OrderModal.AdvanceFromPendingEarly | src/components/OrderItemModal.jsx:56-67 | fewer than three advances from pending do not reach a terminal status |
| OrderModal.ButtonsRequestLegalMoves | src/components/OrderItemModal.jsx:56-67 | from a status that shows the buttons, both the advance and the cancellation are allowed by the back end's transition rule (backend/orders/views.py:22-31) |
| OrderModal.StatusToUpdate | src/components/OrderItemModal.jsx:73 | the status sent is the explicit argument when one is given, else the next status |
| OrderModal.OrderItemModal.HandleCancelOrder | src/components/OrderItemModal.jsx:115-117 | only the cancel confirmation is opened |
| OrderModal.OrderItemModal.HandleProcessOrder | src/components/OrderItemModal.jsx:69-113 | on failure only the error is set; on success the status becomes the response's `new_status` or the status sent, the amount keeps its old value when the response has none, the processed order is reported once, and the modal closes exactly at delivered or cancelled |
| OrderModal.AdvanceClosesOnlyAtDelivered | src/components/OrderItemModal.jsx:103-105 | among the statuses with buttons, advancing closes the modal only from delivering |
| Payment.DiscountedTotal | src/pages/PaymentPage.jsx:82-89 | without points in use, or with fewer than 10, the total is unchanged; otherwise it is the total minus (points div 10)·10000 when the total covers that discount, and 0 when it does not |
| Payment.DiscountAgreesWithBackend | src/pages/PaymentPage.jsx:82-89 | the discounted total shown equals the back end's final amount for the same total and points (backend/orders/views.py:107-117) |
| Payment.PaymentPage.RecomputeDiscount | src/pages/PaymentPage.jsx:82-89 | the effect stores the discounted total of the current total and points |
| Payment.PaymentPage.HandleUsePointsChange | src/pages/PaymentPage.jsx:162-169 | points can be in use only for a member; a non-member gets the membership modal and the box stays unchecked; a member's choice is taken as is |
| Payment.PaymentPage.CloseModal | src/pages/PaymentPage.jsx:171-173 | the membership modal is closed |
| Cart.FindIndex | src/hooks/useCart.js:15-17 | the index of the first entry with the id and size, or −1 exactly when there is none |
| Cart.AddToCart | src/hooks/useCart.js:13-41 | an existing key keeps the cart's length and changes only that entry (quantity grows, note replaced only by a non-empty one); a new key appends one entry at the end |
| Cart.AddToCartTotals | src/hooks/useCart.js:13-69 | adding raises the item count by the added quantity and the total by that quantity times the entry's price |
| Cart.AddToCartKeepsUnique | src/hooks/useCart.js:13-41 | adding keeps every (id, size) key unique |
| Cart.RemoveFromCart | src/hooks/useCart.js:43-47 | exactly the entries with that key are removed |
| Cart.RemoveDistributes | src/hooks/useCart.js:43-47 | removal works entry by entry, so the other entries keep their order |
| Cart.RemoveAbsent | src/hooks/useCart.js:43-47 | removing a key that is not there leaves the cart unchanged |
| Cart.RemovePresent | src/hooks/useCart.js:43-47 | in a cart with unique keys, removal deletes exactly the one matching position |
| Cart.RemoveKeepsUnique | src/hooks/useCart.js:43-47 | removal keeps the keys unique |
| Cart.UpdateQuantity | src/hooks/useCart.js:49-61 | other entries stay; a matching entry is kept with its quantity changed by the amount exactly when that quantity stays positive, and dropped otherwise |
| Cart.UpdateDistributes | src/hooks/useCart.js:49-61 | the update works entry by entry, so the entries keep their order |
| Cart.UpdateKeepsUnique | src/hooks/useCart.js:49-61 | a quantity change keeps the keys unique |
| Cart.UpdateKeepsPositive | src/hooks/useCart.js:49-61 | positive quantities stay positive |
| Cart.ClearCart | src/hooks/useCart.js:63-66 | the cart becomes empty |
| Cart.TotalAppend | src/hooks/useCart.js:68-69 | the total and the item count of two carts side by side add up |
| Cart.TotalUpdate | src/hooks/useCart.js:68-69 | changing one entry changes the total and the item count by exactly that entry's difference |
| ProductDetail.ProductDetailModal.Reset | src/components/ProductDetailModal.jsx:10-17 | a new item resets quantity to 1, size to `'default'`, note to `''` and the total to the item's price |
| ProductDetail.ProductDetailModal.UpdateTotalPrice | src/components/ProductDetailModal.jsx:32-35 | the total is the size's unit price times the quantity |
| ProductDetail.ProductDetailModal.HandleQuantityChange | src/components/ProductDetailModal.jsx:21-25 | the quantity becomes max(1, quantity + change) and the total stays the unit price times the quantity |
| ProductDetail.ProductDetailModal.HandleSizeChange | src/components/ProductDetailModal.jsx:27-30 | the size changes, the quantity does not, and the total follows the new size's price |
| ProductDetail.ProductDetailModal.SetNote | src/components/ProductDetailModal.jsx:105 | the note is the text typed |
| ProductDetail.ProductDetailModal.HandleAddToCart | src/components/ProductDetailModal.jsx:37-48 | the cart entry carries the item, the chosen size, quantity and note, and the unit price of that size, so that price times quantity is the total shown |
| QuantityInput.HandleDecrease | src/components/QuantityInput.jsx:4-8 | value − 1 is emitted exactly when the value is above the minimum |
| QuantityInput.HandleIncrease | src/components/QuantityInput.jsx:10-14 | value + 1 is emitted exactly when there is no maximum or the value is below it |
| QuantityInput.ParseInt | src/components/QuantityInput.jsx:28 | after leading whitespace and an optional sign, a number is found exactly when a digit follows; its value is the longest digit run, negated after a minus |
| QuantityInput.ParseIntPrefix | src/components/QuantityInput.jsx:28 | the decimal form of any integer, followed by anything that does not start with a digit, parses back to that integer |
| QuantityInput.ParseIntString | src/components/QuantityInput.jsx:28 | every integer's decimal form parses back to that integer |
| QuantityInput.ParseIntSkipsSpace | src/components/QuantityInput.jsx:28 | a leading whitespace character does not change the result |
| QuantityInput.ParseIntNoNumber | src/components/QuantityInput.jsx:28 | text starting with anything but whitespace, a sign or a digit is not a number |
| QuantityInput.HandleTyped | src/components/QuantityInput.jsx:27-32 | a typed value is emitted exactly when it parses and lies within the minimum and the maximum |
| QuantityInput.EmittedStaysInRange | src/components/QuantityInput.jsx:4-32 | every emitted value stays within the bounds whenever the current value does |
| QuantityInput.ParseIntExample | src/components/QuantityInput.jsx:28 | `parseInt("-7x")` reads the sign and the digit and stops at the first other character |
| PriceSlider.SeqMin | src/components/PriceSlider.jsx:12 | the lowest price of a non-empty list |
| PriceSlider.SeqMax | src/components/PriceSlider.jsx:13 | the highest price of a non-empty list |
| PriceSlider.PriceSlider.SetItems | src/components/PriceSlider.jsx:10-19 | a non-empty list sets the range and both thumbs to its lowest and highest price; an empty list changes nothing |
| PriceSlider.PriceSlider.HandleMinPriceChange | src/components/PriceSlider.jsx:24-28 | the minimum becomes the value, capped at max − 1, so min < max holds, and (new min, max) is reported |
| PriceSlider.PriceSlider.HandleMaxPriceChange | src/components/PriceSlider.jsx:30-34 | the maximum becomes the value, raised to at least min + 1, so min < max holds, and (min, new max) is reported |
| Invoices.ContainsId | src/components/sections/InvoicesSection.jsx:24 | true exactly when some order has the event's id |
| Invoices.MergeAll | src/components/sections/InvoicesSection.jsx:27-29 | the list keeps its length and order; each order with the event's id is overlaid with every key of the event, the others are untouched |
| Invoices.HandleNewOrder | src/components/sections/InvoicesSection.jsx:20-35 | a state that is not a list counts as empty; a known id merges the event into the matching orders, an unseen one is put in front |
| Invoices.MergeFieldLaw | src/components/sections/InvoicesSection.jsx:28 | after the overlay a key the event carries has the event's value, nulls included, and any other key keeps the order's value |
| Invoices.NewOrderLength | src/components/sections/InvoicesSection.jsx:24-33 | an unseen id grows the list by one with the old list after it; a known id keeps the length |
| Invoices.HandledEventPresent | src/components/sections/InvoicesSection.jsx:20-35 | after handling, the list holds an order with the event's id |
| Invoices.MergeAllIdempotent | src/components/sections/InvoicesSection.jsx:27-29 | merging the same event twice is merging it once |
| Invoices.HandleNewOrderIdempotent | src/components/sections/InvoicesSection.jsx:20-35 | handling the same event twice gives the list handled once |
| Invoices.TwoEventsForOneOrder | src/components/sections/InvoicesSection.jsx:20-35 | after two events for one order, each key holds the later event's value when it has one, else the earlier event's |
| Invoices.ApprovalExample | src/components/sections/InvoicesSection.jsx:20-35 | a new pending order followed by its approval leaves one order holding the approval's fields |
| Invoices.HandleStatusUpdate | src/components/sections/InvoicesSection.jsx:51-59 | only the matching orders change, and in them only `status`, set to the new one, and `final_amount`, kept when the new amount is falsy |
| Invoices.StatusUpdateDisablesDetail | src/components/sections/InvoicesSection.jsx:51-137 | after a status update, a matching order's detail button is disabled exactly when the new status is cancelled; every other order keeps its button state |
| Invoices.FilterWindow | src/components/sections/InvoicesSection.jsx:154-159 | keeps exactly the orders dated within the bounds, a missing bound being open |
| Invoices.FilterWindowAppend | src/components/sections/InvoicesSection.jsx:154-159 | the filter works order by order, so the kept orders keep their relative order |
| Invoices.FilterByDate | src/components/sections/InvoicesSection.jsx:143-162 | a state that is not a list shows nothing and keeps the error; a start after the end shows nothing and sets the error; otherwise the error is cleared and the window filter of the list is shown, in the list's order |
| Invoices.FilterAllOpen | src/components/sections/InvoicesSection.jsx:154-159 | with neither bound every order is kept, in order |
| Notifications.CountUnread | src/hooks/useNotifications.js:8-44 | the number of unread entries: at most the list's length, and 0 exactly when all are read |
| Notifications.MarkRead | src/hooks/useNotifications.js:19-25 | the entries with the id become read; nothing else in the list changes |
| Notifications.MarkAllRead | src/hooks/useNotifications.js:29-34 | every entry becomes read, and nothing else changes |
| Notifications.RemoveId | src/hooks/useNotifications.js:36-44 | removes exactly the entries with the id |
| Notifications.RemoveIdAppend | src/hooks/useNotifications.js:36-44 | removal works entry by entry, so the entries left keep their order |
| Notifications.Find | src/hooks/useNotifications.js:37 | the first entry with the id, or nothing exactly when there is none |
| Notifications.Decrement | src/hooks/useNotifications.js:26-40 | the counter goes down by one and never below 0 |
| Notifications.CountUnreadAppend | src/hooks/useNotifications.js:8-44 | the unread count of two lists side by side adds up |
| Notifications.MarkAllReadNoneUnread | src/hooks/useNotifications.js:29-34 | nothing is unread after marking all as read |
| Notifications.RemoveIdUnread | src/hooks/useNotifications.js:36-44 | with unique ids, removal lowers the unread count by one exactly when the first match was unread |
| Notifications.RemoveAbsentId | src/hooks/useNotifications.js:36-44 | removing an unknown id leaves the list unchanged |
| Notifications.MarkReadUnread | src/hooks/useNotifications.js:19-25 | with unique ids, marking lowers the unread count by one exactly when the entry was unread |
| Notifications.MarkReadAbsent | src/hooks/useNotifications.js:19-25 | marking an unknown id leaves the list unchanged |
| Notifications.NotificationStore.AddNotification | src/hooks/useNotifications.js:8-16 | the notification is put in front and the counter goes up by one whatever its read flag, so a non-negative counter becomes positive; the counter stays equal to the unread entries when it was and the new one is unread |
| Notifications.NotificationStore.MarkAsRead | src/hooks/useNotifications.js:19-27 | the entries with the id become read and the counter goes down, floored at 0, whatever the id, so it is never negative afterwards; the counter stays exact only when the id named an unread entry |
| Notifications.NotificationStore.MarkAllAsRead | src/hooks/useNotifications.js:29-34 | every entry is read and the counter is 0, which is exact |
| Notifications.NotificationStore.RemoveNotification | src/hooks/useNotifications.js:36-44 | the entries with the id are removed and the counter goes down, floored at 0, exactly when the first match was unread, so a non-negative counter stays non-negative; with unique ids the counter stays exact |
| Notifications.MarkAsReadOnReadIdDiverges | src/hooks/useNotifications.js:19-27 | marking an entry that is already read leaves one unread entry while the counter drops to 0 |
| PointHistory.NewEntry | src/pages/PaymentSuccessPage.jsx:21-27 | the entry records the points earned, the points used, the customer's points, the order id and the time |
| PointHistory.HasOrder | src/pages/PaymentSuccessPage.jsx:30 | true exactly when some entry has the order id |
| PointHistory.Updated | src/pages/PaymentSuccessPage.jsx:29-37 | a recorded order leaves the history unchanged; otherwise exactly one entry is appended after the unchanged earlier ones; afterwards the order is recorded |
| PointHistory.UpdateIdempotent | src/pages/PaymentSuccessPage.jsx:29-38 | running the update twice for one order equals running it once |
| PointHistory.UpdateKeepsRecordedOrders | src/pages/PaymentSuccessPage.jsx:29-38 | an order that was recorded stays recorded |
| PointHistory.CustomerStorage.UpdatePointHistory | src/pages/PaymentSuccessPage.jsx:16-40 | a duplicate order writes nothing; otherwise the stored history becomes the updated one and the current points are stored |
| Reconnect.Schedule | src/hooks/useTableUpdates.js:105-107 | a reconnect timer is added under a fresh handle, remembered as the pending one, and nothing else in the feed changes |
| Reconnect.Cleanup | src/hooks/useTableUpdates.js:122-130 | unmounting cancels the remembered timer and only that one, and marks the feed unmounted |
| TableUpdates.ReconnectDelay | src/hooks/useTableUpdates.js:13-16 | the delay lies between 1000 and 30000 ms |
| TableUpdates.ReconnectDelayMonotone | src/hooks/useTableUpdates.js:13-16 | more attempts never give a shorter delay |
| TableUpdates.ReconnectDelaySchedule | src/hooks/useTableUpdates.js:13-16 | the delays for 0 to 5 attempts are 1, 2, 4, 8, 16 and 30 seconds |
| Reconnect.Retry | src/hooks/useTableUpdates.js:110-116 | a failed attempt counts one more attempt and schedules exactly one reconnect, under a fresh handle that becomes the pending one, with the feed's delay for the new count; status and sockets are untouched |
| TableUpdates.CloseSchedulesOneReconnect | src/hooks/useTableUpdates.js:97-109 | a close marks the feed disconnected; any code but 1000 counts one more attempt first and schedules exactly one reconnect with the delay for the new count, and code 1000 schedules nothing |
| TableUpdates.ConnectGivesUp | src/hooks/useTableUpdates.js:20-24 | from 5 attempts on, connecting only sets the status to failed |
| TableUpdates.ConnectBelowLimit | src/hooks/useTableUpdates.js:18-116 | below the limit, connecting opens one socket and sets connecting, or when creation fails sets error, counts an attempt and schedules one reconnect |
| TableUpdates.OpenResets | src/hooks/useTableUpdates.js:37-40 | an open sets connected and resets the attempts to 0 |
| TableUpdates.StepKeepsInv | src/hooks/useTableUpdates.js:18-131 | every event keeps the timers' handles fresh |
| TableUpdates.RunKeepsInv | src/hooks/useTableUpdates.js:18-131 | any sequence of events keeps the timers' handles fresh |
| TableUpdates.UnmountCancelsReconnect | src/hooks/useTableUpdates.js:122-130 | after an abnormal close, unmounting removes the pending reconnect, so its firing changes nothing |
| TableUpdates.GivesUpAfterFiveClosures | src/hooks/useTableUpdates.js:18-116 | five abnormal closures, each followed by its reconnect, open five sockets and then leave the feed failed with no timer pending |
| TableUpdates.FindTable | src/hooks/useTableUpdates.js:65 | the index of the first table with the id, or nothing exactly when there is none |
| TableUpdates.AddOccupant | src/hooks/useTableUpdates.js:71-75 | the phone is added only if absent, and nothing else changes |
| TableUpdates.RemoveOccupant | src/hooks/useTableUpdates.js:76-79 | every occurrence of the phone is removed, and the other phones stay |
| TableUpdates.ApplyMessage | src/hooks/useTableUpdates.js:53-90 | a pong, a message that is not a table event, or an unknown table leaves the tables unchanged; otherwise only the first table with the id changes, and only its occupants |
| TableUpdates.RemoveOccupantIdempotent | src/hooks/useTableUpdates.js:76-79 | removing a phone twice is removing it once |
| TableUpdates.OccupantsIdempotent | src/hooks/useTableUpdates.js:71-79 | applying an assignment or removal twice is applying it once |
| TableUpdates.ApplyMessageKeepsIds | src/hooks/useTableUpdates.js:61-84 | no table's id changes |
| TableUpdates.ApplyMessageIdempotent | src/hooks/useTableUpdates.js:53-90 | a message delivered twice has the effect of one delivery |
| TableUpdates.AssignThenRemove | src/hooks/useTableUpdates.js:71-79 | an assignment followed by the matching removal leaves the phone at no table that changed, and other tables untouched |
| TableUpdates.TableFeed.ScheduleRetry | src/hooks/useTableUpdates.js:110-116 | the feed takes the retry step and the tables do not change |
| TableUpdates.TableFeed.Connect | src/hooks/useTableUpdates.js:18-117 | the feed takes the connect step and the tables do not change |
| TableUpdates.TableFeed.OnOpen | src/hooks/useTableUpdates.js:37-51 | the feed takes the open step and the tables do not change |
| TableUpdates.TableFeed.OnError | src/hooks/useTableUpdates.js:92-95 | the feed takes the error step and the tables do not change |
| TableUpdates.TableFeed.OnClose | src/hooks/useTableUpdates.js:97-109 | the feed takes the close step and the tables do not change |
| TableUpdates.TableFeed.OnTimer | src/hooks/useTableUpdates.js:105-107 | a timer firing takes the feed's timer step and the tables do not change |
| TableUpdates.TableFeed.Unmount | src/hooks/useTableUpdates.js:122-130 | the feed takes the unmount step and the tables do not change |
| TableUpdates.TableFeed.OnMessage | src/hooks/useTableUpdates.js:53-90 | the tables become the message applied to them |
| OrderUpdates.ReconnectDelay | src/hooks/useOrderUpdates.js:14-17 | the delay lies between 1000 and 10000 ms |
| OrderUpdates.ReconnectDelayMonotone | src/hooks/useOrderUpdates.js:14-17 | more attempts never give a shorter delay |
| OrderUpdates.ConnectAlwaysRetries | src/hooks/useOrderUpdates.js:19-81 | connecting never gives up: at 10 attempts the counter restarts from 0, and then a socket is opened, or on a creation failure an attempt is counted and one reconnect scheduled |
| OrderUpdates.CloseSchedulesOneReconnect | src/hooks/useOrderUpdates.js:62-73 | a close marks the feed disconnected; any code but 1000 counts one more attempt and schedules exactly one reconnect, and code 1000 schedules nothing |
| OrderUpdates.OpenResets | src/hooks/useOrderUpdates.js:36-40 | an open sets connected and resets the attempts to 0 |
| OrderUpdates.StepKeepsInv | src/hooks/useOrderUpdates.js:19-95 | every event keeps the timers' handles fresh and the feed out of the failed state |
| OrderUpdates.NeverFails | src/hooks/useOrderUpdates.js:19-95 | no sequence of events ever leaves the order feed failed |
| OrderUpdates.UnmountCancelsReconnect | src/hooks/useOrderUpdates.js:87-94 | after an abnormal close, unmounting removes the pending reconnect, so its firing changes nothing |
| OrderUpdates.Forwarded | src/hooks/useOrderUpdates.js:42-55 | no more payloads are passed on than messages arrive |
| OrderUpdates.ForwardedAppend | src/hooks/useOrderUpdates.js:42-55 | messages are passed on one by one, in arrival order |
| OrderUpdates.ForwardedExactly | src/hooks/useOrderUpdates.js:42-55 | a payload is passed on exactly when some message that parsed and is not a pong carried it |
| OrderUpdates.DroppedMessages | src/hooks/useOrderUpdates.js:43-54 | a message that fails to parse, a pong, or one whose type cannot be read is dropped; any other is passed on once |
| OrderUpdates.OrderFeed.ScheduleRetry | src/hooks/useOrderUpdates.js:74-81 | the feed takes the retry step and nothing is delivered |
| OrderUpdates.OrderFeed.Connect | src/hooks/useOrderUpdates.js:19-82 | the feed takes the connect step and nothing is delivered |
| OrderUpdates.OrderFeed.OnOpen | src/hooks/useOrderUpdates.js:36-40 | the feed takes the open step and nothing is delivered |
| OrderUpdates.OrderFeed.OnError | src/hooks/useOrderUpdates.js:57-60 | the feed takes the error step and nothing is delivered |
| OrderUpdates.OrderFeed.OnClose | src/hooks/useOrderUpdates.js:62-73 | the feed takes the close step and nothing is delivered |
| OrderUpdates.OrderFeed.OnTimer | src/hooks/useOrderUpdates.js:71 | a timer firing takes the feed's timer step and nothing is delivered |
| OrderUpdates.OrderFeed.Unmount | src/hooks/useOrderUpdates.js:87-94 | the feed takes the unmount step and nothing is delivered |
| OrderUpdates.OrderFeed.OnMessage | src/hooks/useOrderUpdates.js:42-55 | the message's payload is delivered after the earlier ones, unless it is dropped |
| OrderUpdates.OrderFeed.OnMessages | src/hooks/useOrderUpdates.js:42-55 | a run of messages delivers exactly their forwarded payloads, in order |
| TableOccupancy.FindTable | backend/tables/views.py:54 | the first table with the id, or nothing exactly when there is none |
| TableOccupancy.AssignCheck | backend/tables/views.py:53-68 | rejects, in this order, an unknown table, a missing phone, an unknown customer and a table already holding someone; passes exactly otherwise |
| TableOccupancy.Assigned | backend/tables/views.py:70-79 | every table keeps its id |
| TableOccupancy.AssignedSeatsOnlyThere | backend/tables/views.py:70-79 | after an assignment the target table holds exactly the customer, the customer is at no other table, and the other occupants stay where they were |
| TableOccupancy.AssignedKeepsAtMostOne | backend/tables/views.py:70-79 | assignment keeps every customer at one table at most |
| TableOccupancy.RemovalNoticesExactly | backend/tables/views.py:72-75 | one removal notice is sent for each table the customer was at, and no other |
| TableOccupancy.RemovalNoticesDistinct | backend/tables/views.py:72-75 | no table gets two removal notices |
| TableOccupancy.RemoveCheck | backend/tables/views.py:106-138 | rejects, in this order, an unknown table, a missing phone, an unknown customer and a customer not at the table; passes exactly otherwise |
| TableOccupancy.RemovedKeepsAtMostOne | backend/tables/views.py:141 | removal keeps every customer at one table at most |
| TableOccupancy.CheckAvailability | backend/tables/views.py:178-190 | an unknown table is an error; otherwise the count is the number of customers at it and the table is occupied exactly when that count is positive |
| TableOccupancy.TableService.AssignCustomer | backend/tables/views.py:53-82 | a rejected request changes nothing; otherwise the customer is moved to the table, one removal notice per earlier table is sent and then one assignment notice |
| TableOccupancy.TableService.RemoveCustomer | backend/tables/views.py:106-155 | a rejected request changes nothing; otherwise only that customer leaves the table and the remaining customers are returned |
| Accounts.Authenticated | backend/accounts/views.py:41-47 | an account comes back exactly when the username exists, the account is active and the password equals the stored one, and then it is that account |
| Accounts.BooleanTrueIsInactive | backend/accounts/views.py:73 | a JSON boolean of either value, a missing value and any text other than "true" give an inactive account; the text "true" gives an active one |
| Accounts.TrimEnd | backend/accounts/views.py:164 | the result is a prefix of the name, everything cut is whitespace and the result does not end in whitespace |
| Accounts.TrailingRun | backend/accounts/views.py:164 | the result is a suffix without whitespace, preceded by whitespace when it is not the whole text |
| Accounts.LastWord | backend/accounts/views.py:164 | the last whitespace-separated word of the name: non-empty when the name has a word, free of whitespace, and found in the name |
| Accounts.LastFour | backend/accounts/views.py:166 | the last four characters of the phone number, or the whole number when it is shorter |
| Accounts.GeneratePassword | backend/accounts/views.py:159-168 | nothing for an empty name or phone; an index error for a name of only whitespace; otherwise the lower-cased transliterated last word followed by the last four phone digits, so the password ends in those digits |
| Accounts.GeneratedPasswordDependsOnlyOnLastWordAndDigits | backend/accounts/views.py:163-167 | two staff with the same last word and the same last four digits get the same password |
| Accounts.GeneratePasswordExample | backend/accounts/views.py:159-168 | "Le An " with phone 0901234567 gives "an4567" |
| Accounts.ChangeCheck | backend/accounts/views.py:170-198 | rejects, in this order, a missing id, a missing old password, a missing new password, an unknown staff, a staff row without an account, a wrong old password and an unchanged password: each refusal happens exactly when the earlier checks pass and its own fails, and the change passes exactly when all checks hold |
| Accounts.StaffDirectory.ChangePassword | backend/accounts/views.py:170-204 | on success only the staff's account gets the new password; on any error nothing changes |
| Accounts.StaffDirectory.CreateStaff | backend/accounts/views.py:66-101 | a taken username or invalid staff data changes nothing; a missing name or phone removes the account again; success stores the account with the generated password and the linked staff row |
| Login.AllDigits | src/hooks/useLogin.js:9 | true exactly when every character is a decimal digit |
| Login.PhoneValid | src/hooks/useLogin.js:8-16 | a phone is valid exactly when it has ten characters, all digits |
| Login.Blank | src/hooks/useLogin.js:20 | true exactly when every character is whitespace, as trim removes it |
| Login.LettersAndSpaces | src/hooks/useLogin.js:19 | true exactly when every character is an ASCII letter or whitespace |
| Login.NameError | src/hooks/useLogin.js:18-30 | the empty-name message exactly for a blank name, the invalid-name message exactly for a non-blank name holding another character, and no error exactly when the name has a letter and only letters and spaces |
| Login.AccentedNameRejected | src/hooks/useLogin.js:19-26 | a Vietnamese name with an accented letter is refused as containing special characters |
| Login.PhoneExamples | src/hooks/useLogin.js:9-10 | ten digits pass; nine digits, eleven digits and a letter fail |
| Login.LoginForm.ValidatePhone | src/hooks/useLogin.js:8-16 | returns phone validity and sets or clears only the phone error |
| Login.LoginForm.ValidateName | src/hooks/useLogin.js:18-30 | returns name validity and sets or clears only the name error |
| Login.LoginForm.HandleLogin | src/hooks/useLogin.js:32-60 | no request when the phone or the name is invalid (the name is not checked after a bad phone); otherwise one request, the phone stored only on success, and the server text, a default message or the failure message as the general error |
| Permissions.RequestRole | backend/permissions/decorators.py:11 | a non-empty query role wins; otherwise the body role when it is truthy; whatever comes back is truthy |
| Permissions.Missing | backend/permissions/decorators.py:39-42 | the required codes the role does not hold, in order, and only those |
| Permissions.MissingAppend | backend/permissions/decorators.py:39-42 | the missing codes of two lists joined are the missing codes of each, joined |
| Permissions.MissingOne | backend/permissions/decorators.py:39-42 | one code is missing exactly when the role does not hold it |
| Permissions.Check | backend/permissions/decorators.py:9-58 | a missing role, then an unknown role, then a forbidden role listing its missing codes and the required ones; access is granted exactly when the role is known and holds every required code |
| Permissions.QueryRoleWins | backend/permissions/decorators.py:11 | a sales-staff role in the query is refused even when the body claims another role |
| Permissions.RemoveAll | src/components/RolePermissionModal.jsx:28 | the id is gone, every other id stays present or absent as before, and a list without the id is unchanged |
| Permissions.RemoveAllNoDuplicates | src/components/RolePermissionModal.jsx:28 | removing an id keeps a duplicate-free selection duplicate-free |
| Permissions.Toggle | src/components/RolePermissionModal.jsx:24-31 | view mode changes nothing; a selected id is removed; an unselected id is appended |
| Permissions.ToggleNoDuplicates | src/components/RolePermissionModal.jsx:24-31 | toggling keeps a duplicate-free selection duplicate-free |
| Permissions.ToggleTwiceAbsent | src/components/RolePermissionModal.jsx:24-31 | toggling an unselected id twice restores the selection exactly |
| Permissions.ToggleTwicePresent | src/components/RolePermissionModal.jsx:24-31 | toggling a selected id twice restores the set of selected ids (it moves to the end) |
| Permissions.PermissionIds | src/components/RolePermissionModal.jsx:16-19 | one id per role permission, in order |
| Permissions.PermissionPicker.Init | src/components/RolePermissionModal.jsx:15-22 | loads the ids of the role's permissions when present, otherwise keeps the selection |
| Permissions.PermissionPicker.HandlePermissionChange | src/components/RolePermissionModal.jsx:24-31 | the selection becomes its toggle |
| Permissions.PermissionPicker.HandleSubmit | src/components/RolePermissionModal.jsx:33-36 | submits the current selection |
| AdminDashboard.Shown | src/pages/AdminDashboard.jsx:22-25 | a visible item is shown with its submenu unchanged |
| AdminDashboard.FilterMenuItems | src/pages/AdminDashboard.jsx:19-26 | an item is in the sidebar exactly when it is in the menu and needs no permission or a held one |
| AdminDashboard.FilterAppend | src/pages/AdminDashboard.jsx:19-26 | filtering distributes over joined menus |
| AdminDashboard.Flatten | src/pages/AdminDashboard.jsx:59-72 | the depth-first order of items and submenus, starting with the first item |
| AdminDashboard.FirstMatch | src/pages/AdminDashboard.jsx:60-63 | the first item with the name, or nothing exactly when no item has it |
| AdminDashboard.FirstMatchAppend | src/pages/AdminDashboard.jsx:60-70 | a match in the first part wins over the second |
| AdminDashboard.FindActive | src/pages/AdminDashboard.jsx:59-72 | a component found belongs to an item with the active name somewhere in the tree |
| AdminDashboard.FindActiveIsFirstMatch | src/pages/AdminDashboard.jsx:59-72 | when every item has a component, the recursive search returns the component of the first match in depth-first order |
| AdminDashboard.SubtreeInFlatten | src/pages/AdminDashboard.jsx:64-65 | each item and all of its submenu appear in the flattened tree |
| AdminDashboard.InitialSection | src/pages/AdminDashboard.jsx:30-39 | an already chosen section or an empty sidebar is kept; otherwise the name of the first allowed item's first submenu entry or of the item itself |
| AdminDashboard.InitialSectionShowsComponent | src/pages/AdminDashboard.jsx:30-39 | when something is allowed and every item has a component, the initial section shows a component |
| AdminDashboard.LookupIgnoresPermissions | src/pages/AdminDashboard.jsx:74 | the component lookup runs on the unfiltered menu, so a section the user may not see is still found by name |
| AdminDashboard.Dashboard.SelectInitialSection | src/pages/AdminDashboard.jsx:30-39 | the active section becomes the initial section of the allowed items |
| AdminDashboard.Dashboard.Render | src/pages/AdminDashboard.jsx:28-89 | the sidebar holds exactly the allowed items and the component is the one looked up in the full menu |
| DataTable.ValueText | src/components/DataTable.jsx:25 | a falsy field yields no text; a non-empty text field yields itself |
| DataTable.RowMatches | src/components/DataTable.jsx:21-26 | an empty search term keeps every row; otherwise a row matches exactly when some search field holds the lower-cased term |
| DataTable.RowBeforeIsStrictOrder | src/components/DataTable.jsx:27-40 | the sort comparator, on dates or on values in either direction, is a strict partial order (irreflexive and transitive) |
| DataTable.FilteredItems | src/components/DataTable.jsx:20-41 | the rows shown are a permutation of the matching rows |
| DataTable.FilteredItemsSpec | src/components/DataTable.jsx:20-41 | a row is shown exactly when it is in the data and matches; an empty term shows every row; date columns are ordered by date in the chosen direction; other columns under "asc" never put a smaller value first, and under "desc" never a larger one |
| DataTable.Slice | src/components/DataTable.jsx:45 | slicing clamps both bounds to the length |
| DataTable.Page | src/components/DataTable.jsx:43-46 | page p holds the items from (p-1)·n to p·n, clamped to the length |
| DataTable.TotalPages | src/components/DataTable.jsx:48 | the ceiling of the item count over the page size: zero for no items, otherwise the least t with t·n at least the count |
| DataTable.FirstPagesArePrefix | src/components/DataTable.jsx:43-48 | the first k pages joined are the first k·n items |
| DataTable.PagesCoverItems | src/components/DataTable.jsx:43-48 | all pages joined give back every item, and no page up to the total is empty |
| DataTable.DataTableView.HandleSearch | src/components/DataTable.jsx:50-53 | sets the term and goes back to page one |
| DataTable.DataTableView.HandlePageChange | src/components/DataTable.jsx:55-57 | sets the page as given |
| DataTable.DataTableView.HandleSort | src/components/DataTable.jsx:59-66 | clicking the sorted column flips the direction; another column becomes the sort column in ascending order |
| DataTable.DataTableView.Render | src/components/DataTable.jsx:43-156 | the rows are the current page of the filtered and sorted items, at most one page long; previous is disabled exactly on page one and next exactly on the last page; a page before the last has a non-empty successor |
| OrderTracking.ByStatus | src/pages/OrderTrackingPage.jsx:47-49 | no filter keeps every order; otherwise exactly the orders with that status |
| OrderTracking.OrderBeforeIsStrictOrder | src/pages/OrderTrackingPage.jsx:52-60 | the comparator is a strict partial order (irreflexive and transitive) in either direction |
| OrderTracking.SortedAndFiltered | src/pages/OrderTrackingPage.jsx:44-63 | a permutation of the status-filtered orders, left in their order when no sort key is set |
| OrderTracking.SortedAndFilteredSpec | src/pages/OrderTrackingPage.jsx:44-63 | with a sort key, an order is shown exactly when it passes the status filter, and the orders are ascending or descending by that key |
| OrderTracking.RequestSort | src/pages/OrderTrackingPage.jsx:65-71 | the key is set, and the direction is descending exactly when the same key was ascending |
| OrderTracking.RequestSortTwice | src/pages/OrderTrackingPage.jsx:65-71 | requesting the ascending key twice returns to ascending |
| OrderTracking.WithItems | src/pages/OrderTrackingPage.jsx:29-31 | the orders with the id get the fetched items; every other order is unchanged |
| OrderTracking.WithItemsIdempotent | src/pages/OrderTrackingPage.jsx:29-31 | merging the same details twice changes nothing more |
| OrderTracking.TrackingPage.RequestSortKey | src/pages/OrderTrackingPage.jsx:65-71 | the sort configuration becomes RequestSort of the old one |
| OrderTracking.TrackingPage.ToggleOrderDetails | src/pages/OrderTrackingPage.jsx:24-36 | collapsing the open order changes nothing else; opening another one merges fetched items or records the error message |
| OrderTracking.TrackingPage.Shown | src/pages/OrderTrackingPage.jsx:44-63 | the list shown is a permutation of the status-filtered orders |
| HomePage.PriceBeforeIsStrictOrder | src/pages/HomePage.jsx:44-48 | the price comparator, rising for "asc" and falling otherwise, is a strict partial order (irreflexive and transitive) |
| HomePage.FilteredIsOneFilter | src/pages/HomePage.jsx:30-42 | the three filter stages in a row keep exactly the items one combined test keeps, in the same order |
| HomePage.FilteredItemsSpec | src/pages/HomePage.jsx:30-51 | the listed items are a permutation of the available items in the category that match the term in name or description and lie in the price range; "asc" orders by rising price, any other order by falling price, and no order keeps the menu order |
| HomePage.Suggestions | src/pages/HomePage.jsx:98-109 | no term gives no suggestions; otherwise exactly the available items in the category whose name holds the term, ignoring case |
| HomePage.DescriptionMatchIsNotSuggested | src/pages/HomePage.jsx:36-39 | an item matched only by its description is listed but not suggested |
| HomePage.MenuPage.HandleSearch | src/pages/HomePage.jsx:53-56 | sets the term and shows suggestions exactly for a non-empty term |
| HomePage.MenuPage.HandlePriceChange | src/pages/HomePage.jsx:58-61 | sets both price bounds |
| HomePage.MenuPage.HandleSortChange | src/pages/HomePage.jsx:63-65 | sets the sort order |
| TextUtil.LowerChar | src/components/DataTable.jsx:25 | upper-case ASCII letters move to lower case; every other character is kept |
| TextUtil.Lower | src/components/DataTable.jsx:25 | same length, each character lowered, and no upper-case ASCII letter left |
| TextUtil.LowerAppend | src/pages/HomePage.jsx:37 | lowering distributes over concatenation |
| TextUtil.Contains | src/components/DataTable.jsx:25 | includes: true exactly when the text occurs at some position |
| TextUtil.StrLessIrreflexive | src/pages/OrderTrackingPage.jsx:53-58 | no string sorts before itself |
| TextUtil.StrLessTransitive | src/pages/OrderTrackingPage.jsx:53-58 | string order is transitive |
| TextUtil.ValueLessTransitive | src/components/DataTable.jsx:37-38 | the order on field values is transitive |
| TextUtil.ValueLessIrreflexive | src/components/DataTable.jsx:37-38 | no field value sorts before itself |
| TextUtil.NatToString | src/components/DataTable.jsx:25 | the decimal digits of a natural number: they denote the number, and only 0 is written with a leading zero |
| TextUtil.IntToString | src/components/DataTable.jsx:25 | a minus sign for a negative number, then digits that denote its magnitude |
| Collections.Filter | src/components/DataTable.jsx:21-26 | keeps exactly the elements passing the test, never more than given |
| Collections.FilterAppend | src/components/DataTable.jsx:21-26 | filtering distributes over concatenation |
| Collections.FilterKeepsAll | src/components/DataTable.jsx:22 | a test every element passes keeps the sequence unchanged |
| Collections.FilterFilter | src/pages/HomePage.jsx:30-42 | two filters in a row equal one filter by their conjunction |
| Collections.SortBy | src/pages/OrderTrackingPage.jsx:52-60 | sorting gives a permutation of its input |
| Collections.InsertPos | src/pages/OrderTrackingPage.jsx:52-60 | the insertion point is after every element the new one does not precede and before the first it does |
| Collections.Insert | src/pages/OrderTrackingPage.jsx:52-60 | inserting adds exactly the one element |
| Collections.InsertSorted | src/pages/OrderTrackingPage.jsx:52-60 | inserting into a sorted sequence keeps it sorted |
| Collections.SortBySorted | src/pages/OrderTrackingPage.jsx:52-60 | under a strict partial order the result is sorted |
| Collections.SortByStable | src/pages/OrderTrackingPage.jsx:52-60 | the sort is stable: under a strict partial order, the elements of any class that compares alike come out in their input order |
| Collections.InsertStable | src/pages/OrderTrackingPage.jsx:52-60 | inserting after every element of its class keeps that class's order and puts the new element last in it |
| Collections.FilterInsert | src/pages/OrderTrackingPage.jsx:52-60 | filtering an insertion is filtering the part before the insertion point, the new element, then the rest |
| Collections.NoneLevelAfter | src/pages/OrderTrackingPage.jsx:52-60 | in a sorted sequence nothing alike to the inserted element follows its insertion point |
| Collections.FilterDropsAll | src/components/DataTable.jsx:21-26 | a test no element passes keeps nothing |
| Breadcrumb.Split | src/components/Breadcrumb.jsx:8 | splitting on '/' gives at least one part and no part holds a slash |
| Breadcrumb.JoinSplit | src/components/Breadcrumb.jsx:8 | joining the parts with '/' gives back the path |
| Breadcrumb.SplitJoin | src/components/Breadcrumb.jsx:8 | splitting joined slash-free parts gives back the parts |
| Breadcrumb.SplitNoSlash | src/components/Breadcrumb.jsx:8 | a path without a slash is one part |
| Breadcrumb.SplitPrefix | src/components/Breadcrumb.jsx:8 | a leading slash-free part followed by '/' splits off as the first part |
| Breadcrumb.Segments | src/components/Breadcrumb.jsx:8 | every segment is non-empty and slash-free |
| Breadcrumb.SegmentsOfRoot | src/components/Breadcrumb.jsx:8 | the root path has no segments |
| Breadcrumb.SegmentsOfPath | src/components/Breadcrumb.jsx:8 | the path "/" plus non-empty slash-free segments joined by '/' has exactly those segments |
| Breadcrumb.LastRouteIsWholePath | src/components/Breadcrumb.jsx:61-62 | the route of the last segment is the whole normalised path |
| Breadcrumb.JoinSnoc | src/components/Breadcrumb.jsx:61 | joining one more part appends '/' and the part |
| Breadcrumb.RouteExtends | src/components/Breadcrumb.jsx:61 | each route is the previous route plus '/' and the next segment, so routes are strictly growing prefixes |
| Breadcrumb.Label | src/components/Breadcrumb.jsx:63 | a segment with a display name shows it; any other shows itself |
| Breadcrumb.SegmentCrumbsAt | src/components/Breadcrumb.jsx:60-88 | the crumb of segment i has its label and a link to its route, except the last, which has none |
| Breadcrumb.Trail | src/components/Breadcrumb.jsx:8-88 | nothing exactly on the hidden paths; otherwise the home crumb first, then one crumb per segment with its label, linked to its route except the last |
| Breadcrumb.OnlyLastUnlinked | src/components/Breadcrumb.jsx:47-88 | a crumb has no link exactly when it is the last and not the home crumb |
| Statistics.PeriodDays | backend/statistic/models.py:151-174 | 7, 30, 90 and 365 days for week, month, quarter and year, and nothing exactly for any other period |
| Statistics.ComparisonWindows | backend/statistic/models.py:148-176 | an invalid current period is reported first, then an invalid previous period; otherwise the current window ends now and spans its period, and the previous window ends where the current starts and spans its own period |
| Statistics.WindowsAreConsecutive | backend/statistic/models.py:148-176 | previous start, previous end equal to current start, and current end equal to now are strictly increasing |
| Statistics.BoundaryCountedTwice | backend/statistic/models.py:176-187 | as written, an order placed exactly at the current start lies in both closed windows |
| Statistics.PeriodsPartition | backend/statistic/models.py:176-187 | with the previous window half-open, no instant is in both periods, and an instant is in one of them exactly when it lies between the previous start and now |
| Statistics.RevenuesAddUp | backend/statistic/models.py:179-187 | with the previous window half-open, current and previous revenue add up to the revenue of the whole span |
| Statistics.ChangePercentage | backend/statistic/models.py:212-215 | with a positive previous revenue the change is positive exactly when revenue grew and zero exactly when it stayed; otherwise 100 for positive current revenue and 0 else |
| Statistics.ChangePercentageRoundTrip | backend/statistic/models.py:212-213 | applying the percentage to the previous revenue gives back the current revenue |
| Statistics.DeadProductsStart | backend/statistic/models.py:240-247 | an unknown period falls back to thirty days before now |
| Statistics.DeadProductsStartAgrees | backend/statistic/models.py:240-247 | for a known period the start equals the current window's start of the comparison report; an unknown one behaves as "month" |
| Statistics.LastSevenDays | backend/statistic/models.py:105-112 | seven consecutive days ending today, and a day is among them exactly when it lies in the last six days or today |
| Statistics.DaysFrom | backend/statistic/models.py:107-108 | count consecutive days from the start |

## Left out

- WebSocket objects, ping intervals, toasts and the table list reload are not modelled. Each feed is driven by abstract events, and the pending reconnect timers are a map from handle to delay.
- The HTTP calls of the pages are not modelled. Each reply is a parameter: accepted, refused with a text, or failed with a message.
- The ORM is left out. Rows are maps or sequences, and revenue aggregation is a sum over `Sale` records.
- Serializer validation is a boolean parameter of `Accounts.StaffDirectory.CreateStaff`.
- `unidecode` is an uninterpreted `translit` function.
- Date parsing and time zones are left out. Instants are integer seconds and days are integer day numbers. In the admin table, `new Date(v)` is a `dateOf` parameter, so invalid dates (NaN) are not modelled.
- The order feed's 1.5 growth factor is computed in `real`, not in floating point.
- `change_percentage` is exact `real` division, not Python floating point.
- `large_size_price` is taken as given on each product.
- The slider's percentage positions are not modelled, and neither is the VND to USD conversion.
- Lower-casing, whitespace and `trim` cover ASCII and the JavaScript whitespace characters only. Unicode case mapping is not modelled.
- JavaScript `<` between values of different types is modelled as never less. On a column that mixes numbers and text the admin table's comparator is then not a strict weak order (`Int(1)`, `Text("a")`, `Int(2)`), so the JavaScript sort order is implementation-defined there; the model's stable insertion sort is one of the possible outcomes.
- ParseInt: a `0x` prefix, which makes `parseInt` read hexadecimal, and digit runs too long for a double are not modelled.
- `localStorage` serialisation is not modelled. The stored history and points are fields of `PointHistory.CustomerStorage`.
- The asynchronous ordering of React state updates is not modelled. So is a detail reply that arrives after the order list changed. Each handler runs to completion on the state it reads.
- Aliasing between the orders list the tracking page copies and the context's list is not modelled.
- The table feed changes `table.customer` in place: it pushes onto, or reassigns, the array of a table object that the previous tables list shares (src/hooks/useTableUpdates.js:72-78). `TableUpdates.ApplyMessage` builds new table values instead. The resulting tables are the same, but the sharing with the previous state is not modelled.
- Item fields are typed integers, so an item without a `price` (a `TypeError` in the comparison) or without a `quantity` (a `KeyError`) cannot be written. `create_order` turns either into a 400 reply through its `except Exception` (backend/orders/views.py:67-81, 198-202); that path is not modelled.
- In the breadcrumb, JavaScript object lookups of inherited names such as `constructor` are not modelled. `Breadcrumb.Label` treats every segment without its own entry as unmapped.
- React keys, rendering, charts, PDF export and navigation are not modelled.
- In the permission decorator, an exception raised by the permission lookup (the 500 response) is not modelled.
- `product_trend_analysis` is not modelled. It uses the same period map as `identify_dead_products`.
- `DataTable.TotalPages`: requires a positive page size. The component's default is 5, and a size of 0 would give `Infinity` pages in JavaScript.
- `DataTable.DataTableView.Render`: requires a positive page size, for the same reason.
- Code that would throw as written is not modelled:
  - `setMenuItems` at src/pages/HomePage.jsx:70;
  - `onLogout` at src/pages/HomePage.jsx:112.
- `get_staff_detail` ignores its `staff_id` (backend/accounts/views.py:60-64) and is not modelled.
- `reset_password` and `update_staff` are not modelled beyond the shared `generate_password` and `is_active` parsing.

## Findings

| source | as written | input that shows it | evidently intended | confidence | as-written member | corrected member |
|---|---|---|---|---|---|---|
| backend/statistic/models.py:176-187 | the previous period ends at `current_start` and both revenue filters use `gte`/`lte`, so both windows are closed at the shared boundary | any `now`; an order placed exactly at `current_start` is counted in the current and the previous revenue | consecutive periods that do not overlap: the previous window is open at `current_start`, so the two revenues add up to the revenue of the whole span | not executed; medium | Statistics.BoundaryCountedTwice | Statistics.RevenuesAddUp |
