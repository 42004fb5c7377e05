# Point-of-sale backend: verified model

This project models the transactional core of the backend in Dafny and proves what the
code is built to guarantee: that money and stock are conserved, that secrets are used
once, and that the last of something is never lost. `dafny verify dfyconfig.toml` checks
all of it.

The tables are maps and sequences, one transaction is one step, and a failed transaction
leaves the tables unchanged. Services that update rows in place are classes whose methods
run the same statements in the same order, keep partial writes until the rollback, and
are proved to make the step their module specifies. Where the code relies on row locks
between a read and a write, the phases are separate steps of many interleaved actors.

| module | what it models |
|---|---|
| `Decimal`, `DecimalText`, `CatalogText` | coefficient/exponent numbers, truncating rounding, the two multiplications, the printers and the parsers |
| `Identifiers`, `TokenCodec` | UUID text (section 4 of RFC 9562), the integer printer, payment keys, opaque token text (section 5 of RFC 4648) |
| `Ledger`, `Sales`, `StockDemand`, `Payments`, `Pos`, `SaleEffects` | stock ledger, sale editing, demand, payments, and the store as one state machine; what each of its commands needs and does |
| `PosStore`, `Receipt` | the sales, inventory and checkout services over mutable tables; the printed receipt |
| `RowLocks` | lock order of concurrent transactions |
| `RefreshSessions`, `SessionEffects`, `AuthTokens`, `AuthEffects` | refresh-token rotation (section 4.14.2 of RFC 9700), action tokens, passwords, two-phase login; what each command needs and does |
| `Owners`, `Memberships`, `MemberRights`, `MemberEffects`, `MemberServices` | the last active owner under interleaving; members, role bindings and invitations one transaction at a time; who may grant what; what each command needs and does; the services over mutable tables |
| `PaymentMethods`, `StoreMethodEffects` | the last operational payment method, active method and active store; what each command needs and does |
| `Results`, `Sets`, `Credentials` | shared types and small facts |

What the proofs found where the code does less than one might expect:

- Deactivating a payment method pages through the active stores by name, and renaming a store does not wait for it. With more than one page a store can be passed over and lose its last operational method (`PaymentMethods.RenameEmptiesAStore`); deactivations are safe exactly when the active stores fit on one page (`PaymentMethods.DeactivationSafeIff`).
- An invitation does not renew a binding that has lapsed: an active member invited again to a role they once held for a limited time accepts and still lacks it (`Memberships.LapsedRoleIsNotRenewed`). Apart from this and from roles switched off meanwhile, the invited roles are in effect (`Memberships.GrantedInEffectIff`).
- The `sale_items` row check rounds after subtracting the discount, the service before. They disagree exactly for a full discount on a line that ends in half a cent, which the database then refuses (`Decimal.RowCheckAcceptsIff`, `Sales.PricedItemAcceptedIff`).
- A payment's installments are converted to sixteen bits before they are checked: a request for -65535 passes as one (`SaleEffects.NegativeCountPasses`). The count asked for is recorded exactly when it is not negative (`SaleEffects.CountKeptIff`).
- Switching a method off in a store is refused whenever the store has one operational method left, also for a binding left over from a method that the organization has switched off; the refusal is needed exactly for the others (`StoreMethodEffects.RefusalIsNeededIff`).
- Refresh tokens, unlike action and invitation tokens, have several texts (`TokenCodec.RefreshRoundTripIsNotOneToOne`); exactly one of them is canonical (`TokenCodec.RefreshIsCanonicalIff`).

Limits of single functions that the program around them never reaches:

- Negative numbers are cut toward zero, so rounding is half up exactly for non-negative ones and those that lose at most a half (`Decimal.RoundsHalfUpIff`); the columns rounded here are never negative.
- With a third price decimal the two multiplications can give different results (`Decimal.MultiplicationsAgreeIff`); a `NUMERIC(15,2)` price has none.
- The integer printer prints a lone minus sign for the least 64-bit integer (`Identifiers.IntTextIsDecimalIff`); it is called with loop indices only.
- The catalog's printer and the others differ exactly for a zero coefficient with a positive exponent, which it refuses to print as zero (`CatalogText.PrintersAgreeIff`); the driver returns zero with exponent zero.

## Model

| member | source | states |
|---|---|---|
| Decimal.RescaleByValue | backend/internal/sales/mapper.go:208-242 | Rescaling and rounding depend only on the decimal's value, not on its coefficient and exponent. |
| Decimal.RescaleMonotone | backend/internal/sales/mapper.go:338-363 | Rounding is monotone in the decimal's value across all representations. |
| Decimal.ReadsExactly | backend/internal/checkout/validation.go:205-239 | A column read at its own scale gives its exact value whatever representation the driver returns. |
| Decimal.WithinHalfUnitIff | backend/internal/checkout/validation.go:306-330 | The rounded number is within half a unit of the exact one exactly when it is non-negative or loses at most half a unit to truncation. |
| Decimal.RoundDivHalfUp | backend/internal/receipt/mapper.go:258-283 | Non-negative amounts are rounded half up: the result is floor((2c + d) / 2d) and lies within half a unit. |
| Decimal.RescaleHalfUpIff | backend/internal/sales/mapper.go:208-242 | Rescaling a decimal is half up exactly when it is non-negative or what is cut off is at most half a unit. |
| Decimal.RoundsHalfUpIff | backend/internal/sales/mapper.go:223-240 | The same for the rounded division of any integer by any positive one. |
| Decimal.RoundingIsOddIff | backend/internal/sales/mapper.go:223-240 | Negating before or after rounding is the same exactly for remainders below a half: ties are not symmetric. |
| Decimal.MultiplicationsAgree | backend/internal/checkout/validation.go:291-304 | For prices of two and quantities of three decimals, in any representation, multiply-then-round (sales, receipt) and rescale-then-multiply (checkout) give the same cents. |
| Decimal.MultiplicationsAgreeIff | backend/internal/sales/mapper.go:283-293 | With a third price decimal the two multiplications can give different results: they agree for every quantity exactly when that decimal is zero, as in a NUMERIC(15,2) column. |
| Decimal.RowCheckAcceptsIff | backend/migrations/20260717090900_create_sales.up.sql:243-248 | The table's check on an item total agrees with the service's computation except for a full discount on a line that ends in half a cent. |
| DecimalText.ScanAllDigits | backend/internal/sales/validation.go:254-266 | The digit loop accepts exactly the non-empty digit strings. |
| DecimalText.ScanPositiveDigit | backend/internal/sales/validation.go:268-276 | The loop finds a digit from 1 to 9 exactly when there is one. |
| DecimalText.NormalizeQuantityString | backend/internal/sales/validation.go:130-172 | The normaliser with its padding loop computes the specified normal form or error. |
| DecimalText.ParseQuantityText | backend/internal/sales/validation.go:112-128 | The quantity parser with its loops computes the specified number or error. |
| DecimalText.MoneyAcceptedIff | backend/internal/sales/validation.go:174-226 | Money text is accepted exactly when, trimmed, it is digits with at most two fraction digits; it is read as that many cents. |
| DecimalText.QuantityAcceptedIff | backend/internal/sales/validation.go:112-172 | A plain decimal is accepted as a quantity exactly when its fraction digits beyond the third are zeros and it is positive; it is read as that many thousandths. |
| DecimalText.QuantityNeedsPlainDecimal | backend/internal/sales/validation.go:130-172 | Nothing but a plain decimal is accepted as a quantity. |
| DecimalText.PrinterShape | backend/internal/sales/mapper.go:244-262 | The printer shows sign, whole part without extra zeros, and exactly the scale's number of fraction digits. |
| DecimalText.MoneyPrintsAsWritten | backend/internal/sales/mapper.go:166-172 | Printing an accepted amount gives the same decimal with two fraction digits and no extra leading zeros. |
| DecimalText.QuantityPrintsAsWritten | backend/internal/sales/mapper.go:174-180 | Printing an accepted quantity gives the same decimal with three fraction digits and no extra leading zeros. |
| DecimalText.MoneyRoundTrip | backend/internal/sales/validation.go:174-186 | Parsing a printed non-negative amount returns the same cents. |
| DecimalText.QuantityRoundTrip | backend/internal/sales/validation.go:112-128 | Parsing a printed positive quantity returns the same thousandths. |
| CatalogText.PrintFixedScale | backend/internal/catalog/mapper.go:129-160 | The padding loop computes the specified text or refusal. |
| CatalogText.CatalogAcceptsIff | backend/internal/catalog/mapper.go:129-160 | The exact printer accepts exactly the numbers whose decimals beyond the scale are zeros. |
| CatalogText.CatalogShape | backend/internal/catalog/mapper.go:162-186 | Its text is the sign, the whole digits, and the fraction filled up to the scale. |
| CatalogText.PrintersAgreeIff | backend/internal/catalog/mapper.go:121-186 | For an accepted number its text equals that of the rescaling printer exactly when the coefficient is not zero or the exponent not positive. |
| Identifiers.ScanOfText | backend/internal/sales/validation.go:98-110 | The canonical and the undashed text of a UUID both scan to it. |
| Identifiers.UuidTextInjective | backend/internal/checkout/service_commands.go:347-349 | Distinct products have distinct map keys. |
| Identifiers.TextOrderIsNumericOrder | backend/internal/checkout/service_commands.go:363-367 | Sorting the key strings sorts the product ids. |
| Identifiers.IntToString | backend/internal/checkout/validation.go:166-191 | The buffer loop and the reversal in place print the specified digits for every 64-bit integer. |
| Identifiers.IntTextIsDecimalIff | backend/internal/checkout/validation.go:166-191 | The printed text is the decimal one exactly for integers other than the least. |
| Identifiers.PaymentKeyInjective | backend/internal/checkout/service_commands.go:462-464 | Idempotency keys of distinct sales or positions are distinct. |
| TokenCodec.SecretRoundTrip | backend/internal/auth/action_token.go:80-95 | Decoding the base64url text of any bytes returns them. |
| TokenCodec.ActionRoundTrip | backend/internal/auth/action_token.go:73-95 | Parsing a generated action token returns its selector and secret. |
| TokenCodec.ActionIsCanonical | backend/internal/auth/action_token.go:97-139 | Every accepted action token is exactly the printing of what it parses to. |
| TokenCodec.ActionOneToOne | backend/internal/auth/action_token.go:97-139 | Two accepted texts with the same selector and secret are the same text. |
| TokenCodec.PurposesAreDisjoint | backend/internal/auth/action_token.go:157-166 | A text accepted for one purpose is refused for the other, as an invitation and as a refresh token. |
| TokenCodec.InvitationRoundTrip | backend/internal/invitations/token.go:75-107 | Parsing a formatted invitation token returns its selector and secret. |
| TokenCodec.InvitationIsCanonical | backend/internal/invitations/token.go:86-107 | Every accepted invitation token is exactly the printing of what it parses to, and is no action token. |
| TokenCodec.RefreshRoundTripIsNotOneToOne | backend/internal/sessions/refresh_token.go:78-130 | Refresh tokens round-trip, but two different texts always stand for one token. |
| TokenCodec.RefreshAcceptedIff | backend/internal/sessions/refresh_token.go:78-130 | A text of the refresh form is accepted exactly with at most 512 characters, a selector the driver reads and the unpadded encoding of 32 bytes, and stands for these. |
| TokenCodec.RefreshNeedsForm | backend/internal/sessions/refresh_token.go:83-98 | Nothing without the prefix and a point is accepted. |
| TokenCodec.RefreshIsCanonicalIff | backend/internal/sessions/refresh_token.go:78-130 | An accepted refresh token is what the generator prints for its parts exactly when its selector has dashes at their places and no upper-case digit, and its secret no line break and zero spare bits. |
| TokenCodec.EncodeOfDecodeIff | backend/internal/sessions/refresh_token.go:116-124 | Encoding decoded bytes again gives the text back exactly when the bits of its last character that no byte uses are zero. |
| Ledger.PostKeepsBalance | backend/internal/inventory/service_commands.go:148-192 | Every posting keeps stock equal to the signed sum of the movements, never negative and within its column, and movement references unique. |
| Ledger.MovementsChain | backend/internal/inventory/service_commands.go:103-120 | Consecutive movements of a product chain: the next starts where the last ended. |
| Ledger.ChainEnds | backend/queries/inventory.sql:60-103 | A product's first movement starts at zero and its last ends at the stock row. |
| Sales.PricedItemAcceptedIff | backend/internal/sales/service_commands.go:87-118 | An item is refused exactly for a discount above the line, a full discount of a half-cent line, or a total beyond its column. |
| Sales.RecalculatedAcceptedIff | backend/internal/sales/service_commands.go:125-143 | Recomputed totals of good lines fail exactly when the subtotal leaves its column. |
| Sales.AddItemKeepsSaleOk | backend/internal/sales/service_commands.go:52-156 | Adding keeps every line and the totals right, keeps all old lines and adds exactly the priced one, wherever it sorts. |
| Sales.UpdateItemKeepsSaleOk | backend/internal/sales/service_commands.go:158-259 | Updating keeps the sale right, gives that item the quantity and discount asked for and the line of the price it was added with, and leaves every other item alone. |
| Sales.RemoveItemKeepsSaleOk | backend/internal/sales/service_commands.go:261-336 | Removing keeps the sale right, removes that item and no other. |
| Sales.SaleOkPassesCheckout | backend/internal/checkout/service_commands.go:267-336 | Whatever the sales commands leave passes the checkout's own validation, with a non-negative total. |
| SaleEffects.AddItemIff | backend/internal/sales/service_commands.go:87-143 | An item is added exactly if its half-up line holds the discount, is not a half-cent line discounted in full, and line and subtotal stay within their columns. |
| SaleEffects.AddItemEffect | backend/internal/sales/service_commands.go:87-143 | The new line stands where it sorts between the old ones in their order, and the totals move by it. |
| SaleEffects.UpdateItemIff | backend/internal/sales/service_commands.go:186-245 | An item the sale has is updated exactly under the same conditions on its old price and the new quantity and discount. |
| SaleEffects.UpdateItemEffect | backend/internal/sales/service_commands.go:209-215 | The named item is exactly its old product and price with the quantity and discount asked for and their line; no other item changes; the totals move by the difference. |
| SaleEffects.RemoveItemEffect | backend/internal/sales/service_commands.go:261-336 | Any item the sale has can be removed; the others stay in their order and the totals fall by its amounts. |
| StockDemand.ApplyAllIff | backend/internal/checkout/service_commands.go:369-403 | Applying the demand succeeds exactly when stock covers it for every product; then stock falls by the demand product by product and nothing else changes. |
| StockDemand.FirstUncoveredDecides | backend/internal/checkout/service_commands.go:371-385 | The first product in key order that is missing or short decides which error is returned. |
| StockDemand.ApplyAllPosts | backend/internal/checkout/service_commands.go:387-402 | The loop posts exactly one movement per product for its demand, for this sale only, and keeps the books. |
| StockDemand.OnlyDemandMatters | backend/internal/checkout/service_commands.go:346-361 | Splitting or merging lines does not change the outcome: only the summed demand does. |
| StockDemand.OrderOfLinesDoesNotMatter | backend/internal/checkout/service_commands.go:345-367 | The order of the lines does not change the outcome. |
| StockDemand.SortedKeysSpec | backend/internal/checkout/service_commands.go:363-367 | The keys are exactly the products of the lines, strictly ascending. |
| Payments.CheckPaymentSettles | backend/internal/checkout/service_commands.go:218-265 | An accepted payment is positive, records what was received or its own amount, its change is received minus amount and present exactly for methods that allow change, and its installments are those asked for, in 1 to the method's maximum. |
| SaleEffects.PaymentAcceptedIff | backend/internal/checkout/service_commands.go:150-200 | A payment is accepted exactly if its method is active, its amount positive, enough received (exactly enough without change), its count allowed and a required reference there; recorded are what was received, the change due, the count and the reference asked for. |
| SaleEffects.RequestsTakenUpIff | backend/internal/checkout/validation.go:22-79 | Payment requests are taken up exactly if no count exceeds 32767 and no reference is blank. |
| SaleEffects.PaymentRefusals | backend/internal/checkout/service_commands.go:150-187 | Which of these fails first, in the code's order, is the error. |
| SaleEffects.CountKeptIff | backend/internal/checkout/validation.go:55-61 | An accepted payment has the installments asked for exactly when the request was not negative. |
| SaleEffects.NegativeCountPasses | backend/internal/checkout/validation.go:55-61 | A request for -65535 installments passes as one. |
| Payments.CheckAllFailsIff | backend/internal/checkout/service_commands.go:150-200 | The first payment that fails its check decides the error. |
| Payments.CreateFromIff | backend/internal/checkout/service_commands.go:420-453 | The payment rows are written exactly when every method is active in the store, every column fits and no provider reference of a method repeats, in this store or in another of the organization. |
| Payments.CreateFromAppends | backend/internal/checkout/service_commands.go:425-450 | The payment table grows by exactly one row per payment, in order, keyed by sale and position. |
| Payments.RowKeysDistinct | backend/internal/checkout/service_commands.go:462-464 | The keys of one sale's payments differ. |
| Pos.ReachableStatesAreGood | backend/internal/checkout/service_commands.go:34-101 | After every sequence of commands the books balance, every sale's totals are right, every completed sale is settled exactly (payments, movements, document) and no other sale has any of them. |
| Pos.EveryRunKeepsInv | backend/internal/inventory/service_commands.go:29-192 | Every run from a good state, with commits and failures, stays good. |
| Pos.SettleKeepsInv | backend/internal/checkout/service_commands.go:76-99 | Settling leaves the sale completed with its payments, movements and document recorded exactly, and every other sale's records alone. |
| Pos.ClosedSaleFrozen | backend/internal/sales/service_commands.go:346-358 | A completed or cancelled sale keeps its row, items, payments, movements and document through every later run. |
| Pos.NoSecondCheckout | backend/internal/checkout/service_commands.go:43-51 | A checked-out sale is never checked out or cancelled again, however the run goes on. |
| Pos.CheckoutSucceedsIff | backend/internal/checkout/service_commands.go:34-101 | In a reachable state a checkout goes through exactly when the sale is open and not empty, each payment is acceptable, they sum to the total, stock covers the demand and the rows can be written, provider references of the organization's other stores included. |
| Pos.ReferencesNeverRepeat | backend/migrations/20260717091000_create_payments.up.sql:188-190 | Whatever this store and the organization's others record, no provider reference of a method is ever used twice. |
| Pos.CheckoutEffect | backend/internal/checkout/service_commands.go:72-99 | A checkout lowers stock by the demand, completes this sale, appends its payments and document, and changes nothing else. |
| Pos.DeadErrors | backend/internal/checkout/service_commands.go:61-63 | In a reachable state the totals check and the duplicate-movement error never refuse a checkout, and the status errors mean what they say. |
| Pos.CreateIsIdempotent | backend/internal/sales/service_commands.go:19-25 | A repeated key changes nothing, and exactly one sale has each key. |
| SaleEffects.CreateSaleEffect | backend/internal/sales/service_commands.go:11-50 | A new sale is open, empty and without amounts, under its trimmed key. |
| SaleEffects.AddToSaleIff | backend/internal/sales/service_commands.go:66-143 | An item is added exactly to an open sale, for an active product, if it fits at the price the product has now. |
| SaleEffects.AddToSaleEffect | backend/internal/sales/service_commands.go:87-118 | The sale then has the line at that price besides its old ones, and no other sale changes. |
| SaleEffects.CancelEffect | backend/internal/sales/service_commands.go:338-391 | Exactly an open sale is cancelled, keeps everything else, and the others are told apart by their errors. |
| SaleEffects.CancelledForGood | backend/internal/sales/service_commands.go:346-358 | In no later state does a cancelled sale take an item, an edit, a cancellation or a checkout. |
| SaleEffects.PostEffect | backend/internal/inventory/service_commands.go:148-192 | Purchases and inward adjustments add, sales and outward ones take away exactly the quantity, with one movement that tells both levels, exactly if stock covers it, columns hold it and the reference is new. |
| SaleEffects.StockCommandEffect | backend/internal/inventory/service_commands.go:21-146 | An entry adds to the product's stock, an adjustment adds or takes away as it says, under those conditions for an existing product and a reference that is not blank. |
| SaleEffects.InThenOutRestores | backend/internal/inventory/service_commands.go:86-146 | Taking out what was put in restores the stock. |
| SaleEffects.CheckoutRecordsRequests | backend/internal/checkout/service_commands.go:420-453 | A checkout appends, for each request in order, the payment with that method, amount, received amount, change, count and reference. |
| SaleEffects.CheckoutTakesDemand | backend/internal/checkout/service_commands.go:338-406 | A checkout lowers each product's stock by exactly what the sale's lines of it add up to. |
| PosStore.SumSaleTotals | backend/internal/sales/mapper.go:308-336 | The accumulating loop returns the exact sums of lines, discounts and totals, whatever representations the driver returns. |
| PosStore.ValidateSaleTotals | backend/internal/checkout/service_commands.go:267-336 | The loop with the checkout's arithmetic accepts exactly the sales whose lines and totals are consistent. |
| PosStore.PriceItem | backend/internal/sales/service_commands.go:87-118 | The decimal computation of an item is the one specified on cents. |
| PosStore.Recalculate | backend/internal/sales/service_commands.go:125-143 | The recomputed row is the one specified on cents. |
| PosStore.ValidateReceivedAmount | backend/internal/checkout/service_commands.go:218-250 | Received and change amounts, or the refusal, are those specified. |
| PosStore.ValidateAll | backend/internal/checkout/service_commands.go:140-207 | The loop returns the validated payments in order, or the first error, or the mismatch with the total. |
| PosStore.Aggregate | backend/internal/checkout/service_commands.go:346-361 | The map holds, for exactly the products of the lines, the sum of their quantities. |
| PosStore.KeysInOrder | backend/internal/checkout/service_commands.go:363-367 | Collected in any order and sorted, the keys are exactly those of the map, strictly ascending. |
| PosStore.Store.AddItem | backend/internal/sales/service_commands.go:52-156 | Makes the specified step and returns its error, computing with decimals. |
| PosStore.Store.UpdateItem | backend/internal/sales/service_commands.go:158-259 | Makes the specified step and returns its error. |
| PosStore.Store.RemoveItem | backend/internal/sales/service_commands.go:261-336 | Makes the specified step and returns its error. |
| PosStore.Store.CreateEntry | backend/internal/inventory/service_commands.go:21-84 | Makes the specified step and returns its error. |
| PosStore.Store.CreateAdjustment | backend/internal/inventory/service_commands.go:86-146 | Makes the specified step and returns its error. |
| PosStore.Store.ApplyInventoryChanges | backend/internal/checkout/service_commands.go:338-406 | Aggregation, sort and the update loop leave the specified stock and ledger, or return the first failing key's error. |
| PosStore.Store.CreatePayments | backend/internal/checkout/service_commands.go:420-453 | The loop leaves the specified payment table or returns the error. |
| PosStore.Store.Checkout | backend/internal/checkout/service_commands.go:18-113 | Commits exactly the specified step, or rolls every table back and returns the specified error. |
| Receipt.ItemLines | backend/internal/receipt/mapper.go:24-65 | The loop prints each row's exact columns and its recomputed line, whatever representations the driver returns. |
| Receipt.PrintedLinesAddUp | backend/internal/receipt/mapper.go:13-91 | Read back by the money parser, each printed line's subtotal less discount is its total, and each printed column adds up to the printed total of the sale. |
| Receipt.PrintedLineChecks | backend/internal/receipt/mapper.go:24-65 | Each printed line shows the item's own price, quantity, discount and total, and its printed price times its printed quantity, half up, is its printed subtotal. |
| Receipt.PrintedPaymentsAddUp | backend/internal/receipt/mapper.go:67-81 | In every reachable state the printed payments of a completed sale add up to its printed total. |
| RowLocks.ProgramsAreOrdered | backend/internal/checkout/service_commands.go:35-40 | A checkout locks its sale and then stock in strictly increasing key, so all transactions follow one order of rows. |
| RowLocks.CheckoutLocksWhatItSells | backend/internal/checkout/service_commands.go:369-376 | It locks its sale row and the stock rows of exactly the products it sells. |
| RowLocks.NoWaitCycle | backend/internal/checkout/service_commands.go:363-376 | Among any number of ordered transactions the wait-for relation has no cycle. |
| RowLocks.SomeoneProceeds | backend/internal/checkout/service_commands.go:363-376 | From any unfinished transaction the chain of waits ends at one that can lock or commit. |
| RowLocks.LockingIsSafe | backend/internal/checkout/service_commands.go:34-99 | In every interleaving no row is held twice and runs are bounded; if all transactions are ordered, a run with nothing left to do but rollbacks has finished everything. |
| RowLocks.UnorderedCanDeadlock | backend/internal/checkout/service_commands.go:363-367 | Without the sort a run of two locks leads from a fresh state to a cycle of waits, out of which only a rollback leads. |
| RefreshSessions.ChainAndUsable | backend/internal/sessions/service_create.go:92-136 | In every reachable state a session's tokens form one parent chain, all but the newest consumed; a live session has exactly one usable token, an ended one only revoked tokens; no token has two children; idle never exceeds absolute expiry. |
| RefreshSessions.EveryRunKeepsInv | backend/internal/sessions/service_rotate.go:25-146 | The chain invariant survives every sequence of creations, rotations, revocations, touches and context switches. |
| RefreshSessions.RotationSucceedsIff | backend/internal/sessions/service_rotate.go:25-146 | Rotation succeeds exactly on a usable token with its secret, of an active user's session that is not idle by either clock, with a fresh child. |
| RefreshSessions.ReuseIsCaught | backend/internal/sessions/service_rotate.go:159-186 | A consumed, unrevoked, unexpired token with its secret commits the session to COMPROMISED and revokes all its tokens although the call fails. |
| RefreshSessions.EndedForGood | backend/internal/sessions/service_rotate.go:38-40 | An ended session keeps its status, gets no token, and none of its tokens rotates or counts as reuse again, in any run. |
| RefreshSessions.RotatesAtMostOnce | backend/internal/sessions/service_rotate.go:108-118 | A token rotates at most once, whatever runs in between. |
| RefreshSessions.RunKeepsRows | backend/queries/sessions.sql:349-394 | Through every run a session keeps its user and absolute expiry, a terminal status stays, consumed and revoked tokens stay so, and new tokens go to live sessions only. |
| SessionEffects.CreationIff | backend/internal/sessions/service_create.go:84-139 | A session is created exactly for a known user in a context of their own, with fresh session and token and deadlines ahead of the database's clock. |
| SessionEffects.CreationEffect | backend/internal/sessions/service_create.go:84-139 | It is live with the deadlines asked for, the idle one capped, and holds one usable token with the secret handed out. |
| SessionEffects.RotationEffect | backend/internal/sessions/service_rotate.go:89-146 | The child is stored with its own secret, its session, parent and the fixed deadline; the parent is spent in its favour, the idle deadline moves, and no other row changes. |
| SessionEffects.RotatedTokenRotates | backend/internal/sessions/service_rotate.go:89-99 | The token a rotation hands out rotates in turn exactly while the user is active and the new idle deadline has not passed, with a fresh child. |
| SessionEffects.FirstTokenRotates | backend/internal/sessions/service_create.go:92-136 | So does the first token of a new session. |
| SessionEffects.HandedOutRotatesIff | backend/internal/sessions/service_rotate.go:25-146 | In every later state of any run a token that was handed out rotates with its secret exactly while it is unused, unrevoked, of an active user and not idle. |
| SessionEffects.RefusalsMean | backend/internal/sessions/service_rotate.go:38-80 | In a good state the refusals for a session's status never occur, and each other one occurs exactly when it says so. |
| SessionEffects.RevocationEffect | backend/internal/sessions/service_revoke.go:29-103 | Exactly the owner ends a session; its tokens are revoked and no others. |
| SessionEffects.BulkRevocationEffect | backend/internal/sessions/service_revoke.go:143-155 | The bulk revocations end exactly the user's sessions, those with the membership selected, or the organization's live ones, with their tokens. |
| SessionEffects.EndedTokensAreRefused | backend/internal/sessions/service_rotate.go:38-48 | In no later state is a token of an ended session accepted. |
| SessionEffects.OthersRotateAsBefore | backend/internal/sessions/service_revoke.go:143-155 | Ending sessions leaves the tokens of all others as good as before. |
| SessionEffects.TouchEffect | backend/queries/sessions.sql:202-220 | A touch moves the idle deadline of a session in use, never past the fixed one. |
| SessionEffects.SwitchEffect | backend/queries/sessions.sql:177-200 | A switch selects a membership of the session's own user in a session in use. |
| RefreshSessions.Sessions.CreateSession | backend/internal/sessions/service_create.go:84-139 | Makes the specified step with the clamped expiry and the first token, or changes nothing. |
| RefreshSessions.Sessions.RotateRefreshToken | backend/internal/sessions/service_rotate.go:14-157 | Commits a rotation or a detected reuse, rolls back everything else, and returns the specified error. |
| RefreshSessions.Sessions.RevokeSession | backend/internal/sessions/service_revoke.go:29-103 | Ends the owner's session if live and revokes its tokens in any case. |
| RefreshSessions.Sessions.RevokeAllUserSessions | backend/internal/sessions/service_revoke.go:143-155 | The two bulk updates end the user's live sessions and revoke all the user's tokens. |
| RefreshSessions.Sessions.RevokeMembershipSessions | backend/internal/memberships/sessions.go:27-49 | The loop ends exactly the membership's live sessions and revokes exactly their tokens, in any order of ids. |
| RefreshSessions.Sessions.RevokeOrganizationSessions | backend/internal/organizations/service.go:216-227 | The bulk update and the loop end the organization's live sessions and revoke their tokens. |
| AuthTokens.ReachableStates | backend/internal/auth/service_login.go:43-82 | Over every interleaving of the two login phases with resets and changes, a live session from a login rests on the current password version, every such session goes back to a step in which its active user gave the right password against the hash and version it names, and a user has at most one open token per purpose. |
| AuthTokens.LoginReadIff | backend/internal/auth/service_login.go:33-58 | The first phase goes through exactly with the right password of an active, where asked for verified, user, and records exactly that user's hash and version. |
| AuthTokens.LoginCommitIff | backend/internal/auth/service_login.go:61-82 | The second opens a live session for the attempt exactly if the user may still log in with the password and version that were read. |
| AuthEffects.LoginWorks | backend/internal/auth/service_login.go:33-104 | The right password of a user who may log in opens a session if nothing comes between. |
| AuthEffects.StatusIsReported | backend/internal/auth/service_login.go:50-58 | With the right password, suspension, disablement and an unverified address are each reported as what they are. |
| AuthTokens.LoginOvertakenByChange | backend/internal/auth/service_login.go:61-67 | A password change between the two phases of a login makes the second one fail. |
| AuthTokens.ResetEffect | backend/internal/auth/service_password.go:101-170 | A reset needs an unexpired open token with its secret, raises the version by one, ends every session of the user and leaves no open reset token. |
| AuthTokens.ChangeEffect | backend/internal/auth/service_password.go:184-232 | A change needs the current password, raises the version by one, ends every session and leaves no open reset token. |
| AuthTokens.ResetsAtMostOnce | backend/internal/auth/service_password.go:119-150 | A reset token changes the password at most once, whatever runs in between. |
| AuthTokens.RunKeepsRows | backend/queries/auth.sql:52-76 | Through every run consumed tokens stay consumed, versions never fall, and the version decides the password. |
| AuthTokens.AcceptedAgainIff | backend/internal/auth/service_email.go:101-111 | A consumed verification token is accepted again exactly when that same token verified the address, and then nothing changes. |
| AuthTokens.VerifierAcceptedForever | backend/internal/auth/service_email.go:101-111 | The token that verified the address is accepted without effect in every later state. |
| AuthTokens.SupersededRefusedForever | backend/internal/auth/action_token_persistence.go:20-46 | A verification token that another one replaced is refused in every later state. |
| AuthTokens.SupersededResetRefusedForever | backend/internal/auth/service_password.go:19-79 | So is a reset token that a new request replaced. |
| AuthEffects.ForgotEffect | backend/internal/auth/service_password.go:19-79 | A reset token for 1800 seconds is handed out exactly to a known, active user with a password; it closes the user's earlier ones and changes nothing else. |
| AuthEffects.ResendEffect | backend/internal/auth/service_email.go:17-71 | A verification token for 86400 seconds is handed out exactly to a known, active, unverified user, likewise. |
| AuthEffects.RegisterEffect | backend/internal/auth/service_register.go:20-122 | Registration creates an active user with the first password version and, where asked for, a verification token. |
| AuthEffects.ResetIff | backend/internal/auth/service_password.go:101-170 | A reset goes through exactly with an open, unlapsed reset token and its secret, of an active user with a password, and an acceptable new one; it replaces that password, ends that user's reset tokens and sessions and changes nothing else. |
| AuthEffects.ChangeIff | backend/internal/auth/service_password.go:184-232 | A change goes through exactly with the right current password of an active user and an acceptable new one, with the same effect. |
| AuthEffects.VerifyIff | backend/internal/auth/service_email.go:73-146 | A verification goes through exactly with an open, unlapsed token and its secret of an active user, or again with the one that verified the address. |
| AuthEffects.LapsedIsReported | backend/internal/auth/service_email.go:112-114 | The right secret of an open token that has lapsed is answered with that. |
| AuthEffects.IssuedResetWorks | backend/internal/auth/service_password.go:94-182 | In every later state a reset token that was handed out works exactly while it is open, its user may log in, and 1800 seconds have not passed by either clock. |
| AuthEffects.IssuedVerificationWorks | backend/internal/auth/service_email.go:73-146 | Likewise a verification token, for 86400 seconds. |
| AuthEffects.NewPasswordLogsIn | backend/internal/auth/service_login.go:33-104 | After a reset the user logs in with the new password. |
| AuthTokens.Auth.CreateActionToken | backend/internal/auth/action_token_persistence.go:20-46 | Closes every open token of the user and purpose, then opens the new one, or reports failure. |
| AuthTokens.Auth.Forgot | backend/internal/auth/service_password.go:19-79 | Makes the specified step: only an address eligible in both lookups gets a token, any other changes nothing. |
| AuthTokens.Auth.Resend | backend/internal/auth/service_email.go:17-71 | Makes the specified step. |
| AuthTokens.Auth.ResetWithToken | backend/internal/auth/service_password.go:94-182 | Commits the specified step or rolls back the password already written. |
| AuthTokens.Auth.VerifyWithToken | backend/internal/auth/service_email.go:73-146 | Commits the specified step or rolls back. |
| Owners.OwnerIsNeverLost | backend/internal/memberships/service.go:181-242 | In every interleaving of status changes, binding changes, role edits and acceptances, an organization that starts with an active owner always has one, and every count in flight is a lower bound. |
| Owners.StepKeepsAnOwner | backend/internal/roles/service_bindings.go:170-227 | No single lock, count, decision, commit or abort takes the last active owner. |
| Owners.EffectKeepsAnOwner | backend/internal/memberships/service.go:204-217 | Carrying a job out leaves an active owner if whoever takes one away has counted two. |
| Owners.CountIsLowerBound | backend/queries/roles.sql:370-390 | A count made under the locks is at most the true number of active owners until its transaction ends. |
| Owners.OwnerRolesKept | backend/internal/roles/service_roles.go:166-186 | Creating roles and switching non-system roles never changes which roles make an owner. |
| Owners.OnlyReducersLose | backend/internal/invitations/service.go:439-467 | Acceptances, new bindings and role edits end nobody's ownership. |
| Owners.ReducersAreSerial | backend/internal/memberships/store.go:122-129 | Two transactions that may reduce owners are never between lock and commit together. |
| Owners.DecisionsOutlastTheOthers | backend/internal/memberships/service.go:181-217 | In every interleaving what a transaction decided under its locks still holds when it commits, and a removed member is never restored. |
| Owners.StaleCountsLoseTheLastOwner | backend/internal/memberships/service.go:208-210 | With counts that do not keep the rows locked, two owners can suspend each other. |
| Memberships.EveryRunKeepsInv | backend/internal/invitations/service.go:439-467 | Over every run of invitations, acceptances, status, binding and role changes a user has at most one membership in force, the newest, an address at most one pending invitation, and every binding and assignment a role that fits it. |
| Memberships.NoMembershipConflict | backend/migrations/20260717090300_create_memberships_roles_and_scopes.up.sql:73-75 | In a good state the unique index on memberships in force never refuses an acceptance. |
| Memberships.AcceptanceEffect | backend/internal/invitations/service.go:373-386 | A new or reactivated member ends active with exactly the invitation's bindings, an active one gets them in addition and keeps the expirations of those already there, and nobody else changes. |
| Memberships.GrantedInEffectIff | backend/queries/invitations.sql:106-116 | The invited roles are in effect after an acceptance exactly when each is still active and the member was not already active with a lapsed binding to it. |
| Memberships.LapsedRoleIsNotRenewed | backend/queries/invitations.sql:106-116 | A member who accepts an invitation to a role that has lapsed for them and still does not have it. |
| Memberships.AcceptanceNames | backend/internal/invitations/service.go:331-372 | Whoever accepts knew the secret, has the invited address and holds the admitted membership. |
| Memberships.AcceptedAtMostOnce | backend/queries/invitations.sql:164-180 | An invitation is accepted at most once in any run, and only before it expires by both clocks. |
| Memberships.RunKeepsRows | backend/internal/invitations/service.go:614-630 | A used, revoked or expired invitation never changes again, no invitation changes its assignments, and a removed membership is never restored, in any run. |
| MemberRights.OwnersNeverLapse | backend/queries/roles.sql:370-390 | In a good state both clocks count the same active owners at any time, those of Owners: a binding to the owner role takes no store and never expires. |
| MemberRights.CommandIsAllowedJob | backend/internal/roles/service_bindings.go:156-227 | Each serial command leaves the organization of Owners alone or does a job the interleaved rules allow on a count of all active owners. |
| MemberRights.StepKeepsAnOwner | backend/internal/memberships/service.go:163-249 | No command takes the last active owner. |
| MemberRights.RunKeepsAnOwner | backend/internal/memberships/service.go:163-249 | Nor does any run, by whichever clock owners are counted at its end. |
| MemberRights.CheckAssignmentsIff | backend/internal/invitations/service.go:484-570 | The assignments of an invitation pass exactly when no two are equal and each passes its checks; it lives as long as an owner's invitation exactly when one is to the owner role. |
| MemberRights.InvitationsStayWithinRights | backend/migrations/20260717090400_create_invitations.up.sql:165-218 | Only an active owner invites another owner, and nobody invites to a scope they may not grant. |
| MemberRights.BindingGrantsNoMore | backend/internal/roles/service.go:103-118 | A new or rewritten binding adds to what anyone may grant at most what the acting member may grant, and to its own member only. |
| MemberEffects.OwnersAnswerToOwners | backend/internal/memberships/service.go:205-206 | Whatever a member's command changes about an owner's status, a binding to the owner role or an invitation to it, that member may manage owners. |
| MemberEffects.OwnersAreInvited | backend/internal/invitations/service.go:373-386 | An acceptance makes an owner only by an invitation to the owner role. |
| MemberEffects.UpdateStatusIff | backend/internal/memberships/service.go:163-249 | A status changes exactly along the allowed transitions, an owner's only at the hand of who may manage owners and an active owner's only beside another; nothing else changes. |
| MemberEffects.DeleteBindingIff | backend/internal/roles/service_bindings.go:156-234 | Exactly the named binding goes, one to the owner role under the same two conditions. |
| MemberEffects.CreateBindingIff | backend/internal/roles/service_bindings.go:17-154 | A binding is made exactly if member, role, store and end fit and the acting member may grant the role's scopes; it then runs as asked and nothing else changes. |
| MemberEffects.BoundIsInEffect | backend/queries/roles.sql:195-225 | What is bound is in effect until its end. |
| MemberEffects.BindThenUnbind | backend/internal/roles/service_bindings.go:156-234 | Deleting a new binding restores the team. |
| MemberEffects.InviteIff | backend/internal/invitations/service.go:137-188 | An invitation goes out exactly from an active member, with one to fifty distinct assignments they may offer, to an address without one that has not lapsed. |
| MemberEffects.InviteEffect | backend/internal/invitations/service.go:160-171 | It is for this address, secret and assignments and lives as long as its kind does; lapsed ones of the address are marked, nothing else changes. |
| MemberEffects.ResendEffect | backend/internal/invitations/service.go:200-232 | A pending invitation gets a new secret and end, one that names an owner only from who may manage owners. |
| MemberEffects.RevokeEffect | backend/internal/invitations/service.go:252-275 | Exactly a pending, unlapsed invitation is revoked; the others are told apart by their errors. |
| MemberEffects.AcceptIff | backend/internal/invitations/service.go:331-399 | An invitation is accepted exactly with its secret, pending and unlapsed by both clocks, in an active organization, by an unblocked user with its address or a newcomer to it. |
| MemberEffects.InvitationAdmits | backend/internal/invitations/service.go:300-437 | What was sent is accepted exactly with the secret sent, by whom it was sent to, until it lapses. |
| MemberServices.Members.ScanOwnerBinding | backend/internal/memberships/service.go:307-314 | The loop finds an owner binding exactly when the member has one in force. |
| MemberServices.Members.UpdateStatus | backend/internal/memberships/service.go:163-249 | Makes the specified change on the count taken first, or returns the error and changes nothing. |
| MemberServices.Members.DeleteBinding | backend/internal/roles/service_bindings.go:156-234 | Deletes exactly the named binding, organization-wide or in a store, or returns the error. |
| MemberServices.Members.EnsureGrantSubset | backend/internal/roles/service.go:103-118 | The loop accepts exactly the scopes the member may all grant. |
| MemberServices.Members.FindBinding | backend/internal/roles/service_bindings.go:236-247 | The scan finds the binding to the same role and store, if there is one. |
| MemberServices.Members.CreateBinding | backend/internal/roles/service_bindings.go:17-154 | Inserts the binding, rewrites one whose expiration differs, leaves one that is the same, or returns the error. |
| MemberServices.Members.ValidateAssignments | backend/internal/invitations/service.go:484-570 | The loop with its set of seen assignments returns the first error or the lifetime. |
| MemberServices.Members.CreateInvitation | backend/internal/invitations/service.go:137-188 | Marks stale invitations of the address and adds the new one with its assignments, or rolls back. |
| MemberServices.Members.FindLatest | backend/queries/memberships.sql:108-113 | The scan finds the user's newest membership. |
| MemberServices.Members.EnsureMembership | backend/internal/invitations/service.go:439-467 | Finds, reactivates or creates the membership and leaves the specified bindings, or returns the error. |
| MemberServices.Members.AcceptInvite | backend/internal/invitations/service.go:300-437 | Commits the specified acceptance or rolls back user, membership and bindings. |
| PaymentMethods.NothingLastIsLost | backend/internal/stores/service_stores.go:171-238 | Over every run the organization keeps an active method and an active store; over every run whose deactivations see one page of active stores, or no rename while they read, a store that stays active keeps an operational method. |
| PaymentMethods.StoreKeepsAMethod | backend/internal/stores/service_payment_methods.go:119-168 | No step takes the last operational method from an active store, a deactivation provided the active stores fit on one page or are not renamed while it reads. |
| PaymentMethods.DeactivationSafeIff | backend/internal/stores/service_payment_methods.go:400-439 | A deactivation can never empty an active store, whatever is renamed between its pages, exactly when the active stores fit on one page (or are too many for the loop to end). |
| PaymentMethods.RenameEmptiesAStore | backend/internal/stores/service_payment_methods.go:119-168 | For every larger number of active stores a run in which a rename lets a deactivation take the last operational method of one of them. |
| PaymentMethods.DeactivationLeavesOne | backend/internal/stores/service_payment_methods.go:136-160 | A deactivation that passes the check on one page, or on listings that do not change, leaves each active store an operational method. |
| PaymentMethods.PagedCheckIff | backend/internal/stores/service_payment_methods.go:400-439 | The check passes exactly when the loop ends and no store it looked at depends on the method. |
| PaymentMethods.OrganizationKeepsOne | backend/internal/stores/service_stores.go:187-212 | No step takes the last active method or store, and archived is final. |
| PaymentMethods.ReplacementEffect | backend/internal/stores/service_payment_methods.go:233-279 | A replacement leaves the store exactly the listed active methods, at least one, and touches no other store. |
| StoreMethodEffects.ReplacementIff | backend/internal/stores/service_payment_methods.go:192-284 | A replacement is accepted exactly if it lists known methods once each, one of them to be active and none that the organization has switched off. |
| StoreMethodEffects.UpdateMethodIff | backend/internal/stores/service_payment_methods.go:286-373 | A store's method is switched exactly to the value asked for, if it is not to be on while switched off in the organization, and off only beside two operational ones; nothing else changes. |
| StoreMethodEffects.RefusalIsNeededIff | backend/internal/stores/service_payment_methods.go:334-342 | The refusal to take the last operational method is needed exactly for methods active in the organization. |
| StoreMethodEffects.MethodStatusIff | backend/internal/stores/service_payment_methods.go:119-168 | A method's status becomes what is asked for; switching off needs the check to pass and another active method. |
| StoreMethodEffects.StoreStatusIff | backend/internal/stores/service_stores.go:171-238 | A store's status becomes what is asked for; archived stays so, and an active one is given up only without open sales and beside another. |
| StoreMethodEffects.NewStoreEffect | backend/internal/stores/service_stores.go:81-117 | A new store is active and operates with every active method, or with none, and no other store is touched. |
| PaymentMethods.VisitsEachOnce | backend/internal/stores/service_payment_methods.go:400-439 | With a stable listing the page loop visits every active store exactly once and stops, up to the limit of its 32-bit offset. |
| PaymentMethods.ExactWhateverIsRenamedIff | backend/internal/stores/service_payment_methods.go:400-439 | The loop sees every active store exactly once under any renames between its pages exactly when they fit on one page. |
| PaymentMethods.RenameHidesAStore | backend/internal/stores/service_stores.go:119-157 | With more stores, a rename after the first page hides a store from the check. |
| PaymentMethods.Organization.EnsureCanBeDeactivated | backend/internal/stores/service_payment_methods.go:400-439 | The page loop, each page with its own listing, refuses exactly when a store it sees depends on the method or the offset would leave 32 bits. |
| PaymentMethods.Organization.SetMethodStatus | backend/internal/stores/service_payment_methods.go:119-168 | Makes the specified step for whatever each page lists, and returns its error. |
| PaymentMethods.Organization.CheckRequest | backend/internal/stores/service_payment_methods.go:201-230 | The loop with its set of seen ids refuses exactly empty, duplicate and all-inactive requests. |
| PaymentMethods.Organization.ReplaceStoreMethods | backend/internal/stores/service_payment_methods.go:192-284 | The two write loops leave exactly the specified bindings. |

## Left out

- HTTP handlers, cookies, CSRF, mail, configuration, pagination, catalog and product editing: plumbing around the modelled transactions; product and method rows appear as steps that set any row the tables accept.
- The scope each endpoint asks of its caller, except the one to manage owners, and audit rows, except the fact that a token verified an address: they only refuse more, or record.
- Cryptography and libraries: keyed hashes are injective, fresh secrets are parameters, password checks and the password policy are parameters, the driver returns some representation of each column's value.
- Transactions commit only when their callback succeeds and hold row locks until then; each is one step except in RowLocks, AuthTokens and Owners, where the phases interleave.
- Waits on unique indexes (payment keys, provider references) and on foreign-key locks are not lock steps in RowLocks.
- Deadlocks that the database breaks by aborting one transaction (a rotation locks token before session, a revocation session before token) are rollbacks here.
- Decimal exponents are unbounded integers; the 32-bit exponent of the driver is not modelled.
- Token and key lengths are counted in characters; for text outside ASCII the code counts bytes in tokens.
- A number marked NaN or infinite that carries no coefficient reads as zero, as in the code; other readings of such rows are not claimed.
- Sale numbers, the fiscal provider's authorization after commit, and the session cache: outside the modelled transactions.
- Sessions opened by registration and by accepting an invitation carry no login proof in AuthTokens; only sessions from Login are claimed to rest on the current password.
- Idle expiry is not claimed to grow: request touches write back a value read earlier, which may be any.
- Store-scoped bindings are not in Owners, whose interleavings concern the owner role only; Memberships has them.
- The syntax of invited addresses, the display names of new users, and the sessions invalidated by a change of rights.
- Session creation at the end of an acceptance is not part of Memberships; sessions are in RefreshSessions.
