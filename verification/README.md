# PromoCalculator: carts, crash recovery and request parsing, verified

PromoCalculator is a self-scanning server. Shoppers' devices send web requests; each shopping session is a
cart, kept in memory as several views that are updated side by side, and backed by a transaction file that
grows by a row with every accepted change. After a crash the files are replayed through the same cart methods.

This project models the cart and its recovery, the server around the carts, the HTTP request parser, and the
codecs between them, and proves what they keep.

* **The cart** (`CartModel`, `CartObject`). A pure state machine says what each operation does to the item
  rows, barcode counts, totals per department, item counter, private price copy, loyalty slots and phase, and
  which rows it appends. The class `Cart` has the source's fields and methods, each proved to do one step of
  that machine and to append exactly those rows. `CartLaws`, `LoyaltySlots`, `CartAlgebra`, `Money` and
  `PosExport` prove what every run keeps.
* **Crash recovery** (`Recovery`, `CrashSafety`, `CountSafety`, `SalesActions`, `Restarts`, `LifeLaws`,
  `TextSafety`). Replay is a second state machine driven by rows. It simulates the live one, whatever suffix of the
  file is lost and whatever the catalogue has become, through any number of crashes; and the cart's laws hold through
  whole lives of actions and crashes.
  `CountSafety` recovers what needs no catalogue, `GrandTotal` says what department 0 does to the grand total, and
  `TextSafety` takes recovery down to the text of the file. `ActionEffects` states what a sale and a void do to every
  count and total by numbers alone, and `DepartmentRecovery` and `DepartmentLife` recover each department's totals.
* **The server** (`ServerStore`, `Loading`, `ServerLife`, `BaseSystemObject`). All carts, the loyalty card registry,
  the next session number, web actions and restarts; the class `BaseSystem` refines it.
* **Shortcomings** (`Witnesses`). Sessions of web actions in which the code does not do what it is for.
* **The request parser** (`RequestAlphabet`, `RequestParser`, `RequestGrammar`, `RequestLanguage`). The push parser, an
  independent definition of the characters and texts it should accept and of what they denote, and the proof that they agree.
* **Codecs** (`Decimal`, `Barcode`, `Csv`, `Archive`, `LogText`, `Cents`, `UrlDecode`). Printing and reading.

`MapSum` and `Options` hold the sums over finite maps and the option type the rest uses.

What the proofs found out about the code:

* Replay charges every line the price of the private copy and gives no discount. A linked item is sold at the
  catalogue's price of the moment. So the recovered gross total is right if and only if the linked items' prices off
  their copies cancel out, and the recovered net amount if and only if they come to the discount that stands
  (`Restarts.RecoveredMoneyIsRightIff`). A price change between two sales, or any discount, is enough to spoil them
  (`Witnesses.DepositIsNotRecovered`, `Witnesses.MilkDiscountIsNotRecovered`).
* Replay books each line in the department the catalogue names at the restart (`DepartmentRecovery.RecoveredPieces`).
  Departments come back as long as no item changes department (`DepartmentLife.DepartmentsAreRecovered`).
* Voiding an item by another of its barcodes takes the item and the money but no barcode count. Each such void is
  one detail row too many in the file for the till (`PosExport.HeaderCountsDetailRows`, `Witnesses.MilkIsStillSent`).
* Department 0 is the grand total's own key, so its pieces are counted there twice. After any life the grand total
  counts the cart's pieces if and only if the pieces of department 0 come to none, and an action keeps it right if
  and only if neither item it moves is of department 0 (`GrandTotal.CountIsRightIff`, `GrandTotal.AddKeepsCountIff`).
  Missing items and unknown links are of department 0 (`Witnesses.UnknownLinkCountsTwice`).
* A sale books the linked item its barcode is listed for, and replay the one that decoding finds. They differ for a
  weighed barcode linked with its price: such a sale is recovered as another item (`CountSafety.SaleIsRecoveredIff`,
  `Witnesses.CheeseComesBack`).
* A new loyalty card may overwrite an occupied slot while an earlier, freed one stays free: a stored card is then
  lost although there was room (`LoyaltySlots.FreedSlotLosesACard`).
* Web actions alone keep loyalty cards exclusive, but two restarts can end it: the replay of a card given up
  erases whatever registration the card has. It stays exclusive if and only if no file names a card that a cart
  read before it holds (`ServerLife.ExclusiveAfterRestartIff`, `ServerLife.RestartsLetCartsShareACard`).
* A removed card is never unregistered while the server runs, because `removeLoyCard` overwrites its success code;
  with one session per card no other cart can take it until a restart (`ServerStore.RegistrationsStay`).
* After the last 32-bit session number the next number starts over: it then exceeds no number in use
  (`ServerStore.NumbersStayFresh`), and after a restart it depends on the order of the files
  (`Loading.NextIsOrderFreeIff`).
* Blank entries that lookups leave in the item archive are dumped with it. Reading them back overwrites the
  element under code 0, and nothing else (`Archive.DumpAndReload`).
* Amounts of one to nine cents print as tenths, and negative ones as no number at all (`Cents.DenotesCentsIff`).

## Model

| member | source | states |
|---|---|---|
| `CartObject.Cart.constructor` | PromoCalculator/src/cart.cpp:29-69 | A new cart is empty with a zero grand total, READY or LOADING as asked; a file already there keeps its rows. |
| `CartObject.Cart.UpdateLocalItemMap` | PromoCalculator/src/cart.cpp:177-200 | An item is copied once and never overwritten; a READY cart logs the department and the item, in that order, exactly when it copies. |
| `CartObject.Cart.GetItemPrice` | PromoCalculator/src/cart.cpp:202-226 | The price in the barcode's digits for weighed items; else the private copy's when prices are frozen and a copy exists; else the catalogue's. |
| `CartObject.Cart.AddItemByBarcode` | PromoCalculator/src/cart.cpp:235-279 | The whole new state and the appended row of an add; in a voided or closed cart nothing changes and the state's code is returned. |
| `CartObject.Cart.RemoveItemByBarcode` | PromoCalculator/src/cart.cpp:281-339 | The whole new state and the appended row of a void: rows and counts that reach zero disappear, and an item not in the cart changes nothing and logs nothing. |
| `CartObject.Cart.AddLoyCard` | PromoCalculator/src/cart.cpp:112-146 | A card is stored at the counter's slot, and logged when READY, exactly when there is room and no slot holds it; present cards are refused below the limit, and at the limit the answer is success. |
| `CartObject.Cart.RemoveLoyCard` | PromoCalculator/src/cart.cpp:148-175 | Exactly the slots holding the card are freed, one row and one count less for each. |
| `CartObject.Cart.VoidAllCart` | PromoCalculator/src/cart.cpp:341-357 | A cart is voided and logged once; voided and closed carts are left alone and answer their state's code. |
| `CartObject.Cart.SendToPos` | PromoCalculator/src/cart.cpp:422-484 | Only a READY cart is sent. The header has the till, store and cart numbers, the item counter, the gross total less the standing discount, the card of the lowest slot and up to eight digits of it from the second on; the detail rows are in ascending order and hold each barcode as often as its count. |
| `CartLaws.CountsAgreeOverRuns` | PromoCalculator/src/cart.cpp:242-256 | Over every run the item rows sum to the item counter and to the grand total's count, every row is at least one, and barcode counts exceed the counter by exactly the number of voids of barcodes not in the cart. |
| `CartLaws.ItemRowIsItsBarcodes` | PromoCalculator/src/cart.cpp:286-323 | For each item over every run, the counts of its barcodes exceed its row by exactly its voids through barcodes not in the cart. |
| `CartLaws.DepartmentsPartitionTheTotal` | PromoCalculator/src/cart.cpp:245-251 | Over every run, department moves and unfaithful voids included, the grand total's items, amount and discount are each the sum over the other departments. |
| `GrandTotal.ZeroDepartmentCountsTwice` | PromoCalculator/src/cart.cpp:245-251 | Over every run, with no hypothesis, the grand total's count leaves the item counter by exactly the pieces of department 0 added less those voided. |
| `GrandTotal.ChargeKeepsPartitionIff` | PromoCalculator/src/cart.cpp:245-251 | A charge keeps the departments adding up to the grand total if and only if it is not to department 0, or is nothing. |
| `GrandTotal.DepartmentsMissTwiceZero` | PromoCalculator/src/cart.cpp:245-251 | Over every run, with no hypothesis, the grand total leaves the sum of the departments by exactly twice what department 0 was charged, in items, amount and discount. |
| `GrandTotal.PartitionIsKeptIff` | PromoCalculator/src/cart.cpp:245-251 | The departments go on adding up over a run if and only if the charges to department 0 cancel out in all three. |
| `GrandTotal.AddOpsZero` | PromoCalculator/src/base_system.cpp:966-1032 | What an item add brings of department 0 is told by the departments of the item and of its linked item. |
| `GrandTotal.VoidOpsZero` | PromoCalculator/src/base_system.cpp:1108-1137 | What an item void takes of department 0 is told by the same departments and the rows the cart has. |
| `GrandTotal.AddKeepsCountIff` | PromoCalculator/src/base_system.cpp:966-1032 | An add keeps grand total and counter agreeing if and only if neither item is of department 0. |
| `GrandTotal.VoidKeepsCountIff` | PromoCalculator/src/base_system.cpp:1108-1137 | A void keeps them agreeing if and only if it takes out no piece of department 0. |
| `GrandTotal.CountIsRightIff` | PromoCalculator/src/base_system.cpp:610-832 | After any life, whatever the catalogues hold, they agree if and only if the pieces of department 0, sold less voided since the last restart or replayed by it, come to none. |
| `CartAlgebra.VoidsUndoAdds` | PromoCalculator/src/cart.cpp:235-339 | An add of q and q voids of the same line restore the whole core, and in the grand total and every department the items and the gross amount; the discount given is not taken back, and at most a row of zeros is new. |
| `CartAlgebra.OrderOfAddsIsIrrelevant` | PromoCalculator/src/cart.cpp:235-279 | Any two orders of the same adds end in the same cart, department totals included. |
| `Money.GrossIsWorth` | PromoCalculator/src/cart.cpp:202-339 | With frozen prices, over every run the gross total and the sum of count times price differ only by linked items' drift and the value of unfaithful voids. |
| `LifeLaws.FaithfulSessionTotals` | PromoCalculator/src/cart.cpp:202-339 | With frozen prices and main items only, a cart whose voids name barcodes it holds totals exactly count times price after any life of catalogue updates, crashes and restarts, and never less than zero for prices that are not. |
| `LifeLaws.GrossOfAnyLife` | PromoCalculator/src/base_system.cpp:670-822 | After any life with frozen prices, the gross total is the worth of the lines plus the linked changes since the last restart, less the value of the file's unfaithful voids. |
| `LifeLaws.AnyLifeIsConsistent` | PromoCalculator/src/cart.cpp:242-302 | After any life, crashes included, item rows, counter and grand total's count agree, and the grand total is the sum of the departments. |
| `LoyaltySlots.SlotsOkOverRuns` | PromoCalculator/src/cart.cpp:117-168 | Under a fixed limit, over every run the stored cards are distinct, slots are below the limit, and stored cards are at most the counter, which is at most the limit. |
| `LoyaltySlots.StoringKeepsOthersIffSlotFree` | PromoCalculator/src/cart.cpp:126 | Storing a card loses no other exactly when the counter's slot is free. |
| `LoyaltySlots.FreedSlotLosesACard` | PromoCalculator/src/cart.cpp:126-168 | Two cards, the first removed, a third added under a limit of two: the second is gone. |
| `PosExport.HeaderCountsDetailRows` | PromoCalculator/src/cart.cpp:446-472 | The detail rows outnumber the header's count by exactly the unfaithful voids, and each barcode appears once per piece added and not voided and once more per such void of it. |
| `LifeLaws.DetailRowsOfAnyLife` | PromoCalculator/src/cart.cpp:446-472 | The same after any life with restarts, counted on the cart's own file. |
| `LifeLaws.TillFileOfAnyLife` | PromoCalculator/src/cart.cpp:446-472 | After any life the detail rows outnumber the header's items by the file's unfaithful voids; for a faithful cart of main items with frozen prices the header's amount is count times price less the discounts given. |
| `Recovery.RowsReplaySoundly` | PromoCalculator/src/base_system.cpp:752-813 | Under any complete catalogue, replaying a legitimate row is an operation the cart allows and moves the gross total by what the row alone determines. |
| `Recovery.MirrorStep` | PromoCalculator/src/cart.cpp:112-357 | The rows of one live operation, replayed, lead from the mirrored state to the mirrored new state, with the same gross charge but for drift. |
| `CrashSafety.RecoverySimulatesTheRun` | PromoCalculator/src/base_system.cpp:670-822 | For every run and every prefix of its file, under any complete later catalogue, the recovered cart is the live cart after some prefix of the operations; gross totals agree but for linked drift, and the recovered discount is zero. |
| `CrashSafety.FullRecovery` | PromoCalculator/src/base_system.cpp:670-822 | With the whole file, the recovered cart is the final one, its gross total short by exactly the charges off copied prices, and its net amount its gross total. |
| `CrashSafety.VoidedIsFinal` | PromoCalculator/src/cart.cpp:344-351 | After a void no run appends a row or moves a count, card or total. |
| `CountSafety.CoreIsRecovered` | PromoCalculator/src/base_system.cpp:670-822 | For every run whose rows name items by their barcodes, from every prefix of its file and under any catalogue at all, counts, cards, copy and phase are recovered. |
| `CountSafety.AnyLifeKeepsItsCounts` | PromoCalculator/src/base_system.cpp:610-832 | The same after any life, with missing items, unknown links (`CountSafety.UnknownLinkAgrees`) and department 0 allowed. |
| `CountSafety.SaleIsRecoveredIff` | PromoCalculator/src/base_system.cpp:1022-1032 | Wherever a READY cart's file still tells the cart, the sale of an item with a link recovers its item rows if and only if the link names the item that decoding it finds. |
| `CountSafety.UnknownLinkAgrees` | PromoCalculator/src/base_system.cpp:454-456 | A link that is in no archive and not weighed names what decoding it finds, namely no item. |
| `CountSafety.CountsCompose` | PromoCalculator/src/base_system.cpp:670-822 | Under the same allowances, crashing and recovering without loss gives the same file, counts, cards and phase as never crashing. |
| `TextSafety.TextRecoversTheCart` | PromoCalculator/src/base_system.cpp:665-822 | After any life of 64-bit barcodes and cards and clean descriptions, the text of the cart's file, read and replayed, gives the cart back. |
| `TextSafety.ItemsFollowDepartments` | PromoCalculator/src/cart.cpp:184-196 | Through any life every copied item's row directly follows the row of its department. |
| `SalesActions.AddIsSound` | PromoCalculator/src/base_system.cpp:966-1096 | Every item add issues operations the recovery theorem covers, and charges off the line prices exactly as far as the linked item's catalogue price is from the cart's copy (or from the price in its barcode). |
| `SalesActions.VoidIsSound` | PromoCalculator/src/base_system.cpp:1108-1173 | The same for item voids: the difference is given back only if a piece of the linked item is left to void. |
| `ActionEffects.AddHasItsEffect` | PromoCalculator/src/base_system.cpp:966-1032 | A sale sells one piece of the item listed for the barcode, at its price less the discount, and one of the linked item at the catalogue's price and no discount: every row, barcode count, copy and total is told; a barcode of no kind or item changes nothing. |
| `ActionEffects.VoidHasItsEffect` | PromoCalculator/src/base_system.cpp:1108-1137 | A void takes back the item at the price a sale would charge and the linked item at the catalogue's, each only where it is held, and no discount. |
| `ActionEffects.RefusedActions` | PromoCalculator/src/cart.cpp:273-275 | In a cart that takes no items, neither moves anything but the private copy. |
| `ActionEffects.DiscountIsWhatWasGiven` | PromoCalculator/src/base_system.cpp:1013-1014 | After any life, with no hypothesis, the discount that stands is the sum of what sales gave since the last restart. |
| `ActionEffects.RecoveredNetIsRightIff` | PromoCalculator/src/base_system.cpp:757-771 | A restart finds the right net amount if and only if the linked changes since the last one come to the discounts given since then. |
| `Restarts.AnyLifeIsRecoverable` | PromoCalculator/src/base_system.cpp:610-832 | After any life of web actions, catalogue updates, crashes losing any rows and restarts from any catalogue in order, a restart rebuilds the cart as it is, and its gross total but for the drift since the last one. |
| `DepartmentRecovery.RecoveredPieces` | PromoCalculator/src/base_system.cpp:756-771 | Any file on any catalogue leaves each department the pieces its rows add less those they void, of the items the catalogue puts there, and no discount. |
| `DepartmentRecovery.RecoveredGross` | PromoCalculator/src/base_system.cpp:756-771 | With frozen prices each department's gross after a restart is that of its rows in line prices. |
| `DepartmentRecovery.RecoveredCharges` | PromoCalculator/src/base_system.cpp:756-771 | In either price mode, for any file and catalogue, each department's gross is that of its rows at the barcode's, the copy's or the catalogue's price. |
| `DepartmentLife.DepartmentsAreRecovered` | PromoCalculator/src/base_system.cpp:670-822 | After any life in which no item changes department, a restart gives every department its pieces back, and its gross but for the linked changes in it since the last restart. |
| `Restarts.RecoveryComposes` | PromoCalculator/src/base_system.cpp:670-822 | Crashing and recovering any number of times, losing no row and no catalogue update, gives the same file, counts, cards, phase and drift-free gross total as never crashing. |
| `Restarts.NoLinksNoDrift` | PromoCalculator/src/base_system.cpp:1022-1032 | Where no item is linked to another, frozen prices never drift, whatever the life. |
| `Restarts.RecoveredMoneyIsRightIff` | PromoCalculator/src/base_system.cpp:757-771 | After any life a restart finds the right gross total if and only if the linked items' changes since the last restart sum to zero, and the right net amount if and only if they sum to the discount that stands; the differences are exact. |
| `Restarts.ActionKeepsMoneyRightIff` | PromoCalculator/src/base_system.cpp:1022-1032 | A right recovered total stays right after an action if and only if the linked item the action touches, if any, is priced in the catalogue as replay will price it. |
| `Witnesses.LinkedPriceChangeIsNotRecovered` | PromoCalculator/src/base_system.cpp:1030-1032 | In any catalogue with a link: sale, price change of the linked item, sale again; the restarted total is off by exactly the change. |
| `Witnesses.DepositIsNotRecovered` | PromoCalculator/src/base_system.cpp:1030-1032 | A shop and a session in which the recovered total is short of 2. |
| `Witnesses.DiscountIsNotRecovered` | PromoCalculator/src/base_system.cpp:763-764 | In any catalogue, a sale at a discount is recovered with the net amount higher by the discount. |
| `Witnesses.MilkDiscountIsNotRecovered` | PromoCalculator/src/base_system.cpp:763-764 | A shop and a session whose recovered net amount is 10 too high. |
| `Witnesses.VoidByOtherBarcode` | PromoCalculator/src/cart.cpp:286-323 | An item sold by one barcode and voided by another leaves an empty cart with one detail row for the till. |
| `Witnesses.MilkIsStillSent` | PromoCalculator/src/cart.cpp:286-323 | A shop and a session in which it happens. |
| `Witnesses.UnknownLinkCountsTwice` | PromoCalculator/src/base_system.cpp:1022-1032 | Selling an item linked to an unknown barcode leaves two pieces in the cart and three in the grand total, whether or not a lookup has left a blank item behind. |
| `Witnesses.PricedLinkDisagrees` | PromoCalculator/src/base_system.cpp:445-458 | A weighed barcode linked with its price, sold in the archive without it, names no item as it stands and an item when decoded. |
| `Witnesses.CheeseComesBack` | PromoCalculator/src/base_system.cpp:1022-1032 | A shop and a sale, at any price of the linked cheese, whose recovered item rows differ from the live ones. |
| `Restarts.VoidedForever` | PromoCalculator/src/base_system.cpp:778-822 | A voided cart's file never grows and it recovers as voided, through every lossless life. |
| `Restarts.VoidSessionVoids` | PromoCalculator/src/cart.cpp:341-357 | Voiding a session makes the cart voided and nothing else, and appends the voiding row unless it was voided already. |
| `ServerStore.CardsAreExclusive` | PromoCalculator/src/base_system.cpp:1174-1224 | With one session per card, in every state web actions reach a held card is registered to its holder, so no two carts hold one card. |
| `ServerStore.RegistrationsStay` | PromoCalculator/src/base_system.cpp:1174-1224 | With one session per card, a registration outlives every action, so no other cart ever holds the card, even once it was given up. |
| `ServerStore.OfferIsTakenIff` | PromoCalculator/src/base_system.cpp:1174-1194 | An offered card is in the cart afterwards if and only if it was before, or the registry does not refuse it and the cart has room; registered to it if and only if it was, or no other's registration stands in the way; other registrations stay. Both settings of one session per card are covered. |
| `ServerStore.GivenUpIsGone` | PromoCalculator/src/base_system.cpp:1208-1211 | A card given up is in the cart no more, every other card and the registry are as they were. |
| `ServerStore.NumbersStayFresh` | PromoCalculator/src/base_system.cpp:1281-1293 | The next number stays above every number in use if and only if the 32-bit numbers last; while they do, each opening adds one cart under a new, larger number, and none is ever dropped. |
| `ServerStore.EveryCartStaysRecoverable` | PromoCalculator/src/base_system.cpp:882-1260 | Over every sequence of web actions and variations, every cart's file goes on telling the whole story of that cart. |
| `Loading.OrderOfFilesIsIrrelevant` | PromoCalculator/src/base_system.cpp:643-829 | The recovered carts do not depend on the order the directory lists the files in, and below the last 32-bit number neither does the next number. |
| `Loading.NextIsOrderFreeIff` | PromoCalculator/src/base_system.cpp:825-827 | Every order gives the same next number if and only if no file has the last 32-bit number or there is no other file. |
| `Loading.NextIsBeyondIff` | PromoCalculator/src/base_system.cpp:618-827 | The next number exceeds every loaded number if and only if none is the last 32-bit number, and is then the least such number not below the initial one. |
| `Loading.RestartGivesTheStoreBack` | PromoCalculator/src/base_system.cpp:610-832 | A restart from any catalogue in order brings every cart back under its number with its file and as recoverable as before; the next number is fresh if and only if no cart has the last number. |
| `Loading.HeldCardStaysRegisteredIffUnnamedLater` | PromoCalculator/src/base_system.cpp:776-787 | A recovered cart's card is registered to it if and only if no file read later names the card. |
| `Loading.LastNamingDecides` | PromoCalculator/src/base_system.cpp:776-787 | The last row of a file that names a card decides its registration: the cart's if added, no one's if given up. |
| `ServerLife.AnyServerLifeIsRecoverable` | PromoCalculator/src/base_system.cpp:610-832 | Over any sequence of web actions and restarts, files read in any order and cut anywhere and catalogues read as they may be, every cart's file goes on telling its whole story. |
| `ServerLife.NumbersStayFreshOverLife` | PromoCalculator/src/base_system.cpp:618-827 | Through restarts too, the next number is above every number in use if and only if the 32-bit numbers last; while they do, each session opened is one cart more and the next number counts them. |
| `ServerLife.ExclusiveAfterRestartIff` | PromoCalculator/src/base_system.cpp:776-787 | After a restart every held card is registered to its holder if and only if no file read later names a held card. |
| `ServerLife.CardsAreExclusiveOverLife` | PromoCalculator/src/base_system.cpp:1174-1224 | With one session per card and restarts in such orders, no two carts ever hold one card. |
| `ServerLife.RestartsLetCartsShareACard` | PromoCalculator/src/base_system.cpp:776-787 | A life of web actions and two restarts, from an empty server with one session per card, after which two carts hold one card. |
| `BaseSystemObject.BaseSystem.NewCart` | PromoCalculator/src/base_system.cpp:1281-1293 | A fresh empty cart is inserted exactly when the number is unused; the number advances, wrapping at 32 bits, and nothing else changes. |
| `BaseSystemObject.BaseSystem.SessionInit` | PromoCalculator/src/base_system.cpp:882-885 | A session opens with an empty cart that appends to whatever its file holds, which is the store's opening step for a new file; the number taken is returned. |
| `BaseSystemObject.BaseSystem.ItemAdd` | PromoCalculator/src/base_system.cpp:966-1096 | Main and linked item, decoded, frozen, priced and added, are the store's step for that cart, with the status of the reply; an unknown cart changes nothing. |
| `BaseSystemObject.BaseSystem.ItemVoid` | PromoCalculator/src/base_system.cpp:1108-1173 | Voiding the item and its linked item is the store's step for that cart, with the status of the reply. |
| `BaseSystemObject.BaseSystem.CustomerAdd` | PromoCalculator/src/base_system.cpp:1174-1207 | The search of the registry refuses exactly the cards the store refuses; any other is registered and offered to the cart; the status is the registry's or the cart's answer. |
| `BaseSystemObject.BaseSystem.CustomerVoid` | PromoCalculator/src/base_system.cpp:1208-1224 | The card leaves the cart but never the registry, and the status is an error even so. |
| `BaseSystemObject.BaseSystem.SessionVoid` | PromoCalculator/src/base_system.cpp:1249-1259 | Voiding a session is the store's step for that cart, with the status of the reply. |
| `BaseSystemObject.SaleStatus` | PromoCalculator/src/base_system.cpp:966-1096 | A sale answers success if and only if the cart has more pieces; after an error at most the private copy has grown. |
| `BaseSystemObject.ItemStatus` | PromoCalculator/src/base_system.cpp:1079-1163 | The codes of a barcode of no kind, of a missing item and of a cart that takes none, for sales and voids. |
| `BaseSystemObject.CardStatus` | PromoCalculator/src/base_system.cpp:1174-1224 | An offer succeeds if and only if the registry allows it and the cart does not hold the card below the limit; a removal always answers that the card was not there. |
| `BaseSystemObject.RefusalsTellHolder` | PromoCalculator/src/base_system.cpp:1177-1187 | Which of the two refusals is given tells whether the card is this cart's or another's. |
| `BaseSystemObject.BaseSystem.VariationRow` | PromoCalculator/src/base_system.cpp:539-547 | A variation replaces an item of a positive code and touches no cart. |
| `BaseSystemObject.BaseSystem.ReplayRowOn` | PromoCalculator/src/base_system.cpp:752-813 | One row replayed through the cart's methods is the replay step and the registry step, and writes no row. |
| `BaseSystemObject.BaseSystem.ReplayFile` | PromoCalculator/src/base_system.cpp:670-822 | A file replayed into a loading cart gives the recovered cart and the updated registry, and leaves the file as it is. |
| `BaseSystemObject.BaseSystem.LoadCart` | PromoCalculator/src/base_system.cpp:648-827 | The shuffle of the next number around `newCart` amounts to one loading step. |
| `BaseSystemObject.BaseSystem.LoadCartsInProgress` | PromoCalculator/src/base_system.cpp:610-832 | The loop over the directory is the load of all its files from number one. |
| `Barcode.KindIsInterval` | PromoCalculator/src/base_system.cpp:409-443 | The cascade of patterns over the printed number equals a partition of the numbers into intervals. |
| `Barcode.PriceSplitsBarcode` | PromoCalculator/src/cart.cpp:219-223 | A weighed item's barcode is its normalised code plus ten times the price plus the check digit, with the price below 100000. |
| `Barcode.DecodeIsIdempotent` | PromoCalculator/src/base_system.cpp:445-458 | Decoding the normalised barcode gives the same decoding. |
| `ActionEffects.DecodeIs` | PromoCalculator/src/base_system.cpp:409-459 | Decoding, told by numbers: the interval's kind, the last six digits zeroed for weighed items, and the item listed under that code. |
| `ActionEffects.PriceIs` | PromoCalculator/src/cart.cpp:202-226 | The price of a barcode, told by numbers: the five digits before the last, the copy's, or the catalogue's. |
| `Decimal.ReadsBack` | PromoCalculator/src/base_system.cpp:445-448 | Reading a printed number gives the number. |
| `Decimal.CutSuffix` | PromoCalculator/src/cart.cpp:219-223 | The last k digits of a numeral denote its remainder by ten to the k. |
| `Archive.ArchiveMap.AddElement` | PromoCalculator/include/base/archive_map.h:20 | An element is stored under its own code and replaces only that one. |
| `Archive.ArchiveMap.At` | PromoCalculator/include/base/archive_map.h:36-37 | A missing element is inserted blank, and no later lookup of any key can tell. |
| `Archive.ArchiveMap.DumpToFile` | PromoCalculator/include/base/archive_map.h:24-34 | One line per element, in ascending order of code. |
| `Archive.DecodeBarcode` | PromoCalculator/src/base_system.cpp:454-456 | Decoding on the live archive gives the pure decoding and changes no later one, although it inserts blank rows. |
| `Archive.ReadItemArchive` | PromoCalculator/src/base_system.cpp:216-276 | The loop over lines and columns computes the archive the file's text stands for, a malformed line stopping it. |
| `Archive.ItemTextIsCells` | PromoCalculator/src/item.cpp:72-84 | An item's text is its five columns with the description quoted. |
| `Archive.DumpAndReload` | PromoCalculator/src/base_system.cpp:238-274 | Dumping an archive and reading the text back: 64-bit codes, signed prices and commas in descriptions survive; every lookup finds what it found before if and only if the element under 0 is blank or no other blank entry is dumped; with no blank entries elsewhere the archive itself is rebuilt. |
| `Archive.OneItemText` | PromoCalculator/src/item.cpp:72-84 | An item's line, in full. |
| `Archive.SpacedLineReads` | PromoCalculator/src/base_system.cpp:238-274 | A line of four columns with spaces after its commas: the description keeps the spaces and loses the quotes, numbers skip them, and the link stays that of the line before. |
| `Archive.LastNewlineIsOptional` | PromoCalculator/src/base_system.cpp:238 | A file whose last line has no newline reads like one whose last line has. |
| `TextSafety.VariationSurvivesDump` | PromoCalculator/src/base_system.cpp:539-571 | A variation replaces its item's description, department and price and no other item, and is still there after a dump and reload. |
| `Csv.CellsParse` | PromoCalculator/src/base_system.cpp:35-38 | Printed columns parse back to their texts, quoted commas included. |
| `Csv.FieldsParse` | PromoCalculator/src/base_system.cpp:35-38 | A line parses to its fields however each is put together from quoted strings and plain characters. |
| `Csv.NumberReads` | PromoCalculator/src/base_system.cpp:254-266 | A number after spaces, whatever follows its digits, reads as its value or the largest the column holds. |
| `LogText.RowsReadBack` | PromoCalculator/src/base_system.cpp:670-745 | Every row a cart writes, under any timestamp, reads back as that row. |
| `LogText.RowForms` | PromoCalculator/src/cart.cpp:130-132 | The seven rows as they stand in the file, in full. |
| `LogText.OtherActionsVoid` | PromoCalculator/src/base_system.cpp:765-788 | Any action of an item or card row but A is a void. |
| `LogText.FilesReadBack` | PromoCalculator/src/cart.cpp:105-110 | A whole transaction file reads back as the rows written to it. |
| `RequestParser.Parser.Consume` | PromoCalculator/src/request_parser.cpp:27-320 | One character moves state and request by the transition function, which never lets the last header go missing where it is used; the character classes are those of `RequestAlphabet`. |
| `RequestParser.Parser.ParseBuffer` | PromoCalculator/include/request_parser.hpp:36-48 | The loop over a buffer stops just after the deciding character, or takes the whole buffer. |
| `RequestParser.FeedSplits` | PromoCalculator/include/request_parser.hpp:36-48 | Parsing a text in two parts equals parsing it whole, nothing after the deciding character being taken. |
| `RequestParser.ChunksDoNotMatter` | PromoCalculator/src/connection.cpp:42-71 | However the bytes are cut into buffers, verdict, request, state and characters consumed are those of one call. |
| `RequestParser.Connection.HandleReads` | PromoCalculator/src/connection.cpp:42-71 | Reading buffers until one decides has the outcome of parsing their concatenation. |
| `RequestGrammar.Grows` | PromoCalculator/src/request_parser.cpp:27-292 | In any state, a character that does not decide extends the text read so far by itself, and the request by what that text then denotes. |
| `RequestGrammar.FeedReads` | PromoCalculator/src/request_parser.cpp:27-292 | Whatever input was taken is a text of the grammar, or a part of one, denoting the request filled in. |
| `RequestLanguage.PrintedRequestsParse` | PromoCalculator/src/request_parser.cpp:27-292 | Printing any well-formed request and parsing it gives the request back, accepted at its last character, whatever follows. |
| `RequestLanguage.AcceptsExactlyTheGrammar` | PromoCalculator/src/request_parser.cpp:27-292 | Input is accepted after n characters with a request if and only if those characters are a well-formed text denoting that request. |
| `RequestLanguage.ReachableParsesAreSafe` | PromoCalculator/src/request_parser.cpp:27-292 | In every state any input leaves, accepted, rejected or unfinished, the last header exists where it is used, method and names are tokens, URI and values are free of control characters, and the state for the start of a URI is never entered. |
| `Cents.DenotesCentsIff` | PromoCalculator/src/base_system.cpp:835-851 | The printed amount denotes the cents if and only if they are zero or at least ten either way. |
| `UrlDecode.Decode` | PromoCalculator/src/request_handler.cpp:176-213 | The index loop computes the decoding of its whole input, and on failure what precedes the bad escape. |
| `UrlDecode.DecodesPieces` | PromoCalculator/src/request_handler.cpp:176-213 | Any mixture of literal bytes, pluses and escapes decodes to its bytes, two characters shorter per escape. |
| `UrlDecode.WellEscapedDecodes` | PromoCalculator/src/request_handler.cpp:176-213 | Whenever every percent sign has two hexadecimal digits after it, decoding succeeds and is two characters shorter per escape. |
| `UrlDecode.DecodeInvertsEncode` | PromoCalculator/src/request_handler.cpp:176-213 | Decoding undoes percent-encoding on every byte string, whatever the case of each hexadecimal digit. |
| `UrlDecode.HexValues` | PromoCalculator/src/request_handler.cpp:187-191 | The sixteen digits of either case have their values. |
| `UrlDecode.ReadHexIsStreamHex` | PromoCalculator/src/request_handler.cpp:187-191 | Of any two characters the byte read is the low byte of the number a stream reads: spaces, a sign, a base prefix and digits. |

## Left out

- CartObject.Cart.AddItemByBarcode: money, quantities and the item counter are mathematical integers, so overflow is not modelled; session numbers and the card counter do wrap at 32 bits.
- CartObject.Cart.constructor: the constant TOTAL row among the item rows is not kept. It never changes and no modelled operation reads it. Item rows are keyed by item code; the source keys them by the address of the item in the catalogue, and there is one address per code.
- CartObject.Cart.AddLoyCard: the limit's return code is overwritten in the source; the model returns what the code finally returns.
- CartObject.Cart.RemoveLoyCard: the increment of a map iterator after its element was erased is taken as moving on to the next slot; the success code is overwritten in the source, and the model returns what the code finally returns.
- CartObject.Cart.RemoveItemByBarcode: the error code for an item not in the cart is overwritten in the source; the model returns what the code finally returns.
- CartObject.Cart.SendToPos: the timestamps and constant fields of the header row, and the file's name. The source reads the first slot even of a cart with no card; the model then has no card.
- CartLaws.CountsAgreeOverRuns: like the other laws of totals, it assumes departments other than 0, for which `GrandTotal` gives the exact conditions, and rows under the item their barcode stands for, which the web actions guarantee (`SalesActions.AddIsSound`, `SalesActions.VoidIsSound`).
- CrashSafety.RecoverySimulatesTheRun: department totals are left to `DepartmentLife.DepartmentsAreRecovered`, because replay charges the department the catalogue names at the time; when prices may change while shopping no money is claimed to come back, because replay charges the prices of the time (`DepartmentRecovery.RecoveredCharges`). Like the theorems built on it, it assumes a barcode archive and card limit that do not change and a catalogue in which every barcode's item exists; while it runs, the server only adds or replaces items.
- SalesActions.AddIsSound: like the money half of recovery, it assumes that a linked barcode, looked up as it stands, names the item that decoding it finds, and that neither is missing from the archives. Counts, cards, copies and phase are recovered without the items (`CountSafety.AnyLifeKeepsItsCounts`), and the link that leads elsewhere has its exact condition (`CountSafety.SaleIsRecoveredIff`).
- SalesActions.VoidIsSound: the same assumption.
- Restarts.RecoveryComposes: a crash after a variation file was renamed and before the item archive was dumped restores the older prices. `Restarts.AnyLifeIsRecoverable` covers the restart, whatever catalogue it reads, but the life then differs from one without the crash.
- Loading.OrderOfFilesIsIrrelevant: a directory holding two files for one session number is not covered. The server never writes one; reading it, the source would append to the file it is reading.
- BaseSystemObject.BaseSystem.ReplayFile: takes rows; `LogText.FilesReadBack` is the bridge from their text.
- BaseSystemObject.BaseSystem.ItemAdd: the choice of a promotion and its arithmetic are not modelled, the discount being an arbitrary integer; of the reply only the status is; items, barcodes and departments are looked up without inserting the blank entries of `operator[]`, which `Archive.ArchiveMap.At` shows to make no difference to lookups.
- BaseSystemObject.BaseSystem.LoadCart: a file whose number already has a cart, as in a directory with two files for one number, is not covered.
- BaseSystemObject.BaseSystem.LoadCartsInProgress: reading the directory, and carts already there under a loaded number, since it is called once at start-up, and two files for one number.
- Csv.FieldsParse: unterminated quotes, which the source's parser gives up on; a line of fewer columns keeps the columns of the line before in `Archive.ReadItemArchive`, but not in the rows of `LogText`.
- LogText.RowsReadBack: descriptions holding a quote or a newline, which the format cannot carry; the same holds for `Archive.DumpAndReload`.
- RequestParser.Parser.Consume: version numbers are mathematical integers; the source's may overflow.
- The state CLOSED is never entered by the source: the branch that would enter it on replay stands after a `break`.
- Request ids, rescans, printing and persisting carts, JSON replies, request routing, sockets, threads, configuration, logging, and the reading of department, barcode and promotion archives.
