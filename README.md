# Wish ledger and card market

This project models the currency ledger and card market behind a Telegram card-collecting bot. Players hold a
balance of *wishes*. They claim a daily reward, transfer wishes to each other and buy wishes with Telegram stars.
They spend wishes on cards from a shop that is rolled once a day, and they trade cards with each other through
peer-to-peer (P2P) listings.

The database collections (`users`, `transactions`, `default_shop`, `daily_shop`, `p2p_listings`) are the fields
of one class, `Documents.Db`. Each operation in `utils.py` and `shop.py` that changes state is a method that updates those fields in place;
the read-only ones are functions (`GetUser`, `CanClaimDaily`, `UserTransactions`, `FindListings`), and the listing
queries are also methods (`GetListings`, `GetP2pListings`) that change nothing. Each
method's contract ties its new state to a pure function of the old state. Lemmas about those functions prove:
- balances never go negative;
- transfers and P2P sales conserve the currency in circulation;
- the daily cooldown holds;
- history comes back newest first;
- a listing's active flag only ever goes from set to cleared;
- within one day the shop stays the same, with exactly one card per rarity that has catalog cards, each priced
  within its rarity's range.

Modules:
- `Wrappers` (`wrappers.dfy`): `Option` and `Result`.
- `Documents` (`documents.dfy`): the document types, and the `Db` class with the collections as fields. It also has
  the `$inc`/`$push`/`$pull` field updates on a user document, and `Total`, the sum of all balances.
- `Ledger` (`ledger.dfy`): `utils.py`. This includes the older shop purchase and P2P functions that `utils.py`
  still defines.
- `Shop` (`shop.py` → `shop.dfy`): the rarity tables, the daily shop, and the P2P functions the bot actually
  runs. `main.py` imports `shop` after `utils` (main.py:7-8), so these definitions replace the ones with the same
  names in `utils.py`. Both revisions are modelled, under different names.

Inputs and nondeterminism:
- **Randomness.** `random.choice` and `random.randint` are nondeterministic choices (`:|`) within their ranges.
- **Clock.** The clock is a `now: Time` parameter in seconds.
- **Day.** The day the shop is keyed by is a `today: Date` parameter.
- **Card catalog.** The `master_cards` catalog is a `catalog: seq<Card>` parameter.
- **New listing ids.** A new listing's id comes from the counter `nextListingId`. `Db.Valid()` states that every
  listing is stored under its own id and that the id is below the counter.

A `users` `update_one` whose filter matches nothing changes nothing. The field updates model that, so the
corner cases of the code (a missing seller, a self-transfer, a buyer buying their own listing) are modelled as
they behave, not assumed away.

## Model

| member | source | states |
|---|---|---|
| Documents.NewUser | utils.py:25-32 | a new user document has balance 0, no last claim and an empty collection |
| Documents.FindCard | shop.py:105 | the first card with that id, or none exactly when no card has it |
| Documents.Inc | shop.py:112-115 | `$inc` changes only that user's balance, by exactly `delta`; a missing user is left absent |
| Documents.Push | shop.py:112-115 | `$push` appends the card to that user's collection only |
| Documents.Pull | shop.py:159 | `$pull` replaces that user's collection by `RemoveAll`, nobody else changes |
| Documents.RemoveAll | shop.py:159 | no copy of the card is left, every other card keeps its count, and the length drops by the number of copies |
| Documents.IncSolvent | utils.py:40-54 | `$inc` keeps every balance non-negative when the changed balance stays so |
| Documents.MoveAmount | utils.py:99-100 | moving an amount by two `$inc` updates conserves the total unless a document is missing, and keeps balances non-negative when the payer can afford it |
| Documents.TotalInc | utils.py:96-101 | `$inc` changes the total by exactly `delta` when the user exists |
| Documents.TotalCollectionUpdate | shop.py:112-115 | changing a collection leaves the total alone |
| Documents.TotalPush | shop.py:158 | `$push` leaves the total alone |
| Documents.TotalPull | shop.py:159 | `$pull` leaves the total alone |
| Ledger.GetUser | utils.py:36-38 | a user is found exactly when the id is in the table, and it is the stored document |
| Ledger.EnsureUser | utils.py:20-34 | after `create_user` the id is present, existing users are unchanged, and a new one is a fresh document |
| Ledger.EnsureUserIdempotent | utils.py:20-34 | creating a user twice is the same as once, whatever the second username and clock |
| Ledger.EnsureUserBalances | utils.py:20-34 | creating a user adds no currency and keeps every balance non-negative |
| Ledger.CreateUser | utils.py:20-34 | the table becomes `EnsureUser` of the old one; the returned user is the stored one, unchanged if it existed |
| Ledger.AdjustBalance | utils.py:40-54 | fails exactly for a missing user or when the balance would go negative; otherwise only that balance changes, by exactly `amount` |
| Ledger.AdjustBalanceBalances | utils.py:46-54 | a successful adjustment keeps every balance non-negative and changes the total by exactly `amount` |
| Ledger.AdjustBalanceUndo | utils.py:40-54 | adjusting by `amount` and then by `-amount` restores the table |
| Ledger.UpdateUserBalance | utils.py:40-54 | the result and the new table are those of `AdjustBalance`; a failure changes nothing |
| Ledger.RecordTransaction | utils.py:108-117 | appends exactly one record to the log |
| Ledger.CanClaimDaily | utils.py:56-70 | never for a missing user, always for a user who has not claimed yet, and otherwise exactly when 24 hours have passed since the last claim |
| Ledger.CanClaimDailyLater | utils.py:56-70 | once a reward can be claimed, it can still be claimed later |
| Ledger.ClaimDaily | utils.py:72-87 | succeeds exactly when a claim is allowed, and then adds `amount` and sets the last claim to `now` for that user only |
| Ledger.ClaimDailyCooldown | utils.py:56-87 | after a claim at `now`, a claim at `later` is allowed exactly when 24 hours have passed; an immediate second claim fails |
| Ledger.ClaimDailyBalances | utils.py:77-87 | a claim changes the total by `amount` and keeps balances non-negative for a non-negative reward |
| Ledger.ClaimDailyReward | utils.py:72-87 | the state changes as `ClaimDaily` says and exactly one `daily_reward` record of `+amount` is appended; nothing changes when not claimable |
| Ledger.ClaimTwiceAsNewUser | utils.py:20-87 | a new user's first claim succeeds with 10 wishes and one record, and the immediate second claim fails |
| Ledger.Transfer | utils.py:89-106 | fails exactly when the sender is missing or short; otherwise the recipient is created if missing, the sender loses and the recipient gains `amount` with the rest of both documents kept (a new recipient is a fresh user document), and no one else changes |
| Ledger.TransferBalances | utils.py:89-106 | a transfer preserves the total, and for a positive amount keeps every balance non-negative |
| Ledger.TransferWishes | utils.py:89-106 | the new table is `Transfer`'s; on success a `-amount` transfer_out and a `+amount` transfer_in record are appended |
| Ledger.AddWishesForStars | utils.py:123-128 | returns `stars * rate`, credits it through `AdjustBalance`, and appends the stars record even when the credit fails |
| Ledger.StarsCreditApplied | utils.py:123-128 | a non-negative credit is refused for a missing user, and succeeds, adding exactly the credit, for a user who exists and has a non-negative balance |
| Ledger.RecordsOf | utils.py:119-121 | exactly the user's records, each as often as it is in the log |
| Ledger.InsertByTime | utils.py:121 | inserting adds exactly the one record and keeps every other |
| Ledger.InsertByTimeSorted | utils.py:121 | inserting into a newest-first list keeps it newest first |
| Ledger.NewestRecordsOf | utils.py:119-121 | records taken from a sorted copy of the user's records are the user's, drawn from the log, and the copy counts each record as the log does |
| Ledger.SortNewestFirst | utils.py:119-121 | a newest-first permutation of its input |
| Ledger.PrefixIsNewest | utils.py:119-121 | a record left out of a prefix of a newest-first list is no newer than anything in the prefix |
| Ledger.TakeNewest | utils.py:119-121 | the first `limit` records of a newest-first list (all of them for limit 0), and nothing left out is newer than what was kept |
| Ledger.UserTransactions | utils.py:119-121 | only the user's records, newest first, `min(limit, count)` of them (all for limit 0), and none left out is newer than one returned |
| Ledger.DefaultShopPurchase | utils.py:152-168 | fails for a card not in the fixed shop or a short balance; otherwise only the buyer changes, debited the price; the card is returned but not added to the collection |
| Ledger.DefaultShopPurchaseBalances | utils.py:152-168 | a purchase keeps balances non-negative and takes exactly the price out of circulation |
| Ledger.BuyFromDefaultShop | utils.py:152-168 | the new table is `DefaultShopPurchase`'s, and a purchase logs a `-price` shop record |
| Ledger.CreateP2pListing | utils.py:170-180 | inserts one new active listing under a fresh id, keeping `Valid` |
| Ledger.FindListings | utils.py:182-188 | exactly the active listings (of one seller, for `get_user_listings`), in id order |
| Ledger.GetListings | utils.py:182-188 | exactly the stored listings matching the query, in id order |
| Ledger.LegacyP2pSale | utils.py:190-211 | fails for a missing or inactive listing, or a missing or short buyer; otherwise the buyer is debited the price and the seller, when it has a document, is credited it, a self-purchase changes nothing, no collection changes, no one else changes, every balance stays non-negative when they all were and the price is not negative, and the total is conserved unless the seller's document is missing, in which case the price vanishes |
| Ledger.BuyFromP2p | utils.py:190-211 | the new state is `LegacyP2pSale`'s, the listing is deactivated and the two records are appended; `Valid` is kept |
| Ledger.RemoveListing | utils.py:213-219 | reports success exactly for an active listing of the caller, and then only clears its flag |
| Ledger.RepriceListing | utils.py:221-227 | reports success exactly for an active listing of the caller with a different price, and changes only the price |
| Ledger.ListingLifecycle | utils.py:190-227 | remove and reprice never reactivate a listing or change its seller or card; a removed listing cannot be removed again, and a deactivated listing cannot be bought |
| Ledger.RemoveP2pListing | utils.py:213-219 | the result and new listings are `RemoveListing`'s |
| Ledger.UpdateP2pListingPrice | utils.py:221-227 | the result and new listings are `RepriceListing`'s |
| Shop.Upper | shop.py:78 | the upper-cased name has the same length |
| Shop.RarityTables | shop.py:17-40 | rarity `i` is entry `i`, names are distinct, the shop draws from rarities 1 to 8, each has a price range with `low <= high`, Limited Edition has none |
| Shop.UpperNamesDistinct | shop.py:17-27 | different rarities have different upper-case names |
| Shop.GetRarityEmoji | shop.py:43-47 | the emoji of the entry with that name, or the question mark when no entry has it |
| Shop.Available | shop.py:78 | exactly the catalog cards whose rarity is the upper-cased name |
| Shop.Present | shop.py:75-85 | the rarities of `order` with catalog cards, no more than `order` has |
| Shop.PresentIncreasing | shop.py:29 | over an increasing order the offered rarities are increasing |
| Shop.PresentSnoc | shop.py:75-85 | one more rarity adds itself exactly when it has catalog cards |
| Shop.ShopRarity | shop.py:28-40 | the `i`-th shop rarity is `i + 1`, and it has a price range that is not empty |
| Shop.RollStep | shop.py:80-85 | a chosen card at a price from its range extends a rolled shop by one slot |
| Shop.RollAdd | shop.py:75-85 | a rarity with catalog cards adds one slot priced within its range |
| Shop.RollSkip | shop.py:75-80 | a rarity without catalog cards adds nothing |
| Shop.RollShop | shop.py:74-85 | the generated cards are a daily shop: one catalog card per rarity with cards, in order, priced within its range |
| Shop.DailyShopSlots | shop.py:28-85 | a generated shop has at most 8 cards, each a catalog card of a shop rarity priced within that rarity's range |
| Shop.SlotOfPresent | shop.py:80-85 | each card of a generated shop is a slot of some shop rarity |
| Shop.DailyShopDistinctRarities | shop.py:28-85 | at most one card per rarity, never Limited Edition |
| Shop.DailyShopCoversCatalog | shop.py:75-85 | a rarity is offered exactly when the catalog has cards of it, so a rarity without cards is skipped |
| Shop.GetDailyShopItems | shop.py:66-92 | a stored shop for today is returned unchanged; otherwise a generated shop is returned and stored under today |
| Shop.ShopStableWithinDay | shop.py:66-92 | two calls on one day, even with a purchase between them, return the same cards and prices |
| Shop.ShopPurchase | shop.py:94-116 | the buyer is created first; no shop, card not in the shop, and short balance fail in that order and change nothing else; a purchase of the first shop entry with that id debits its price and appends the card |
| Shop.ShopPurchaseBalances | shop.py:94-116 | balances stay non-negative when they all were, the total drops by exactly the price paid, and, when today's shop was generated from the catalog, the card is a catalog card of a shop rarity priced within that rarity's range |
| Shop.BuyFromDefaultShop | shop.py:94-116 | the result and new table are `ShopPurchase`'s |
| Shop.CreateP2pListing | shop.py:119-136 | the seller is created; a card not in the collection is refused with no listing; otherwise a new active listing is inserted and the collection is untouched |
| Shop.GetP2pListings | shop.py:164-168 | exactly the listings whose active flag is set |
| Shop.P2pSale | shop.py:138-162 | a missing or inactive listing fails with no change; otherwise buyer and seller are created, a short buyer fails, and a sale applies the two updates |
| Shop.SaleUpdates | shop.py:158-159 | the two `update_one` calls of a sale touch only documents already in the table |
| Shop.SaleUpdatesEffect | shop.py:158-159 | the buyer is debited and gets the card, the seller is credited and loses all copies; when they are one user, only every copy is lost |
| Shop.SaleUpdatesTotal | shop.py:158-159 | the two sale updates leave the total alone |
| Shop.P2pSaleBalances | shop.py:158-162 | a sale conserves the total and the buyer's plus seller's balance, and keeps balances non-negative for a positive price |
| Shop.P2pSaleOwnership | shop.py:158-159 | between two users the buyer gains one copy and the seller is left with none |
| Shop.SelfPurchaseLosesCard | shop.py:158-159 | buying one's own listing succeeds, keeps the balance and removes every copy of the card |
| Shop.SaleDestroysDuplicates | shop.py:159 | the copies held by buyer and seller together drop by all the seller's copies less one |
| Shop.DuplicateCopiesLost | shop.py:159 | a seller with two copies who sells one keeps none |
| Shop.SaleOfUnheldCard | shop.py:138-159 | a seller who no longer holds the card still sells it, and one copy more exists afterwards |
| Shop.RemoveOne | shop.py:159 | removes one copy of a held card and nothing else |
| Shop.MoveOne | shop.py:158-159 | only buyer and seller change |
| Shop.MoveOneConserves | shop.py:158-159 | exactly one copy and exactly the price move from the seller to the buyer, and the total is unchanged |
| Shop.CorrectedP2pSale | shop.py:138-162 | as the sale, but refusing one's own listing and a card the seller no longer holds, and moving one copy |
| Shop.CorrectedP2pSaleConserves | shop.py:138-162 | buyer and seller together keep their cards and currency, one copy moves, no one else changes, the total is unchanged, and balances stay non-negative |
| Shop.CreateIfMissing | shop.py:146-153 | the table becomes `EnsureUser` of the old one: a missing user is created, an existing one is left alone |
| Shop.ApplySaleUpdates | shop.py:158-159 | the table becomes `SaleUpdates` of the old one |
| Shop.BuyFromP2p | shop.py:138-162 | the new table is `P2pSale`'s, and the listing is deactivated exactly on success; `Valid` is kept |
| Shop.BuyFromP2pCorrected | shop.py:138-162 | the new table is `CorrectedP2pSale`'s, and the listing is deactivated exactly on success; `Valid` is kept |

## Left out

- Demo mode: the `None` checks on the collections (shop.py:67-68, shop.py:139-140, shop.py:165-166) are not modelled. The database is always present.
- MongoDB mechanics (connections, `ObjectId` parsing, upserts beyond their effect) and the `_id` strings of listings: listing ids are naturals drawn from a counter.
- Cross-document atomicity and concurrency: the code does separate `update_one` calls, and the model runs them one after another.
- Transaction descriptions are free text in the source. The model carries what they name as structured `TxKind` values.
- The ISO-string branch of `can_claim_daily` (utils.py:66-67): timestamps are integer seconds throughout.
- `initialize_default_shop` and `get_default_shop_items` (utils.py:130-150): sample data seeding. The fixed-price shop is the constructor's argument.
- `get_rarity_color_text` and every Telegram handler in main.py and bot.py: display and transport only.
- The `username` argument is always `None` where the shop code creates users, as in the source. `Ledger.CreateUser` takes it as a parameter.
- `Shop.Upper`: upper-cases ASCII letters only, which covers every rarity name in the tables.
- Transfer guards: main.py:126-134 rejects a non-positive amount and a self-transfer before calling `transfer_wishes`. Those guards are hypotheses of `Ledger.TransferBalances`' solvency part, not preconditions of the transfer itself.
- Ledger.AdjustBalanceUndo: requires a non-negative starting balance. From a negative balance the undo can be refused.
- Ledger.UserTransactions: a negative pymongo `limit` is not modelled; the limit is a natural number.
- Default arguments: `limit=10` of `get_user_transactions` (utils.py:119) and `conversion_rate=10` of `add_wishes_for_stars` (utils.py:123) are plain parameters `limit` and `rate` that callers pass; only `claim_daily_reward`'s `amount=10` has a named constant, `DefaultDailyReward`.

## Findings

| source | as written | input that shows it | evidently intended | confidence | as-written member | corrected member |
|---|---|---|---|---|---|---|
| shop.py:158-159 | a buyer may buy their own listing; the `$pull` of the seller update also removes the copy the buyer update pushed | seller 2 buys their own active listing of card "c" and can afford its price | refuse a purchase of one's own listing | high, not executed | Shop.SelfPurchaseLosesCard | Shop.CorrectedP2pSale |
| shop.py:159 | `$pull` removes every copy of the sold card from the seller | seller 2 holds `["c", "c"]` and sells one copy to user 1 for 10 | move exactly one copy | medium, not executed | Shop.DuplicateCopiesLost | Shop.MoveOneConserves |
| shop.py:141-159 | the sale does not check that the seller still holds the card, so the buyer gets a copy that did not exist | seller lists their only copy twice; both listings are bought | refuse a sale of a card the seller no longer holds | medium, not executed | Shop.SaleOfUnheldCard | Shop.CorrectedP2pSaleConserves |
