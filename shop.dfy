/**
 * The daily shop and the P2P market of `shop.py`, the revision the bot runs.
 *
 * The rarity tables fix the nine rarities, the eight that the shop draws from
 * and the price range of each. Once a day the shop is rolled: for each rarity
 * in order, one random catalog card of that rarity (if there is any) at a
 * random price from the rarity's range; the result is stored under the day
 * and served unchanged for the rest of it. A purchase debits the stored price
 * and adds the card to the buyer's collection. A P2P listing needs the card in
 * the seller's collection; buying it moves the price to the seller and the
 * card to the buyer and deactivates the listing.
 *
 * `random.choice` and `random.randint` are nondeterministic choices within
 * their ranges; `master_cards` is the `catalog` parameter.
 */
module Shop {
  import opened Wrappers
  import opened Documents
  import Ledger

  // ---------------------------------------------------------------------------
  // Rarity and price tables

  /** An entry of `RARITY_MAP`: rarity number, display name, emoji. */
  datatype RarityEntry = RarityEntry(num: int, name: string, emoji: string)

  /** `RARITY_MAP`, in the dictionary's order: entry `i` is rarity `i + 1`. */
  const RarityMap: seq<RarityEntry> := [
    RarityEntry(1, "Common", "\U{26AA}\U{FE0F}"),
    RarityEntry(2, "Uncommon", "\U{1F7E2}"),
    RarityEntry(3, "Rare", "\U{1F535}"),
    RarityEntry(4, "Epic", "\U{1F7E3}"),
    RarityEntry(5, "Legendary", "\U{1F7E1}"),
    RarityEntry(6, "Mythic", "\U{1F3F5}"),
    RarityEntry(7, "Retro", "\U{1F365}"),
    RarityEntry(8, "Zenith", "\U{1FAA9}"),
    RarityEntry(9, "Limited Edition", "\U{1F36C}")
  ]

  /** `RARITY_ORDER`: the rarities the daily shop draws from; Limited Edition (9) is not one. */
  const RarityOrder: seq<int> := [1, 2, 3, 4, 5, 6, 7, 8]

  /** `RARITY_PRICE_RANGES`: the inclusive price range of each shop rarity. */
  const RarityPriceRanges: map<string, (int, int)> := map[
    "Common" := (5, 15),
    "Uncommon" := (15, 30),
    "Rare" := (30, 60),
    "Epic" := (60, 120),
    "Legendary" := (120, 200),
    "Mythic" := (50, 100),
    "Retro" := (250, 300),
    "Zenith" := (1000, 1200)
  ]

  /** What `get_rarity_emoji` returns for a name it does not know. */
  const UnknownEmoji: string := "\U{2753}"

  /** `RARITY_MAP[num][0]` */
  function RarityName(num: int): string
    requires 1 <= num <= |RarityMap|
  {
    RarityMap[num - 1].name
  }

  /** `str.upper` on the ASCII letters the rarity names are written in. */
  function UpperChar(c: char): char {
    if 'a' <= c <= 'z' then (c as int - 32) as char else c
  }

  function Upper(s: string): (r: string)
    ensures |r| == |s|
  {
    seq(|s|, i requires 0 <= i < |s| => UpperChar(s[i]))
  }

  /** The tables agree with each other: entry `i` of the map is rarity `i + 1`,
      names are distinct even in upper case, every shop rarity has a price
      range with `low <= high`, and Limited Edition has none. */
  lemma RarityTables()
    ensures forall i :: 0 <= i < |RarityMap| ==> RarityMap[i].num == i + 1
    ensures forall i, j :: 0 <= i < j < |RarityMap| ==> RarityMap[i].name != RarityMap[j].name
    ensures forall i :: 0 <= i < |RarityOrder| ==> RarityOrder[i] == i + 1
    ensures forall x :: x in RarityOrder <==> 1 <= x <= 8
    ensures forall num :: 1 <= num <= 8 ==> RarityName(num) in RarityPriceRanges
    ensures forall name :: name in RarityPriceRanges ==> RarityPriceRanges[name].0 <= RarityPriceRanges[name].1
    ensures RarityName(9) == "Limited Edition" && RarityName(9) !in RarityPriceRanges
  {
  }

  /** The `i`-th rarity the shop draws from is rarity `i + 1`, and it has a
      price range with `low <= high`. */
  lemma ShopRarity(i: int)
    requires 0 <= i < |RarityOrder|
    ensures RarityOrder[i] == i + 1
    ensures RarityName(i + 1) in RarityPriceRanges
    ensures RarityPriceRanges[RarityName(i + 1)].0 <= RarityPriceRanges[RarityName(i + 1)].1
  {
  }

  /** `get_rarity_emoji`: the emoji of the entry named `rarity`, or the
      question mark when no entry has that name. */
  method GetRarityEmoji(rarity: string) returns (emoji: string)
    ensures forall i :: 0 <= i < |RarityMap| && RarityMap[i].name == rarity ==> emoji == RarityMap[i].emoji
    ensures (forall i :: 0 <= i < |RarityMap| ==> RarityMap[i].name != rarity) ==> emoji == UnknownEmoji
  {
    RarityTables();
    var i := 0;
    while i < |RarityMap|
      invariant 0 <= i <= |RarityMap|
      invariant forall j :: 0 <= j < i ==> RarityMap[j].name != rarity
    {
      if RarityMap[i].name == rarity {
        return RarityMap[i].emoji;
      }
      i := i + 1;
    }
    return UnknownEmoji;
  }

  // ---------------------------------------------------------------------------
  // Daily shop generation

  /** `master_cards.find({"rarity": name.upper()})`: the catalog cards of one rarity. */
  function Available(catalog: seq<Card>, name: string): (r: seq<Card>)
    ensures forall c :: c in r <==> c in catalog && c.rarity == Upper(name)
  {
    if catalog == [] then []
    else
      var rest := Available(catalog[1..], name);
      assert forall c :: c in catalog <==> c == catalog[0] || c in catalog[1..];
      if catalog[0].rarity == Upper(name) then [catalog[0]] + rest else rest
  }

  /** The catalog has at least one card of rarity `num`. */
  predicate HasCards(catalog: seq<Card>, num: int) {
    1 <= num <= |RarityMap| && Available(catalog, RarityName(num)) != []
  }

  /** The rarities among `order` that have at least one catalog card, in order:
      the rarities a shop rolled over `order` offers a card of. */
  function Present(catalog: seq<Card>, order: seq<int>): (r: seq<int>)
    ensures |r| <= |order|
    ensures forall x :: x in r <==> x in order && HasCards(catalog, x)
  {
    if order == [] then []
    else
      var init := order[..|order| - 1];
      var last := order[|order| - 1];
      assert order == init + [last];
      Present(catalog, init) + if HasCards(catalog, last) then [last] else []
  }

  /** Over a strictly increasing `order`, `Present` is strictly increasing. */
  lemma {:induction false} PresentIncreasing(catalog: seq<Card>, order: seq<int>)
    requires forall i, j :: 0 <= i < j < |order| ==> order[i] < order[j]
    ensures forall i, j :: 0 <= i < j < |Present(catalog, order)| ==>
              Present(catalog, order)[i] < Present(catalog, order)[j]
  {
    if order != [] {
      var init := order[..|order| - 1];
      var last := order[|order| - 1];
      PresentIncreasing(catalog, init);
      var p := Present(catalog, init);
      assert Present(catalog, order) == p + if HasCards(catalog, last) then [last] else [];
      forall x | x in p
        ensures x < last
      {
        assert x in init;
        var i :| 0 <= i < |init| && init[i] == x;
        assert order[i] == x;
      }
      var q := Present(catalog, order);
      forall i, j | 0 <= i < j < |q|
        ensures q[i] < q[j]
      {
        if j < |p| {
          assert q[i] == p[i] && q[j] == p[j];
        } else {
          assert q[i] == p[i] && p[i] in p;
        }
      }
    }
  }

  /** Extending `order` by one rarity extends `Present` by that rarity when it
      has catalog cards. */
  lemma PresentSnoc(catalog: seq<Card>, order: seq<int>, x: int)
    ensures Present(catalog, order + [x]) == Present(catalog, order) + if HasCards(catalog, x) then [x] else []
  {
    assert (order + [x])[..|order|] == order;
  }

  /** Distinct rarities have distinct upper-case names. */
  lemma UpperNamesDistinct()
    ensures forall a, b :: 1 <= a < b <= |RarityMap| ==> Upper(RarityName(a)) != Upper(RarityName(b))
  {
    forall a, b | 1 <= a < b <= |RarityMap|
      ensures Upper(RarityName(a)) != Upper(RarityName(b))
    {
      UpperPrefix(a);
      UpperPrefix(b);
      assert Upper(RarityName(a))[..2] != Upper(RarityName(b))[..2];
    }
  }

  /** The first two letters of each upper-cased rarity name; no two agree. */
  const UpperPrefixes: seq<string> := ["CO", "UN", "RA", "EP", "LE", "MY", "RE", "ZE", "LI"]

  lemma UpperPrefix(num: int)
    requires 1 <= num <= |RarityMap|
    ensures |Upper(RarityName(num))| >= 2 && Upper(RarityName(num))[..2] == UpperPrefixes[num - 1]
  {
    var name := RarityName(num);
    assert UpperChar(name[0]) == UpperPrefixes[num - 1][0];
    assert UpperChar(name[1]) == UpperPrefixes[num - 1][1];
  }

  /** A card offered as rarity `num`: a catalog card of that rarity at a price
      from that rarity's range. */
  ghost predicate SlotFor(catalog: seq<Card>, num: int, slot: ShopCard) {
    && 1 <= num <= |RarityMap|
    && RarityName(num) in RarityPriceRanges
    && slot.card in catalog
    && slot.card.rarity == Upper(RarityName(num))
    && RarityPriceRanges[RarityName(num)].0 <= slot.price <= RarityPriceRanges[RarityName(num)].1
  }

  /** A card offered as one of the eight shop rarities. */
  ghost predicate ShopSlot(catalog: seq<Card>, slot: ShopCard) {
    exists num :: 1 <= num <= 8 && SlotFor(catalog, num, slot)
  }

  /** `cards` is a shop rolled over the rarities `order`: one slot for each
      rarity of `order` that has catalog cards, in order. */
  ghost predicate RolledOver(catalog: seq<Card>, order: seq<int>, cards: seq<ShopCard>) {
    var present := Present(catalog, order);
    |cards| == |present| && forall j :: 0 <= j < |cards| ==> SlotFor(catalog, present[j], cards[j])
  }

  /** One more rarity with catalog cards adds its slot to the shop. */
  lemma RollStep(catalog: seq<Card>, order: seq<int>, cards: seq<ShopCard>, num: int, slot: ShopCard)
    requires RolledOver(catalog, order, cards)
    requires SlotFor(catalog, num, slot)
    ensures RolledOver(catalog, order + [num], cards + [slot])
  {
    PresentSnoc(catalog, order, num);
    assert slot.card in Available(catalog, RarityName(num));
  }

  /** The shop rolled over the first `i + 1` rarities, when rarity `i + 1`
      has catalog cards and `slot` is one of them at a price in range. */
  lemma RollAdd(catalog: seq<Card>, i: int, cards: seq<ShopCard>, slot: ShopCard)
    requires 0 <= i < |RarityOrder|
    requires RolledOver(catalog, RarityOrder[..i], cards)
    requires slot.card in Available(catalog, RarityName(i + 1))
    requires RarityName(i + 1) in RarityPriceRanges
    requires RarityPriceRanges[RarityName(i + 1)].0 <= slot.price <= RarityPriceRanges[RarityName(i + 1)].1
    ensures RolledOver(catalog, RarityOrder[..i + 1], cards + [slot])
  {
    ShopRarity(i);
    assert RarityOrder[..i + 1] == RarityOrder[..i] + [i + 1];
    RollStep(catalog, RarityOrder[..i], cards, i + 1, slot);
  }

  /** The shop rolled over the first `i + 1` rarities, when rarity `i + 1`
      has no catalog cards. */
  lemma RollSkip(catalog: seq<Card>, i: int, cards: seq<ShopCard>)
    requires 0 <= i < |RarityOrder|
    requires RolledOver(catalog, RarityOrder[..i], cards)
    requires Available(catalog, RarityName(i + 1)) == []
    ensures RolledOver(catalog, RarityOrder[..i + 1], cards)
  {
    ShopRarity(i);
    assert RarityOrder[..i + 1] == RarityOrder[..i] + [i + 1];
    PresentSnoc(catalog, RarityOrder[..i], i + 1);
  }

  /** A shop `get_daily_shop_items` can generate from `catalog`. */
  ghost predicate IsDailyShop(catalog: seq<Card>, cards: seq<ShopCard>) {
    RolledOver(catalog, RarityOrder, cards)
  }

  /** The generation loop of `get_daily_shop_items`: for each rarity of
      `RARITY_ORDER` with catalog cards, a random one of them, priced by
      `random.randint(low, high)` over its rarity's range. */
  method RollShop(catalog: seq<Card>) returns (cards: seq<ShopCard>)
    ensures IsDailyShop(catalog, cards)
  {
    cards := [];
    var i := 0;
    while i < |RarityOrder|
      invariant 0 <= i <= |RarityOrder|
      invariant RolledOver(catalog, RarityOrder[..i], cards)
    {
      ShopRarity(i);
      // the rarity `RarityOrder[i]`, which is `i + 1`
      var name := RarityName(i + 1);
      var available := Available(catalog, name);
      if available != [] {
        var k :| 0 <= k < |available|;
        var range := RarityPriceRanges[name];
        var price :| range.0 <= price <= range.1;
        RollAdd(catalog, i, cards, ShopCard(available[k], price));
        cards := cards + [ShopCard(available[k], price)];
      } else {
        RollSkip(catalog, i, cards);
      }
      i := i + 1;
    }
    assert RarityOrder[..|RarityOrder|] == RarityOrder;
  }

  /** Every card of a generated shop is a catalog card of a shop rarity,
      priced within that rarity's range; there are at most eight. */
  lemma DailyShopSlots(catalog: seq<Card>, cards: seq<ShopCard>)
    requires IsDailyShop(catalog, cards)
    ensures |cards| <= |RarityOrder|
    ensures forall j :: 0 <= j < |cards| ==> ShopSlot(catalog, cards[j])
  {
    var present := Present(catalog, RarityOrder);
    RarityTables();
    forall j | 0 <= j < |cards|
      ensures ShopSlot(catalog, cards[j])
    {
      SlotOfPresent(catalog, cards, j);
    }
  }

  lemma SlotOfPresent(catalog: seq<Card>, cards: seq<ShopCard>, j: int)
    requires IsDailyShop(catalog, cards) && 0 <= j < |cards|
    ensures ShopSlot(catalog, cards[j])
  {
    RarityTables();
    var present := Present(catalog, RarityOrder);
    var k := present[j];
    assert k in present;
    assert SlotFor(catalog, k, cards[j]);
  }

  /** A generated shop holds at most one card of each rarity, and never a
      Limited Edition card. */
  lemma DailyShopDistinctRarities(catalog: seq<Card>, cards: seq<ShopCard>)
    requires IsDailyShop(catalog, cards)
    ensures forall i, j :: 0 <= i < j < |cards| ==> cards[i].card.rarity != cards[j].card.rarity
    ensures forall j :: 0 <= j < |cards| ==> cards[j].card.rarity != Upper("Limited Edition")
  {
    var present := Present(catalog, RarityOrder);
    PresentIncreasing(catalog, RarityOrder);
    UpperNamesDistinct();
    forall i, j | 0 <= i < j < |cards|
      ensures cards[i].card.rarity != cards[j].card.rarity
    {
      assert SlotFor(catalog, present[i], cards[i]);
      assert SlotFor(catalog, present[j], cards[j]);
    }
    RarityTables();
    forall j | 0 <= j < |cards|
      ensures cards[j].card.rarity != Upper("Limited Edition")
    {
      assert present[j] in present;
      assert SlotFor(catalog, present[j], cards[j]);
      assert RarityName(9) == "Limited Edition";
    }
  }

  /** A generated shop offers a card of a shop rarity exactly when the catalog
      has cards of that rarity. */
  lemma DailyShopCoversCatalog(catalog: seq<Card>, cards: seq<ShopCard>, num: int)
    requires IsDailyShop(catalog, cards)
    requires 1 <= num <= 8
    ensures (exists j :: 0 <= j < |cards| && cards[j].card.rarity == Upper(RarityName(num)))
            <==> Available(catalog, RarityName(num)) != []
  {
    var present := Present(catalog, RarityOrder);
    RarityTables();
    if Available(catalog, RarityName(num)) != [] {
      assert RarityOrder[num - 1] == num;
      assert num in present;
      var j :| 0 <= j < |present| && present[j] == num;
      assert SlotFor(catalog, present[j], cards[j]);
    }
    if j :| 0 <= j < |cards| && cards[j].card.rarity == Upper(RarityName(num)) {
      UpperNamesDistinct();
      assert SlotFor(catalog, present[j], cards[j]);
      assert present[j] in present;
      assert present[j] == num;
    }
  }

  /** `get_daily_shop_items` for day `today`: a stored shop is returned as it
      is; otherwise a shop is rolled and upserted under `today`. */
  method GetDailyShopItems(db: Db, catalog: seq<Card>, today: Date) returns (cards: seq<ShopCard>)
    modifies db`dailyShop
    ensures today in db.dailyShop && db.dailyShop[today] == cards
    ensures today in old(db.dailyShop) ==> cards == old(db.dailyShop)[today] && db.dailyShop == old(db.dailyShop)
    ensures today !in old(db.dailyShop) ==>
              IsDailyShop(catalog, cards) && db.dailyShop == old(db.dailyShop)[today := cards]
  {
    if today in db.dailyShop {
      return db.dailyShop[today];
    }
    cards := RollShop(catalog);
    db.dailyShop := db.dailyShop[today := cards];
  }

  /** A client of the shop: within one day the shop shows the same cards at the
      same prices, even when someone buys from it in between. */
  method ShopStableWithinDay(db: Db, catalog: seq<Card>, today: Date, uid: UserId, cardId: CardId, now: Time)
    returns (first: seq<ShopCard>, second: seq<ShopCard>)
    modifies db`dailyShop, db`users
    ensures today in db.dailyShop
    ensures first == second && db.dailyShop[today] == first
  {
    first := GetDailyShopItems(db, catalog, today);
    var _ := BuyFromDefaultShop(db, uid, cardId, today, now);
    second := GetDailyShopItems(db, catalog, today);
  }

  // ---------------------------------------------------------------------------
  // Buying from the daily shop

  datatype ShopError = ShopNotAvailable | CardNotInShop | NotEnoughCurrency

  /** `buy_from_default_shop`: the buyer is created first if missing (and stays
      created on failure); then today's shop, the card in it and the balance
      are checked in that order; a purchase debits the card's price and pushes
      the card onto the buyer's collection in one update. */
  function ShopPurchase(users: map<UserId, User>, dailyShop: map<Date, seq<ShopCard>>,
                        uid: UserId, cardId: CardId, today: Date, now: Time)
    : (r: (Result<ShopCard, ShopError>, map<UserId, User>))
    ensures var before := Ledger.EnsureUser(users, uid, None, now);
            && (r.0 == Err(ShopNotAvailable) <==> today !in dailyShop)
            && (r.0 == Err(CardNotInShop) <==> today in dailyShop && FindCard(dailyShop[today], cardId).None?)
            && (r.0 == Err(NotEnoughCurrency) <==>
                  today in dailyShop && FindCard(dailyShop[today], cardId).Some? &&
                  before[uid].wishBalance < FindCard(dailyShop[today], cardId).value.price)
            && (r.0.Err? ==> r.1 == before)
            && (r.0.Ok? ==> && today in dailyShop
                            && r.0.value in dailyShop[today]
                            && r.0.value == FindCard(dailyShop[today], cardId).value
                            && r.0.value.card.cardId == cardId
                            && r.1 == before[uid := before[uid].(wishBalance := before[uid].wishBalance - r.0.value.price,
                                                                  collection := before[uid].collection + [cardId])])
  {
    var before := Ledger.EnsureUser(users, uid, None, now);
    var user := before[uid];
    if today !in dailyShop then (Err(ShopNotAvailable), before)
    else
      match FindCard(dailyShop[today], cardId)
      case None => (Err(CardNotInShop), before)
      case Some(card) =>
        if user.wishBalance < card.price then (Err(NotEnoughCurrency), before)
        else (Ok(card), before[uid := user.(wishBalance := user.wishBalance - card.price,
                                             collection := user.collection + [cardId])])
  }

  /** A shop purchase never overdraws; a successful one removes the price from
      circulation and a failed one changes no balance. When today's shop was
      generated from the catalog, the price paid lies in the range of the
      card's rarity. */
  lemma ShopPurchaseBalances(users: map<UserId, User>, dailyShop: map<Date, seq<ShopCard>>,
                             uid: UserId, cardId: CardId, today: Date, now: Time, catalog: seq<Card>)
    ensures var r := ShopPurchase(users, dailyShop, uid, cardId, today, now);
            && (Solvent(users) ==> Solvent(r.1))
            && Total(r.1) == Total(users) - (if r.0.Ok? then r.0.value.price else 0)
            && (r.0.Ok? && IsDailyShop(catalog, dailyShop[today]) ==>
                  ShopSlot(catalog, r.0.value))
  {
    var r := ShopPurchase(users, dailyShop, uid, cardId, today, now);
    var before := Ledger.EnsureUser(users, uid, None, now);
    Ledger.EnsureUserBalances(users, uid, None, now);
    if r.0.Ok? {
      var user := before[uid];
      TotalUpdate(before, uid, r.1[uid]);
      assert r.1 == before[uid := r.1[uid]];
      if IsDailyShop(catalog, dailyShop[today]) {
        DailyShopSlots(catalog, dailyShop[today]);
        var j :| 0 <= j < |dailyShop[today]| && dailyShop[today][j] == r.0.value;
      }
    }
  }

  method BuyFromDefaultShop(db: Db, uid: UserId, cardId: CardId, today: Date, now: Time)
    returns (r: Result<ShopCard, ShopError>)
    modifies db`users
    ensures (r, db.users) == ShopPurchase(old(db.users), db.dailyShop, uid, cardId, today, now)
  {
    var user := Ledger.GetUser(db.users, uid);
    if user.None? {
      var _ := Ledger.CreateUser(db, uid, None, now);
    }
    var buyer := db.users[uid];
    if today !in db.dailyShop {
      return Err(ShopNotAvailable);
    }
    var card := FindCard(db.dailyShop[today], cardId);
    if card.None? {
      return Err(CardNotInShop);
    }
    if buyer.wishBalance < card.value.price {
      return Err(NotEnoughCurrency);
    }
    db.users := db.users[uid := buyer.(wishBalance := buyer.wishBalance - card.value.price,
                                       collection := buyer.collection + [cardId])];
    r := Ok(card.value);
  }

  // ---------------------------------------------------------------------------
  // P2P market

  datatype ListingError = NotOwned

  /** `create_p2p_listing`: the seller is created first if missing; a card not
      in the seller's collection is refused; otherwise a new active listing is
      inserted. The collection itself is not touched. */
  method CreateP2pListing(db: Db, uid: UserId, cardId: CardId, price: int, now: Time)
    returns (r: Result<ListingId, ListingError>)
    requires db.Valid()
    modifies db`users, db`listings, db`nextListingId
    ensures db.Valid()
    ensures db.users == Ledger.EnsureUser(old(db.users), uid, None, now)
    ensures r.Err? <==> cardId !in db.users[uid].collection
    ensures r.Err? ==> db.listings == old(db.listings)
    ensures r.Ok? ==> && r.value !in old(db.listings)
                      && db.listings == old(db.listings)[r.value := Listing(r.value, uid, cardId, price, true, now)]
  {
    var user := Ledger.CreateUser(db, uid, None, now);
    if cardId !in user.collection {
      return Err(NotOwned);
    }
    var id := Ledger.CreateP2pListing(db, uid, cardId, price, now);
    r := Ok(id);
  }

  /** `get_p2p_listings`: exactly the listings whose active flag is set. */
  method GetP2pListings(db: Db) returns (r: seq<Listing>)
    requires db.Valid()
    ensures forall l :: l in r <==> l.id in db.listings && db.listings[l.id] == l && l.isActive
  {
    r := Ledger.GetListings(db, Ledger.AllActive);
  }

  datatype SaleError = ListingNotFound | NotEnoughFunds | SelfPurchase | OwnershipInconsistency

  /** `buy_from_p2p` as written: for an active listing, buyer and seller are
      created if missing; a buyer who cannot pay is refused; otherwise one
      update debits the buyer and pushes the card, then a second update credits
      the seller and pulls every copy of the card from the seller. */
  function P2pSale(users: map<UserId, User>, listings: map<ListingId, Listing>,
                   buyer: UserId, lid: ListingId, now: Time)
    : (r: (Result<Listing, SaleError>, map<UserId, User>))
    ensures r.0 == Err(ListingNotFound) <==> lid !in listings || !listings[lid].isActive
    ensures r.0 == Err(ListingNotFound) ==> r.1 == users
    ensures r.0 != Err(ListingNotFound) ==>
              var seller := listings[lid].sellerId;
              var created := Ledger.EnsureUser(Ledger.EnsureUser(users, buyer, None, now), seller, None, now);
              && (r.0 == Err(NotEnoughFunds) <==> created[buyer].wishBalance < listings[lid].price)
              && (r.0.Err? ==> r.1 == created)
              && (r.0.Ok? ==> r.0.value == listings[lid]
                              && r.1 == SaleUpdates(created, buyer, seller, listings[lid].cardId, listings[lid].price))
    ensures r.0 != Err(SelfPurchase) && r.0 != Err(OwnershipInconsistency)
  {
    if lid !in listings || !listings[lid].isActive then (Err(ListingNotFound), users)
    else
      var listing := listings[lid];
      var withBuyer := Ledger.EnsureUser(users, buyer, None, now);
      var created := Ledger.EnsureUser(withBuyer, listing.sellerId, None, now);
      if created[buyer].wishBalance < listing.price then (Err(NotEnoughFunds), created)
      else (Ok(listing), SaleUpdates(created, buyer, listing.sellerId, listing.cardId, listing.price))
  }

  /** The two `update_one` calls of a P2P sale, applied in order. */
  function SaleUpdates(users: map<UserId, User>, buyer: UserId, seller: UserId, cardId: CardId, price: int)
    : (r: map<UserId, User>)
    requires buyer in users && seller in users
    ensures r.Keys == users.Keys
  {
    var afterBuyer := Push(Inc(users, buyer, -price), buyer, cardId);
    Pull(Inc(afterBuyer, seller, price), seller, cardId)
  }

  /** What the two updates do: between two users, the buyer is debited and
      gets the card, the seller is credited and loses every copy of it; when
      buyer and seller are one user the balance is unchanged and every copy,
      the pushed one included, is gone. Nobody else changes. */
  lemma SaleUpdatesEffect(users: map<UserId, User>, buyer: UserId, seller: UserId, cardId: CardId, price: int)
    requires buyer in users && seller in users
    ensures var r := SaleUpdates(users, buyer, seller, cardId, price);
            && (forall u :: u in users && u != buyer && u != seller ==> r[u] == users[u])
            && (buyer != seller ==>
                  && r[buyer] == users[buyer].(wishBalance := users[buyer].wishBalance - price,
                                               collection := users[buyer].collection + [cardId])
                  && r[seller] == users[seller].(wishBalance := users[seller].wishBalance + price,
                                                 collection := RemoveAll(users[seller].collection, cardId)))
            && (buyer == seller ==>
                  r[buyer] == users[buyer].(collection := RemoveAll(users[buyer].collection + [cardId], cardId)))
  {
  }

  /** A sale as written conserves the currency in circulation and the sum of
      the buyer's and the seller's balances; with a positive price no balance
      goes below zero. */
  lemma P2pSaleBalances(users: map<UserId, User>, listings: map<ListingId, Listing>,
                        buyer: UserId, lid: ListingId, now: Time)
    requires P2pSale(users, listings, buyer, lid, now).0.Ok?
    ensures var seller := listings[lid].sellerId;
            var created := Ledger.EnsureUser(Ledger.EnsureUser(users, buyer, None, now), seller, None, now);
            var after := P2pSale(users, listings, buyer, lid, now).1;
            && Total(after) == Total(users)
            && after[buyer].wishBalance + after[seller].wishBalance
               == created[buyer].wishBalance + created[seller].wishBalance
            && (Solvent(users) && listings[lid].price > 0 ==> Solvent(after))
  {
    var listing := listings[lid];
    var withBuyer := Ledger.EnsureUser(users, buyer, None, now);
    var created := Ledger.EnsureUser(withBuyer, listing.sellerId, None, now);
    Ledger.EnsureUserBalances(users, buyer, None, now);
    Ledger.EnsureUserBalances(withBuyer, listing.sellerId, None, now);
    SaleUpdatesTotal(created, buyer, listing.sellerId, listing.cardId, listing.price);
    SaleUpdatesEffect(created, buyer, listing.sellerId, listing.cardId, listing.price);
  }

  lemma SaleUpdatesTotal(users: map<UserId, User>, buyer: UserId, seller: UserId, cardId: CardId, price: int)
    requires buyer in users && seller in users
    ensures Total(SaleUpdates(users, buyer, seller, cardId, price)) == Total(users)
  {
    BuyerUpdateTotal(users, buyer, cardId, price);
    SellerUpdateTotal(Push(Inc(users, buyer, -price), buyer, cardId), seller, cardId, price);
  }

  /** The buyer's update takes exactly the price out of the total. */
  lemma BuyerUpdateTotal(users: map<UserId, User>, buyer: UserId, cardId: CardId, price: int)
    requires buyer in users
    ensures Total(Push(Inc(users, buyer, -price), buyer, cardId)) == Total(users) - price
  {
    TotalInc(users, buyer, -price);
    TotalPush(Inc(users, buyer, -price), buyer, cardId);
  }

  /** The seller's update puts exactly the price back into the total. */
  lemma SellerUpdateTotal(users: map<UserId, User>, seller: UserId, cardId: CardId, price: int)
    requires seller in users
    ensures Total(Pull(Inc(users, seller, price), seller, cardId)) == Total(users) + price
  {
    TotalInc(users, seller, price);
    TotalPull(Inc(users, seller, price), seller, cardId);
  }

  /** A sale as written between two different users: the buyer gains one copy
      of the card, and the seller is left with none, however many copies the
      seller held. */
  lemma P2pSaleOwnership(users: map<UserId, User>, listings: map<ListingId, Listing>,
                         buyer: UserId, lid: ListingId, now: Time)
    requires P2pSale(users, listings, buyer, lid, now).0.Ok?
    requires buyer != listings[lid].sellerId
    ensures var card := listings[lid].cardId;
            var created := Ledger.EnsureUser(Ledger.EnsureUser(users, buyer, None, now), listings[lid].sellerId, None, now);
            var after := P2pSale(users, listings, buyer, lid, now).1;
            && multiset(after[buyer].collection) == multiset(created[buyer].collection) + multiset{card}
            && card !in after[listings[lid].sellerId].collection
  {
    SaleUpdatesEffect(Ledger.EnsureUser(Ledger.EnsureUser(users, buyer, None, now), listings[lid].sellerId, None, now), buyer, listings[lid].sellerId, listings[lid].cardId, listings[lid].price);
  }

  // ---------------------------------------------------------------------------
  // Discrepancies of the sale as written, and the corrected sale

  /** Buying one's own listing as written: the `$pull` of the second update
      also removes the copy the first update pushed, so a user who can afford
      their own listing pays nothing, gets nothing, and loses every copy of
      the card. */
  lemma SelfPurchaseLosesCard(users: map<UserId, User>, listings: map<ListingId, Listing>,
                              lid: ListingId, now: Time)
    requires lid in listings && listings[lid].isActive
    requires Ledger.EnsureUser(users, listings[lid].sellerId, None, now)[listings[lid].sellerId].wishBalance
             >= listings[lid].price
    ensures var seller := listings[lid].sellerId;
            var r := P2pSale(users, listings, seller, lid, now);
            && r.0.Ok?
            && listings[lid].cardId !in r.1[seller].collection
            && r.1[seller].wishBalance == Ledger.EnsureUser(users, seller, None, now)[seller].wishBalance
  {
    var seller := listings[lid].sellerId;
    Ledger.EnsureUserIdempotent(users, seller, None, now, None, now);
    var created := Ledger.EnsureUser(users, seller, None, now);
    SaleUpdatesEffect(created, seller, seller, listings[lid].cardId, listings[lid].price);
  }

  /** Selling one copy as written destroys the seller's other copies: the
      copies of the card held by buyer and seller together drop from
      `m + b` to `b + 1`, where `m` is what the seller held. */
  lemma SaleDestroysDuplicates(users: map<UserId, User>, listings: map<ListingId, Listing>,
                               buyer: UserId, lid: ListingId, now: Time)
    requires P2pSale(users, listings, buyer, lid, now).0.Ok?
    requires buyer != listings[lid].sellerId
    ensures var card := listings[lid].cardId;
            var seller := listings[lid].sellerId;
            var created := Ledger.EnsureUser(Ledger.EnsureUser(users, buyer, None, now), seller, None, now);
            var after := P2pSale(users, listings, buyer, lid, now).1;
            multiset(after[buyer].collection)[card] + multiset(after[seller].collection)[card]
            == multiset(created[buyer].collection)[card] + multiset(created[seller].collection)[card]
               + 1 - multiset(created[seller].collection)[card]
  {
    SaleUpdatesEffect(Ledger.EnsureUser(Ledger.EnsureUser(users, buyer, None, now), listings[lid].sellerId, None, now), buyer, listings[lid].sellerId, listings[lid].cardId, listings[lid].price);
  }

  /** The same on concrete documents: a seller holding two copies of "c" who
      sells one is left with none, and the buyer holds one. */
  lemma DuplicateCopiesLost()
    ensures var users := map[1 := User(None, 100, None, 0, []), 2 := User(None, 0, None, 0, ["c", "c"])];
            var listings := map[0 := Listing(0, 2, "c", 10, true, 0)];
            var r := P2pSale(users, listings, 1, 0, 0);
            && r.0.Ok?
            && r.1[1].collection == ["c"]
            && r.1[2].collection == []
  {
    var users := map[1 := User(None, 100, None, 0, []), 2 := User(None, 0, None, 0, ["c", "c"])];
    var c: seq<CardId> := ["c", "c"];
    assert RemoveAll(c, "c") == RemoveAll(c[1..], "c");
    assert Ledger.EnsureUser(Ledger.EnsureUser(users, 1, None, 0), 2, None, 0) == users;
    SaleUpdatesEffect(users, 1, 2, "c", 10);
  }

  /** A listing stays active after the seller has parted with the card (sold
      it through another listing of the same copy, say), and a sale as
      written still succeeds: the buyer gets a copy that came from nowhere. */
  lemma SaleOfUnheldCard(users: map<UserId, User>, listings: map<ListingId, Listing>,
                         buyer: UserId, lid: ListingId, now: Time)
    requires P2pSale(users, listings, buyer, lid, now).0.Ok?
    requires buyer != listings[lid].sellerId
    requires listings[lid].cardId !in
             Ledger.EnsureUser(Ledger.EnsureUser(users, buyer, None, now), listings[lid].sellerId, None, now)[listings[lid].sellerId].collection
    ensures var card := listings[lid].cardId;
            var seller := listings[lid].sellerId;
            var created := Ledger.EnsureUser(Ledger.EnsureUser(users, buyer, None, now), seller, None, now);
            var after := P2pSale(users, listings, buyer, lid, now).1;
            multiset(after[buyer].collection) + multiset(after[seller].collection)
            == multiset(created[buyer].collection) + multiset(created[seller].collection) + multiset{card}
  {
    var seller := listings[lid].sellerId;
    var created := Ledger.EnsureUser(Ledger.EnsureUser(users, buyer, None, now), seller, None, now);
    var held := created[seller].collection;
    var left := RemoveAll(held, listings[lid].cardId);
    SaleUpdatesEffect(created, buyer, seller, listings[lid].cardId, listings[lid].price);
    assert multiset(left) == multiset(held) by {
      forall y ensures multiset(left)[y] == multiset(held)[y] {
      }
    }
  }

  /** The first occurrence of `x` removed from `s`. */
  function RemoveOne(s: seq<CardId>, x: CardId): (r: seq<CardId>)
    ensures x in s ==> multiset(r) == multiset(s) - multiset{x}
    ensures x !in s ==> r == s
  {
    if s == [] then []
    else
      assert s == [s[0]] + s[1..];
      if s[0] == x then s[1..] else [s[0]] + RemoveOne(s[1..], x)
  }

  /** Moving one copy of a card from `seller` to `buyer` against `price`. */
  function MoveOne(users: map<UserId, User>, buyer: UserId, seller: UserId, cardId: CardId, price: int)
    : (r: map<UserId, User>)
    requires buyer in users && seller in users && buyer != seller
    ensures r.Keys == users.Keys
    ensures forall u :: u in users && u != buyer && u != seller ==> r[u] == users[u]
  {
    var b := users[buyer];
    var s := users[seller];
    users[buyer := b.(wishBalance := b.wishBalance - price, collection := b.collection + [cardId])]
         [seller := s.(wishBalance := s.wishBalance + price, collection := RemoveOne(s.collection, cardId))]
  }

  /** A move keeps the seller's and the buyer's cards and currency together
      unchanged: one copy of the card and exactly the price change hands. */
  lemma MoveOneConserves(users: map<UserId, User>, buyer: UserId, seller: UserId, cardId: CardId, price: int)
    requires buyer in users && seller in users && buyer != seller
    requires cardId in users[seller].collection
    ensures var r := MoveOne(users, buyer, seller, cardId, price);
            && multiset(r[buyer].collection) + multiset(r[seller].collection)
               == multiset(users[buyer].collection) + multiset(users[seller].collection)
            && multiset(r[buyer].collection) == multiset(users[buyer].collection) + multiset{cardId}
            && multiset(r[seller].collection) == multiset(users[seller].collection) - multiset{cardId}
            && r[buyer].wishBalance == users[buyer].wishBalance - price
            && r[seller].wishBalance == users[seller].wishBalance + price
            && Total(r) == Total(users)
  {
    MoveOneTotal(users, buyer, seller, cardId, price);
  }

  lemma MoveOneTotal(users: map<UserId, User>, buyer: UserId, seller: UserId, cardId: CardId, price: int)
    requires buyer in users && seller in users && buyer != seller
    ensures Total(MoveOne(users, buyer, seller, cardId, price)) == Total(users)
  {
    var b := users[buyer];
    var s := users[seller];
    var b' := b.(wishBalance := b.wishBalance - price, collection := b.collection + [cardId]);
    var s' := s.(wishBalance := s.wishBalance + price, collection := RemoveOne(s.collection, cardId));
    TotalUpdateTwo(users, buyer, b', seller, s');
  }

  /** The corrected sale: a user cannot buy their own listing, the
      seller must still hold the card, and exactly one copy moves from the
      seller to the buyer. */
  function CorrectedP2pSale(users: map<UserId, User>, listings: map<ListingId, Listing>,
                            buyer: UserId, lid: ListingId, now: Time)
    : (r: (Result<Listing, SaleError>, map<UserId, User>))
    ensures r.0 == Err(ListingNotFound) <==> lid !in listings || !listings[lid].isActive
    ensures r.0 == Err(SelfPurchase) <==> lid in listings && listings[lid].isActive && listings[lid].sellerId == buyer
    ensures r.0 == Err(ListingNotFound) || r.0 == Err(SelfPurchase) ==> r.1 == users
    ensures lid in listings && listings[lid].isActive && listings[lid].sellerId != buyer ==>
              var seller := listings[lid].sellerId;
              var created := Ledger.EnsureUser(Ledger.EnsureUser(users, buyer, None, now), seller, None, now);
              && (r.0 == Err(NotEnoughFunds) <==> created[buyer].wishBalance < listings[lid].price)
              && (r.0 == Err(OwnershipInconsistency) <==>
                    created[buyer].wishBalance >= listings[lid].price && listings[lid].cardId !in created[seller].collection)
              && (r.0.Err? ==> r.1 == created)
              && (r.0.Ok? ==> r.0.value == listings[lid]
                              && listings[lid].cardId in created[seller].collection
                              && r.1 == MoveOne(created, buyer, seller, listings[lid].cardId, listings[lid].price))
  {
    if lid !in listings || !listings[lid].isActive then (Err(ListingNotFound), users)
    else
      var listing := listings[lid];
      if listing.sellerId == buyer then (Err(SelfPurchase), users)
      else
        var withBuyer := Ledger.EnsureUser(users, buyer, None, now);
        var created := Ledger.EnsureUser(withBuyer, listing.sellerId, None, now);
        if created[buyer].wishBalance < listing.price then (Err(NotEnoughFunds), created)
        else if listing.cardId !in created[listing.sellerId].collection then (Err(OwnershipInconsistency), created)
        else (Ok(listing), MoveOne(created, buyer, listing.sellerId, listing.cardId, listing.price))
  }

  /** The corrected sale moves exactly one copy of the card and exactly the
      price: buyer and seller together hold the same cards and the same
      currency as before, the buyer gains the card and the seller loses one
      copy, every other user is untouched, and with a positive price no
      balance goes below zero. */
  lemma CorrectedP2pSaleConserves(users: map<UserId, User>, listings: map<ListingId, Listing>,
                                  buyer: UserId, lid: ListingId, now: Time)
    requires CorrectedP2pSale(users, listings, buyer, lid, now).0.Ok?
    ensures var seller := listings[lid].sellerId;
            var card := listings[lid].cardId;
            var created := Ledger.EnsureUser(Ledger.EnsureUser(users, buyer, None, now), seller, None, now);
            var after := CorrectedP2pSale(users, listings, buyer, lid, now).1;
            && buyer != seller
            && multiset(after[buyer].collection) + multiset(after[seller].collection)
               == multiset(created[buyer].collection) + multiset(created[seller].collection)
            && multiset(after[buyer].collection)[card] == multiset(created[buyer].collection)[card] + 1
            && multiset(after[seller].collection)[card] == multiset(created[seller].collection)[card] - 1
            && after[buyer].wishBalance + after[seller].wishBalance
               == created[buyer].wishBalance + created[seller].wishBalance
            && (forall u :: u in users && u != buyer && u != seller ==> after[u] == users[u])
            && Total(after) == Total(users)
            && (Solvent(users) && listings[lid].price > 0 ==> Solvent(after))
  {
    var listing := listings[lid];
    var seller := listing.sellerId;
    var withBuyer := Ledger.EnsureUser(users, buyer, None, now);
    var created := Ledger.EnsureUser(withBuyer, seller, None, now);
    Ledger.EnsureUserBalances(users, buyer, None, now);
    Ledger.EnsureUserBalances(withBuyer, seller, None, now);
    MoveOneConserves(created, buyer, seller, listing.cardId, listing.price);
  }

  /** `if not user: create_user(uid)` as the sale does it for buyer and seller. */
  method CreateIfMissing(db: Db, uid: UserId, now: Time)
    modifies db`users
    ensures db.users == Ledger.EnsureUser(old(db.users), uid, None, now)
  {
    var user := Ledger.GetUser(db.users, uid);
    if user.None? {
      var _ := Ledger.CreateUser(db, uid, None, now);
    }
  }

  /** The two `update_one` calls of the sale, one after the other. */
  method ApplySaleUpdates(db: Db, buyer: UserId, seller: UserId, cardId: CardId, price: int)
    requires buyer in db.users && seller in db.users
    modifies db`users
    ensures db.users == SaleUpdates(old(db.users), buyer, seller, cardId, price)
  {
    db.users := Push(Inc(db.users, buyer, -price), buyer, cardId);
    db.users := Pull(Inc(db.users, seller, price), seller, cardId);
  }

  /** `buy_from_p2p` as the bot runs it. */
  method BuyFromP2p(db: Db, buyer: UserId, lid: ListingId, now: Time) returns (r: Result<Listing, SaleError>)
    requires db.Valid()
    modifies db`users, db`listings
    ensures db.Valid()
    ensures (r, db.users) == P2pSale(old(db.users), old(db.listings), buyer, lid, now)
    ensures r.Ok? ==> db.listings == old(db.listings)[lid := r.value.(isActive := false)]
    ensures r.Err? ==> db.listings == old(db.listings)
  {
    if lid !in db.listings || !db.listings[lid].isActive {
      return Err(ListingNotFound);
    }
    var listing := db.listings[lid];
    CreateIfMissing(db, buyer, now);
    CreateIfMissing(db, listing.sellerId, now);
    if db.users[buyer].wishBalance < listing.price {
      return Err(NotEnoughFunds);
    }
    ApplySaleUpdates(db, buyer, listing.sellerId, listing.cardId, listing.price);
    DeactivateKeyed(db.listings, db.nextListingId, lid);
    db.listings := db.listings[lid := listing.(isActive := false)];
    r := Ok(listing);
  }

  /** The corrected `buy_from_p2p`: the sale `CorrectedP2pSale` describes, with
      the listing deactivated on success. */
  method BuyFromP2pCorrected(db: Db, buyer: UserId, lid: ListingId, now: Time) returns (r: Result<Listing, SaleError>)
    requires db.Valid()
    modifies db`users, db`listings
    ensures db.Valid()
    ensures (r, db.users) == CorrectedP2pSale(old(db.users), old(db.listings), buyer, lid, now)
    ensures r.Ok? ==> db.listings == old(db.listings)[lid := r.value.(isActive := false)]
    ensures r.Err? ==> db.listings == old(db.listings)
  {
    if lid !in db.listings || !db.listings[lid].isActive {
      return Err(ListingNotFound);
    }
    var listing := db.listings[lid];
    if listing.sellerId == buyer {
      return Err(SelfPurchase);
    }
    var _ := Ledger.CreateUser(db, buyer, None, now);
    var _ := Ledger.CreateUser(db, listing.sellerId, None, now);
    var b := db.users[buyer];
    var s := db.users[listing.sellerId];
    if b.wishBalance < listing.price {
      return Err(NotEnoughFunds);
    }
    if listing.cardId !in s.collection {
      return Err(OwnershipInconsistency);
    }
    db.users := MoveOne(db.users, buyer, listing.sellerId, listing.cardId, listing.price);
    DeactivateKeyed(db.listings, db.nextListingId, lid);
    db.listings := db.listings[lid := listing.(isActive := false)];
    r := Ok(listing);
  }
}
