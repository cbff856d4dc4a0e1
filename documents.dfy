/**
 * The documents of the bot's database and the object that holds its collections.
 *
 * Every collection the ledger and the shop touch (`users`, `transactions`,
 * `default_shop`, `daily_shop`, `p2p_listings`) is a field of `Db`; the
 * operations in the Ledger and Shop modules change these fields in place, as
 * the Python functions change the collections with `update_one` and
 * `insert_one`. This module also holds the field updates those operations are
 * built from (`$inc`, `$push`, `$pull` on a user document) and the total of all
 * balances that the conservation lemmas are stated with.
 */
module Documents {
  import opened Wrappers

  /** A Telegram user id. */
  type UserId = int
  type CardId = string
  /** The id the database gives a new listing document. */
  type ListingId = nat
  /** A calendar day (the ISO date string the shop is keyed by). */
  type Date = int
  /** A UTC instant, in seconds. */
  type Time = int

  /** A document of the `users` collection. A user created by the ledger has no
      `collection` field; reading it with a default of `[]` is the same as an
      empty collection here. */
  datatype User = User(
    username: Option<string>,
    wishBalance: int,
    lastDailyClaim: Option<Time>,
    createdAt: Time,
    collection: seq<CardId>)

  /** The document `create_user` inserts. */
  function NewUser(username: Option<string>, now: Time): (u: User)
    ensures u.wishBalance == 0 && u.lastDailyClaim == None && u.collection == []
  {
    User(username, 0, None, now, [])
  }

  /** The `type` of a transaction record, carrying what its description names. */
  datatype TxKind =
    | DailyReward
    | TransferOut(to: UserId)
    | TransferIn(from: UserId)
    | StarsPurchase(stars: int)
    | ShopPurchase(cardName: string)
    | P2pPurchase(boughtCard: CardId)
    | P2pSale(soldCard: CardId)

  /** A document of the append-only `transactions` collection. */
  datatype Tx = Tx(userId: UserId, kind: TxKind, amount: int, timestamp: Time)

  /** A document of the `master_cards` catalog. */
  datatype Card = Card(cardId: CardId, name: string, rarity: string, series: string)

  /** A card offered in a shop together with its price. */
  datatype ShopCard = ShopCard(card: Card, price: int)

  /** A document of the `p2p_listings` collection. */
  datatype Listing = Listing(
    id: ListingId,
    sellerId: UserId,
    cardId: CardId,
    price: int,
    isActive: bool,
    createdAt: Time)

  /** Every listing is stored under its own id. */
  ghost predicate KeyedById(listings: map<ListingId, Listing>) {
    forall id :: id in listings ==> listings[id].id == id
  }

  /** Listings are keyed by id, and the ids below `next` are the only ones
      handed out so far. */
  ghost predicate ListingsKeyed(listings: map<ListingId, Listing>, next: nat) {
    KeyedById(listings) && forall id :: id in listings ==> id < next
  }

  /** Clearing a listing's active flag keeps the listings keyed. */
  lemma DeactivateKeyed(listings: map<ListingId, Listing>, next: nat, lid: ListingId)
    requires ListingsKeyed(listings, next) && lid in listings
    ensures ListingsKeyed(listings[lid := listings[lid].(isActive := false)], next)
  {
  }

  /** The database: one field per collection. */
  class Db {
    var users: map<UserId, User>
    var txs: seq<Tx>
    /** The fixed-price `default_shop` collection read by the older shop code. */
    var defaultShop: seq<ShopCard>
    /** The `daily_shop` collection: the cards of each day's shop. */
    var dailyShop: map<Date, seq<ShopCard>>
    var listings: map<ListingId, Listing>
    /** Where the next inserted listing's id comes from. */
    var nextListingId: nat

    ghost predicate Valid()
      reads this
    {
      ListingsKeyed(listings, nextListingId)
    }

    constructor (defaultShop: seq<ShopCard>)
      ensures Valid()
      ensures users == map[] && txs == [] && listings == map[] && dailyShop == map[]
      ensures this.defaultShop == defaultShop
    {
      users := map[];
      txs := [];
      this.defaultShop := defaultShop;
      dailyShop := map[];
      listings := map[];
      nextListingId := 0;
    }
  }

  /** The first card with id `cardId`, as `find_one({"card_id": ...})` or
      `next(c for c in cards if c["card_id"] == ...)` finds it. */
  function FindCard(cards: seq<ShopCard>, cardId: CardId): (r: Option<ShopCard>)
    ensures r.None? <==> forall i :: 0 <= i < |cards| ==> cards[i].card.cardId != cardId
    ensures r.Some? ==> exists i :: 0 <= i < |cards| && cards[i] == r.value
                                    && (forall j :: 0 <= j < i ==> cards[j].card.cardId != cardId)
    ensures r.Some? ==> r.value.card.cardId == cardId
  {
    if cards == [] then None
    else if cards[0].card.cardId == cardId then Some(cards[0])
    else
      var r := FindCard(cards[1..], cardId);
      if r.Some? then
        ghost var i :| 0 <= i < |cards[1..]| && cards[1..][i] == r.value
                       && (forall j :: 0 <= j < i ==> cards[1..][j].card.cardId != cardId);
        assert cards[i + 1] == r.value;
        r
      else r
  }

  // ---------------------------------------------------------------------------
  // Field updates on one user document. An `update_one` whose filter matches no
  // document changes nothing, so each of these leaves `users` alone when `uid`
  // is absent.

  /** `{"$inc": {"wish_balance": delta}}` */
  function Inc(users: map<UserId, User>, uid: UserId, delta: int): (r: map<UserId, User>)
    ensures r.Keys == users.Keys
    ensures uid in users ==> r[uid] == users[uid].(wishBalance := users[uid].wishBalance + delta)
    ensures forall u :: u in users && u != uid ==> r[u] == users[u]
  {
    if uid in users then users[uid := users[uid].(wishBalance := users[uid].wishBalance + delta)] else users
  }

  /** `{"$push": {"collection": card}}` */
  function Push(users: map<UserId, User>, uid: UserId, card: CardId): (r: map<UserId, User>)
    ensures r.Keys == users.Keys
    ensures uid in users ==> r[uid] == users[uid].(collection := users[uid].collection + [card])
    ensures forall u :: u in users && u != uid ==> r[u] == users[u]
  {
    if uid in users then users[uid := users[uid].(collection := users[uid].collection + [card])] else users
  }

  /** `{"$pull": {"collection": card}}`: removes every element equal to `card`. */
  function Pull(users: map<UserId, User>, uid: UserId, card: CardId): (r: map<UserId, User>)
    ensures r.Keys == users.Keys
    ensures uid in users ==> r[uid] == users[uid].(collection := RemoveAll(users[uid].collection, card))
    ensures forall u :: u in users && u != uid ==> r[u] == users[u]
  {
    if uid in users then users[uid := users[uid].(collection := RemoveAll(users[uid].collection, card))] else users
  }

  /** The sequence `s` without any occurrence of `x`, the rest in order. */
  function RemoveAll(s: seq<CardId>, x: CardId): (r: seq<CardId>)
    ensures x !in r
    ensures forall y :: y != x ==> multiset(r)[y] == multiset(s)[y]
    ensures |r| == |s| - multiset(s)[x]
  {
    if s == [] then []
    else
      assert s == [s[0]] + s[1..];
      if s[0] == x then RemoveAll(s[1..], x) else [s[0]] + RemoveAll(s[1..], x)
  }

  // ---------------------------------------------------------------------------
  // Balances.

  /** No user has a negative balance. */
  ghost predicate Solvent(users: map<UserId, User>) {
    forall u :: u in users ==> users[u].wishBalance >= 0
  }

  /** Two `$inc` updates moving `amount` from `a` to `b`: the total changes
      only by what a missing document fails to take or give, and a payer who
      can afford it leaves every balance non-negative. */
  lemma MoveAmount(users: map<UserId, User>, a: UserId, b: UserId, amount: int)
    ensures Total(Inc(Inc(users, a, -amount), b, amount))
            == Total(users) - (if a in users then amount else 0) + (if b in users then amount else 0)
    ensures Solvent(users) && amount >= 0 && (a in users ==> users[a].wishBalance >= amount) ==>
              Solvent(Inc(Inc(users, a, -amount), b, amount))
  {
    TotalInc(users, a, -amount);
    TotalInc(Inc(users, a, -amount), b, amount);
    if Solvent(users) && amount >= 0 && (a in users ==> users[a].wishBalance >= amount) {
      IncSolvent(users, a, -amount);
      IncSolvent(Inc(users, a, -amount), b, amount);
    }
  }

  /** `$inc` keeps every balance non-negative when the one it changes stays so. */
  lemma IncSolvent(users: map<UserId, User>, uid: UserId, delta: int)
    requires Solvent(users)
    requires uid in users ==> users[uid].wishBalance + delta >= 0
    ensures Solvent(Inc(users, uid, delta))
  {
  }

  /** Some user of a non-empty table, chosen the same way every time. */
  ghost function PickUser(users: map<UserId, User>): (r: Option<UserId>)
    ensures r.None? ==> forall u :: u !in users
    ensures r.Some? ==> r.value in users
  {
    if exists u :: u in users then
      var u :| u in users; Some(u)
    else
      assert users.Keys == {};
      None
  }

  /** The sum of all users' balances: the currency in circulation. */
  ghost function Total(users: map<UserId, User>): int
    decreases |users|
  {
    match PickUser(users)
    case None => 0
    case Some(u) =>
      assert |users - {u}| < |users| by {
        assert (users - {u}).Keys == users.Keys - {u};
      }
      users[u].wishBalance + Total(users - {u})
  }

  /** The total splits into any one user's balance and the total of the others. */
  lemma {:induction false} TotalRemove(users: map<UserId, User>, k: UserId)
    requires k in users
    ensures Total(users) == users[k].wishBalance + Total(users - {k})
    decreases |users|
  {
    var u := PickUser(users).value;
    if u != k {
      var rest := users - {u};
      assert (users - {u}).Keys == users.Keys - {u};
      assert (users - {k}).Keys == users.Keys - {k};
      TotalRemove(rest, k);
      TotalRemove(users - {k}, u);
      assert rest - {k} == (users - {k}) - {u};
    }
  }

  /** Replacing one user's document changes the total by the change of that balance;
      inserting a new user adds its balance. */
  lemma TotalUpdate(users: map<UserId, User>, k: UserId, v: User)
    ensures k in users ==> Total(users[k := v]) == Total(users) - users[k].wishBalance + v.wishBalance
    ensures k !in users ==> Total(users[k := v]) == Total(users) + v.wishBalance
  {
    TotalRemove(users[k := v], k);
    assert users[k := v] - {k} == users - {k};
    if k in users {
      TotalRemove(users, k);
    } else {
      assert users - {k} == users;
    }
  }

  /** Replacing two different users' documents changes the total by the
      change of their two balances. */
  lemma TotalUpdateTwo(users: map<UserId, User>, a: UserId, va: User, b: UserId, vb: User)
    requires a in users && b in users && a != b
    ensures Total(users[a := va][b := vb])
            == Total(users) - users[a].wishBalance + va.wishBalance - users[b].wishBalance + vb.wishBalance
  {
    TotalUpdate(users, a, va);
    TotalUpdate(users[a := va], b, vb);
  }

  /** `$inc` on a present user changes the total by exactly `delta`. */
  lemma TotalInc(users: map<UserId, User>, uid: UserId, delta: int)
    ensures Total(Inc(users, uid, delta)) == Total(users) + (if uid in users then delta else 0)
  {
    if uid in users {
      var v := users[uid].(wishBalance := users[uid].wishBalance + delta);
      TotalUpdate(users, uid, v);
      assert Inc(users, uid, delta) == users[uid := v];
    }
  }

  /** `$push` and `$pull` leave every balance, hence the total, alone. */
  lemma TotalCollectionUpdate(users: map<UserId, User>, uid: UserId, c: seq<CardId>)
    requires uid in users
    ensures Total(users[uid := users[uid].(collection := c)]) == Total(users)
  {
    TotalUpdate(users, uid, users[uid].(collection := c));
  }

  /** `$push` leaves the total alone. */
  lemma TotalPush(users: map<UserId, User>, uid: UserId, card: CardId)
    ensures Total(Push(users, uid, card)) == Total(users)
  {
    if uid in users {
      TotalCollectionUpdate(users, uid, users[uid].collection + [card]);
    }
  }

  /** `$pull` leaves the total alone. */
  lemma TotalPull(users: map<UserId, User>, uid: UserId, card: CardId)
    ensures Total(Pull(users, uid, card)) == Total(users)
  {
    if uid in users {
      TotalCollectionUpdate(users, uid, RemoveAll(users[uid].collection, card));
    }
  }
}
