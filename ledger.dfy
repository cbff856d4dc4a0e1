/**
 * The account ledger of `utils.py`: lazily created user documents holding a
 * wish balance, an append-only transaction log, the daily reward with its
 * 24-hour cooldown, transfers between users, the Telegram Stars credit, the
 * transaction history query, and the older revision of the shop purchase and
 * of the P2P listing lifecycle.
 *
 * Each operation is a method that changes the fields of a `Db` in place. Where
 * a step decides between outcomes, a function on the documents says what the
 * step computes, the method is proved to perform it, and lemmas about the
 * function state what the ledger guarantees: no balance goes below zero, a
 * transfer conserves the currency in circulation, a reward can be claimed once
 * per 24 hours, a listing once inactive stays inactive.
 */
module Ledger {
  import opened Wrappers
  import opened Documents

  /** `timedelta(hours=24)`, in seconds. */
  const DailyCooldown: int := 24 * 60 * 60
  /** The default `amount` of `claim_daily_reward`. */
  const DefaultDailyReward: int := 10

  // ---------------------------------------------------------------------------
  // Users

  /** `get_user`: the document of `uid`, if there is one. */
  function GetUser(users: map<UserId, User>, uid: UserId): (r: Option<User>)
    ensures r.Some? <==> uid in users
    ensures r.Some? ==> r.value == users[uid]
  {
    if uid in users then Some(users[uid]) else None
  }

  /** The user table after `create_user(uid, username)`. */
  function EnsureUser(users: map<UserId, User>, uid: UserId, username: Option<string>, now: Time)
    : (r: map<UserId, User>)
    ensures r.Keys == users.Keys + {uid}
    ensures forall u :: u in users ==> r[u] == users[u]
    ensures uid !in users ==> r[uid] == NewUser(username, now)
  {
    if uid in users then users else users[uid := NewUser(username, now)]
  }

  /** Creating a user twice is the same as creating it once, whatever the
      second call's username and clock. */
  lemma EnsureUserIdempotent(users: map<UserId, User>, uid: UserId,
                             n1: Option<string>, t1: Time, n2: Option<string>, t2: Time)
    ensures EnsureUser(EnsureUser(users, uid, n1, t1), uid, n2, t2) == EnsureUser(users, uid, n1, t1)
    ensures GetUser(EnsureUser(users, uid, n1, t1), uid)
            == Some(if uid in users then users[uid] else NewUser(n1, t1))
  {
  }

  /** Creating a user adds no currency and keeps every balance non-negative. */
  lemma EnsureUserBalances(users: map<UserId, User>, uid: UserId, username: Option<string>, now: Time)
    ensures Total(EnsureUser(users, uid, username, now)) == Total(users)
    ensures Solvent(users) ==> Solvent(EnsureUser(users, uid, username, now))
  {
    if uid !in users {
      TotalUpdate(users, uid, NewUser(username, now));
    }
  }

  /** `create_user`: returns the stored document of an existing user unchanged,
      and otherwise inserts and returns a new one with balance 0 and no claim. */
  method CreateUser(db: Db, uid: UserId, username: Option<string>, now: Time) returns (u: User)
    modifies db`users
    ensures db.users == EnsureUser(old(db.users), uid, username, now)
    ensures u == db.users[uid]
    ensures uid in old(db.users) ==> u == old(db.users)[uid]
  {
    var existing := GetUser(db.users, uid);
    if existing.Some? {
      return existing.value;
    }
    u := NewUser(username, now);
    db.users := db.users[uid := u];
  }

  // ---------------------------------------------------------------------------
  // Balance adjustment

  /** `update_user_balance`: `None` for a missing user or a balance that would
      go below zero, otherwise the table with the new balance. */
  function AdjustBalance(users: map<UserId, User>, uid: UserId, amount: int): (r: Option<map<UserId, User>>)
    ensures r.None? <==> uid !in users || users[uid].wishBalance + amount < 0
    ensures r.Some? ==> r.value.Keys == users.Keys
    ensures r.Some? ==> r.value[uid] == users[uid].(wishBalance := users[uid].wishBalance + amount)
    ensures r.Some? ==> forall u :: u in users && u != uid ==> r.value[u] == users[u]
  {
    var user := GetUser(users, uid);
    if user.None? then None
    else
      var newBalance := user.value.wishBalance + amount;
      if newBalance < 0 then None
      else Some(users[uid := user.value.(wishBalance := newBalance)])
  }

  /** A successful adjustment never leaves a balance below zero and moves the
      total by exactly `amount`. */
  lemma AdjustBalanceBalances(users: map<UserId, User>, uid: UserId, amount: int)
    requires AdjustBalance(users, uid, amount).Some?
    ensures Solvent(users) ==> Solvent(AdjustBalance(users, uid, amount).value)
    ensures Total(AdjustBalance(users, uid, amount).value) == Total(users) + amount
  {
    TotalUpdate(users, uid, users[uid].(wishBalance := users[uid].wishBalance + amount));
  }

  /** Adjusting by `amount` and then by `-amount` restores the table. */
  lemma AdjustBalanceUndo(users: map<UserId, User>, uid: UserId, amount: int)
    requires AdjustBalance(users, uid, amount).Some?
    requires users[uid].wishBalance >= 0
    ensures AdjustBalance(AdjustBalance(users, uid, amount).value, uid, -amount) == Some(users)
  {
    var m := AdjustBalance(users, uid, amount).value;
    assert m[uid := m[uid].(wishBalance := m[uid].wishBalance - amount)] == users;
  }

  method UpdateUserBalance(db: Db, uid: UserId, amount: int) returns (ok: bool)
    modifies db`users
    ensures ok == AdjustBalance(old(db.users), uid, amount).Some?
    ensures db.users == if ok then AdjustBalance(old(db.users), uid, amount).value else old(db.users)
  {
    var user := GetUser(db.users, uid);
    if user.None? {
      return false;
    }
    var newBalance := user.value.wishBalance + amount;
    if newBalance < 0 {
      return false;
    }
    db.users := db.users[uid := user.value.(wishBalance := newBalance)];
    ok := true;
  }

  // ---------------------------------------------------------------------------
  // Transaction log

  /** `record_transaction`: appends one record stamped with the clock. */
  method RecordTransaction(db: Db, uid: UserId, kind: TxKind, amount: int, now: Time)
    modifies db`txs
    ensures db.txs == old(db.txs) + [Tx(uid, kind, amount, now)]
  {
    db.txs := db.txs + [Tx(uid, kind, amount, now)];
  }

  // ---------------------------------------------------------------------------
  // Daily reward

  /** `can_claim_daily` at instant `now`: never for a missing user, always for
      one who has not claimed yet, and otherwise once 24 hours have passed. */
  function CanClaimDaily(users: map<UserId, User>, uid: UserId, now: Time): (r: bool)
    ensures uid !in users ==> !r
    ensures uid in users && users[uid].lastDailyClaim.None? ==> r
    ensures uid in users && users[uid].lastDailyClaim.Some? ==>
              (r <==> now - users[uid].lastDailyClaim.value >= DailyCooldown)
  {
    match GetUser(users, uid)
    case None => false
    case Some(user) =>
      match user.lastDailyClaim
      case None => true
      case Some(last) => now - last >= DailyCooldown
  }

  /** Once a claim is possible it stays possible as time goes on. */
  lemma CanClaimDailyLater(users: map<UserId, User>, uid: UserId, now: Time, later: Time)
    requires CanClaimDaily(users, uid, now) && now <= later
    ensures CanClaimDaily(users, uid, later)
  {
  }

  /** The user table after a successful `claim_daily_reward`, or `None` when the
      reward cannot be claimed. */
  function ClaimDaily(users: map<UserId, User>, uid: UserId, amount: int, now: Time): (r: Option<map<UserId, User>>)
    ensures r.Some? <==> CanClaimDaily(users, uid, now)
    ensures r.Some? ==> r.value.Keys == users.Keys
    ensures r.Some? ==> r.value[uid] == users[uid].(wishBalance := users[uid].wishBalance + amount,
                                                    lastDailyClaim := Some(now))
    ensures r.Some? ==> forall u :: u in users && u != uid ==> r.value[u] == users[u]
  {
    if !CanClaimDaily(users, uid, now) then None
    else
      var user := users[uid];
      Some(users[uid := user.(wishBalance := user.wishBalance + amount, lastDailyClaim := Some(now))])
  }

  /** After a claim at `now`, the next claim is possible exactly from
      `now + 24h` on: in particular an immediate second claim fails. */
  lemma ClaimDailyCooldown(users: map<UserId, User>, uid: UserId, amount: int, now: Time, later: Time)
    requires ClaimDaily(users, uid, amount, now).Some?
    ensures CanClaimDaily(ClaimDaily(users, uid, amount, now).value, uid, later) <==> later - now >= DailyCooldown
    ensures ClaimDaily(ClaimDaily(users, uid, amount, now).value, uid, amount, now).None?
  {
  }

  /** A claim adds `amount` to the currency in circulation and, for a
      non-negative reward, keeps every balance non-negative. */
  lemma ClaimDailyBalances(users: map<UserId, User>, uid: UserId, amount: int, now: Time)
    requires ClaimDaily(users, uid, amount, now).Some?
    ensures Total(ClaimDaily(users, uid, amount, now).value) == Total(users) + amount
    ensures Solvent(users) && amount >= 0 ==> Solvent(ClaimDaily(users, uid, amount, now).value)
  {
    var user := users[uid];
    TotalUpdate(users, uid, user.(wishBalance := user.wishBalance + amount, lastDailyClaim := Some(now)));
  }

  /** `claim_daily_reward`: when the reward can be claimed, adds `amount`,
      stamps the claim time and logs one `daily_reward` record. */
  method ClaimDailyReward(db: Db, uid: UserId, amount: int, now: Time) returns (ok: bool)
    modifies db`users, db`txs
    ensures ok == CanClaimDaily(old(db.users), uid, now)
    ensures db.users == if ok then ClaimDaily(old(db.users), uid, amount, now).value else old(db.users)
    ensures db.txs == old(db.txs) + if ok then [Tx(uid, DailyReward, amount, now)] else []
  {
    if !CanClaimDaily(db.users, uid, now) {
      return false;
    }
    var user := db.users[uid];
    db.users := db.users[uid := user.(wishBalance := user.wishBalance + amount, lastDailyClaim := Some(now))];
    RecordTransaction(db, uid, DailyReward, amount, now);
    ok := true;
  }

  /** A client of the ledger: a new user claims the default reward twice in a
      row; the first claim pays 10 wishes, the second fails and pays nothing. */
  method ClaimTwiceAsNewUser(db: Db, uid: UserId, now: Time) returns (first: bool, second: bool)
    requires uid !in db.users
    modifies db`users, db`txs
    ensures first && !second
    ensures uid in db.users
    ensures db.users[uid].wishBalance == DefaultDailyReward
    ensures db.txs == old(db.txs) + [Tx(uid, DailyReward, DefaultDailyReward, now)]
  {
    var _ := CreateUser(db, uid, None, now);
    first := ClaimDailyReward(db, uid, DefaultDailyReward, now);
    assert uid in db.users && db.users[uid].wishBalance == DefaultDailyReward;
    ClaimDailyCooldown(old(EnsureUser(db.users, uid, None, now)), uid, DefaultDailyReward, now, now);
    second := ClaimDailyReward(db, uid, DefaultDailyReward, now);
  }

  // ---------------------------------------------------------------------------
  // Transfers

  /** The user table after `transfer_wishes(from, to, amount)`, or `None` when
      the sender is missing or holds less than `amount`. The recipient is
      created first, then the two `$inc` updates run one after the other. */
  function Transfer(users: map<UserId, User>, from: UserId, to: UserId, amount: int, now: Time)
    : (r: Option<map<UserId, User>>)
    ensures r.None? <==> from !in users || users[from].wishBalance < amount
    ensures r.Some? ==> r.value.Keys == users.Keys + {to}
    ensures r.Some? && from != to ==>
              && r.value[from] == users[from].(wishBalance := users[from].wishBalance - amount)
              && r.value[to] == (if to in users then users[to] else NewUser(None, now))
                                  .(wishBalance := (if to in users then users[to].wishBalance else 0) + amount)
    ensures r.Some? && from == to ==> r.value[from] == users[from]
    ensures r.Some? ==> forall u :: u in users && u != from && u != to ==> r.value[u] == users[u]
  {
    var sender := GetUser(users, from);
    if sender.None? || sender.value.wishBalance < amount then None
    else
      var withRecipient := EnsureUser(users, to, None, now);
      var debited := Inc(withRecipient, from, -amount);
      Some(Inc(debited, to, amount))
  }

  /** A transfer conserves the currency in circulation; with the positive
      amount the bot's `/transferid` command insists on, no balance goes
      below zero. */
  lemma TransferBalances(users: map<UserId, User>, from: UserId, to: UserId, amount: int, now: Time)
    requires Transfer(users, from, to, amount, now).Some?
    ensures Total(Transfer(users, from, to, amount, now).value) == Total(users)
    ensures Solvent(users) && amount > 0 ==> Solvent(Transfer(users, from, to, amount, now).value)
  {
    var withRecipient := EnsureUser(users, to, None, now);
    EnsureUserBalances(users, to, None, now);
    assert Transfer(users, from, to, amount, now).value == Inc(Inc(withRecipient, from, -amount), to, amount);
    MoveAmount(withRecipient, from, to, amount);
  }

  /** `transfer_wishes`: moves `amount` from the sender to the recipient,
      creating the recipient if absent, and logs a `transfer_out` record of
      `-amount` and a `transfer_in` record of `amount`. */
  method TransferWishes(db: Db, from: UserId, to: UserId, amount: int, now: Time) returns (ok: bool)
    modifies db`users, db`txs
    ensures ok == Transfer(old(db.users), from, to, amount, now).Some?
    ensures db.users == if ok then Transfer(old(db.users), from, to, amount, now).value else old(db.users)
    ensures db.txs == old(db.txs) + if ok then [Tx(from, TransferOut(to), -amount, now),
                                                Tx(to, TransferIn(from), amount, now)] else []
  {
    var sender := GetUser(db.users, from);
    if sender.None? || sender.value.wishBalance < amount {
      return false;
    }
    var _ := CreateUser(db, to, None, now);
    db.users := Inc(db.users, from, -amount);
    db.users := Inc(db.users, to, amount);
    RecordTransaction(db, from, TransferOut(to), -amount, now);
    RecordTransaction(db, to, TransferIn(from), amount, now);
    ok := true;
  }

  // ---------------------------------------------------------------------------
  // Stars purchase

  /** `add_wishes_for_stars`: credits `stars * rate` wishes through
      `update_user_balance` and logs a `stars_purchase` record of that amount
      whether the credit was applied or not. */
  method AddWishesForStars(db: Db, uid: UserId, stars: int, rate: int, now: Time) returns (wishes: int)
    modifies db`users, db`txs
    ensures wishes == stars * rate
    ensures db.users == match AdjustBalance(old(db.users), uid, wishes)
                        case Some(m) => m
                        case None => old(db.users)
    ensures db.txs == old(db.txs) + [Tx(uid, StarsPurchase(stars), wishes, now)]
  {
    wishes := stars * rate;
    var _ := UpdateUserBalance(db, uid, wishes);
    RecordTransaction(db, uid, StarsPurchase(stars), wishes, now);
  }

  /** For an existing user in good standing and a non-negative purchase, the
      stars credit is applied: the logged amount is the amount credited. A
      missing user gets the record and no credit. */
  lemma StarsCreditApplied(users: map<UserId, User>, uid: UserId, stars: nat, rate: nat)
    ensures uid in users && users[uid].wishBalance >= 0 ==>
              AdjustBalance(users, uid, stars * rate).Some? &&
              AdjustBalance(users, uid, stars * rate).value[uid].wishBalance == users[uid].wishBalance + stars * rate
    ensures uid !in users ==> AdjustBalance(users, uid, stars * rate).None?
  {
    assert stars * rate >= 0;
  }

  // ---------------------------------------------------------------------------
  // Transaction history

  /** The records of `uid`, in log order. */
  function RecordsOf(txs: seq<Tx>, uid: UserId): (r: seq<Tx>)
    ensures forall i :: 0 <= i < |r| ==> r[i].userId == uid
    ensures forall t: Tx :: t.userId == uid ==> multiset(r)[t] == multiset(txs)[t]
    ensures forall t: Tx :: t.userId != uid ==> multiset(r)[t] == 0
    ensures multiset(r) <= multiset(txs)
  {
    if txs == [] then []
    else
      assert txs == [txs[0]] + txs[1..];
      var rest := RecordsOf(txs[1..], uid);
      if txs[0].userId == uid then [txs[0]] + rest else rest
  }

  /** Sorted by timestamp, most recent first. */
  ghost predicate NewestFirst(s: seq<Tx>) {
    forall i, j :: 0 <= i < j < |s| ==> s[i].timestamp >= s[j].timestamp
  }

  /** `t` inserted before the first record it is at least as new as. */
  function InsertByTime(t: Tx, s: seq<Tx>): (r: seq<Tx>)
    ensures multiset(r) == multiset(s) + multiset{t}
  {
    if s == [] || t.timestamp >= s[0].timestamp then [t] + s
    else
      assert s == [s[0]] + s[1..];
      [s[0]] + InsertByTime(t, s[1..])
  }

  /** Inserting into a newest-first sequence keeps it newest first. */
  lemma {:induction false} InsertByTimeSorted(t: Tx, s: seq<Tx>)
    requires NewestFirst(s)
    ensures NewestFirst(InsertByTime(t, s))
  {
    if s == [] {
    } else if t.timestamp >= s[0].timestamp {
      ConsSorted(t, s);
    } else {
      var tail := s[1..];
      assert NewestFirst(tail) by {
        forall i, j | 0 <= i < j < |tail|
          ensures tail[i].timestamp >= tail[j].timestamp
        {
          assert tail[i] == s[i + 1] && tail[j] == s[j + 1];
        }
      }
      InsertByTimeSorted(t, tail);
      var rest := InsertByTime(t, tail);
      forall k | 0 <= k < |rest|
        ensures rest[k].timestamp <= s[0].timestamp
      {
        assert rest[k] in multiset(rest);
        assert rest[k] in multiset(tail) + multiset{t};
        if rest[k] != t {
          HeadIsNewest(s, rest[k]);
        }
      }
      ConsSorted(s[0], rest);
    }
  }

  /** A record at least as new as everything in a newest-first sequence can
      go in front of it. */
  lemma ConsSorted(t: Tx, s: seq<Tx>)
    requires NewestFirst(s)
    requires forall k :: 0 <= k < |s| ==> s[k].timestamp <= t.timestamp
    ensures NewestFirst([t] + s)
  {
    var r := [t] + s;
    forall i, j | 0 <= i < j < |r|
      ensures r[i].timestamp >= r[j].timestamp
    {
      assert r[j] == s[j - 1];
      if i > 0 {
        assert r[i] == s[i - 1];
      }
    }
  }

  /** The head of a newest-first sequence is at least as new as the rest of it. */
  lemma HeadIsNewest(s: seq<Tx>, x: Tx)
    requires NewestFirst(s) && |s| > 0 && x in s[1..]
    ensures x.timestamp <= s[0].timestamp
  {
    var j :| 0 <= j < |s[1..]| && s[1..][j] == x;
    assert s[j + 1] == x;
  }

  /** `sort("timestamp", -1)` */
  function SortNewestFirst(s: seq<Tx>): (r: seq<Tx>)
    ensures NewestFirst(r)
    ensures multiset(r) == multiset(s)
  {
    if s == [] then []
    else
      assert s == [s[0]] + s[1..];
      var sorted := SortNewestFirst(s[1..]);
      InsertByTimeSorted(s[0], sorted);
      InsertByTime(s[0], sorted)
  }

  /** Cutting a newest-first sequence at `k` keeps the newest records: every
      record left out is no newer than any record kept. */
  lemma {:induction false} PrefixIsNewest(all: seq<Tx>, k: nat)
    requires NewestFirst(all) && k <= |all|
    ensures forall t: Tx :: multiset(all[..k])[t] < multiset(all)[t] ==>
              forall i :: 0 <= i < k ==> t.timestamp <= all[i].timestamp
  {
    assert all == all[..k] + all[k..];
    forall t: Tx | multiset(all[..k])[t] < multiset(all)[t]
      ensures forall i :: 0 <= i < k ==> t.timestamp <= all[i].timestamp
    {
      assert t in multiset(all[k..]);
      var j :| k <= j < |all| && all[j] == t;
    }
  }

  /** The first `limit` records of a newest-first sequence (all of them for a
      limit of 0), as `limit(limit)` applies after the sort. */
  function TakeNewest(all: seq<Tx>, limit: nat): (r: seq<Tx>)
    requires NewestFirst(all)
    ensures NewestFirst(r)
    ensures multiset(r) <= multiset(all)
    ensures |r| == if limit == 0 || limit >= |all| then |all| else limit
    ensures limit == 0 ==> r == all
    ensures forall t: Tx :: multiset(r)[t] < multiset(all)[t] ==>
              forall i :: 0 <= i < |r| ==> t.timestamp <= r[i].timestamp
  {
    if limit == 0 || limit >= |all| then all
    else
      PrefixIsNewest(all, limit);
      assert all == all[..limit] + all[limit..];
      all[..limit]
  }

  /** `get_user_transactions(uid, limit)`: the user's records, most recent
      first, at most `limit` of them (a limit of 0 is no limit). */
  function UserTransactions(txs: seq<Tx>, uid: UserId, limit: nat): (r: seq<Tx>)
    ensures forall i :: 0 <= i < |r| ==> r[i].userId == uid
    ensures NewestFirst(r)
    ensures multiset(r) <= multiset(txs)
    ensures |r| == if limit == 0 || limit >= |RecordsOf(txs, uid)| then |RecordsOf(txs, uid)| else limit
    ensures limit == 0 ==> forall t: Tx :: t.userId == uid ==> multiset(r)[t] == multiset(txs)[t]
    ensures forall t: Tx :: t.userId == uid && multiset(r)[t] < multiset(txs)[t] ==>
              forall i :: 0 <= i < |r| ==> t.timestamp <= r[i].timestamp
  {
    var records := RecordsOf(txs, uid);
    var all := SortNewestFirst(records);
    var r := TakeNewest(all, limit);
    NewestRecordsOf(txs, uid, all, r);
    r
  }

  /** What `UserTransactions` needs of the sorted records and the kept prefix. */
  lemma NewestRecordsOf(txs: seq<Tx>, uid: UserId, all: seq<Tx>, r: seq<Tx>)
    requires multiset(all) == multiset(RecordsOf(txs, uid))
    requires multiset(r) <= multiset(all)
    ensures |all| == |RecordsOf(txs, uid)|
    ensures forall i :: 0 <= i < |r| ==> r[i].userId == uid
    ensures multiset(r) <= multiset(txs)
    ensures forall t: Tx :: t.userId == uid ==> multiset(all)[t] == multiset(txs)[t]
  {
    var records := RecordsOf(txs, uid);
    assert |all| == |multiset(all)| == |multiset(records)| == |records|;
    forall i | 0 <= i < |r|
      ensures r[i].userId == uid
    {
      assert r[i] in multiset(records);
    }
  }

  // ---------------------------------------------------------------------------
  // Older revision of the shop purchase (superseded by Shop.BuyFromDefaultShop)

  datatype DefaultShopError = CardNotFound | InsufficientWishes

  /** The older `buy_from_default_shop`: looks the card up in the fixed-price
      `default_shop` collection and debits its price; the card is not added to
      the user's collection. */
  function DefaultShopPurchase(users: map<UserId, User>, shop: seq<ShopCard>, uid: UserId, cardId: CardId)
    : (r: Result<(ShopCard, map<UserId, User>), DefaultShopError>)
    ensures r == Err(CardNotFound) <==> FindCard(shop, cardId).None?
    ensures r == Err(InsufficientWishes) <==>
              FindCard(shop, cardId).Some? &&
              (uid !in users || users[uid].wishBalance < FindCard(shop, cardId).value.price)
    ensures r.Ok? ==> && r.value.0 == FindCard(shop, cardId).value
                      && r.value.1 == users[uid := users[uid].(wishBalance := users[uid].wishBalance - r.value.0.price)]
  {
    var card := FindCard(shop, cardId);
    if card.None? then Err(CardNotFound)
    else if uid !in users || users[uid].wishBalance < card.value.price then Err(InsufficientWishes)
    else Ok((card.value, Inc(users, uid, -card.value.price)))
  }

  /** The old shop purchase never overdraws and removes exactly the price from circulation. */
  lemma DefaultShopPurchaseBalances(users: map<UserId, User>, shop: seq<ShopCard>, uid: UserId, cardId: CardId)
    requires DefaultShopPurchase(users, shop, uid, cardId).Ok?
    ensures Solvent(users) ==> Solvent(DefaultShopPurchase(users, shop, uid, cardId).value.1)
    ensures Total(DefaultShopPurchase(users, shop, uid, cardId).value.1)
            == Total(users) - DefaultShopPurchase(users, shop, uid, cardId).value.0.price
  {
    var card := FindCard(shop, cardId).value;
    TotalInc(users, uid, -card.price);
  }

  method BuyFromDefaultShop(db: Db, uid: UserId, cardId: CardId, now: Time)
    returns (r: Result<ShopCard, DefaultShopError>)
    modifies db`users, db`txs
    ensures var spec := DefaultShopPurchase(old(db.users), db.defaultShop, uid, cardId);
            && (r.Err? <==> spec.Err?)
            && (r.Err? ==> r.error == spec.error && db.users == old(db.users) && db.txs == old(db.txs))
            && (r.Ok? ==> && r.value == spec.value.0 && db.users == spec.value.1
                          && db.txs == old(db.txs) + [Tx(uid, ShopPurchase(r.value.card.name), -r.value.price, now)])
  {
    var card := FindCard(db.defaultShop, cardId);
    if card.None? {
      return Err(CardNotFound);
    }
    var user := GetUser(db.users, uid);
    if user.None? || user.value.wishBalance < card.value.price {
      return Err(InsufficientWishes);
    }
    db.users := Inc(db.users, uid, -card.value.price);
    RecordTransaction(db, uid, ShopPurchase(card.value.card.name), -card.value.price, now);
    r := Ok(card.value);
  }

  // ---------------------------------------------------------------------------
  // Older revision of the P2P listing lifecycle

  /** The listings after inserting an active listing with the next id. */
  method CreateP2pListing(db: Db, uid: UserId, cardId: CardId, price: int, now: Time) returns (id: ListingId)
    requires db.Valid()
    modifies db`listings, db`nextListingId
    ensures db.Valid()
    ensures id !in old(db.listings)
    ensures db.listings == old(db.listings)[id := Listing(id, uid, cardId, price, true, now)]
  {
    id := db.nextListingId;
    db.listings := db.listings[id := Listing(id, uid, cardId, price, true, now)];
    db.nextListingId := db.nextListingId + 1;
  }

  /** Which listings a `find` on `p2p_listings` selects. */
  datatype ListingQuery = AllActive | ActiveOf(seller: UserId)

  predicate Matches(q: ListingQuery, l: Listing) {
    l.isActive && (q.ActiveOf? ==> l.sellerId == q.seller)
  }

  /** The listings with an id below `bound` that match `q`, in insertion (id) order. */
  function FindListings(listings: map<ListingId, Listing>, q: ListingQuery, bound: nat): (r: seq<Listing>)
    requires KeyedById(listings)
    ensures forall l :: l in r <==> l.id < bound && l.id in listings && listings[l.id] == l && Matches(q, l)
    ensures forall i, j :: 0 <= i < j < |r| ==> r[i].id < r[j].id
    decreases bound
  {
    if bound == 0 then []
    else
      var rest := FindListings(listings, q, bound - 1);
      var id := bound - 1;
      if id in listings && Matches(q, listings[id]) then rest + [listings[id]] else rest
  }

  /** `get_p2p_listings` and `get_user_listings`: every active listing, or every
      active listing of one seller, and nothing else. */
  method GetListings(db: Db, q: ListingQuery) returns (r: seq<Listing>)
    requires db.Valid()
    ensures forall l :: l in r <==> l.id in db.listings && db.listings[l.id] == l && Matches(q, l)
    ensures forall i, j :: 0 <= i < j < |r| ==> r[i].id < r[j].id
  {
    r := FindListings(db.listings, q, db.nextListingId);
  }

  /** Listing documents keep their seller and card, and an inactive listing
      never becomes active again. */
  ghost predicate OneWay(before: map<ListingId, Listing>, after: map<ListingId, Listing>) {
    && before.Keys <= after.Keys
    && forall id :: id in before ==>
         && after[id].sellerId == before[id].sellerId
         && after[id].cardId == before[id].cardId
         && (after[id].isActive ==> before[id].isActive)
  }

  datatype P2pError = ListingNotFound | NotEnoughWishes

  /** The older `buy_from_p2p`: an active listing and a buyer who can pay move
      the price from buyer to seller; the card itself does not move. The
      seller's `$inc` has no effect when the seller has no user document. */
  function LegacyP2pSale(users: map<UserId, User>, listings: map<ListingId, Listing>, buyer: UserId, lid: ListingId)
    : (r: Result<(Listing, map<UserId, User>), P2pError>)
    ensures r == Err(ListingNotFound) <==> lid !in listings || !listings[lid].isActive
    ensures r == Err(NotEnoughWishes) <==>
              lid in listings && listings[lid].isActive &&
              (buyer !in users || users[buyer].wishBalance < listings[lid].price)
    ensures r.Ok? ==> r.value.0 == listings[lid] && r.value.1.Keys == users.Keys
    ensures r.Ok? ==> forall u :: u in users && u != buyer && u != r.value.0.sellerId ==> r.value.1[u] == users[u]
    ensures r.Ok? && buyer != r.value.0.sellerId ==>
              r.value.1[buyer] == users[buyer].(wishBalance := users[buyer].wishBalance - r.value.0.price)
    ensures r.Ok? && buyer != r.value.0.sellerId && r.value.0.sellerId in users ==>
              r.value.1[r.value.0.sellerId]
              == users[r.value.0.sellerId].(wishBalance := users[r.value.0.sellerId].wishBalance + r.value.0.price)
    ensures r.Ok? && buyer == r.value.0.sellerId ==> r.value.1[buyer] == users[buyer]
    ensures r.Ok? ==> Total(r.value.1) == Total(users) - (if r.value.0.sellerId in users then 0 else r.value.0.price)
    ensures r.Ok? && Solvent(users) && r.value.0.price >= 0 ==> Solvent(r.value.1)
  {
    if lid !in listings || !listings[lid].isActive then Err(ListingNotFound)
    else
      var listing := listings[lid];
      if buyer !in users || users[buyer].wishBalance < listing.price then Err(NotEnoughWishes)
      else
        MoveAmount(users, buyer, listing.sellerId, listing.price);
        Ok((listing, Inc(Inc(users, buyer, -listing.price), listing.sellerId, listing.price)))
  }

  method BuyFromP2p(db: Db, buyer: UserId, lid: ListingId, now: Time) returns (r: Result<Listing, P2pError>)
    requires db.Valid()
    modifies db`users, db`txs, db`listings
    ensures db.Valid()
    ensures var spec := LegacyP2pSale(old(db.users), old(db.listings), buyer, lid);
            && (r.Err? <==> spec.Err?)
            && (r.Err? ==> && r.error == spec.error && db.users == old(db.users)
                           && db.txs == old(db.txs) && db.listings == old(db.listings))
            && (r.Ok? ==> && r.value == spec.value.0 && db.users == spec.value.1
                          && db.listings == old(db.listings)[lid := r.value.(isActive := false)]
                          && db.txs == old(db.txs) + [Tx(buyer, P2pPurchase(r.value.cardId), -r.value.price, now),
                                                      Tx(r.value.sellerId, P2pSale(r.value.cardId), r.value.price, now)])
  {
    if lid !in db.listings || !db.listings[lid].isActive {
      return Err(ListingNotFound);
    }
    var listing := db.listings[lid];
    var user := GetUser(db.users, buyer);
    if user.None? || user.value.wishBalance < listing.price {
      return Err(NotEnoughWishes);
    }
    db.users := Inc(db.users, buyer, -listing.price);
    db.users := Inc(db.users, listing.sellerId, listing.price);
    DeactivateKeyed(db.listings, db.nextListingId, lid);
    db.listings := db.listings[lid := listing.(isActive := false)];
    RecordTransaction(db, buyer, P2pPurchase(listing.cardId), -listing.price, now);
    RecordTransaction(db, listing.sellerId, P2pSale(listing.cardId), listing.price, now);
    r := Ok(listing);
  }

  /** `remove_p2p_listing`: the filter matches the listing with that id and
      seller; the result is whether the update modified it, i.e. whether it
      was active. */
  function RemoveListing(listings: map<ListingId, Listing>, uid: UserId, lid: ListingId)
    : (r: (bool, map<ListingId, Listing>))
    ensures r.0 <==> lid in listings && listings[lid].sellerId == uid && listings[lid].isActive
    ensures lid in listings && listings[lid].sellerId == uid ==>
              r.1 == listings[lid := listings[lid].(isActive := false)]
    ensures !(lid in listings && listings[lid].sellerId == uid) ==> r.1 == listings
  {
    if lid in listings && listings[lid].sellerId == uid then
      (listings[lid].isActive, listings[lid := listings[lid].(isActive := false)])
    else (false, listings)
  }

  /** `update_p2p_listing_price`: the filter matches only an active listing of
      the caller; `modified_count` is 0 when the new price equals the old one. */
  function RepriceListing(listings: map<ListingId, Listing>, uid: UserId, lid: ListingId, newPrice: int)
    : (r: (bool, map<ListingId, Listing>))
    ensures r.0 <==> lid in listings && listings[lid].sellerId == uid && listings[lid].isActive
                     && listings[lid].price != newPrice
    ensures lid in listings && listings[lid].sellerId == uid && listings[lid].isActive ==>
              r.1 == listings[lid := listings[lid].(price := newPrice)]
    ensures !(lid in listings && listings[lid].sellerId == uid && listings[lid].isActive) ==> r.1 == listings
  {
    if lid in listings && listings[lid].sellerId == uid && listings[lid].isActive then
      (listings[lid].price != newPrice, listings[lid := listings[lid].(price := newPrice)])
    else (false, listings)
  }

  /** No listing operation revives an inactive listing or changes who sells
      what; after a removal or a sale the listing is inactive for good. */
  lemma ListingLifecycle(listings: map<ListingId, Listing>, users: map<UserId, User>,
                         uid: UserId, lid: ListingId, newPrice: int)
    ensures OneWay(listings, RemoveListing(listings, uid, lid).1)
    ensures OneWay(listings, RepriceListing(listings, uid, lid, newPrice).1)
    ensures RemoveListing(listings, uid, lid).0 ==>
              !RemoveListing(RemoveListing(listings, uid, lid).1, uid, lid).0
    ensures LegacyP2pSale(users, listings, uid, lid).Ok? ==>
              LegacyP2pSale(users, listings[lid := listings[lid].(isActive := false)], uid, lid) == Err(ListingNotFound)
  {
  }

  method RemoveP2pListing(db: Db, uid: UserId, lid: ListingId) returns (ok: bool)
    requires db.Valid()
    modifies db`listings
    ensures db.Valid()
    ensures (ok, db.listings) == RemoveListing(old(db.listings), uid, lid)
  {
    if lid in db.listings && db.listings[lid].sellerId == uid {
      ok := db.listings[lid].isActive;
      db.listings := db.listings[lid := db.listings[lid].(isActive := false)];
    } else {
      ok := false;
    }
  }

  method UpdateP2pListingPrice(db: Db, uid: UserId, lid: ListingId, newPrice: int) returns (ok: bool)
    requires db.Valid()
    modifies db`listings
    ensures db.Valid()
    ensures (ok, db.listings) == RepriceListing(old(db.listings), uid, lid, newPrice)
  {
    if lid in db.listings && db.listings[lid].sellerId == uid && db.listings[lid].isActive {
      ok := db.listings[lid].price != newPrice;
      db.listings := db.listings[lid := db.listings[lid].(price := newPrice)];
    } else {
      ok := false;
    }
  }
}
