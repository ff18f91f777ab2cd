/** The client data manager (src/services/DataManager.ts) as pure
    transitions over one state value: the activity collection and the global
    bundle. Every mutating call persists the whole snapshot, so the stored
    content after a call is `Snapshot` of the returned state. `stamp` stands
    for `Date.now().toString()` and `now` for `new Date().toLocaleString()`. */
module DataManager {
  import opened Optional
  import opened Types
  import opened Directory
  import Seed

  /** The placeholder user every order is attributed to. */
  const UserId: string := "user_1"
  const LotterySource: string := "幸运抽奖"
  const LotteryPrizeName: string := "春分好运鸡蛋 (抽奖)"
  const RedeemPrefix: string := "兑换-"

  datatype DataState = DataState(activities: seq<Activity>, global: GlobalData)

  /** The two storage keys; `None` is a key that was never written. */
  datatype Storage = Storage(activities: Option<seq<Activity>>, global: Option<GlobalData>)

  function Snapshot(s: DataState): (r: Storage)
    ensures r.activities.Some? && r.global.Some?
    ensures r.activities.value == s.activities && r.global.value == s.global
  {
    Storage(Some(s.activities), Some(s.global))
  }

  // --- Activities ---

  function GetActivity(s: DataState, id: string): (r: Option<Activity>)
    ensures r.Some? ==> r.value in s.activities && r.value.id == id
    ensures r.None? <==> forall i :: 0 <= i < |s.activities| ==> s.activities[i].id != id
    ensures forall i :: IsFirst(s.activities, id, ActivityId, i) ==> r == Some(s.activities[i])
  {
    Find(s.activities, id, ActivityId)
  }

  function SaveActivity(s: DataState, a: Activity): (r: DataState)
    ensures r.global == s.global
    ensures (forall i :: 0 <= i < |s.activities| ==> s.activities[i].id != a.id)
              ==> r.activities == s.activities + [a]
    ensures forall i :: IsFirst(s.activities, a.id, ActivityId, i)
              ==> r.activities == s.activities[i := a]
  {
    s.(activities := Upsert(s.activities, a, ActivityId))
  }

  function DeleteActivity(s: DataState, id: string): (r: DataState)
    ensures r.global == s.global
    ensures forall i :: 0 <= i < |r.activities| ==> r.activities[i].id != id
    ensures forall i :: 0 <= i < |s.activities| && s.activities[i].id != id
              ==> s.activities[i] in r.activities
    ensures forall a :: a in r.activities ==> a in s.activities
    ensures multiset(r.activities) <= multiset(s.activities)
    ensures forall i :: 0 <= i < |s.activities| && s.activities[i].id != id
              ==> multiset(r.activities)[s.activities[i]] == multiset(s.activities)[s.activities[i]]
    ensures SeqUtil.IsSubsequence(r.activities, s.activities)
  {
    DeletePreservesOrder(s.activities, id, ActivityId);
    s.(activities := Delete(s.activities, id, ActivityId))
  }

  // --- Shop products ---

  function SaveShopProduct(s: DataState, p: Product): (r: DataState)
    ensures r.activities == s.activities
    ensures r.global == s.global.(shopProducts := r.global.shopProducts)
    ensures (forall i :: 0 <= i < |s.global.shopProducts| ==> s.global.shopProducts[i].id != p.id)
              ==> r.global.shopProducts == s.global.shopProducts + [p]
    ensures forall i :: IsFirst(s.global.shopProducts, p.id, ProductId, i)
              ==> r.global.shopProducts == s.global.shopProducts[i := p]
  {
    s.(global := s.global.(shopProducts := Upsert(s.global.shopProducts, p, ProductId)))
  }

  function DeleteShopProduct(s: DataState, id: string): (r: DataState)
    ensures r.activities == s.activities
    ensures r.global == s.global.(shopProducts := r.global.shopProducts)
    ensures forall i :: 0 <= i < |r.global.shopProducts| ==> r.global.shopProducts[i].id != id
    ensures forall i :: 0 <= i < |s.global.shopProducts| && s.global.shopProducts[i].id != id
              ==> s.global.shopProducts[i] in r.global.shopProducts
    ensures forall p :: p in r.global.shopProducts ==> p in s.global.shopProducts
    ensures multiset(r.global.shopProducts) <= multiset(s.global.shopProducts)
    ensures forall i :: 0 <= i < |s.global.shopProducts| && s.global.shopProducts[i].id != id
              ==> multiset(r.global.shopProducts)[s.global.shopProducts[i]]
                  == multiset(s.global.shopProducts)[s.global.shopProducts[i]]
    ensures SeqUtil.IsSubsequence(r.global.shopProducts, s.global.shopProducts)
  {
    DeletePreservesOrder(s.global.shopProducts, id, ProductId);
    s.(global := s.global.(shopProducts := Delete(s.global.shopProducts, id, ProductId)))
  }

  // --- Beans, redemption, lottery ---

  function AddBeans(s: DataState, amount: int, source: string, stamp: string, now: string): (r: DataState)
    ensures r.activities == s.activities
    ensures r.global.shopProducts == s.global.shopProducts
    ensures r.global.orders == s.global.orders
    ensures r.global.userBeans - s.global.userBeans == amount
    ensures |r.global.transactions| == |s.global.transactions| + 1
    ensures r.global.transactions[1..] == s.global.transactions
    ensures r.global.transactions[0] == BeanTransaction(stamp, Income, amount, source, now)
  {
    s.(global := s.global.(
      userBeans := s.global.userBeans + amount,
      transactions := [BeanTransaction(stamp, Income, amount, source, now)] + s.global.transactions))
  }

  /** The stock step of a redemption: only when the passed-in product claims
      positive stock, and only on the first live shop entry with its id whose
      own stock is set and non-zero, that entry loses one unit. */
  function DecrementStock(shop: seq<Product>, product: Product): (r: seq<Product>)
    ensures |r| == |shop|
    ensures !(product.stock.Some? && product.stock.value > 0) ==> r == shop
    ensures (forall j :: 0 <= j < |shop| ==> shop[j].id != product.id) ==> r == shop
    ensures forall i :: IsFirst(shop, product.id, ProductId, i) ==>
              if product.stock.Some? && product.stock.value > 0 && TruthyNumber(shop[i].stock)
              then r == shop[i := shop[i].(stock := Some(shop[i].stock.value - 1))]
              else r == shop
  {
    if product.stock.Some? && product.stock.value > 0 then
      match FindIndex(shop, product.id, ProductId)
      case Some(i) =>
        if TruthyNumber(shop[i].stock)
        then shop[i := shop[i].(stock := Some(shop[i].stock.value - 1))]
        else shop
      case None => shop
    else shop
  }

  function RedeemOrder(product: Product, address: Option<Address>, orderId: string, orderTime: string): Order
  {
    Order(orderId, UserId, Redeem, product.name, product.price, Pending, address, orderTime)
  }

  /** Exchanges beans for a shop product. Fails, changing nothing, when the
      balance is below the price; otherwise debits, records the expense and
      the order (both newest first) and adjusts stock. The expense entry and
      the order each take their own id and time, as the source reads the
      clock separately for each. */
  function RedeemProduct(s: DataState, product: Product, address: Option<Address>,
                         txId: string, txTime: string, orderId: string, orderTime: string): (r: (bool, DataState))
    ensures !r.0 <==> s.global.userBeans < product.price
    ensures !r.0 ==> r.1 == s
    ensures r.0 ==> r.1.activities == s.activities
    ensures r.0 ==> r.1.global.userBeans == s.global.userBeans - product.price
    ensures r.0 ==> r.1.global.userBeans >= 0
    ensures r.0 ==> r.1.global.transactions
                      == [BeanTransaction(txId, Expense, product.price, RedeemPrefix + product.name, txTime)]
                         + s.global.transactions
    ensures r.0 ==> r.1.global.orders
                      == [Order(orderId, UserId, Redeem, product.name, product.price, Pending, address, orderTime)]
                         + s.global.orders
    ensures r.0 ==> r.1.global.shopProducts == DecrementStock(s.global.shopProducts, product)
  {
    if s.global.userBeans < product.price then (false, s)
    else
      var g := s.global;
      (true, s.(global := GlobalData(
        DecrementStock(g.shopProducts, product),
        g.userBeans - product.price,
        [BeanTransaction(txId, Expense, product.price, RedeemPrefix + product.name, txTime)] + g.transactions,
        [RedeemOrder(product, address, orderId, orderTime)] + g.orders)))
  }

  datatype PrizeType = Eggs | BeansPrize

  function LotteryOrder(address: Option<Address>, stamp: string, now: string): Order
  {
    Order(stamp, UserId, Lottery, LotteryPrizeName, 0, Pending, address, now)
  }

  /** A lottery prize: beans go through `AddBeans`; eggs become a free
      pending order. */
  function RecordLotteryWin(s: DataState, prize: PrizeType, amount: int, address: Option<Address>,
                            stamp: string, now: string): (r: DataState)
    ensures r.activities == s.activities
    ensures r.global.shopProducts == s.global.shopProducts
    ensures prize == BeansPrize ==> r == AddBeans(s, amount, LotterySource, stamp, now)
    ensures prize == Eggs ==> r.global.userBeans == s.global.userBeans
    ensures prize == Eggs ==> r.global.transactions == s.global.transactions
    ensures prize == Eggs ==>
              r.global.orders == [Order(stamp, UserId, Lottery, LotteryPrizeName, 0, Pending, address, now)]
                                 + s.global.orders
  {
    match prize
    case BeansPrize => AddBeans(s, amount, LotterySource, stamp, now)
    case Eggs => s.(global := s.global.(orders := [LotteryOrder(address, stamp, now)] + s.global.orders))
  }

  // --- Load and legacy migration ---

  /** Fills a missing (unset or empty) subtitle from the first seed entry with
      the same id, when that seed subtitle is non-empty. The flag reports a
      change. */
  function BackfillItem(p: Product, seeds: seq<Product>): (r: (Product, bool))
    ensures TruthyString(p.subtitle) ==> r == (p, false)
    ensures r.0 == p.(subtitle := r.0.subtitle)
    ensures r.1 <==> r.0 != p
    ensures r.1 ==> exists d :: d in seeds && d.id == p.id && r.0.subtitle == d.subtitle
    ensures r.1 ==> TruthyString(r.0.subtitle)
    ensures !TruthyString(p.subtitle) && (forall j :: 0 <= j < |seeds| ==> seeds[j].id != p.id) ==> !r.1
    ensures forall i :: IsFirst(seeds, p.id, ProductId, i) && !TruthyString(p.subtitle) ==>
              r == if TruthyString(seeds[i].subtitle) then (p.(subtitle := seeds[i].subtitle), true) else (p, false)
  {
    if TruthyString(p.subtitle) then (p, false)
    else
      match Find(seeds, p.id, ProductId)
      case Some(d) => if TruthyString(d.subtitle) then (p.(subtitle := d.subtitle), true) else (p, false)
      case None => (p, false)
  }

  /** The `forEach` backfill over one recommendation list. */
  function BackfillList(xs: seq<Product>, seeds: seq<Product>): (r: (seq<Product>, bool))
    ensures |r.0| == |xs|
    ensures forall i :: 0 <= i < |xs| ==> r.0[i] == BackfillItem(xs[i], seeds).0
    ensures r.1 <==> r.0 != xs
    decreases |xs|
  {
    if |xs| == 0 then ([], false)
    else
      var head := BackfillItem(xs[0], seeds);
      var rest := BackfillList(xs[1..], seeds);
      assert ([head.0] + rest.0)[1..] == rest.0;
      ([head.0] + rest.0, head.1 || rest.1)
  }

  /** The migration of the first stored activity; the flag is `needsSave`. */
  function MigrateActivity(a: Activity): (r: (Activity, bool))
    ensures r.0.id == a.id
    ensures r.1 <==> r.0 != a
    ensures a.name == Seed.LegacyName ==> r.0.name == Seed.CurrentName && r.0.subtitle == Some(Seed.CurrentSubtitle)
    ensures a.name != Seed.LegacyName ==> r.0.name == a.name && r.0.subtitle == a.subtitle
    ensures |r.0.recommendedFoods| == |a.recommendedFoods|
    ensures forall i :: 0 <= i < |a.recommendedFoods| ==>
              r.0.recommendedFoods[i] == BackfillItem(a.recommendedFoods[i], Seed.InitialFoods("")).0
    ensures |r.0.recommendedProducts| == |a.recommendedProducts|
    ensures forall i :: 0 <= i < |a.recommendedProducts| ==>
              r.0.recommendedProducts[i] == BackfillItem(a.recommendedProducts[i], Seed.InitialProducts("")).0
    ensures r.0 == a.(name := r.0.name, subtitle := r.0.subtitle,
                      recommendedFoods := r.0.recommendedFoods,
                      recommendedProducts := r.0.recommendedProducts)
  {
    var (a1, renamed) := if a.name == Seed.LegacyName
      then (a.(name := Seed.CurrentName, subtitle := Some(Seed.CurrentSubtitle)), true)
      else (a, false);
    // the seed lists' `createdAt` plays no part in the lookup, so any stamp will do
    var (foods, foodsChanged) := BackfillList(a1.recommendedFoods, Seed.InitialFoods(""));
    var (prods, prodsChanged) := BackfillList(a1.recommendedProducts, Seed.InitialProducts(""));
    var a2 := a1.(recommendedFoods := foods, recommendedProducts := prods);
    assert renamed ==> a2.name != a.name;
    (a2, renamed || foodsChanged || prodsChanged)
  }

  /** The migration runs only when the first stored activity carries the
      legacy seed id. */
  function Migrate(acts: seq<Activity>): (r: (seq<Activity>, bool))
    ensures |r.0| == |acts|
    ensures r.1 <==> r.0 != acts
    ensures !(|acts| > 0 && acts[0].id == Seed.LegacyActivityId) ==> r == (acts, false)
    ensures |acts| > 0 ==> r.0[1..] == acts[1..] && r.0[0].id == acts[0].id
    ensures |acts| > 0 && acts[0].id == Seed.LegacyActivityId ==>
              r == (acts[0 := MigrateActivity(acts[0]).0], MigrateActivity(acts[0]).1)
  {
    if |acts| > 0 && acts[0].id == Seed.LegacyActivityId then
      var (a, changed) := MigrateActivity(acts[0]);
      assert changed ==> acts[0 := a][0] != acts[0];
      (acts[0 := a], changed)
    else (acts, false)
  }

  /** The outcome of start-up: the state, the storage afterwards, and which
      keys were written. */
  datatype LoadResult = LoadResult(state: DataState, storage: Storage,
                                   wroteActivities: bool, wroteGlobal: bool)

  function Load(st: Storage, createdAt: string, now: string): (r: LoadResult)
    ensures r.storage == Snapshot(r.state)
    ensures st.activities.None? ==> r.state.activities == [Seed.InitialActivity(createdAt)] && r.wroteActivities
    ensures st.global.None? ==> r.state.global == Seed.InitialGlobal(createdAt, now) && r.wroteGlobal
    ensures st.global.Some? ==> r.state.global == st.global.value && !r.wroteGlobal
    ensures st.activities.Some? ==> (r.wroteActivities <==> r.state.activities != st.activities.value)
    ensures st.activities.Some? ==> (r.state.activities, r.wroteActivities) == Migrate(st.activities.value)
  {
    var (acts, wroteActs) := match st.activities
      case Some(stored) => Migrate(stored)
      case None => ([Seed.InitialActivity(createdAt)], true);
    var (global, wroteGlobal) := match st.global
      case Some(g) => (g, false)
      case None => (Seed.InitialGlobal(createdAt, now), true);
    var state := DataState(acts, global);
    LoadResult(state, Snapshot(state), wroteActs, wroteGlobal)
  }

  // --- Properties relating several calls ---

  /** The signed effect of a ledger on the balance. */
  function Net(txs: seq<BeanTransaction>): int
  {
    if |txs| == 0 then 0
    else (if txs[0].kind == Income then txs[0].amount else -txs[0].amount) + Net(txs[1..])
  }

  /** The balance is exactly what the ledger records. */
  ghost predicate LedgerBalanced(g: GlobalData)
  {
    g.userBeans == Net(g.transactions)
  }

  /** A fresh installation starts balanced, and every operation of the data
      manager keeps the balance equal to the ledger's net sum. */
  lemma LedgerStaysBalanced(s: DataState, a: Activity, p: Product, id: string, amount: int,
                            source: string, prize: PrizeType, address: Option<Address>,
                            stamp: string, now: string, orderId: string, orderTime: string,
                            createdAt: string)
    requires LedgerBalanced(s.global)
    ensures LedgerBalanced(Seed.InitialGlobal(createdAt, now))
    ensures LedgerBalanced(SaveActivity(s, a).global)
    ensures LedgerBalanced(DeleteActivity(s, id).global)
    ensures LedgerBalanced(SaveShopProduct(s, p).global)
    ensures LedgerBalanced(DeleteShopProduct(s, id).global)
    ensures LedgerBalanced(AddBeans(s, amount, source, stamp, now).global)
    ensures LedgerBalanced(RedeemProduct(s, p, address, stamp, now, orderId, orderTime).1.global)
    ensures LedgerBalanced(RecordLotteryWin(s, prize, amount, address, stamp, now).global)
  {
    var t := RedeemProduct(s, p, address, stamp, now, orderId, orderTime);
    if t.0 {
      assert t.1.global.transactions[1..] == s.global.transactions;
    }
    var b := AddBeans(s, amount, source, stamp, now);
    assert b.global.transactions[1..] == s.global.transactions;
    var l := AddBeans(s, amount, LotterySource, stamp, now);
    assert l.global.transactions[1..] == s.global.transactions;
  }

  /** The balance never goes negative: a failed redemption leaves it alone,
      a successful one stops at zero, and crediting a non-negative amount
      only raises it. */
  lemma BalanceStaysNonNegative(s: DataState, p: Product, amount: int, source: string,
                                prize: PrizeType, address: Option<Address>, stamp: string, now: string,
                                orderId: string, orderTime: string)
    requires s.global.userBeans >= 0
    requires amount >= 0
    ensures RedeemProduct(s, p, address, stamp, now, orderId, orderTime).1.global.userBeans >= 0
    ensures AddBeans(s, amount, source, stamp, now).global.userBeans >= 0
    ensures RecordLotteryWin(s, prize, amount, address, stamp, now).global.userBeans >= 0
  {
  }

  lemma BackfillItemIdempotent(p: Product, seeds: seq<Product>)
    ensures BackfillItem(BackfillItem(p, seeds).0, seeds) == (BackfillItem(p, seeds).0, false)
  {
    var q := BackfillItem(p, seeds).0;
    if !TruthyString(p.subtitle) && q == p {
      assert BackfillItem(q, seeds) == BackfillItem(p, seeds);
    }
  }

  lemma BackfillListIdempotent(xs: seq<Product>, seeds: seq<Product>)
    ensures BackfillList(BackfillList(xs, seeds).0, seeds) == (BackfillList(xs, seeds).0, false)
  {
    var ys := BackfillList(xs, seeds).0;
    forall i | 0 <= i < |xs|
      ensures BackfillItem(ys[i], seeds).0 == ys[i]
    {
      BackfillItemIdempotent(xs[i], seeds);
    }
    var zs := BackfillList(ys, seeds).0;
    assert zs == ys;
  }

  /** Migrating an already-migrated collection changes nothing and asks for
      no save: the backfill cannot loop. */
  lemma MigrateIdempotent(acts: seq<Activity>)
    ensures Migrate(Migrate(acts).0) == (Migrate(acts).0, false)
  {
    var m := Migrate(acts).0;
    if |acts| > 0 && acts[0].id == Seed.LegacyActivityId {
      var a := m[0];
      BackfillListIdempotent(acts[0].recommendedFoods, Seed.InitialFoods(""));
      BackfillListIdempotent(acts[0].recommendedProducts, Seed.InitialProducts(""));
      var b := MigrateActivity(a).0;
      assert b.recommendedFoods == a.recommendedFoods;
      assert b.recommendedProducts == a.recommendedProducts;
      assert b == a;
    }
  }

  /** Entries that already carry a subtitle are never overwritten. */
  lemma MigrateKeepsPresentSubtitles(acts: seq<Activity>)
    requires |acts| > 0
    ensures forall i :: 0 <= i < |acts[0].recommendedFoods| && TruthyString(acts[0].recommendedFoods[i].subtitle)
              ==> Migrate(acts).0[0].recommendedFoods[i] == acts[0].recommendedFoods[i]
    ensures forall i :: 0 <= i < |acts[0].recommendedProducts| && TruthyString(acts[0].recommendedProducts[i].subtitle)
              ==> Migrate(acts).0[0].recommendedProducts[i] == acts[0].recommendedProducts[i]
  {
  }

  /** The built-in activity is already in migrated shape. */
  lemma SeedActivityIsMigrated(createdAt: string)
    ensures Migrate([Seed.InitialActivity(createdAt)]) == ([Seed.InitialActivity(createdAt)], false)
  {
    var a := Seed.InitialActivity(createdAt);
    assert forall i :: 0 <= i < |a.recommendedFoods| ==> TruthyString(a.recommendedFoods[i].subtitle);
    assert forall i :: 0 <= i < |a.recommendedProducts| ==> TruthyString(a.recommendedProducts[i].subtitle);
    assert MigrateActivity(a).0 == a;
  }

  /** Start-up is idempotent: loading what the first start-up left in storage
      yields the same state and writes nothing. */
  lemma LoadTwiceChangesNothing(st: Storage, createdAt: string, now: string,
                                createdAt': string, now': string)
    ensures var r1 := Load(st, createdAt, now);
            var r2 := Load(r1.storage, createdAt', now');
            r2.state == r1.state && r2.storage == r1.storage
            && !r2.wroteActivities && !r2.wroteGlobal
  {
    match st.activities
    case Some(stored) => MigrateIdempotent(stored);
    case None => SeedActivityIsMigrated(createdAt);
  }

  /** A stored snapshot from before the rename, whose first food has lost its
      subtitle: after start-up the activity carries the current title and
      subtitle, the food's subtitle is back from the seed, and the activities
      are written. */
  lemma LegacySnapshotIsUpgraded(st: Storage, createdAt: string, now: string)
    requires st.activities.Some? && |st.activities.value| > 0
    requires st.activities.value[0].id == Seed.LegacyActivityId
    requires st.activities.value[0].name == Seed.LegacyName
    requires |st.activities.value[0].recommendedFoods| > 0
    requires st.activities.value[0].recommendedFoods[0].id == "f1"
    requires st.activities.value[0].recommendedFoods[0].subtitle == None
    ensures var r := Load(st, createdAt, now);
            && |r.state.activities| == |st.activities.value|
            && r.state.activities[0].name == Seed.CurrentName
            && r.state.activities[0].subtitle == Some(Seed.CurrentSubtitle)
            && |r.state.activities[0].recommendedFoods| > 0
            && r.state.activities[0].recommendedFoods[0].subtitle == Some("山野之鲜")
            && r.wroteActivities
  {
    assert IsFirst(Seed.InitialFoods(""), "f1", ProductId, 0);
  }

  /** What a call writes is what the next start-up reads: loading a snapshot
      gives back the same state and writes nothing, as long as the stored
      activities are already in migrated shape. */
  lemma SnapshotRoundTrip(s: DataState, createdAt: string, now: string)
    requires !Migrate(s.activities).1
    ensures Load(Snapshot(s), createdAt, now) == LoadResult(s, Snapshot(s), false, false)
  {
  }

  /** The migration keys on the title, not on a stored marker: an activity
      saved under the legacy id with the legacy title (the editor's own
      placeholder) gets the current title back at the next start-up. */
  lemma SavedLegacyTitleIsRenamed(s: DataState, a: Activity, createdAt: string, now: string)
    requires |s.activities| > 0 && s.activities[0].id == Seed.LegacyActivityId
    requires a.id == Seed.LegacyActivityId && a.name == Seed.LegacyName
    ensures var r := Load(Snapshot(SaveActivity(s, a)), createdAt, now);
            && |r.state.activities| == |s.activities|
            && r.state.activities[0].name == Seed.CurrentName
            && r.wroteActivities
  {
    assert IsFirst(s.activities, a.id, ActivityId, 0);
  }

  /** A fresh installation: balance 100 and one first-login income entry. */
  lemma FreshStartSeedsBalance(createdAt: string, now: string)
    ensures var r := Load(Storage(None, None), createdAt, now);
            && r.state.global.userBeans == 100
            && r.state.global.transactions == [BeanTransaction("1", Income, 100, "首次登录", now)]
            && r.state.global.orders == []
            && |r.state.global.shopProducts| == 4
            && r.wroteActivities && r.wroteGlobal
  {
  }

  /** A balance of 100 cannot buy the 500-bean tote bag; a balance of 1000
      can, leaving 500 beans and 19 bags. */
  lemma RedeemScenarios(createdAt: string, now: string, address: Option<Address>, stamp: string,
                        orderId: string, orderTime: string)
    ensures var g := Seed.InitialGlobal(createdAt, now);
            var bag := g.shopProducts[0];
            var poor := DataState([], g);
            var rich := DataState([], g.(userBeans := 1000));
            && RedeemProduct(poor, bag, address, stamp, now, orderId, orderTime) == (false, poor)
            && RedeemProduct(rich, bag, address, stamp, now, orderId, orderTime).0
            && RedeemProduct(rich, bag, address, stamp, now, orderId, orderTime).1.global.userBeans == 500
            && RedeemProduct(rich, bag, address, stamp, now, orderId, orderTime).1.global.shopProducts[0].stock == Some(19)
  {
    var g := Seed.InitialGlobal(createdAt, now);
    var rich := DataState([], g.(userBeans := 1000));
    assert FindIndex(g.shopProducts, "sp1", ProductId) == Some(0);
  }
}
