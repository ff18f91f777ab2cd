/** The built-in seed content the data manager writes on first start and
    consults during the legacy backfill (src/services/DataManager.ts:9-88,
    158-163). `createdAt` stands for the `toISOString()` stamps taken when the
    module loads, one per seed entry in the source and one shared value
    here; image URLs are symbolic names. */
module Seed {
  import opened Optional
  import opened Types

  const LegacyActivityId: string := "spring_equinox_2024"
  /** The activity title of older snapshots, rewritten by the migration. */
  const LegacyName: string := "春分·竖蛋"
  const CurrentName: string := "春分到，蛋儿俏"
  const CurrentSubtitle: string := "春色正中分，美好正当时"

  const InitialBeans: int := 100
  const FirstLoginSource: string := "首次登录"

  function Recommendation(id: string, kind: ProductType, name: string, subtitle: Option<string>,
                          description: string, priceFen: int, tags: Option<seq<string>>,
                          order: int, createdAt: string): Product
  {
    Product(id, kind, name, subtitle, description, ["image:" + id], priceFen, Cny,
            None, tags, order, true, createdAt)
  }

  function InitialVoteOptions(): seq<VoteOption>
  {
    [ VoteOption("1", "水煮蛋", "image:vote-1", 2341, Some("from-orange-100 to-yellow-100")),
      VoteOption("2", "溏心蛋", "image:vote-2", 1892, Some("from-yellow-100 to-orange-100")),
      VoteOption("3", "鸡蛋灌饼", "image:vote-3", 1567, Some("from-amber-100 to-orange-100")),
      VoteOption("4", "酱香鸡蛋", "image:vote-4", 1023, Some("from-red-100 to-orange-100")),
      VoteOption("5", "我来推荐", "image:vote-5", 876, Some("from-green-100 to-emerald-100")) ]
  }

  function InitialFoods(createdAt: string): seq<Product>
  {
    [ Recommendation("f1", Food, "鲜嫩春笋", Some("山野之鲜"), "春日限定美味", 2880, None, 1, createdAt),
      Recommendation("f2", Food, "红油香椿", Some("时令野菜"), "一口春天的味道", 3880, None, 2, createdAt),
      Recommendation("f3", Food, "野生荠菜", Some("鲜香可口"), "鲜美包饺子", 1880, None, 3, createdAt) ]
  }

  function InitialProducts(createdAt: string): seq<Product>
  {
    [ Recommendation("p1", Merchandise, "智能煮蛋器", Some("自动断电"), "精准控温", 5990, None, 1, createdAt),
      Recommendation("p2", Merchandise, "春日野餐垫", Some("加厚防潮"), "防水加厚", 8990, None, 2, createdAt),
      Recommendation("p3", Merchandise, "陶瓷蛋托", Some("可爱造型"), "创意收纳", 2990, None, 3, createdAt) ]
  }

  function InitialSpots(createdAt: string): seq<Product>
  {
    [ Recommendation("s1", Spot, "苏州赏花指南", None, "十里桃花映春风", 0, Some(["热门"]), 1, createdAt),
      Recommendation("s2", Spot, "非遗立蛋体验", None, "亲子互动好去处", 0, Some(["推荐"]), 2, createdAt),
      Recommendation("s3", Spot, "阳澄湖踏青", None, "湖光春色两相宜", 0, Some(["新品"]), 3, createdAt) ]
  }

  function ShopItem(id: string, name: string, description: string, price: int, stock: int,
                    order: int, createdAt: string): Product
  {
    Product(id, Merchandise, name, None, description, ["image:" + id], price, Beans,
            Some(stock), None, order, true, createdAt)
  }

  function InitialShopProducts(createdAt: string): seq<Product>
  {
    [ ShopItem("sp1", "春分限定帆布袋", "限量版", 500, 20, 1, createdAt),
      ShopItem("sp2", "非遗手工风筝", "传统工艺", 800, 5, 2, createdAt),
      ShopItem("sp3", "有机绿茶礼盒", "明前龙井", 1200, 10, 3, createdAt),
      ShopItem("sp4", "立蛋挑战纪念章", "金属徽章", 300, 50, 4, createdAt) ]
  }

  function InitialActivity(createdAt: string): Activity
  {
    Activity(LegacyActivityId, CurrentName, Some(CurrentSubtitle), "chunfen",
             "2024-03-20", "2024-03-22", Ink,
             Interaction(Vote, Some(InitialVoteOptions()), None),
             InitialFoods(createdAt), InitialProducts(createdAt), InitialSpots(createdAt), true)
  }

  /** The global bundle of a fresh installation; `now` is the
      `toLocaleString()` stamp of the first-login transaction. */
  function InitialGlobal(createdAt: string, now: string): GlobalData
  {
    GlobalData(InitialShopProducts(createdAt), InitialBeans,
               [BeanTransaction("1", Income, InitialBeans, FirstLoginSource, now)], [])
  }
}
