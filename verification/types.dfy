/** The persisted record shapes of the campaign application: activities,
    products, vote options, quiz questions, the bean ledger, orders and the
    global bundle (src/types/index.ts). Optional TypeScript fields are
    `Option`s; string literal unions are datatypes. */
module Types {
  import opened Optional

  datatype ProductType = Food | Merchandise | Spot | Digital
  datatype Currency = Cny | Beans

  /** A product. `price` is an integer: bean prices for shop items; for
      recommendation items a display price in fen. `stock` is only set for
      shop items. */
  datatype Product = Product(
    id: string,
    kind: ProductType,
    name: string,
    subtitle: Option<string>,
    description: string,
    images: seq<string>,
    price: int,
    currency: Currency,
    stock: Option<int>,
    tags: Option<seq<string>>,
    displayOrder: int,
    isActive: bool,
    createdAt: string)

  datatype VoteOption = VoteOption(
    id: string,
    name: string,
    imageUrl: string,
    votes: int,
    color: Option<string>)

  /** A quiz question; `correctIndex` selects the right entry of `options`. */
  datatype Question = Question(
    id: string,
    title: string,
    options: seq<string>,
    correctIndex: int)

  datatype InteractionKind = Vote | Quiz

  /** Both lists are optional and may coexist: switching the kind in the
      editor keeps whichever list was already there. */
  datatype Interaction = Interaction(
    kind: InteractionKind,
    voteOptions: Option<seq<VoteOption>>,
    questions: Option<seq<Question>>)

  datatype Theme = Ink | Festive | Minimalist

  datatype Activity = Activity(
    id: string,
    name: string,
    subtitle: Option<string>,
    termType: string,
    startTime: string,
    endTime: string,
    theme: Theme,
    interaction: Interaction,
    recommendedFoods: seq<Product>,
    recommendedProducts: seq<Product>,
    recommendedSpots: seq<Product>,
    isActive: bool)

  datatype TxType = Income | Expense

  /** One ledger entry; `amount` is a magnitude whose sign `kind` gives. */
  datatype BeanTransaction = BeanTransaction(
    id: string,
    kind: TxType,
    amount: int,
    source: string,
    time: string)

  datatype OrderType = Redeem | Lottery
  datatype OrderStatus = Pending | Shipped

  datatype Address = Address(name: string, phone: string, address: string)

  datatype Order = Order(
    id: string,
    userId: string,
    kind: OrderType,
    productName: string,
    amount: int,
    status: OrderStatus,
    address: Option<Address>,
    time: string)

  /** The singleton bundle of shop inventory, balance, ledger and orders.
      The ledger and the orders are kept newest first. */
  datatype GlobalData = GlobalData(
    shopProducts: seq<Product>,
    userBeans: int,
    transactions: seq<BeanTransaction>,
    orders: seq<Order>)

  function ActivityId(a: Activity): string { a.id }
  function ProductId(p: Product): string { p.id }

  /** JavaScript truthiness of an optional string: set and non-empty. */
  predicate TruthyString(s: Option<string>)
  {
    s.Some? && s.value != ""
  }

  /** JavaScript truthiness of an optional number: set and non-zero. */
  predicate TruthyNumber(n: Option<int>)
  {
    n.Some? && n.value != 0
  }
}
