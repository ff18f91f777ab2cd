/** The list edits of the activity editor (src/pages/admin/ActivityEditor.tsx):
    quiz questions and their options, vote options, the recommendation product
    lists, and the save guard. `stamp` stands for `Date.now().toString()`,
    `createdAt` for `new Date().toISOString()`. */
module ActivityEditor {
  import opened Optional
  import opened Types
  import opened SeqUtil
  import DataManager

  const NewQuestionTitle: string := "新题目"
  const NewQuestionOptions: seq<string> := ["选项A", "选项B", "选项C"]
  const NewOptionText: string := "新选项"
  const NewItemName: string := "新项目"

  // --- Quiz questions ---

  /** A question whose answer is one of at least two options. */
  predicate ValidQuestion(q: Question)
  {
    |q.options| >= 2 && 0 <= q.correctIndex < |q.options|
  }

  /** "+ 添加题目": appends a three-option question answered by its first
      option (the list starts empty when absent). */
  function AddQuestion(qs: Option<seq<Question>>, stamp: string): (r: seq<Question>)
    ensures |r| == |qs.GetOr([])| + 1
    ensures r[..|r| - 1] == qs.GetOr([])
    ensures r[|r| - 1].id == stamp && r[|r| - 1].title == NewQuestionTitle
    ensures r[|r| - 1].options == NewQuestionOptions && r[|r| - 1].correctIndex == 0
    ensures ValidQuestion(r[|r| - 1])
  {
    qs.GetOr([]) + [Question(stamp, NewQuestionTitle, NewQuestionOptions, 0)]
  }

  // Deleting question, vote option or list item `k` is the index filter
  // `SeqUtil.DropIndex`.

  function EditTitle(q: Question, title: string): (r: Question)
    ensures r.title == title && r.options == q.options && r.correctIndex == q.correctIndex && r.id == q.id
  {
    q.(title := title)
  }

  /** The radio button of option `k`. */
  function SetCorrect(q: Question, k: int): (r: Question)
    requires 0 <= k < |q.options|
    ensures r.options == q.options && r.correctIndex == k
    ensures 0 <= r.correctIndex < |r.options| && r.options[r.correctIndex] == q.options[k]
    ensures r.title == q.title && r.id == q.id
  {
    q.(correctIndex := k)
  }

  /** Typing into option `k`. */
  function EditOption(q: Question, k: int, text: string): (r: Question)
    requires 0 <= k < |q.options|
    ensures |r.options| == |q.options| && r.options[k] == text
    ensures forall i :: 0 <= i < |q.options| && i != k ==> r.options[i] == q.options[i]
    ensures r.correctIndex == q.correctIndex && r.title == q.title && r.id == q.id
  {
    q.(options := q.options[k := text])
  }

  /** "+ 添加选项": appends a default option; the answer stays put. */
  function AddOption(q: Question): (r: Question)
    ensures |r.options| == |q.options| + 1
    ensures r.options[..|q.options|] == q.options && r.options[|q.options|] == NewOptionText
    ensures r.correctIndex == q.correctIndex && r.title == q.title && r.id == q.id
  {
    q.(options := q.options + [NewOptionText])
  }

  /** The delete button of option `k`. It is disabled while the question has
      at most two options; otherwise the option goes and the answer index is
      re-clamped: reset to 0 if the answer itself was removed, shifted down if
      it came after the removed option. */
  function RemoveOption(q: Question, k: int): (r: Question)
    requires 0 <= k < |q.options|
    ensures |q.options| <= 2 ==> r == q
    ensures |q.options| > 2 ==> r.options == q.options[..k] + q.options[k + 1..]
    ensures |q.options| > 2 && q.correctIndex == k ==> r.correctIndex == 0
    ensures |q.options| > 2 && q.correctIndex > k ==> r.correctIndex == q.correctIndex - 1
    ensures |q.options| > 2 && q.correctIndex < k ==> r.correctIndex == q.correctIndex
    ensures r.title == q.title && r.id == q.id
  {
    if |q.options| <= 2 then q
    else
      var ci := if q.correctIndex == k then 0
                else if q.correctIndex > k then q.correctIndex - 1
                else q.correctIndex;
      q.(options := DropIndex(q.options, k), correctIndex := ci)
  }

  /** Removing an option other than the answer keeps the same answer text
      selected. */
  lemma RemoveOptionKeepsAnswer(q: Question, k: int)
    requires 0 <= k < |q.options|
    requires 0 <= q.correctIndex < |q.options| && q.correctIndex != k
    ensures var r := RemoveOption(q, k);
            0 <= r.correctIndex < |r.options| && r.options[r.correctIndex] == q.options[q.correctIndex]
  {
  }

  /** Every question edit keeps a valid question valid: at least two options
      and an answer index within them. */
  lemma QuestionEditsKeepValid(q: Question, k: int, text: string, title: string)
    requires ValidQuestion(q)
    requires 0 <= k < |q.options|
    ensures ValidQuestion(RemoveOption(q, k))
    ensures ValidQuestion(AddOption(q))
    ensures ValidQuestion(SetCorrect(q, k))
    ensures ValidQuestion(EditOption(q, k, text))
    ensures ValidQuestion(EditTitle(q, title))
  {
  }

  // --- Vote options ---

  /** "+ 添加选项" on the vote list: a zero-vote option without image. */
  function AddVoteOption(opts: Option<seq<VoteOption>>, stamp: string): (r: seq<VoteOption>)
    ensures |r| == |opts.GetOr([])| + 1
    ensures r[..|r| - 1] == opts.GetOr([])
    ensures r[|r| - 1] == VoteOption(stamp, NewOptionText, "", 0, None)
  {
    opts.GetOr([]) + [VoteOption(stamp, NewOptionText, "", 0, None)]
  }

  datatype VoteOptionEdit = VoteName(name: string) | VoteCount(votes: int) | VoteImage(url: string)

  function EditVoteOption(opts: seq<VoteOption>, k: int, e: VoteOptionEdit): (r: seq<VoteOption>)
    requires 0 <= k < |opts|
    ensures |r| == |opts|
    ensures forall i :: 0 <= i < |opts| && i != k ==> r[i] == opts[i]
    ensures r[k].id == opts[k].id && r[k].color == opts[k].color
    ensures e.VoteName? ==> r[k] == opts[k].(name := e.name)
    ensures e.VoteCount? ==> r[k] == opts[k].(votes := e.votes)
    ensures e.VoteImage? ==> r[k] == opts[k].(imageUrl := e.url)
  {
    var o := opts[k];
    opts[k := match e
              case VoteName(n) => o.(name := n)
              case VoteCount(v) => o.(votes := v)
              case VoteImage(u) => o.(imageUrl := u)]
  }

  // --- Recommendation product lists ---

  /** "添加": a zero-priced CNY item placed after the existing ones. */
  function AddItem(items: seq<Product>, kind: ProductType, stamp: string, createdAt: string): (r: seq<Product>)
    ensures |r| == |items| + 1
    ensures r[..|items|] == items
    ensures r[|items|].displayOrder == |items| + 1
    ensures r[|items|].price == 0 && r[|items|].currency == Cny
    ensures r[|items|].kind == kind && r[|items|].id == stamp && r[|items|].name == NewItemName
  {
    items + [Product(stamp, kind, NewItemName, None, "", [""], 0, Cny, None, None,
                     |items| + 1, true, createdAt)]
  }

  /** A list built by `add` alone numbers its items 1, 2, 3, ... */
  ghost predicate OrdersAreConsecutive(items: seq<Product>)
  {
    forall i :: 0 <= i < |items| ==> items[i].displayOrder == i + 1
  }

  /** Adding keeps a consecutively numbered list consecutive. */
  lemma AddItemKeepsOrdersConsecutive(items: seq<Product>, kind: ProductType, stamp: string, createdAt: string)
    requires OrdersAreConsecutive(items)
    ensures OrdersAreConsecutive(AddItem(items, kind, stamp, createdAt))
  {
  }

  /** The display order is taken from the list length, not from the orders
      present: after deleting an item, the next one added repeats the last
      item's order. */
  lemma RemoveThenAddRepeatsOrder(items: seq<Product>, kind: ProductType, stamp: string, createdAt: string)
    requires OrdersAreConsecutive(items) && |items| >= 2
    ensures var r := AddItem(DropIndex(items, 0), kind, stamp, createdAt);
            |r| == |items| && r[|r| - 2].displayOrder == r[|r| - 1].displayOrder == |items|
  {
  }

  /** The fields the list editor writes through `update` and `updateImage`. */
  datatype ItemEdit = ItemName(name: string) | ItemPrice(price: int)
                    | ItemDescription(description: string) | ItemImage(url: string)

  function UpdateItem(items: seq<Product>, k: int, e: ItemEdit): (r: seq<Product>)
    requires 0 <= k < |items|
    ensures |r| == |items|
    ensures forall i :: 0 <= i < |items| && i != k ==> r[i] == items[i]
    ensures e.ItemName? ==> r[k] == items[k].(name := e.name)
    ensures e.ItemPrice? ==> r[k] == items[k].(price := e.price)
    ensures e.ItemDescription? ==> r[k] == items[k].(description := e.description)
    ensures e.ItemImage? ==> r[k] == items[k].(images := [e.url])
    ensures forall i :: 0 <= i < |items| ==> r[i].displayOrder == items[i].displayOrder && r[i].id == items[i].id
  {
    var p := items[k];
    items[k := match e
               case ItemName(n) => p.(name := n)
               case ItemPrice(v) => p.(price := v)
               case ItemDescription(d) => p.(description := d)
               case ItemImage(u) => p.(images := [u])]
  }

  // --- Save ---

  /** "保存": nothing is saved while the form's name or id is empty;
      otherwise the form goes through the data manager's upsert. */
  function HandleSave(s: DataManager.DataState, form: Activity): (r: (DataManager.DataState, bool))
    ensures !r.1 <==> form.name == "" || form.id == ""
    ensures !r.1 ==> r.0 == s
    ensures r.1 ==> r.0 == DataManager.SaveActivity(s, form)
  {
    if form.name == "" || form.id == "" then (s, false)
    else (DataManager.SaveActivity(s, form), true)
  }
}
