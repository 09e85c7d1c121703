/** The account snapshot the reducer works on: one child's balance, the
    weekly allowance, the total promised to be deducted from future
    allowance, a wishlist, the cash-advance requests and the ledger. */
module Account {

  /** A wishlist entry. */
  datatype Item = Item(id: string, name: string, price: int, emoji: string, createdAt: int)

  /** The three states a cash-advance request can be in. */
  datatype Status = Pending | Approved | Rejected

  /** A cash-advance request: the item the child could not afford, its price,
      and the amount missing from the balance (the shortfall). */
  datatype Request = Request(id: string, itemName: string, itemPrice: int, shortfall: int,
                             status: Status, createdAt: int)

  /** The `type` of a ledger entry. */
  datatype TxKind = Allowance | Purchase | Advance | Deduction

  /** A ledger entry; the ledger is kept newest first. */
  datatype Tx = Tx(id: string, kind: TxKind, description: string, amount: int, date: int)

  /** The whole snapshot. `mode` is a plain string because `SET_MODE` stores
      whatever it is given; the views use "child" and "parent". */
  datatype State = State(mode: string, balance: int, weeklyAllowance: int, futureDeductions: int,
                         items: seq<Item>, requests: seq<Request>, transactions: seq<Tx>)

  const ChildMode := "child"
  const ParentMode := "parent"

  function ItemId(it: Item): string { it.id }
  function RequestId(q: Request): string { q.id }

  /** The snapshot used when nothing is stored and by `RESET_DATA`. It is built
      once, when the module is loaded; `loadedAt` is the clock at that moment,
      and the sample entries are dated relative to it. */
  function DefaultState(loadedAt: int): (d: State)
    ensures d.mode == ChildMode && d.balance == 50000 && d.weeklyAllowance == 10000
    ensures d.futureDeductions == 0 && d.requests == []
    ensures |d.items| == 3 && |d.transactions| == 3
  {
    State(
      mode := ChildMode,
      balance := 50000,
      weeklyAllowance := 10000,
      futureDeductions := 0,
      items := [
        Item("1", "레고 닌자고 세트", 45000, "🧱", loadedAt - 86400000),
        Item("2", "포켓몬 카드팩", 8000, "🃏", loadedAt - 43200000),
        Item("3", "아이스크림 케이크", 25000, "🍰", loadedAt)
      ],
      requests := [],
      transactions := [
        Tx("t1", Allowance, "주간 용돈 입금", 10000, loadedAt - 604800000),
        Tx("t2", Purchase, "문구 세트 구매", -5000, loadedAt - 259200000),
        Tx("t3", Allowance, "주간 용돈 입금", 10000, loadedAt - 86400000)
      ]
    )
  }

  /** `requests.map(r => r.id === id ? { ...r, status } : r)`: every request
      carrying `id` gets the new status, and nothing else changes. */
  function SetStatus(rs: seq<Request>, id: string, status: Status): (r: seq<Request>)
    ensures |r| == |rs|
    ensures forall i :: 0 <= i < |rs| ==> r[i].(status := rs[i].status) == rs[i]
    ensures forall i :: 0 <= i < |rs| && rs[i].id == id ==> r[i].status == status
    ensures forall i :: 0 <= i < |rs| && rs[i].id != id ==> r[i] == rs[i]
  {
    if rs == [] then []
    else
      var head := if rs[0].id == id then rs[0].(status := status) else rs[0];
      [head] + SetStatus(rs[1..], id, status)
  }

  /** Sum of the shortfalls of the approved requests: what the guardian has
      advanced and not yet recovered. */
  function ApprovedTotal(rs: seq<Request>): int {
    if rs == [] then 0 else Outstanding(rs[0]) + ApprovedTotal(rs[1..])
  }

  /** What one request adds to the amount still to be deducted. */
  function Outstanding(q: Request): int {
    if q.status == Approved then q.shortfall else 0
  }

  /** Sum of the amounts of a list of ledger entries. */
  function LedgerTotal(txs: seq<Tx>): int {
    if txs == [] then 0 else txs[0].amount + LedgerTotal(txs[1..])
  }

  /** No two requests share an id. */
  predicate UniqueRequestIds(rs: seq<Request>) {
    forall i, j :: 0 <= i < j < |rs| ==> rs[i].id != rs[j].id
  }
}
