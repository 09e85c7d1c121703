/** The reducer: one function per action, and `Step`, which dispatches on the
    action. Every case returns a new snapshot or the one it was given; none
    fails. Ids and the clock (`Date.now()`) arrive as fields of the action. */
module Reducer {
  import opened Arrays
  import opened Account

  /** The actions the reducer understands. The ids and timestamps that the
      app draws from the clock are supplied by the caller. `Unknown` stands
      for any action type outside this list. */
  datatype Action =
    | ToggleMode
    | SetMode(mode: string)
    | AddItem(name: string, price: int, emoji: string, itemId: string, now: int)
    | DeleteItem(itemId: string)
    | PurchaseItem(itemId: string, txId: string, now: int)
    | RequestAdvance(itemName: string, itemPrice: int, shortfall: int, requestId: string, now: int)
    | ApproveRequest(requestId: string, txId: string, now: int)
    | RejectRequest(requestId: string)
    | AddAllowance(amount: int, txId: string, now: int)
    | ResetData(loadedAt: int)
    | Unknown(tag: string)

  /** `TOGGLE_MODE`: "child" becomes "parent", anything else becomes "child". */
  function OnToggleMode(s: State): (r: State)
    ensures r.mode == ParentMode <==> s.mode == ChildMode
    ensures r.mode == ChildMode || r.mode == ParentMode
    ensures r == s.(mode := r.mode)
  {
    s.(mode := if s.mode == ChildMode then ParentMode else ChildMode)
  }

  /** `SET_MODE`: stores the payload as the mode and changes nothing else. */
  function OnSetMode(s: State, mode: string): (r: State)
    ensures r.mode == mode && r == s.(mode := r.mode)
  {
    s.(mode := mode)
  }

  /** The emoji an added item gets: the payload's, or a cart when it is empty. */
  function ItemEmoji(emoji: string): (e: string)
    ensures e != ""
    ensures emoji != "" ==> e == emoji
  {
    if emoji == "" then "🛒" else emoji
  }

  /** `ADD_ITEM`: a new item goes to the front of the wishlist. */
  function OnAddItem(s: State, name: string, price: int, emoji: string, itemId: string, now: int): (r: State)
    ensures |r.items| == |s.items| + 1 && r.items[1..] == s.items
    ensures r.items[0] == Item(itemId, name, price, ItemEmoji(emoji), now)
    ensures r == s.(items := r.items)
  {
    s.(items := [Item(itemId, name, price, ItemEmoji(emoji), now)] + s.items)
  }

  /** `DELETE_ITEM`: removes every item with that id, keeps the rest. */
  function OnDeleteItem(s: State, itemId: string): (r: State)
    ensures forall it :: it in r.items <==> it in s.items && it.id != itemId
    ensures forall it: Item :: it.id != itemId ==> multiset(r.items)[it] == multiset(s.items)[it]
    ensures r == s.(items := r.items)
  {
    s.(items := WithoutId(s.items, ItemId, itemId))
  }

  /** The ledger entry a purchase of `item` writes. */
  function PurchaseTx(item: Item, txId: string, now: int): (t: Tx)
    ensures t.kind == Purchase && t.amount == -item.price && t.id == txId && t.date == now
  {
    Tx(txId, Purchase, item.name + " 구매", -item.price, now)
  }

  /** What a successful purchase of `item` (the first with id `itemId`) does:
      the wishlist loses exactly what `DELETE_ITEM` of that id removes, in
      the same order. */
  ghost predicate Bought(s: State, r: State, item: Item, itemId: string, txId: string, now: int) {
    && r.balance == s.balance - item.price
    && r.items == OnDeleteItem(s, itemId).items
    && (forall it :: it in r.items <==> it in s.items && it.id != itemId)
    && (forall it: Item :: it.id != itemId ==> multiset(r.items)[it] == multiset(s.items)[it])
    && r.transactions == [PurchaseTx(item, txId, now)] + s.transactions
    && r == s.(balance := r.balance, items := r.items, transactions := r.transactions)
  }

  /** `PURCHASE_ITEM`: refused unless an item has that id and the balance
      covers the price of the first such item. */
  function OnPurchaseItem(s: State, itemId: string, txId: string, now: int): (r: State)
    ensures (forall i :: 0 <= i < |s.items| ==> s.items[i].id != itemId) ==> r == s
    ensures forall k :: IsFirst(s.items, ItemId, itemId, k) ==>
      (s.balance < s.items[k].price ==> r == s) &&
      (s.balance >= s.items[k].price ==> Bought(s, r, s.items[k], itemId, txId, now) && r.balance >= 0)
  {
    match Find(s.items, ItemId, itemId)
    case None => s
    case Some(item) =>
      if s.balance < item.price then s
      else
        var left := OnDeleteItem(s, itemId).items;
        var r := s.(balance := s.balance - item.price,
                    items := left,
                    transactions := [PurchaseTx(item, txId, now)] + s.transactions);
        assert Bought(s, r, item, itemId, txId, now);
        r
  }

  /** `REQUEST_ADVANCE`: a new pending request goes to the front of the list;
      no money moves. The shortfall is taken as given. */
  function OnRequestAdvance(s: State, itemName: string, itemPrice: int, shortfall: int,
                            requestId: string, now: int): (r: State)
    ensures |r.requests| == |s.requests| + 1 && r.requests[1..] == s.requests
    ensures r.requests[0] == Request(requestId, itemName, itemPrice, shortfall, Pending, now)
    ensures r == s.(requests := r.requests)
  {
    s.(requests := [Request(requestId, itemName, itemPrice, shortfall, Pending, now)] + s.requests)
  }

  /** The two ledger entries an approval writes, newest first: the future
      deduction, then the advance itself. */
  function ApprovalTxs(q: Request, txId: string, now: int): (ts: seq<Tx>)
    ensures |ts| == 2 && LedgerTotal(ts) == 0
    ensures ts[0].kind == Deduction && ts[0].amount == -q.shortfall && ts[0].id == txId + "-d"
    ensures ts[1].kind == Advance && ts[1].amount == q.shortfall && ts[1].id == txId
  {
    var txs := [Tx(txId + "-d", Deduction, "[미래 용돈 차감 예정] " + q.itemName, -q.shortfall, now),
                Tx(txId, Advance, "[가불 승인] " + q.itemName, q.shortfall, now)];
    assert LedgerTotal(txs[1..]) == txs[1].amount + LedgerTotal(txs[1..][1..]);
    assert txs[1..][1..] == [];
    txs
  }

  /** What a successful approval of `q` (the first request with id
      `requestId`) does. */
  ghost predicate Granted(s: State, r: State, q: Request, requestId: string, txId: string, now: int) {
    && r.balance == s.balance + q.shortfall
    && r.futureDeductions == s.futureDeductions + q.shortfall
    && |r.requests| == |s.requests|
    && (forall i :: 0 <= i < |s.requests| && s.requests[i].id == requestId ==>
          r.requests[i] == s.requests[i].(status := Approved))
    && (forall i :: 0 <= i < |s.requests| && s.requests[i].id != requestId ==>
          r.requests[i] == s.requests[i])
    && r.transactions == ApprovalTxs(q, txId, now) + s.transactions
    && r == s.(balance := r.balance, futureDeductions := r.futureDeductions,
               requests := r.requests, transactions := r.transactions)
  }

  /** `APPROVE_REQUEST`: refused unless the first request with that id is
      pending; then the shortfall is paid out and booked as a future deduction. */
  function OnApproveRequest(s: State, requestId: string, txId: string, now: int): (r: State)
    ensures (forall i :: 0 <= i < |s.requests| ==> s.requests[i].id != requestId) ==> r == s
    ensures forall k :: IsFirst(s.requests, RequestId, requestId, k) ==>
      (s.requests[k].status != Pending ==> r == s) &&
      (s.requests[k].status == Pending ==> Granted(s, r, s.requests[k], requestId, txId, now))
  {
    match Find(s.requests, RequestId, requestId)
    case None => s
    case Some(q) =>
      if q.status != Pending then s
      else
        var r := s.(balance := s.balance + q.shortfall,
                    futureDeductions := s.futureDeductions + q.shortfall,
                    requests := SetStatus(s.requests, requestId, Approved),
                    transactions := ApprovalTxs(q, txId, now) + s.transactions);
        assert Granted(s, r, q, requestId, txId, now);
        r
  }

  /** `REJECT_REQUEST`: every request with that id becomes rejected, whatever
      its status was; no money moves and nothing is written to the ledger. */
  function OnRejectRequest(s: State, requestId: string): (r: State)
    ensures |r.requests| == |s.requests|
    ensures forall i :: 0 <= i < |s.requests| && s.requests[i].id == requestId ==>
      r.requests[i] == s.requests[i].(status := Rejected)
    ensures forall i :: 0 <= i < |s.requests| && s.requests[i].id != requestId ==>
      r.requests[i] == s.requests[i]
    ensures r == s.(requests := r.requests)
  {
    s.(requests := SetStatus(s.requests, requestId, Rejected))
  }

  /** `ADD_ALLOWANCE`: the amount is credited and booked, newest first. */
  function OnAddAllowance(s: State, amount: int, txId: string, now: int): (r: State)
    ensures r.balance == s.balance + amount
    ensures r.transactions == [Tx(txId, Allowance, "용돈 입금", amount, now)] + s.transactions
    ensures LedgerTotal(r.transactions) == LedgerTotal(s.transactions) + amount
    ensures r == s.(balance := r.balance, transactions := r.transactions)
  {
    s.(balance := s.balance + amount,
       transactions := [Tx(txId, Allowance, "용돈 입금", amount, now)] + s.transactions)
  }

  /** The reducer. */
  function Step(s: State, a: Action): (r: State)
    ensures a.ResetData? ==> r == DefaultState(a.loadedAt)
    ensures a.Unknown? ==> r == s
    ensures !a.ResetData? ==> r.weeklyAllowance == s.weeklyAllowance
  {
    match a
    case ToggleMode => OnToggleMode(s)
    case SetMode(mode) => OnSetMode(s, mode)
    case AddItem(name, price, emoji, itemId, now) => OnAddItem(s, name, price, emoji, itemId, now)
    case DeleteItem(itemId) => OnDeleteItem(s, itemId)
    case PurchaseItem(itemId, txId, now) => OnPurchaseItem(s, itemId, txId, now)
    case RequestAdvance(itemName, itemPrice, shortfall, requestId, now) =>
      OnRequestAdvance(s, itemName, itemPrice, shortfall, requestId, now)
    case ApproveRequest(requestId, txId, now) => OnApproveRequest(s, requestId, txId, now)
    case RejectRequest(requestId) => OnRejectRequest(s, requestId)
    case AddAllowance(amount, txId, now) => OnAddAllowance(s, amount, txId, now)
    case ResetData(loadedAt) => DefaultState(loadedAt)
    case Unknown(_) => s
  }

  /** Several actions dispatched one after another. */
  function Run(s: State, actions: seq<Action>): State
    decreases |actions|
  {
    if actions == [] then s else Run(Step(s, actions[0]), actions[1..])
  }
}
