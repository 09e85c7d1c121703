# first-credit: the account reducer in Dafny

This project models the reducer behind the "first credit" allowance app. The
reducer holds one child's account snapshot: the current mode (child or parent
view), the balance, the weekly allowance, and the total to be deducted from
future allowance. It also holds a wishlist of items, a list of cash-advance
requests (pending, approved, rejected) and a ledger of transactions, newest
first. It handles one action at a time. Each action returns a new snapshot or
the given one unchanged, and no action fails.

Files:

- `arrays.dfy` (module `Arrays`): the `find` and `filter` array operations the
  reducer uses, as functions over `seq` keyed by an id.
- `account.dfy` (module `Account`): the records (`Item`, `Request`, `Tx`,
  `State`), `defaultState`, the status-updating `map` over requests, and the
  sums used in the proofs.
- `reducer.dfy` (module `Reducer`): the `Action` datatype, one function per
  reducer case, `Step` (the reducer) and `Run` (several actions in turn).
- `properties.dfy` (module `Properties`): lemmas that relate several actions.
  They cover idempotent approval, the bookkeeping of `futureDeductions`, a
  conservation law, and an invariant kept by every run the views can dispatch.

Design decisions:

- The app takes ids and timestamps from `Date.now()`. Here they are
  fields of the action (`txId`, `itemId`, `requestId`, `now`). An approval
  writes its advance entry with id `txId` and its deduction entry with id
  `txId + "-d"`. This is the reducer's id scheme when both clock readings
  agree.
- `defaultState` is built once, when the module loads. `DefaultState(loadedAt)`
  takes that clock reading, and `ResetData(loadedAt)` carries it.
- `mode` is a string, because `SET_MODE` stores any payload.
- `find` returns the first match. `filter` and `map` act on every element with
  the id. So a purchase charges the price of the first item with the id but
  removes every item with that id. An approval pays the first matching
  request's shortfall but marks every request with that id. The model keeps
  both behaviours.
- The reducer does not check the shortfall carried by `REQUEST_ADVANCE`.
  The only caller computes it as `price - balance`, and only when
  `balance < price` (src/components/ChildView.jsx:50-62). This is stated as an
  assumption about callers (`Properties.Admissible`), not as reducer behaviour.
  Three more caller assumptions are stated the same way:
  - each new request carries an id no earlier request has. The reducer
    builds it as `req-` followed by the clock reading
    (src/context/AppContext.jsx:92), so two requests made in the same
    millisecond, or after the clock moves back, would share an id. With a
    shared id, approval pays one shortfall but approves both requests
    (`Properties.DuplicateIdsBreakDeductions`);
  - the guardian view offers rejection only for pending requests
    (src/components/ParentView.jsx:155-191);
  - it enables a deposit only for a positive amount
    (src/components/ParentView.jsx:397).

A conservation law came out of the proofs. Every action except `RESET_DATA`
keeps `balance − Σ ledger amounts − futureDeductions` fixed
(`Properties.StepConserves`). `REJECT_REQUEST` has no status guard, so
rejecting an already-approved request leaves `futureDeductions` higher than
the approved shortfalls (`Properties.RejectApprovedBreaksDeductions`).

## Model

| member | source | states |
|---|---|---|
| `Arrays.Find` | src/context/AppContext.jsx:73 | `find` yields nothing exactly when no element has the id; otherwise it yields the element at the first position carrying the id |
| `Arrays.WithoutId` | src/context/AppContext.jsx:70 | `filter` keeps each element without the id as often as it occurs, drops every element with the id, and never lengthens the list |
| `Arrays.WithoutIdConcat` | src/context/AppContext.jsx:70 | `filter` keeps the relative order of what it keeps: it distributes over concatenation (used by `Properties.DeleteKeepsOrder`) |
| `Arrays.WithoutAbsentId` | src/context/AppContext.jsx:70 | filtering out an id no item carries returns the list unchanged (used by `Properties.DeleteUnknownIdUnchanged`) |
| `Account.DefaultState` | src/context/AppContext.jsx:9-25 | the default snapshot: child mode, balance 50000, allowance 10000, no future deductions, no requests, three sample items and three sample ledger entries |
| `Account.SetStatus` | src/context/AppContext.jsx:123-125 | the status `map`: same length, only statuses change, every request with the id gets the new status, every other request is untouched |
| `Reducer.OnToggleMode` | src/context/AppContext.jsx:52-53 | the new mode is "parent" exactly when the old one was "child", is always one of the two, and nothing else changes |
| `Reducer.OnSetMode` | src/context/AppContext.jsx:55-56 | the mode becomes the payload and nothing else changes |
| `Reducer.ItemEmoji` | src/context/AppContext.jsx:63 | an added item always has an emoji: the payload's when it is non-empty, otherwise a default |
| `Reducer.OnAddItem` | src/context/AppContext.jsx:58-67 | exactly one item, built from the payload, is placed at the front; the old items follow in order; nothing else changes |
| `Reducer.OnDeleteItem` | src/context/AppContext.jsx:69-70 | the items left are exactly those without the id, each as often as before; nothing else changes |
| `Reducer.PurchaseTx` | src/context/AppContext.jsx:75-81 | a purchase entry books minus the item's price under the given id and time |
| `Reducer.OnPurchaseItem` | src/context/AppContext.jsx:72-88 | unchanged when no item has the id or the balance is below the first such item's price; otherwise the balance drops by exactly that price and stays non-negative, the items left are exactly those deleting the id would leave (every item with the id removed, the rest in order), and one purchase entry is prepended to an otherwise unchanged ledger |
| `Reducer.OnRequestAdvance` | src/context/AppContext.jsx:90-100 | exactly one pending request with the given name, price and shortfall is prepended; no financial field changes |
| `Reducer.ApprovalTxs` | src/context/AppContext.jsx:105-118 | an approval books two entries, the deduction (−shortfall) ahead of the advance (+shortfall), summing to zero |
| `Reducer.OnApproveRequest` | src/context/AppContext.jsx:102-128 | unchanged unless the first request with the id is pending; then balance and future deductions both rise by its shortfall, only requests with that id become approved, the two approval entries are prepended, and items stay unchanged |
| `Reducer.OnRejectRequest` | src/context/AppContext.jsx:130-136 | requests with the id become rejected whatever their status; balance, future deductions, items and ledger are unchanged |
| `Reducer.OnAddAllowance` | src/context/AppContext.jsx:138-151 | the balance rises by exactly the amount and one allowance entry for that amount is prepended |
| `Reducer.Step` | src/context/AppContext.jsx:50-159 | a reset yields the default snapshot, an unknown action returns the snapshot unchanged, and no other action changes the weekly allowance |
| `Properties.ToggleTwiceRestores` | src/context/AppContext.jsx:52-53 | toggling twice restores the mode when it is "child" or "parent" |
| `Properties.ApproveIdempotent` | src/context/AppContext.jsx:103-104 | approving the same id twice gives the same snapshot as approving it once |
| `Properties.SetStatusAbsentId` | src/context/AppContext.jsx:133-135 | marking an id no request carries leaves the requests unchanged |
| `Properties.ApprovedTotalSetStatus` | src/context/AppContext.jsx:123-125 | with unique ids, re-marking one request changes the approved total by exactly that request's change in contribution |
| `Properties.ApprovedTotalRejectUnapproved` | src/context/AppContext.jsx:133-135 | rejecting requests none of which is approved leaves the approved total unchanged |
| `Properties.ApprovePreservesDeductions` | src/context/AppContext.jsx:119-127 | with unique request ids, approval keeps future deductions equal to the sum of approved shortfalls |
| `Properties.DuplicateIdsBreakDeductions` | src/context/AppContext.jsx:92-127 | two pending requests sharing an id: approving that id raises future deductions by the first shortfall only while both become approved, so with a positive second shortfall future deductions fall short of the approved total |
| `Properties.RejectPreservesDeductions` | src/context/AppContext.jsx:130-136 | rejecting an id with no approved request keeps future deductions equal to the approved total |
| `Properties.RejectApprovedBreaksDeductions` | src/context/AppContext.jsx:130-136 | rejecting an approved request with a non-zero shortfall leaves future deductions exceeding the approved total by that shortfall |
| `Properties.LedgerTotalConcat` | src/context/AppContext.jsx:126 | prepending entries adds their total to the ledger total |
| `Properties.StepConserves` | src/context/AppContext.jsx:72-151 | every action except reset keeps balance minus ledger total minus future deductions fixed |
| `Properties.RunConserves` | src/context/AppContext.jsx:50-159 | the same holds for any sequence of actions without a reset |
| `Properties.ApprovedTotalNonNegative` | src/context/AppContext.jsx:122 | with positive shortfalls the approved total is never negative |
| `Properties.SetStatusKeepsShape` | src/context/AppContext.jsx:123-125 | re-marking statuses keeps request ids unique and shortfalls positive |
| `Properties.DefaultConsistent` | src/context/AppContext.jsx:9-25 | the default snapshot is consistent: non-negative balance, unique ids, positive shortfalls, future deductions equal to the approved total |
| `Properties.StepKeepsConsistent` | src/context/AppContext.jsx:50-159 | every action the views can dispatch keeps a consistent snapshot consistent |
| `Properties.RunKeepsConsistent` | src/context/AppContext.jsx:50-159 | every run of such actions from a consistent snapshot ends in a consistent one |
| `Properties.ConsistentDeductionsNonNegative` | src/context/AppContext.jsx:122 | in a consistent snapshot future deductions are never negative |
| `Properties.ReachableConsistent` | src/context/AppContext.jsx:153-154 | every snapshot reached from the default one by actions the views can dispatch is consistent, with non-negative balance and future deductions |
| `Properties.DeleteUnknownIdUnchanged` | src/context/AppContext.jsx:69-70 | deleting an id no item carries returns the snapshot unchanged |
| `Properties.DeleteKeepsOrder` | src/context/AppContext.jsx:69-70 | deleting keeps the order of the remaining items: deleting from a wishlist is deleting from its front part followed by its back part |

## Left out

- Loading and saving through `localStorage`, JSON serialisation and the error
  logging around them (src/context/AppContext.jsx:28-47): browser storage I/O.
  The model starts from a given snapshot and does not load, merge or save one.
- The React context, provider, auto-save effect and hook
  (src/context/AppContext.jsx:162-184): framework wiring.
- `Date.now()`: ids and timestamps are action fields.
  - `defaultState` reads the clock six times at load time
    (src/context/AppContext.jsx:15-17, 21-23); the model uses one reading,
    `loadedAt`.
  - Each action takes one clock reading, `now`, though the app reads the
    clock separately for each id and timestamp. `ADD_ITEM` reads it twice
    (src/context/AppContext.jsx:60, 64) and `APPROVE_REQUEST` four times
    (src/context/AppContext.jsx:106, 110, 113, 117). The model does not capture
    readings that differ within one action.
- Reducer.ApprovalTxs: one clock reading per action; the deduction entry's id
  is assumed to share the advance entry's reading, so it is always
  `txId + "-d"`. In the app the two ids come from separate readings
  (src/context/AppContext.jsx:106, 113) and can differ.
- Amounts are modelled as unbounded integers. In the app they are
  JavaScript numbers (doubles), so sums above 2^53 are rounded; for example
  `state.balance + action.payload` (src/context/AppContext.jsx:148) with an
  amount parsed from "9007199254740993" credits 9007199254740992. The same
  holds for src/context/AppContext.jsx:84 and 121-122. The exact sums that
  `Properties.StepConserves` relies on hold only below that bound.
- The views (src/components/*.jsx, src/App.jsx): markup, local UI state,
  toasts, money formatting and the `parseInt` of form input. Amounts are
  already-parsed integers, so a `NaN` amount is not modelled.
- `state.currentWeek` is displayed by the header (src/components/Header.jsx:68)
  but no action sets it and `defaultState` lacks it, so it is not a field of
  `State`.
- Unicode handling of names and emoji: strings are sequences of characters,
  so the model compares them character by character.
