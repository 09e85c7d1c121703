/** What the reducer guarantees across actions: idempotence of approval,
    the bookkeeping of future deductions, a conservation law over the ledger,
    and an invariant kept by every run the views can produce. */
module Properties {
  import opened Arrays
  import opened Account
  import opened Reducer

  // ---------------------------------------------------------------------
  // Mode

  /** Toggling twice restores either of the two modes the views use. */
  lemma ToggleTwiceRestores(s: State)
    requires s.mode == ChildMode || s.mode == ParentMode
    ensures Step(Step(s, ToggleMode), ToggleMode) == s
  {
  }

  // ---------------------------------------------------------------------
  // Approval is idempotent

  /** Approving the same id a second time changes nothing, whatever ids and
      clock readings the two actions carry. */
  lemma ApproveIdempotent(s: State, id: string, tx1: string, now1: int, tx2: string, now2: int)
    ensures var once := Step(s, ApproveRequest(id, tx1, now1));
            Step(once, ApproveRequest(id, tx2, now2)) == once
  {
  }

  // ---------------------------------------------------------------------
  // Future deductions track the approved shortfalls

  /** `futureDeductions` is the sum of the shortfalls of the approved requests. */
  ghost predicate DeductionsMatch(s: State) {
    s.futureDeductions == ApprovedTotal(s.requests)
  }

  /** Re-marking the one request with a given id changes the approved total
      by exactly what that request's own contribution changes by. */
  lemma {:induction false} ApprovedTotalSetStatus(rs: seq<Request>, id: string, k: int, status: Status)
    requires UniqueRequestIds(rs) && 0 <= k < |rs| && rs[k].id == id
    ensures ApprovedTotal(SetStatus(rs, id, status))
         == ApprovedTotal(rs) - Outstanding(rs[k]) + Outstanding(rs[k].(status := status))
  {
    var r := SetStatus(rs, id, status);
    assert r[1..] == SetStatus(rs[1..], id, status);
    if k == 0 {
      SetStatusAbsentId(rs[1..], id, status);
    } else {
      ApprovedTotalSetStatus(rs[1..], id, k - 1, status);
    }
  }

  /** Re-marking an id that no request carries leaves the list as it was. */
  lemma SetStatusAbsentId(rs: seq<Request>, id: string, status: Status)
    requires forall i :: 0 <= i < |rs| ==> rs[i].id != id
    ensures SetStatus(rs, id, status) == rs
  {
  }

  /** Re-marking as rejected requests none of which is approved leaves the
      approved total as it was. */
  lemma {:induction false} ApprovedTotalRejectUnapproved(rs: seq<Request>, id: string)
    requires forall i :: 0 <= i < |rs| && rs[i].id == id ==> rs[i].status != Approved
    ensures ApprovedTotal(SetStatus(rs, id, Rejected)) == ApprovedTotal(rs)
  {
    if rs != [] {
      var r := SetStatus(rs, id, Rejected);
      assert r[1..] == SetStatus(rs[1..], id, Rejected);
      ApprovedTotalRejectUnapproved(rs[1..], id);
    }
  }

  /** `APPROVE_REQUEST` keeps `futureDeductions` equal to the approved total,
      provided request ids are unique. */
  lemma ApprovePreservesDeductions(s: State, id: string, txId: string, now: int)
    requires UniqueRequestIds(s.requests) && DeductionsMatch(s)
    ensures DeductionsMatch(Step(s, ApproveRequest(id, txId, now)))
  {
    var r := Step(s, ApproveRequest(id, txId, now));
    var found := Find(s.requests, RequestId, id);
    if found.Some? {
      var k :| IsFirst(s.requests, RequestId, id, k) && s.requests[k] == found.value;
      if s.requests[k].status == Pending {
        assert Granted(s, r, s.requests[k], id, txId, now);
        ApprovedTotalSetStatus(s.requests, id, k, Approved);
      }
    }
  }

  /** Unique ids are needed: `APPROVE_REQUEST` pays the shortfall of the first
      request with the id but approves every request carrying it, so two
      pending requests sharing an id (made in the same millisecond) leave
      `futureDeductions` short of the approved total by the second shortfall. */
  lemma DuplicateIdsBreakDeductions(first: int, second: int, txId: string, now: int)
    requires second > 0
    ensures var s := State(ChildMode, 0, 10000, 0, [],
                           [Request("req-1", "a", 10, first, Pending, 0),
                            Request("req-1", "b", 10, second, Pending, 0)], []);
            var r := Step(s, ApproveRequest("req-1", txId, now));
            && DeductionsMatch(s)
            && r.futureDeductions == first
            && ApprovedTotal(r.requests) == first + second
            && r.futureDeductions < ApprovedTotal(r.requests)
  {
    var s := State(ChildMode, 0, 10000, 0, [],
                   [Request("req-1", "a", 10, first, Pending, 0),
                    Request("req-1", "b", 10, second, Pending, 0)], []);
    var r := Step(s, ApproveRequest("req-1", txId, now));
    assert IsFirst(s.requests, RequestId, "req-1", 0);
    assert Granted(s, r, s.requests[0], "req-1", txId, now);
    assert s.requests[1..][1..] == [] && r.requests[1..][1..] == [];
    assert ApprovedTotal(s.requests[1..]) == Outstanding(s.requests[1..][0]) + ApprovedTotal(s.requests[1..][1..]);
    assert ApprovedTotal(r.requests[1..]) == Outstanding(r.requests[1..][0]) + ApprovedTotal(r.requests[1..][1..]);
  }

  /** `REJECT_REQUEST` keeps `futureDeductions` equal to the approved total
      when no request with that id has been approved (the guardian's view
      offers rejection only for pending requests). */
  lemma RejectPreservesDeductions(s: State, id: string)
    requires DeductionsMatch(s)
    requires forall i :: 0 <= i < |s.requests| && s.requests[i].id == id ==> s.requests[i].status != Approved
    ensures DeductionsMatch(Step(s, RejectRequest(id)))
  {
    ApprovedTotalRejectUnapproved(s.requests, id);
  }

  /** `REJECT_REQUEST` has no status guard: rejecting an approved request with
      a non-zero shortfall leaves `futureDeductions` as it was while the
      approved total drops by that shortfall, so the two no longer agree. */
  lemma RejectApprovedBreaksDeductions(s: State, id: string, k: int)
    requires UniqueRequestIds(s.requests) && DeductionsMatch(s)
    requires 0 <= k < |s.requests| && s.requests[k].id == id
    requires s.requests[k].status == Approved && s.requests[k].shortfall != 0
    ensures var r := Step(s, RejectRequest(id));
            r.futureDeductions == ApprovedTotal(r.requests) + s.requests[k].shortfall
    ensures !DeductionsMatch(Step(s, RejectRequest(id)))
  {
    ApprovedTotalSetStatus(s.requests, id, k, Rejected);
  }

  // ---------------------------------------------------------------------
  // Conservation: money enters the balance only through the ledger or as an
  // advance booked against future allowance

  /** Prepending entries adds their total to the ledger total. */
  lemma {:induction false} LedgerTotalConcat(a: seq<Tx>, b: seq<Tx>)
    ensures LedgerTotal(a + b) == LedgerTotal(a) + LedgerTotal(b)
  {
    if a == [] {
      assert a + b == b;
    } else {
      assert (a + b)[1..] == a[1..] + b;
      LedgerTotalConcat(a[1..], b);
    }
  }

  /** The part of the balance not explained by the ledger or by advances. */
  function Unexplained(s: State): int {
    s.balance - LedgerTotal(s.transactions) - s.futureDeductions
  }

  /** Every action except `RESET_DATA` keeps `balance - Σ ledger amounts -
      futureDeductions` fixed: a purchase and an allowance move the balance by
      the amount they book, and an approval books two entries summing to zero
      while raising balance and `futureDeductions` alike. */
  lemma StepConserves(s: State, a: Action)
    requires !a.ResetData?
    ensures Unexplained(Step(s, a)) == Unexplained(s)
  {
    var r := Step(s, a);
    match a
    case PurchaseItem(itemId, txId, now) =>
      var found := Find(s.items, ItemId, itemId);
      if found.Some? {
        var k :| IsFirst(s.items, ItemId, itemId, k) && s.items[k] == found.value;
        if s.balance >= s.items[k].price {
          assert Bought(s, r, s.items[k], itemId, txId, now);
          LedgerTotalConcat([PurchaseTx(s.items[k], txId, now)], s.transactions);
        }
      }
    case ApproveRequest(id, txId, now) =>
      var found := Find(s.requests, RequestId, id);
      if found.Some? {
        var k :| IsFirst(s.requests, RequestId, id, k) && s.requests[k] == found.value;
        if s.requests[k].status == Pending {
          assert Granted(s, r, s.requests[k], id, txId, now);
          LedgerTotalConcat(ApprovalTxs(s.requests[k], txId, now), s.transactions);
        }
      }
    case _ =>
  }

  /** No run without a reset changes the conserved quantity. */
  lemma {:induction false} RunConserves(s: State, actions: seq<Action>)
    requires forall i :: 0 <= i < |actions| ==> !actions[i].ResetData?
    ensures Unexplained(Run(s, actions)) == Unexplained(s)
    decreases |actions|
  {
    if actions != [] {
      StepConserves(s, actions[0]);
      RunConserves(Step(s, actions[0]), actions[1..]);
    }
  }

  // ---------------------------------------------------------------------
  // The invariant of every snapshot the views can produce

  /** Every shortfall is positive. */
  ghost predicate PositiveShortfalls(rs: seq<Request>) {
    forall i :: 0 <= i < |rs| ==> rs[i].shortfall > 0
  }

  /** A consistent snapshot: the balance is not negative, request ids are
      unique, shortfalls are positive and `futureDeductions` is the approved total. */
  ghost predicate Consistent(s: State) {
    && s.balance >= 0
    && UniqueRequestIds(s.requests)
    && PositiveShortfalls(s.requests)
    && DeductionsMatch(s)
  }

  /** What the views guarantee about the actions they dispatch: a new request
      carries a fresh id and a shortfall of `price - balance` taken only when
      `balance < price` (so positive); rejection is offered only for pending
      requests; an allowance deposit is enabled only for a positive amount. */
  ghost predicate Admissible(s: State, a: Action) {
    match a
    case RequestAdvance(_, _, shortfall, requestId, _) =>
      shortfall > 0 && forall i :: 0 <= i < |s.requests| ==> s.requests[i].id != requestId
    case RejectRequest(id) =>
      forall i :: 0 <= i < |s.requests| && s.requests[i].id == id ==> s.requests[i].status != Approved
    case AddAllowance(amount, _, _) => amount > 0
    case _ => true
  }

  /** Each action of the run is admissible in the snapshot it is applied to. */
  ghost predicate AdmissibleRun(s: State, actions: seq<Action>)
    decreases |actions|
  {
    actions == [] || (Admissible(s, actions[0]) && AdmissibleRun(Step(s, actions[0]), actions[1..]))
  }

  /** With positive shortfalls, the approved total is never negative. */
  lemma {:induction false} ApprovedTotalNonNegative(rs: seq<Request>)
    requires PositiveShortfalls(rs)
    ensures ApprovedTotal(rs) >= 0
  {
    if rs != [] {
      ApprovedTotalNonNegative(rs[1..]);
    }
  }

  /** Re-marking statuses keeps ids and shortfalls, hence uniqueness and positivity. */
  lemma SetStatusKeepsShape(rs: seq<Request>, id: string, status: Status)
    requires UniqueRequestIds(rs) && PositiveShortfalls(rs)
    ensures UniqueRequestIds(SetStatus(rs, id, status)) && PositiveShortfalls(SetStatus(rs, id, status))
  {
  }

  /** The default snapshot is consistent. */
  lemma DefaultConsistent(loadedAt: int)
    ensures Consistent(DefaultState(loadedAt))
  {
  }

  /** Every admissible action keeps a consistent snapshot consistent. */
  lemma StepKeepsConsistent(s: State, a: Action)
    requires Consistent(s) && Admissible(s, a)
    ensures Consistent(Step(s, a))
  {
    var r := Step(s, a);
    match a
    case PurchaseItem(itemId, txId, now) =>
    case RequestAdvance(itemName, itemPrice, shortfall, requestId, now) =>
      assert r.requests == [r.requests[0]] + s.requests;
    case ApproveRequest(id, txId, now) =>
      ApprovePreservesDeductions(s, id, txId, now);
      var found := Find(s.requests, RequestId, id);
      if found.Some? {
        var k :| IsFirst(s.requests, RequestId, id, k) && s.requests[k] == found.value;
        if s.requests[k].status == Pending {
          assert Granted(s, r, s.requests[k], id, txId, now);
          SetStatusKeepsShape(s.requests, id, Approved);
        }
      }
    case RejectRequest(id) =>
      RejectPreservesDeductions(s, id);
      SetStatusKeepsShape(s.requests, id, Rejected);
    case ResetData(loadedAt) =>
      DefaultConsistent(loadedAt);
    case _ =>
  }

  /** Every admissible run from a consistent snapshot ends in a consistent one. */
  lemma {:induction false} RunKeepsConsistent(s: State, actions: seq<Action>)
    requires Consistent(s) && AdmissibleRun(s, actions)
    ensures Consistent(Run(s, actions))
    decreases |actions|
  {
    if actions != [] {
      StepKeepsConsistent(s, actions[0]);
      RunKeepsConsistent(Step(s, actions[0]), actions[1..]);
    }
  }

  /** In a consistent snapshot nothing is owed in the negative. */
  lemma ConsistentDeductionsNonNegative(s: State)
    requires Consistent(s)
    ensures s.futureDeductions >= 0
  {
    ApprovedTotalNonNegative(s.requests);
  }

  /** Every snapshot reachable from the default one (at start-up or after a
      reset) by actions the views can dispatch is consistent. */
  lemma ReachableConsistent(loadedAt: int, actions: seq<Action>)
    requires AdmissibleRun(DefaultState(loadedAt), actions)
    ensures Consistent(Run(DefaultState(loadedAt), actions))
    ensures Run(DefaultState(loadedAt), actions).futureDeductions >= 0
  {
    DefaultConsistent(loadedAt);
    RunKeepsConsistent(DefaultState(loadedAt), actions);
    ConsistentDeductionsNonNegative(Run(DefaultState(loadedAt), actions));
  }

  // ---------------------------------------------------------------------
  // Deleting from the wishlist

  /** `DELETE_ITEM` with an id no item carries returns the snapshot unchanged. */
  lemma DeleteUnknownIdUnchanged(s: State, id: string)
    requires forall i :: 0 <= i < |s.items| ==> s.items[i].id != id
    ensures Step(s, DeleteItem(id)) == s
  {
    WithoutAbsentId(s.items, ItemId, id);
  }

  /** `DELETE_ITEM` keeps the order of the items it keeps: deleting from a
      wishlist is deleting from its front part followed by its back part. */
  lemma DeleteKeepsOrder(s: State, id: string, front: seq<Item>, back: seq<Item>)
    requires s.items == front + back
    ensures Step(s, DeleteItem(id)).items
         == Step(s.(items := front), DeleteItem(id)).items + Step(s.(items := back), DeleteItem(id)).items
  {
    assert Step(s, DeleteItem(id)).items == WithoutId(front + back, ItemId, id);
    assert Step(s.(items := front), DeleteItem(id)).items == WithoutId(front, ItemId, id);
    assert Step(s.(items := back), DeleteItem(id)).items == WithoutId(back, ItemId, id);
    WithoutIdConcat(front, back, ItemId, id);
  }
}
