/**
 * The treasury canister's state and its two update calls.  The state is the
 * transfer-history map; a ghost log records every ledger call issued, in
 * order.  The remote calls are replaced by their outcomes, passed in: the
 * caller and the status call's outcome for the controller check, and one
 * `TransferStep` (clock reading and ledger reply) per transfer.
 */
module Treasury {
  import opened Primitives
  import opened History
  import opened Updates

  class TreasuryCanister {
    /** The stable transfer-history map, `u64 -> TransferHistory`. */
    var history: map<U64, TransferHistory>
    /** Every `icrc1_transfer` call issued so far, in order. */
    ghost var issued: seq<LedgerCall>

    /** Every key of the history lies in `1..|history|`. */
    ghost predicate Valid()
      reads this
    {
      Dense(history)
    }

    /** A freshly initialised (empty) history. */
    constructor ()
      ensures Valid()
      ensures history == map[] && issued == []
    {
      history := map[];
      issued := [];
    }

    /** The records in insertion order. */
    ghost function Log(): seq<TransferHistory>
      reads this
      requires Valid()
    {
      Records(history)
    }

    /** Read the history's length and insert `rec` at `length + 1`. */
    method Append(rec: TransferHistory)
      requires Valid() && |history| < U64_MAX
      modifies this`history
      ensures Valid()
      ensures history == Insert(old(history), rec)
    {
      var id: U64 := |history|;
      history := history[id + 1 := rec];
    }

    /** `transfer_tokens`: issue one `icrc1_transfer` call and map the ledger's reply. */
    method IssueTransfer(arg: TransferArg, ledgerId: string, reply: LedgerReply)
      returns (r: Result<U64, UpdateError>)
      modifies this`issued
      ensures issued == old(issued) + [LedgerCall(ledgerId, arg)]
      ensures r == TransferTokens(reply)
    {
      issued := issued + [LedgerCall(ledgerId, arg)];
      r := TransferTokens(reply);
    }

    /**
     * `transfer_to_principal`: a non-controller gets `NotController` and
     * nothing happens; otherwise one transfer is issued and, if the ledger
     * accepts it, the argument is appended and the block index returned.
     */
    method TransferToPrincipal(caller: Principal, status: StatusOutcome, step: TransferStep,
                               arg: TransferToPrincipal)
      returns (r: Result<U64, UpdateError>)
      requires Valid() && |history| < U64_MAX
      modifies this
      ensures Valid()
      ensures !IsController(caller, status) ==>
        r == Err(NotController) && history == old(history) && issued == old(issued)
      ensures IsController(caller, status) ==>
        && issued == old(issued) + [SingleCall(arg, step.now)]
        && r == TransferTokens(step.reply)
      ensures IsController(caller, status) && step.reply.Transferred? ==>
        && r == Ok(step.reply.blockIndex)
        && history == Insert(old(history), TransferHistory.TransferToPrincipal(arg))
        && Log() == old(Log()) + [TransferHistory.TransferToPrincipal(arg)]
        && |history| == old(|history|) + 1
      ensures IsController(caller, status) && !step.reply.Transferred? ==>
        r.Err? && r.error != NotController && history == old(history)
    {
      if !IsController(caller, status) {
        return Err(NotController);
      }
      var transferAmountArg := RecipientTransfer(arg.principal, arg.amount, step.now);
      var res := IssueTransfer(transferAmountArg, arg.ledgerId, step.reply);
      if res.Err? {
        return Err(res.error);
      }
      var blockIndex := res.value;
      RecordsAfterInsert(history, TransferHistory.TransferToPrincipal(arg));
      Append(TransferHistory.TransferToPrincipal(arg));
      return Ok(blockIndex);
    }

    /**
     * `transfer_to_multiple`: a non-controller gets `NotController` and
     * nothing happens; otherwise the recipients are paid in order, each
     * success appending the whole batch argument, and the first failure
     * ends the call with that failure's error.
     */
    method TransferToMultiple(caller: Principal, status: StatusOutcome, steps: seq<TransferStep>,
                              arg: TransferToMuliple)
      returns (r: Result<(), UpdateError>)
      requires Valid() && |history| + |arg.principals| <= U64_MAX
      requires |arg.principals| <= |steps|
      modifies this
      ensures Valid()
      ensures !IsController(caller, status) ==>
        r == Err(NotController) && history == old(history) && issued == old(issued)
      ensures IsController(caller, status) ==>
        var n := |arg.principals|;
        var k := Leading(steps, n);
        && r == (if k == n then Ok(()) else Err(TransferTokens(steps[k].reply).error))
        && history == InsertN(old(history), TransferHistory.TransferToMultiple(arg), k)
        && issued == old(issued) + BatchCalls(arg, steps, CallsIssued(k, n))
      ensures IsController(caller, status) && arg.principals == [] ==>
        r == Ok(()) && history == old(history) && issued == old(issued)
      ensures IsController(caller, status) && r.Err? ==> r.error != NotController
    {
      if !IsController(caller, status) {
        return Err(NotController);
      }
      ghost var k := Leading(steps, |arg.principals|);
      ghost var h0, log0 := history, issued;
      var record := TransferHistory.TransferToMultiple(arg);
      var i := 0;
      while i < |arg.principals|
        invariant 0 <= i <= |arg.principals| && i <= k
        invariant history == InsertN(h0, record, i)
        invariant issued == log0 + BatchCalls(arg, steps, i)
      {
        var principal := arg.principals[i];
        var transferAmountArg := RecipientTransfer(principal.principal, principal.amount, steps[i].now);
        var res := IssueTransfer(transferAmountArg, arg.ledgerId, steps[i].reply);
        assert issued == log0 + BatchCalls(arg, steps, i + 1) by {
          assert RecipientCall(arg, steps, i) == LedgerCall(arg.ledgerId, transferAmountArg);
        }
        if res.Err? {
          assert i == k && history == InsertN(h0, record, k);
          return Err(res.error);
        }
        assert steps[i].reply.Transferred? && i < k;
        ghost var before := history;
        Append(record);
        assert history == Insert(before, record) == InsertN(h0, record, i + 1);
        i := i + 1;
      }
      assert i == k;
      return Ok(());
    }
  }
}
