/** The read-only query over the treasury's state. */
module Queries {
  import opened Primitives
  import opened History
  import opened Updates
  import opened Treasury

  /**
   * `get_transfer_history`: the number of history entries, which on a valid
   * state is also the highest sequence number in use and the length of the
   * record list.
   */
  function GetTransferHistory(t: TreasuryCanister): (n: U64)
    reads t
    requires t.Valid()
    ensures n == |t.history|
    ensures forall k: U64 :: k in t.history <==> 1 <= k <= n
    ensures |t.Log()| == n
  {
    DenseKeysExact(t.history);
    |t.history|
  }

  /** With no update in between, the query answers the same. */
  twostate lemma CountStable(t: TreasuryCanister)
    requires old(t.Valid()) && unchanged(t`history)
    ensures t.Valid()
    ensures GetTransferHistory(t) == old(GetTransferHistory(t))
  {
  }

  /**
   * The count read before and after a `transfer_to_principal`: one more
   * after a successful transfer, unchanged after any error.
   */
  method CountAfterTransferToPrincipal(t: TreasuryCanister, caller: Principal, status: StatusOutcome,
                                       step: TransferStep, arg: TransferToPrincipal)
    returns (r: Result<U64, UpdateError>, before: U64, after: U64)
    requires t.Valid() && |t.history| < U64_MAX
    modifies t
    ensures before == old(|t.history|)
    ensures t.Valid() && after == GetTransferHistory(t)
    ensures !IsController(caller, status) ==> r == Err(NotController)
    ensures IsController(caller, status) ==> r == TransferTokens(step.reply)
    ensures r.Ok? ==> after == before + 1
    ensures r.Err? ==> after == before
  {
    before := GetTransferHistory(t);
    r := t.TransferToPrincipal(caller, status, step, arg);
    after := GetTransferHistory(t);
  }
}
