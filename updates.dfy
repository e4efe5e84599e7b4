/**
 * The values and the pure decisions of the treasury's update calls: the
 * argument and history types, the controller check once the status call's
 * outcome is known, and the mapping of a ledger reply to the update's result.
 */
module Updates {
  import opened Primitives

  /** A principal, identified by its textual form (taken as given). */
  datatype Principal = Principal(text: string)

  /** Argument of `transfer_to_principal`. */
  datatype TransferToPrincipal = TransferToPrincipal(principal: Principal, amount: U64, ledgerId: string)

  /** One recipient of a batch. */
  datatype PrincipalTransfer = PrincipalTransfer(principal: Principal, amount: U64)

  /** Argument of `transfer_to_multiple` (the source's own spelling). */
  datatype TransferToMuliple = TransferToMuliple(principals: seq<PrincipalTransfer>, ledgerId: string)

  /** A history record: the whole argument of the update that wrote it. */
  datatype TransferHistory =
    | TransferToPrincipal(single: TransferToPrincipal)
    | TransferToMultiple(batch: TransferToMuliple)

  /** ICRC-1 account and transfer argument, as the updates fill them in. */
  type Subaccount = seq<bv8>
  datatype Account = Account(owner: Principal, subaccount: Option<Subaccount>)
  datatype TransferArg = TransferArg(
    fromSubaccount: Option<Subaccount>,
    to: Account,
    fee: Option<nat>,
    createdAtTime: Option<U64>,
    memo: Option<seq<bv8>>,
    amount: nat)

  /** One `icrc1_transfer` call: the ledger it goes to and its argument. */
  datatype LedgerCall = LedgerCall(ledgerId: string, arg: TransferArg)

  /**
   * Outcome of the `canister_status` call: the controller list, or the
   * error rendered as text.
   */
  datatype StatusOutcome = StatusOk(controllers: seq<Principal>) | StatusErr(errorText: string)

  /**
   * Outcome of one `icrc1_transfer` call: the call itself failed, the ledger
   * refused the transfer, or the transfer went through at a block index.
   * Foreign error values are kept as their rendered text.
   */
  datatype LedgerReply =
    | CallRejected(callError: string)
    | TransferRejected(transferError: string)
    | Transferred(blockIndex: U64)

  /** What the environment supplies for one transfer: the clock reading and the ledger's reply. */
  datatype TransferStep = TransferStep(now: U64, reply: LedgerReply)

  /** The errors the updates return, as tags; `Message` gives the returned string. */
  datatype UpdateError =
    | NotController
    | LedgerCallFailed(callError: string)
    | LedgerTransferError(transferError: string)

  const NotControllerText: string := "Caller is not a controller"
  const CallFailedPrefix: string := "failed to call ledger: "
  const TransferErrorPrefix: string := "ledger transfer error "

  /** The `String` an update returns for an error. */
  function Message(e: UpdateError): string {
    match e
    case NotController => NotControllerText
    case LedgerCallFailed(d) => CallFailedPrefix + d
    case LedgerTransferError(d) => TransferErrorPrefix + d
  }

  /** Distinct errors give distinct strings, so the string tells the caller which error it was. */
  lemma MessageInjective(e1: UpdateError, e2: UpdateError)
    ensures Message(e1) == Message(e2) ==> e1 == e2
  {
    if Message(e1) == Message(e2) {
      var m := Message(e1);
      assert m[0] == Message(e2)[0];
      match e1
      case NotController =>
      case LedgerCallFailed(d) =>
        assert m[..|CallFailedPrefix|] == CallFailedPrefix;
        assert m[|CallFailedPrefix|..] == d;
      case LedgerTransferError(d) =>
        assert m[..|TransferErrorPrefix|] == TransferErrorPrefix;
        assert m[|TransferErrorPrefix|..] == d;
    }
  }

  /** `needle` occurs in `hay` starting at offset `i`. */
  predicate OccursAt(needle: string, hay: string, i: nat) {
    i + |needle| <= |hay| && hay[i..i + |needle|] == needle
  }

  /** `needle` occurs in `hay` at some offset. */
  ghost predicate IsSubstring(needle: string, hay: string) {
    exists i: nat :: OccursAt(needle, hay, i)
  }

  /** String containment as `str::contains` decides it: try offset 0, then the rest. */
  function Contains(hay: string, needle: string): bool
    decreases |hay|
  {
    if |needle| > |hay| then false
    else if hay[..|needle|] == needle then true
    else Contains(hay[1..], needle)
  }

  /** An occurrence in `hay[1..]` is an occurrence in `hay` one place to the right. */
  lemma OccursAtShift(needle: string, hay: string, j: nat)
    requires |hay| > 0
    ensures OccursAt(needle, hay[1..], j) <==> OccursAt(needle, hay, j + 1)
  {
    if j + 1 + |needle| <= |hay| {
      assert hay[1..][j..j + |needle|] == hay[j + 1..j + 1 + |needle|];
    }
  }

  /** `Contains` finds an occurrence exactly when there is one. */
  lemma {:induction false} ContainsIsSubstring(hay: string, needle: string)
    ensures Contains(hay, needle) <==> IsSubstring(needle, hay)
    decreases |hay|
  {
    if |needle| > |hay| {
      forall i: nat ensures !OccursAt(needle, hay, i) {}
    } else if hay[..|needle|] == needle {
      assert OccursAt(needle, hay, 0);
    } else {
      ContainsIsSubstring(hay[1..], needle);
      if IsSubstring(needle, hay[1..]) {
        var j: nat :| OccursAt(needle, hay[1..], j);
        OccursAtShift(needle, hay, j);
      }
      if IsSubstring(needle, hay) {
        var i: nat :| OccursAt(needle, hay, i);
        assert i != 0;
        OccursAtShift(needle, hay, i - 1);
      }
    }
  }

  /**
   * `is_controller`, given the outcome of the status call: membership in the
   * controller list, or, when the call failed, whether the error text
   * mentions the caller's textual id.
   */
  function IsController(caller: Principal, status: StatusOutcome): (b: bool)
    ensures status.StatusOk? ==> (b <==> caller in status.controllers)
    ensures status.StatusErr? ==> (b <==> IsSubstring(caller.text, status.errorText))
  {
    match status
    case StatusOk(controllers) => caller in controllers
    case StatusErr(errorText) =>
      ContainsIsSubstring(errorText, caller.text);
      Contains(errorText, caller.text)
  }

  /**
   * `transfer_tokens` once the ledger has replied: the block index on
   * success, otherwise the error, with the text the source formats.
   */
  function TransferTokens(reply: LedgerReply): (r: Result<U64, UpdateError>)
    ensures r.Ok? <==> reply.Transferred?
    ensures r.Ok? ==> r.value == reply.blockIndex
    ensures r.Err? ==> r.error != NotController
    ensures reply.CallRejected? ==> Message(r.error) == CallFailedPrefix + reply.callError
    ensures reply.TransferRejected? ==> Message(r.error) == TransferErrorPrefix + reply.transferError
  {
    match reply
    case CallRejected(d) => Err(LedgerCallFailed(d))
    case TransferRejected(d) => Err(LedgerTransferError(d))
    case Transferred(b) => Ok(b)
  }

  /** The transfer argument both updates build: to the owner's default account, no fee, memo or source subaccount. */
  function RecipientTransfer(owner: Principal, amount: U64, now: U64): TransferArg {
    TransferArg(None, Account(owner, None), None, Some(now), None, amount)
  }

  /** The ledger call `transfer_to_principal` issues. */
  function SingleCall(arg: TransferToPrincipal, now: U64): (c: LedgerCall)
    ensures c.ledgerId == arg.ledgerId
    ensures c.arg.to == Account(arg.principal, None) && c.arg.amount == arg.amount
    ensures c.arg.createdAtTime == Some(now)
  {
    LedgerCall(arg.ledgerId, RecipientTransfer(arg.principal, arg.amount, now))
  }

  /** The ledger call `transfer_to_multiple` issues for recipient `i`. */
  function RecipientCall(arg: TransferToMuliple, steps: seq<TransferStep>, i: nat): (c: LedgerCall)
    requires i < |arg.principals| && i < |steps|
    ensures c.ledgerId == arg.ledgerId
    ensures c.arg.to == Account(arg.principals[i].principal, None) && c.arg.amount == arg.principals[i].amount
    ensures c.arg.createdAtTime == Some(steps[i].now)
  {
    LedgerCall(arg.ledgerId, RecipientTransfer(arg.principals[i].principal, arg.principals[i].amount, steps[i].now))
  }

  /** The ledger calls for the first `m` recipients of a batch, in recipient order. */
  function BatchCalls(arg: TransferToMuliple, steps: seq<TransferStep>, m: nat): (cs: seq<LedgerCall>)
    requires m <= |arg.principals| && m <= |steps|
    ensures |cs| == m
    ensures forall i :: 0 <= i < m ==> cs[i] == RecipientCall(arg, steps, i)
  {
    if m == 0 then [] else BatchCalls(arg, steps, m - 1) + [RecipientCall(arg, steps, m - 1)]
  }

  /** How many of the first `n` transfers succeed before the first failure. */
  function Leading(steps: seq<TransferStep>, n: nat): (k: nat)
    requires n <= |steps|
    ensures k <= n
    ensures forall j :: 0 <= j < k ==> steps[j].reply.Transferred?
    ensures k < n ==> !steps[k].reply.Transferred?
  {
    if n == 0 || !steps[0].reply.Transferred? then 0 else 1 + Leading(steps[1..], n - 1)
  }

  /** How many ledger calls a batch of `n` recipients issues when `k` of them lead with success. */
  function CallsIssued(k: nat, n: nat): nat {
    if k < n then k + 1 else n
  }

  /**
   * Corollary of `Leading`'s contract, named for the fail-fast reading: if the
   * first `k` transfers succeed and transfer `k` fails, `Leading` is `k` and
   * `k + 1` calls are issued.
   */
  lemma BatchFailsAt(steps: seq<TransferStep>, n: nat, k: nat)
    requires k < n <= |steps|
    requires forall j :: 0 <= j < k ==> steps[j].reply.Transferred?
    requires !steps[k].reply.Transferred?
    ensures Leading(steps, n) == k
    ensures CallsIssued(Leading(steps, n), n) == k + 1
  {
  }

  /**
   * Corollary of `Leading`'s contract: the batch runs to the end exactly when
   * every transfer succeeds.
   */
  lemma BatchSucceeds(steps: seq<TransferStep>, n: nat)
    requires n <= |steps|
    ensures Leading(steps, n) == n <==> forall j :: 0 <= j < n ==> steps[j].reply.Transferred?
  {
  }
}
