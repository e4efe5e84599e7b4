# Treasury canister: transfer orchestration and audit log

A Dafny model of the update and query logic of the treasury canister. Controllers use the canister to pay tokens out of its ledger account. The model covers:

- the controller check (`is_controller`);
- the two update calls (`transfer_to_principal`, `transfer_to_multiple`), which issue ICRC-1 transfers and append records to a stable history map;
- the count query (`get_transfer_history`).

The remote calls are not performed. Their outcomes are inputs:

- `StatusOutcome` is the result of `canister_status`: the controller list, or the error's text.
- `TransferStep` carries, for one transfer, the clock reading used for `created_at_time` and the `LedgerReply` to `icrc1_transfer`. The reply is a failed call, a refused transfer, or a block index.

A ghost log, `issued`, records every ledger call an update makes, in order. This lets the contracts say which transfers were issued.

Files:

- `primitives.dfy`: `u64` as a subset type, `Option`, `Result`.
- `history.dfy`: the history map `u64 -> record` and the append-at-`len + 1` step. Also the "dense keys" invariant: the keys are exactly `1..len`. Also the record list in key order.
- `updates.dfy`: the argument and history types, the error tags and their strings, `str::contains`, the controller decision, the reply-to-result mapping of `transfer_tokens`, the transfer arguments built, and the fail-fast count `Leading`.
- `treasury.dfy`: class `TreasuryCanister`. Its field `history` is the stable map. Its methods are the two updates, written as the source writes them (read `len()`, insert at `id + 1`, loop over the recipients with an early return).
- `queries.dfy`: the count query over the canister's state.

What the code does, as modelled:

- The code has no argument validation, no balance query and no query that lists the history.
- `transfer_to_multiple` appends one record per successful recipient. Each such record holds the whole batch argument. A batch that fails at recipient `k + 1` leaves `k` such records (src/treasury/src/api/updates.rs:71-79).
- A failed single transfer appends nothing.
- Sequence numbers start at 1: key 0 is never used.

## Model

| member | source | states |
|---|---|---|
| `Updates.IsController` | src/treasury/src/api/updates.rs:127-143 | when the status call succeeds: true exactly when the caller is in the controller list; when it fails: true exactly when the caller's textual id occurs in the error text |
| `Updates.ContainsIsSubstring` | src/treasury/src/api/updates.rs:136 | the containment test finds the caller's text exactly when it occurs at some offset of the error text |
| `Updates.TransferTokens` | src/treasury/src/api/updates.rs:116-125 | the result is `Ok` exactly when the ledger transferred, carrying its block index; a failed call gives `failed to call ledger: ` + the call error, a refused transfer gives `ledger transfer error ` + the ledger error; neither is the not-a-controller error |
| `Updates.MessageInjective` | src/treasury/src/api/updates.rs:116-125 | the returned error strings, including "Caller is not a controller" (line 56), are distinct for distinct errors, so the string identifies the error |
| `Updates.SingleCall` | src/treasury/src/api/updates.rs:91-101 | the single transfer goes to the argument's principal with no subaccount, for the argument's amount, on the argument's ledger, stamped with the clock reading |
| `Updates.RecipientCall` | src/treasury/src/api/updates.rs:59-69 | the batch transfer for recipient `i` goes to that recipient's principal with no subaccount, for that recipient's amount, on the batch's ledger |
| `Updates.BatchCalls` | src/treasury/src/api/updates.rs:58-71 | the calls for the first `m` recipients are `m` calls, the `i`-th being recipient `i`'s call: recipient order, nothing reordered or skipped |
| `Updates.Leading` | src/treasury/src/api/updates.rs:71 | the number of leading successes: all transfers before it succeeded, and the one at it (if any) failed |
| `Updates.BatchFailsAt` | src/treasury/src/api/updates.rs:58-81 | if the first `k` transfers succeed and transfer `k + 1` fails, the batch stops there: `Leading` is `k` and `k + 1` calls are issued (a corollary of `Leading`'s contract) |
| `Updates.BatchSucceeds` | src/treasury/src/api/updates.rs:58-81 | the batch runs to the end exactly when every transfer succeeds (a corollary of `Leading`'s contract) |
| `History.DenseKeysExact` | src/treasury/src/lib.rs:15-19 | on a history whose keys all lie in `1..len`, every key `1..len` is present: the keys are exactly `1..len` |
| `History.Insert` | src/treasury/src/api/updates.rs:105-112 | the append puts the record at key `len + 1`; on a dense history that key was free, the size grows by exactly one and the result is dense |
| `History.InsertKeepsEntries` | src/treasury/src/api/updates.rs:110-112 | on a dense history an append overwrites no existing entry |
| `History.InsertN` | src/treasury/src/api/updates.rs:72-79 | `n` successive appends keep the history dense and grow it by exactly `n` |
| `History.InsertNEntries` | src/treasury/src/api/updates.rs:72-79 | `n` successive appends keep every earlier entry and put the record at each key `len + 1 .. len + n` |
| `History.Prefix` | src/treasury/src/lib.rs:15-19 | the records at keys `1..n` in ascending key order |
| `History.Records` | src/treasury/src/lib.rs:15-19 | the record list of a dense history has one entry per key, the `i`-th being the record at key `i + 1` |
| `History.RecordsAfterInsert` | src/treasury/src/api/updates.rs:105-112 | on a dense history an append adds the record at the end of the record list |
| `History.RecordsAfterInsertN` | src/treasury/src/api/updates.rs:72-79 | `n` appends of a record add `n` copies of it at the end of the record list |
| `Treasury.TreasuryCanister.constructor` | src/treasury/src/lib.rs:15-19 | the history starts empty, which is dense |
| `Treasury.TreasuryCanister.Append` | src/treasury/src/api/updates.rs:105-112 | reads the length and inserts at `length + 1`, keeping the history dense |
| `Treasury.TreasuryCanister.IssueTransfer` | src/treasury/src/api/updates.rs:116-125 | issues exactly one ledger call with the given argument and returns the mapped reply |
| `Treasury.TreasuryCanister.TransferToPrincipal` | src/treasury/src/api/updates.rs:84-114 | a non-controller gets `NotController`, no call is issued and history is unchanged; otherwise exactly one call is issued; on success the block index is returned and one record equal to the argument is appended (count + 1); on failure the ledger error is returned and history is unchanged |
| `Treasury.TreasuryCanister.TransferToMultiple` | src/treasury/src/api/updates.rs:52-82 | a non-controller gets `NotController` and nothing changes; otherwise, with `k` leading successes, the calls issued are those of the first `k + 1` recipients (all, if none fails) in order, history grows by `k` copies of the batch record, and the result is `Ok(())` or the failing transfer's error; an empty batch changes nothing |
| `Queries.GetTransferHistory` | src/treasury/src/api/queries.rs:5-10 | the count is the number of history entries, which is also the highest key in use and the length of the record list |
| `Queries.CountStable` | src/treasury/src/api/queries.rs:6-10 | two counts with no update in between are equal; the query is a function of the history alone and changes nothing |
| `Queries.CountAfterTransferToPrincipal` | src/treasury/src/api/queries.rs:6-10 | `before` is the history's size before the update and `after` is the count query's answer after it; the result is `NotController` for a non-controller and the mapped ledger reply otherwise; the count after a successful `transfer_to_principal` is one more than before, and equal to it after a failed one |

## Left out

- The `canister_status` call and the `icrc1_transfer` call are network calls. Their outcomes are method inputs (`StatusOutcome`, `TransferStep`).
- `ic_cdk::caller()` and `ic_cdk::id()` are host values. The caller is an input; the canister id does not affect the decision.
- `time()` is the host clock. Each transfer's clock reading is part of its `TransferStep`.
- The `Debug` renderings of foreign error values are kept as opaque strings. This covers the status error, the call rejection and the ledger's `TransferError`. Only the prefixes the code adds are modelled.
- The textual encoding of principals (`to_string`, `from_text`) is library code. A principal is modelled by its text.
- The trap of `Principal::from_text(ledger_id).expect(...)` on an undecodable ledger id is not modelled. Every ledger id is taken to decode.
- Traps and the host's rollback of a trapped message are not modelled.
- The `Storable` impl for `TransferHistory` uses Candid `Encode!`/`Decode!`, a foreign serialisation library. It is not modelled.
- `MemoryManager`, `StableBTreeMap::init` on memory id 10 and `export_candid!` are host storage plumbing. Only the map's shape is kept. History persisted before an upgrade is not modelled: the constructor starts empty.
- The host may interleave other requests at each `await`. This is not modelled: each update runs atomically.
- Treasury.TreasuryCanister.TransferToPrincipal: requires `len < 2^64 - 1`, so that `id + 1` cannot overflow a `u64`. The wrap-around case is not modelled.
- Treasury.TreasuryCanister.TransferToMultiple: requires `len + |principals| <= 2^64 - 1`, so that no `id + 1` can overflow. This is stronger than needed when the batch fails early.
- Treasury.TreasuryCanister.TransferToMultiple: requires one `TransferStep` per recipient. The environment provides each reply; replies after a failure are never used.
