# Ticket buyer: owned tickets in the mempool

This project models, in Dafny, the part of the wallet's automatic ticket buyer
that counts how many unconfirmed stake tickets in the full node's mempool belong
to the operator (`ticketbuyer/mempool.go`). That count feeds the purchase
decision: counting too many stalls buying, and counting too few risks
overspending.

The count has two strategies, chosen by the purchaser's optional voting address:

- **Address scan** (a voting address is set). List the mempool's ticket hashes.
  Fetch each verbose transaction. Decode the first address of output 0. Count
  the tickets whose decoded script-address bytes equal the voting address's
  script bytes. Any failed request or decoding aborts the whole scan with a
  zero count and that error.
- **Wallet-native** (no voting address). Ask the wallet for its stake
  information, at most `stakeInfoReqTries` times. Stop at the first success
  and return its own-mempool-tickets counter. If every attempt fails, return
  a zero count and the last attempt's error.

`allTicketsInMempool` passes through the mempool ticket count from the node's
fee summary.

Files:

- `wrappers.dfy`: `Option` and `Result`.
- `rpc.dfy`: the external collaborators. These are the node's RPC answers
  (`ChainServer`), the wallet's answer to each successive `StakeInfo` call
  (`Wallet`), the address decoder (`Decoder`), the library records read from
  their answers, and `Call`, one request to either of them.
- `mempool.dfy`: the operations, the declarative outcome each one is proved
  against, and the properties of those outcomes.

Every answer from the node, the wallet or the decoder is an input.
`OwnTicketsInMempool` returns Go's `(int, error)` pair plus the sequence of
requests it made. That sequence lets the contracts state which requests each
strategy makes and where it stops. The scan loop and the retry loop are the
methods `ScanMempool` and `StakeInfoWithRetry`. `OwnTicketsInMempool`
dispatches to them on the voting address, as the source's `if` does.

`stakeInfoReqTries` is declared outside `ticketbuyer/mempool.go`. That
declaration is not part of this model, so the bound is a parameter. The model
requires it to be positive: with zero attempts the source would dereference a
nil `curStakeInfo` at line 78.

A success is never reported together with an error left over from an earlier
attempt: `err` is reassigned on every attempt, and the loop stops at the first
success. `StakeInfoOutcome` states this: the error is absent exactly when some
attempt within the bound succeeded.

The scan's declarative outcome rests on two definitions. `Examine` models one
loop step (ticketbuyer/mempool.go:32-46): look the hash up, decode the first
address of output 0, and answer whether its script bytes equal the voting
address's, or answer the first error met. `OwnedIndices` is the set of mempool
positions for which `Examine` answers a match. A successful scan's count is the
size of that set. The helper lemma `SubsetCardinality` (a subset is no larger
than the set containing it) lets `MatchingTicketsCount` turn matched positions
into a lower bound on that count.

## Model

| member | source | states |
|---|---|---|
| `Mempool.OwnTicketsInMempool` | ticketbuyer/mempool.go:19-79 | its count, error and requests are exactly `OwnTicketsOutcome`: the address scan when a voting address is set, the wallet-native count otherwise |
| `Mempool.OwnTicketsOutcome` | ticketbuyer/mempool.go:19-79 | the count is never negative; an error always comes with a zero count; the scan path never calls `StakeInfo`, and the wallet path makes only `StakeInfo` calls |
| `Mempool.ScanMempool` | ticketbuyer/mempool.go:24-51 | the scan loop's count, error and requests equal `ScanOutcome`; its invariants say the counter equals the number of owned tickets among the hashes already examined |
| `Mempool.ScanOutcome` | ticketbuyer/mempool.go:24-51 | with an error the count is 0; on success the count is exactly the number of mempool positions whose decoded payout script bytes equal the voting address's (the size of `OwnedIndices`); the count lies between 0 and the number of mempool hashes; there is no error iff the listing succeeds and every lookup and decoding succeeds; a failing listing makes no lookups; the requests are the listing and then lookups of a prefix of the hashes, in order; they cover all hashes on success and stop at the first failing one (every earlier hash was looked up and decoded successfully), whose error is returned |
| `Mempool.FirstFailure` | ticketbuyer/mempool.go:31-43 | the index it returns is a hash whose lookup or decoding fails, and every earlier hash succeeds; with no index, every hash succeeds |
| `Mempool.OwnedIndicesStep` | ticketbuyer/mempool.go:44-47 | one more examined hash adds its own position to the owned set exactly when its script bytes match, and adds no other position |
| `Mempool.OwnedCountBound` | ticketbuyer/mempool.go:20-48 | the number of owned tickets is at most the number of mempool hashes: the counter starts at 0 and rises by at most 1 per hash |
| `Mempool.EveryTicketOwnedCountsAll` | ticketbuyer/mempool.go:31-48 | when every hash's payout address matches, the count equals the number of hashes |
| `Mempool.SameExaminationSameScan` | ticketbuyer/mempool.go:31-48 | scans whose hashes all examine alike have the same first failure and the same owned tickets |
| `Mempool.OwnershipIsByScriptBytes` | ticketbuyer/mempool.go:39-46 | the scan's outcome depends only on the decoded script bytes: decoders that fail alike and give equal script bytes, with voting addresses of equal script bytes, give the same outcome |
| `Mempool.MatchingTicketsCount` | ticketbuyer/mempool.go:32-47 | for any mempool and any two positions whose lookup and decoding succeed with the voting address's script bytes, whatever their encoded strings, both positions are owned, and a successful scan counts at least two tickets |
| `Mempool.DistinctEncodingsBothCount` | ticketbuyer/mempool.go:39-46 | an example: a two-ticket mempool whose payout addresses are encoded differently from each other and from the voting address, with equal script bytes, scans to a count of 2 with no error |
| `Mempool.StakeInfoWithRetry` | ticketbuyer/mempool.go:60-78 | the retry loop's count, error and requests equal `StakeInfoOutcome`; its invariants say every attempt so far failed and that `err` is the latest attempt's error |
| `Mempool.FirstSuccess` | ticketbuyer/mempool.go:62-73 | the index it returns is a successful attempt below the bound, and every earlier attempt failed; with no index, every attempt below the bound failed |
| `Mempool.StakeInfoOutcome` | ticketbuyer/mempool.go:60-78 | it makes between 1 and `stakeInfoReqTries` calls, all of them `StakeInfo`; there is no error iff some attempt below the bound succeeds; on success the count is that first successful attempt's `OwnMempoolTix`, it is the last call made, and every earlier call failed; otherwise the count is 0, every attempt allowed was made, and the error is the last attempt's |
| `Mempool.AllTicketsInMempool` | ticketbuyer/mempool.go:83-90 | it makes one fee-info request; there is no error iff that request succeeds; on success the count is the mempool fee summary's ticket number, which lies in the 32-bit unsigned range; on failure the count is 0 and the error is the request's |

## Left out

- Go's `int` is taken to be 64 bits wide. The conversions `int(curStakeInfo.OwnMempoolTix)` and `int(tfi.FeeInfoMempool.Number)` (ticketbuyer/mempool.go:78, 89) from `uint32` are then lossless, as `as int` is in the model. On a platform with a 32-bit `int`, values of 2^31 or more would turn negative, and the model does not capture that.
- The delay between `StakeInfo` attempts and the trace logging (ticketbuyer/mempool.go:65-67) are left out. They affect timing and logs only.
- The RPC transport and the internals of `DecodeAddress` and `ScriptAddress` are foreign library code. The model takes the answers as inputs: a decoder function and addresses carrying their script bytes.
- The node's answers are a snapshot. `rawTransaction` is a function of the hash, so the model cannot express a node answering two lookups of the same hash differently.
- The panic on a transaction without outputs or without addresses (ticketbuyer/mempool.go:39) is ruled out by the type `TicketTx`, not modelled. Every ticket the node returns has a first output with at least one address.
- The value of `stakeInfoReqTries` is declared outside the modelled file, so it is a parameter. Zero tries, where the source would dereference nil, is excluded by a precondition.
- The arguments `&zeroUint32, &zeroUint32` of `TicketFeeInfo` (ticketbuyer/mempool.go:84) are not modelled. They only select which summaries the node computes; the model takes the node's mempool summary as given.
- internal/rpchelp/methods.go, rpc/legacyrpc/errors.go, wallet/stakepool.go and vendor/github.com/coolsnady/hcd/crypto/bliss/privkey.go are not part of this model. They are a help table, error constants, a database read and a wrapper around a signature library, with no counting logic.
- The purchase limiter, executor and control loop are not part of this model. Their source files are not among those modelled.
