/**
 * The external collaborators the mempool code talks to: the full node's RPC
 * server, the wallet backend and the address decoder of the `dcrutil`
 * library. Nothing here is implemented; every answer they can give is an
 * input of the model.
 */
module Rpc {
  import opened Wrappers

  newtype byte = x: int | 0 <= x < 0x100
  newtype uint32 = x: int | 0 <= x < 0x1_0000_0000

  /** A transaction hash as the node reports it. */
  type Hash = seq<byte>

  /** A Go `error` value. */
  datatype Error = Error(message: string)

  /** `dcrjson.ScriptPubKeyResult`: the encoded addresses an output pays to. */
  datatype ScriptPubKey = ScriptPubKey(addresses: seq<string>)

  /** `dcrjson.Vout`: one output of a verbose transaction. */
  datatype Vout = Vout(scriptPubKey: ScriptPubKey)

  /** `dcrjson.TxRawResult`: the verbose form of a transaction. */
  datatype TxRawResult = TxRawResult(vout: seq<Vout>)

  /** A ticket has a first output with at least one payout address. */
  predicate HasPayout(tx: TxRawResult) {
    |tx.vout| > 0 && |tx.vout[0].scriptPubKey.addresses| > 0
  }

  /** A verbose ticket transaction, for which reading the payout address cannot fail. */
  type TicketTx = tx: TxRawResult | HasPayout(tx)
    witness TxRawResult([Vout(ScriptPubKey([""]))])

  /** The first address of output 0, the payout address of a ticket. */
  function PayoutAddress(tx: TicketTx): string {
    tx.vout[0].scriptPubKey.addresses[0]
  }

  /**
   * `dcrutil.Address`: the human-readable encoding and the raw script
   * address bytes (`ScriptAddress()`). Two addresses with different
   * encodings may have the same script bytes.
   */
  datatype Address = Address(encoded: string, scriptAddress: seq<byte>)

  /** `dcrutil.DecodeAddress`: decodes an encoded address or fails. */
  type Decoder = string -> Result<Address, Error>

  /** `dcrjson.FeeInfoMempool`: the fee summary of the node's mempool. */
  datatype FeeInfoMempool = FeeInfoMempool(number: uint32)

  /** `dcrjson.TicketFeeInfoResult`. */
  datatype TicketFeeInfoResult = TicketFeeInfoResult(feeInfoMempool: FeeInfoMempool)

  /** `wallet.StakeInfoData`, reduced to the counter the mempool code reads. */
  datatype StakeInfoData = StakeInfoData(ownMempoolTix: uint32)

  /**
   * The node's RPC server as it answers during one call of the mempool
   * code: the ticket hashes of `GetRawMempool(GRMTickets)`, the answer of
   * `GetRawTransactionVerbose` for each hash and the answer of
   * `TicketFeeInfo`.
   */
  datatype ChainServer = ChainServer(
    rawMempool: Result<seq<Hash>, Error>,
    rawTransaction: Hash -> Result<TicketTx, Error>,
    ticketFeeInfo: Result<TicketFeeInfoResult, Error>)

  /** The wallet backend: `stakeInfo(i)` answers the i-th `StakeInfo` call (from 0). */
  datatype Wallet = Wallet(stakeInfo: nat -> Result<StakeInfoData, Error>)

  /** One request to the node or the wallet, in the order they are made. */
  datatype Call =
    | GetRawMempool
    | GetRawTransactionVerbose(hash: Hash)
    | StakeInfo
    | TicketFeeInfo
}
