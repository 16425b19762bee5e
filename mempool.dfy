/**
 * The ticket buyer's count of unconfirmed tickets in the node's mempool
 * (ticketbuyer/mempool.go). With a voting address configured the mempool is
 * scanned ticket by ticket; without one the wallet's own stake-info counter
 * is read, retrying a bounded number of times.
 */
module Mempool {
  import opened Wrappers
  import opened Rpc

  /**
   * The part of the ticket purchaser the mempool code reads: the optional
   * voting address and its two RPC collaborators.
   */
  datatype TicketPurchaser = TicketPurchaser(
    votingAddress: Option<Address>,
    chainSvr: ChainServer,
    wallet: Wallet)

  /** What a call returns (`tickets`, `err`) and the requests it made on the way. */
  datatype Outcome = Outcome(tickets: int, err: Option<Error>, calls: seq<Call>)

  // ---------------------------------------------------------------------
  // Address scan (a voting address is configured)
  // ---------------------------------------------------------------------

  /**
   * One step of the scan over the mempool: look the ticket up, decode its
   * payout address and compare its script bytes with the voting address's.
   * The first failing step's error is the answer.
   */
  function Examine(chain: ChainServer, decode: Decoder, voting: Address, h: Hash): Result<bool, Error> {
    match chain.rawTransaction(h)
    case Err(e) => Err(e)
    case Ok(raw) =>
      match decode(PayoutAddress(raw))
      case Err(e) => Err(e)
      case Ok(addr) => Ok(addr.scriptAddress == voting.scriptAddress)
  }

  /** The positions in `hs` of the tickets that pay to the voting address. */
  function OwnedIndices(chain: ChainServer, decode: Decoder, voting: Address, hs: seq<Hash>): set<nat> {
    set i: nat | i < |hs| && Examine(chain, decode, voting, hs[i]) == Ok(true)
  }

  /** The position of the first ticket whose lookup or address decoding fails. */
  function FirstFailure(chain: ChainServer, decode: Decoder, voting: Address, hs: seq<Hash>): (r: Option<nat>)
    ensures r.Some? ==>
      r.value < |hs| && Examine(chain, decode, voting, hs[r.value]).Err? &&
      forall j :: 0 <= j < r.value ==> Examine(chain, decode, voting, hs[j]).Ok?
    ensures r.None? ==> forall j :: 0 <= j < |hs| ==> Examine(chain, decode, voting, hs[j]).Ok?
  {
    if hs == [] then None
    else if Examine(chain, decode, voting, hs[0]).Err? then Some(0)
    else match FirstFailure(chain, decode, voting, hs[1..])
      case Some(k) => Some(k + 1)
      case None => None
  }

  /** The transaction lookups of a scan that fetches every hash of `hs`, in order. */
  function Lookups(hs: seq<Hash>): (r: seq<Call>)
    ensures |r| == |hs|
    ensures forall c :: c in r ==> c.GetRawTransactionVerbose?
  {
    seq(|hs|, i requires 0 <= i < |hs| => GetRawTransactionVerbose(hs[i]))
  }

  /**
   * What the address scan answers: a failing mempool listing, or the first
   * ticket that cannot be looked up or decoded, aborts with no count;
   * otherwise the count is the number of owned tickets.
   */
  function ScanOutcome(chain: ChainServer, decode: Decoder, voting: Address): (r: Outcome)
    ensures r.err.Some? ==> r.tickets == 0
    ensures 0 <= r.tickets
    ensures chain.rawMempool.Ok? ==> r.tickets <= |chain.rawMempool.value|
    ensures r.err.None? ==>
      chain.rawMempool.Ok? && r.tickets == |OwnedIndices(chain, decode, voting, chain.rawMempool.value)|
    ensures r.err.None? <==>
      chain.rawMempool.Ok? &&
      forall i :: 0 <= i < |chain.rawMempool.value| ==>
        Examine(chain, decode, voting, chain.rawMempool.value[i]).Ok?
    ensures |r.calls| > 0 && r.calls[0] == GetRawMempool
    ensures forall c :: c in r.calls[1..] ==> c.GetRawTransactionVerbose?
    ensures chain.rawMempool.Err? ==> r.calls == [GetRawMempool] && r.err == Some(chain.rawMempool.error)
    ensures chain.rawMempool.Ok? ==>
      var hs := chain.rawMempool.value;
      |r.calls| - 1 <= |hs| && r.calls[1..] == Lookups(hs[..|r.calls| - 1]) &&
      (r.err.None? ==> |r.calls| - 1 == |hs|) &&
      (r.err.Some? ==>
        var k := |r.calls| - 2;
        0 <= k && Examine(chain, decode, voting, hs[k]).Err? &&
        r.err == Some(Examine(chain, decode, voting, hs[k]).error) &&
        forall j :: 0 <= j < k ==> Examine(chain, decode, voting, hs[j]).Ok?)
  {
    match chain.rawMempool
    case Err(e) => Outcome(0, Some(e), [GetRawMempool])
    case Ok(hs) =>
      match FirstFailure(chain, decode, voting, hs)
      case None =>
        OwnedCountBound(chain, decode, voting, hs);
        Outcome(|OwnedIndices(chain, decode, voting, hs)|, None, [GetRawMempool] + Lookups(hs))
      case Some(k) =>
        Outcome(0, Some(Examine(chain, decode, voting, hs[k]).error), [GetRawMempool] + Lookups(hs[..k + 1]))
  }

  /** Extending a prefix of the mempool by one hash adds that position if it is owned. */
  lemma OwnedIndicesStep(chain: ChainServer, decode: Decoder, voting: Address, hs: seq<Hash>, i: nat)
    requires i < |hs|
    ensures i !in OwnedIndices(chain, decode, voting, hs[..i])
    ensures OwnedIndices(chain, decode, voting, hs[..i + 1]) ==
      OwnedIndices(chain, decode, voting, hs[..i]) +
      (if Examine(chain, decode, voting, hs[i]) == Ok(true) then {i} else {})
  {
  }

  /** The scan's count never exceeds the number of tickets in the mempool. */
  lemma {:induction false} OwnedCountBound(chain: ChainServer, decode: Decoder, voting: Address, hs: seq<Hash>)
    ensures |OwnedIndices(chain, decode, voting, hs)| <= |hs|
  {
    if hs != [] {
      var n := |hs| - 1;
      OwnedCountBound(chain, decode, voting, hs[..n]);
      OwnedIndicesStep(chain, decode, voting, hs, n);
      assert hs[..n + 1] == hs;
    }
  }

  /** Two decoding results that fail with the same error or give equal script bytes. */
  predicate SameScript(a: Result<Address, Error>, b: Result<Address, Error>) {
    match a
    case Err(e) => b == Err(e)
    case Ok(x) => b.Ok? && b.value.scriptAddress == x.scriptAddress
  }

  /** Scans whose every ticket examines alike find the same failure and the same owned tickets. */
  lemma SameExaminationSameScan(
    chain: ChainServer, d1: Decoder, v1: Address, d2: Decoder, v2: Address, hs: seq<Hash>)
    requires forall h :: Examine(chain, d1, v1, h) == Examine(chain, d2, v2, h)
    ensures FirstFailure(chain, d1, v1, hs) == FirstFailure(chain, d2, v2, hs)
    ensures OwnedIndices(chain, d1, v1, hs) == OwnedIndices(chain, d2, v2, hs)
  {
  }

  /**
   * Ownership is decided by raw script bytes, never by the encoded string:
   * replacing the decoder or the voting address by ones that give the same
   * script bytes leaves the scan's answer unchanged.
   */
  lemma OwnershipIsByScriptBytes(chain: ChainServer, d1: Decoder, v1: Address, d2: Decoder, v2: Address)
    requires v1.scriptAddress == v2.scriptAddress
    requires forall s :: SameScript(d1(s), d2(s))
    ensures ScanOutcome(chain, d1, v1) == ScanOutcome(chain, d2, v2)
  {
    forall h ensures Examine(chain, d1, v1, h) == Examine(chain, d2, v2, h) {
      match chain.rawTransaction(h)
      case Err(_) =>
      case Ok(raw) => assert SameScript(d1(PayoutAddress(raw)), d2(PayoutAddress(raw)));
    }
    if chain.rawMempool.Ok? {
      SameExaminationSameScan(chain, d1, v1, d2, v2, chain.rawMempool.value);
    }
  }

  /** When every ticket in the mempool pays to the voting address, all of them are counted. */
  lemma {:induction false} EveryTicketOwnedCountsAll(chain: ChainServer, decode: Decoder, voting: Address, hs: seq<Hash>)
    requires forall i :: 0 <= i < |hs| ==> Examine(chain, decode, voting, hs[i]) == Ok(true)
    ensures |OwnedIndices(chain, decode, voting, hs)| == |hs|
  {
    if hs != [] {
      var n := |hs| - 1;
      EveryTicketOwnedCountsAll(chain, decode, voting, hs[..n]);
      OwnedIndicesStep(chain, decode, voting, hs, n);
      assert hs[..n + 1] == hs;
    }
  }

  /**
   * Any two tickets of the mempool whose payout addresses decode to the
   * voting address's script bytes are both owned, however their addresses
   * are encoded, and a successful scan counts at least two tickets.
   */
  lemma MatchingTicketsCount(chain: ChainServer, decode: Decoder, voting: Address, i: nat, j: nat)
    requires chain.rawMempool.Ok? && i < |chain.rawMempool.value| && j < |chain.rawMempool.value| && i != j
    requires forall k :: k == i || k == j ==>
      var raw := chain.rawTransaction(chain.rawMempool.value[k]);
      raw.Ok? && decode(PayoutAddress(raw.value)).Ok? &&
      decode(PayoutAddress(raw.value)).value.scriptAddress == voting.scriptAddress
    ensures i in OwnedIndices(chain, decode, voting, chain.rawMempool.value)
    ensures j in OwnedIndices(chain, decode, voting, chain.rawMempool.value)
    ensures ScanOutcome(chain, decode, voting).err.None? ==> ScanOutcome(chain, decode, voting).tickets >= 2
  {
    var hs := chain.rawMempool.value;
    var owned := OwnedIndices(chain, decode, voting, hs);
    assert Examine(chain, decode, voting, hs[i]) == Ok(true);
    assert Examine(chain, decode, voting, hs[j]) == Ok(true);
    SubsetCardinality({i, j}, owned);
  }

  /** A subset is no larger than the set containing it. */
  lemma {:induction false} SubsetCardinality(a: set<nat>, b: set<nat>)
    requires a <= b
    ensures |a| <= |b|
  {
    if a != {} {
      var x :| x in a;
      SubsetCardinality(a - {x}, b - {x});
    }
  }

  /**
   * Two tickets whose payout addresses are written differently, and
   * differently from the voting address, both count once their script bytes
   * equal the voting address's.
   */
  lemma DistinctEncodingsBothCount()
    ensures
      var h1: Hash := [1];
      var h2: Hash := [2];
      var tx1: TicketTx := TxRawResult([Vout(ScriptPubKey(["HsA"]))]);
      var tx2: TicketTx := TxRawResult([Vout(ScriptPubKey(["HsB"]))]);
      var chain := ChainServer(
        Ok([h1, h2]),
        h => if h == h1 then Ok(tx1) else Ok(tx2),
        Err(Error("unused")));
      var decode: Decoder := s => Ok(Address(s, [7, 7]));
      var voting := Address("HsC", [7, 7]);
      PayoutAddress(tx1) != PayoutAddress(tx2) &&
      ScanOutcome(chain, decode, voting).tickets == 2 &&
      ScanOutcome(chain, decode, voting).err == None
  {
    var h1: Hash := [1];
    var h2: Hash := [2];
    var tx1: TicketTx := TxRawResult([Vout(ScriptPubKey(["HsA"]))]);
    var tx2: TicketTx := TxRawResult([Vout(ScriptPubKey(["HsB"]))]);
    var chain := ChainServer(
      Ok([h1, h2]),
      h => if h == h1 then Ok(tx1) else Ok(tx2),
      Err(Error("unused")));
    var decode: Decoder := s => Ok(Address(s, [7, 7]));
    var voting := Address("HsC", [7, 7]);
    var hs := [h1, h2];
    assert Examine(chain, decode, voting, hs[0]) == Ok(true);
    assert Examine(chain, decode, voting, hs[1]) == Ok(true);
    EveryTicketOwnedCountsAll(chain, decode, voting, hs);
  }

  // ---------------------------------------------------------------------
  // Wallet-native count (no voting address)
  // ---------------------------------------------------------------------

  /** The first of the allowed `StakeInfo` attempts that succeeds, if any. */
  function FirstSuccess(w: Wallet, tries: nat): (r: Option<nat>)
    ensures r.Some? ==>
      r.value < tries && w.stakeInfo(r.value).Ok? &&
      forall j :: 0 <= j < r.value ==> w.stakeInfo(j).Err?
    ensures r.None? ==> forall j :: 0 <= j < tries ==> w.stakeInfo(j).Err?
  {
    if tries == 0 then None
    else match FirstSuccess(w, tries - 1)
      case Some(k) => Some(k)
      case None => if w.stakeInfo(tries - 1).Ok? then Some(tries - 1) else None
  }

  /** `n` requests for the wallet's stake information. */
  function StakeInfoCalls(n: nat): (r: seq<Call>)
    ensures |r| == n
    ensures forall c :: c in r ==> c == StakeInfo
  {
    seq(n, _ => StakeInfo)
  }

  /**
   * What the wallet-native count answers: the counter of the first
   * successful attempt, with no error, or, when all `tries` attempts fail,
   * no count and the last attempt's error.
   */
  function StakeInfoOutcome(w: Wallet, tries: nat): (r: Outcome)
    requires tries > 0
    ensures 1 <= |r.calls| <= tries
    ensures forall c :: c in r.calls ==> c == StakeInfo
    ensures r.err.None? <==> exists k :: 0 <= k < tries && w.stakeInfo(k).Ok?
    ensures r.err.Some? ==>
      r.tickets == 0 && r.err == Some(w.stakeInfo(tries - 1).error) && |r.calls| == tries
    ensures r.err.None? ==>
      var last := |r.calls| - 1;
      w.stakeInfo(last).Ok? && r.tickets == w.stakeInfo(last).value.ownMempoolTix as int &&
      forall j :: 0 <= j < last ==> w.stakeInfo(j).Err?
  {
    match FirstSuccess(w, tries)
    case Some(k) => Outcome(w.stakeInfo(k).value.ownMempoolTix as int, None, StakeInfoCalls(k + 1))
    case None => Outcome(0, Some(w.stakeInfo(tries - 1).error), StakeInfoCalls(tries))
  }

  // ---------------------------------------------------------------------
  // ownTicketsInMempool and allTicketsInMempool
  // ---------------------------------------------------------------------

  /**
   * What `ownTicketsInMempool` answers: the address scan when a voting
   * address is configured, the wallet's counter otherwise. The count is
   * never negative, an error always comes with a zero count, and each
   * strategy only makes its own kind of request.
   */
  function OwnTicketsOutcome(t: TicketPurchaser, decode: Decoder, stakeInfoReqTries: nat): (r: Outcome)
    requires stakeInfoReqTries > 0
    ensures 0 <= r.tickets
    ensures r.err.Some? ==> r.tickets == 0
    ensures t.votingAddress.Some? ==> StakeInfo !in r.calls
    ensures t.votingAddress.None? ==> forall c :: c in r.calls ==> c == StakeInfo
  {
    match t.votingAddress
    case Some(voting) =>
      var r := ScanOutcome(t.chainSvr, decode, voting);
      assert r.calls == [r.calls[0]] + r.calls[1..];
      r
    case None => StakeInfoOutcome(t.wallet, stakeInfoReqTries)
  }

  /**
   * `ownTicketsInMempool`: counts the tickets in the mempool that belong to
   * the purchaser, by scanning the mempool for the voting address or by
   * asking the wallet, retrying at most `stakeInfoReqTries` times.
   */
  method OwnTicketsInMempool(t: TicketPurchaser, decodeAddress: Decoder, stakeInfoReqTries: nat)
    returns (tickets: int, err: Option<Error>, calls: seq<Call>)
    requires stakeInfoReqTries > 0
    ensures Outcome(tickets, err, calls) == OwnTicketsOutcome(t, decodeAddress, stakeInfoReqTries)
  {
    if t.votingAddress.Some? {
      tickets, err, calls := ScanMempool(t.chainSvr, decodeAddress, t.votingAddress.value);
    } else {
      tickets, err, calls := StakeInfoWithRetry(t.wallet, stakeInfoReqTries);
    }
  }

  /**
   * The address scan of `ownTicketsInMempool`: list the mempool's tickets,
   * then look each one up and compare its payout address with `voting`,
   * returning at the first failure.
   */
  method ScanMempool(chain: ChainServer, decodeAddress: Decoder, voting: Address)
    returns (tickets: int, err: Option<Error>, calls: seq<Call>)
    ensures Outcome(tickets, err, calls) == ScanOutcome(chain, decodeAddress, voting)
  {
    tickets := 0;
    calls := [GetRawMempool];
    var mempool := chain.rawMempool;
    if mempool.Err? {
      return 0, Some(mempool.error), calls;
    }
    var tiHashes := mempool.value;

    var i := 0;
    while i < |tiHashes|
      invariant 0 <= i <= |tiHashes|
      invariant forall j :: 0 <= j < i ==> Examine(chain, decodeAddress, voting, tiHashes[j]).Ok?
      invariant tickets == |OwnedIndices(chain, decodeAddress, voting, tiHashes[..i])|
      invariant calls == [GetRawMempool] + Lookups(tiHashes[..i])
    {
      calls := calls + [GetRawTransactionVerbose(tiHashes[i])];
      assert calls == [GetRawMempool] + Lookups(tiHashes[..i + 1]);
      var raw := chain.rawTransaction(tiHashes[i]);
      if raw.Err? {
        assert FirstFailure(chain, decodeAddress, voting, tiHashes) == Some(i);
        return 0, Some(raw.error), calls;
      }

      // A ticket pays to a single address.
      var addrStr := PayoutAddress(raw.value);
      var addr := decodeAddress(addrStr);
      if addr.Err? {
        assert FirstFailure(chain, decodeAddress, voting, tiHashes) == Some(i);
        return 0, Some(addr.error), calls;
      }
      OwnedIndicesStep(chain, decodeAddress, voting, tiHashes, i);
      if addr.value.scriptAddress == voting.scriptAddress {
        tickets := tickets + 1;
      }
      i := i + 1;
    }
    assert tiHashes[..i] == tiHashes;
    assert FirstFailure(chain, decodeAddress, voting, tiHashes) == None;
    return tickets, None, calls;
  }

  /**
   * The wallet-native count of `ownTicketsInMempool`: ask the wallet for its
   * stake information until an attempt succeeds or `stakeInfoReqTries`
   * attempts have failed (the wallet may still be catching up with the
   * latest block).
   */
  method StakeInfoWithRetry(w: Wallet, stakeInfoReqTries: nat)
    returns (tickets: int, err: Option<Error>, calls: seq<Call>)
    requires stakeInfoReqTries > 0
    ensures Outcome(tickets, err, calls) == StakeInfoOutcome(w, stakeInfoReqTries)
  {
    calls := [];
    var curStakeInfo: Option<StakeInfoData> := None;
    err := None;
    var i := 0;
    while i < stakeInfoReqTries
      invariant 0 <= i <= stakeInfoReqTries
      invariant forall j :: 0 <= j < i ==> w.stakeInfo(j).Err?
      invariant i == 0 ==> err == None
      invariant i > 0 ==> err == Some(w.stakeInfo(i - 1).error)
      invariant calls == StakeInfoCalls(i)
    {
      var reply := w.stakeInfo(i);
      calls := calls + [StakeInfo];
      assert calls == StakeInfoCalls(i + 1);
      if reply.Err? {
        curStakeInfo, err := None, Some(reply.error);
        i := i + 1;
        continue;
      }
      curStakeInfo, err := Some(reply.value), None;
      assert FirstSuccess(w, stakeInfoReqTries) == Some(i);
      break;
    }
    if err.Some? {
      assert FirstSuccess(w, stakeInfoReqTries) == None;
      return 0, err, calls;
    }
    return curStakeInfo.value.ownMempoolTix as int, None, calls;
  }

  /**
   * `allTicketsInMempool`: the number of tickets in the mempool according to
   * the node's fee summary, or no count and the error of that request.
   */
  function AllTicketsInMempool(t: TicketPurchaser): (r: Outcome)
    ensures r.calls == [TicketFeeInfo]
    ensures r.err.None? <==> t.chainSvr.ticketFeeInfo.Ok?
    ensures r.err.None? ==> r.tickets == t.chainSvr.ticketFeeInfo.value.feeInfoMempool.number as int
    ensures r.err.Some? ==> r.tickets == 0 && r.err == Some(t.chainSvr.ticketFeeInfo.error)
    ensures 0 <= r.tickets < 0x1_0000_0000
  {
    match t.chainSvr.ticketFeeInfo
    case Err(e) => Outcome(0, Some(e), [TicketFeeInfo])
    case Ok(tfi) => Outcome(tfi.feeInfoMempool.number as int, None, [TicketFeeInfo])
  }
}
