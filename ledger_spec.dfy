/**
 * The StuffNFT ledger as values: each public operation of
 * StuffNFTContract.cs is a function from the state before the invocation to
 * either the state after it or the fault that aborts the transaction (in which
 * case the host discards every write, so the state is the one before).
 */
module LedgerSpec {
  import opened Wrappers
  import opened NeoTypes
  import opened Balance

  /**
   * The contract's storage and what it has emitted: `TokenIdTokenMap` (records
   * stored as values, serialisation being the identity here),
   * `AddressTokenCount`, the `TokenTotal` key, and the ordered log of
   * notifications and recipient calls.
   */
  datatype LedgerState = LedgerState(
    records: map<TokenId, TokenState>,
    counts: map<Addr, int>,
    tokenTotal: int,
    log: seq<Effect>)

  /** The ledger's invariant: no zero or negative count is stored, and TokenTotal is their sum. */
  ghost predicate Inv(s: LedgerState)
  {
    NoEmptyEntries(s.counts) && s.tokenTotal == SumOf(s.counts)
  }

  /** The state `_deploy` leaves on a fresh deployment: TokenTotal is 0, nothing else is stored. */
  function Deployed(): (s: LedgerState)
    ensures Inv(s) && s.tokenTotal == 0 && s.records == map[] && s.log == []
  {
    LedgerState(map[], map[], 0, [])
  }

  /**
   * `UpdateBalance`: adds `increment` to the owner's count and to TokenTotal;
   * a negative count faults before anything is written.
   */
  function UpdateBalance(s: LedgerState, owner: Addr, increment: int): (r: Result<LedgerState, Fault>)
    ensures r.Failure? <==> CountOf(s.counts, owner) + increment < 0
    ensures r.Failure? ==> r.error == NegativeCount
    ensures r.Success? ==>
      && r.value.records == s.records
      && r.value.log == s.log
      && CountOf(r.value.counts, owner) == CountOf(s.counts, owner) + increment
      && (owner in r.value.counts <==> CountOf(s.counts, owner) + increment != 0)
      && r.value.counts - {owner} == s.counts - {owner}
      && r.value.tokenTotal == s.tokenTotal + increment
  {
    var count := CountOf(s.counts, owner) + increment;
    var total := s.tokenTotal + increment;
    if count < 0 then Failure(NegativeCount)
    else
      var r := s.(counts := PutCount(s.counts, owner, count), tokenTotal := total);
      assert r.counts - {owner} == s.counts - {owner};
      Success(r)
  }

  /** `UpdateBalance` keeps the invariant: TokenTotal moves by the same increment as the sum. */
  lemma UpdateBalanceKeepsInv(s: LedgerState, owner: Addr, increment: int)
    requires Inv(s) && UpdateBalance(s, owner, increment).Success?
    ensures Inv(UpdateBalance(s, owner, increment).value)
  {
    SumOfPutCount(s.counts, owner, CountOf(s.counts, owner) + increment);
  }

  /** True when `to` resolves to a deployed contract, which then receives `onNEP11Payment`. */
  predicate IsContract(env: Env, to: Option<Addr>)
  {
    to.Some? && to.value in env.contracts
  }

  /**
   * `PostTransfer`: the effects it appends to the log, in order — always the
   * Transfer notification with amount 1, then the recipient call when the
   * recipient is a deployed contract.
   */
  function PostTransfer(env: Env, from: Option<Addr>, to: Option<Addr>, tokenId: TokenId, data: Data): (r: seq<Effect>)
    ensures 1 <= |r| <= 2
    ensures r[0] == TransferEvent(from, to, 1, tokenId)
    ensures |r| == 2 <==> IsContract(env, to)
    ensures |r| == 2 ==> r[1] == PaymentCall(to.value, from, 1, tokenId, data)
  {
    var event := [TransferEvent(from, to, 1, tokenId)];
    if IsContract(env, to) then event + [PaymentCall(to.value, from, 1, tokenId, data)] else event
  }

  /**
   * `transfer(to, tokenId, data)`: returns the new state and the boolean the
   * contract returns, or the fault that aborts the transaction.
   */
  function Transfer(s: LedgerState, env: Env, to: Option<Addr>, tokenId: TokenId, data: Data): (r: Result<(LedgerState, bool), Fault>)
    // the address check comes before any read
    ensures !ValidAddr(to) ==> r == Failure(InvalidArgument("to"))
    ensures ValidAddr(to) && tokenId !in s.records ==> r == Failure(MissingRecord)
    // the soft failure: the owner has not witnessed, nothing changes
    ensures (r.Success? && !r.value.1) <==>
      ValidAddr(to) && tokenId in s.records && s.records[tokenId].owner !in env.witnesses
    ensures r.Success? && !r.value.1 ==> r.value.0 == s
    // a committed transfer
    ensures r.Success? && r.value.1 ==>
      && ValidAddr(to) && tokenId in s.records && s.records[tokenId].owner in env.witnesses
      && var (s', from) := (r.value.0, s.records[tokenId].owner);
      && s'.tokenTotal == s.tokenTotal
      && s'.log == s.log + PostTransfer(env, Some(from), to, tokenId, data)
      && (from == to.value ==> s'.records == s.records && s'.counts == s.counts)
      && (from != to.value ==>
            && s'.records == s.records[tokenId := s.records[tokenId].(owner := to.value)]
            && CountOf(s'.counts, from) == CountOf(s.counts, from) - 1
            && CountOf(s'.counts, to.value) == CountOf(s.counts, to.value) + 1
            && forall a :: a != from && a != to.value ==> CountOf(s'.counts, a) == CountOf(s.counts, a))
    // a witnessed transfer to someone else faults when the owner's count is already 0
    ensures Inv(s) ==>
      (r.Failure? <==>
        !ValidAddr(to) || tokenId !in s.records ||
        (s.records[tokenId].owner in env.witnesses && s.records[tokenId].owner != to.value &&
         s.records[tokenId].owner !in s.counts))
    ensures r.Failure? && ValidAddr(to) && tokenId in s.records ==> r.error == NegativeCount
  {
    match IsValidAddress(to, "to")
    case Failure(f) => Failure(f)
    case Success(toAddr) =>
      if tokenId !in s.records then Failure(MissingRecord)
      else
        var token := s.records[tokenId];
        var from := token.owner;
        if from !in env.witnesses then Success((s, false))
        else if from != toAddr then
          var moved := s.(records := s.records[tokenId := token.(owner := toAddr)]);
          match UpdateBalance(moved, from, -1)
          case Failure(f) => Failure(f)
          case Success(debited) =>
            match UpdateBalance(debited, toAddr, 1)
            case Failure(f) => Failure(f)
            case Success(credited) =>
              Success((credited.(log := credited.log + PostTransfer(env, Some(from), to, tokenId, data)), true))
        else
          Success((s.(log := s.log + PostTransfer(env, Some(from), to, tokenId, data)), true))
  }

  /**
   * `Mint(tokenId, token)`: stores the record (overwriting any record under
   * the same id), credits the SENDER, and notifies a transfer from null.
   */
  function Mint(s: LedgerState, env: Env, tokenId: TokenId, token: TokenState): (r: Result<LedgerState, Fault>)
    ensures r.Failure? <==> CountOf(s.counts, env.sender) + 1 < 0
    ensures r.Failure? ==> r.error == NegativeCount
    ensures Inv(s) ==> r.Success?
    ensures r.Success? ==>
      && r.value.records == s.records[tokenId := token]
      && CountOf(r.value.counts, env.sender) == CountOf(s.counts, env.sender) + 1
      && (forall a :: a != env.sender ==> CountOf(r.value.counts, a) == CountOf(s.counts, a))
      && r.value.tokenTotal == s.tokenTotal + 1
      && r.value.log == s.log + PostTransfer(env, None, Some(env.sender), tokenId, None)
  {
    var stored := s.(records := s.records[tokenId := token]);
    match UpdateBalance(stored, env.sender, 1)
    case Failure(f) => Failure(f)
    case Success(credited) =>
      Success(credited.(log := credited.log + PostTransfer(env, None, Some(env.sender), tokenId, None)))
  }

  /**
   * `Burn(tokenId)`: faults on an unknown id, deletes the record, debits the
   * SENDER (whoever owns the record), and notifies a transfer to null.
   */
  function Burn(s: LedgerState, env: Env, tokenId: TokenId): (r: Result<LedgerState, Fault>)
    ensures tokenId !in s.records ==> r == Failure(MissingRecord)
    ensures tokenId in s.records ==> (r.Failure? <==> CountOf(s.counts, env.sender) < 1)
    ensures tokenId in s.records && r.Failure? ==> r.error == NegativeCount
    ensures r.Success? ==>
      && tokenId in s.records
      && r.value.records == s.records - {tokenId}
      && CountOf(r.value.counts, env.sender) == CountOf(s.counts, env.sender) - 1
      && (forall a :: a != env.sender ==> CountOf(r.value.counts, a) == CountOf(s.counts, a))
      && r.value.tokenTotal == s.tokenTotal - 1
      && r.value.log == s.log + [TransferEvent(Some(env.sender), None, 1, tokenId)]
  {
    if tokenId !in s.records then Failure(MissingRecord)
    else
      var deleted := s.(records := s.records - {tokenId});
      match UpdateBalance(deleted, env.sender, -1)
      case Failure(f) => Failure(f)
      case Success(debited) =>
        Success(debited.(log := debited.log + PostTransfer(env, Some(env.sender), None, tokenId, None)))
  }

  /** A transfer that commits keeps the invariant. */
  lemma TransferKeepsInv(s: LedgerState, env: Env, to: Option<Addr>, tokenId: TokenId, data: Data)
    requires Inv(s) && Transfer(s, env, to, tokenId, data).Success?
    ensures Inv(Transfer(s, env, to, tokenId, data).value.0)
  {
    if ValidAddr(to) && tokenId in s.records {
      var token := s.records[tokenId];
      var from := token.owner;
      if from in env.witnesses && from != to.value {
        var moved := s.(records := s.records[tokenId := token.(owner := to.value)]);
        UpdateBalanceKeepsInv(moved, from, -1);
        var debited := UpdateBalance(moved, from, -1).value;
        UpdateBalanceKeepsInv(debited, to.value, 1);
      }
    }
  }

  /** A mint keeps the invariant. */
  lemma MintKeepsInv(s: LedgerState, env: Env, tokenId: TokenId, token: TokenState)
    requires Inv(s)
    ensures Mint(s, env, tokenId, token).Success? && Inv(Mint(s, env, tokenId, token).value)
  {
    UpdateBalanceKeepsInv(s.(records := s.records[tokenId := token]), env.sender, 1);
  }

  /** A burn that commits keeps the invariant. */
  lemma BurnKeepsInv(s: LedgerState, env: Env, tokenId: TokenId)
    requires Inv(s) && Burn(s, env, tokenId).Success?
    ensures Inv(Burn(s, env, tokenId).value)
  {
    UpdateBalanceKeepsInv(s.(records := s.records - {tokenId}), env.sender, -1);
  }
}
