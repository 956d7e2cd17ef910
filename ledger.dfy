/**
 * StuffNFTContract.cs as an object whose methods read, put and delete the
 * contract's storage maps in the order the contract does, each proved against
 * the matching function of LedgerSpec.
 */
module StuffNft {
  import opened Wrappers
  import opened NeoTypes
  import opened Balance
  import LedgerSpec

  /** `symbol`: the token's symbol. */
  function Symbol(): (r: string)
    ensures r == "STUFF"
  {
    "STUFF"
  }

  /** `decimals`: NFTs are indivisible. */
  function Decimals(): (r: byte)
    ensures r == 0
  {
    0
  }

  /** `totalSupply`: a fixed 1000, whatever TokenTotal holds. */
  function TotalSupply(): (r: int)
    ensures r == 1000
  {
    1000
  }

  class Ledger {
    var records: map<TokenId, TokenState>  // TokenIdTokenMap
    var counts: map<Addr, int>             // AddressTokenCount
    var tokenTotal: int                    // the TokenTotal key
    var log: seq<Effect>                   // notifications and recipient calls, in order

    function Snapshot(): LedgerSpec.LedgerState
      reads this
    {
      LedgerSpec.LedgerState(records, counts, tokenTotal, log)
    }

    ghost predicate Valid()
      reads this
    {
      LedgerSpec.Inv(Snapshot())
    }

    /** `_deploy` on a fresh deployment. */
    constructor Deploy()
      ensures Valid() && Snapshot() == LedgerSpec.Deployed()
    {
      records := map[];
      counts := map[];
      tokenTotal := 0;
      log := [];
    }

    /** `balanceOf`: the stored count, 0 when the address has no entry. */
    function BalanceOf(owner: Option<Addr>): (r: Result<int, Fault>)
      reads this
      requires Valid()
      ensures r.Failure? <==> !ValidAddr(owner)
      ensures r.Failure? ==> r.error == InvalidArgument("owner")
      ensures r.Success? ==> r.value >= 0 && (r.value == 0 <==> owner.value !in counts)
      ensures r.Success? && owner.value in counts ==> r.value == counts[owner.value]
    {
      match IsValidAddress(owner, "owner")
      case Failure(f) => Failure(f)
      case Success(a) => Success(CountOf(counts, a))
    }

    /** `properties`: the stored record, or null for an unknown id. */
    function Properties(tokenId: TokenId): (r: Option<TokenState>)
      reads this
      ensures r.Some? <==> tokenId in records
      ensures r.Some? ==> r.value == records[tokenId]
    {
      if tokenId in records then Some(records[tokenId]) else None
    }

    /** `UpdateBalance`: read both values, add, fault if negative, then write. */
    method UpdateBalance(owner: Addr, increment: int) returns (ok: bool)
      modifies this
      ensures ok == LedgerSpec.UpdateBalance(old(Snapshot()), owner, increment).Success?
      ensures ok ==> Snapshot() == LedgerSpec.UpdateBalance(old(Snapshot()), owner, increment).value
      ensures !ok ==> Snapshot() == old(Snapshot())
    {
      var count := if owner in counts then counts[owner] else 0;
      var total := tokenTotal;
      count := count + increment;
      total := total + increment;
      if count < 0 {
        return false;
      }
      if count == 0 {
        counts := counts - {owner};
      } else {
        counts := counts[owner := count];
      }
      tokenTotal := total;
      return true;
    }

    /** `PostTransfer`: notify, then call a recipient that is a deployed contract. */
    method PostTransfer(env: Env, from: Option<Addr>, to: Option<Addr>, tokenId: TokenId, data: Data)
      modifies this
      ensures Snapshot() == old(Snapshot()).(log := old(log) + LedgerSpec.PostTransfer(env, from, to, tokenId, data))
    {
      log := log + [TransferEvent(from, to, 1, tokenId)];
      if to.Some? && to.value in env.contracts {
        log := log + [PaymentCall(to.value, from, 1, tokenId, data)];
      }
    }

    /** `transfer`: a fault leaves the ledger as it was; `false` is returned without a write. */
    method Transfer(env: Env, to: Option<Addr>, tokenId: TokenId, data: Data) returns (r: Result<bool, Fault>)
      requires Valid()
      modifies this
      ensures Valid()
      ensures r.Success? ==>
        LedgerSpec.Transfer(old(Snapshot()), env, to, tokenId, data) == Success((Snapshot(), r.value))
      ensures r.Failure? ==>
        LedgerSpec.Transfer(old(Snapshot()), env, to, tokenId, data) == Failure(r.error) &&
        Snapshot() == old(Snapshot())
    {
      var checked := IsValidAddress(to, "to");
      if checked.Failure? {
        return Failure(checked.error);
      }
      var toAddr := checked.value;
      if tokenId !in records {
        return Failure(MissingRecord);
      }
      var token := records[tokenId];
      var from := token.owner;
      if from !in env.witnesses {
        return Success(false);
      }
      if from != toAddr {
        var before := records;
        records := records[tokenId := token.(owner := toAddr)];
        var ok := UpdateBalance(from, -1);
        if !ok {
          // the fault aborts the transaction, discarding the record write
          records := before;
          return Failure(NegativeCount);
        }
        ok := UpdateBalance(toAddr, 1);
        assert ok;
      }
      PostTransfer(env, Some(from), to, tokenId, data);
      LedgerSpec.TransferKeepsInv(old(Snapshot()), env, to, tokenId, data);
      return Success(true);
    }

    /** `Mint`: store the record, credit the sender, notify. */
    method Mint(env: Env, tokenId: TokenId, token: TokenState)
      requires Valid()
      modifies this
      ensures Valid()
      ensures LedgerSpec.Mint(old(Snapshot()), env, tokenId, token) == Success(Snapshot())
      ensures Properties(tokenId) == Some(token)
    {
      records := records[tokenId := token];
      var ok := UpdateBalance(env.sender, 1);
      assert ok;
      PostTransfer(env, None, Some(env.sender), tokenId, None);
      LedgerSpec.MintKeepsInv(old(Snapshot()), env, tokenId, token);
    }

    /** `Burn`: delete the record, debit the sender, notify; a fault leaves the ledger as it was. */
    method Burn(env: Env, tokenId: TokenId) returns (r: Outcome<Fault>)
      requires Valid()
      modifies this
      ensures Valid()
      ensures r.Pass? ==> LedgerSpec.Burn(old(Snapshot()), env, tokenId) == Success(Snapshot())
      ensures r.Fail? ==>
        LedgerSpec.Burn(old(Snapshot()), env, tokenId) == Failure(r.error) &&
        Snapshot() == old(Snapshot())
    {
      if tokenId !in records {
        return Fail(MissingRecord);
      }
      var before := records;
      records := records - {tokenId};
      var ok := UpdateBalance(env.sender, -1);
      if !ok {
        // the fault aborts the transaction, discarding the record delete
        records := before;
        return Fail(NegativeCount);
      }
      PostTransfer(env, Some(env.sender), None, tokenId, None);
      LedgerSpec.BurnKeepsInv(old(Snapshot()), env, tokenId);
      return Pass;
    }
  }
}
