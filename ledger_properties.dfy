/**
 * Properties of the ledger that relate several invocations: the invariant
 * every sequence of invocations keeps from deployment on, the operations that
 * undo each other, and what the per-address counts do NOT track.
 */
module LedgerProperties {
  import opened Wrappers
  import opened NeoTypes
  import opened Balance
  import opened LedgerSpec

  /** One invocation of a mutating entry point, with the host's view of its transaction. */
  datatype Invocation =
    | TransferCall(env: Env, to: Option<Addr>, tokenId: TokenId, data: Data)
    | MintCall(env: Env, tokenId: TokenId, token: TokenState)
    | BurnCall(env: Env, tokenId: TokenId)

  /** The state after one invocation; a fault aborts the transaction and keeps the state. */
  function Step(s: LedgerState, call: Invocation): LedgerState
  {
    match call
    case TransferCall(env, to, tokenId, data) =>
      (match Transfer(s, env, to, tokenId, data) case Success(p) => p.0 case Failure(_) => s)
    case MintCall(env, tokenId, token) =>
      (match Mint(s, env, tokenId, token) case Success(s') => s' case Failure(_) => s)
    case BurnCall(env, tokenId) =>
      (match Burn(s, env, tokenId) case Success(s') => s' case Failure(_) => s)
  }

  /** The state after a sequence of invocations, in order. */
  function Run(s: LedgerState, calls: seq<Invocation>): LedgerState
    decreases |calls|
  {
    if calls == [] then s else Run(Step(s, calls[0]), calls[1..])
  }

  /** Every invocation, committed or aborted, keeps the invariant. */
  lemma StepKeepsInv(s: LedgerState, call: Invocation)
    requires Inv(s)
    ensures Inv(Step(s, call))
  {
    match call
    case TransferCall(env, to, tokenId, data) =>
      if Transfer(s, env, to, tokenId, data).Success? { TransferKeepsInv(s, env, to, tokenId, data); }
    case MintCall(env, tokenId, token) =>
      MintKeepsInv(s, env, tokenId, token);
    case BurnCall(env, tokenId) =>
      if Burn(s, env, tokenId).Success? { BurnKeepsInv(s, env, tokenId); }
  }

  /** Any sequence of invocations keeps the invariant. */
  lemma {:induction false} RunKeepsInv(s: LedgerState, calls: seq<Invocation>)
    requires Inv(s)
    ensures Inv(Run(s, calls))
    decreases |calls|
  {
    if calls != [] {
      StepKeepsInv(s, calls[0]);
      RunKeepsInv(Step(s, calls[0]), calls[1..]);
    }
  }

  /**
   * From deployment on, TokenTotal is the sum of the stored counts and no
   * stored count is zero or negative.
   */
  lemma ReachableStates(calls: seq<Invocation>)
    ensures var s := Run(Deployed(), calls);
      s.tokenTotal == SumOf(s.counts) && forall a :: a in s.counts ==> s.counts[a] > 0
  {
    RunKeepsInv(Deployed(), calls);
  }

  /** A mint undone by a burn of the same id in a transaction of the same sender. */
  lemma MintThenBurn(s: LedgerState, env: Env, tokenId: TokenId, token: TokenState)
    requires Inv(s)
    ensures Mint(s, env, tokenId, token).Success?
    ensures var minted := Mint(s, env, tokenId, token).value;
      && Burn(minted, env, tokenId).Success?
      && var burned := Burn(minted, env, tokenId).value;
      && burned.records == s.records - {tokenId}
      && burned.counts == s.counts
      && burned.tokenTotal == s.tokenTotal
  {
  }

  /**
   * A token moved from `a` to `b` and back, each transfer witnessed by its
   * owner, leaves records, counts and TokenTotal as they were.
   */
  lemma TransferThereAndBack(s: LedgerState, envA: Env, envB: Env, b: Addr, tokenId: TokenId, data1: Data, data2: Data)
    requires Inv(s)
    requires tokenId in s.records
    requires |s.records[tokenId].owner| == AddrLength && |b| == AddrLength
    requires s.records[tokenId].owner != b
    requires s.records[tokenId].owner in envA.witnesses && b in envB.witnesses
    requires s.records[tokenId].owner in s.counts
    ensures Transfer(s, envA, Some(b), tokenId, data1) == Success((Transfer(s, envA, Some(b), tokenId, data1).value.0, true))
    ensures var there := Transfer(s, envA, Some(b), tokenId, data1).value.0;
      var a := s.records[tokenId].owner;
      && Transfer(there, envB, Some(a), tokenId, data2).Success?
      && var back := Transfer(there, envB, Some(a), tokenId, data2).value.0;
      && back.records == s.records
      && back.counts == s.counts
      && back.tokenTotal == s.tokenTotal
  {
  }

  /** The number of records whose owner is `owner`. */
  ghost function OwnedCount(s: LedgerState, owner: Addr): nat
  {
    |set t | t in s.records && s.records[t].owner == owner|
  }

  /**
   * `Mint` credits the sender, not the record's owner: after minting a token
   * owned by someone else, the owner owns one record and has a count of 0.
   */
  lemma MintCreditsSenderNotOwner(env: Env, tokenId: TokenId, token: TokenState)
    requires token.owner != env.sender
    ensures var s := Mint(Deployed(), env, tokenId, token).value;
      && OwnedCount(s, token.owner) == 1 && CountOf(s.counts, token.owner) == 0
      && OwnedCount(s, env.sender) == 0 && CountOf(s.counts, env.sender) == 1
  {
    var s := Mint(Deployed(), env, tokenId, token).value;
    assert (set t | t in s.records && s.records[t].owner == token.owner) == {tokenId};
    assert (set t | t in s.records && s.records[t].owner == env.sender) == {};
  }

  /** `Mint` does not reject a known id: minting it twice leaves one record and a count of 2. */
  lemma MintTwiceCountsTwice(env: Env, tokenId: TokenId, first: TokenState, second: TokenState)
    ensures var once := Mint(Deployed(), env, tokenId, first).value;
      && Mint(once, env, tokenId, second).Success?
      && var twice := Mint(once, env, tokenId, second).value;
      && twice.records == map[tokenId := second]
      && CountOf(twice.counts, env.sender) == 2
      && twice.tokenTotal == 2
  {
  }

  /** Two distinct well-formed addresses for the scenarios below. */
  const Alice: Addr := seq(AddrLength, _ => 1)
  const Bob: Addr := seq(AddrLength, _ => 2)

  /** Minting id "1" stores a record under "1" and none under "2". */
  lemma MintStoresUnderItsId(token: TokenState)
    ensures var s := Mint(Deployed(), Env(Alice, {Alice}, {}), [49], token).value;
      && [49] in s.records && s.records[[49]] == token
      && [50] !in s.records
  {
  }

  /**
   * Alice mints "1" owned by herself, transfers it to Bob with her witness,
   * and Bob burns it: balances go {Alice: 1}, then {Bob: 1}, then nothing,
   * and TokenTotal returns to 0.
   */
  lemma MintTransferBurn(data: Data)
    ensures var token := TokenState(Alice, "Test", "Description test", "");
      var minted := Mint(Deployed(), Env(Alice, {Alice}, {}), [49], token).value;
      && minted.counts == map[Alice := 1]
      && Transfer(minted, Env(Alice, {Alice}, {}), Some(Bob), [49], data).Success?
      && var moved := Transfer(minted, Env(Alice, {Alice}, {}), Some(Bob), [49], data).value;
      && moved.1
      && moved.0.counts == map[Bob := 1]
      && moved.0.records == map[[49] := token.(owner := Bob)]
      && Burn(moved.0, Env(Bob, {Bob}, {}), [49]).Success?
      && var burned := Burn(moved.0, Env(Bob, {Bob}, {}), [49]).value;
      && burned.counts == map[] && burned.records == map[] && burned.tokenTotal == 0
  {
  }
}
