# StuffNFT token ledger in Dafny

A model of the NEP-11 token ledger of the StuffNFT Neo smart contract
(`contracts/StuffNFT/src/StuffNFTContract.cs`). NEP-11 is Neo's standard for
non-fungible tokens. The contract keeps three pieces of storage:

- `TokenIdTokenMap`, from token id to a serialised `StuffNFTTokenState`.
- `AddressTokenCount`, from address to a count of tokens.
- A `TokenTotal` counter.

It mutates them through `transfer`, `Mint` and `Burn`, and all three go
through `UpdateBalance`. Each mutation emits the NEP-11 `Transfer`
notification. When the recipient is a deployed contract, it also calls that
contract's `onNEP11Payment`.

The model has two layers:

- `LedgerSpec` (ledger_spec.dfy) states each operation as a function. It maps
  the state before an invocation either to the state after it or to the fault
  that aborts the Neo transaction. The properties are proved about these
  functions.
- `StuffNft.Ledger` (ledger.dfy) is a class whose fields are the storage maps
  and the emitted effects. Its methods read, put and delete in the contract's
  own order. Each method is proved to produce exactly what the matching
  `LedgerSpec` function prescribes.

A fault in the middle of `Transfer` or `Burn` (a count that would go negative
after the record was already written) restores the record map. This is how
the model shows the host discarding the aborted transaction's writes.

Other modules:

- `Balance` (balance.dfy): the count map, where an absent entry reads 0 and a
  zero count is stored by deleting the entry, and the sum of the counts.
- `NeoTypes` (neo_types.dfy): the value types and the address check.
- `LedgerProperties` (ledger_properties.dfy): properties that relate several
  invocations.

Host capabilities are inputs to each call, bundled in `Env`:

- `Tx.Sender` is `env.sender`.
- `Runtime.CheckWitness(a)` is `a in env.witnesses`.
- `ContractManagement.GetContract(a) is not null` is `a in env.contracts`.

`UInt160.IsValid` is modelled as "present and 20 bytes long".

The notifications and the recipient calls share one ordered log (`log`). This
states that the payment call comes after the notification of the same
invocation.

The model follows the code, not an idealised NFT ledger:

- `totalSupply` returns 1000, not `TokenTotal`.
- `Mint` credits the transaction's sender, not the record's owner, and does
  not reject an id that is already minted.
- `Burn` debits the sender, without a witness or ownership check.
- The owner index `AccountAndTokenMap` is never written.

So "an address's count equals the number of records it owns" is not an
invariant of this code. `MintCreditsSenderNotOwner` and `MintTwiceCountsTwice`
exhibit this. The invariant that does hold is proved for every reachable
state (`ReachableStates`): no stored count is zero or negative, and
`TokenTotal` is the sum of the counts.

## Model

| member | source | states |
|---|---|---|
| `NeoTypes.IsValidAddress` | contracts/StuffNFT/src/StuffNFTContract.cs:148-152 | succeeds exactly when the address is non-null and well formed; otherwise faults with `InvalidArgument` naming the argument |
| `Balance.PutCount` | contracts/StuffNFT/src/StuffNFTContract.cs:163-166 | afterwards the address reads the new count; its entry exists iff the count is non-zero; every other address's entry is unchanged; a map without zero or negative entries stays so for a non-negative count |
| `Balance.SumOfPutCount` | contracts/StuffNFT/src/StuffNFTContract.cs:159-168 | storing a new count for one address moves the sum of all counts by exactly the difference |
| `Balance.SameCountsSameMap` | contracts/StuffNFT/src/StuffNFTContract.cs:163-166 | because zero is stored as absence, two count maps that give every address the same count are equal |
| `LedgerSpec.Deployed` | contracts/StuffNFT/src/StuffNFTContract.cs:122-129 | the deployed state has TokenTotal 0, no records, an empty log, and satisfies the ledger invariant |
| `LedgerSpec.UpdateBalance` | contracts/StuffNFT/src/StuffNFTContract.cs:154-169 | faults with `NegativeCount` iff stored count (absent = 0) plus increment is negative; otherwise the address reads count + increment, its entry exists iff non-zero, other entries, records and log are unchanged, TokenTotal moves by the same increment |
| `LedgerSpec.UpdateBalanceKeepsInv` | contracts/StuffNFT/src/StuffNFTContract.cs:154-169 | a successful update keeps "no zero or negative entry" and "TokenTotal equals the sum of the counts" |
| `LedgerSpec.PostTransfer` | contracts/StuffNFT/src/StuffNFTContract.cs:171-176 | emits the notification `(from, to, 1, tokenId)` first, then a call `onNEP11Payment(from, 1, tokenId, data)` iff `to` is non-null and a deployed contract |
| `LedgerSpec.Transfer` | contracts/StuffNFT/src/StuffNFTContract.cs:63-78 | an invalid `to` faults before any read; an unknown id faults; an un-witnessed owner gives `false` with the state unchanged; a witnessed transfer returns `true` with TokenTotal unchanged and one notification (plus the recipient call); to self it keeps records and counts; to another it changes only the record's owner, and moves one unit from the owner's count to the recipient's, other counts unchanged; under the invariant it faults only when the owner has no count entry |
| `LedgerSpec.Mint` | contracts/StuffNFT/src/StuffNFTContract.cs:86-91 | stores the record under the id, overwriting; the sender's count and TokenTotal go up by 1, other counts unchanged; emits `(null, sender, 1, tokenId)`; never faults under the invariant |
| `LedgerSpec.Burn` | contracts/StuffNFT/src/StuffNFTContract.cs:93-99 | faults on an unknown id; otherwise faults iff the sender's count is below 1; on success deletes exactly that record, lowers the sender's count and TokenTotal by 1, other counts unchanged, and emits `(sender, null, 1, tokenId)` |
| `LedgerSpec.TransferKeepsInv` | contracts/StuffNFT/src/StuffNFTContract.cs:69-77 | a committed transfer keeps the ledger invariant |
| `LedgerSpec.MintKeepsInv` | contracts/StuffNFT/src/StuffNFTContract.cs:86-91 | under the invariant a mint always commits and keeps it |
| `LedgerSpec.BurnKeepsInv` | contracts/StuffNFT/src/StuffNFTContract.cs:93-99 | a committed burn keeps the ledger invariant |
| `LedgerProperties.StepKeepsInv` | contracts/StuffNFT/src/StuffNFTContract.cs:63-99 | any invocation, committed or aborted, keeps the ledger invariant |
| `LedgerProperties.RunKeepsInv` | contracts/StuffNFT/src/StuffNFTContract.cs:63-99 | any sequence of invocations keeps the ledger invariant |
| `LedgerProperties.ReachableStates` | contracts/StuffNFT/src/StuffNFTContract.cs:128 | from deployment on, after any sequence of invocations, TokenTotal equals the sum of the counts and every stored count is positive |
| `LedgerProperties.MintThenBurn` | contracts/StuffNFT/src/StuffNFTContract.cs:86-99 | a burn by the same sender undoes a mint: counts and TokenTotal are restored, and the id has no record |
| `LedgerProperties.TransferThereAndBack` | contracts/StuffNFT/src/StuffNFTContract.cs:63-78 | transferring a token to another address and back, each step witnessed by its owner, restores records, counts and TokenTotal |
| `LedgerProperties.MintCreditsSenderNotOwner` | contracts/StuffNFT/src/StuffNFTContract.cs:86-91 | minting a record owned by someone other than the sender leaves the owner with one record and count 0, and the sender with no record and count 1 |
| `LedgerProperties.MintTwiceCountsTwice` | contracts/StuffNFT/src/StuffNFTContract.cs:86-91 | minting the same id twice leaves one record (the second) but a count and TokenTotal of 2 |
| `LedgerProperties.MintStoresUnderItsId` | contracts/StuffNFT/test/StuffNFTContractTests.cs:84-87 | after minting id "1", a record exists under "1" and none under "2" |
| `LedgerProperties.MintTransferBurn` | contracts/StuffNFT/src/StuffNFTContract.cs:63-99 | mint "1" by A, transfer to B with A's witness, burn by B: balances {A:1}, then {B:1} with B as record owner, then empty with TokenTotal 0 |
| `StuffNft.Symbol` | contracts/StuffNFT/src/StuffNFTContract.cs:35 | the symbol is "STUFF" |
| `StuffNft.Decimals` | contracts/StuffNFT/src/StuffNFTContract.cs:39 | decimals is 0 |
| `StuffNft.TotalSupply` | contracts/StuffNFT/src/StuffNFTContract.cs:43 | the reported total supply is the constant 1000, whatever TokenTotal holds |
| `StuffNft.Ledger.Deploy` | contracts/StuffNFT/src/StuffNFTContract.cs:122-129 | a fresh ledger is the deployed state and satisfies the invariant |
| `StuffNft.Ledger.BalanceOf` | contracts/StuffNFT/src/StuffNFTContract.cs:45-51 | faults with `InvalidArgument("owner")` iff the address is invalid; otherwise returns a non-negative count, 0 exactly when the address has no entry, else the stored count |
| `StuffNft.Ledger.Properties` | contracts/StuffNFT/src/StuffNFTContract.cs:115-120 | returns the stored record, or null exactly when the id has none |
| `StuffNft.Ledger.UpdateBalance` | contracts/StuffNFT/src/StuffNFTContract.cs:154-169 | reads, adds, faults before any write on a negative count, then deletes or puts the count and puts TokenTotal, exactly as `LedgerSpec.UpdateBalance` |
| `StuffNft.Ledger.PostTransfer` | contracts/StuffNFT/src/StuffNFTContract.cs:171-176 | appends exactly the effects `LedgerSpec.PostTransfer` gives and changes nothing else |
| `StuffNft.Ledger.Transfer` | contracts/StuffNFT/src/StuffNFTContract.cs:63-78 | returns and leaves what `LedgerSpec.Transfer` gives; on a fault (including one after the record write) the ledger is as before; keeps the invariant |
| `StuffNft.Ledger.Mint` | contracts/StuffNFT/src/StuffNFTContract.cs:86-91 | leaves what `LedgerSpec.Mint` gives, never faults, keeps the invariant; `properties` then returns the minted record |
| `StuffNft.Ledger.Burn` | contracts/StuffNFT/src/StuffNFTContract.cs:93-99 | returns and leaves what `LedgerSpec.Burn` gives; on a fault (including one after the record delete) the ledger is as before; keeps the invariant |

## Left out

- `contracts/StuffManager/src/StuffManagerContract.cs`: `CreateToken` only calls `symbol` on another contract, compares the string, and forwards to `mint` through cross-contract calls. `Destroy` and `ValidateOwner` there are lifecycle code.
- `Update`, `Destroy` and `ValidateOwner` of the NFT contract (StuffNFTContract.cs:131-146) are contract-management lifecycle calls. `Deploy` is modelled only for its initial `TokenTotal = 0`. The `Owner` key it stores is read only by the lifecycle code, and so is the `update == true` path.
- `MintString`, `StdLib.Serialize` and `StdLib.Deserialize`: the record is stored as a value, and serialising is the identity. Deserialising an absent record is taken to fault. That is the `MissingRecord` fault of `Transfer` and `Burn`.
- `tokens`, `tokensOf` and `ownerOf`: these are storage iterators, or reads of `AccountAndTokenMap`, which nothing in the contract writes. The set of minted ids is `records.Keys`.
- The body of `onNEP11Payment` and re-entrancy: the call is recorded in the log with its arguments. A fault raised by the recipient, which would abort the transaction, is not modelled.
- `Runtime.CheckWitness`, `UInt160.IsValid`, `ContractManagement.GetContract` and `Tx.Sender` are host capabilities. They are supplied through `Env` and `ValidAddr`. `CheckWitness`'s own faults on a malformed hash are not modelled. A record's `Owner` is taken to be non-null.
- Manifest attributes, `[Safe]` and `[DisplayName]`, gas and the VM's byte encodings are not modelled.
- StuffNft.Ledger.Transfer: requires the class invariant `Valid()`, which `Deploy` establishes and every method keeps. Under it, the credit of the recipient cannot fault, so no rollback path is written for it.
- StuffNft.Ledger.Mint: requires `Valid()`, under which the sender's credit cannot fault. The method therefore has no fault result, like the contract's `void Mint`.
- StuffNft.Ledger.Burn: requires `Valid()`, like the other mutating methods.
