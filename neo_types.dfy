/**
 * Value types of the StuffNFT contract: Neo addresses and byte strings, the
 * token record of StuffNFTTokenState.cs, the effects the contract emits, its
 * faults, and the capabilities the Neo host supplies to one invocation.
 */
module NeoTypes {
  import opened Wrappers

  newtype byte = x: int | 0 <= x < 256

  /** A Neo script hash (`UInt160`). */
  type Addr = seq<byte>

  /** A token identifier (a Neo `ByteString`). */
  type TokenId = seq<byte>

  /** The opaque `data` argument of `transfer`; `None` is `null`. */
  type Data = Option<seq<byte>>

  /** Length in bytes of a well-formed script hash. */
  const AddrLength: nat := 20

  /** The record stored under a token id: `StuffNFTTokenState`. */
  datatype TokenState = TokenState(owner: Addr, name: string, description: string, base64Image: string)

  /**
   * What one invocation makes visible outside the contract's storage, in order:
   * the NEP-11 `Transfer` notification and the call of the recipient's
   * `onNEP11Payment` method.
   */
  datatype Effect =
    | TransferEvent(from: Option<Addr>, to: Option<Addr>, amount: int, tokenId: TokenId)
    | PaymentCall(recipient: Addr, from: Option<Addr>, amount: int, tokenId: TokenId, data: Data)

  /** Why an invocation faults; a fault aborts the whole Neo transaction. */
  datatype Fault =
    | InvalidArgument(argument: string)  // IsValidAddress rejected the named argument
    | MissingRecord                      // deserialising the record of an unknown token id
    | NegativeCount                      // UpdateBalance would store a negative count

  /**
   * What the host supplies to one invocation: the transaction's sender
   * (`Tx.Sender`), the addresses `Runtime.CheckWitness` accepts, and the
   * addresses `ContractManagement.GetContract` resolves to a deployed contract.
   */
  datatype Env = Env(sender: Addr, witnesses: set<Addr>, contracts: set<Addr>)

  /** `UInt160.IsValid` on a possibly null argument: present and 20 bytes long. */
  predicate ValidAddr(address: Option<Addr>)
  {
    address.Some? && |address.value| == AddrLength
  }

  /** `IsValidAddress`: faults naming the argument unless the address is valid. */
  function IsValidAddress(address: Option<Addr>, description: string): (r: Result<Addr, Fault>)
    ensures r.Success? <==> ValidAddr(address)
    ensures r.Success? ==> address == Some(r.value) && |r.value| == AddrLength
    ensures r.Failure? ==> r.error == InvalidArgument(description)
  {
    if address.None? || |address.value| != AddrLength then Failure(InvalidArgument(description))
    else Success(address.value)
  }
}
