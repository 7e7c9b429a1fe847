/**
 * The Massa wallet client: a thin adapter over the wallet provider that the
 * Massa Station extension injects as `window.massa`.
 *
 * The provider is external. Each operation takes what the provider answers
 * during that call as a parameter (`Reply`), or, where the answer depends on
 * what the client sends, as a function from the request to the answer.
 */
module Massa {
  import opened Wrappers
  import Arith

  /** A provider promise: it resolves with a value or rejects with an error message. */
  datatype Reply<+T> = Returns(value: T) | Throws(message: string)

  /** The browser global the provider is read from; only its presence matters. */
  datatype Window = Window(massa: bool)

  datatype Account = Account(address: string, balance: string)

  /** Why `callSC` or `readOnly` failed. */
  datatype Cause =
    | ProviderRejected(message: string)
      // `BigInt(value)` throws for a number that is not an integer
    | NotAnInteger(value: real)

  datatype ClientError =
    | NotInstalled
    | ConnectFailed
    | WalletNotConnected
    | TransactionFailed(cause: Cause)
    | ReadFailed(cause: Cause)
    | BelowMinimumDeposit
    | InvalidShares
      // `disconnect` re-throws the provider's own error
    | DisconnectRejected(message: string)
  {
    /** The fixed message of each error the client throws (the cause's text is left out). */
    function Message(): string {
      match this
      case NotInstalled => "Massa Station not installed. Please install Massa Station extension."
      case ConnectFailed => "Failed to connect to Massa Station. Please try again."
      case WalletNotConnected => "Wallet not connected"
      case TransactionFailed(_) => "Transaction failed"
      case ReadFailed(_) => "Read operation failed"
      case BelowMinimumDeposit => "Minimum deposit amount is 0.01 MAS"
      case InvalidShares => "Invalid shares amount"
      case DisconnectRejected(m) => m
    }
  }

  const ContractAddress: string := "AU1YourContractAddressHere123456789"
  const MinimumDeposit: real := 0.01
  const NanoPerMas: real := 1000000000.0

  // ---------------------------------------------------------------------------
  // Little-endian u64 encoding

  type Byte = b: int | 0 <= b < 256

  const TwoTo64: int := 0x1_0000_0000_0000_0000

  function Pow256(n: nat): (p: nat)
    ensures p >= 1
  {
    if n == 0 then 1 else 256 * Pow256(n - 1)
  }

  /** The `n` low-order bytes of `v`, least significant first. */
  function LeBytes(v: nat, n: nat): (r: seq<Byte>)
    ensures |r| == n
  {
    if n == 0 then [] else [v % 256] + LeBytes(v / 256, n - 1)
  }

  /** The number a little-endian byte string denotes: the sum of b[i] * 256^i. */
  function LeValue(bs: seq<Byte>): (v: nat)
    ensures v < Pow256(|bs|)
  {
    if bs == [] then 0 else bs[0] + 256 * LeValue(bs[1..])
  }

  /** What `setBigUint64(0, BigInt(value), true)` leaves in the 8-byte buffer. */
  function U64Bytes(value: int): (r: seq<Byte>)
    ensures |r| == 8
  {
    LeBytes(value % TwoTo64, 8)
  }

  lemma TwoTo64IsPow256()
    ensures Pow256(8) == TwoTo64
  {
  }

  /** Byte i of the encoding is (v / 256^i) mod 256. */
  lemma {:induction false} LeBytesAt(v: nat, n: nat, i: nat)
    requires i < n
    ensures LeBytes(v, n)[i] == (v / Pow256(i)) % 256
  {
    if i > 0 {
      LeBytesAt(v / 256, n - 1, i - 1);
      Arith.DivDiv(v, 256, Pow256(i - 1));
    }
  }

  /** Decoding the n-byte encoding of any v gives v mod 256^n: the high bytes are dropped. */
  lemma {:induction false} LeValueOfLeBytes(v: nat, n: nat)
    ensures LeValue(LeBytes(v, n)) == v % Pow256(n)
  {
    if n > 0 {
      LeValueOfLeBytes(v / 256, n - 1);
      assert LeBytes(v, n)[1..] == LeBytes(v / 256, n - 1);
      Arith.DivDiv(v, 256, Pow256(n - 1));
    }
  }

  /** Decoding an encoding gives back every value that fits in the bytes. */
  lemma LeValueOfLeBytesInRange(v: nat, n: nat)
    requires v < Pow256(n)
    ensures LeValue(LeBytes(v, n)) == v
  {
    LeValueOfLeBytes(v, n);
  }

  /** Encoding a decoded byte string gives back the bytes. */
  lemma {:induction false} LeBytesOfLeValue(bs: seq<Byte>)
    ensures LeBytes(LeValue(bs), |bs|) == bs
  {
    if bs != [] {
      var v, tail := LeValue(bs), LeValue(bs[1..]);
      assert v == tail * 256 + bs[0];
      Arith.DivUnique(v, 256, tail, bs[0]);
      assert v % 256 == bs[0];
      LeBytesOfLeValue(bs[1..]);
      assert LeBytes(v, |bs|) == [v % 256] + LeBytes(tail, |bs| - 1);
    }
  }

  /** For 0 <= v < 2^64 the eight bytes sent to the contract decode to v. */
  lemma U64RoundTrip(v: int)
    requires 0 <= v < TwoTo64
    ensures LeValue(U64Bytes(v)) == v
  {
    assert v % TwoTo64 == v;
    assert U64Bytes(v) == LeBytes(v, 8);
    TwoTo64IsPow256();
    LeValueOfLeBytesInRange(v, 8);
  }

  /** Values that agree mod 2^64 are sent as the same bytes (BigInt to u64 wraps). */
  lemma U64Wraps(a: int, b: int)
    requires a % TwoTo64 == b % TwoTo64
    ensures U64Bytes(a) == U64Bytes(b)
  {
  }

  /** `encodeU64`: fills a fresh 8-byte buffer through a little-endian view. */
  method EncodeU64(value: int) returns (bytes: array<Byte>)
    ensures fresh(bytes)
    ensures bytes.Length == 8
    ensures bytes[..] == U64Bytes(value)
  {
    bytes := new Byte[8](_ => 0);
    var rest: nat := value % TwoTo64;
    var i := 0;
    while i < 8
      invariant 0 <= i <= 8
      invariant bytes[..i] + LeBytes(rest, 8 - i) == U64Bytes(value)
    {
      assert LeBytes(rest, 8 - i) == [rest % 256] + LeBytes(rest / 256, 8 - i - 1);
      bytes[i] := rest % 256;
      assert bytes[..i + 1] == bytes[..i] + [rest % 256];
      rest := rest / 256;
      i := i + 1;
    }
    assert bytes[..] == bytes[..8];
  }

  // ---------------------------------------------------------------------------
  // Contract calls

  /** The object handed to the provider's `callSmartContract`. */
  datatype ContractCall = ContractCall(
    contractAddress: string,
    functionName: string,
    parameter: Option<seq<Byte>>,
    coins: real)

  /** The object handed to the provider's `readSmartContract`. */
  datatype ReadCall = ReadCall(contractAddress: string, functionName: string, parameter: Option<seq<Byte>>)

  /** The optional u64 parameter: absent when `params` is undefined. */
  function EncodeParameter(params: Option<real>): (r: Result<Option<seq<Byte>>, Cause>)
    ensures r.Success? <==> params.None? || params.value.Floor as real == params.value
    ensures r.Success? ==> (r.value.Some? <==> params.Some?)
    ensures r.Success? && params.Some? ==> r.value.value == U64Bytes(params.value.Floor)
    ensures r.Failure? ==> r.error == NotAnInteger(params.value)
  {
    match params
    case None => Success(None)
    case Some(x) =>
      if x.Floor as real == x then Success(Some(U64Bytes(x.Floor))) else Failure(NotAnInteger(x))
  }

  /**
   * The client. `provider` is captured from the window once, when the client is
   * built, and never reassigned afterwards.
   */
  datatype MassaClient = MassaClient(provider: bool) {

    /** `isWalletAvailable` re-reads the window, not the captured provider. */
    function IsWalletAvailable(window: Window): bool {
      window.massa
    }

    /** `connectWallet`: the first account, or one of two errors. */
    function ConnectWallet(reply: Reply<seq<string>>): (r: Result<string, ClientError>)
      ensures !provider ==> r == Failure(NotInstalled)
      ensures provider && reply.Returns? && |reply.value| > 0 ==> r == Success(reply.value[0])
      ensures provider && (reply.Throws? || reply.value == []) ==> r == Failure(ConnectFailed)
    {
      if !provider then Failure(NotInstalled)
      else
        match reply
        case Throws(_) => Failure(ConnectFailed)
        // the "No accounts found" error is thrown inside the try and replaced by the catch
        case Returns(accounts) => if |accounts| == 0 then Failure(ConnectFailed) else Success(accounts[0])
    }

    /**
     * `getAccount`: never throws. The balance is asked for the first account only;
     * any missing provider, empty list or rejection gives null.
     */
    function GetAccount(accounts: Reply<seq<string>>, balanceOf: string -> Reply<string>): (r: Option<Account>)
      ensures r.Some? <==> provider && accounts.Returns? && |accounts.value| > 0
                           && balanceOf(accounts.value[0]).Returns?
      ensures r.Some? ==> r.value.address == accounts.value[0]
                          && balanceOf(r.value.address) == Returns(r.value.balance)
    {
      if !provider then None
      else
        match accounts
        case Throws(_) => None
        case Returns(addrs) =>
          if |addrs| == 0 then None
          else
            match balanceOf(addrs[0])
            case Throws(_) => None
            case Returns(balance) => Some(Account(addrs[0], balance))
    }

    /** `isConnected`: never throws; false unless the provider answers true. */
    function IsConnected(reply: Reply<bool>): (r: bool)
      ensures r <==> provider && reply == Returns(true)
    {
      if !provider then false
      else
        match reply
        case Throws(_) => false
        case Returns(b) => b
    }

    /** `disconnect`: nothing to do without a provider; a rejection is re-thrown. */
    function Disconnect(reply: Reply<()>): (r: Result<(), ClientError>)
      ensures r.Failure? <==> provider && reply.Throws?
      ensures r.Failure? ==> r.error == DisconnectRejected(reply.message)
    {
      if !provider then Success(())
      else
        match reply
        case Returns(_) => Success(())
        case Throws(m) => Failure(DisconnectRejected(m))
    }

    /** The request `callSC` builds; it fails before reaching the provider only if `params` is not an integer. */
    function SmartContractCall(functionName: string, coins: real, params: Option<real>): (r: Result<ContractCall, Cause>)
      ensures r.Success? <==> EncodeParameter(params).Success?
      ensures r.Failure? ==> r.error == EncodeParameter(params).error
      ensures r.Success? ==> r.value.contractAddress == ContractAddress
                             && r.value.functionName == functionName
                             && r.value.coins == coins * NanoPerMas
                             && r.value.parameter == EncodeParameter(params).value
                             && (r.value.parameter.Some? <==> params.Some?)
    {
      match EncodeParameter(params)
      case Failure(c) => Failure(c)
      case Success(parameter) => Success(ContractCall(ContractAddress, functionName, parameter, coins * NanoPerMas))
    }

    /** `callSC`: the provider's transaction id, or a wrapped failure. */
    function CallSC(functionName: string, coins: real, params: Option<real>, send: ContractCall -> Reply<string>)
      : (r: Result<string, ClientError>)
      ensures !provider ==> r == Failure(WalletNotConnected)
      ensures provider && SmartContractCall(functionName, coins, params).Failure? ==>
                r == Failure(TransactionFailed(SmartContractCall(functionName, coins, params).error))
      ensures provider && SmartContractCall(functionName, coins, params).Success? ==>
                var call := SmartContractCall(functionName, coins, params).value;
                (r.Success? <==> send(call).Returns?)
                && (r.Success? ==> r.value == send(call).value)
                && (r.Failure? ==> r.error == TransactionFailed(ProviderRejected(send(call).message)))
    {
      if !provider then Failure(WalletNotConnected)
      else
        match SmartContractCall(functionName, coins, params)
        case Failure(c) => Failure(TransactionFailed(c))
        case Success(call) =>
          match send(call)
          case Returns(txHash) => Success(txHash)
          case Throws(m) => Failure(TransactionFailed(ProviderRejected(m)))
    }

    /** `readOnly`: the same shape as `callSC`, without coins. */
    function ReadOnly(functionName: string, params: Option<real>, read: ReadCall -> Reply<string>)
      : (r: Result<string, ClientError>)
      ensures !provider ==> r == Failure(WalletNotConnected)
      ensures provider && EncodeParameter(params).Failure? ==>
                r == Failure(ReadFailed(EncodeParameter(params).error))
      ensures provider && EncodeParameter(params).Success? ==>
                var call := ReadCall(ContractAddress, functionName, EncodeParameter(params).value);
                (r.Success? <==> read(call).Returns?)
                && (r.Success? ==> r.value == read(call).value)
                && (r.Failure? ==> r.error == ReadFailed(ProviderRejected(read(call).message)))
    {
      if !provider then Failure(WalletNotConnected)
      else
        match EncodeParameter(params)
        case Failure(c) => Failure(ReadFailed(c))
        case Success(parameter) =>
          match read(ReadCall(ContractAddress, functionName, parameter))
          case Returns(result) => Success(result)
          case Throws(m) => Failure(ReadFailed(ProviderRejected(m)))
    }

    /** `deposit`: the local minimum, then a `deposit` call carrying the amount as coins. */
    function Deposit(amount: real, send: ContractCall -> Reply<string>): (r: Result<string, ClientError>)
      ensures amount < MinimumDeposit ==> r == Failure(BelowMinimumDeposit)
      ensures amount >= MinimumDeposit ==> r == CallSC("deposit", amount, None, send)
    {
      if amount < MinimumDeposit then Failure(BelowMinimumDeposit) else CallSC("deposit", amount, None, send)
    }

    /** `withdraw`: shares must be positive; the call carries no coins and the shares as parameter. */
    function Withdraw(shares: real, send: ContractCall -> Reply<string>): (r: Result<string, ClientError>)
      ensures shares <= 0.0 ==> r == Failure(InvalidShares)
      ensures shares > 0.0 ==> r == CallSC("withdraw", 0.0, Some(shares), send)
    {
      if shares <= 0.0 then Failure(InvalidShares) else CallSC("withdraw", 0.0, Some(shares), send)
    }
  }

  /** `new MassaClient()`: the provider is whatever the window holds at that moment. */
  function NewClient(window: Window): (c: MassaClient)
    ensures c.provider == window.massa
  {
    MassaClient(window.massa)
  }

  /** A rejected deposit or withdrawal never reaches the provider, whatever it would answer. */
  lemma GuardsPrecedeProvider(c: MassaClient, amount: real, shares: real,
                              send1: ContractCall -> Reply<string>, send2: ContractCall -> Reply<string>)
    ensures amount < MinimumDeposit ==> c.Deposit(amount, send1) == c.Deposit(amount, send2)
    ensures shares <= 0.0 ==> c.Withdraw(shares, send1) == c.Withdraw(shares, send2)
    ensures amount < MinimumDeposit ==>
              c.Deposit(amount, send1).error.Message() == "Minimum deposit amount is 0.01 MAS"
    ensures shares <= 0.0 ==> c.Withdraw(shares, send1).error.Message() == "Invalid shares amount"
  {
  }

  /**
   * `isWalletAvailable` answers for the window as it is now, while the client keeps
   * the provider it captured when it was built: a provider injected after that is
   * reported as available, yet connecting still fails as "not installed".
   */
  lemma AvailabilityIsReadLive(built: Window, now: Window, reply: Reply<seq<string>>)
    ensures NewClient(built).IsWalletAvailable(now) <==> now.massa
    ensures !built.massa && now.massa ==>
              && NewClient(built).IsWalletAvailable(now)
              && NewClient(built).ConnectWallet(reply) == Failure(NotInstalled)
              && NewClient(built).ConnectWallet(reply).error.Message()
                 == "Massa Station not installed. Please install Massa Station extension."
  {
  }

  /** What the provider receives for an accepted deposit: the amount as coins, no parameter. */
  lemma DepositRequest(c: MassaClient, amount: real)
    requires amount >= MinimumDeposit
    ensures c.SmartContractCall("deposit", amount, None)
         == Success(ContractCall(ContractAddress, "deposit", None, amount * NanoPerMas))
  {
  }

  /**
   * What the provider receives for a withdrawal of a whole number of shares: no coins,
   * and eight little-endian bytes that decode back to the shares.
   */
  lemma WithdrawRequest(c: MassaClient, shares: int)
    requires 0 < shares < TwoTo64
    ensures c.SmartContractCall("withdraw", 0.0, Some(shares as real)).Success?
    ensures var call := c.SmartContractCall("withdraw", 0.0, Some(shares as real)).value;
            call.coins == 0.0 && call.parameter.Some? && LeValue(call.parameter.value) == shares
  {
    U64RoundTrip(shares);
  }

  // ---------------------------------------------------------------------------
  // Display

  /** `formatAddress`: short addresses unchanged, long ones as first six + "..." + last four. */
  function FormatAddress(address: string): (r: string)
    ensures |address| <= 10 ==> r == address
    ensures |address| > 10 ==> |r| == 13 && r[..6] == address[..6] && r[6..9] == "..."
                               && r[9..] == address[|address| - 4..]
  {
    if |address| <= 10 then address else address[..6] + "..." + address[|address| - 4..]
  }

  /** Formatting an already formatted address changes nothing. */
  lemma FormatAddressIdempotent(address: string)
    ensures FormatAddress(FormatAddress(address)) == FormatAddress(address)
  {
    var r := FormatAddress(address);
    if |address| > 10 {
      assert r[..6] + "..." + r[|r| - 4..] == r;
    }
  }
}
