/**
 * The two process-wide stores: the wallet store (connection status and cached
 * account) and the transaction store (one in-flight transaction).
 *
 * Every action awaits the Massa client; what the provider answers during the
 * action is a parameter. Toasts and console logging are left out.
 */
module Wallet {
  import opened Wrappers
  import opened Massa

  /** The part of the wallet state written to local storage. */
  datatype Persisted = Persisted(address: Option<string>, connected: bool)

  /** `state?.connected && state?.address`: a present, non-empty address is truthy. */
  predicate ShouldRevalidate(connected: bool, address: Option<string>) {
    connected && address.Some? && address.value != ""
  }

  /**
   * Only a connected state with a non-empty address is re-checked. An empty address
   * is falsy, so a state stored as connected to "" is restored without asking the
   * wallet, as is any state stored as disconnected.
   */
  lemma RevalidationCases(connected: bool, address: Option<string>)
    ensures ShouldRevalidate(connected, address) ==> connected && address.Some? && |address.value| >= 1
    ensures !connected || address == None || address == Some("") ==> !ShouldRevalidate(connected, address)
  {
  }

  class WalletStore {
    var address: Option<string>
    var connected: bool
    var connecting: bool
    var account: Option<Account>

    /** A connected store knows its address; only a connected store caches an account. */
    ghost predicate Valid()
      reads this
    {
      (connected ==> address.Some?) && (account.Some? ==> connected)
    }

    constructor()
      ensures address == None && !connected && !connecting && account == None
      ensures Valid()
    {
      address, connected, connecting, account := None, false, false, None;
    }

    method SetConnecting(value: bool)
      modifies this
      ensures connecting == value
      ensures address == old(address) && connected == old(connected) && account == old(account)
      ensures old(Valid()) ==> Valid()
    {
      connecting := value;
    }

    /**
     * `connect`. Without a wallet in the window nothing changes. Otherwise the
     * store connects; on success it writes address, connected, account and
     * connecting together, on failure it only clears `connecting`.
     */
    method Connect(client: MassaClient, window: Window, connectReply: Reply<seq<string>>,
                   accountsReply: Reply<seq<string>>, balanceOf: string -> Reply<string>)
      modifies this
      ensures !client.IsWalletAvailable(window) ==> unchanged(this)
      ensures client.IsWalletAvailable(window) && client.ConnectWallet(connectReply).Success? ==>
                && address == Some(client.ConnectWallet(connectReply).value)
                && connected
                && account == client.GetAccount(accountsReply, balanceOf)
                && !connecting
      ensures client.IsWalletAvailable(window) && client.ConnectWallet(connectReply).Failure? ==>
                && !connecting
                && address == old(address) && connected == old(connected) && account == old(account)
      ensures old(Valid()) ==> Valid()
    {
      if !client.IsWalletAvailable(window) {
        return;
      }
      SetConnecting(true);
      var outcome := client.ConnectWallet(connectReply);
      if outcome.Failure? {
        connecting := false;
        return;
      }
      var acct := client.GetAccount(accountsReply, balanceOf);
      address, connected, account, connecting := Some(outcome.value), true, acct, false;
    }

    /** `disconnect`: the local state is cleared whether or not the provider's disconnect rejects. */
    method Disconnect(client: MassaClient, reply: Reply<()>)
      modifies this
      ensures address == None && !connected && account == None && !connecting
      ensures Valid()
    {
      var outcome := client.Disconnect(reply);
      match outcome
      case Success(_) =>
        address, connected, account, connecting := None, false, None, false;
      case Failure(_) =>
        address, connected, account, connecting := None, false, None, false;
    }

    /**
     * `refreshAccount`. A no-op when not connected; otherwise only `account` is
     * replaced. `getAccount` never rejects, so the source's "refresh failed, log
     * out" branch cannot run: a provider failure leaves the store connected with
     * no account.
     */
    method RefreshAccount(client: MassaClient, accountsReply: Reply<seq<string>>, balanceOf: string -> Reply<string>)
      modifies this
      ensures !old(connected) ==> unchanged(this)
      ensures old(connected) ==>
                && account == client.GetAccount(accountsReply, balanceOf)
                && connected && address == old(address) && connecting == old(connecting)
      ensures old(Valid()) ==> Valid()
    {
      if !connected {
        return;
      }
      account := client.GetAccount(accountsReply, balanceOf);
    }

    /** `partialize`: only the address and the connected flag are persisted. */
    function Partialize(): (p: Persisted)
      reads this
      ensures p.address == address && p.connected == connected
    {
      Persisted(address, connected)
    }

    /**
     * Loading the persisted fields, then `onRehydrateStorage`. A stored connected
     * address is re-checked with `isConnected`: a live connection refreshes the
     * account, anything else clears all four fields. Both client calls never
     * reject, so the `.catch` branches cannot run.
     */
    method Rehydrate(p: Persisted, client: MassaClient, isConnectedReply: Reply<bool>,
                     accountsReply: Reply<seq<string>>, balanceOf: string -> Reply<string>)
      modifies this
      ensures !ShouldRevalidate(p.connected, p.address) ==>
                && address == p.address && connected == p.connected
                && account == old(account) && connecting == old(connecting)
      ensures ShouldRevalidate(p.connected, p.address) && client.IsConnected(isConnectedReply) ==>
                && address == p.address && connected
                && account == client.GetAccount(accountsReply, balanceOf) && connecting == old(connecting)
      ensures ShouldRevalidate(p.connected, p.address) && !client.IsConnected(isConnectedReply) ==>
                address == None && !connected && account == None && !connecting
      ensures old(Valid()) && (p.connected ==> p.address.Some?) && (old(account).Some? ==> p.connected) ==> Valid()
    {
      address, connected := p.address, p.connected;
      if ShouldRevalidate(connected, address) {
        var live := client.IsConnected(isConnectedReply);
        if live {
          account := client.GetAccount(accountsReply, balanceOf);
        } else {
          address, connected, account, connecting := None, false, None, false;
        }
      }
    }
  }

  /** Whatever the provider answers, refreshing a connected store never logs it out. */
  method RefreshNeverLogsOut(store: WalletStore, client: MassaClient, accountsReply: Reply<seq<string>>,
                             balanceOf: string -> Reply<string>)
    requires store.connected
    modifies store
    ensures store.connected && store.address == old(store.address)
    ensures store.connecting == old(store.connecting)
    ensures store.account == None <==>
              || !client.provider || accountsReply.Throws? || accountsReply.value == []
              || balanceOf(accountsReply.value[0]).Throws?
  {
    store.RefreshAccount(client, accountsReply, balanceOf);
  }

  /** The transaction store: a pending flag and the last transaction hash. */
  class TransactionStore {
    var pending: bool
    var hash: Option<string>

    constructor()
      ensures !pending && hash == None
    {
      pending, hash := false, None;
    }

    method SetPending(value: bool)
      modifies this
      ensures pending == value && hash == old(hash)
    {
      pending := value;
    }

    method SetHash(value: Option<string>)
      modifies this
      ensures hash == value && pending == old(pending)
    {
      hash := value;
    }

    method Reset()
      modifies this
      ensures !pending && hash == None
    {
      pending, hash := false, None;
    }
  }
}
