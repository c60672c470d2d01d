// The wallet state store: one mutable record, its default, the two update
// operations and the flag set from the authorize-info reply.  Browser storage
// is a ghost copy of the record; the network reply is an input.

module WalletStore {
  import opened Wrappers

  /**
   * The `WalletState` record; every field is optional.  Protocol and coin type
   * are kept as their string values; `D` is the SDK's device-data record.
   */
  datatype WalletState<D> = WalletState(
    protocol: Option<string>,
    address: Option<string>,
    coinType: Option<string>,
    hardwareWalletTipsShow: Option<bool>,
    deviceData: Option<D>,
    ckbAddresses: Option<seq<string>>,
    enableAuthorize: Option<bool>,
    isTestNet: Option<bool>)

  /** An argument that sets nothing. */
  function NoChange<D>(): WalletState<D>
  {
    WalletState(None, None, None, None, None, None, None, None)
  }

  /** The record used when nothing is stored in the browser. */
  function Default<D>(): (d: WalletState<D>)
    ensures d.protocol.None? && d.address.None? && d.coinType.None? && d.deviceData.None?
    ensures d.hardwareWalletTipsShow == Some(true) && d.ckbAddresses == Some([])
    ensures d.enableAuthorize == Some(false) && d.isTestNet == Some(false)
  {
    WalletState(None, None, None, Some(true), None, Some([]), Some(false), Some(false))
  }

  /** JavaScript truthiness of an optional string: present and non-empty. */
  predicate Truthy(s: Option<string>)
  {
    s.Some? && s.value != ""
  }

  /**
   * The record after `setWalletState(update)`.  Strings are taken when truthy,
   * the two flags whenever present, device data is merged into the current one,
   * the address list is taken whenever present (an empty list too), and
   * `enableAuthorize` is never taken.
   */
  function Updated<D>(s: WalletState<D>, update: WalletState<D>, merge: (Option<D>, D) -> D): (t: WalletState<D>)
    ensures Truthy(update.protocol) ==> t.protocol == update.protocol
    ensures !Truthy(update.protocol) ==> t.protocol == s.protocol
    ensures Truthy(update.address) ==> t.address == update.address
    ensures !Truthy(update.address) ==> t.address == s.address
    ensures Truthy(update.coinType) ==> t.coinType == update.coinType
    ensures !Truthy(update.coinType) ==> t.coinType == s.coinType
    ensures update.hardwareWalletTipsShow.Some? ==> t.hardwareWalletTipsShow == update.hardwareWalletTipsShow
    ensures update.hardwareWalletTipsShow.None? ==> t.hardwareWalletTipsShow == s.hardwareWalletTipsShow
    ensures update.deviceData.Some? ==> t.deviceData == Some(merge(s.deviceData, update.deviceData.value))
    ensures update.deviceData.None? ==> t.deviceData == s.deviceData
    ensures update.ckbAddresses.Some? ==> t.ckbAddresses == update.ckbAddresses
    ensures update.ckbAddresses.None? ==> t.ckbAddresses == s.ckbAddresses
    ensures t.enableAuthorize == s.enableAuthorize
    ensures update.isTestNet.Some? ==> t.isTestNet == update.isTestNet
    ensures update.isTestNet.None? ==> t.isTestNet == s.isTestNet
  {
    WalletState(
      if Truthy(update.protocol) then update.protocol else s.protocol,
      if Truthy(update.address) then update.address else s.address,
      if Truthy(update.coinType) then update.coinType else s.coinType,
      if update.hardwareWalletTipsShow.Some? then update.hardwareWalletTipsShow else s.hardwareWalletTipsShow,
      if update.deviceData.Some? then Some(merge(s.deviceData, update.deviceData.value)) else s.deviceData,
      if update.ckbAddresses.Some? then update.ckbAddresses else s.ckbAddresses,
      s.enableAuthorize,
      if update.isTestNet.Some? then update.isTestNet else s.isTestNet)
  }

  /** The record after `resetWalletState()`. */
  function Cleared<D>(s: WalletState<D>): (t: WalletState<D>)
    ensures t == Default<D>().(hardwareWalletTipsShow := s.hardwareWalletTipsShow)
  {
    s.(protocol := None, coinType := None, address := None, deviceData := None,
       ckbAddresses := Some([]), enableAuthorize := Some(false), isTestNet := Some(false))
  }

  /** The record after the authorize-info reply listing `ckbAddressList` arrives. */
  function Authorized<D>(s: WalletState<D>, ckbAddressList: seq<string>): (t: WalletState<D>)
    ensures t.enableAuthorize == Some(|ckbAddressList| >= 2)
    ensures t.(enableAuthorize := s.enableAuthorize) == s
  {
    s.(enableAuthorize := Some(|ckbAddressList| > 1))
  }

  /** The two authorize-info services. */
  datatype Endpoint = WebAuthnApi | WebAuthnTestApi

  /** The service `getAuthorizeInfo` posts to, chosen by the current network flag. */
  function AuthorizeEndpoint(isTestNet: Option<bool>): (e: Endpoint)
    ensures e == WebAuthnTestApi <==> isTestNet == Some(true)
  {
    if isTestNet == Some(true) then WebAuthnTestApi else WebAuthnApi
  }

  /** An authorize-info request: the service posted to and the address sent. */
  datatype AuthorizeRequest = AuthorizeRequest(api: Endpoint, ckbAddress: string)

  /**
   * The request `setWalletState(update)` issues from record `s`.  The service is
   * chosen as the request starts, while the assignments before it have left the
   * network flag as it was in `s`.
   */
  function AuthorizeRequestFor<D>(s: WalletState<D>, update: WalletState<D>): (r: Option<AuthorizeRequest>)
    ensures r.Some? <==> Truthy(update.address)
    ensures r.Some? ==> r.value.ckbAddress == update.address.value
    ensures r.Some? ==> (r.value.api == WebAuthnTestApi <==> s.isTestNet == Some(true))
  {
    if Truthy(update.address) then Some(AuthorizeRequest(AuthorizeEndpoint(s.isTestNet), update.address.value))
    else None
  }

  // ---------------------------------------------------------------------------
  // The store

  /**
   * The module's state: the proxied `walletState` object, whose properties
   * the operations assign one at a time, and its copy in browser storage.
   */
  class Store<D> {
    var walletState: WalletState<D>
    /** What browser storage holds under the `WalletState` key. */
    ghost var persisted: Option<WalletState<D>>

    /** Module load: the stored record when there is one, the default otherwise. */
    constructor (stored: Option<WalletState<D>>)
      ensures stored.Some? ==> walletState == stored.value
      ensures stored.None? ==> walletState == Default()
      ensures persisted == stored
    {
      walletState := if stored.Some? then stored.value else Default();
      persisted := stored;
    }

    /**
     * `setWalletState(update)`.  Returns the authorize-info request it starts,
     * if any; the record is written to storage.
     */
    method SetWalletState(update: WalletState<D>, merge: (Option<D>, D) -> D)
      returns (authorizeRequest: Option<AuthorizeRequest>)
      modifies this
      ensures walletState == Updated(old(walletState), update, merge)
      ensures authorizeRequest == AuthorizeRequestFor(old(walletState), update)
      ensures persisted == Some(walletState)
    {
      authorizeRequest := None;
      if Truthy(update.protocol) {
        walletState := walletState.(protocol := update.protocol);
      }
      if Truthy(update.address) {
        walletState := walletState.(address := update.address);
        authorizeRequest := Some(AuthorizeRequest(AuthorizeEndpoint(walletState.isTestNet), update.address.value));
      }
      if Truthy(update.coinType) {
        walletState := walletState.(coinType := update.coinType);
      }
      if update.hardwareWalletTipsShow.Some? {
        walletState := walletState.(hardwareWalletTipsShow := update.hardwareWalletTipsShow);
      }
      if update.deviceData.Some? {
        walletState := walletState.(deviceData := Some(merge(walletState.deviceData, update.deviceData.value)));
      }
      if update.ckbAddresses.Some? {
        walletState := walletState.(ckbAddresses := update.ckbAddresses);
      }
      if update.isTestNet.Some? {
        walletState := walletState.(isTestNet := update.isTestNet);
      }
      persisted := Some(walletState);
    }

    /** `resetWalletState()`: clears the session fields and writes the record to storage. */
    method ResetWalletState()
      modifies this
      ensures walletState == Cleared(old(walletState))
      ensures persisted == Some(walletState)
    {
      walletState := walletState.(protocol := None);
      walletState := walletState.(coinType := None);
      walletState := walletState.(address := None);
      walletState := walletState.(deviceData := None);
      walletState := walletState.(ckbAddresses := Some([]));
      walletState := walletState.(enableAuthorize := Some(false));
      walletState := walletState.(isTestNet := Some(false));
      persisted := Some(walletState);
    }

    /**
     * The completion of `getAuthorizeInfo`: the reply's address list sets the
     * flag.  Storage is not written, so it keeps the previous record.
     */
    method ApplyAuthorizeInfo(ckbAddressList: seq<string>)
      modifies this
      ensures walletState == Authorized(old(walletState), ckbAddressList)
      ensures persisted == old(persisted)
    {
      walletState := walletState.(enableAuthorize := Some(|ckbAddressList| > 1));
    }
  }

  // ---------------------------------------------------------------------------
  // Properties of the record operations

  /** `setWalletState({})` changes nothing. */
  lemma EmptyUpdateIsIdentity<D>(s: WalletState<D>, merge: (Option<D>, D) -> D)
    ensures Updated(s, NoChange(), merge) == s
  {
  }

  /** An empty address (or protocol, or coin type) is falsy and leaves the field as it was. */
  lemma EmptyStringsAreIgnored<D>(s: WalletState<D>, merge: (Option<D>, D) -> D)
    ensures Updated(s, NoChange<D>().(protocol := Some(""), address := Some(""), coinType := Some("")), merge) == s
  {
  }

  /** `false` is a value, not an absence: it overwrites both flags. */
  lemma FalseOverwritesFlags<D>(s: WalletState<D>, merge: (Option<D>, D) -> D)
    ensures var t := Updated(s, NoChange<D>().(hardwareWalletTipsShow := Some(false), isTestNet := Some(false)), merge);
      t.hardwareWalletTipsShow == Some(false) && t.isTestNet == Some(false)
  {
  }

  /** An empty address list is present and replaces the current one. */
  lemma EmptyAddressListOverwrites<D>(s: WalletState<D>, merge: (Option<D>, D) -> D)
    ensures Updated(s, NoChange<D>().(ckbAddresses := Some([])), merge).ckbAddresses == Some([])
  {
  }

  /** Passing `enableAuthorize` has no effect. */
  lemma EnableAuthorizeIsNotSet<D>(s: WalletState<D>, update: WalletState<D>, merge: (Option<D>, D) -> D)
    ensures Updated(s, update, merge) == Updated(s, update.(enableAuthorize := None), merge)
    ensures Updated(s, update, merge).enableAuthorize == s.enableAuthorize
  {
  }

  /** Repeating an update changes nothing more, provided merging the same data again does not. */
  lemma UpdateIsIdempotent<D>(s: WalletState<D>, update: WalletState<D>, merge: (Option<D>, D) -> D)
    requires forall prev: Option<D>, d: D :: merge(Some(merge(prev, d)), d) == merge(prev, d)
    ensures Updated(Updated(s, update, merge), update, merge) == Updated(s, update, merge)
  {
  }

  /** Two records reset to the same record exactly when their tip flags agree. */
  lemma ClearedForgetsAllButTips<D>(s: WalletState<D>, t: WalletState<D>)
    ensures Cleared(s) == Cleared(t) <==> s.hardwareWalletTipsShow == t.hardwareWalletTipsShow
  {
    if Cleared(s) == Cleared(t) {
      assert Cleared(s).hardwareWalletTipsShow == Cleared(t).hardwareWalletTipsShow;
    }
  }

  /** Resetting twice is the same as resetting once. */
  lemma ClearedIsIdempotent<D>(s: WalletState<D>)
    ensures Cleared(Cleared(s)) == Cleared(s)
  {
  }

  /** Reset undoes any update except to the tip flag. */
  lemma ClearedAfterUpdate<D>(s: WalletState<D>, update: WalletState<D>, merge: (Option<D>, D) -> D)
    ensures Cleared(Updated(s, update, merge)) == Cleared(s.(hardwareWalletTipsShow := Updated(s, update, merge).hardwareWalletTipsShow))
  {
  }

  /** A fresh store without stored state is unchanged by a reset. */
  lemma DefaultIsResetFixpoint<D>()
    ensures Cleared(Default<D>()) == Default<D>()
  {
  }

  /**
   * The request started by an update that sets both an address and the network
   * flag goes to the service of the flag before the update: from the default
   * record, `setWalletState({address: "A", isTestNet: true})` posts to the main
   * service while leaving the record on the test network.
   */
  lemma RequestUsesFlagBeforeUpdate<D>(merge: (Option<D>, D) -> D)
    ensures var update := NoChange<D>().(address := Some("A"), isTestNet := Some(true));
      && AuthorizeRequestFor(Default<D>(), update) == Some(AuthorizeRequest(WebAuthnApi, "A"))
      && Updated(Default<D>(), update, merge).isTestNet == Some(true)
  {
  }
}
