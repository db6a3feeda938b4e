/**
 * The wallet panel (client/src/Wallet.jsx): generating a key pair in the browser,
 * choosing one of the demo accounts, looking up the balance of any well-formed address,
 * and the shortened form in which addresses are displayed. Balance queries to the server
 * are a parameter (its answer, or `None` when the request fails).
 */
module Wallet {
  import opened Wrappers
  import opened Hex
  import Crypto
  import KeyIdentity

  const Ellipsis: char := '\U{2026}'

  /** `trunc`: the first 8 characters, "…", then the last 6 (the whole string when it is shorter). */
  function Trunc(addr: string): (r: string)
    ensures |addr| >= 8 ==> |r| == 15 && r[..8] == addr[..8] && r[8] == Ellipsis && r[9..] == addr[|addr| - 6..]
    ensures |addr| <= 6 ==> r == addr + [Ellipsis] + addr
  {
    var head := if |addr| <= 8 then addr else addr[..8];
    var tail := if |addr| <= 6 then addr else addr[|addr| - 6..];
    head + [Ellipsis] + tail
  }

  /** A derived address is shown as "0x" and 6 hex digits, "…", and its last 6 hex digits. */
  lemma TruncOfAddress(publicKey: seq<Byte>)
    requires |publicKey| >= KeyIdentity.AddressBytes
    ensures var a := KeyIdentity.Address(publicKey);
      |Trunc(a)| == 15 && Trunc(a)[..2] == "0x" && Trunc(a)[9..] == a[36..]
  {
    var a := KeyIdentity.Address(publicKey);
    assert a[..8][..2] == a[..2];
  }

  /** A demo account as `/accounts` lists it. */
  datatype Account = Account(address: string, privateKey: string)

  /** `accounts.find((a) => a.address === value)`: the first account with that address. */
  function FindAccount(accounts: seq<Account>, value: string): (r: Option<Account>)
    ensures r.None? <==> forall i :: 0 <= i < |accounts| ==> accounts[i].address != value
    ensures r.Some? ==> exists i :: (
      && 0 <= i < |accounts| && accounts[i] == r.value && r.value.address == value
      && forall j :: 0 <= j < i ==> accounts[j].address != value)
  {
    if accounts == [] then None
    else if accounts[0].address == value then Some(accounts[0])
    else
      var r := FindAccount(accounts[1..], value);
      assert forall i :: 1 <= i < |accounts| ==> accounts[i] == accounts[1..][i - 1];
      r
  }

  /** The panel's state, including the application state it sets (address, key, balance). */
  class WalletPanel {
    var address: string
    var privateKey: string
    var balance: int
    var lookupAddr: string
    var lookupBalance: Option<int>
    /** Every address whose balance was requested from the server. */
    ghost var fetched: seq<string>

    constructor ()
      ensures address == "" && privateKey == "" && balance == 0
      ensures lookupAddr == "" && lookupBalance == None && fetched == []
    {
      address, privateKey, balance := "", "", 0;
      lookupAddr, lookupBalance := "", None;
      fetched := [];
    }

    /**
     * `generateWallet`, given the bytes `randomPrivateKey` drew: the key is kept as hex, the
     * address is derived like the server's, and its balance is requested.
     */
    method GenerateWallet(c: Crypto.Primitives, randomKey: seq<Byte>, getBalance: string -> Option<int>)
      modifies this
      ensures privateKey == ToHex(randomKey) && HexToBytes(privateKey) == Some(randomKey)
      ensures address == KeyIdentity.Address(c.getPublicKey(randomKey))
      ensures |c.getPublicKey(randomKey)| >= KeyIdentity.AddressBytes ==> KeyIdentity.MatchesAddressPattern(address)
      ensures fetched == old(fetched) + [address]
      ensures balance == (if getBalance(address).Some? then getBalance(address).value else old(balance))
      ensures lookupAddr == old(lookupAddr) && lookupBalance == old(lookupBalance)
    {
      var publicKey := c.getPublicKey(randomKey);
      var derivedAddress := KeyIdentity.Address(publicKey);
      var hexKey := ToHex(randomKey);
      assert |publicKey| >= KeyIdentity.AddressBytes ==> KeyIdentity.MatchesAddressPattern(derivedAddress) by {
        KeyIdentity.AddressMatchesPattern(publicKey);
      }
      assert HexToBytes(hexKey) == Some(randomKey) by {
        HexRoundTrip(randomKey);
      }
      privateKey := hexKey;
      address := derivedAddress;
      fetched := fetched + [derivedAddress];
      var reply := getBalance(derivedAddress);
      if reply.Some? {
        balance := reply.value;
      }
    }

    /** `selectAccount`: nothing happens unless some account has the selected address. */
    method SelectAccount(accounts: seq<Account>, value: string, getBalance: string -> Option<int>)
      modifies this
      ensures FindAccount(accounts, value).None? ==>
        address == old(address) && privateKey == old(privateKey) && balance == old(balance) && fetched == old(fetched)
      ensures FindAccount(accounts, value).Some? ==>
        var selected := FindAccount(accounts, value).value;
        && address == selected.address == value && privateKey == selected.privateKey
        && fetched == old(fetched) + [value]
        && balance == (if getBalance(value).Some? then getBalance(value).value else old(balance))
      ensures lookupAddr == old(lookupAddr) && lookupBalance == old(lookupBalance)
    {
      var selected := FindAccount(accounts, value);
      if selected.None? {
        return;
      }
      privateKey := selected.value.privateKey;
      address := selected.value.address;
      fetched := fetched + [address];
      var reply := getBalance(address);
      if reply.Some? {
        balance := reply.value;
      }
    }

    method SetLookupAddr(value: string)
      modifies this
      ensures lookupAddr == value && lookupBalance == None
      ensures address == old(address) && privateKey == old(privateKey) && balance == old(balance) && fetched == old(fetched)
    {
      lookupAddr := value;
      lookupBalance := None;
    }

    /** `checkBalance`: an address failing `/^0x[0-9a-fA-F]{40}$/` sends no request and changes nothing. */
    method CheckBalance(getBalance: string -> Option<int>)
      modifies this
      ensures !KeyIdentity.MatchesAddressPattern(lookupAddr) ==> lookupBalance == old(lookupBalance) && fetched == old(fetched)
      ensures KeyIdentity.MatchesAddressPattern(lookupAddr) ==>
        && fetched == old(fetched) + [lookupAddr]
        && lookupBalance == (if getBalance(lookupAddr).Some? then getBalance(lookupAddr) else old(lookupBalance))
      ensures lookupAddr == old(lookupAddr) && address == old(address) && privateKey == old(privateKey) && balance == old(balance)
    {
      if !KeyIdentity.MatchesAddressPattern(lookupAddr) {
        return;
      }
      fetched := fetched + [lookupAddr];
      var reply := getBalance(lookupAddr);
      if reply.Some? {
        lookupBalance := reply;
      }
    }
  }
}
