/**
 * Key pairs and addresses (server/scripts/generateKeys.js). The address of a public key is
 * "0x" followed by the hex of its last 20 bytes; the server (when it recovers a signer) and
 * the wallet (when it generates a key) derive addresses the same way, with `Address` below.
 * The client-side address check `/^0x[0-9a-fA-F]{40}$/` is `MatchesAddressPattern`.
 */
module KeyIdentity {
  import opened Wrappers
  import opened Hex
  import Crypto

  const AddressBytes: nat := 20

  function Min(a: nat, b: nat): nat {
    if a <= b then a else b
  }

  /** `bytes.slice(-n)`: the last `n` bytes, or all of them when there are fewer. */
  function LastBytes(bytes: seq<Byte>, n: nat): (r: seq<Byte>)
    ensures |r| == Min(n, |bytes|)
    ensures r == bytes[|bytes| - |r|..]
  {
    if |bytes| <= n then bytes else bytes[|bytes| - n..]
  }

  /** `"0x" + toHex(publicKey.slice(-20))` */
  function Address(publicKey: seq<Byte>): (a: string)
    ensures |a| == 2 + 2 * Min(AddressBytes, |publicKey|)
    ensures a[..2] == "0x"
    ensures forall i :: 2 <= i < |a| ==> IsLowerHexDigit(a[i])
  {
    "0x" + ToHex(LastBytes(publicKey, AddressBytes))
  }

  /** The regular expression `/^0x[0-9a-fA-F]{40}$/`. */
  predicate MatchesAddressPattern(s: string) {
    |s| == 42 && s[0] == '0' && s[1] == 'x' && forall i :: 2 <= i < 42 ==> IsHexDigit(s[i])
  }

  /** A derived address passes the client's address check exactly when the key has at least 20 bytes. */
  lemma AddressMatchesPattern(publicKey: seq<Byte>)
    ensures MatchesAddressPattern(Address(publicKey)) <==> |publicKey| >= AddressBytes
  {
    var a := Address(publicKey);
    assert a[0] == a[..2][0] && a[1] == a[..2][1];
  }

  /** Two keys have the same address exactly when their last 20 bytes agree. */
  lemma AddressDeterminedByLastBytes(p: seq<Byte>, q: seq<Byte>)
    ensures Address(p) == Address(q) <==> LastBytes(p, AddressBytes) == LastBytes(q, AddressBytes)
  {
    var hp, hq := ToHex(LastBytes(p, AddressBytes)), ToHex(LastBytes(q, AddressBytes));
    if Address(p) == Address(q) {
      assert hp == Address(p)[2..] && hq == Address(q)[2..];
    }
    ToHexInjective(LastBytes(p, AddressBytes), LastBytes(q, AddressBytes));
  }

  /** No derived address contains an upper-case letter. */
  lemma AddressHasNoUpperCase(publicKey: seq<Byte>, i: nat)
    requires i < |Address(publicKey)|
    ensures !('A' <= Address(publicKey)[i] <= 'Z')
  {
    var a := Address(publicKey);
    if i < 2 {
      assert a[i] == a[..2][i];
    }
  }

  /** What `generateKeyPair` returns: hex of the private key, hex of the public key, and the address. */
  datatype KeyPair = KeyPair(privateKey: string, publicKey: string, address: string)

  /** `generateKeyPair`, given the bytes `randomPrivateKey` drew. */
  function GenerateKeyPair(c: Crypto.Primitives, randomKey: seq<Byte>): (kp: KeyPair)
    ensures |kp.privateKey| == 2 * |randomKey|
    ensures forall i :: 0 <= i < |kp.privateKey| ==> IsLowerHexDigit(kp.privateKey[i])
    ensures HexToBytes(kp.privateKey) == Some(randomKey)
    ensures |kp.publicKey| == 2 * |c.getPublicKey(randomKey)|
    ensures forall i :: 0 <= i < |kp.publicKey| ==> IsLowerHexDigit(kp.publicKey[i])
    ensures HexToBytes(kp.publicKey) == Some(c.getPublicKey(randomKey))
    ensures kp.address == Address(c.getPublicKey(randomKey))
  {
    HexRoundTrip(randomKey);
    var publicKey := c.getPublicKey(randomKey);
    HexRoundTrip(publicKey);
    KeyPair(ToHex(randomKey), ToHex(publicKey), Address(publicKey))
  }

  /** The address digits are the tail of the public-key hex: its last 40 characters for a key of 20 bytes or more. */
  lemma AddressIsPublicKeySuffix(c: Crypto.Primitives, randomKey: seq<Byte>)
    ensures var kp := GenerateKeyPair(c, randomKey);
      var n := |kp.address| - 2;
      n <= |kp.publicKey| && kp.address[2..] == kp.publicKey[|kp.publicKey| - n..]
    ensures |c.getPublicKey(randomKey)| >= AddressBytes ==>
      var kp := GenerateKeyPair(c, randomKey);
      MatchesAddressPattern(kp.address) && kp.address[2..] == kp.publicKey[|kp.publicKey| - 40..]
  {
    var pub := c.getPublicKey(randomKey);
    var tail := LastBytes(pub, AddressBytes);
    var head := pub[..|pub| - |tail|];
    assert pub == head + tail;
    ToHexConcat(head, tail);
    AddressMatchesPattern(pub);
  }
}
