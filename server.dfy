/**
 * The server (server/index.js): a table of balances keyed by address string, the
 * `GET /balance/:address` handler with its faucet, and the `POST /send` handler, which
 * rebuilds the signed message, recovers the signer's address, compares it with the claimed
 * sender and then moves the amount. Each handler runs to completion without awaiting, so
 * each is one sequential step on the table.
 *
 * The pure functions below say what one handler does to a table; the class `LedgerServer`
 * holds the table and performs the same steps in place, proved equal to the functions.
 */
module Server {
  import opened Wrappers
  import opened Hex
  import Crypto
  import KeyIdentity
  import JsNumbers
  import Utf8

  /** What `GET /balance` grants an address it has never seen. */
  const Faucet: int := 100
  /** The balances of the three demo accounts created at start-up. */
  const InitialBalances: seq<int> := [100, 50, 75]
  const InvalidSignatureMessage: string := "Invalid signature!"
  const NotEnoughFundsMessage: string := "Not enough funds!"

  type Balances = map<string, int>

  /** The body of `POST /send`, already parsed: `amount` is taken to be an integer. */
  datatype SendRequest = SendRequest(sender: string, recipient: string, amount: int, signature: string, recovery: int)

  /** The reply of `POST /send`: the sender's new balance, a 400 with a message, or an exception (a 500). */
  datatype SendReply = Sent(balance: int) | Rejected(message: string) | Threw

  /** The balance the transfer path sees for `a`, once `setInitialBalance` has run on it. */
  function Stored(b: Balances, a: string): int {
    if a in b then b[a] else 0
  }

  predicate NonNegative(b: Balances) {
    forall a :: a in b ==> b[a] >= 0
  }

  // ---------------------------------------------------------------------------
  // GET /balance/:address

  /** The handler: an address with no entry is stored with the faucet amount; the stored value is returned. */
  function BalanceQuery(b: Balances, address: string): (r: (int, Balances))
    ensures r.1.Keys == b.Keys + {address}
    ensures address in r.1 && r.0 == r.1[address]
    ensures forall a :: a in b ==> r.1[a] == b[a]
    ensures address !in b ==> r.0 == Faucet
  {
    if address !in b then (Faucet, b[address := Faucet]) else (b[address], b)
  }

  /** A second query returns the same value and grants nothing more. */
  lemma BalanceQueryIdempotent(b: Balances, address: string)
    ensures var (v, b1) := BalanceQuery(b, address);
      BalanceQuery(b1, address) == (v, b1)
  {
  }

  // ---------------------------------------------------------------------------
  // setInitialBalance

  /** `setInitialBalance`: an absent entry, or one holding 0, becomes 0; every stored value is kept. */
  function InitialBalance(b: Balances, address: string): (r: Balances)
    ensures r.Keys == b.Keys + {address}
    ensures forall a :: a in b ==> r[a] == b[a]
    ensures r[address] == Stored(b, address)
  {
    if address !in b || b[address] == 0 then b[address := 0] else b
  }

  // ---------------------------------------------------------------------------
  // POST /send

  /** The message the server hashes: `${recipient}:${amount}`. */
  function SignedMessage(recipient: string, amount: int): (m: string)
    ensures |m| > |recipient| + 1 && m[..|recipient|] == recipient && m[|recipient|] == ':'
    ensures m[|recipient| + 1..] == JsNumbers.IntToString(amount)
  {
    recipient + ":" + JsNumbers.IntToString(amount)
  }

  /**
   * The recovered public key; `None` when decoding or recovering the signature throws.
   * `Signature.fromCompact` decodes the hex string itself, strictly: pairs of hex digits of
   * either case, with no "0x" prefix.
   */
  function RecoveredKey(c: Crypto.Primitives, req: SendRequest): Option<seq<Byte>> {
    var msgHash := Crypto.MessageHash(c, SignedMessage(req.recipient, req.amount));
    match DecodePairs(req.signature)
    case None => None
    case Some(compact) => c.recoverPublicKey(msgHash, compact, req.recovery)
  }

  /**
   * The part of `/send` after authentication: both entries initialised, the funds check,
   * the debit and the credit.
   */
  function Settle(b: Balances, sender: string, recipient: string, amount: int): (r: (SendReply, Balances))
    ensures r.1.Keys == b.Keys + {sender, recipient}
    ensures forall a :: a in b && a != sender && a != recipient ==> r.1[a] == b[a]
    ensures forall a :: a in r.1 && a !in b ==> r.1[a] == 0 || r.0.Sent?
    ensures r.0.Sent? <==> Stored(b, sender) >= amount
    ensures !r.0.Sent? ==> r.0 == Rejected(NotEnoughFundsMessage) && forall a :: a in b ==> r.1[a] == b[a]
    ensures r.0.Sent? && sender != recipient ==>
      && r.1[sender] == Stored(b, sender) - amount
      && r.1[recipient] == Stored(b, recipient) + amount
    ensures r.0.Sent? && sender == recipient ==> r.1[sender] == Stored(b, sender)
    ensures r.0.Sent? ==> r.0.balance == r.1[sender]
    ensures sender != recipient ==> r.1[sender] + r.1[recipient] == Stored(b, sender) + Stored(b, recipient)
    ensures NonNegative(b) && amount >= 0 ==> NonNegative(r.1)
  {
    var b1 := InitialBalance(InitialBalance(b, sender), recipient);
    if b1[sender] < amount then (Rejected(NotEnoughFundsMessage), b1)
    else
      var b2 := b1[sender := b1[sender] - amount];
      var b3 := b2[recipient := b2[recipient] + amount];
      (Sent(b3[sender]), b3)
  }

  /** The whole handler: authentication first; the table is touched only once it succeeds. */
  function HandleSend(c: Crypto.Primitives, b: Balances, req: SendRequest): (r: (SendReply, Balances))
    ensures RecoveredKey(c, req).None? ==> r == (Threw, b)
    ensures RecoveredKey(c, req).Some? && KeyIdentity.Address(RecoveredKey(c, req).value) != req.sender ==>
      r == (Rejected(InvalidSignatureMessage), b)
    ensures RecoveredKey(c, req).Some? && KeyIdentity.Address(RecoveredKey(c, req).value) == req.sender ==>
      r == Settle(b, req.sender, req.recipient, req.amount)
  {
    match RecoveredKey(c, req)
    case None => (Threw, b)
    case Some(publicKey) =>
      if KeyIdentity.Address(publicKey) != req.sender then (Rejected(InvalidSignatureMessage), b)
      else Settle(b, req.sender, req.recipient, req.amount)
  }

  /** A claimed sender holding an upper-case letter never matches a derived address, so it is always refused. */
  lemma UpperCaseSenderRejected(c: Crypto.Primitives, b: Balances, req: SendRequest, i: nat)
    requires i < |req.sender| && 'A' <= req.sender[i] <= 'Z'
    ensures HandleSend(c, b, req).1 == b && !HandleSend(c, b, req).0.Sent?
  {
    var key := RecoveredKey(c, req);
    if key.Some? && KeyIdentity.Address(key.value) == req.sender {
      KeyIdentity.AddressHasNoUpperCase(key.value, i);
      assert false;
    }
  }

  /**
   * The authentication succeeds for a request signed by the key behind the claimed sender,
   * over the message the server rebuilds, given the ECDSA round trip for that key and digest.
   */
  lemma SignedBySenderAccepted(c: Crypto.Primitives, b: Balances, req: SendRequest, privateKey: seq<Byte>, sig: Crypto.Signature)
    requires Crypto.RecoversSigner(c, privateKey, Crypto.MessageHash(c, SignedMessage(req.recipient, req.amount)))
    requires c.sign(Crypto.MessageHash(c, SignedMessage(req.recipient, req.amount)), privateKey) == Some(sig)
    requires req.signature == ToHex(sig.compact) && req.recovery == sig.recovery
    requires req.sender == KeyIdentity.Address(c.getPublicKey(privateKey))
    ensures RecoveredKey(c, req) == Some(c.getPublicKey(privateKey))
    ensures HandleSend(c, b, req) == Settle(b, req.sender, req.recipient, req.amount)
  {
    DecodePairsToHex(sig.compact);
  }

  /** The ':' after the recipient is the last ':' of the message. */
  lemma SeparatorIsLastColon(recipient: string, amount: int)
    ensures var m := SignedMessage(recipient, amount);
      |recipient| < |m| && m[|recipient|] == ':' && forall j :: |recipient| < j < |m| ==> m[j] != ':'
  {
    var m := SignedMessage(recipient, amount);
    var d := JsNumbers.IntToString(amount);
    forall j | |recipient| < j < |m|
      ensures m[j] != ':'
    {
      assert m[j] == d[j - |recipient| - 1];
      if amount < 0 && j > |recipient| + 1 {
        assert d[j - |recipient| - 1] == JsNumbers.NatToDecimal(-amount)[j - |recipient| - 2];
      }
    }
  }

  /**
   * The message determines the recipient and the amount: the amount's digits hold no ':',
   * so the last ':' splits the message, and `parseInt` recovers the amount from its digits.
   */
  lemma SignedMessageInjective(r1: string, a1: int, r2: string, a2: int)
    ensures SignedMessage(r1, a1) == SignedMessage(r2, a2) <==> r1 == r2 && a1 == a2
  {
    var m1, m2 := SignedMessage(r1, a1), SignedMessage(r2, a2);
    if m1 == m2 {
      SeparatorIsLastColon(r1, a1);
      SeparatorIsLastColon(r2, a2);
      assert |r1| == |r2|;
      assert r1 == m1[..|r1|] && r2 == m2[..|r2|];
      assert JsNumbers.IntToString(a1) == m1[|r1| + 1..] && JsNumbers.IntToString(a2) == m2[|r2| + 1..];
      JsNumbers.ParseIntOfIntToString(a1);
      JsNumbers.ParseIntOfIntToString(a2);
    }
  }

  /** A request whose recipient or amount differs from what was signed feeds different bytes to the hash. */
  lemma TamperedRequestHashesOtherBytes(r1: string, a1: int, r2: string, a2: int)
    requires r1 != r2 || a1 != a2
    ensures Utf8.Utf8ToBytes(SignedMessage(r1, a1)) != Utf8.Utf8ToBytes(SignedMessage(r2, a2))
  {
    SignedMessageInjective(r1, a1, r2, a2);
    Utf8.Utf8Injective(SignedMessage(r1, a1), SignedMessage(r2, a2));
  }

  /**
   * The transfer path starts an unseen recipient at 0, not at the faucet amount: the recipient
   * ends with just the amount, unless its balance was queried first.
   */
  lemma TransferToNewAddressStartsAtZero(b: Balances, sender: string, recipient: string, amount: int)
    requires recipient !in b && sender != recipient && Stored(b, sender) >= amount
    ensures Settle(b, sender, recipient, amount).1[recipient] == amount
    ensures BalanceQuery(Settle(b, sender, recipient, amount).1, recipient).0 == amount
    ensures Settle(BalanceQuery(b, recipient).1, sender, recipient, amount).1[recipient] == Faucet + amount
  {
  }

  /** The handler does not check the sign of `amount`: a negative amount credits the sender and debits the recipient. */
  lemma NegativeAmountDebitsRecipient(b: Balances, sender: string, recipient: string, amount: int)
    requires sender != recipient && amount < 0 && Stored(b, sender) >= 0
    ensures var r := Settle(b, sender, recipient, amount);
      r.0.Sent? && r.1[recipient] < Stored(b, recipient) && r.1[sender] > Stored(b, sender)
  {
  }

  /** A concrete case: a recipient holding 0 ends up at -30. */
  lemma NegativeAmountOverdrawsRecipient()
    ensures Settle(map["0xa" := 0, "0xb" := 0], "0xa", "0xb", -30).1["0xb"] == -30
  {
  }

  // ---------------------------------------------------------------------------
  // Start-up

  /** The table seeded from the start-up key pairs: `balances[address] = initialBalances[i]`, in order. */
  method SeedBalances(keyPairs: seq<KeyIdentity.KeyPair>) returns (b: Balances)
    requires |keyPairs| == |InitialBalances|
    ensures b.Keys == set i | 0 <= i < |keyPairs| :: keyPairs[i].address
    ensures forall i :: 0 <= i < |keyPairs| && (forall j :: i < j < |keyPairs| ==> keyPairs[j].address != keyPairs[i].address) ==>
      b[keyPairs[i].address] == InitialBalances[i]
    ensures forall a :: a in b ==> b[a] in InitialBalances
  {
    b := map[];
    var i := 0;
    while i < |keyPairs|
      invariant 0 <= i <= |keyPairs|
      invariant b.Keys == set j | 0 <= j < i :: keyPairs[j].address
      invariant forall j :: 0 <= j < i && (forall k :: j < k < i ==> keyPairs[k].address != keyPairs[j].address) ==>
        b[keyPairs[j].address] == InitialBalances[j]
      invariant forall a :: a in b ==> b[a] in InitialBalances
    {
      b := b[keyPairs[i].address := InitialBalances[i]];
      i := i + 1;
    }
  }

  // ---------------------------------------------------------------------------
  // The server's state

  class LedgerServer {
    /** The demo accounts generated at start-up. */
    const keyPairs: seq<KeyIdentity.KeyPair>
    /** `balances`: address -> balance. */
    var balances: Balances

    /** Start-up: one key pair per initial balance (from the bytes `randomPrivateKey` drew), then the seeded table. */
    constructor (c: Crypto.Primitives, randomKeys: seq<seq<Byte>>)
      requires |randomKeys| == |InitialBalances|
      ensures |keyPairs| == |InitialBalances|
      ensures forall i :: 0 <= i < |keyPairs| ==> keyPairs[i] == KeyIdentity.GenerateKeyPair(c, randomKeys[i])
      ensures balances.Keys == set i | 0 <= i < |keyPairs| :: keyPairs[i].address
      ensures forall i :: 0 <= i < |keyPairs| && (forall j :: i < j < |keyPairs| ==> keyPairs[j].address != keyPairs[i].address) ==>
        balances[keyPairs[i].address] == InitialBalances[i]
      ensures forall a :: a in balances ==> balances[a] in InitialBalances
      ensures NonNegative(balances)
    {
      var pairs := seq(|randomKeys|, i requires 0 <= i < |randomKeys| => KeyIdentity.GenerateKeyPair(c, randomKeys[i]));
      var seeded := SeedBalances(pairs);
      assert NonNegative(seeded) by {
        forall a | a in seeded
          ensures seeded[a] >= 0
        {
          var k :| 0 <= k < |InitialBalances| && InitialBalances[k] == seeded[a];
          assert InitialBalances[k] >= 0;
        }
      }
      keyPairs := pairs;
      balances := seeded;
    }

    /** `GET /balance/:address`. */
    method GetBalance(address: string) returns (balance: int)
      modifies this
      ensures (balance, balances) == BalanceQuery(old(balances), address)
    {
      if address !in balances {
        balances := balances[address := Faucet];
      }
      balance := balances[address];
    }

    /** `setInitialBalance(address)`. */
    method SetInitialBalance(address: string)
      modifies this
      ensures balances == InitialBalance(old(balances), address)
    {
      if address !in balances || balances[address] == 0 {
        balances := balances[address := 0];
      }
    }

    /** `POST /send` after authentication: both entries initialised, the funds check, the debit and the credit. */
    method ApplyTransfer(sender: string, recipient: string, amount: int) returns (reply: SendReply)
      modifies this
      ensures (reply, balances) == Settle(old(balances), sender, recipient, amount)
    {
      SetInitialBalance(sender);
      SetInitialBalance(recipient);
      if balances[sender] < amount {
        return Rejected(NotEnoughFundsMessage);
      }
      balances := balances[sender := balances[sender] - amount];
      balances := balances[recipient := balances[recipient] + amount];
      reply := Sent(balances[sender]);
    }

    /** `POST /send`. */
    method Send(c: Crypto.Primitives, req: SendRequest) returns (reply: SendReply)
      modifies this
      ensures (reply, balances) == HandleSend(c, old(balances), req)
      ensures !reply.Sent? && reply != Rejected(NotEnoughFundsMessage) ==> balances == old(balances)
    {
      var message := SignedMessage(req.recipient, req.amount);
      var msgHash := Crypto.MessageHash(c, message);
      var compact := DecodePairs(req.signature);
      if compact.None? {
        return Threw;
      }
      var publicKey := c.recoverPublicKey(msgHash, compact.value, req.recovery);
      assert publicKey == RecoveredKey(c, req);
      if publicKey.None? {
        return Threw;
      }
      var recoveredAddress := KeyIdentity.Address(publicKey.value);
      if recoveredAddress != req.sender {
        return Rejected(InvalidSignatureMessage);
      }
      reply := ApplyTransfer(req.sender, req.recipient, req.amount);
    }
  }
}
