/**
 * The transfer form (client/src/Transfer.jsx): validation of the recipient and the amount,
 * the message the client signs, the body it posts to `/send`, and the component state
 * (`status`, `error`, the two inputs, the recipient preview) that `transfer` drives.
 *
 * `transfer` is asynchronous: everything up to the post runs at once (`BeginTransfer`),
 * the rest runs when the server answers (`FinishTransfer`). The network is a parameter:
 * the server's answer to a post, or a function giving its answer to a balance query.
 */
module Transfer {
  import opened Wrappers
  import opened Hex
  import Crypto
  import KeyIdentity
  import JsNumbers
  import Server

  const InvalidRecipientError: string := "Enter a valid recipient address."
  const InvalidAmountError: string := "Enter a valid amount greater than 0."

  datatype Status = Idle | Sending | Sent

  /** The body posted to `/send`; `amount` is `parseInt(sendAmount)`, `None` standing for `NaN`. */
  datatype Payload = Payload(sender: string, recipient: string, amount: Option<int>, signature: string, recovery: int)

  /** An entry of the transaction history kept by the application. */
  datatype Transaction = Transaction(from: string, to: string, amount: Option<int>, time: int)

  /** What the post yields: the sender's new balance, or the message of the error it raised. */
  datatype PostReply = Ok(balance: int) | Failed(message: string)

  /** `!sendAmount || parseInt(sendAmount) <= 0`: `NaN <= 0` is false, so a `NaN` amount passes. */
  predicate AmountRejected(sendAmount: string) {
    sendAmount == "" || (JsNumbers.ParseInt(sendAmount).Some? && JsNumbers.ParseInt(sendAmount).value <= 0)
  }

  /** The two checks of `transfer`, in order; `None` when the form may be sent. */
  function ValidationError(recipient: string, sendAmount: string): (e: Option<string>)
    ensures e == Some(InvalidRecipientError) <==> !KeyIdentity.MatchesAddressPattern(recipient)
    ensures e == Some(InvalidAmountError) <==> KeyIdentity.MatchesAddressPattern(recipient) && AmountRejected(sendAmount)
    ensures e.None? <==> KeyIdentity.MatchesAddressPattern(recipient) && !AmountRejected(sendAmount)
  {
    if !KeyIdentity.MatchesAddressPattern(recipient) then Some(InvalidRecipientError)
    else if AmountRejected(sendAmount) then Some(InvalidAmountError)
    else None
  }

  /** A digit string with a non-zero value passes the amount check. */
  lemma PositiveDigitsAccepted(sendAmount: string)
    requires |sendAmount| >= 1 && JsNumbers.AllDigits(sendAmount)
    requires exists i :: 0 <= i < |sendAmount| && sendAmount[i] != '0'
    ensures !AmountRejected(sendAmount)
  {
    JsNumbers.ParseIntOfDigits(sendAmount);
    var i :| 0 <= i < |sendAmount| && sendAmount[i] != '0';
    var p := sendAmount[i..];
    assert |p| >= 1 && JsNumbers.AllDigits(p) && p[0] != '0';
    JsNumbers.LeadingDigitBoundsValue(p);
    DigitsValueOfSuffix(sendAmount, i);
  }

  /** Leading digits only add to the value of a numeral. */
  lemma {:induction false} DigitsValueOfSuffix(s: string, i: nat)
    requires i <= |s| && JsNumbers.AllDigits(s)
    ensures JsNumbers.AllRadixDigits(s, 10) && JsNumbers.AllRadixDigits(s[i..], 10)
    ensures JsNumbers.DigitsValue(s[i..], 10) <= JsNumbers.DigitsValue(s, 10)
    decreases |s|
  {
    JsNumbers.DigitsOfDecimal(s);
    JsNumbers.DigitsOfDecimal(s[i..]);
    if i < |s| {
      var p := s[..|s| - 1];
      DigitsValueOfSuffix(p, i);
      assert s[i..][..|s[i..]| - 1] == p[i..];
    } else {
      assert s[i..] == "";
    }
  }

  /** The message the client signs: `${recipient}:${sendAmount}`, with the amount exactly as typed. */
  function ClientMessage(recipient: string, sendAmount: string): string {
    recipient + ":" + sendAmount
  }

  /**
   * For an amount typed as digits, the client signs the very message the server rebuilds
   * from `parseInt(sendAmount)` exactly when the digits have no leading zero.
   */
  lemma MessagesAgreeIffCanonical(recipient: string, sendAmount: string)
    requires |sendAmount| >= 1 && JsNumbers.AllDigits(sendAmount)
    ensures JsNumbers.ParseInt(sendAmount).Some?
    ensures ClientMessage(recipient, sendAmount) == Server.SignedMessage(recipient, JsNumbers.ParseInt(sendAmount).value)
      <==> JsNumbers.IsCanonicalDecimal(sendAmount)
  {
    JsNumbers.ParseIntOfDigits(sendAmount);
    var v := JsNumbers.DigitsValue(sendAmount, 10);
    JsNumbers.DecimalRoundTripIff(sendAmount);
    var printed := JsNumbers.IntToString(v);
    assert printed == JsNumbers.NatToDecimal(v);
    var prefix := recipient + ":";
    if prefix + sendAmount == prefix + printed {
      assert sendAmount == (prefix + sendAmount)[|prefix|..];
      assert printed == (prefix + printed)[|prefix|..];
    }
  }

  /** The signature step and the body of the post; `None` when `hexToBytes` or `sign` throws. */
  function BuildPayload(c: Crypto.Primitives, address: string, recipient: string, sendAmount: string, privateKey: string): (r: Option<Payload>)
    ensures r.Some? <==> (
      && HexToBytes(privateKey).Some?
      && c.sign(Crypto.MessageHash(c, ClientMessage(recipient, sendAmount)), HexToBytes(privateKey).value).Some?)
    ensures r.Some? ==> (
      && r.value.sender == address && r.value.recipient == recipient
      && r.value.amount == JsNumbers.ParseInt(sendAmount))
    ensures r.Some? ==>
      var sig := c.sign(Crypto.MessageHash(c, ClientMessage(recipient, sendAmount)), HexToBytes(privateKey).value).value;
      r.value.signature == ToHex(sig.compact) && r.value.recovery == sig.recovery
  {
    var msgHash := Crypto.MessageHash(c, ClientMessage(recipient, sendAmount));
    match HexToBytes(privateKey)
    case None => None
    case Some(key) =>
      match c.sign(msgHash, key)
      case None => None
      case Some(sig) => Some(Payload(address, recipient, JsNumbers.ParseInt(sendAmount), ToHex(sig.compact), sig.recovery))
  }

  /** The request the server handles for a posted body whose amount is a number. */
  function ToRequest(p: Payload): Server.SendRequest
    requires p.amount.Some?
  {
    Server.SendRequest(p.sender, p.recipient, p.amount.value, p.signature, p.recovery)
  }

  /**
   * End to end: the key stored as `toHex(key)`, the wallet's address derived from it, and an
   * amount typed without a leading zero; given the ECDSA round trip, the server accepts the
   * posted body as coming from that address and proceeds to the funds check.
   */
  lemma CanonicalTransferAuthenticates(c: Crypto.Primitives, b: Server.Balances, recipient: string, sendAmount: string, key: seq<Byte>)
    requires JsNumbers.IsCanonicalDecimal(sendAmount)
    requires Crypto.RecoversSigner(c, key, Crypto.MessageHash(c, ClientMessage(recipient, sendAmount)))
    requires BuildPayload(c, KeyIdentity.Address(c.getPublicKey(key)), recipient, sendAmount, ToHex(key)).Some?
    ensures var p := BuildPayload(c, KeyIdentity.Address(c.getPublicKey(key)), recipient, sendAmount, ToHex(key)).value;
      p.amount.Some?
      && Server.HandleSend(c, b, ToRequest(p)) == Server.Settle(b, p.sender, recipient, p.amount.value)
  {
    var address := KeyIdentity.Address(c.getPublicKey(key));
    var p := BuildPayload(c, address, recipient, sendAmount, ToHex(key)).value;
    HexRoundTrip(key);
    MessagesAgreeIffCanonical(recipient, sendAmount);
    var msgHash := Crypto.MessageHash(c, ClientMessage(recipient, sendAmount));
    var sig := c.sign(msgHash, key).value;
    Server.SignedBySenderAccepted(c, b, ToRequest(p), key, sig);
  }

  /** With a leading zero the server hashes a different message from the one signed. */
  lemma LeadingZeroChangesMessage(recipient: string, sendAmount: string)
    requires |sendAmount| >= 2 && JsNumbers.AllDigits(sendAmount) && sendAmount[0] == '0'
    ensures JsNumbers.ParseInt(sendAmount).Some?
    ensures ClientMessage(recipient, sendAmount) != Server.SignedMessage(recipient, JsNumbers.ParseInt(sendAmount).value)
  {
    MessagesAgreeIffCanonical(recipient, sendAmount);
  }

  /** The component's state, including the two pieces of application state it updates (balance, history). */
  class TransferForm {
    var sendAmount: string
    var recipient: string
    var status: Status
    var error: string
    var recipientBalance: Option<int>
    /** The application's balance, set through `setBalance`. */
    var balance: int
    /** The application's history, newest first, extended through `addTransaction`. */
    var transactions: seq<Transaction>
    /** The body of the post `transfer` is awaiting, if any. */
    var pending: Option<Payload>
    /** Every body posted to `/send` so far, and every address whose balance was requested. */
    ghost var posted: seq<Payload>
    ghost var fetched: seq<string>

    constructor (balance: int, transactions: seq<Transaction>)
      ensures sendAmount == "" && recipient == "" && status == Idle && error == "" && recipientBalance == None
      ensures this.balance == balance && this.transactions == transactions
      ensures pending == None && posted == [] && fetched == []
    {
      sendAmount, recipient, status, error, recipientBalance := "", "", Idle, "", None;
      this.balance, this.transactions := balance, transactions;
      pending, posted, fetched := None, [], [];
    }

    /** Typing in the recipient field, and the preview effect it triggers (the debounce is not modelled). */
    method SetRecipient(value: string, getBalance: string -> Option<int>)
      modifies this
      ensures recipient == value
      ensures !KeyIdentity.MatchesAddressPattern(value) ==> recipientBalance == None && fetched == old(fetched)
      ensures KeyIdentity.MatchesAddressPattern(value) ==> recipientBalance == getBalance(value) && fetched == old(fetched) + [value]
      ensures sendAmount == old(sendAmount) && status == old(status) && error == old(error)
      ensures balance == old(balance) && transactions == old(transactions) && pending == old(pending) && posted == old(posted)
    {
      recipient := value;
      recipientBalance := None;
      if !KeyIdentity.MatchesAddressPattern(value) {
        return;
      }
      fetched := fetched + [value];
      var reply := getBalance(value);
      if reply.Some? {
        recipientBalance := reply;
      }
    }

    method SetSendAmount(value: string)
      modifies this
      ensures sendAmount == value
      ensures recipient == old(recipient) && status == old(status) && error == old(error) && recipientBalance == old(recipientBalance)
      ensures balance == old(balance) && transactions == old(transactions) && pending == old(pending)
      ensures posted == old(posted) && fetched == old(fetched)
    {
      sendAmount := value;
    }

    /**
     * `transfer` up to the post. The submit button is disabled unless the status is idle.
     * A failed check sets its error and posts nothing; otherwise the status becomes
     * "sending" and the signed body is posted, or, if signing throws, the error is shown
     * and the status returns to idle.
     */
    method BeginTransfer(c: Crypto.Primitives, address: string, privateKey: string)
      requires status == Idle
      modifies this
      ensures var e := ValidationError(old(recipient), old(sendAmount));
        var p := BuildPayload(c, address, old(recipient), old(sendAmount), privateKey);
        && (e.Some? ==> error == e.value && status == Idle && pending == None && posted == old(posted))
        && (e.None? && p.None? ==> error == c.exceptionMessage && status == Idle && pending == None && posted == old(posted))
        && (e.None? && p.Some? ==> error == "" && status == Sending && pending == p && posted == old(posted) + [p.value])
      ensures sendAmount == old(sendAmount) && recipient == old(recipient) && recipientBalance == old(recipientBalance)
      ensures balance == old(balance) && transactions == old(transactions) && fetched == old(fetched)
    {
      var to, amount := recipient, sendAmount;
      error := "";
      pending := None;
      var e := ValidationError(to, amount);
      if e.Some? {
        error := e.value;
        return;
      }
      status := Sending;
      var p := BuildPayload(c, address, to, amount, privateKey);
      if p.None? {
        error := c.exceptionMessage;
        status := Idle;
        return;
      }
      posted := posted + [p.value];
      pending := p;
    }

    /**
     * `transfer` after the server answers. On success: the new balance, a history entry,
     * status "sent", both inputs cleared (which clears the preview). On an error: its
     * message, and status back to idle.
     */
    method FinishTransfer(reply: PostReply, now: int)
      requires status == Sending && pending.Some?
      modifies this
      ensures var p := old(pending).value;
        match reply
        case Ok(newBalance) =>
          && balance == newBalance
          && transactions == [Transaction(p.sender, p.recipient, p.amount, now)] + old(transactions)
          && status == Sent && sendAmount == "" && recipient == "" && recipientBalance == None
          && error == old(error)
        case Failed(message) =>
          && error == message && status == Idle
          && balance == old(balance) && transactions == old(transactions)
          && sendAmount == old(sendAmount) && recipient == old(recipient) && recipientBalance == old(recipientBalance)
      ensures pending == None && posted == old(posted) && fetched == old(fetched)
    {
      var p := pending.value;
      pending := None;
      match reply
      case Ok(newBalance) =>
        balance := newBalance;
        transactions := [Transaction(p.sender, p.recipient, p.amount, now)] + transactions;
        status := Sent;
        sendAmount := "";
        recipient := "";
        recipientBalance := None;
      case Failed(message) =>
        error := message;
        status := Idle;
    }
  }
}
