/**
 * Ledger-wide consequences of the two handlers in server/index.js, over any sequence of
 * requests processed one after another: units are created only by the faucet of
 * `GET /balance`, never by `/send`, and balances stay non-negative as long as no request
 * carries a negative amount.
 */
module ServerInvariants {
  import opened Server
  import Crypto

  /** The sum of all balances in the table. */
  ghost function Total(b: Balances): int
    decreases |b|
  {
    if b == map[] then 0
    else
      var k :| k in b;
      assert |b - {k}| < |b| by { assert (b - {k}).Keys < b.Keys; }
      b[k] + Total(b - {k})
  }

  lemma {:induction false} TotalRemove(b: Balances, k: string)
    requires k in b
    ensures Total(b) == b[k] + Total(b - {k})
    decreases |b|
  {
    var j :| j in b && Total(b) == b[j] + Total(b - {j});
    if j != k {
      assert |b - {j}| < |b| by { assert (b - {j}).Keys < b.Keys; }
      TotalRemove(b - {j}, k);
      TotalRemove(b - {k}, j);
      assert b - {j} - {k} == b - {k} - {j};
    }
  }

  /** Writing `v` at `k` changes the total by `v` minus what `k` held (nothing if absent). */
  lemma TotalUpdate(b: Balances, k: string, v: int)
    ensures Total(b[k := v]) == Total(b) - Stored(b, k) + v
  {
    TotalRemove(b[k := v], k);
    assert b[k := v] - {k} == b - {k};
    if k in b {
      TotalRemove(b, k);
    } else {
      assert b - {k} == b;
    }
  }

  /** `GET /balance` adds exactly the faucet amount to the total for a new address, and nothing otherwise. */
  lemma BalanceQueryTotal(b: Balances, address: string)
    ensures Total(BalanceQuery(b, address).1) == Total(b) + (if address in b then 0 else Faucet)
  {
    if address !in b {
      TotalUpdate(b, address, Faucet);
    }
  }

  lemma InitialBalanceTotal(b: Balances, address: string)
    ensures Total(InitialBalance(b, address)) == Total(b)
  {
    if address !in b || b[address] == 0 {
      TotalUpdate(b, address, 0);
    }
  }

  /** The transfer step moves units between two entries and creates none, whatever the outcome. */
  lemma SettleTotal(b: Balances, sender: string, recipient: string, amount: int)
    ensures Total(Settle(b, sender, recipient, amount).1) == Total(b)
  {
    var b0 := InitialBalance(b, sender);
    var b1 := InitialBalance(b0, recipient);
    InitialBalanceTotal(b, sender);
    InitialBalanceTotal(b0, recipient);
    if b1[sender] >= amount {
      var b2 := b1[sender := b1[sender] - amount];
      var b3 := b2[recipient := b2[recipient] + amount];
      assert Settle(b, sender, recipient, amount).1 == b3;
      TotalUpdate(b1, sender, b1[sender] - amount);
      TotalUpdate(b2, recipient, b2[recipient] + amount);
    } else {
      assert Settle(b, sender, recipient, amount).1 == b1;
    }
  }

  /** `POST /send` never changes the total. */
  lemma HandleSendTotal(c: Crypto.Primitives, b: Balances, req: SendRequest)
    ensures Total(HandleSend(c, b, req).1) == Total(b)
  {
    SettleTotal(b, req.sender, req.recipient, req.amount);
  }

  /** One request to the server, as its handler receives it. */
  datatype Request = BalanceRequest(address: string) | TransferRequest(send: SendRequest)

  function Step(c: Crypto.Primitives, b: Balances, r: Request): Balances {
    match r
    case BalanceRequest(a) => BalanceQuery(b, a).1
    case TransferRequest(req) => HandleSend(c, b, req).1
  }

  /** The table after the requests have been handled in order. */
  function Serve(c: Crypto.Primitives, b: Balances, rs: seq<Request>): Balances
    decreases |rs|
  {
    if rs == [] then b else Serve(c, Step(c, b, rs[0]), rs[1..])
  }

  /** How many of the requests are balance queries for an address the table does not hold yet. */
  function Grants(c: Crypto.Primitives, b: Balances, rs: seq<Request>): nat
    decreases |rs|
  {
    if rs == [] then 0
    else (if rs[0].BalanceRequest? && rs[0].address !in b then 1 else 0) + Grants(c, Step(c, b, rs[0]), rs[1..])
  }

  /** Units are created only by the faucet: the total grows by exactly 100 per first-time query. */
  lemma {:induction false} ServeTotal(c: Crypto.Primitives, b: Balances, rs: seq<Request>)
    ensures Total(Serve(c, b, rs)) == Total(b) + Faucet * Grants(c, b, rs)
    decreases |rs|
  {
    if rs != [] {
      ServeTotal(c, Step(c, b, rs[0]), rs[1..]);
      match rs[0]
      case BalanceRequest(a) => BalanceQueryTotal(b, a);
      case TransferRequest(req) => HandleSendTotal(c, b, req);
    }
  }

  predicate NoNegativeAmount(rs: seq<Request>) {
    forall i :: 0 <= i < |rs| && rs[i].TransferRequest? ==> rs[i].send.amount >= 0
  }

  /** Balances stay non-negative over any run in which no transfer carries a negative amount. */
  lemma {:induction false} ServeKeepsNonNegative(c: Crypto.Primitives, b: Balances, rs: seq<Request>)
    requires NonNegative(b) && NoNegativeAmount(rs)
    ensures NonNegative(Serve(c, b, rs))
    decreases |rs|
  {
    if rs != [] {
      assert NoNegativeAmount(rs[1..]) by {
        forall i | 0 <= i < |rs[1..]| && rs[1..][i].TransferRequest?
          ensures rs[1..][i].send.amount >= 0
        {
          assert rs[1..][i] == rs[i + 1];
        }
      }
      ServeKeepsNonNegative(c, Step(c, b, rs[0]), rs[1..]);
    }
  }
}
