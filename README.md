# ecdsa-node in Dafny

A model of ecdsa-node. This is a demo payment system where each account is a secp256k1 key pair:

- The server keeps a table of balances keyed by address. It grants 100 units to any address whose balance is queried for the first time.
- The server moves funds on `POST /send` only when the signature recovers to the claimed sender's address.
- The React client validates a transfer, signs `recipient:amount` and posts it.
- The wallet panel generates or selects a key and looks up balances.

Modules, one per file:

- `Wrappers` (`wrappers.dfy`): `Option`.
- `Hex` (`hex.dfy`): `toHex` and `hexToBytes` of the ethereum-cryptography utilities, over bytes `0..255`.
- `Utf8` (`utf8.dfy`): `utf8ToBytes`, the UTF-8 encoding of RFC 3629, section 3.
- `Crypto` (`crypto.dfy`): Keccak-256 and secp256k1.
  - Both are foreign. A `Primitives` value bundles `keccak256`, `getPublicKey`, `sign` and `recoverPublicKey` as function values.
  - The ECDSA round trip (recovering the key from a signature gives back the signer's public key) is the predicate `RecoversSigner`. It is only ever a hypothesis.
- `KeyIdentity` (`key_identity.dfy`): `generateKeyPair`, the address derivation `"0x" + toHex(publicKey.slice(-20))` shared by server and wallet, and the client's address pattern `/^0x[0-9a-fA-F]{40}$/`.
- `JsNumbers` (`js_numbers.dfy`): the template literal `${n}` and `parseInt(s)` (section 19.2.5 of ECMA-262) on integers.
- `Server` (`server.dfy`): the balance table and both handlers.
  - Pure functions (`BalanceQuery`, `InitialBalance`, `Settle`, `HandleSend`) say what one handler does to a table.
  - The class `LedgerServer` holds the table and performs the same steps in place. Each of its methods is proved equal to the matching function.
- `ServerInvariants` (`server_invariants.dfy`): what holds over any sequence of requests.
  - The total of all balances grows by exactly 100 per first-time balance query, and `/send` never changes it.
  - Balances stay non-negative while no amount is negative.
- `Transfer` (`transfer.dfy`): the transfer form.
  - Validation, the signed message and the posted body.
  - The `TransferForm` state machine (`idle` → `sending` → `sent`/`idle`).
  - The end-to-end agreement between the message the client signs and the one the server rebuilds.
- `Wallet` (`wallet.dfy`): `trunc`, `accounts.find`, and the `WalletPanel` state (generate, select, look up).

Two behaviours of the server code are worth knowing:

- `setInitialBalance`, which `/send` runs on both parties, writes 0 for an unseen address. The faucet of `GET /balance` writes 100.
  - A recipient that receives 30 units in a bare `POST /send` before any balance query ends with 30 (`Server.TransferToNewAddressStartsAtZero`).
  - Through the client, the recipient preview usually queries `GET /balance` first (client/src/Transfer.jsx:17-27). That grants the 100, so the recipient ends with 130. The third `ensures` of the same lemma states this case.
- The server never checks the sign of `amount`.
  - A zero amount is accepted.
  - A negative amount passes the funds check and takes units from the recipient (`Server.NegativeAmountDebitsRecipient`, `Server.NegativeAmountOverdrawsRecipient`).
  - Non-negativity of balances is therefore proved only for non-negative amounts.

## Model

| member | source | states |
|---|---|---|
| Hex.DigitValue | client/src/Transfer.jsx:46 | a character has a hex value exactly when it is in `[0-9a-fA-F]`, and that value is below 16 |
| Hex.ToHex | server/scripts/generateKeys.js:13-14 | `toHex` writes exactly two lower-case hex digits per byte |
| Hex.DecodePairs | server/index.js:57 | strict hex decoding succeeds exactly when the string has even length and every character is in `[0-9a-fA-F]` (no "0x" prefix is accepted), and then yields half as many bytes |
| Hex.DigitValueOfHexChar | server/scripts/generateKeys.js:13 | each nibble digit written by `toHex` reads back as that nibble |
| Hex.ToHexConcat | server/index.js:61 | `toHex` of a concatenation is the concatenation of the `toHex`s |
| Hex.NibblesOfByte | server/scripts/generateKeys.js:13 | the two digits written for a byte read back as its high and low nibble, which recombine to the byte |
| Hex.DecodePairsStep | server/index.js:57 | two valid digits in front of a decodable rest decode to one byte in front of the rest's bytes |
| Hex.DecodePairsToHex | server/index.js:57 | strict decoding inverts `toHex`: a signature posted as `toHex` reaches recovery as the original bytes |
| Hex.HexToBytes | client/src/Transfer.jsx:46 | definition of `hexToBytes`, which drops an optional "0x"; its round trip with `toHex` is proved in `HexRoundTrip` |
| Hex.HexRoundTrip | client/src/Transfer.jsx:46 | `hexToBytes(toHex(b)) == b`: the stored private-key string decodes to the original key bytes |
| Hex.ToHexInjective | server/scripts/generateKeys.js:13-14 | `toHex` is injective (both directions) |
| Utf8.EncodeChar | server/index.js:54 | each character encodes to 1–4 bytes, and its lead byte announces the length |
| Utf8.DecodeEncodeChar | server/index.js:54 | decoding a character's encoding gives back its scalar value |
| Utf8.Utf8ToBytes | server/index.js:54 | the encoding of a string has between one and four bytes per character |
| Utf8.Utf8Injective | client/src/Transfer.jsx:45 | different strings have different UTF-8 encodings (both directions) |
| KeyIdentity.LastBytes | server/index.js:61 | `slice(-20)` yields the last `min(20, n)` bytes, a suffix of the key |
| KeyIdentity.Address | server/index.js:61 | an address is "0x" and then `2*min(20, n)` lower-case hex digits |
| KeyIdentity.MatchesAddressPattern | client/src/Wallet.jsx:48 | definition of `/^0x[0-9a-fA-F]{40}$/`, also used at client/src/Transfer.jsx:19 and 33; its relation to derived addresses is proved in `AddressMatchesPattern` |
| KeyIdentity.AddressMatchesPattern | client/src/Wallet.jsx:17 | a derived address satisfies `/^0x[0-9a-fA-F]{40}$/` exactly when the public key has at least 20 bytes |
| KeyIdentity.AddressDeterminedByLastBytes | server/scripts/generateKeys.js:11 | two keys have equal addresses exactly when their last 20 bytes agree |
| KeyIdentity.AddressHasNoUpperCase | server/index.js:61 | no derived address holds an upper-case letter |
| KeyIdentity.GenerateKeyPair | server/scripts/generateKeys.js:8-17 | both key strings are lower-case hex of twice the byte count. The private-key string decodes to the key bytes, and the public-key string decodes to the public key. The address is derived from the public key |
| KeyIdentity.AddressIsPublicKeySuffix | server/scripts/generateKeys.js:10-15 | the address digits are the tail of the public-key hex: its last 40 characters for a key of at least 20 bytes |
| JsNumbers.RadixDigit | client/src/Transfer.jsx:51 | a digit accepted in a radix is below the radix |
| JsNumbers.NatToDecimal | server/index.js:53 | `${n}` is a canonical decimal numeral that starts with '0' only for 0 |
| JsNumbers.DecimalValueOfNatToDecimal | server/index.js:53 | the printed numeral has the printed value |
| JsNumbers.LeadingDigitBoundsValue | client/src/Transfer.jsx:37 | a numeral with a non-zero first digit has a positive value |
| JsNumbers.NatToDecimalOfCanonical | client/src/Transfer.jsx:44 | printing the value of a canonical numeral gives the numeral back |
| JsNumbers.DecimalRoundTripIff | client/src/Transfer.jsx:44 | for digit strings, printing the value reproduces the string exactly when it has no leading zero |
| JsNumbers.TrimStart | client/src/Transfer.jsx:51 | `parseInt` drops a prefix made only of white space, and what remains does not start with white space |
| JsNumbers.DigitRun | client/src/Transfer.jsx:51 | `parseInt` reads the longest prefix of digits of its radix |
| JsNumbers.ParseRunOfDigits | client/src/Transfer.jsx:51 | a run made only of digits is read whole |
| JsNumbers.ParseUnsignedOfDigits | client/src/Transfer.jsx:51 | an unsigned digit string is read in base 10 |
| JsNumbers.ParseIntOfDigits | client/src/Transfer.jsx:51 | `parseInt` of a non-empty digit string is its decimal value |
| JsNumbers.IntToString | server/index.js:53 | `${n}` is a '-' exactly for a negative `n`, followed by decimal digits; its value is proved in `ParseIntOfIntToString` |
| JsNumbers.ParseInt | client/src/Transfer.jsx:37 | definition of `parseInt(s)` without a radix; its properties are proved in `ParseIntOfDigits` and `ParseIntOfIntToString` |
| JsNumbers.ParseIntOfIntToString | server/index.js:53 | `parseInt` reads `${n}` back as `n`, for every integer |
| Server.BalanceQuery | server/index.js:41-47 | a new address is stored with 100 and 100 is returned; every existing entry, including one holding 0, is kept and the stored value is returned |
| Server.BalanceQueryIdempotent | server/index.js:43-46 | a second query returns the same value and grants nothing more |
| Server.InitialBalance | server/index.js:105-109 | `setInitialBalance` makes an absent entry 0 and keeps every stored value |
| Server.Settle | server/index.js:69-78 | only sender and recipient change. Success happens exactly when the initialised sender balance covers the amount. On "Not enough funds!" every existing entry is kept. Success debits the sender and credits the recipient (no change when they are the same address), conserves their sum, and replies with the sender's new balance. Non-negative balances stay so for a non-negative amount |
| Server.HandleSend | server/index.js:49-79 | a signature that does not decode or recover throws and changes nothing; a recovered address different from the sender gives "Invalid signature!" and changes nothing; otherwise the funds step runs |
| Server.UpperCaseSenderRejected | server/index.js:61-66 | a claimed sender holding an upper-case letter is always refused, table unchanged |
| Server.SignedBySenderAccepted | server/index.js:53-66 | given the ECDSA round trip, a request signed by the key behind the sender over the server's message passes authentication |
| Server.SignedMessage | server/index.js:53 | `${recipient}:${amount}`: the recipient, a ':' and then `${amount}`; injectivity is proved in `SignedMessageInjective` |
| Server.RecoveredKey | server/index.js:57-58 | definition: strict hex decoding of the signature, then recovery on the message hash; `None` when either throws |
| Crypto.MessageHash | server/index.js:54 | definition of `keccak256(utf8ToBytes(message))`, the digest at this line and at client/src/Transfer.jsx:45 |
| Server.SeparatorIsLastColon | server/index.js:53 | the ':' after the recipient is the last ':' of the message |
| Server.SignedMessageInjective | server/index.js:53 | the message determines recipient and amount (both directions) |
| Server.TamperedRequestHashesOtherBytes | server/index.js:53-54 | a changed recipient or amount changes the bytes that are hashed |
| Server.TransferToNewAddressStartsAtZero | server/index.js:105-109 | an unseen recipient ends with just the amount, and a later query returns it; after a prior balance query it gets 100 plus the amount |
| Server.NegativeAmountDebitsRecipient | server/index.js:72-77 | a negative amount passes the funds check, raises the sender and lowers the recipient |
| Server.NegativeAmountOverdrawsRecipient | server/index.js:72-77 | a recipient holding 0 ends at -30 after an amount of -30 |
| Server.SeedBalances | server/index.js:18-23 | the table's keys are the key pairs' addresses, the last write for an address wins, and every value is one of 100, 50, 75 |
| Server.LedgerServer.constructor | server/index.js:18-23 | three key pairs from `generateKeyPair`, and a table keyed by their addresses. The i-th pair's address holds the i-th of 100, 50, 75 unless a later pair has the same address. Every value is one of those three, so all are non-negative |
| Server.LedgerServer.GetBalance | server/index.js:41-47 | the in-place handler yields the reply and table of `BalanceQuery` |
| Server.LedgerServer.SetInitialBalance | server/index.js:105-109 | the in-place update yields the table of `InitialBalance` |
| Server.LedgerServer.ApplyTransfer | server/index.js:69-78 | the in-place initialisation, funds check, debit and credit yield the reply and table of `Settle` |
| Server.LedgerServer.Send | server/index.js:49-79 | the in-place handler yields the reply and table of `HandleSend`; every reply other than success and "Not enough funds!" leaves the table unchanged |
| ServerInvariants.TotalRemove | server/index.js:20 | the total is any entry plus the total of the rest |
| ServerInvariants.TotalUpdate | server/index.js:76-77 | writing a value changes the total by the difference with what was stored |
| ServerInvariants.BalanceQueryTotal | server/index.js:43-45 | a balance query adds exactly 100 to the total for a new address, nothing otherwise |
| ServerInvariants.InitialBalanceTotal | server/index.js:105-109 | `setInitialBalance` keeps the total |
| ServerInvariants.SettleTotal | server/index.js:69-78 | the funds step keeps the total, whatever its outcome |
| ServerInvariants.HandleSendTotal | server/index.js:49-79 | `/send` keeps the total |
| ServerInvariants.ServeTotal | server/index.js:41-79 | over any request sequence, the total grows by exactly 100 per first-time query |
| ServerInvariants.ServeKeepsNonNegative | server/index.js:72-77 | balances stay non-negative over any request sequence without a negative amount |
| Transfer.ValidationError | client/src/Transfer.jsx:33-40 | "Enter a valid recipient address." exactly when the recipient fails the pattern; "Enter a valid amount greater than 0." exactly when it passes and the amount is empty or parses to at most 0; no error otherwise |
| Transfer.PositiveDigitsAccepted | client/src/Transfer.jsx:37 | a digit string with a non-zero digit passes the amount check |
| Transfer.DigitsValueOfSuffix | client/src/Transfer.jsx:37 | dropping leading digits never increases a numeral's value |
| Transfer.MessagesAgreeIffCanonical | client/src/Transfer.jsx:44-51 | for a digit amount, the client's signed message equals the server's rebuilt one exactly when the amount has no leading zero |
| Transfer.ClientMessage | client/src/Transfer.jsx:44 | definition of `${recipient}:${sendAmount}`, with the amount as typed; its relation to the server's message is proved in `MessagesAgreeIffCanonical` |
| Transfer.AmountRejected | client/src/Transfer.jsx:37 | definition of the amount check: the amount is empty, or `parseInt(sendAmount) <= 0`, where a `NaN` amount is not rejected; used by `ValidationError` |
| Transfer.BuildPayload | client/src/Transfer.jsx:44-54 | a body exists exactly when the key decodes and signing succeeds. It carries the sender, the recipient and `parseInt(sendAmount)`. Its signature is `toHex` of the compact bytes, and its recovery is the recovery bit, both of `sign(keccak256(utf8ToBytes(recipient:sendAmount)), hexToBytes(privateKey))` |
| Transfer.CanonicalTransferAuthenticates | client/src/Transfer.jsx:44-54 | given the ECDSA round trip, a body built from a stored key and a canonical amount passes the server's authentication |
| Transfer.LeadingZeroChangesMessage | client/src/Transfer.jsx:44 | with a leading zero the server rebuilds a different message from the one signed |
| Transfer.TransferForm.constructor | client/src/Transfer.jsx:10-14 | empty inputs, status idle, no error, no preview |
| Transfer.TransferForm.SetRecipient | client/src/Transfer.jsx:17-27 | the preview is cleared and requested only for a recipient matching the address pattern |
| Transfer.TransferForm.SetSendAmount | client/src/Transfer.jsx:82 | only the amount input changes |
| Transfer.TransferForm.BeginTransfer | client/src/Transfer.jsx:29-54 | a failed check sets its message and posts nothing; otherwise the status becomes sending and the signed body is posted, or, if signing throws, the error is shown and the status returns to idle |
| Transfer.TransferForm.FinishTransfer | client/src/Transfer.jsx:56-64 | on success: the new balance, the transaction recorded first in the history, status sent, both inputs cleared; on an error: its message and status idle |
| Wallet.Trunc | client/src/Wallet.jsx:6 | the first 8 characters, the ellipsis, the last 6. That is 15 characters for any string of at least 8, and the string, the ellipsis and the string again for one of at most 6 |
| Wallet.TruncOfAddress | client/src/Transfer.jsx:7 | a derived address is shown as 15 characters starting with "0x" and ending with its last 6 hex digits |
| Wallet.FindAccount | client/src/Wallet.jsx:28 | the first account with the selected address, and none exactly when no account has it |
| Wallet.WalletPanel.constructor | client/src/Wallet.jsx:9-10 | empty lookup input, no lookup result |
| Wallet.WalletPanel.GenerateWallet | client/src/Wallet.jsx:13-25 | the key is stored as hex and decodes back, the address is derived from its public key (and matches the pattern for a key of at least 20 bytes), and its balance is requested |
| Wallet.WalletPanel.SelectAccount | client/src/Wallet.jsx:27-34 | nothing changes when no account has the selected address; otherwise that account's key and address are set and its balance requested |
| Wallet.WalletPanel.SetLookupAddr | client/src/Wallet.jsx:113 | the lookup input changes and the lookup result is cleared |
| Wallet.WalletPanel.CheckBalance | client/src/Wallet.jsx:47-51 | an address failing the pattern sends no request and leaves the lookup result unchanged; otherwise it is requested |

## Left out

- Keccak-256 and secp256k1 internals (`getPublicKey`, `sign`, `Signature.fromCompact`, `recoverPublicKey`): foreign library code. They are fields of `Crypto.Primitives`. The ECDSA round trip is a stated hypothesis, and no public-key length is assumed.
- `randomPrivateKey`: randomness. The drawn bytes are a parameter of `GenerateKeyPair`, the `LedgerServer` constructor and `GenerateWallet`.
- HTTP, Express routing, CORS, JSON parsing, status codes and axios: transport.
  - Handlers take typed arguments. The server's `amount` is an integer, so a `NaN` amount posted as `null` (and its coercions) is not modelled.
  - A reply is a `SendReply` or `PostReply` value. Balance queries from the client are a function parameter returning `None` on failure.
- Object-key edge cases of the JavaScript `balances` object, such as inherited keys like `constructor`: the table is a plain map.
- `fs.writeFileSync` of `test-keys.json`, console logging, the `/accounts` endpoint and the commented-out legacy `/send` handler (server/index.js:26-39, 81-103): I/O and demo convenience.
- client/src/App.jsx is not part of this model. The application state it passes down (balance, address, key, history) is held as fields of the two panels.
- JSX rendering, the 400 ms preview debounce, the 2.5 s reset of status "sent" to "idle", `copyAddress`, `refreshBalance`, `alert`, and the disabled state of inputs while sending: UI, timers and clipboard. The submit button's disabled state appears only as `BeginTransfer`'s requirement that the status be idle.
- Concurrency: Node runs each handler to completion, and `transfer` is split at its `await` into `BeginTransfer` and `FinishTransfer`. Interleavings of several outstanding client requests are not modelled.
- Number representation: amounts and balances are unbounded integers. The rounding of JavaScript numbers beyond 2^53 and `-0` are not modelled.
- JsNumbers.IntToString: always writes plain decimal digits. JavaScript's `${n}` switches to exponent form ("1e+21") for magnitudes of 10^21 and more, and `parseInt` reads such a string back as 1. `JsNumbers.ParseIntOfIntToString` and `Server.SignedMessageInjective` hold only for the plain form.
- Transfer.MessagesAgreeIffCanonical: holds for exact integers only. JavaScript numbers are doubles, so `parseInt` rounds a canonical amount above 2^53 such as "9007199254740993" to 9007199254740992. The server then rebuilds a different message from the one signed, and the "if" direction fails. `Transfer.CanonicalTransferAuthenticates` depends on that direction and is limited in the same way.
- Strings are sequences of Unicode scalar values. JavaScript's UTF-16 code units, and the replacement of lone surrogates by `utf8ToBytes`, are not modelled. `trunc` counts characters, not code units.
- Wallet.Trunc: its contract states the result for strings of at least 8 and of at most 6 characters. It says nothing special about length 7.
- The text of the exceptions thrown by the cryptography library is a parameter (`exceptionMessage`).
