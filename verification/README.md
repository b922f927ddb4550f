# EasyTicket payment reconciliation and ticket lifecycle, in Dafny

EasyTicket sells event tickets. A customer places an order from an event
page, pays it through MoMo or VNPay, and each ticket later gets a signed QR
token that an organiser scans at the door. This project models the part of
the application where money and seats are accounted for:

- **Gateway requests and callbacks** (`MomoService`, `VnpayService`,
  `VnpayRoutes`). The MoMo create request signs a fixed field order. VNPay
  signs the non-empty parameters sorted by key and form-encoded. Each
  server-to-server callback is a chain of gates: signature, correlation id
  `"<order>-<payment>"`, payment and order lookup, exact amount. Only a
  callback that passes all of them writes the payment ledger. The
  `verifyReturn` functions only read.
- **The payment ledger** (`PaymentDao`). `create_payment` opens a PENDING
  row with transaction id `"init"`. `update_payment_status` overwrites the
  status with no transition guard and keeps the old transaction id when
  the new one is empty.
- **Inventory and issuance** (`TicketDao`, `OrderRoutes`). Sold seats are
  ACTIVE and USED tickets. Remaining is `max(0, quantity - sold)`. An
  order stores each line's price at the time it was placed. `_issue_tickets`
  re-checks capacity across all lines before it mints one ACTIVE ticket per
  seat, so issuing is all or nothing.
- **The QR codec** (`QrCodec`, with `Base64`). A token is
  `base64url(header).base64url(payload).base64url(mac)`, with padding
  dropped. The MAC is HMAC-SHA256 over the first two segments.
- **Check-in** (`QrRoutes`). `issue_qr` signs a ticket's token once. The
  organiser's scan moves an ACTIVE ticket of the scanned event to USED, and
  nothing else.

Supporting modules model the Python behaviour the code relies on:

- `PyText`: `str.strip`, `split`, `find`, `replace`, `int()` and `upper`.
- `Bytes`: UTF-8 encoding, section 3 of RFC 3629.
- `Base64`: the standard and URL-safe alphabets of RFC 4648, sections 4
  and 5.
- `FormEncoding`: `quote_plus(v, safe="")`, percent-encoding as in section
  2.1 of RFC 3986, with the space written as `+`.
- `Dict`: insertion-ordered dicts with distinct keys, and `sorted()` on
  string keys.
- `Json`: an abstract serialiser pair.

Stores are values passed through pure functions:

- the ledger is a `map<int, Payment>` with its next id;
- the ticket table is a `seq<Ticket>` with its next id;
- the order tables are a map and a sequence.

Every route and service returns an outcome datatype together with the new
store. HMAC, JSON serialisation, clocks, uuids and the HTTP call are
function-valued parameters.

Where the code and its documentation disagree, the model follows the code:

- A second scan of a USED ticket answers `"Invalid state: USED"`. The QR
  integration test expects `"checked_in"` and `"already_checked_in"`, which
  the code never produces (`QrRoutes.SecondScanRefused`).
- `_issue_tickets` is not called anywhere in the application. It is
  modelled as the function it would be.
- The ticket lookups the QR routes import (`get_ticket_by_qr`,
  `save_ticket_qr`, `mark_checked_in`) are defined only in
  `tests/unittest/test_ticket_dao.py`. That file is what `TicketDao` models.
- The VNPay IPN answer is built from `{"error": e, **params}`. A callback
  parameter literally named `error` therefore turns a settled payment's
  answer into RspCode 99 (`VnpayRoutes.ErrorParamMasksSettlement`).
- `create` reads the type id as `int(k[6:-1])`, which drops the last
  character whatever it is. It checks each line against the same sold
  count. A form can therefore name one type twice and be placed beyond
  the type's remaining seats (`OrderRoutes.RepeatedTypeSlipsPastCheck`).
  The later re-check in `_issue_tickets` does add lines up.
- `hmac.compare_digest` raises `TypeError` on a non-ASCII string. The
  token check turns that into a malformed-token result.
- The ticket status whose value is `"REFUNDED"` is the constructor
  `Returned`, because `Refunded` already names a payment status in the
  same module.

## Model

| member | source | states |
|---|---|---|
| PyText.Strip | easyticket/app/services/momo_service.py:104 | `str.strip()`: the result is the slice of the input that starts right after its leading whitespace and is followed only by whitespace, and has no whitespace at either end, so it is the longest such slice; it is the input itself when no whitespace surrounds it |
| PyText.Split | easyticket/app/services/vnpay_service.py:110 | `str.split(sep)`: at least one part, no part contains the separator, and joining the parts with the separator gives the text back |
| PyText.SplitOnce | easyticket/app/services/momo_service.py:162-166 | `str.split(sep, 1)`: one part equal to the text when the separator is absent, otherwise the text before its first occurrence and everything after it |
| PyText.SplitJoin | easyticket/app/services/vnpay_service.py:110 | splitting a join of separator-free parts gives exactly those parts back |
| PyText.Find | easyticket/app/services/momo_service.py:107 | `str.find`: the index of the first occurrence of the needle, or none when it does not occur |
| PyText.ReplaceFirstAtFront | easyticket/app/services/momo_service.py:107 | replacing the first occurrence of a text that opens the string swaps just that prefix |
| PyText.ParseInt | easyticket/app/services/vnpay_service.py:110 | `int(s)`: yields `n` exactly when the stripped text spells `n` as ASCII digits after at most one `+` or `-`, and fails on every other text |
| PyText.ParseIntRoundTrip | easyticket/app/services/momo_service.py:114-116 | `int(str(n)) == n` for every integer |
| PyText.IntToString | easyticket/app/services/momo_service.py:104 | `str(n)` is plain: a minus sign only for negatives, never a plus sign, no leading zero except in "0" |
| PyText.PlainSpellingUnique | easyticket/app/services/momo_service.py:104 | a plain text that `int` reads as `n` is exactly `str(n)`, so the form of `str(n)` is pinned |
| Bytes.Utf8EncodeAppend | easyticket/app/utils/qr_utils.py:18-20 | `.encode()` of a concatenation is the concatenation of the encodings |
| Base64.EncodeUnpadded | easyticket/app/utils/qr_utils.py:5-6 | the encoding uses only alphabet characters, never `=`, never a length of 1 modulo 4, and is empty only for empty input |
| Base64.Encode | easyticket/app/services/momo_service.py:55 | `b64encode`: the padded encoding has a length that is a multiple of 4 |
| Base64.EncodeUrl | easyticket/app/utils/qr_utils.py:5-6 | `_b64url`: URL-safe alphabet only, with no padding and no dot |
| Base64.UrlRoundTrip | easyticket/app/utils/qr_utils.py:5-10 | `_b64url_decode(_b64url(b)) == b`: re-adding `-len % 4` padding undoes the stripping |
| Base64.StandardRoundTrip | easyticket/app/services/momo_service.py:55 | the padded standard encoding of the MoMo extra data decodes back to its bytes |
| Base64.UrlInjective | easyticket/app/utils/qr_utils.py:5-6 | different byte strings never share a URL-safe encoding |
| FormEncoding.QuotePlus | easyticket/app/services/vnpay_service.py:35 | `quote_plus(v, safe="")` writes only unreserved characters, `%XX` and `+`, so it never contains `&`, `=` or a space |
| FormEncoding.FormRoundTrip | easyticket/app/services/vnpay_service.py:35 | form-decoding the quoted bytes gives them back |
| FormEncoding.QuotePlusInjective | easyticket/app/services/vnpay_service.py:35 | two values with the same quoting have the same UTF-8 bytes |
| Dict.Get | easyticket/app/services/vnpay_service.py:116-118 | `dict.get`: none exactly when the key is absent, otherwise the value stored under it |
| Dict.GetOrIfEmpty | easyticket/app/services/vnpay_service.py:110 | `d.get(k) or default`: the default for a missing key or an empty value |
| Dict.Filter | easyticket/app/services/vnpay_service.py:102 | a dict comprehension with a condition keeps exactly the pairs that satisfy it, with their multiplicities, and the keys stay distinct |
| Dict.SortByKey | easyticket/app/services/vnpay_service.py:34 | `sorted(...)` on the pairs is ordered by key and is a permutation of its input |
| Dict.SortedUnique | easyticket/app/services/vnpay_service.py:34 | two key-sorted permutations of the same distinct-key pairs are equal |
| Dict.LexLessTotal | easyticket/app/services/vnpay_service.py:34 | Python's string `<` orders any two different keys one way or the other |
| Dict.EncodingIgnoresOrder | easyticket/app/services/vnpay_service.py:33-35 | `_encode_pairs_sorted` gives the same string for any two dicts holding the same pairs, whatever their insertion order |
| Dict.EncodingIsSortedNonEmpty | easyticket/app/services/vnpay_service.py:33-35 | the canonical string is built from exactly the pairs with a non-empty value, sorted by key |
| Json.ScalarStr | easyticket/app/services/momo_service.py:104 | `str(v)` of a JSON scalar: a string is itself, `None`, `True` and `False` are spelled as Python spells them, and an integer's text is plain and parses back to it (so it is `str(n)`) |
| Json.DumpsInjective | easyticket/app/utils/qr_utils.py:19 | under a lawful serialiser, different values never serialise alike |
| Json.Field | easyticket/app/blueprints/qr.py:34-35 | `data.get(k)` on a decoded object: a value stored under the key, none when no entry has the key, and none on anything but an object |
| Json.LastField | easyticket/app/blueprints/qr.py:34-35 | a repeated key keeps the value of its last occurrence, as `json.loads` builds the dict |
| Models.TicketStatus.Value | easyticket/app/blueprints/qr.py:49 | the status text shown in "Invalid state: …" is ACTIVE, USED, CANCELLED or REFUNDED, each for exactly one status |
| PaymentDao.CreatePayment | easyticket/app/dao/payment_dao.py:5-16 | a new payment has a fresh id, status PENDING, transaction id "init" and the given order, amount and method, and no other row changes |
| PaymentDao.UpdatePaymentStatus | easyticket/app/dao/payment_dao.py:19-26 | an unknown id leaves the ledger unchanged; otherwise the status is overwritten, the transaction id changes only to a non-empty value, and nothing else changes |
| PaymentDao.UpdateIdempotent | easyticket/app/dao/payment_dao.py:19-26 | applying the same update twice gives the ledger of applying it once |
| PaymentDao.LastUpdateWins | easyticket/app/dao/payment_dao.py:23 | with no transition guard, a later status update replaces an earlier one, even SUCCESS by FAILED |
| PaymentDao.UpdatePreservesValid | easyticket/app/dao/payment_dao.py:19-26 | an update keeps every stored payment below the next id |
| TicketDao.CountSold | easyticket/app/dao/ticket_dao.py:10-23 | an empty id list gives an empty map; a type is a key exactly when it was requested and has ACTIVE or USED tickets, and its value is that count |
| TicketDao.SoldLookup | easyticket/app/blueprints/order.py:71-80 | `sold.get(id, 0)` on the map is the number of ACTIVE or USED tickets of a requested type |
| TicketDao.SoldOfConcat | easyticket/app/tests/unittest/test_ticket_dao.py:10-22 | the sold count of two ticket lists together is the sum of their counts |
| TicketDao.ReleasingFreesOneSeat | easyticket/app/dao/ticket_dao.py:18 | cancelling or refunding one ACTIVE ticket lowers its type's sold count by one, so these statuses take no seat |
| TicketDao.GetTicketById | easyticket/app/tests/unittest/test_ticket_dao.py:49-50 | the row with that id, or none when no row has it |
| TicketDao.GetTicketByQr | easyticket/app/tests/unittest/test_ticket_dao.py:52-53 | the first row whose qr_data equals the token exactly, or none when no row holds it |
| TicketDao.SaveTicketQr | easyticket/app/tests/unittest/test_ticket_dao.py:55-59 | only qr_data and issued_at of the one row change |
| TicketDao.MarkCheckedIn | easyticket/app/tests/unittest/test_ticket_dao.py:61-65 | only the row's status, now USED, and use_at change |
| TicketDao.TicketsOfUser | easyticket/app/tests/unittest/test_ticket_dao.py:24-47 | a ticket is listed exactly when its order belongs to the user and, when a status is given, it has that status |
| MomoService.CanonicalReadBack | easyticket/app/services/momo_service.py:31-32 | when no key or value contains `&`, the `&`-joined string splits back into exactly its `key=value` texts |
| MomoService.CreateFields | easyticket/app/services/momo_service.py:19-31 | the ten create fields, keys already in sorted order, carry accessKey, amount as decimal text, extraData, ipnUrl, orderId, orderInfo, partnerCode, redirectUrl, requestId and requestType, key by key |
| MomoService.BuildCreateRaw | easyticket/app/services/momo_service.py:19-32 | the create string uses the ten keys accessKey … requestType in a fixed order that equals sorting the fields by key |
| MomoService.ExtraData | easyticket/app/services/momo_service.py:54-55 | the extra data decodes, under a lawful serialiser, to the object holding the order id and the payment id |
| MomoService.BuildRequest | easyticket/app/services/momo_service.py:48-81 | the request's orderId is `"<order>-<payment>"`, orderInfo is the stripped text or the default, requestType is the stripped configured type, partnerCode, redirectUrl and ipnUrl are the configured ones, partnerName is "MoMo", storeId "TicketApp", lang "vi", requestId the given one, and the signature is the HMAC of the create string |
| MomoService.PrepareMomoPayment | easyticket/app/services/momo_service.py:36-44 | a missing order or a differing amount is refused before any payment exists; otherwise exactly one PENDING payment is opened for the order's amount |
| MomoService.ReplyPayUrl | easyticket/app/services/momo_service.py:91 | `payUrl or deeplink`: a truthy payUrl wins; otherwise a truthy deeplink; none when neither is truthy |
| MomoService.ReplyUrl | easyticket/app/services/momo_service.py:84-91 | the URL a gateway call yields: none when it raised, otherwise `payUrl or deeplink` of the reply |
| MomoService.CreateMomoPaymentAsWritten | easyticket/app/services/momo_service.py:34-96 | as written: denied exactly on a missing order or differing amount, writing nothing; otherwise the new PENDING payment stays as created, and the call crashes exactly when the gateway's reply to the built request yields no URL, else redirects to that URL; it never returns the error result |
| MomoService.CreateMomoPayment | easyticket/app/services/momo_service.py:34-96 | corrected: a denial writes nothing; otherwise, for the gateway's reply to the built request, it redirects exactly when the reply yields a URL, to that URL with the payment left PENDING, and else marks the new payment FAILED with "MoMo create exception: <class>" or "MoMo create failed", always carrying the new payment's id |
| MomoService.FailedCreateLeavesPaymentPending | easyticket/app/services/momo_service.py:84-94 | when the gateway's reply to the built request raises or has neither payUrl nor deeplink, the code as written leaves the payment PENDING and the corrected one marks it FAILED |
| MomoService.VersionsAgreeOnPayUrl | easyticket/app/services/momo_service.py:84-96 | when the gateway yields a URL, the code as written and the corrected version give the same result and ledger |
| MomoService.IpnFields | easyticket/app/services/momo_service.py:100-104 | the 13 IPN fields in their listed order, each value the stripped text of the field or "" when it is missing |
| MomoService.IpnRaw | easyticket/app/services/momo_service.py:105-107 | the signed string is the canonical IPN string with its leading accessKey value replaced by the merchant's own key |
| MomoService.SignatureText | easyticket/app/services/momo_service.py:110 | the received signature is the stripped text, "" when missing or falsy, and a crash for a truthy non-string |
| MomoService.ParseCorrelation | easyticket/app/services/momo_service.py:114-118 | a missing or falsy orderId reads as `"0-0"`, that is (0, 0); a truthy non-string fails; a string yields two integers exactly when it splits on its first `-` into two parts `int` reads, and then those integers |
| MomoService.ParseIdPair | easyticket/app/services/momo_service.py:115-116 | `split("-", 1)` and `int` of both halves succeed exactly on texts `a-b` with no `-` in `a` whose halves both parse, giving their values |
| MomoService.DefaultCorrelation | easyticket/app/services/momo_service.py:115 | the stand-in `"0-0"` reads as order 0 and payment 0 |
| MomoService.CorrelationRoundTrip | easyticket/app/services/momo_service.py:50 | the correlation id built at creation parses back to its order and payment ids |
| MomoService.IpnGates | easyticket/app/services/momo_service.py:109-137 | the gate chain answers only 0, 95, 96, 97 or 98, each exactly at its gate: 97 on a signature mismatch, 98 when the orderId cannot be read, a raise when the signature is not text or `int(amount)` fails, 96 when the ids name no payment of that order, 95 on an amount mismatch, 0 exactly when every gate passes; only 0 writes, and then with the settled status |
| MomoService.ProcessIpn | easyticket/app/services/momo_service.py:99-137 | the IPN answers only 0, 95, 96, 97 or 98, each exactly when its gate stops the callback (97 signature, 98 orderId, raise on a non-text signature or bad amount, 96 lookup, 95 amount, 0 all passed); on 0 the payment is set SUCCESS or FAILED from resultCode; every other answer leaves the ledger unchanged |
| MomoService.IpnIdempotent | easyticket/app/services/momo_service.py:99-137 | a redelivered IPN gets the same answer and leaves the ledger as the first delivery did |
| MomoService.IpnRawIgnoresAccessKey | easyticket/app/services/momo_service.py:105-107 | the signed string does not depend on the accessKey the IPN echoes |
| MomoService.EchoedAccessKeyIgnored | easyticket/app/services/momo_service.py:99-137 | two IPNs that differ only in their accessKey are processed identically |
| MomoService.GenuineIpnSettlesPayment | easyticket/app/services/momo_service.py:99-137 | a correctly signed IPN for an existing payment with the right amount answers 0 and settles the payment from resultCode |
| MomoService.AsScalars | easyticket/app/services/momo_service.py:140-147 | query-string values read as JSON strings, with every lookup preserved |
| MomoService.VerifyReturn | easyticket/app/services/momo_service.py:140-176 | `ok` exactly when the signature matches; orderId and paymentId come together from splitting on the first `-`; resultCode, message, amount and transId are passed through |
| MomoService.ReturnAgreesWithIpn | easyticket/app/services/momo_service.py:140-159 | the browser return accepts a signature exactly when the IPN check would |
| VnpayService.ClientIp | easyticket/app/services/vnpay_service.py:73 | the forwarded address, else a non-empty remote address, else 127.0.0.1 |
| VnpayService.CreateKeysOrdered | easyticket/app/services/vnpay_service.py:76-89 | the twelve request keys are in strictly increasing key order |
| VnpayService.CreateParams | easyticket/app/services/vnpay_service.py:72-89 | the request has exactly the twelve keys in sorted order, with vnp_Amount = amount × 100, the command, CreateDate, CurrCode "VND", the client IP, Locale "vn", the correlation OrderInfo, OrderType "other", the return URL, TmnCode, TxnRef and version, and no hash key |
| VnpayService.RecordTxnRef | easyticket/app/services/vnpay_service.py:67-70 | only the new payment's transaction id is overwritten, by the TxnRef |
| VnpayService.CreateVnpayPayment | easyticket/app/services/vnpay_service.py:38-96 | a missing order or a differing amount is refused with no write; otherwise one PENDING payment holding the TxnRef is added and the URL is the canonical string followed by its HMAC |
| VnpayService.SplitPair | easyticket/app/services/vnpay_service.py:110 | two parts exactly when the text holds one `-`; they join back to the text |
| VnpayService.ParseOrderInfo | easyticket/app/services/vnpay_service.py:109-114 | two integers exactly when the text splits in two and both parts parse |
| VnpayService.OrderInfoRoundTrip | easyticket/app/services/vnpay_service.py:74 | the OrderInfo written at creation parses back to its ids |
| VnpayService.ReturnedAmount | easyticket/app/services/vnpay_service.py:119 | `int(vnp_Amount) // 100`: the floor of the reported amount over 100 |
| VnpayService.ErrorOf | easyticket/app/blueprints/vnpay.py:47 | a mismatch always carries an error; a settled result carries the callback's own `error` parameter, if any |
| VnpayService.ProcessReturnUrl | easyticket/app/services/vnpay_service.py:99-135 | each outcome exactly at its gate: a bad signature or unparseable OrderInfo gives no result, `int(vnp_Amount)` failing raises, "Payment/Order mismatch" when the ids name no payment of that order, "Amount mismatched" on an amount difference, settled exactly when every gate passes; only a settled callback writes, setting SUCCESS exactly when both codes are "00" and recording vnp_TransactionNo |
| VnpayService.WithHash | easyticket/app/services/vnpay_service.py:93 | adding the hash parameter changes no other lookup |
| VnpayService.SignedParamsPass | easyticket/app/services/vnpay_service.py:91-107 | parameters signed the way the request is signed pass the callback's signature gate |
| VnpayService.ReturnIdempotent | easyticket/app/services/vnpay_service.py:99-135 | processing the same callback twice gives the same result and ledger as once |
| VnpayService.PassingCallbackSettles | easyticket/app/services/vnpay_service.py:99-135 | a callback that passes every gate settles its payment from the two codes |
| VnpayService.CreatedPaymentSettles | easyticket/app/services/vnpay_service.py:64-135 | a genuine callback for a created payment, reporting its amount × 100 and both codes "00", marks it SUCCESS |
| VnpayService.VerifyReturn | easyticket/app/services/vnpay_service.py:138-188 | `ok` exactly when the hash over the `vnp_` parameters matches; the ids are parsed even when `ok` is false; the amount is the floored value |
| VnpayService.FiltersAgree | easyticket/app/services/vnpay_service.py:156-159 | two filters that agree on every pair keep the same pairs |
| VnpayService.VerifyAgreesWithProcess | easyticket/app/services/vnpay_service.py:100-166 | when every key starts with `vnp_`, the read-only check accepts exactly what the writing one does |
| VnpayRoutes.Acknowledge | easyticket/app/blueprints/vnpay.py:41-49 | no result → 97 "Invalid signature"; a crash → server error; a mismatch or settlement with an error → 99 with its text, and without one → 00 "Confirm Success", in both directions |
| VnpayRoutes.VnpIpn | easyticket/app/blueprints/vnpay.py:41-49 | 97 exactly on a bad signature or OrderInfo; a reconciliation result carrying an error is answered 99 with it, one without is answered 00 "Confirm Success", and 00 only when the payment was settled with no `error` parameter; only a settled callback changes the ledger |
| VnpayRoutes.ErrorParamMasksSettlement | easyticket/app/blueprints/vnpay.py:47-48 | a settled callback carrying a parameter named `error` is answered 99 with that text |
| VnpayRoutes.IpnRedeliveryIsHarmless | easyticket/app/blueprints/vnpay.py:41-49 | a redelivered IPN gets the same answer and leaves the ledger as the first did |
| VnpayRoutes.ReturnPage.Http | easyticket/app/blueprints/vnpay.py:22-36 | only the bad-signature (400) and not-found (404) pages are errors; every status page is 200 |
| VnpayRoutes.ReturnIds | easyticket/app/blueprints/vnpay.py:15-18 | the ids from OrderInfo, or (0, 0) when they do not parse |
| VnpayRoutes.VnpReturn | easyticket/app/blueprints/vnpay.py:11-38 | the return page writes the ledger like the IPN, then shows the page for the payment's status afterwards: SUCCESS, PENDING, or failed otherwise; a missing payment is 404 |
| VnpayRoutes.PageFor | easyticket/app/blueprints/vnpay.py:20-36 | the page is chosen from the outcome and from the payment's stored status |
| VnpayRoutes.ReturnIdsAgree | easyticket/app/blueprints/vnpay.py:15-18 | the ids the page looks up are the ones the reconciliation settled |
| VnpayRoutes.EmptyOrderInfoReadsZero | easyticket/app/blueprints/vnpay.py:15-18 | an empty OrderInfo falls back to the ids (0, 0) |
| VnpayRoutes.GenuinePaidReturnShowsSuccess | easyticket/app/blueprints/vnpay.py:11-38 | a genuine return for a payment VNPay reports as paid shows the success page |
| OrderRoutes.ParseItem | easyticket/app/blueprints/order.py:38-47 | a form entry is a line only for an `items[` key with an integer id and a positive integer quantity; anything else is skipped |
| OrderRoutes.LineOf | easyticket/app/blueprints/order.py:40-47 | one form entry gives at most one line, none exactly when it does not parse, and otherwise the parsed line |
| OrderRoutes.Collect | easyticket/app/blueprints/order.py:39-47 | the loop over the form yields at most one result per entry |
| OrderRoutes.CollectEmpty | easyticket/app/blueprints/order.py:39-47 | the loop yields nothing exactly when no entry reads as anything |
| OrderRoutes.CollectAppend | easyticket/app/blueprints/order.py:39-47 | the loop over two runs of entries yields the results of the first run followed by those of the second |
| OrderRoutes.ParseItems | easyticket/app/blueprints/order.py:38-47 | every line parsed has a positive quantity and there are no more lines than entries |
| OrderRoutes.NoLinesExactly | easyticket/app/blueprints/order.py:38-47 | there are no lines exactly when no entry, looked at on its own, parses |
| OrderRoutes.ParseItemsAppend | easyticket/app/blueprints/order.py:39-47 | the lines of two runs of fields are the lines of the first run followed by the lines of the second: form order is kept |
| OrderRoutes.ParseItemsSingle | easyticket/app/blueprints/order.py:40-47 | one field yields exactly its own line, if it has one |
| OrderRoutes.ParseItemsRoundTrip | easyticket/app/blueprints/order.py:38-47 | the fields a page posts for positive lines parse back to exactly those lines, in order |
| OrderRoutes.ClosingCharacterIgnored | easyticket/app/blueprints/order.py:41 | `k[6:-1]` ignores the closing character: any last character reads like `]` |
| OrderRoutes.EventIdOf | easyticket/app/blueprints/order.py:35 | `form.get("event_id", type=int)`: none when the field is missing or is not an integer |
| OrderRoutes.CustomerIdOf | easyticket/app/blueprints/order.py:34 | the posted integer, or the placeholder customer 2 |
| OrderRoutes.Remaining | easyticket/app/blueprints/order.py:75 | `max(0, capacity - sold)` |
| OrderRoutes.Lacks | easyticket/app/blueprints/order.py:71-80 | the shortage notices are empty exactly when every line fits; every notice is the name and remaining seats of a line asking for more than remain, and every such line has its notice |
| OrderRoutes.LacksAppend | easyticket/app/blueprints/order.py:73-77 | the notices of two runs of lines are the first run's followed by the second's: form order is kept |
| OrderRoutes.LacksSingle | easyticket/app/blueprints/order.py:74-77 | one line gives its notice exactly when its quantity exceeds the seats left |
| OrderRoutes.Lines | easyticket/app/blueprints/order.py:92-100 | one order line per requested line, with the type's price at this moment |
| OrderRoutes.CreateOrder | easyticket/app/blueprints/order.py:31-106 | no lines, a foreign or unknown type, or a shortage each leave the tables unchanged, a shortage reporting exactly the notices of the form's lines; otherwise the order is placed under the next id with its lines and the total they are worth |
| OrderRoutes.PlaceOrder | easyticket/app/blueprints/order.py:83-104 | the order gets the next id, no fee and no discount, and its lines are appended |
| OrderRoutes.SoldCountsAgree | easyticket/app/blueprints/order.py:71-75 | the sold count `create` uses is the number of ACTIVE or USED tickets of the type |
| OrderRoutes.DetailsOf | easyticket/app/blueprints/order.py:181-186 | the lines of one order, in table order |
| OrderRoutes.PlacedTotalMatchesLines | easyticket/app/blueprints/order.py:83-103 | a placed order's lines are exactly its form's lines, and its total is what they are worth at the snapshot prices |
| OrderRoutes.RepeatedTypeSlipsPastCheck | easyticket/app/blueprints/order.py:38-80 | a form naming one type twice, each line within the remaining seats but not both, is placed with both lines |
| OrderRoutes.MethodForGateway | easyticket/app/blueprints/order.py:122-129 | DIGITAL_WALLET exactly for "MOMO" in any case; never CREDIT_CARD |
| OrderRoutes.MethodIgnoresCase | easyticket/app/blueprints/order.py:123 | upper- or lower-casing the gateway name does not change the method |
| OrderRoutes.RecheckLines | easyticket/app/blueprints/order.py:190-199 | a pass means every type exists; a refusal names one of the lines' types; a crash comes from a missing type |
| OrderRoutes.Mint | easyticket/app/blueprints/order.py:201-211 | as many tickets as the lines' quantities |
| OrderRoutes.MintFresh | easyticket/app/blueprints/order.py:201-211 | each minted ticket takes the next id and its code, is ACTIVE, of the order, with its type's event and no QR code |
| OrderRoutes.IssueTickets | easyticket/app/blueprints/order.py:179-211 | an order without lines changes nothing; tickets are added exactly when the cumulative re-check passes, and then one fresh ticket per seat is appended with the next ids |
| OrderRoutes.MintInto | easyticket/app/blueprints/order.py:201-211 | the table grows by the minted tickets and its ids stay unique |
| OrderRoutes.IssueFailureComesFromALine | easyticket/app/blueprints/order.py:193-198 | a sold-out refusal names a type of one of the order's lines; a crash comes from a line whose type is gone |
| OrderRoutes.IssuingStaysWithinCapacity | easyticket/app/blueprints/order.py:190-211 | issuing adds exactly the seats the lines ask for and never pushes a type beyond its capacity |
| OrderRoutes.DistinctLinesPass | easyticket/app/blueprints/order.py:190-199 | lines of different types, each within its remaining seats, pass the re-check |
| OrderRoutes.PlacedOrderIssues | easyticket/app/blueprints/order.py:31-211 | an order placed from a form that names each type once is issued in full straight away |
| OrderRoutes.IssueDistinctLines | easyticket/app/blueprints/order.py:179-211 | an order whose lines are of different types and each fit is issued |
| QrCodec.Segment | easyticket/app/utils/qr_utils.py:18-19 | a header or payload segment is URL-safe base 64 with no dot |
| QrCodec.Mac | easyticket/app/utils/qr_utils.py:20 | the MAC segment is URL-safe base 64 with no dot |
| QrCodec.SignPayload | easyticket/app/utils/qr_utils.py:12-21 | a token splits into exactly three segments: the fixed header, the payload, and the MAC of the first two |
| QrCodec.VerifyToken | easyticket/app/utils/qr_utils.py:23-36 | not three segments is malformed; "Invalid signature" exactly when the ASCII signature differs from the MAC; valid exactly when the token is correctly signed and its payload decodes, and then to that payload |
| QrCodec.CheckSegments | easyticket/app/utils/qr_utils.py:29-34 | the signature is compared before the payload is decoded; an ASCII signature equal to the MAC over a decodable payload is valid with that payload |
| QrCodec.SignThenVerify | easyticket/app/utils/qr_utils.py:12-34 | a token signed under the same keys verifies to its payload |
| QrCodec.BadMacRejectedBeforeDecoding | easyticket/app/utils/qr_utils.py:30-33 | a wrong MAC is refused as "Invalid signature" whatever the payload segment holds |
| QrCodec.TokensDistinguishPayloads | easyticket/app/utils/qr_utils.py:12-21 | different payloads never get the same token |
| QrRoutes.Reply.Http | easyticket/app/blueprints/qr.py:11-52 | 200 only for an issue or a check-in, 404 only for a missing ticket, 500 only for an uncaught exception |
| QrRoutes.Reply.Error | easyticket/app/blueprints/qr.py:17-49 | every 400 or 404 reply carries an error text |
| QrRoutes.PayloadNamesTicket | easyticket/app/blueprints/qr.py:23 | two tickets get the same payload exactly when they agree on id, order and event |
| QrRoutes.IssueQr | easyticket/app/blueprints/qr.py:11-26 | an unknown id is 404; an existing token is returned and nothing is written; otherwise the ticket's payload is signed, stored with the issue time and returned |
| QrRoutes.IssueQrKeepsInvariants | easyticket/app/blueprints/qr.py:23-26 | issuing keeps ids unique and every stored token the signature of its own ticket |
| QrRoutes.IssueQrIdempotent | easyticket/app/blueprints/qr.py:20-21 | asking again returns the same token and writes nothing |
| QrRoutes.IssuedTokenVerifies | easyticket/app/blueprints/qr.py:11-26 | a token the route hands out verifies to the ticket's own payload |
| QrRoutes.JsonInt | easyticket/app/blueprints/qr.py:46 | `int(v)` on a JSON value: an integer is itself, a string is parsed, null, lists and objects raise |
| QrRoutes.ReadBody | easyticket/app/blueprints/qr.py:33-37 | both fields exactly when the body is an object whose `qr` and `event_id` are present and truthy; a truthy non-object raises |
| QrRoutes.ScanBodyReads | easyticket/app/blueprints/qr.py:33-37 | a scanner body with a non-empty token and a non-zero event yields both fields |
| QrRoutes.Admit | easyticket/app/blueprints/qr.py:39-52 | a codec failure is refused with the codec's message; an unknown token is 404; the wrong event, or a status other than ACTIVE, is refused without a write; only an ACTIVE ticket of the scanned event becomes USED |
| QrRoutes.ValidateAndCheckIn | easyticket/app/blueprints/qr.py:28-52 | a missing field is 400 before any verification, and only a successful check-in writes |
| QrRoutes.CheckInKeepsInvariants | easyticket/app/blueprints/qr.py:51-52 | a check-in keeps ids unique and stored tokens genuine |
| QrRoutes.SecondScanRefused | easyticket/app/blueprints/qr.py:48-49 | scanning the same code again answers "Invalid state: USED" and does not stamp the ticket again |
| QrRoutes.GenuineTokenFindsItsTicket | easyticket/app/blueprints/qr.py:43-45 | when stored tokens are genuine, looking one up finds the ticket that holds it |
| QrRoutes.ScanFindsGenuineTicket | easyticket/app/blueprints/qr.py:39-52 | scanning an ACTIVE ticket's token with its event checks that ticket in |
| QrRoutes.IssueThenCheckIn | easyticket/app/blueprints/qr.py:11-52 | a token issued for an ACTIVE ticket and scanned with its event checks that ticket in |

## Left out

- HMAC-SHA256 and HMAC-SHA512 are function-valued fields of the configuration. They are not computed, because they are library primitives. `hmac.compare_digest` is equality, with its `TypeError` on non-ASCII text kept.
- JSON serialisation is an abstract pair of functions, related by a lawfulness predicate. No concrete serialiser is modelled, and JSON floats are not represented.
- Clock readings (`request_id`, `issued_at`, `use_at`), uuid-based order and ticket codes, and vnp_TxnRef / vnp_CreateDate are parameters, because they come from the clock and from randomness.
- `requests.post` to MoMo is a gateway function parameter. Its result is a reply, a raised exception, or a reply without a URL.
- Flask routing, templates, `flash`/`redirect`/`abort`, and login and ownership checks are left out as framework code. The routes' results are outcome datatypes.
- SQLAlchemy sessions, flush, commit, rollback and joins are left out. The tables are maps and sequences with an auto-increment counter.
- Concurrency is not modelled: there is no locking, and races between an IPN and a browser return are out of reach.
- `Decimal` amounts are whole VND integers, so `int(Decimal(x))` is the identity.
- The `print` calls in `createVnpayPayment` and `createMomoPayment` are left out, because they only produce output.
- PyText.ParseInt: underscores between digits (`"1_000"`) and non-ASCII decimal digits, which Python's `int()` also accepts, are rejected here, because the model reads digits as ASCII only; a field spelled that way is unreadable here where Python would read it.
- PyText.Upper / PyText.Lower: only ASCII letters change case. Python's full Unicode case mapping is not modelled.
- Base64.DecodeUrl: the non-validating decoder drops characters outside the alphabet and ignores text after the padding. That is not modelled: decoding here is strict, so such a token fails as malformed instead of possibly decoding.
- MomoService.ReplyPayUrl: a truthy gateway reply that is not a JSON object, on which Python raises `AttributeError` at momo_service.py:91, cannot be expressed by `MomoReply`.
- QrCodec.Verdict.Message: the text after "Malformed QR: " is the exception's own message, which is not modelled.
- TicketDao.TicketsOfUser: the `q` text search (`ilike` on code, type name and event name), the `created_at` ordering and the pagination are left out, because they are query presentation rather than ownership.
- `blueprints/momo.py` is left out. It only forwards to `processIPN` and `verifyReturn`, and it passes a `request` keyword that `createMomoPayment` does not accept.
- The `pay`, `checkout`, `success`, `my_tickets`, `momo_return` and `vnpay_return` routes of `blueprints/order.py` are left out. They only render templates or forward to the service functions modelled here.
- The other DAOs, forms, the admin views, the image and upload helpers, and the application bootstrap are left out, as query wrappers and UI.

## Findings

| source | as written | input that shows it | evidently intended | confidence | as-written member | corrected member |
|---|---|---|---|---|---|---|
| easyticket/app/services/momo_service.py:84-94 | `update_payment_status(pay.id, PaymentStatus.FAILED, transaction_no=None)` passes a keyword that `update_payment_status` does not have (its parameter is `transaction_id`), so the call raises `TypeError`, the payment stays PENDING and `createMomoPayment` raises instead of returning its error result | any MoMo create whose gateway call raises, or whose reply has neither `payUrl` nor `deeplink` | mark the new payment FAILED and return `{"error": …, "paymentId": …}` | not executed | MomoService.CreateMomoPaymentAsWritten, MomoService.FailedCreateLeavesPaymentPending | MomoService.CreateMomoPayment, MomoService.VersionsAgreeOnPayUrl |
