/**
 * The VNPay gateway service: the signed redirect URL for a new payment, the
 * callback handler shared by the return and IPN routes, and the read-only
 * check of the browser return. Signing is `hmac_sha512(key, data)`, taken as
 * a parameter.
 */
module VnpayService {
  import opened Wrappers
  import opened PyText
  import opened Dict
  import opened Models
  import opened PaymentDao

  /** The merchant settings read from the environment (an unset one is `""`), and the keyed hash. */
  datatype Config = Config(
    tmnCode: string,
    hashSecret: string,
    returnUrl: string,
    url: string,
    version: string,
    command: string,
    hmacHex: (string, string) -> string)

  /** `VNP_VERSION or "2.1.0"`. */
  function Version(cfg: Config): string {
    if cfg.version == "" then "2.1.0" else cfg.version
  }

  /** `VNP_COMMAND or "pay"`. */
  function Command(cfg: Config): string {
    if cfg.command == "" then "pay" else cfg.command
  }

  /** The signature over a parameter dict: HMAC of its sorted, form-encoded canonical string. */
  function Sign(cfg: Config, d: Dict): string {
    cfg.hmacHex(cfg.hashSecret, EncodePairsSorted(d))
  }

  // ---------------------------------------------------------------------
  // createVnpayPayment

  /** `request.headers.get("X-Forwarded-For", request.remote_addr or "127.0.0.1")`. */
  function ClientIp(forwardedFor: Option<string>, remoteAddr: Option<string>): (r: string)
    ensures forwardedFor.Some? ==> r == forwardedFor.value
    ensures forwardedFor.None? && remoteAddr.Some? && remoteAddr.value != "" ==> r == remoteAddr.value
    ensures forwardedFor.None? && (remoteAddr.None? || remoteAddr.value == "") ==> r == "127.0.0.1"
  {
    if forwardedFor.Some? then forwardedFor.value
    else if remoteAddr.Some? && remoteAddr.value != "" then remoteAddr.value
    else "127.0.0.1"
  }

  /** The amount VNPay expects: VND times 100, as a decimal string. */
  function VnpAmount(amount: int): string {
    IntToString(amount * 100)
  }

  /**
   * The twelve request keys in increasing order. The service lists them in
   * another order, but the dict is only ever read through the sorted
   * encoding, which does not depend on it (`Dict.EncodingIgnoresOrder`).
   */
  const CreateKeys: seq<string> :=
    ["vnp_Amount", "vnp_Command", "vnp_CreateDate", "vnp_CurrCode", "vnp_IpAddr", "vnp_Locale",
     "vnp_OrderInfo", "vnp_OrderType", "vnp_ReturnUrl", "vnp_TmnCode", "vnp_TxnRef", "vnp_Version"]

  /**
   * The keys are listed in increasing order. Each neighbouring pair is its
   * own lemma: comparing many literal keys in one proof is expensive.
   */
  lemma CreateKeysOrdered()
    ensures ChainOrdered(CreateKeys)
  {
    CreateKeysOrderedAt0();
    CreateKeysOrderedAt1();
    CreateKeysOrderedAt2();
    CreateKeysOrderedAt3();
    CreateKeysOrderedAt4();
    CreateKeysOrderedAt5();
    CreateKeysOrderedAt6();
    CreateKeysOrderedAt7();
    CreateKeysOrderedAt8();
    CreateKeysOrderedAt9();
    CreateKeysOrderedAt10();
  }

  lemma CreateKeysOrderedAt0() ensures LexLess(CreateKeys[0], CreateKeys[1]) { LexLessAt("vnp_Amount", "vnp_Command", 4); }
  lemma CreateKeysOrderedAt1() ensures LexLess(CreateKeys[1], CreateKeys[2]) { LexLessAt("vnp_Command", "vnp_CreateDate", 5); }
  lemma CreateKeysOrderedAt2() ensures LexLess(CreateKeys[2], CreateKeys[3]) { LexLessAt("vnp_CreateDate", "vnp_CurrCode", 5); }
  lemma CreateKeysOrderedAt3() ensures LexLess(CreateKeys[3], CreateKeys[4]) { LexLessAt("vnp_CurrCode", "vnp_IpAddr", 4); }
  lemma CreateKeysOrderedAt4() ensures LexLess(CreateKeys[4], CreateKeys[5]) { LexLessAt("vnp_IpAddr", "vnp_Locale", 4); }
  lemma CreateKeysOrderedAt5() ensures LexLess(CreateKeys[5], CreateKeys[6]) { LexLessAt("vnp_Locale", "vnp_OrderInfo", 4); }
  lemma CreateKeysOrderedAt6() ensures LexLess(CreateKeys[6], CreateKeys[7]) { LexLessAt("vnp_OrderInfo", "vnp_OrderType", 9); }
  lemma CreateKeysOrderedAt7() ensures LexLess(CreateKeys[7], CreateKeys[8]) { LexLessAt("vnp_OrderType", "vnp_ReturnUrl", 4); }
  lemma CreateKeysOrderedAt8() ensures LexLess(CreateKeys[8], CreateKeys[9]) { LexLessAt("vnp_ReturnUrl", "vnp_TmnCode", 4); }
  lemma CreateKeysOrderedAt9() ensures LexLess(CreateKeys[9], CreateKeys[10]) { LexLessAt("vnp_TmnCode", "vnp_TxnRef", 5); }
  lemma CreateKeysOrderedAt10() ensures LexLess(CreateKeys[10], CreateKeys[11]) { LexLessAt("vnp_TxnRef", "vnp_Version", 4); }

  /** A `vnp_` key that is not one of the hash entries. */
  predicate PlainVnpKey(k: string) {
    |k| > 4 && k[..4] == "vnp_" && k[4] != 'S'
  }

  lemma PlainKeysAreSigned(k: string)
    requires PlainVnpKey(k)
    ensures k != "vnp_SecureHash" && k != "vnp_SecureHashType" && "vnp_" <= k
  {
    assert k[..4] == "vnp_";
  }

  lemma CreateDictLookups(r: seq<Pair>, vs: seq<string>)
    requires |vs| == |CreateKeys| && SortedByKey(r) && Keys(r) == CreateKeys
    requires forall i :: 0 <= i < |CreateKeys| ==> r[i] == (CreateKeys[i], vs[i])
    ensures DistinctKeys(r)
    ensures Get(r, "vnp_Amount") == Some(vs[0]) && Get(r, "vnp_Command") == Some(vs[1])
    ensures Get(r, "vnp_OrderInfo") == Some(vs[6])
    ensures Get(r, "vnp_TxnRef") == Some(vs[10]) && Get(r, "vnp_Version") == Some(vs[11])
  {
    SortedDistinct(r);
    assert r[0] == ("vnp_Amount", vs[0]) && r[1] == ("vnp_Command", vs[1]);
    assert r[6] == ("vnp_OrderInfo", vs[6]);
    assert r[10] == ("vnp_TxnRef", vs[10]) && r[11] == ("vnp_Version", vs[11]);
  }

  lemma CreateKeysPlain()
    ensures forall i :: 0 <= i < |CreateKeys| ==> PlainVnpKey(CreateKeys[i])
  {
  }

  lemma PlainDictSigned(r: seq<Pair>, ks: seq<string>)
    requires Keys(r) == ks && forall i :: 0 <= i < |ks| ==> PlainVnpKey(ks[i])
    ensures "vnp_SecureHash" !in Keys(r) && "vnp_SecureHashType" !in Keys(r)
  {
    forall i | 0 <= i < |r| ensures r[i].0 != "vnp_SecureHash" && r[i].0 != "vnp_SecureHashType" {
      assert r[i].0 == ks[i];
      PlainKeysAreSigned(r[i].0);
    }
  }

  /** The twelve request parameters, one per key of `CreateKeys`, in that (sorted) order. */
  function CreateParams(
    cfg: Config, amount: int, txnRef: string, orderInfo: string, clientIp: string, createDate: string): (r: Dict)
    ensures Get(r, "vnp_OrderInfo") == Some(orderInfo)
    ensures Get(r, "vnp_Amount") == Some(VnpAmount(amount))
    ensures Get(r, "vnp_TxnRef") == Some(txnRef)
    ensures Get(r, "vnp_Version") == Some(Version(cfg)) && Get(r, "vnp_Command") == Some(Command(cfg))
    ensures Keys(r) == CreateKeys
    ensures Values(r) ==
      [VnpAmount(amount), Command(cfg), createDate, "VND", clientIp, "vn",
       orderInfo, "other", cfg.returnUrl, cfg.tmnCode, txnRef, Version(cfg)]
    ensures "vnp_SecureHash" !in Keys(r) && "vnp_SecureHashType" !in Keys(r)
  {
    var vs := [VnpAmount(amount), Command(cfg), createDate, "VND", clientIp, "vn",
      orderInfo, "other", cfg.returnUrl, cfg.tmnCode, txnRef, Version(cfg)];
    CreateKeysOrdered();
    var r := ZipSorted(CreateKeys, vs);
    CreateDictLookups(r, vs);
    CreateKeysPlain();
    PlainDictSigned(r, CreateKeys);
    r
  }

  /** `f"{VNP_URL}?{raw}&vnp_SecureHash={secure_hash}"`. */
  function PayUrl(cfg: Config, d: Dict): string {
    cfg.url + "?" + EncodePairsSorted(d) + "&vnp_SecureHash=" + Sign(cfg, d)
  }

  /** `pay.transaction_id = vnp_TxnRef`: the new payment's reference is overwritten directly. */
  function RecordTxnRef(l: Ledger, id: int, txnRef: string): (r: Ledger)
    requires l.Valid() && id in l.rows
    ensures r.Valid() && r.rows.Keys == l.rows.Keys
    ensures r.rows[id] == l.rows[id].(transactionId := txnRef)
    ensures forall j :: j in l.rows && j != id ==> r.rows[j] == l.rows[j]
  {
    l.(rows := l.rows[id := l.rows[id].(transactionId := txnRef)])
  }

  datatype CreateResult = Denied(why: Denial) | Created(payUrl: string, paymentId: int)

  /**
   * `createVnpayPayment`: look the order up, compare a client amount, store a
   * new PENDING payment (with the default method) whose reference is the
   * transaction ref, and sign the redirect. The clock readings (`txnRef`,
   * `createDate`) and the client address are parameters.
   */
  function CreateVnpayPayment(
    cfg: Config, orders: map<int, Order>, l: Ledger, orderId: int, amountOverride: Option<int>,
    txnRef: string, clientIp: string, createDate: string): (r: (CreateResult, Ledger))
    requires l.Valid()
    ensures r.1.Valid()
    ensures r.0.Denied? <==> orderId !in orders || (amountOverride.Some? && amountOverride.value != orders[orderId].totalAmount)
    ensures r.0.Denied? ==> r.1 == l && (r.0.why == OrderNotFound <==> orderId !in orders)
    ensures r.0.Created? ==>
      var pid := r.0.paymentId;
      var amount := orders[orderId].totalAmount;
      && pid !in l.rows && r.1.rows.Keys == l.rows.Keys + {pid}
      && r.1.rows[pid] == Payment(orderId, amount, DigitalWallet, Pending, txnRef)
      && (forall id :: id in l.rows ==> r.1.rows[id] == l.rows[id])
      && r.0.payUrl == PayUrl(cfg, CreateParams(cfg, amount, txnRef, CorrelationId(orderId, pid), clientIp, createDate))
  {
    if orderId !in orders then (Denied(OrderNotFound), l)
    else
      var amount := orders[orderId].totalAmount;
      if amountOverride.Some? && amountOverride.value != amount then (Denied(AmountMismatch), l)
      else
        var (l1, pid) := CreatePayment(l, orderId, amount, DigitalWallet);
        (Created(PayUrl(cfg, CreateParams(cfg, amount, txnRef, CorrelationId(orderId, pid), clientIp, createDate)), pid),
         RecordTxnRef(l1, pid, txnRef))
  }

  // ---------------------------------------------------------------------
  // processReturnUrl

  /** The keys the signature does not cover. */
  predicate Signed(p: Pair) {
    p.0 != "vnp_SecureHash" && p.0 != "vnp_SecureHashType"
  }

  /** `(params.get("vnp_SecureHash") or "").lower()`. */
  function ReceivedHash(params: Dict): string {
    Lower(GetOrIfEmpty(params, "vnp_SecureHash", ""))
  }

  /** The signature gate: the hash over the covered parameters equals the one received, ignoring case. */
  predicate SignatureMatches(cfg: Config, params: Dict) {
    Lower(Sign(cfg, Filter(params, Signed))) == ReceivedHash(params)
  }

  /** `a, b = text.split("-")`: the unpacking succeeds only when there is exactly one separator. */
  function SplitPair(text: string): (r: Option<(string, string)>)
    ensures r.Some? <==> |Split(text, '-')| == 2
    ensures r.Some? ==> r.value.0 + "-" + r.value.1 == text && '-' !in r.value.0 && '-' !in r.value.1
  {
    var parts := Split(text, '-');
    if |parts| == 2 then
      JoinPair(parts, '-');
      Some((parts[0], parts[1]))
    else None
  }

  lemma JoinPair(parts: seq<string>, sep: char)
    requires |parts| == 2
    ensures Join([sep], parts) == parts[0] + [sep] + parts[1]
  {
    JoinCons([sep], parts[0], parts[1..]);
    assert [parts[0]] + parts[1..] == parts;
  }

  /** `a, b = (params.get("vnp_OrderInfo") or "0-0").split("-")` and `int` of both. */
  function ParseOrderInfo(text: string): (r: Option<(int, int)>)
    ensures r.Some? ==> SplitPair(text).Some?
    ensures r.Some? ==> ParseInt(SplitPair(text).value.0) == Some(r.value.0) && ParseInt(SplitPair(text).value.1) == Some(r.value.1)
    ensures SplitPair(text).Some? && ParseInt(SplitPair(text).value.0).Some? && ParseInt(SplitPair(text).value.1).Some? ==> r.Some?
  {
    match SplitPair(text)
    case None => None
    case Some((a, b)) =>
      match (ParseInt(a), ParseInt(b))
      case (Some(o), Some(p)) => Some((o, p))
      case _ => None
  }

  /** A correlation id of non-negative ids reads back as those ids. */
  lemma OrderInfoRoundTrip(orderId: nat, paymentId: nat)
    ensures ParseOrderInfo(CorrelationId(orderId, paymentId)) == Some((orderId, paymentId))
  {
    var a := IntToString(orderId);
    var b := IntToString(paymentId);
    DigitsAreSafe(a);
    DigitsAreSafe(b);
    JoinPair([a, b], '-');
    assert CorrelationId(orderId, paymentId) == Join(['-'], [a, b]);
    SplitJoin([a, b], '-');
    ParseIntRoundTrip(orderId);
    ParseIntRoundTrip(paymentId);
  }

  /** `int(params.get("vnp_Amount", "0")) // 100`; `None` stands for the exception. */
  function ReturnedAmount(params: Dict): (r: Option<int>)
    ensures r.Some? <==> ParseInt(GetOr(params, "vnp_Amount", "0")).Some?
    ensures r.Some? ==> var n := ParseInt(GetOr(params, "vnp_Amount", "0")).value; r.value * 100 <= n < r.value * 100 + 100
  {
    match ParseInt(GetOr(params, "vnp_Amount", "0"))
    case Some(n) => Some(n / 100)
    case None => None
  }

  /** What VNPay reported: SUCCESS exactly when both the transaction status and the response code are "00". */
  function ReportedStatus(params: Dict): PaymentStatus {
    if Get(params, "vnp_TransactionStatus") == Some("00") && Get(params, "vnp_ResponseCode") == Some("00")
    then Success else Failed
  }

  /**
   * What `processReturnUrl` returns: `None` for a bad signature and for an
   * unreadable `vnp_OrderInfo`, a raise from `int(vnp_Amount)`, the
   * parameters with an `"error"` entry for a mismatch, or the parameters.
   */
  datatype ReturnOutcome =
    | BadSignature
    | BadOrderInfo
    | ReturnCrash
    | Mismatch(error: string, params: Dict)
    | Settled(params: Dict)

  /** `"error" in result` and `result["error"]`: in `{"error": e, **params}` a parameter named error wins. */
  function ErrorOf(o: ReturnOutcome): (r: Option<string>)
    ensures o.Mismatch? ==> r.Some?
    ensures o.Settled? ==> r == Get(o.params, "error")
  {
    match o
    case Mismatch(e, ps) => if Get(ps, "error").Some? then Get(ps, "error") else Some(e)
    case Settled(ps) => Get(ps, "error")
    case _ => None
  }

  /** The signature matches and `vnp_OrderInfo` reads as two ids. */
  predicate ReturnIdsRead(cfg: Config, params: Dict) {
    SignatureMatches(cfg, params) && ParseOrderInfo(GetOrIfEmpty(params, "vnp_OrderInfo", "0-0")).Some?
  }

  /** The ids are read and `int(vnp_Amount)` does not raise. */
  predicate ReturnAmountRead(cfg: Config, params: Dict) {
    ReturnIdsRead(cfg, params) && ReturnedAmount(params).Some?
  }

  /** The amount is read and the ids name a stored payment of a stored order. */
  predicate ReturnPaymentFound(cfg: Config, orders: map<int, Order>, l: Ledger, params: Dict) {
    && ReturnAmountRead(cfg, params)
    && var ids := ParseOrderInfo(GetOrIfEmpty(params, "vnp_OrderInfo", "0-0")).value;
      PaysFor(orders, l, ids.0, ids.1)
  }

  /** Every gate passes: the payment is found and the amounts agree. */
  predicate ReturnGatesPass(cfg: Config, orders: map<int, Order>, l: Ledger, params: Dict) {
    && ReturnPaymentFound(cfg, orders, l, params)
    && var ids := ParseOrderInfo(GetOrIfEmpty(params, "vnp_OrderInfo", "0-0")).value;
      ReturnedAmount(params) == Some(l.rows[ids.1].amount)
  }

  /**
   * `processReturnUrl(params)`: signature, correlation id, amount, payment
   * and order lookup, amount comparison, and then a status write with
   * `vnp_TransactionNo` as the reference. Each outcome is tied to the gate
   * that gives it.
   */
  function ProcessReturnUrl(cfg: Config, orders: map<int, Order>, l: Ledger, params: Dict): (r: (ReturnOutcome, Ledger))
    ensures !r.0.Settled? ==> r.1 == l
    ensures r.0 == BadSignature <==> !SignatureMatches(cfg, params)
    ensures r.0 == BadOrderInfo <==>
      SignatureMatches(cfg, params) && ParseOrderInfo(GetOrIfEmpty(params, "vnp_OrderInfo", "0-0")).None?
    ensures r.0 == ReturnCrash <==> ReturnIdsRead(cfg, params) && ReturnedAmount(params).None?
    ensures r.0 == Mismatch("Payment/Order mismatch", params) <==>
      ReturnAmountRead(cfg, params) && !ReturnPaymentFound(cfg, orders, l, params)
    ensures r.0 == Mismatch("Amount mismatched", params) <==>
      ReturnPaymentFound(cfg, orders, l, params) && !ReturnGatesPass(cfg, orders, l, params)
    ensures r.0.Settled? <==> ReturnGatesPass(cfg, orders, l, params)
    ensures r.0.Mismatch? || r.0.Settled? ==> r.0.params == params
    ensures r.0.Settled? ==>
      && SignatureMatches(cfg, params)
      && ParseOrderInfo(GetOrIfEmpty(params, "vnp_OrderInfo", "0-0")).Some?
      && var (o, p) := ParseOrderInfo(GetOrIfEmpty(params, "vnp_OrderInfo", "0-0")).value;
      && p in l.rows && o in orders && l.rows[p].orderId == o
      && ReturnedAmount(params) == Some(l.rows[p].amount)
      && r.1 == UpdatePaymentStatus(l, p, ReportedStatus(params), Get(params, "vnp_TransactionNo"))
    ensures l.Valid() ==> r.1.Valid()
  {
    if !SignatureMatches(cfg, params) then (BadSignature, l)
    else
      match ParseOrderInfo(GetOrIfEmpty(params, "vnp_OrderInfo", "0-0"))
      case None => (BadOrderInfo, l)
      case Some((o, p)) =>
        match ReturnedAmount(params)
        case None => (ReturnCrash, l)
        case Some(amount) =>
          if p !in l.rows || o !in orders || l.rows[p].orderId != o then (Mismatch("Payment/Order mismatch", params), l)
          else if l.rows[p].amount != amount then (Mismatch("Amount mismatched", params), l)
          else (Settled(params), UpdatePaymentStatus(l, p, ReportedStatus(params), Get(params, "vnp_TransactionNo")))
  }

  /** Dropping the hash entries from a dict that never had them leaves its contents as they were. */
  lemma FilterKeepsSigned(d: Dict)
    requires "vnp_SecureHash" !in Keys(d) && "vnp_SecureHashType" !in Keys(d)
    ensures multiset(Filter(d, Signed)) == multiset(d)
  {
    forall p ensures multiset(Filter(d, Signed))[p] == multiset(d)[p] {
      if p in d {
        var i :| 0 <= i < |d| && d[i] == p;
        assert Keys(d)[i] == p.0;
      }
    }
  }

  /** The parameters with the hash appended, as VNPay sends them back. */
  function WithHash(d: Dict, hash: string): (r: Dict)
    requires "vnp_SecureHash" !in Keys(d)
    ensures Get(r, "vnp_SecureHash") == Some(hash)
    ensures forall k :: k != "vnp_SecureHash" ==> Get(r, k) == Get(d, k)
  {
    var r := d + [("vnp_SecureHash", hash)];
    assert Keys(r) == Keys(d) + ["vnp_SecureHash"];
    r
  }

  /** Parameters signed with the merchant's secret pass the signature gate, whatever their order. */
  lemma SignedParamsPass(cfg: Config, d: Dict)
    requires "vnp_SecureHash" !in Keys(d) && "vnp_SecureHashType" !in Keys(d)
    ensures SignatureMatches(cfg, WithHash(d, Sign(cfg, d)))
  {
    var r := WithHash(d, Sign(cfg, d));
    var f := Filter(r, Signed);
    assert multiset(f) == multiset(d) by {
      forall p ensures multiset(f)[p] == multiset(d)[p] {
        assert multiset(r) == multiset(d) + multiset{("vnp_SecureHash", Sign(cfg, d))};
        if p in d {
          var i :| 0 <= i < |d| && d[i] == p;
          assert Keys(d)[i] == p.0;
        }
      }
    }
    EncodingIgnoresOrder(f, d);
    if Sign(cfg, d) == "" {
      assert ReceivedHash(r) == Lower("");
    }
  }

  /** A redelivered callback gets the same outcome and leaves the ledger as the first delivery did. */
  lemma ReturnIdempotent(cfg: Config, orders: map<int, Order>, l: Ledger, params: Dict)
    ensures var first := ProcessReturnUrl(cfg, orders, l, params);
      ProcessReturnUrl(cfg, orders, first.1, params) == first
  {
    var first := ProcessReturnUrl(cfg, orders, l, params);
    if first.0.Settled? {
      var (o, p) := ParseOrderInfo(GetOrIfEmpty(params, "vnp_OrderInfo", "0-0")).value;
      UpdateIdempotent(l, p, ReportedStatus(params), Get(params, "vnp_TransactionNo"));
    }
  }

  /** The converse of the handler's contract: a callback that passes every gate settles the payment it names. */
  lemma PassingCallbackSettles(cfg: Config, orders: map<int, Order>, l: Ledger, params: Dict, o: int, p: int)
    requires SignatureMatches(cfg, params)
    requires ParseOrderInfo(GetOrIfEmpty(params, "vnp_OrderInfo", "0-0")) == Some((o, p))
    requires p in l.rows && o in orders && l.rows[p].orderId == o
    requires ReturnedAmount(params) == Some(l.rows[p].amount)
    ensures ProcessReturnUrl(cfg, orders, l, params) ==
      (Settled(params), UpdatePaymentStatus(l, p, ReportedStatus(params), Get(params, "vnp_TransactionNo")))
  {
    var amount := ReturnedAmount(params).value;
    assert !(p !in l.rows || o !in orders || l.rows[p].orderId != o) && l.rows[p].amount == amount;
  }

  /**
   * A payment reported back by VNPay with its correlation id and amount,
   * signed with the merchant secret and both codes "00", is marked SUCCESS.
   */
  lemma CreatedPaymentSettles(
    cfg: Config, orders: map<int, Order>, l: Ledger, orderId: nat, paymentId: nat, extra: Dict)
    requires paymentId in l.rows && orderId in orders && l.rows[paymentId].orderId == orderId
    requires Get(extra, "vnp_OrderInfo") == Some(CorrelationId(orderId, paymentId))
    requires Get(extra, "vnp_Amount") == Some(VnpAmount(l.rows[paymentId].amount))
    requires Get(extra, "vnp_TransactionStatus") == Some("00") && Get(extra, "vnp_ResponseCode") == Some("00")
    requires "vnp_SecureHash" !in Keys(extra) && "vnp_SecureHashType" !in Keys(extra)
    ensures var r := ProcessReturnUrl(cfg, orders, l, WithHash(extra, Sign(cfg, extra)));
      && r.0.Settled?
      && r.1.rows[paymentId].status == Success
  {
    var params := WithHash(extra, Sign(cfg, extra));
    var amount := l.rows[paymentId].amount;
    SignedParamsPass(cfg, extra);
    ReturnedOrderInfo(params, orderId, paymentId);
    AmountReadBack(params, amount);
    assert ReportedStatus(params) == Success;
    PassingCallbackSettles(cfg, orders, l, params, orderId, paymentId);
  }

  /** The OrderInfo written at creation, when echoed back, reads as its two ids. */
  lemma ReturnedOrderInfo(params: Dict, orderId: nat, paymentId: nat)
    requires Get(params, "vnp_OrderInfo") == Some(CorrelationId(orderId, paymentId))
    ensures ParseOrderInfo(GetOrIfEmpty(params, "vnp_OrderInfo", "0-0")) == Some((orderId, paymentId))
  {
    OrderInfoRoundTrip(orderId, paymentId);
  }

  /** An amount sent as `vnp_Amount` comes back, after `// 100`, as itself. */
  lemma AmountReadBack(params: Dict, amount: int)
    requires Get(params, "vnp_Amount") == Some(VnpAmount(amount))
    ensures ReturnedAmount(params) == Some(amount)
  {
    ParseIntRoundTrip(amount * 100);
    assert ParseInt(GetOr(params, "vnp_Amount", "0")) == Some(amount * 100);
    var r := ReturnedAmount(params).value;
    assert ReturnedAmount(params) == Some(r);
    Hundredths(r, amount);
  }

  /** Whole hundreds that bracket each other this tightly are equal. */
  lemma Hundredths(r: int, a: int)
    requires r * 100 <= a * 100 < r * 100 + 100
    ensures r == a
  {
  }

  // ---------------------------------------------------------------------
  // verifyReturn

  /** The parameters `verifyReturn` signs: `vnp_`-prefixed ones other than the hash entries. */
  predicate VnpSigned(p: Pair) {
    "vnp_" <= p.0 && Signed(p)
  }

  datatype ReturnView = ReturnView(
    ok: bool,
    resultCode: Option<string>,
    message: Option<string>,
    orderId: Option<string>,
    paymentId: Option<string>,
    amount: Option<int>,
    transId: Option<string>)

  /** `verifyReturn(params)`: the signature check and the fields the result page shows; nothing is written. */
  function VerifyReturn(cfg: Config, params: Dict): (r: ReturnView)
    ensures r.ok <==> Lower(Sign(cfg, Filter(params, VnpSigned))) == ReceivedHash(params)
    ensures r.orderId.Some? <==> r.paymentId.Some?
    ensures r.orderId.Some? ==>
      && r.orderId.value + "-" + r.paymentId.value == GetOrIfEmpty(params, "vnp_OrderInfo", "0-0")
      && '-' !in r.orderId.value && '-' !in r.paymentId.value
    ensures r.orderId.None? ==> |Split(GetOrIfEmpty(params, "vnp_OrderInfo", "0-0"), '-')| != 2
    ensures r.amount == ReturnedAmount(params)
    ensures r.message.Some? <==> Get(params, "vnp_Message").Some? && Get(params, "vnp_Message").value != ""
    ensures r.message.Some? ==> r.message == Get(params, "vnp_Message")
    ensures r.resultCode == Get(params, "vnp_ResponseCode") && r.transId == Get(params, "vnp_TransactionNo")
  {
    var ok := Lower(Sign(cfg, Filter(params, VnpSigned))) == ReceivedHash(params);
    var parts := SplitPair(GetOrIfEmpty(params, "vnp_OrderInfo", "0-0"));
    var (o, p) := if parts.Some? then (Some(parts.value.0), Some(parts.value.1)) else (None, None);
    var message := if Get(params, "vnp_Message").Some? && Get(params, "vnp_Message").value != "" then Get(params, "vnp_Message") else None;
    ReturnView(ok, Get(params, "vnp_ResponseCode"), message, o, p, ReturnedAmount(params), Get(params, "vnp_TransactionNo"))
  }

  /** Two filters that agree on every entry of a dict select the same entries. */
  lemma FiltersAgree(d: Dict, keep1: Pair -> bool, keep2: Pair -> bool)
    requires forall p :: p in d ==> keep1(p) == keep2(p)
    ensures multiset(Filter(d, keep1)) == multiset(Filter(d, keep2))
  {
    forall p ensures multiset(Filter(d, keep1))[p] == multiset(Filter(d, keep2))[p] {
      if p !in d {
        assert multiset(d)[p] == 0;
      }
    }
  }

  /**
   * On VNPay's own parameters, all `vnp_`-prefixed, the display check and
   * the callback handler accept exactly the same signatures.
   */
  lemma VerifyAgreesWithProcess(cfg: Config, orders: map<int, Order>, l: Ledger, params: Dict)
    requires forall i :: 0 <= i < |params| ==> "vnp_" <= params[i].0
    ensures VerifyReturn(cfg, params).ok <==> ProcessReturnUrl(cfg, orders, l, params).0 != BadSignature
  {
    forall p | p in params ensures VnpSigned(p) == Signed(p) {
      var i :| 0 <= i < |params| && params[i] == p;
    }
    FiltersAgree(params, VnpSigned, Signed);
    EncodingIgnoresOrder(Filter(params, VnpSigned), Filter(params, Signed));
  }
}
