/**
 * The MoMo gateway service: the signed create request, the server-to-server
 * IPN callback with its chain of gates, and the read-only check of the
 * browser return. Signing is `hmac_sha256_hex`, taken as a parameter.
 */
module MomoService {
  import opened Wrappers
  import opened PyText
  import opened Bytes
  import Base64
  import opened Json
  import opened Dict
  import opened Models
  import opened PaymentDao

  /** The merchant settings read from the environment, and the keyed hash. */
  datatype Config = Config(
    partnerCode: string,
    accessKey: string,
    secretKey: string,
    redirectUrl: string,
    ipnUrl: string,
    requestType: string,
    hmacHex: (string, string) -> string)

  // ---------------------------------------------------------------------
  // Canonical strings

  function FieldText(p: Pair): string {
    p.0 + "=" + p.1
  }

  function FieldTexts(ps: seq<Pair>): (r: seq<string>)
    ensures |r| == |ps| && forall i :: 0 <= i < |ps| ==> r[i] == FieldText(ps[i])
  {
    if |ps| == 0 then [] else [FieldText(ps[0])] + FieldTexts(ps[1..])
  }

  /** `"&".join(f"{k}={v}" for k, v in fields)`, in the order given: MoMo's canonical string. */
  function Canonical(ps: seq<Pair>): string {
    Join("&", FieldTexts(ps))
  }

  lemma CanonicalCons(p: Pair, rest: seq<Pair>)
    requires |rest| >= 1
    ensures Canonical([p] + rest) == FieldText(p) + "&" + Canonical(rest)
  {
    assert FieldTexts([p] + rest) == [FieldText(p)] + FieldTexts(rest) by {
      assert ([p] + rest)[1..] == rest;
    }
    JoinCons("&", FieldText(p), FieldTexts(rest));
  }

  /** Replacing the first `key=value` text by a new one changes only the first field's value. */
  lemma CanonicalReplaceHead(fs: seq<Pair>, v: string)
    requires |fs| >= 2
    ensures ReplaceFirst(Canonical(fs), FieldText(fs[0]), fs[0].0 + "=" + v) == Canonical(fs[0 := (fs[0].0, v)])
  {
    var rest := fs[1..];
    assert fs == [fs[0]] + rest;
    assert fs[0 := (fs[0].0, v)] == [(fs[0].0, v)] + rest;
    CanonicalCons(fs[0], rest);
    CanonicalCons((fs[0].0, v), rest);
    ReplaceFirstAtFront(FieldText(fs[0]), "&" + Canonical(rest), fs[0].0 + "=" + v);
    assert FieldText(fs[0]) + "&" + Canonical(rest) == FieldText(fs[0]) + ("&" + Canonical(rest));
    assert fs[0].0 + "=" + v + "&" + Canonical(rest) == (fs[0].0 + "=" + v) + ("&" + Canonical(rest));
  }

  /** When no key or value contains `&`, the canonical string splits back into its fields. */
  lemma CanonicalReadBack(ps: seq<Pair>)
    requires |ps| >= 1
    requires forall i :: 0 <= i < |ps| ==> '&' !in ps[i].0 && '&' !in ps[i].1
    ensures Split(Canonical(ps), '&') == FieldTexts(ps)
  {
    var parts := FieldTexts(ps);
    assert forall i :: 0 <= i < |parts| ==> '&' !in parts[i] by {
      forall i | 0 <= i < |parts| ensures '&' !in parts[i] {
        assert parts[i] == ps[i].0 + "=" + ps[i].1;
      }
    }
    SplitJoin(parts, '&');
  }

  /** The fields of the create request's signature, in the order `_build_create_raw` lists them. */
  const CreateKeys: seq<string> :=
    ["accessKey", "amount", "extraData", "ipnUrl", "orderId", "orderInfo",
     "partnerCode", "redirectUrl", "requestId", "requestType"]

  /** The fields of the IPN and return signatures, in the order `processIPN` lists them. */
  const IpnKeys: seq<string> :=
    ["accessKey", "amount", "extraData", "message", "orderId", "orderInfo", "orderType",
     "partnerCode", "payType", "requestId", "responseTime", "resultCode", "transId"]

  lemma CreateKeysOrdered()
    ensures ChainOrdered(CreateKeys)
  {
    var ks := CreateKeys;
    forall i | 0 <= i < |ks| - 1 ensures LexLess(ks[i], ks[i + 1]) {
      if i == 0 { LexLessAt("accessKey", "amount", 1); }
      else if i == 1 { LexLessAt("amount", "extraData", 0); }
      else if i == 2 { LexLessAt("extraData", "ipnUrl", 0); }
      else if i == 3 { LexLessAt("ipnUrl", "orderId", 0); }
      else if i == 4 { LexLessAt("orderId", "orderInfo", 6); }
      else if i == 5 { LexLessAt("orderInfo", "partnerCode", 0); }
      else if i == 6 { LexLessAt("partnerCode", "redirectUrl", 0); }
      else if i == 7 { LexLessAt("redirectUrl", "requestId", 2); }
      else { LexLessAt("requestId", "requestType", 7); }
    }
  }

  /** Each neighbouring pair is its own lemma: comparing many literal keys in one proof is expensive. */
  lemma IpnKeysOrdered()
    ensures ChainOrdered(IpnKeys)
  {
    IpnKeysOrderedAt0();
    IpnKeysOrderedAt1();
    IpnKeysOrderedAt2();
    IpnKeysOrderedAt3();
    IpnKeysOrderedAt4();
    IpnKeysOrderedAt5();
    IpnKeysOrderedAt6();
    IpnKeysOrderedAt7();
    IpnKeysOrderedAt8();
    IpnKeysOrderedAt9();
    IpnKeysOrderedAt10();
    IpnKeysOrderedAt11();
  }

  lemma IpnKeysOrderedAt0() ensures LexLess(IpnKeys[0], IpnKeys[1]) { LexLessAt("accessKey", "amount", 1); }
  lemma IpnKeysOrderedAt1() ensures LexLess(IpnKeys[1], IpnKeys[2]) { LexLessAt("amount", "extraData", 0); }
  lemma IpnKeysOrderedAt2() ensures LexLess(IpnKeys[2], IpnKeys[3]) { LexLessAt("extraData", "message", 0); }
  lemma IpnKeysOrderedAt3() ensures LexLess(IpnKeys[3], IpnKeys[4]) { LexLessAt("message", "orderId", 0); }
  lemma IpnKeysOrderedAt4() ensures LexLess(IpnKeys[4], IpnKeys[5]) { LexLessAt("orderId", "orderInfo", 6); }
  lemma IpnKeysOrderedAt5() ensures LexLess(IpnKeys[5], IpnKeys[6]) { LexLessAt("orderInfo", "orderType", 5); }
  lemma IpnKeysOrderedAt6() ensures LexLess(IpnKeys[6], IpnKeys[7]) { LexLessAt("orderType", "partnerCode", 0); }
  lemma IpnKeysOrderedAt7() ensures LexLess(IpnKeys[7], IpnKeys[8]) { LexLessAt("partnerCode", "payType", 2); }
  lemma IpnKeysOrderedAt8() ensures LexLess(IpnKeys[8], IpnKeys[9]) { LexLessAt("payType", "requestId", 0); }
  lemma IpnKeysOrderedAt9() ensures LexLess(IpnKeys[9], IpnKeys[10]) { LexLessAt("requestId", "responseTime", 2); }
  lemma IpnKeysOrderedAt10() ensures LexLess(IpnKeys[10], IpnKeys[11]) { LexLessAt("responseTime", "resultCode", 3); }
  lemma IpnKeysOrderedAt11() ensures LexLess(IpnKeys[11], IpnKeys[12]) { LexLessAt("resultCode", "transId", 0); }

  /** The create-request fields: the ten keys in order, each with its value. */
  function CreateFields(
    cfg: Config, amount: int, orderId: string, orderInfo: string,
    requestId: string, requestType: string, extraData: string): (r: seq<Pair>)
    ensures Keys(r) == CreateKeys && SortedByKey(r)
    ensures Values(r) ==
      [cfg.accessKey, IntToString(amount), extraData, cfg.ipnUrl, orderId, orderInfo,
       cfg.partnerCode, cfg.redirectUrl, requestId, requestType]
  {
    CreateKeysOrdered();
    ZipSorted(CreateKeys,
      [cfg.accessKey, IntToString(amount), extraData, cfg.ipnUrl, orderId, orderInfo,
       cfg.partnerCode, cfg.redirectUrl, requestId, requestType])
  }

  /**
   * `_build_create_raw`: the ten `key=value` fields joined with `&`. The
   * fixed order is also the alphabetical one, so the string is the same as
   * the key-sorted canonical form MoMo specifies.
   */
  function BuildCreateRaw(
    cfg: Config, amount: int, orderId: string, orderInfo: string,
    requestId: string, requestType: string, extraData: string): (r: string)
    ensures var fs := CreateFields(cfg, amount, orderId, orderInfo, requestId, requestType, extraData);
      DistinctKeys(fs) && r == Canonical(SortByKey(fs))
  {
    var fs := CreateFields(cfg, amount, orderId, orderInfo, requestId, requestType, extraData);
    SortedDistinct(fs);
    SortedUnique(SortByKey(fs), fs);
    Canonical(fs)
  }

  // ---------------------------------------------------------------------
  // createMomoPayment

  /** The JSON body posted to MoMo's create endpoint. */
  datatype MomoRequest = MomoRequest(
    partnerCode: string,
    partnerName: string,
    storeId: string,
    requestId: string,
    amount: int,
    orderId: string,
    orderInfo: string,
    redirectUrl: string,
    ipnUrl: string,
    lang: string,
    requestType: string,
    extraData: string,
    signature: string)

  const DefaultOrderInfo := "Thanh toan ve su kien"

  /** `{"orderId": ..., "paymentId": ...}`. */
  function ExtraObject(orderId: int, paymentId: int): Json {
    JObj([("orderId", JInt(orderId)), ("paymentId", JInt(paymentId))])
  }

  /** `base64.b64encode(json.dumps(extra).encode())`: decodes back to the two ids. */
  function ExtraData(codec: Codec, orderId: int, paymentId: int): (r: string)
    ensures Lawful(codec) ==>
      Base64.DecodePadded(r).Some? && codec.loads(Base64.DecodePadded(r).value) == Some(ExtraObject(orderId, paymentId))
  {
    var bytes := Utf8Encode(codec.dumps(ExtraObject(orderId, paymentId)));
    Base64.StandardRoundTrip(bytes);
    Base64.Encode(bytes)
  }

  /** The signed request for a new payment of an order. */
  function BuildRequest(cfg: Config, codec: Codec, orderId: int, amount: int, paymentId: int, orderInfo: Option<string>, requestId: string): (r: MomoRequest)
    ensures r.orderId == CorrelationId(orderId, paymentId) && r.amount == amount
    ensures r.orderInfo == Strip(if orderInfo.Some? && orderInfo.value != "" then orderInfo.value else DefaultOrderInfo)
    ensures r.extraData == ExtraData(codec, orderId, paymentId)
    ensures r.requestId == requestId && r.requestType == Strip(cfg.requestType)
    ensures r.partnerCode == cfg.partnerCode && r.partnerName == "MoMo" && r.storeId == "TicketApp"
    ensures r.redirectUrl == cfg.redirectUrl && r.ipnUrl == cfg.ipnUrl && r.lang == "vi"
    ensures r.signature == cfg.hmacHex(
      BuildCreateRaw(cfg, r.amount, r.orderId, r.orderInfo, r.requestId, r.requestType, r.extraData), cfg.secretKey)
  {
    var info := Strip(if orderInfo.Some? && orderInfo.value != "" then orderInfo.value else DefaultOrderInfo);
    var requestType := Strip(cfg.requestType);
    var momoOrderId := CorrelationId(orderId, paymentId);
    var extra := ExtraData(codec, orderId, paymentId);
    var raw := BuildCreateRaw(cfg, amount, momoOrderId, info, requestId, requestType, extra);
    MomoRequest(cfg.partnerCode, "MoMo", "TicketApp", requestId, amount, momoOrderId, info,
      cfg.redirectUrl, cfg.ipnUrl, "vi", requestType, extra, cfg.hmacHex(raw, cfg.secretKey))
  }

  /** The steps before the gateway is called: order lookup, amount check, new PENDING payment, request. */
  datatype Prepared = Refused(why: Denial) | Ready(request: MomoRequest, ledger: Ledger, paymentId: int)

  function PrepareMomoPayment(
    cfg: Config, codec: Codec, orders: map<int, Order>, l: Ledger,
    orderId: int, amountOverride: Option<int>, orderInfo: Option<string>, requestId: string): (r: Prepared)
    requires l.Valid()
    ensures orderId !in orders ==> r == Refused(OrderNotFound)
    ensures orderId in orders && amountOverride.Some? && amountOverride.value != orders[orderId].totalAmount ==>
      r == Refused(AmountMismatch)
    ensures r.Ready? <==> orderId in orders && (amountOverride.None? || amountOverride.value == orders[orderId].totalAmount)
    ensures r.Ready? ==>
      var created := CreatePayment(l, orderId, orders[orderId].totalAmount, DigitalWallet);
      && r.ledger == created.0 && r.paymentId == created.1
      && r.request == BuildRequest(cfg, codec, orderId, orders[orderId].totalAmount, r.paymentId, orderInfo, requestId)
  {
    if orderId !in orders then Refused(OrderNotFound)
    else
      var amount := orders[orderId].totalAmount;
      if amountOverride.Some? && amountOverride.value != amount then Refused(AmountMismatch)
      else
        var (l1, pid) := CreatePayment(l, orderId, amount, DigitalWallet);
        Ready(BuildRequest(cfg, codec, orderId, amount, pid, orderInfo, requestId), l1, pid)
  }

  /** What the create endpoint did: raised (exception class name) or answered with a JSON object (`None` or `{}` as no fields). */
  datatype MomoReply = Raised(exception: string) | Answered(data: seq<(string, Scalar)>)

  /** `data.get("payUrl") or data.get("deeplink")`, when that is truthy. */
  function ReplyPayUrl(data: seq<(string, Scalar)>): (r: Option<Scalar>)
    ensures r.Some? ==> ScalarTruthy(r.value)
    ensures r.Some? ==> Get(data, "payUrl") == r || Get(data, "deeplink") == r
    ensures Get(data, "payUrl").Some? && ScalarTruthy(Get(data, "payUrl").value) ==> r == Get(data, "payUrl")
    ensures r.None? <==>
      (Get(data, "payUrl").None? || !ScalarTruthy(Get(data, "payUrl").value))
      && (Get(data, "deeplink").None? || !ScalarTruthy(Get(data, "deeplink").value))
  {
    var pay := Get(data, "payUrl");
    var deep := Get(data, "deeplink");
    if pay.Some? && ScalarTruthy(pay.value) then pay
    else if deep.Some? && ScalarTruthy(deep.value) then deep
    else None
  }

  /** The pay URL a reply yields: none when the call raised, otherwise `payUrl or deeplink`. */
  function ReplyUrl(g: MomoReply): (r: Option<Scalar>)
    ensures g.Raised? ==> r.None?
    ensures g.Answered? ==> r == ReplyPayUrl(g.data)
  {
    match g
    case Raised(_) => None
    case Answered(data) => ReplyPayUrl(data)
  }

  datatype CreateResult =
    | Denied(why: Denial)
    | Redirect(payUrl: Scalar, paymentId: int)
    | GatewayError(error: string, paymentId: int)
    | CreateCrashed(paymentId: int)

  /**
   * `createMomoPayment` as written: the failure branches call
   * `update_payment_status(..., transaction_no=None)`, a keyword the function
   * does not have, so the call raises `TypeError` before the status changes
   * and the new payment stays PENDING.
   */
  function CreateMomoPaymentAsWritten(
    cfg: Config, codec: Codec, orders: map<int, Order>, l: Ledger,
    orderId: int, amountOverride: Option<int>, orderInfo: Option<string>, requestId: string,
    gateway: MomoRequest -> MomoReply): (r: (CreateResult, Ledger))
    requires l.Valid()
    ensures r.0.Denied? <==> orderId !in orders || (amountOverride.Some? && amountOverride.value != orders[orderId].totalAmount)
    ensures r.0.Denied? ==> r.1 == l
    ensures !r.0.GatewayError?
    ensures var p := PrepareMomoPayment(cfg, codec, orders, l, orderId, amountOverride, orderInfo, requestId);
      p.Ready? ==>
        var g := ReplyUrl(gateway(p.request));
        && r.1 == p.ledger && r.0.paymentId == p.paymentId
        && (r.0.CreateCrashed? <==> g.None?)
        && (r.0.Redirect? ==> r.0.payUrl == g.value)
    ensures r.0.CreateCrashed? ==> r.0.paymentId in r.1.rows && r.1.rows[r.0.paymentId].status == Pending
  {
    match PrepareMomoPayment(cfg, codec, orders, l, orderId, amountOverride, orderInfo, requestId)
    case Refused(why) => (Denied(why), l)
    case Ready(req, l1, pid) =>
      match gateway(req)
      case Raised(_) => (CreateCrashed(pid), l1)
      case Answered(data) =>
        match ReplyPayUrl(data)
        case Some(url) => (Redirect(url, pid), l1)
        case None => (CreateCrashed(pid), l1)
  }

  /**
   * `createMomoPayment` with the failure branches doing what they evidently
   * mean to: mark the new payment FAILED and return an error carrying its id.
   */
  function CreateMomoPayment(
    cfg: Config, codec: Codec, orders: map<int, Order>, l: Ledger,
    orderId: int, amountOverride: Option<int>, orderInfo: Option<string>, requestId: string,
    gateway: MomoRequest -> MomoReply): (r: (CreateResult, Ledger))
    requires l.Valid()
    ensures r.1.Valid()
    ensures r.0.Denied? <==> orderId !in orders || (amountOverride.Some? && amountOverride.value != orders[orderId].totalAmount)
    ensures r.0.Denied? ==> r.1 == l
    ensures !r.0.CreateCrashed?
    ensures !r.0.Denied? ==>
      && r.0.paymentId !in l.rows && r.1.rows.Keys == l.rows.Keys + {r.0.paymentId}
      && r.1.rows[r.0.paymentId].orderId == orderId
      && r.1.rows[r.0.paymentId].amount == orders[orderId].totalAmount
      && (forall id :: id in l.rows ==> r.1.rows[id] == l.rows[id])
    ensures r.0.Redirect? ==> ScalarTruthy(r.0.payUrl) && r.1.rows[r.0.paymentId].status == Pending
    ensures r.0.GatewayError? ==> r.1.rows[r.0.paymentId].status == Failed
    ensures var p := PrepareMomoPayment(cfg, codec, orders, l, orderId, amountOverride, orderInfo, requestId);
      p.Ready? ==>
        var reply := gateway(p.request);
        var g := ReplyUrl(reply);
        && r.0.paymentId == p.paymentId
        && (r.0.Redirect? <==> g.Some?)
        && (r.0.Redirect? ==> r.0.payUrl == g.value && r.1 == p.ledger)
        && (r.0.GatewayError? ==> r.1 == UpdatePaymentStatus(p.ledger, p.paymentId, Failed, None))
        && (reply.Raised? ==> r.0.error == "MoMo create exception: " + reply.exception)
        && (reply.Answered? && g.None? ==> r.0.error == "MoMo create failed")
  {
    match PrepareMomoPayment(cfg, codec, orders, l, orderId, amountOverride, orderInfo, requestId)
    case Refused(why) => (Denied(why), l)
    case Ready(req, l1, pid) =>
      match gateway(req)
      case Raised(name) =>
        (GatewayError("MoMo create exception: " + name, pid), UpdatePaymentStatus(l1, pid, Failed, None))
      case Answered(data) =>
        match ReplyPayUrl(data)
        case Some(url) => (Redirect(url, pid), l1)
        case None => (GatewayError("MoMo create failed", pid), UpdatePaymentStatus(l1, pid, Failed, None))
  }

  /**
   * The discrepancy: whenever the gateway call fails (it raises, or its
   * reply has neither `payUrl` nor `deeplink`), the code as written raises
   * and leaves a PENDING payment behind, where the corrected version records
   * FAILED and answers with an error.
   */
  lemma FailedCreateLeavesPaymentPending(
    cfg: Config, codec: Codec, orders: map<int, Order>, l: Ledger,
    orderId: int, orderInfo: Option<string>, requestId: string,
    gateway: MomoRequest -> MomoReply)
    requires l.Valid() && orderId in orders
    requires ReplyUrl(gateway(PrepareMomoPayment(cfg, codec, orders, l, orderId, None, orderInfo, requestId).request)).None?
    ensures var asWritten := CreateMomoPaymentAsWritten(cfg, codec, orders, l, orderId, None, orderInfo, requestId, gateway);
      && asWritten.0.CreateCrashed?
      && asWritten.1.rows[asWritten.0.paymentId].status == Pending
    ensures var fixed := CreateMomoPayment(cfg, codec, orders, l, orderId, None, orderInfo, requestId, gateway);
      && fixed.0.GatewayError?
      && fixed.1.rows[fixed.0.paymentId].status == Failed
  {
  }

  /** When the gateway hands back a URL, the code as written and the corrected version agree. */
  lemma VersionsAgreeOnPayUrl(
    cfg: Config, codec: Codec, orders: map<int, Order>, l: Ledger,
    orderId: int, amountOverride: Option<int>, orderInfo: Option<string>, requestId: string,
    gateway: MomoRequest -> MomoReply)
    requires l.Valid()
    requires var p := PrepareMomoPayment(cfg, codec, orders, l, orderId, amountOverride, orderInfo, requestId);
      p.Ready? ==> ReplyUrl(gateway(p.request)).Some?
    ensures CreateMomoPaymentAsWritten(cfg, codec, orders, l, orderId, amountOverride, orderInfo, requestId, gateway)
         == CreateMomoPayment(cfg, codec, orders, l, orderId, amountOverride, orderInfo, requestId, gateway)
  {
  }

  // ---------------------------------------------------------------------
  // processIPN

  /** `safe(ipn.get(k))`: a missing or null field is empty, anything else is `str(v).strip()`. */
  function Safe(v: Option<Scalar>): string {
    if v.None? || v.value.SNull? then "" else Strip(ScalarStr(v.value))
  }

  /** The safe values of the signed fields, in key order. */
  function IpnValues(ipn: seq<(string, Scalar)>): (r: seq<string>)
    ensures |r| == |IpnKeys| && forall i :: 0 <= i < |IpnKeys| ==> r[i] == Safe(Get(ipn, IpnKeys[i]))
  {
    seq(|IpnKeys|, i requires 0 <= i < |IpnKeys| => Safe(Get(ipn, IpnKeys[i])))
  }

  /** The thirteen signed fields of a callback, with their safe values. */
  function IpnFields(ipn: seq<(string, Scalar)>): (r: seq<Pair>)
    ensures Keys(r) == IpnKeys && SortedByKey(r)
    ensures forall i :: 0 <= i < |r| ==> r[i].1 == Safe(Get(ipn, IpnKeys[i]))
    ensures |r| == 13 && r[0] == ("accessKey", Safe(Get(ipn, "accessKey")))
  {
    IpnKeysOrdered();
    ZipSorted(IpnKeys, IpnValues(ipn))
  }

  /**
   * The string the IPN signature covers: the canonical fields with the
   * echoed access key swapped for the merchant's own, by a first-occurrence
   * `replace` on `accessKey=<echoed>`.
   */
  function IpnRaw(cfg: Config, ipn: seq<(string, Scalar)>): (r: string)
    ensures r == Canonical(IpnFields(ipn)[0 := ("accessKey", cfg.accessKey)])
  {
    var fs := IpnFields(ipn);
    EchoedFieldFirst(ipn, cfg.accessKey);
    CanonicalReplaceHead(fs, cfg.accessKey);
    ReplaceFirst(Canonical(fs), "accessKey=" + Safe(Get(ipn, "accessKey")), "accessKey=" + cfg.accessKey)
  }

  /** The first signed field is the echoed access key. */
  lemma EchoedFieldFirst(ipn: seq<(string, Scalar)>, mine: string)
    ensures var fs := IpnFields(ipn);
      && |fs| >= 2 && fs[0].0 == "accessKey"
      && FieldText(fs[0]) == "accessKey=" + Safe(Get(ipn, "accessKey"))
      && fs[0].0 + "=" + mine == "accessKey=" + mine
  {
  }

  /** The signature the merchant expects on a callback. */
  function ExpectedSignature(cfg: Config, ipn: seq<(string, Scalar)>): string {
    cfg.hmacHex(IpnRaw(cfg, ipn), cfg.secretKey)
  }

  /**
   * `(ipn.get("signature") or "").strip()`: a falsy value reads as `""`;
   * a truthy non-string has no `strip` and raises (`None` here).
   */
  function SignatureText(v: Option<Scalar>): (r: Option<string>)
    ensures v.Some? && v.value.SStr? ==> r == Some(Strip(v.value.s))
    ensures (v.None? || !ScalarTruthy(v.value)) ==> r == Some("")
    ensures r.None? <==> v.Some? && ScalarTruthy(v.value) && !v.value.SStr?
  {
    if v.None? || !ScalarTruthy(v.value) then Some("")
    else if v.value.SStr? then Some(Strip(v.value.s))
    else None
  }

  /**
   * `(ipn.get("orderId") or "0-0").split("-", 1)` and `int` of both parts,
   * as one step that either yields the two ids or fails; a truthy value that
   * is not a string has no `split` and fails too.
   */
  function ParseCorrelation(v: Option<Scalar>): (r: Option<(int, int)>)
    ensures r.Some? ==>
      && (v.None? || !ScalarTruthy(v.value) || v.value.SStr?)
      && var text := if v.None? || !ScalarTruthy(v.value) then "0-0" else v.value.s;
      && exists a, b :: text == a + "-" + b && '-' !in a && ParseInt(a) == Some(r.value.0) && ParseInt(b) == Some(r.value.1)
    ensures v.None? || !ScalarTruthy(v.value) ==> r == Some((0, 0))
    ensures v.Some? && ScalarTruthy(v.value) && v.value.SStr? ==>
      forall a, b :: IdPairAt(v.value.s, a, b) ==> r == Some((ParseInt(a).value, ParseInt(b).value))
  {
    if v.None? || !ScalarTruthy(v.value) then
      DefaultCorrelation();
      ParseIdPair("0-0")
    else if v.value.SStr? then ParseIdPair(v.value.s)
    else None
  }

  /** The stand-in `"0-0"` reads as order 0 and payment 0. */
  lemma DefaultCorrelation()
    ensures ParseIdPair("0-0") == Some((0, 0))
  {
    var zero := IntToString(0);
    assert zero == "0";
    ParseIntRoundTrip(0);
    assert zero + "-" + zero == "0-0";
    assert IdPairAt("0-0", zero, zero);
  }

  /** `text` is `a-b` split at its first `-`, and `int` reads both halves. */
  predicate IdPairAt(text: string, a: string, b: string) {
    text == a + "-" + b && '-' !in a && ParseInt(a).Some? && ParseInt(b).Some?
  }

  /** `text.split("-", 1)` unpacked into two names and `int` of each: exactly the texts `a-b` whose halves `int` reads. */
  function ParseIdPair(text: string): (r: Option<(int, int)>)
    ensures r.Some? ==>
      exists a, b :: text == a + "-" + b && '-' !in a && ParseInt(a) == Some(r.value.0) && ParseInt(b) == Some(r.value.1)
    ensures forall a, b :: IdPairAt(text, a, b) ==> r == Some((ParseInt(a).value, ParseInt(b).value))
  {
    var parts := SplitOnce(text, '-');
    var r :=
      if |parts| != 2 then None
      else
        match (ParseInt(parts[0]), ParseInt(parts[1]))
        case (Some(o), Some(p)) =>
          assert text == parts[0] + "-" + parts[1];
          Some((o, p))
        case _ => None;
    assert forall a, b :: IdPairAt(text, a, b) ==> r == Some((ParseInt(a).value, ParseInt(b).value)) by {
      forall a, b | IdPairAt(text, a, b) ensures r == Some((ParseInt(a).value, ParseInt(b).value)) {
        SplitOnceAt(a, '-', b);
      }
    }
    r
  }

  /** The id pair of a correlation id built from a non-negative order id reads back exactly. */
  lemma CorrelationRoundTrip(orderId: nat, paymentId: int)
    ensures ParseCorrelation(Some(SStr(CorrelationId(orderId, paymentId)))) == Some((orderId, paymentId))
  {
    var a := IntToString(orderId);
    var b := IntToString(paymentId);
    var text := CorrelationId(orderId, paymentId);
    assert SplitOnce(text, '-') == [a, b] by {
      DigitsAreSafe(a);
      assert text == a + ['-'] + b;
      SplitOnceAt(a, '-', b);
    }
    assert ParseInt(a) == Some(orderId) by {
      ParseIntRoundTrip(orderId);
    }
    assert ParseInt(b) == Some(paymentId) by {
      ParseIntRoundTrip(paymentId);
    }
    assert ScalarTruthy(SStr(text));
  }

  /** `int(ipn.get("amount", 0))`; `None` stands for the exception. */
  function IpnAmount(v: Option<Scalar>): Option<int> {
    if v.None? then Some(0) else ScalarInt(v.value)
  }

  /** `str(ipn.get("resultCode", ""))`. */
  function ResultCodeText(v: Option<Scalar>): string {
    if v.None? then "" else ScalarStr(v.value)
  }

  /** The `transId` to record: `None` unless the callback carries a truthy one. */
  function TransIdFor(v: Option<Scalar>): (r: Option<string>)
    ensures HasText(r) <==> r.Some?
  {
    if v.Some? && ScalarTruthy(v.value) then
      TruthyStrNonEmpty(v.value);
      Some(ScalarStr(v.value))
    else None
  }

  lemma TruthyStrNonEmpty(v: Scalar)
    requires ScalarTruthy(v)
    ensures ScalarStr(v) != ""
  {
    if v.SInt? {
      assert ParseInt(ScalarStr(v)) == Some(v.i);
    }
  }

  /** What `processIPN` answers, or that it raised. */
  datatype IpnResult = Ack(code: int, message: string) | IpnCrash

  /** The payment status an accepted callback records. */
  function SettledStatus(resultCode: string): PaymentStatus {
    if resultCode == "0" then Success else Failed
  }

  /** Everything `processIPN` reads from a callback: the signatures and five fields. */
  datatype IpnReading = IpnReading(
    signature: Option<string>,
    expected: string,
    orderId: Option<Scalar>,
    amount: Option<Scalar>,
    resultCode: Option<Scalar>,
    transId: Option<Scalar>)

  function ReadIpn(cfg: Config, ipn: seq<(string, Scalar)>): IpnReading {
    IpnReading(SignatureText(Get(ipn, "signature")), ExpectedSignature(cfg, ipn),
      Get(ipn, "orderId"), Get(ipn, "amount"), Get(ipn, "resultCode"), Get(ipn, "transId"))
  }

  /** The stripped signature is the one the merchant computes. */
  predicate SignatureAccepted(rd: IpnReading) {
    rd.signature == Some(rd.expected)
  }

  /** The signature is accepted and the correlation id reads as two ids. */
  predicate IdsRead(rd: IpnReading) {
    SignatureAccepted(rd) && ParseCorrelation(rd.orderId).Some?
  }

  /** The ids are read and `int(amount)` does not raise. */
  predicate AmountRead(rd: IpnReading) {
    IdsRead(rd) && IpnAmount(rd.amount).Some?
  }

  /** The amount is read and the ids name a stored payment of a stored order. */
  predicate PaymentFound(orders: map<int, Order>, l: Ledger, rd: IpnReading) {
    AmountRead(rd) && PaysFor(orders, l, ParseCorrelation(rd.orderId).value.0, ParseCorrelation(rd.orderId).value.1)
  }

  /** Every gate passes: the payment is found and the amounts agree. */
  predicate IpnGatesPass(orders: map<int, Order>, l: Ledger, rd: IpnReading) {
    PaymentFound(orders, l, rd) && IpnAmount(rd.amount) == Some(l.rows[ParseCorrelation(rd.orderId).value.1].amount)
  }

  /** The gates of `processIPN` applied to what it read, each answer tied to the gate that gives it. */
  function IpnGates(orders: map<int, Order>, l: Ledger, rd: IpnReading): (r: (IpnResult, Ledger))
    ensures !(r.0.Ack? && r.0.code == 0) ==> r.1 == l
    ensures r.0.Ack? ==> r.0.code in {0, 95, 96, 97, 98}
    ensures r.0.IpnCrash? <==> rd.signature.None? || (IdsRead(rd) && IpnAmount(rd.amount).None?)
    ensures r.0.Ack? && r.0.code == 97 <==> rd.signature.Some? && rd.expected != rd.signature.value
    ensures r.0.Ack? && r.0.code == 98 <==> SignatureAccepted(rd) && ParseCorrelation(rd.orderId).None?
    ensures r.0.Ack? && r.0.code == 96 <==> AmountRead(rd) && !PaymentFound(orders, l, rd)
    ensures r.0.Ack? && r.0.code == 95 <==> PaymentFound(orders, l, rd) && !IpnGatesPass(orders, l, rd)
    ensures r.0.Ack? && r.0.code == 0 <==> IpnGatesPass(orders, l, rd)
    ensures IpnGatesPass(orders, l, rd) ==>
      && var code := ResultCodeText(rd.resultCode);
      && r.1 == UpdatePaymentStatus(l, ParseCorrelation(rd.orderId).value.1, SettledStatus(code), TransIdFor(rd.transId))
      && (r.0.message == "Success" <==> code == "0")
    ensures l.Valid() ==> r.1.Valid()
  {
    match rd.signature
    case None => (IpnCrash, l)
    case Some(sig) =>
      if rd.expected != sig then (Ack(97, "Invalid signature"), l)
      else
        match ParseCorrelation(rd.orderId)
        case None => (Ack(98, "Invalid orderId format"), l)
        case Some((o, p)) =>
          match IpnAmount(rd.amount)
          case None => (IpnCrash, l)
          case Some(amount) =>
            if p !in l.rows || o !in orders || l.rows[p].orderId != o then (Ack(96, "Payment/Order mismatch"), l)
            else if l.rows[p].amount != amount then (Ack(95, "Amount mismatched"), l)
            else
              var code := ResultCodeText(rd.resultCode);
              var l1 := UpdatePaymentStatus(l, p, SettledStatus(code), TransIdFor(rd.transId));
              if code == "0" then (Ack(0, "Success"), l1) else (Ack(0, "Payment failed"), l1)
  }

  /**
   * `processIPN`: signature (97), correlation id (98), `int(amount)` (which
   * may raise), payment and order lookup (96), amount (95), and only then a
   * status write; every answer after the gates is resultCode 0.
   */
  function ProcessIpn(cfg: Config, orders: map<int, Order>, l: Ledger, ipn: seq<(string, Scalar)>): (r: (IpnResult, Ledger))
    ensures !(r.0.Ack? && r.0.code == 0) ==> r.1 == l
    ensures r.0.Ack? ==> r.0.code in {0, 95, 96, 97, 98}
    ensures var rd := ReadIpn(cfg, ipn);
      r.0.IpnCrash? <==> rd.signature.None? || (IdsRead(rd) && IpnAmount(rd.amount).None?)
    ensures r.0.Ack? && r.0.code == 97 <==>
      SignatureText(Get(ipn, "signature")).Some? && ExpectedSignature(cfg, ipn) != SignatureText(Get(ipn, "signature")).value
    ensures var rd := ReadIpn(cfg, ipn);
      r.0.Ack? && r.0.code == 98 <==> SignatureAccepted(rd) && ParseCorrelation(rd.orderId).None?
    ensures var rd := ReadIpn(cfg, ipn);
      r.0.Ack? && r.0.code == 96 <==> AmountRead(rd) && !PaymentFound(orders, l, rd)
    ensures var rd := ReadIpn(cfg, ipn);
      r.0.Ack? && r.0.code == 95 <==> PaymentFound(orders, l, rd) && !IpnGatesPass(orders, l, rd)
    ensures r.0.Ack? && r.0.code == 0 <==> IpnGatesPass(orders, l, ReadIpn(cfg, ipn))
    ensures r.0.Ack? && r.0.code == 0 ==>
      && var (o, p) := ParseCorrelation(Get(ipn, "orderId")).value;
      && var code := ResultCodeText(Get(ipn, "resultCode"));
      && r.1 == UpdatePaymentStatus(l, p, SettledStatus(code), TransIdFor(Get(ipn, "transId")))
      && (r.0.message == "Success" <==> code == "0")
    ensures l.Valid() ==> r.1.Valid()
  {
    IpnGates(orders, l, ReadIpn(cfg, ipn))
  }

  /** A redelivered callback gets the same answer and leaves the ledger as the first delivery did. */
  lemma IpnIdempotent(cfg: Config, orders: map<int, Order>, l: Ledger, ipn: seq<(string, Scalar)>)
    ensures var first := ProcessIpn(cfg, orders, l, ipn);
      ProcessIpn(cfg, orders, first.1, ipn) == first
  {
    var first := ProcessIpn(cfg, orders, l, ipn);
    if first.0.Ack? && first.0.code == 0 {
      var (o, p) := ParseCorrelation(Get(ipn, "orderId")).value;
      UpdateIdempotent(l, p, SettledStatus(ResultCodeText(Get(ipn, "resultCode"))), TransIdFor(Get(ipn, "transId")));
    }
  }

  lemma IpnRawIgnoresAccessKey(cfg: Config, a: seq<(string, Scalar)>, b: seq<(string, Scalar)>)
    requires forall k :: k != "accessKey" ==> Get(a, k) == Get(b, k)
    ensures IpnRaw(cfg, a) == IpnRaw(cfg, b)
  {
    var ra := IpnFields(a);
    var rb := IpnFields(b);
    var fa := ra[0 := ("accessKey", cfg.accessKey)];
    var fb := rb[0 := ("accessKey", cfg.accessKey)];
    forall i | 1 <= i < |IpnKeys| ensures fa[i] == fb[i] {
      assert ra[i].0 == IpnKeys[i] && rb[i].0 == IpnKeys[i];
      assert LexLess(ra[0].0, ra[i].0);
      LexLessIrreflexive(IpnKeys[i]);
      assert Get(a, IpnKeys[i]) == Get(b, IpnKeys[i]);
    }
    assert fa == fb;
  }

  /** The access key a callback echoes never matters: the merchant's own key is signed in its place. */
  lemma EchoedAccessKeyIgnored(cfg: Config, orders: map<int, Order>, l: Ledger, a: seq<(string, Scalar)>, b: seq<(string, Scalar)>)
    requires forall k :: k != "accessKey" ==> Get(a, k) == Get(b, k)
    ensures ProcessIpn(cfg, orders, l, a) == ProcessIpn(cfg, orders, l, b)
  {
    var ra := ReadIpn(cfg, a);
    assert ra == ReadIpn(cfg, b) by {
      IpnRawIgnoresAccessKey(cfg, a, b);
      assert Get(a, "signature") == Get(b, "signature");
      assert Get(a, "orderId") == Get(b, "orderId");
      assert Get(a, "amount") == Get(b, "amount");
      assert Get(a, "resultCode") == Get(b, "resultCode");
      assert Get(a, "transId") == Get(b, "transId");
    }
    assert ProcessIpn(cfg, orders, l, a) == IpnGates(orders, l, ra);
    assert ProcessIpn(cfg, orders, l, b) == IpnGates(orders, l, ra);
  }

  /**
   * A callback that echoes a payment's correlation id and amount and carries
   * the merchant's signature settles that payment: SUCCESS exactly when
   * resultCode is "0".
   */
  lemma GenuineIpnSettlesPayment(
    cfg: Config, orders: map<int, Order>, l: Ledger, ipn: seq<(string, Scalar)>,
    orderId: nat, paymentId: int)
    requires paymentId in l.rows && l.rows[paymentId].orderId == orderId && orderId in orders
    requires Get(ipn, "orderId") == Some(SStr(CorrelationId(orderId, paymentId)))
    requires Get(ipn, "amount") == Some(SInt(l.rows[paymentId].amount))
    requires SignatureText(Get(ipn, "signature")) == Some(ExpectedSignature(cfg, ipn))
    ensures var r := ProcessIpn(cfg, orders, l, ipn);
      && r.0.Ack? && r.0.code == 0
      && (r.1.rows[paymentId].status == Success <==> ResultCodeText(Get(ipn, "resultCode")) == "0")
  {
    var rd := ReadIpn(cfg, ipn);
    assert ParseCorrelation(rd.orderId) == Some((orderId, paymentId)) by {
      CorrelationRoundTrip(orderId, paymentId);
    }
    assert IpnAmount(rd.amount) == Some(l.rows[paymentId].amount);
    var code := ResultCodeText(rd.resultCode);
    var l1 := UpdatePaymentStatus(l, paymentId, SettledStatus(code), TransIdFor(rd.transId));
    assert IpnGates(orders, l, rd) == (Ack(0, if code == "0" then "Success" else "Payment failed"), l1);
    assert l1.rows[paymentId].status == SettledStatus(code);
  }

  // ---------------------------------------------------------------------
  // verifyReturn

  /** A query-string dict seen as callback fields: every value a string. */
  function AsScalars(d: seq<Pair>): (r: seq<(string, Scalar)>)
    ensures |r| == |d| && forall i :: 0 <= i < |d| ==> r[i] == (d[i].0, SStr(d[i].1))
    ensures forall k :: Get(r, k) == if Get(d, k).Some? then Some(SStr(Get(d, k).value)) else None
  {
    if |d| == 0 then []
    else
      var rest := AsScalars(d[1..]);
      assert Keys([(d[0].0, SStr(d[0].1))] + rest) == [d[0].0] + Keys(rest);
      assert Keys(d) == [d[0].0] + Keys(d[1..]);
      [(d[0].0, SStr(d[0].1))] + rest
  }

  /** What the return page shows; nothing here is written anywhere. */
  datatype ReturnView = ReturnView(
    ok: bool,
    resultCode: Option<string>,
    message: Option<string>,
    orderId: Option<string>,
    paymentId: Option<string>,
    amount: Option<string>,
    transId: Option<string>)

  /**
   * `verifyReturn(params)`: the same signature check as the IPN over the
   * query parameters, and the correlation id split once on `-` for display.
   */
  function VerifyReturn(cfg: Config, params: seq<Pair>): (r: ReturnView)
    ensures r.ok <==> ExpectedSignature(cfg, AsScalars(params)) == Strip(GetOrIfEmpty(params, "signature", ""))
    ensures r.orderId.Some? <==> r.paymentId.Some?
    ensures r.orderId.Some? ==>
      r.orderId.value + "-" + r.paymentId.value == GetOrIfEmpty(params, "orderId", "0-0") && '-' !in r.orderId.value
    ensures r.orderId.None? ==> '-' !in GetOrIfEmpty(params, "orderId", "0-0")
    ensures r.resultCode == Get(params, "resultCode") && r.amount == Get(params, "amount")
    ensures r.message == Get(params, "message") && r.transId == Get(params, "transId")
  {
    var ok := ExpectedSignature(cfg, AsScalars(params)) == Strip(GetOrIfEmpty(params, "signature", ""));
    var parts := SplitOnce(GetOrIfEmpty(params, "orderId", "0-0"), '-');
    var (o, p) := if |parts| == 2 then (Some(parts[0]), Some(parts[1])) else (None, None);
    ReturnView(ok, Get(params, "resultCode"), Get(params, "message"), o, p, Get(params, "amount"), Get(params, "transId"))
  }

  /** The return check accepts exactly the signatures the IPN handler accepts for the same fields. */
  lemma ReturnAgreesWithIpn(cfg: Config, orders: map<int, Order>, l: Ledger, params: seq<Pair>)
    ensures VerifyReturn(cfg, params).ok <==>
      !(ProcessIpn(cfg, orders, l, AsScalars(params)).0 == Ack(97, "Invalid signature"))
  {
    var sv := Get(AsScalars(params), "signature");
    assert SignatureText(sv) == Some(Strip(GetOrIfEmpty(params, "signature", "")));
  }
}
