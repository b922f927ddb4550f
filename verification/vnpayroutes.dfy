/**
 * The two VNPay callback routes. Both run the writing reconciliation of
 * `processReturnUrl`; the IPN route turns its outcome into VNPay's
 * acknowledgement, the browser-return route into a page chosen by the
 * payment's status after the write.
 */
module VnpayRoutes {
  import opened Wrappers
  import opened PyText
  import opened Dict
  import opened Models
  import opened PaymentDao
  import opened VnpayService

  /** The JSON acknowledgement, always sent with HTTP 200, or an uncaught exception (HTTP 500). */
  datatype IpnAnswer = Ack(rspCode: string, message: string) | IpnServerError

  /** `vnp_ipn`: `None` → 97, an `"error"` entry → 99 with its text, anything else → 00. */
  function VnpIpn(cfg: Config, orders: map<int, Order>, l: Ledger, params: Dict): (r: (IpnAnswer, Ledger))
    ensures r.0 == IpnServerError <==> ProcessReturnUrl(cfg, orders, l, params).0 == ReturnCrash
    ensures r.0 == Ack("97", "Invalid signature") <==>
      !SignatureMatches(cfg, params) || ParseOrderInfo(GetOrIfEmpty(params, "vnp_OrderInfo", "0-0")).None?
    ensures r.0.Ack? ==> r.0.rspCode in {"97", "99", "00"}
    ensures r.0.Ack? && r.0.rspCode == "00" ==> r.0.message == "Confirm Success" && "error" !in Keys(params)
    ensures r.0.Ack? && r.0.rspCode == "00" ==> ProcessReturnUrl(cfg, orders, l, params).0.Settled?
    ensures r.0.Ack? && r.0.rspCode == "99" ==>
      var o := ProcessReturnUrl(cfg, orders, l, params).0;
      (o.Mismatch? || o.Settled?) && Some(r.0.message) == ErrorOf(o)
    ensures r.1 != l ==> ProcessReturnUrl(cfg, orders, l, params).0.Settled?
    ensures var o := ProcessReturnUrl(cfg, orders, l, params).0;
      (o.Mismatch? || o.Settled?) && ErrorOf(o).Some? ==> r.0 == Ack("99", ErrorOf(o).value)
    ensures var o := ProcessReturnUrl(cfg, orders, l, params).0;
      (o.Mismatch? || o.Settled?) && ErrorOf(o).None? ==> r.0 == Ack("00", "Confirm Success")
  {
    var r := ProcessReturnUrl(cfg, orders, l, params);
    assert r.0.Settled? && ErrorOf(r.0).None? ==> "error" !in Keys(params) by {
      if r.0.Settled? && ErrorOf(r.0).None? {
        assert Get(params, "error").None?;
      }
    }
    (Acknowledge(r.0), r.1)
  }

  /** The acknowledgement for one reconciliation outcome. */
  function Acknowledge(outcome: ReturnOutcome): (r: IpnAnswer)
    ensures r == IpnServerError <==> outcome == ReturnCrash
    ensures r == Ack("97", "Invalid signature") <==> outcome == BadSignature || outcome == BadOrderInfo
    ensures r.Ack? ==> r.rspCode in {"97", "99", "00"}
    ensures r.Ack? && r.rspCode == "00" ==> r.message == "Confirm Success" && outcome.Settled? && ErrorOf(outcome).None?
    ensures r.Ack? && r.rspCode == "99" ==> (outcome.Mismatch? || outcome.Settled?) && Some(r.message) == ErrorOf(outcome)
    ensures (outcome.Mismatch? || outcome.Settled?) && ErrorOf(outcome).Some? ==> r == Ack("99", ErrorOf(outcome).value)
    ensures (outcome.Mismatch? || outcome.Settled?) && ErrorOf(outcome).None? ==> r == Ack("00", "Confirm Success")
  {
    match outcome
    case ReturnCrash => IpnServerError
    case BadSignature => Ack("97", "Invalid signature")
    case BadOrderInfo => Ack("97", "Invalid signature")
    case _ =>
      match ErrorOf(outcome)
      case Some(e) => Ack("99", e)
      case None => Ack("00", "Confirm Success")
  }

  /**
   * The acknowledgement does not say whether the ledger was written: a
   * settled callback that also carries a parameter named `error` is
   * answered 99 with that parameter's text.
   */
  lemma ErrorParamMasksSettlement(cfg: Config, orders: map<int, Order>, l: Ledger, params: Dict, e: string)
    requires ProcessReturnUrl(cfg, orders, l, params).0.Settled?
    requires Get(params, "error") == Some(e)
    ensures VnpIpn(cfg, orders, l, params).0 == Ack("99", e)
  {
    assert ErrorOf(ProcessReturnUrl(cfg, orders, l, params).0) == Some(e);
  }

  /** A redelivered IPN gets the same acknowledgement and leaves the ledger as the first delivery did. */
  lemma IpnRedeliveryIsHarmless(cfg: Config, orders: map<int, Order>, l: Ledger, params: Dict)
    ensures var first := VnpIpn(cfg, orders, l, params);
      VnpIpn(cfg, orders, first.1, params) == first
  {
    var p1 := ProcessReturnUrl(cfg, orders, l, params);
    ReturnIdempotent(cfg, orders, l, params);
    assert VnpIpn(cfg, orders, l, params) == (Acknowledge(p1.0), p1.1);
    assert VnpIpn(cfg, orders, p1.1, params) == (Acknowledge(p1.0), p1.1);
  }

  /** The pages the browser-return route renders. */
  datatype ReturnPage = BadSignaturePage | NotFoundPage | PaidPage | PendingPage | FailedPage {
    function Message(): string {
      match this
      case BadSignaturePage => "Yêu cầu không hợp lệ (signature sai)."
      case NotFoundPage => "Không tìm thấy giao dịch. Vui lòng thử lại."
      case PaidPage => "Thanh toán thành công 🎉"
      case PendingPage => "Đang xác nhận thanh toán… (vui lòng đợi vài giây)"
      case FailedPage => "Thanh toán thất bại."
    }

    /** Only a bad signature and a missing payment are HTTP errors; every status page is 200. */
    function Http(): (code: int)
      ensures code == 200 <==> this in {PaidPage, PendingPage, FailedPage}
    {
      match this
      case BadSignaturePage => 400
      case NotFoundPage => 404
      case _ => 200
    }
  }

  /**
   * `order_id, payment_id = map(int, params.get("vnp_OrderInfo", "0-0").split("-"))`,
   * both falling back to 0 when that raises.
   */
  function ReturnIds(params: Dict): (r: (int, int))
    ensures ParseOrderInfo(GetOr(params, "vnp_OrderInfo", "0-0")).Some? ==> r == ParseOrderInfo(GetOr(params, "vnp_OrderInfo", "0-0")).value
    ensures ParseOrderInfo(GetOr(params, "vnp_OrderInfo", "0-0")).None? ==> r == (0, 0)
  {
    match ParseOrderInfo(GetOr(params, "vnp_OrderInfo", "0-0"))
    case Some(ids) => ids
    case None => (0, 0)
  }

  /**
   * `vnp_return`: run the reconciliation, then choose the page from its
   * outcome and from the status the ledger holds afterwards. `None` is an
   * uncaught exception.
   */
  function VnpReturn(cfg: Config, orders: map<int, Order>, l: Ledger, params: Dict): (r: (Option<ReturnPage>, Ledger))
    ensures r.1 == ProcessReturnUrl(cfg, orders, l, params).1
    ensures r.0.None? <==> ProcessReturnUrl(cfg, orders, l, params).0 == ReturnCrash
    ensures r.0 == Some(BadSignaturePage) <==>
      !SignatureMatches(cfg, params) || ParseOrderInfo(GetOrIfEmpty(params, "vnp_OrderInfo", "0-0")).None?
    ensures r.0.Some? && r.0 != Some(BadSignaturePage) ==>
      var pid := ReturnIds(params).1;
      && (r.0 == Some(NotFoundPage) <==> pid !in r.1.rows)
      && (r.0 == Some(PaidPage) <==> pid in r.1.rows && r.1.rows[pid].status == Success)
      && (r.0 == Some(PendingPage) <==> pid in r.1.rows && r.1.rows[pid].status == Pending)
      && (r.0 == Some(FailedPage) <==> pid in r.1.rows && r.1.rows[pid].status in {Failed, Refunded})
  {
    var r := ProcessReturnUrl(cfg, orders, l, params);
    (PageFor(r.0, r.1.rows, ReturnIds(params).1), r.1)
  }

  /** The page for one reconciliation outcome, from the status the payment has afterwards. */
  function PageFor(outcome: ReturnOutcome, rows: map<int, Payment>, pid: int): (p: Option<ReturnPage>)
    ensures p.None? <==> outcome == ReturnCrash
    ensures p == Some(BadSignaturePage) <==> outcome == BadSignature || outcome == BadOrderInfo
    ensures p.Some? && p != Some(BadSignaturePage) ==>
      && (p == Some(NotFoundPage) <==> pid !in rows)
      && (p == Some(PaidPage) <==> pid in rows && rows[pid].status == Success)
      && (p == Some(PendingPage) <==> pid in rows && rows[pid].status == Pending)
      && (p == Some(FailedPage) <==> pid in rows && rows[pid].status in {Failed, Refunded})
  {
    if outcome == ReturnCrash then None
    else if outcome == BadSignature || outcome == BadOrderInfo then Some(BadSignaturePage)
    else if pid !in rows then Some(NotFoundPage)
    else
      match rows[pid].status
      case Success => Some(PaidPage)
      case Pending => Some(PendingPage)
      case _ => Some(FailedPage)
  }

  /** The fallback text `"0-0"` reads as the ids (0, 0). */
  lemma DefaultOrderInfo()
    ensures ParseOrderInfo("0-0") == Some((0, 0))
  {
    assert IntToString(0) == "0" by {
      assert NatToString(0) == [DigitChar(0)];
    }
    assert CorrelationId(0, 0) == "0-0";
    OrderInfoRoundTrip(0, 0);
  }

  /**
   * The ids the page looks up are the ones the reconciliation settled,
   * although one reads `get(k, "0-0")` and the other `get(k) or "0-0"`.
   */
  lemma ReturnIdsAgree(params: Dict)
    requires ParseOrderInfo(GetOrIfEmpty(params, "vnp_OrderInfo", "0-0")).Some?
    ensures ReturnIds(params) == ParseOrderInfo(GetOrIfEmpty(params, "vnp_OrderInfo", "0-0")).value
  {
    if Get(params, "vnp_OrderInfo") == Some("") {
      EmptyOrderInfoReadsZero(params);
      DefaultOrderInfo();
    } else {
      assert GetOr(params, "vnp_OrderInfo", "0-0") == GetOrIfEmpty(params, "vnp_OrderInfo", "0-0");
    }
  }

  /** An empty `vnp_OrderInfo` cannot be split in two, so the page falls back to (0, 0). */
  lemma EmptyOrderInfoReadsZero(params: Dict)
    requires Get(params, "vnp_OrderInfo") == Some("")
    ensures ReturnIds(params) == (0, 0)
  {
    assert GetOr(params, "vnp_OrderInfo", "0-0") == "";
    assert Split("", '-') == [""];
  }

  /** A genuine return for a payment that VNPay reports as paid shows the success page. */
  lemma GenuinePaidReturnShowsSuccess(
    cfg: Config, orders: map<int, Order>, l: Ledger, orderId: nat, paymentId: nat, extra: Dict)
    requires paymentId in l.rows && orderId in orders && l.rows[paymentId].orderId == orderId
    requires Get(extra, "vnp_OrderInfo") == Some(CorrelationId(orderId, paymentId))
    requires Get(extra, "vnp_Amount") == Some(VnpAmount(l.rows[paymentId].amount))
    requires Get(extra, "vnp_TransactionStatus") == Some("00") && Get(extra, "vnp_ResponseCode") == Some("00")
    requires "vnp_SecureHash" !in Keys(extra) && "vnp_SecureHashType" !in Keys(extra)
    ensures VnpReturn(cfg, orders, l, WithHash(extra, Sign(cfg, extra))).0 == Some(PaidPage)
  {
    var params := WithHash(extra, Sign(cfg, extra));
    CreatedPaymentSettles(cfg, orders, l, orderId, paymentId, extra);
    OrderInfoRoundTrip(orderId, paymentId);
    assert Get(params, "vnp_OrderInfo") == Some(CorrelationId(orderId, paymentId));
    ReturnIdsAgree(params);
    assert ReturnIds(params) == (orderId, paymentId);
  }
}
