/**
 * Course purchase through PayPal: creating an order records a pending payment, and
 * capturing it copies the gateway's status, lower-cased, onto that payment. The gateway's
 * replies are inputs: a reply is either the decoded JSON body or the text of the exception
 * the gateway client raised.
 */
module Payments {
  import opened Wrappers
  import opened Text
  import opened Courses

  /** One entry of an order's `links`; either key may be absent. */
  datatype Link = Link(rel: Option<string>, href: Option<string>)

  /** The keys of a create-order reply that the handler reads. */
  datatype OrderReply = OrderReply(id: Option<string>, links: Option<seq<Link>>, status: Option<string>)

  /** The key of a capture reply that the handler reads. */
  datatype CaptureReply = CaptureReply(status: Option<string>)

  datatype CreateOrderRequest = CreateOrderRequest(courseId: int, amount: real, currency: string)

  datatype CreateOrderResponse = CreateOrderResponse(orderId: string, approvalUrl: string, status: string)

  datatype CaptureResponse = CaptureResponse(orderId: string, status: string)

  /** A row of the payments table. */
  datatype Payment = Payment(
    userId: string,
    courseId: int,
    amount: real,
    currency: string,
    paypalOrderId: string,
    status: string)

  const Pending := "pending"

  /** The text Python prints for a missing dictionary key. */
  function KeyErrorText(key: string): string {
    "'" + key + "'"
  }

  // ---------------------------------------------------------------------------
  // the approval link

  /** The position of the first link whose `rel` is `approve`. */
  function FirstApproveIndex(links: seq<Link>): (r: Option<nat>)
    ensures r.Some? ==>
      && r.value < |links| && links[r.value].rel == Some("approve")
      && forall j :: 0 <= j < r.value ==> links[j].rel != Some("approve")
    ensures r.None? <==> forall j :: 0 <= j < |links| ==> links[j].rel != Some("approve")
  {
    if links == [] then None
    else if links[0].rel == Some("approve") then Some(0)
    else
      match FirstApproveIndex(links[1..])
      case None =>
        assert forall j :: 0 < j < |links| ==> links[j] == links[1..][j - 1];
        None
      case Some(i) =>
        assert forall j :: 0 < j < i + 1 ==> links[j] == links[1..][j - 1];
        Some(i + 1)
  }

  /** The approval URL: the `href` of the first `approve` link, even when that `href` is
      missing and a later `approve` link has one. */
  function ApprovalUrl(links: seq<Link>): Option<string> {
    match FirstApproveIndex(links)
    case None => None
    case Some(i) => links[i].href
  }

  lemma FirstApproveIs(links: seq<Link>, i: nat)
    requires i < |links| && links[i].rel == Some("approve")
    requires forall j :: 0 <= j < i ==> links[j].rel != Some("approve")
    ensures FirstApproveIndex(links) == Some(i)
  {
  }

  /** Only the first `approve` link counts; the ones after it are never looked at. */
  lemma ApprovalUrlIgnoresLaterLinks(links: seq<Link>, more: seq<Link>)
    requires FirstApproveIndex(links).Some?
    ensures ApprovalUrl(links + more) == ApprovalUrl(links)
  {
    var i := FirstApproveIndex(links).value;
    assert (links + more)[i] == links[i];
    FirstApproveIs(links + more, i);
  }

  /** The search loop over `links`, leaving it at the first `approve` link. */
  method FindApprovalUrl(links: seq<Link>) returns (url: Option<string>)
    ensures url == ApprovalUrl(links)
  {
    url := None;
    var i := 0;
    while i < |links|
      invariant 0 <= i <= |links|
      invariant forall j :: 0 <= j < i ==> links[j].rel != Some("approve")
      invariant url == None
    {
      if links[i].rel == Some("approve") {
        url := links[i].href;
        FirstApproveIs(links, i);
        return;
      }
      i := i + 1;
    }
  }

  // ---------------------------------------------------------------------------
  // the payments table

  /** The row recording the order with that gateway id. */
  function FindPayment(payments: seq<Payment>, orderId: string): (r: Option<nat>)
    ensures r.Some? ==> r.value < |payments| && payments[r.value].paypalOrderId == orderId
    ensures r.None? <==> forall j :: 0 <= j < |payments| ==> payments[j].paypalOrderId != orderId
  {
    if payments == [] then None
    else if payments[0].paypalOrderId == orderId then Some(0)
    else
      match FindPayment(payments[1..], orderId)
      case None =>
        assert forall j :: 0 < j < |payments| ==> payments[j] == payments[1..][j - 1];
        None
      case Some(i) => Some(i + 1)
  }

  ghost predicate UniqueOrderIds(payments: seq<Payment>) {
    forall i, j :: 0 <= i < j < |payments| ==> payments[i].paypalOrderId != payments[j].paypalOrderId
  }

  /** The part of order creation before the insert: the course must exist and the gateway
      must have answered with an order id that is not yet recorded. */
  function CreateOrderPrecheck(payments: seq<Payment>, courses: seq<Course>, request: CreateOrderRequest,
                               reply: Result<OrderReply, string>, integrityError: string)
    : (r: Result<string, HttpError>)
    ensures GetCourseById(courses, request.courseId).Failure? ==> r == Failure(HttpError(404, "Course not found"))
    ensures GetCourseById(courses, request.courseId).Success? && reply.Failure? ==>
      r == Failure(HttpError(400, "Failed to create order: " + reply.error))
    ensures GetCourseById(courses, request.courseId).Success? && reply.Success? && reply.value.id.None? ==>
      r == Failure(HttpError(400, "Failed to create order: " + KeyErrorText("id")))
    ensures GetCourseById(courses, request.courseId).Success? && reply.Success? && reply.value.id.Some? ==>
      && (FindPayment(payments, reply.value.id.value).Some? ==>
          r == Failure(HttpError(400, "Failed to create order: " + integrityError)))
      && (FindPayment(payments, reply.value.id.value).None? ==> r == Success(reply.value.id.value))
    ensures r.Success? ==>
      && GetCourseById(courses, request.courseId).Success?
      && reply.Success? && reply.value.id == Some(r.value)
      && FindPayment(payments, r.value).None?
    ensures r.Failure? ==> r.error.status == 404 || r.error.status == 400
  {
    if GetCourseById(courses, request.courseId).Failure? then Failure(HttpError(404, "Course not found"))
    else if reply.Failure? then Failure(HttpError(400, "Failed to create order: " + reply.error))
    else if reply.value.id.None? then Failure(HttpError(400, "Failed to create order: " + KeyErrorText("id")))
    else if FindPayment(payments, reply.value.id.value).Some? then
      Failure(HttpError(400, "Failed to create order: " + integrityError))
    else Success(reply.value.id.value)
  }

  /** The part of order creation after the commit: the approval URL and the status. */
  function CreateOrderAnswer(orderId: string, reply: OrderReply): (r: Result<CreateOrderResponse, HttpError>)
    ensures r.Success? <==> !Falsy(ApprovalUrl(if reply.links.Some? then reply.links.value else [])) && reply.status.Some?
    ensures r.Success? ==>
      && r.value.orderId == orderId && Some(r.value.status) == reply.status
      && Some(r.value.approvalUrl) == ApprovalUrl(if reply.links.Some? then reply.links.value else [])
    ensures r.Failure? ==> r.error.status == 400
  {
    var url := ApprovalUrl(if reply.links.Some? then reply.links.value else []);
    if Falsy(url) then Failure(HttpError(400, "No approval URL found in PayPal response"))
    else if reply.status.None? then Failure(HttpError(400, "Failed to create order: " + KeyErrorText("status")))
    else Success(CreateOrderResponse(orderId, url.value, reply.status.value))
  }

  /** The status a capture writes: the gateway's status, lower-cased. */
  function CapturedStatus(gatewayStatus: string): (s: string)
    ensures |s| == |gatewayStatus|
    ensures forall i :: 0 <= i < |s| ==> s[i] == LowerChar(gatewayStatus[i])
    ensures forall i :: 0 <= i < |s| ==> !('A' <= s[i] <= 'Z')
  {
    LowerAscii(gatewayStatus)
  }

  class PaymentTable {
    var payments: seq<Payment>

    /** The gateway order id of a payment is unique. */
    ghost predicate Valid()
      reads this
    {
      UniqueOrderIds(payments)
    }

    constructor ()
      ensures Valid() && payments == []
    {
      payments := [];
    }

    /** `create_paypal_order`. A failure before the insert writes nothing; otherwise the
        pending payment is committed, and stays, even when the approval URL or the status is
        then found missing. */
    method CreatePaypalOrder(courses: seq<Course>, userId: string, request: CreateOrderRequest,
                             reply: Result<OrderReply, string>, integrityError: string)
      returns (r: Result<CreateOrderResponse, HttpError>)
      requires Valid()
      modifies this
      ensures Valid()
      ensures CreateOrderPrecheck(old(payments), courses, request, reply, integrityError).Failure? ==>
        && r == Failure(CreateOrderPrecheck(old(payments), courses, request, reply, integrityError).error)
        && payments == old(payments)
      ensures CreateOrderPrecheck(old(payments), courses, request, reply, integrityError).Success? ==>
        var orderId := CreateOrderPrecheck(old(payments), courses, request, reply, integrityError).value;
        && payments == old(payments) + [Payment(userId, request.courseId, request.amount, request.currency, orderId, Pending)]
        && r == CreateOrderAnswer(orderId, reply.value)
    {
      var check := CreateOrderPrecheck(payments, courses, request, reply, integrityError);
      if check.Failure? {
        return Failure(check.error);
      }
      var orderId := check.value;
      var payment := Payment(userId, request.courseId, request.amount, request.currency, orderId, Pending);
      FindPaymentNoneFresh(payments, orderId);
      payments := payments + [payment];
      var url := FindApprovalUrl(if reply.value.links.Some? then reply.value.links.value else []);
      if Falsy(url) {
        return Failure(HttpError(400, "No approval URL found in PayPal response"));
      }
      if reply.value.status.None? {
        return Failure(HttpError(400, "Failed to create order: " + KeyErrorText("status")));
      }
      r := Success(CreateOrderResponse(orderId, url.value, reply.value.status.value));
    }

    /** `capture_paypal_order`. An unknown order is a 404 and a failed capture a 400, both
        without writes; otherwise exactly that payment's status changes. */
    method CapturePaypalOrder(orderId: string, reply: Result<CaptureReply, string>)
      returns (r: Result<CaptureResponse, HttpError>)
      requires Valid()
      modifies this
      ensures Valid()
      ensures FindPayment(old(payments), orderId).None? ==>
        r == Failure(HttpError(404, "Payment not found")) && payments == old(payments)
      ensures FindPayment(old(payments), orderId).Some? && reply.Failure? ==>
        r == Failure(HttpError(400, "Failed to capture order: " + reply.error)) && payments == old(payments)
      ensures FindPayment(old(payments), orderId).Some? && reply.Success? && reply.value.status.None? ==>
        r == Failure(HttpError(400, "Failed to capture order: " + KeyErrorText("status"))) && payments == old(payments)
      ensures FindPayment(old(payments), orderId).Some? && reply.Success? && reply.value.status.Some? ==>
        var i := FindPayment(old(payments), orderId).value;
        && payments == old(payments)[i := old(payments)[i].(status := CapturedStatus(reply.value.status.value))]
        && r == Success(CaptureResponse(orderId, reply.value.status.value))
    {
      var found := FindPayment(payments, orderId);
      if found.None? {
        return Failure(HttpError(404, "Payment not found"));
      }
      if reply.Failure? {
        return Failure(HttpError(400, "Failed to capture order: " + reply.error));
      }
      if reply.value.status.None? {
        return Failure(HttpError(400, "Failed to capture order: " + KeyErrorText("status")));
      }
      var i := found.value;
      payments := payments[i := payments[i].(status := CapturedStatus(reply.value.status.value))];
      r := Success(CaptureResponse(orderId, reply.value.status.value));
    }
  }

  lemma FindPaymentNoneFresh(payments: seq<Payment>, orderId: string)
    requires UniqueOrderIds(payments) && FindPayment(payments, orderId).None?
    ensures forall p: Payment :: p.paypalOrderId == orderId ==> UniqueOrderIds(payments + [p])
  {
    forall p: Payment | p.paypalOrderId == orderId ensures UniqueOrderIds(payments + [p]) {
      var s := payments + [p];
      forall i, j | 0 <= i < j < |s| ensures s[i].paypalOrderId != s[j].paypalOrderId {
        if j == |payments| {
          assert s[i] == payments[i];
        } else {
          assert s[i] == payments[i] && s[j] == payments[j];
        }
      }
    }
  }
}
