/**
 * src/api/paymentApi.js: processPayment's request check, payload defaults and
 * result or error message, and getUserBalance's check and error message. The
 * HTTP exchange is an input: either no response at all, or a response with a
 * status and a body.
 */
module PaymentApi {
  import opened Wrappers
  import opened Strings
  import opened Js

  const MISSING_DATA := "Faltan datos requeridos para el pago"
  const SERVER_ERROR := "Error en el servidor"
  const CONNECTION_ERROR := "Error de conexión. Revise su red e intente nuevamente"
  const INVALID_PAYMENT := "Datos de pago inválidos"
  const USER_NOT_FOUND := "Usuario no encontrado. Por favor inicie sesión nuevamente"
  const INVALID_CREDENTIALS := "Credenciales inválidas"
  const INVALID_FORMAT := "Formato de saldo inválido"
  const SESSION_EXPIRED := "Sesión expirada o no autorizada"
  const BALANCE_ERROR := "Error obteniendo saldo"

  /** The argument of processPayment, and also the payload it posts. */
  datatype PaymentData = PaymentData(userEmail: Value, totalAmount: Value, cartItems: Value, ipCliente: Value, paymentMethod: Value)

  /** The fields of a response body the two functions read; a missing or null message is None. */
  datatype Body = Body(success: Value, newBalance: Value, message: Option<string>, membershipBalance: Value)

  /** How a request ends: no response (network failure, timeout), or a response with its status and body. */
  datatype HttpOutcome = NoResponse(message: Option<string>) | Response(status: nat, data: Option<Body>)

  /** A response that axios resolves with rather than rejects: a 2xx status. */
  predicate Resolved(outcome: HttpOutcome)
  {
    outcome.Response? && 200 <= outcome.status < 300
  }

  /** An error as a catch block sees it: its message and, for a rejected response, the response. */
  datatype JsError = JsError(message: Option<string>, response: Option<(nat, Option<Body>)>)

  /** The error axios rejects with. */
  function RequestError(outcome: HttpOutcome): (e: JsError)
    requires !Resolved(outcome)
    ensures outcome.NoResponse? ==> e.response.None? && e.message == outcome.message
    ensures outcome.Response? ==> e.response == Some((outcome.status, outcome.data))
  {
    match outcome
    case NoResponse(m) => JsError(m, None)
    case Response(s, d) => JsError(Some("Request failed with status code " + NatToString(s)), Some((s, d)))
  }

  /** `data?.message`. */
  function MessageOf(data: Option<Body>): Option<string>
  {
    if data.Some? then data.value.message else None
  }

  /** The payment request is complete: a record with a truthy email, total and item list. */
  predicate PaymentValid(data: Option<PaymentData>)
  {
    data.Some? && Truthy(data.value.userEmail) && Truthy(data.value.totalAmount) && Truthy(data.value.cartItems)
  }

  /** The payload: three fields copied and two defaulted. */
  function Payload(data: PaymentData): (p: PaymentData)
    ensures p.userEmail == data.userEmail && p.totalAmount == data.totalAmount && p.cartItems == data.cartItems
    ensures p.ipCliente == (if Truthy(data.ipCliente) then data.ipCliente else Str("unknown"))
    ensures p.paymentMethod == (if Truthy(data.paymentMethod) then data.paymentMethod else Str("membership"))
  {
    data.(ipCliente := Or(data.ipCliente, Str("unknown")), paymentMethod := Or(data.paymentMethod, Str("membership")))
  }

  /** A defaulted payload stays as it is when defaulted again. */
  lemma PayloadIdempotent(data: PaymentData)
    ensures Payload(Payload(data)) == Payload(data)
  {
  }

  /** The catch block of processPayment: the message of the error it throws. */
  function PaymentErrorMessage(e: JsError): (m: string)
    ensures e.response.Some? && e.response.value.0 == 400 ==> m == StringOr(MessageOf(e.response.value.1), INVALID_PAYMENT)
    ensures e.response.Some? && e.response.value.0 == 404 ==> m == USER_NOT_FOUND
    ensures e.response.Some? && e.response.value.0 != 400 && e.response.value.0 != 404 ==> m == CONNECTION_ERROR
    ensures e.response.None? ==> m == StringOr(e.message, CONNECTION_ERROR)
    ensures m != ""
  {
    var errorMessage := CONNECTION_ERROR;
    if e.response.Some? then
      var (status, data) := e.response.value;
      if status == 400 then StringOr(MessageOf(data), INVALID_PAYMENT)
      else if status == 404 then USER_NOT_FOUND
      else errorMessage
    else if e.message.Some? && e.message.value != "" then e.message.value
    else errorMessage
  }

  datatype PaymentResult = Paid(newBalance: Value, message: Option<string>) | PaymentError(error: string)

  /** What processPayment posted, if anything, and how it ended. */
  datatype PaymentAttempt = PaymentAttempt(sent: Option<PaymentData>, result: PaymentResult)

  /** processPayment, for the given outcome of the post. */
  function ProcessPayment(data: Option<PaymentData>, outcome: HttpOutcome): (a: PaymentAttempt)
    ensures a.sent.Some? <==> PaymentValid(data)
    ensures a.sent.Some? ==> a.sent.value == Payload(data.value)
    ensures !PaymentValid(data) ==> a.result == PaymentError(MISSING_DATA)
  {
    if !PaymentValid(data) then
      PaymentAttempt(None, PaymentError(PaymentErrorMessage(JsError(Some(MISSING_DATA), None))))
    else
      var payload := Payload(data.value);
      if !Resolved(outcome) then
        PaymentAttempt(Some(payload), PaymentError(PaymentErrorMessage(RequestError(outcome))))
      else if outcome.data.None? || !Truthy(outcome.data.value.success) then
        var thrown := JsError(Some(StringOr(MessageOf(outcome.data), SERVER_ERROR)), None);
        PaymentAttempt(Some(payload), PaymentError(PaymentErrorMessage(thrown)))
      else
        PaymentAttempt(Some(payload), Paid(outcome.data.value.newBalance, outcome.data.value.message))
  }

  /** A total of 0 is falsy, so such a payment is refused before anything is sent. */
  lemma ZeroTotalRejected(data: PaymentData, outcome: HttpOutcome)
    requires data.totalAmount == Num(0)
    ensures ProcessPayment(Some(data), outcome) == PaymentAttempt(None, PaymentError(MISSING_DATA))
  {
  }

  /** A 2xx response whose body has a truthy success flag pays, with its balance and message as given. */
  lemma SuccessCopiesBody(data: PaymentData, status: nat, body: Body)
    requires PaymentValid(Some(data)) && 200 <= status < 300 && Truthy(body.success)
    ensures ProcessPayment(Some(data), Response(status, Some(body))).result == Paid(body.newBalance, body.message)
  {
  }

  /** A 2xx response without a truthy success flag fails with the body's message, or the server-error text. */
  lemma UnsuccessfulBody(data: PaymentData, status: nat, body: Option<Body>)
    requires PaymentValid(Some(data)) && 200 <= status < 300
    requires body.None? || !Truthy(body.value.success)
    ensures ProcessPayment(Some(data), Response(status, body)).result == PaymentError(StringOr(MessageOf(body), SERVER_ERROR))
  {
  }

  /** The rejected statuses: 400 uses the body's message, 404 a fixed text, and any other the connection text. */
  lemma RejectedStatusMessages(data: PaymentData, status: nat, body: Option<Body>)
    requires PaymentValid(Some(data)) && !(200 <= status < 300)
    ensures var r := ProcessPayment(Some(data), Response(status, body)).result;
            && r.PaymentError?
            && (status == 400 ==> r.error == StringOr(MessageOf(body), INVALID_PAYMENT))
            && (status == 404 ==> r.error == USER_NOT_FOUND)
            && (status != 400 && status != 404 ==> r.error == CONNECTION_ERROR)
  {
  }

  /** Without a response the error keeps its own message, or falls back to the connection text. */
  lemma NoResponseMessage(data: PaymentData, message: Option<string>)
    requires PaymentValid(Some(data))
    ensures ProcessPayment(Some(data), NoResponse(message)).result == PaymentError(StringOr(message, CONNECTION_ERROR))
  {
  }

  /** A payment succeeds only after a 2xx response with a truthy success flag. */
  lemma PaidOnlyOnSuccess(data: Option<PaymentData>, outcome: HttpOutcome)
    requires ProcessPayment(data, outcome).result.Paid?
    ensures PaymentValid(data) && Resolved(outcome) && outcome.data.Some? && Truthy(outcome.data.value.success)
  {
  }

  /** The check getUserBalance makes of its argument: a string with an '@' in it. */
  predicate EmailValid(email: Value)
  {
    Truthy(email) && email.Str? && Contains(email.s, "@")
  }

  /** The catch block of getUserBalance: the server's message first, then one keyed on status 401. */
  function BalanceErrorMessage(e: JsError): (m: string)
    ensures e.response.Some? && MessageOf(e.response.value.1).Some? && MessageOf(e.response.value.1).value != "" ==>
              m == MessageOf(e.response.value.1).value
    ensures e.response.Some? && StringOr(MessageOf(e.response.value.1), "") == "" ==>
              m == (if e.response.value.0 == 401 then SESSION_EXPIRED else BALANCE_ERROR)
    ensures e.response.None? ==> m == BALANCE_ERROR
    ensures m != ""
  {
    var defaultMessage := if e.response.Some? && e.response.value.0 == 401 then SESSION_EXPIRED else BALANCE_ERROR;
    StringOr(if e.response.Some? then MessageOf(e.response.value.1) else None, defaultMessage)
  }

  datatype BalanceResult = BalanceOk(balance: Value) | BalanceError(message: string)

  /** Whether getUserBalance sent its request, and how it ended. */
  datatype BalanceAttempt = BalanceAttempt(sent: bool, result: BalanceResult)

  /** getUserBalance, for the given outcome of the request. */
  function GetUserBalance(email: Value, outcome: HttpOutcome): (a: BalanceAttempt)
    ensures a.sent <==> EmailValid(email)
    ensures a.result.BalanceOk? ==> IsNumber(a.result.balance)
    ensures a.result.BalanceOk? <==>
              EmailValid(email) && Resolved(outcome) && outcome.data.Some? && IsNumber(outcome.data.value.membershipBalance)
    ensures a.result.BalanceOk? ==> a.result.balance == outcome.data.value.membershipBalance
  {
    if !EmailValid(email) then
      BalanceAttempt(false, BalanceError(BalanceErrorMessage(JsError(Some(INVALID_CREDENTIALS), None))))
    else if !Resolved(outcome) then
      BalanceAttempt(true, BalanceError(BalanceErrorMessage(RequestError(outcome))))
    else if outcome.data.None? || !IsNumber(outcome.data.value.membershipBalance) then
      BalanceAttempt(true, BalanceError(BalanceErrorMessage(JsError(Some(INVALID_FORMAT), None))))
    else
      BalanceAttempt(true, BalanceOk(outcome.data.value.membershipBalance))
  }

  /**
   * The messages of the two checks getUserBalance makes itself are replaced by
   * the generic one: an invalid email and a malformed balance both read 'Error obteniendo saldo'.
   */
  lemma OwnChecksReadGeneric(email: Value, outcome: HttpOutcome)
    ensures !EmailValid(email) ==> GetUserBalance(email, outcome).result == BalanceError(BALANCE_ERROR)
    ensures EmailValid(email) && Resolved(outcome) && (outcome.data.None? || !IsNumber(outcome.data.value.membershipBalance)) ==>
              GetUserBalance(email, outcome).result == BalanceError(BALANCE_ERROR)
  {
  }

  /** Rejected statuses: the server's message if it has one, else 401 reads as an expired session and the rest as the generic text. */
  lemma BalanceRejectedMessages(email: Value, status: nat, body: Option<Body>)
    requires EmailValid(email) && !(200 <= status < 300)
    ensures var r := GetUserBalance(email, Response(status, body)).result;
            && r.BalanceError?
            && (StringOr(MessageOf(body), "") != "" ==> r.message == MessageOf(body).value)
            && (StringOr(MessageOf(body), "") == "" && status == 401 ==> r.message == SESSION_EXPIRED)
            && (StringOr(MessageOf(body), "") == "" && status != 401 ==> r.message == BALANCE_ERROR)
  {
  }

  /** Without a response the error's own message is dropped for the generic one. */
  lemma BalanceNoResponse(email: Value, message: Option<string>)
    requires EmailValid(email)
    ensures GetUserBalance(email, NoResponse(message)).result == BalanceError(BALANCE_ERROR)
  {
  }

  /** 'Credenciales inválidas' never reaches the caller unless the server itself sends that text. */
  lemma InvalidCredentialsNeverSurfaces(email: Value, outcome: HttpOutcome)
    requires GetUserBalance(email, outcome).result == BalanceError(INVALID_CREDENTIALS)
    ensures outcome.Response? && MessageOf(outcome.data) == Some(INVALID_CREDENTIALS)
  {
  }
}
