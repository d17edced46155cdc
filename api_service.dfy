/**
 * The exchange-facing helpers of api/api_get_balances.py and
 * api/api_service_backup.py (the second an extended copy of the first):
 * credential lookup, the rate-limit warning, and the defaults `ApiHandler`
 * returns when a call to the exchange fails.
 *
 * Environment variables, response headers and the outcome of each exchange
 * call are parameters.
 */
module ApiService {
  import opened Common
  import opened Text

  /**
   * `get_api_credentials`: API_KEY and API_SECRET, or ValueError when
   * either is unset or empty.
   */
  function GetApiCredentials(key: Option<string>, secret: Option<string>): (r: Result<(string, string)>)
    ensures r.Err? <==> key.None? || key.value == "" || secret.None? || secret.value == ""
  {
    if key.None? || key.value == "" || secret.None? || secret.value == "" then
      Err("ValueError: API_KEY dan API_SECRET harus disetel dalam environment variables")
    else Ok((key.value, secret.value))
  }

  /** Set credentials come back unchanged and in order: key first, secret second. */
  lemma CredentialsReturned(key: string, secret: string)
    requires key != "" && secret != ""
    ensures GetApiCredentials(Some(key), Some(secret)) == Ok((key, secret))
    ensures GetApiCredentials(Some(key), None).Err? && GetApiCredentials(None, Some(secret)).Err?
  {
  }

  /** `int(headers.get(name, 0))`: a missing header counts as 0; text `int()` refuses raises ValueError. */
  function HeaderInt(header: Option<string>): Option<int>
  {
    match header
    case None => Some(0)
    case Some(text) => ParseInt(text)
  }

  /** The budget a warning is measured against: 10 for private calls, 100 for any other. */
  function RateLimitThreshold(apiType: string): int
  {
    if apiType == "private" then 10 else 100
  }

  /**
   * `check_rate_limit`: whether it warns. It warns when fewer than a tenth of
   * the threshold's requests remain; either header failing to parse raises.
   */
  function CheckRateLimit(remaining: Option<string>, reset: Option<string>, apiType: string): (r: Result<bool>)
    ensures r.Err? <==> HeaderInt(remaining).None? || HeaderInt(reset).None?
    ensures r.Ok? ==> (r.value <==> HeaderInt(remaining).value * 10 < RateLimitThreshold(apiType))
  {
    match HeaderInt(remaining)
    case None => Err("ValueError: invalid literal for int()")
    case Some(left) =>
      if HeaderInt(reset).None? then Err("ValueError: invalid literal for int()")
      else Ok(left * 10 < RateLimitThreshold(apiType))
  }

  /**
   * The warning fires for private calls exactly when no request is left,
   * for other calls when fewer than 10 are, and always when the remaining
   * header is missing.
   */
  lemma CheckRateLimitThresholds(n: nat, resetHeader: Option<string>)
    requires HeaderInt(resetHeader).Some?
    ensures CheckRateLimit(Some(ShowInt(n)), resetHeader, "private") == Ok(n == 0)
    ensures forall t :: t != "private" ==> CheckRateLimit(Some(ShowInt(n)), resetHeader, t) == Ok(n < 10)
    ensures forall t :: CheckRateLimit(None, resetHeader, t) == Ok(true)
  {
    ParseShowInt(n);
  }

  /** What an `ApiHandler` order call returns: the exchange's reply, or the dict `{"error": message}`. */
  datatype OrderReply<T> = Reply(response: T) | ErrorDict(error: string)

  /** `cancel_order`: the reply, or `{"error": "Gagal membatalkan order"}` when the call raised. */
  function CancelOrder<T>(call: Result<T>): (r: OrderReply<T>)
    ensures r.Reply? <==> call.Ok?
    ensures call.Ok? ==> r.response == call.value
    ensures call.Err? ==> r.error == "Gagal membatalkan order"
  {
    if call.Ok? then Reply(call.value) else ErrorDict("Gagal membatalkan order")
  }

  /** `place_order`: the order, or `{"error": "Gagal membuat order"}` when the call raised. */
  function PlaceOrder<T>(call: Result<T>): (r: OrderReply<T>)
    ensures r.Reply? <==> call.Ok?
    ensures call.Ok? ==> r.response == call.value
    ensures call.Err? ==> r.error == "Gagal membuat order"
  {
    if call.Ok? then Reply(call.value) else ErrorDict("Gagal membuat order")
  }

  /** `get_order_history` and `get_trade_history`: the list, or `[]` when the call raised. */
  function History<T>(call: Result<seq<T>>): (r: seq<T>)
    ensures call.Ok? ==> r == call.value
    ensures call.Err? ==> r == []
  {
    if call.Ok? then call.value else []
  }

  /** `get_order_status`: the status, or `{}` when the call raised. */
  function OrderStatus(call: Result<map<string, Json>>): (r: map<string, Json>)
    ensures call.Ok? ==> r == call.value
    ensures call.Err? ==> r == map[]
  {
    if call.Ok? then call.value else map[]
  }
}
