/**
 * Reading the CMS's error envelope out of whatever a request threw:
 * `{ isAxiosError, response: { data: { error: { message, details } } } }`.
 */
module AxiosErrors {
  import opened Wrappers
  import opened JsValues

  /** `isAxiosError`: the flag is present, whatever its value. */
  predicate IsAxiosError(err: Js)
    requires !IsNullish(err)
  {
    Get(err, "isAxiosError") != Undefined
  }

  /** Only the presence of the flag matters: `isAxiosError: false` still counts. */
  lemma AxiosFlagPresenceOnly(fields: map<string, Js>, flag: Js)
    ensures IsAxiosError(Obj(fields["isAxiosError" := flag])) <==> flag != Undefined
    ensures "isAxiosError" !in fields ==> !IsAxiosError(Obj(fields))
    ensures IsAxiosError(Obj(fields["isAxiosError" := Bool(false)]))
  {
  }

  /**
   * The `response.data.error` object of an axios error, when the response,
   * its data and the error are all truthy.
   */
  function ErrorObject(err: Thrown): (r: Option<Js>)
    ensures r.Some? ==> Truthy(r.value)
    ensures r.Some? <==>
      && IsAxiosError(err)
      && Truthy(Get(err, "response"))
      && Truthy(Get(Get(err, "response"), "data"))
      && Truthy(Get(Get(Get(err, "response"), "data"), "error"))
    ensures r.Some? ==>
      && Truthy(Get(err, "response"))
      && Truthy(Get(Get(err, "response"), "data"))
      && r.value == Get(Get(Get(err, "response"), "data"), "error")
  {
    if !IsAxiosError(err) then None
    else
      var response := Get(err, "response");
      if !Truthy(response) then None
      else
        var data := Get(response, "data");
        if !Truthy(data) then None
        else
          var error := Get(data, "error");
          if Truthy(error) then Some(error) else None
  }

  /**
   * `getStrapiError`: the envelope's message when it is a string, "" for
   * every other shape. An empty message and no message both give "".
   */
  function GetStrapiError(err: Thrown): (msg: string)
    ensures !IsAxiosError(err) ==> msg == ""
    ensures msg != "" ==> ErrorObject(err).Some? && Get(ErrorObject(err).value, "message") == Str(msg)
    ensures ErrorObject(err).Some? && Get(ErrorObject(err).value, "message").Str? ==>
      Str(msg) == Get(ErrorObject(err).value, "message")
  {
    match ErrorObject(err)
    case Some(error) =>
      var message := Get(error, "message");
      if message.Str? then message.s else ""
    case None => ""
  }

  /** `getStrapiErrorDetails`: the envelope's details when truthy, otherwise null. */
  function GetStrapiErrorDetails(err: Thrown): (r: Option<Js>)
    ensures r.Some? ==> Truthy(r.value) && ErrorObject(err).Some?
    ensures r.Some? ==> Get(ErrorObject(err).value, "details") == r.value
    ensures ErrorObject(err).Some? && Truthy(Get(ErrorObject(err).value, "details")) ==> r.Some?
  {
    match ErrorObject(err)
    case Some(error) =>
      var details := Get(error, "details");
      if Truthy(details) then Some(details) else None
    case None => None
  }

  /**
   * The catch-block pattern every caller repeats: the envelope message if
   * there is one, otherwise the caller's own fallback text.
   */
  function ErrorMessageOr(err: Thrown, fallback: string): (r: string)
    ensures fallback != "" ==> r != ""
    ensures r == GetStrapiError(err) || r == fallback
    ensures GetStrapiError(err) != "" ==> r == GetStrapiError(err)
  {
    var strapiErrorMsg := GetStrapiError(err);
    if strapiErrorMsg != "" then strapiErrorMsg else fallback
  }

  /** The error a failed CMS request raises, carrying `message` and `details`. */
  function Envelope(message: Js, details: Js): (r: Thrown)
    ensures IsAxiosError(r) && ErrorObject(r).Some?
  {
    Obj(map[
      "isAxiosError" := Bool(true),
      "response" := Obj(map["data" := Obj(map["error" := Obj(map["message" := message, "details" := details])])])
    ])
  }

  /** A string message in an envelope is read back exactly. */
  lemma EnvelopeMessageRoundTrip(message: string, details: Js)
    ensures GetStrapiError(Envelope(Str(message), details)) == message
  {
    var e := Envelope(Str(message), details);
    var response := Get(e, "response");
    var data := Get(response, "data");
    assert Get(data, "error") == Obj(map["message" := Str(message), "details" := details]);
  }

  /** Truthy details in an envelope are read back exactly; falsy ones give null. */
  lemma EnvelopeDetailsRoundTrip(message: Js, details: Js)
    ensures GetStrapiErrorDetails(Envelope(message, details)) == if Truthy(details) then Some(details) else None
  {
    var e := Envelope(message, details);
    var response := Get(e, "response");
    var data := Get(response, "data");
    assert Get(data, "error") == Obj(map["message" := message, "details" := details]);
  }

  /** A message that is not a string, such as a number, is not reported. */
  lemma NonStringMessageIgnored(message: Js, details: Js)
    requires !message.Str?
    ensures GetStrapiError(Envelope(message, details)) == ""
  {
    var e := Envelope(message, details);
    var response := Get(e, "response");
    var data := Get(response, "data");
    assert Get(data, "error") == Obj(map["message" := message, "details" := details]);
  }

  /** An axios error whose response is missing, or whose data is falsy, gives "". */
  lemma MissingResponseIgnored(response: Js)
    requires !Truthy(response) || !Truthy(Get(response, "data"))
    ensures GetStrapiError(Obj(map["isAxiosError" := Bool(true), "response" := response])) == ""
  {
  }

  /**
   * An envelope with an empty message cannot be told from an error that is
   * not an axios error at all: the callers fall back to their own text.
   */
  lemma EmptyMessageLikeNoMessage(details: Js, fallback: string)
    ensures ErrorMessageOr(Envelope(Str(""), details), fallback) == fallback
    ensures ErrorMessageOr(Obj(map[]), fallback) == fallback
  {
    EnvelopeMessageRoundTrip("", details);
  }
}
