/**
 * `RestResourceCommandWithRequest`: a one-shot HTTP command carrying a request body. The
 * request is validated in the constructor, so a command, and with it an HTTP message,
 * exists only for a request that passed.
 */
module RestCommands {
  import opened Wrappers
  import opened Uris
  import opened ContactExportValidators
  import opened ContactExportRequests

  datatype HttpMethod = Get | Post | Put | Patch | Delete

  /** The HTTP message the factory builds: method, target and body. */
  datatype HttpRequestMessage<T> = HttpRequestMessage(verb: HttpMethod, uri: Uri, content: T)

  /** What `request is IValidatable validatable ? validatable.Validate() : ...` yields. */
  datatype Validation = NotValidatable | Validatable(result: ValidationResult)

  datatype CommandError =
    | RequestNull(paramName: string)
    | RequestValidation(uri: Uri, verb: HttpMethod, result: ValidationResult)  // `RequestValidationException`

  /** The HTTP transport: the messages it has sent, in order. */
  class Wire<T> {
    var sent: seq<HttpRequestMessage<T>>

    constructor ()
      ensures sent == []
    {
      sent := [];
    }

    method Send(message: HttpRequestMessage<T>)
      modifies this
      ensures sent == old(sent) + [message]
    {
      sent := sent + [message];
    }
  }

  /** `ValidateRequest`: null is rejected; a request that is not validatable, or whose
      result is valid, passes; an invalid one is rejected with the resource URI, the
      HTTP method and the whole validation result. */
  function ValidateRequest<T>(resourceUri: Uri, httpMethod: HttpMethod, request: Option<T>, validation: Validation)
    : (r: Outcome<CommandError>)
    ensures r.Pass? <==> request.Some? && (validation.NotValidatable? || validation.result.IsValid())
    ensures request.None? ==> r == Fail(RequestNull("request"))
    ensures request.Some? && validation.Validatable? && !validation.result.IsValid() ==>
      r == Fail(RequestValidation(resourceUri, httpMethod, validation.result))
  {
    if request.None? then Fail(RequestNull("request"))
    else if validation.NotValidatable? then Pass
    else if validation.result.IsValid() then Pass
    else Fail(RequestValidation(resourceUri, httpMethod, validation.result))
  }

  class RestResourceCommandWithRequest<T> {
    const resourceUri: Uri
    const httpMethod: HttpMethod
    const request: T

    constructor Init(uri: Uri, verb: HttpMethod, body: T)
      ensures resourceUri == uri && httpMethod == verb && request == body
    {
      resourceUri := uri;
      httpMethod := verb;
      request := body;
    }

    /** The constructor: `ValidateRequest(request)` runs first, and only a request that
        passes is stored, unchanged. */
    static method Create(uri: Uri, verb: HttpMethod, body: Option<T>, validation: Validation)
      returns (r: Result<RestResourceCommandWithRequest<T>, CommandError>)
      ensures r.Failure? <==> ValidateRequest(uri, verb, body, validation).Fail?
      ensures r.Failure? ==> r.error == ValidateRequest(uri, verb, body, validation).error
      ensures r.Success? ==> fresh(r.value)
      ensures r.Success? ==> r.value.resourceUri == uri && r.value.httpMethod == verb && r.value.request == body.value
    {
      var outcome := ValidateRequest(uri, verb, body, validation);
      if outcome.Fail? {
        return Failure(outcome.error);
      }
      var command := new RestResourceCommandWithRequest.Init(uri, verb, body.value);
      return Success(command);
    }

    /** `CreateHttpRequest`: the message carries exactly the stored method, URI and request. */
    function CreateHttpRequest(): (m: HttpRequestMessage<T>)
      ensures m.verb == httpMethod && m.uri == resourceUri && m.content == request
    {
      HttpRequestMessage(httpMethod, resourceUri, request)
    }

    /** Executing the command sends its one message. */
    method Execute(wire: Wire<T>)
      modifies wire
      ensures wire.sent == old(wire.sent) + [CreateHttpRequest()]
    {
      wire.Send(CreateHttpRequest());
    }
  }

  /** `Create(request)` on the contact-export collection: the POST command is built with
      the request's own `Validate()` and executed only if it was built. An invalid request
      fails with the validation result and nothing is sent; a valid one is sent once. */
  method CreateContactExport(wire: Wire<CreateContactExportRequest>, exportsUri: Uri, request: CreateContactExportRequest?)
    returns (r: Outcome<CommandError>)
    modifies wire
    ensures request == null ==> r == Fail(RequestNull("request")) && wire.sent == old(wire.sent)
    ensures request != null && !old(request.Validate()).IsValid() ==>
      && r == Fail(RequestValidation(exportsUri, Post, old(request.Validate())))
      && wire.sent == old(wire.sent)
    ensures request != null && old(request.Validate()).IsValid() ==>
      r == Pass && wire.sent == old(wire.sent) + [HttpRequestMessage(Post, exportsUri, request)]
  {
    var validation := if request == null then NotValidatable else Validatable(request.Validate());
    var body := if request == null then None else Some(request);
    var command := RestResourceCommandWithRequest.Create(exportsUri, Post, body, validation);
    if command.Failure? {
      return Fail(command.error);
    }
    command.value.Execute(wire);
    return Pass;
  }
}
