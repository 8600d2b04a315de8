/** The application-level decisions of src/app.js: the request-log format, the
    bearer-token gate in front of every route, and the final error handler.
    The configured `NODE_ENV` and `API_TOKEN` are parameters; `None` stands for
    an unset (`undefined`) value. */
module App {
  import opened Wrappers
  import opened Js
  import opened Http

  const Production := "production"

  /** The format handed to the request logger. */
  function MorganOption(nodeEnv: Option<string>): (format: string)
    ensures format == "tiny" <==> nodeEnv == Some(Production)
    ensures format == "tiny" || format == "common"
  {
    if nodeEnv == Some(Production) then "tiny" else "common"
  }

  /** What the gate does with a request: pass it on with `next()` exactly once
      and write nothing, or answer it and stop there. */
  datatype GateOutcome = Next | Halt(response: Response)

  const Unauthorized := Response(401, ErrorString("Unauthorized request"), None)

  /** `validateBearerToken`: `authorization` is `req.get('Authorization')`. A
      request passes when the header is present and non-empty and element [1] of
      `header.split(' ')` is strictly equal to the token. */
  function ValidateBearerToken(authorization: Option<string>, apiToken: Option<string>): (g: GateOutcome)
    ensures g == Next || g == Halt(Unauthorized)
    ensures authorization.None? ==> g == Halt(Unauthorized)
    ensures g == Next ==> authorization.Some? && authorization.value != ""
  {
    if authorization.None? || authorization.value == "" then Halt(Unauthorized)
    else if At(Split(authorization.value, ' '), 1) != apiToken then Halt(Unauthorized)
    else Next
  }

  /** For a header `<scheme> <credential>`, the gate passes exactly when a token
      is configured and the credential is that token; with no token configured
      such a header is refused. */
  lemma BearerAcceptedIff(scheme: string, credential: string, apiToken: Option<string>)
    requires ' ' !in scheme && ' ' !in credential
    ensures ValidateBearerToken(Some(scheme + " " + credential), apiToken) == Next <==> apiToken == Some(credential)
  {
    SplitAfterWord(scheme, ' ', credential);
    SplitNoSeparator(credential, ' ');
  }

  /** The scheme word is never checked: any two separator-free schemes lead to
      the same decision. */
  lemma SchemeIgnored(scheme1: string, scheme2: string, rest: string, apiToken: Option<string>)
    requires ' ' !in scheme1 && ' ' !in scheme2
    ensures ValidateBearerToken(Some(scheme1 + " " + rest), apiToken)
         == ValidateBearerToken(Some(scheme2 + " " + rest), apiToken)
  {
    SplitAfterWord(scheme1, ' ', rest);
    SplitAfterWord(scheme2, ' ', rest);
  }

  /** Tokens after the second are ignored. */
  lemma TrailingTokensIgnored(scheme: string, credential: string, rest: string, apiToken: Option<string>)
    requires ' ' !in scheme && ' ' !in credential
    ensures ValidateBearerToken(Some(scheme + " " + credential + " " + rest), apiToken)
         == ValidateBearerToken(Some(scheme + " " + credential), apiToken)
  {
    SplitAfterWord(scheme, ' ', credential + " " + rest);
    assert scheme + " " + credential + " " + rest == scheme + [' '] + (credential + " " + rest);
    SplitAfterWord(credential, ' ', rest);
    SplitAfterWord(scheme, ' ', credential);
    SplitNoSeparator(credential, ' ');
  }

  /** A header without a space has no element [1], so a configured token rejects it. */
  lemma NoSpaceRejected(header: string, token: string)
    requires ' ' !in header
    ensures ValidateBearerToken(Some(header), Some(token)) == Halt(Unauthorized)
  {
    SplitNoSeparator(header, ' ');
  }

  /** Two spaces after the scheme make element [1] the empty string, so a
      configured non-empty token rejects the header. */
  lemma DoubleSpaceRejected(scheme: string, rest: string, token: string)
    requires ' ' !in scheme && token != ""
    ensures ValidateBearerToken(Some(scheme + "  " + rest), Some(token)) == Halt(Unauthorized)
  {
    assert scheme + "  " + rest == scheme + [' '] + ("" + [' '] + rest);
    SplitAfterWord(scheme, ' ', "" + [' '] + rest);
    SplitAfterWord("", ' ', rest);
  }

  /** With no token configured, element [1] of a one-word header is `undefined`
      too, and strict equality lets the request through. */
  lemma UnsetTokenAcceptsOneWord(header: string)
    requires ' ' !in header && header != ""
    ensures ValidateBearerToken(Some(header), None) == Next
  {
    SplitNoSeparator(header, ' ');
  }

  /** `errorHandler`: always 500; a generic body in production, the error's
      message and the error itself otherwise. */
  function ErrorHandler(nodeEnv: Option<string>, error: Fault): (res: Response)
    ensures res.status == 500 && res.location == None
    ensures res.body == ErrorMessage("server error") <==> nodeEnv == Some(Production)
    ensures nodeEnv != Some(Production) ==> res.body == Diagnostic(error.message, error)
  {
    if nodeEnv == Some(Production) then Response(500, ErrorMessage("server error"), None)
    else Response(500, Diagnostic(error.message, error), None)
  }
}
