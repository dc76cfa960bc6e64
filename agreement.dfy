/**
  * How the client's pre-validation relates to the server's schema: they accept
  * the same inputs, and differ only in the message for blank input.
  */
module Agreement {
  import opened Optional
  import Text
  import Routes
  import Home

  /**
    * The client issues a request exactly for the inputs the server's schema
    * accepts, and what it sends parses back to the same text: trimming in the
    * client changes no verdict, because the marker holds no whitespace.
    */
  lemma ClientSendsExactlyWhatServerAccepts(input: string, error: string, request: Option<string>)
    requires Home.SubmitStep(input, input, error, request)
    ensures request.Some? <==> Routes.ParseSubmission(Routes.Body(input)).Ok?
    ensures request.Some? ==> Routes.ParseSubmission(Routes.Body(request.value)) == Ok(input)
  {
    Text.MarkerNotBlank(input);
  }

  /**
    * Input that trims to nothing gets the client's paste-first message and no
    * request, while the server, which does not trim, answers "Session data is
    * required" only for the empty string and "Invalid Paste" for whitespace.
    */
  lemma BlankInputMessagesDiffer(input: string)
    ensures Text.Trim(input) == [] ==>
      Home.SubmitStep(input, input, Home.BlankMessage, None) &&
      Routes.ParseSubmission(Routes.Body(input)) ==
        Err(if input == [] then Routes.RequiredMessage else Routes.InvalidPasteMessage)
  {
    Text.TrimEmptyIffAllWhitespace(input);
    Text.MarkerNotBlank(input);
  }
}
