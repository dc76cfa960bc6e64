/**
  * The form page on the client: three pieces of component state and the
  * handlers that update them. A request the page issues is returned as the
  * payload it would send; its reply arrives later through `OnSuccess` or
  * `OnError`.
  */
module Home {
  import opened Optional
  import Text

  const BlankMessage: string := "Please paste your session data before submitting."
  const InvalidPasteMessage: string := "Invalid Paste"

  /** The client's own `validateSessionData`: the marker occurs in `data`, case-sensitive, untrimmed. */
  function ValidateSessionData(data: string): (r: bool)
    ensures r <==> Text.Occurs(data, Text.Marker)
  {
    Text.Includes(data, Text.Marker)
  }

  /**
    * What `handleSubmit` does, as a relation between the state before
    * (`input`) and after (`input'`, `error'`) and the request it issues:
    * blank input gets the paste-first message, non-blank input without the
    * marker gets "Invalid Paste", and otherwise the untrimmed input is sent
    * with the error cleared. The input itself never changes.
    */
  ghost predicate SubmitStep(input: string, input': string, error': string, request: Option<string>) {
    input' == input &&
    (if Text.AllWhitespace(input) then
       error' == BlankMessage && request == None
     else if !Text.Occurs(input, Text.Marker) then
       error' == InvalidPasteMessage && request == None
     else
       error' == [] && request == Some(input))
  }

  class HomePage {
    var sessionData: string
    var errorMessage: string
    var showSuccessModal: bool

    /** The initial state: empty input, no error, modal closed. */
    constructor ()
      ensures sessionData == [] && errorMessage == [] && !showSuccessModal
    {
      sessionData := [];
      errorMessage := [];
      showSuccessModal := false;
    }

    /** The text area's change handler: the input becomes what was typed or pasted. */
    method Edit(value: string)
      modifies this
      ensures sessionData == value
      ensures errorMessage == old(errorMessage) && showSuccessModal == old(showSuccessModal)
    {
      sessionData := value;
    }

    /**
      * `handleSubmit`: clear the error, then refuse blank input (after trimming),
      * then refuse input without the marker, else issue the request with the
      * input exactly as typed. The modal is not touched.
      */
    method HandleSubmit() returns (request: Option<string>)
      modifies this
      ensures SubmitStep(old(sessionData), sessionData, errorMessage, request)
      ensures showSuccessModal == old(showSuccessModal)
    {
      errorMessage := [];
      Text.TrimEmptyIffAllWhitespace(sessionData);
      Text.MarkerNotBlank(sessionData);

      if Text.Trim(sessionData) == [] {
        errorMessage := BlankMessage;
        return None;
      }

      if !ValidateSessionData(sessionData) {
        errorMessage := InvalidPasteMessage;
        return None;
      }

      request := Some(sessionData);
    }

    /** `handleClear`: empty the input and the error; the modal stays as it was. */
    method HandleClear()
      modifies this
      ensures sessionData == [] && errorMessage == []
      ensures showSuccessModal == old(showSuccessModal)
    {
      sessionData := [];
      errorMessage := [];
    }

    /**
      * `handleKeyDown`: Enter without Shift submits; Shift+Enter and every other
      * key leave the state alone and send nothing.
      */
    method HandleKeyDown(key: string, shiftKey: bool) returns (request: Option<string>)
      modifies this
      ensures key == "Enter" && !shiftKey ==>
        SubmitStep(old(sessionData), sessionData, errorMessage, request) &&
        showSuccessModal == old(showSuccessModal)
      ensures !(key == "Enter" && !shiftKey) ==>
        request == None && sessionData == old(sessionData) &&
        errorMessage == old(errorMessage) && showSuccessModal == old(showSuccessModal)
    {
      if key == "Enter" && !shiftKey {
        request := HandleSubmit();
      } else {
        request := None;
      }
    }

    /** The request's success callback: empty the input, clear the error, open the modal. */
    method OnSuccess()
      modifies this
      ensures sessionData == [] && errorMessage == [] && showSuccessModal
    {
      sessionData := [];
      errorMessage := [];
      showSuccessModal := true;
    }

    /** The request's failure callback: show the error's text; the input and the modal stay. */
    method OnError(message: string)
      modifies this
      ensures errorMessage == message
      ensures sessionData == old(sessionData) && showSuccessModal == old(showSuccessModal)
    {
      errorMessage := message;
    }

    /** The dialog's open-state handler and its close button: the modal becomes `open`. */
    method SetModalOpen(open: bool)
      modifies this
      ensures showSuccessModal == open
      ensures sessionData == old(sessionData) && errorMessage == old(errorMessage)
    {
      showSuccessModal := open;
    }
  }
}
