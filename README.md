# RoFollow submission path, modelled in Dafny

This project models the submission path of the RoFollow web form. A page collects
pasted "session data" and checks it on the client. A server route re-validates it
against a marker substring (`LOSECU`), stores it in an in-memory record store with
counter-assigned ids, and then hands it to a mail relay.

The project has six modules:

- `Text` (`text.dfy`) models `String.prototype.includes` and `String.prototype.trim`:
  - `Includes` is proved equal to "the marker occurs as a contiguous run".
  - `TrimStart` and `TrimEnd` are proved to remove exactly the leading and trailing
    ECMAScript whitespace.
- `Storage` (`storage.dfy`) models `MemStorage` as a class:
  - Each JavaScript `Map` is a `map` field plus a `seq` of its keys in insertion order.
  - `Valid()` is the table invariant: each table holds exactly the ids `1 .. counter-1`,
    inserted in increasing order, and every key equals its record's `id`.
- `Routes` (`routes.dfy`) models the server's validator, the schema's two rules in
  their reporting order, and the two handlers.
  - The POST handler is a method over an injected store. The relay's verdict is a
    `bool` input.
- `Home` (`home.dfy`) models the page's state (`sessionData`, `errorMessage`,
  `showSuccessModal`) as a class whose methods are the page's handlers.
- `Agreement` (`agreement.dfy`) relates the client's checks to the server's.
- `Optional` (`optional.dfy`) holds `Option` and `Result`.

Two behaviours of the code are easy to miss:

- The server does not trim: whitespace-only input is answered "Invalid Paste", not
  "Session data is required". Only the client trims.
- The relay failure message is the fixed text "Failed to send email notification",
  not a relay-provided message.

## Model

| member | source | states |
|---|---|---|
| Text.Includes | RoFollow/server/routes.ts:61-64 | `includes` is true exactly when the marker occurs in the text as a contiguous run (case-sensitive, no trimming) |
| Text.OccursInTail | RoFollow/server/routes.ts:63 | when the pattern is not a prefix, its occurrences are exactly those in the text minus its first character (the step of the `includes` scan) |
| Text.TrimStart | RoFollow/client/src/pages/home.tsx:52 | the result is a suffix of the input, everything removed is whitespace, and the result does not start with whitespace |
| Text.TrimEnd | RoFollow/client/src/pages/home.tsx:52 | the result is a prefix of the input, everything removed is whitespace, and the result does not end with whitespace |
| Text.Trim | RoFollow/client/src/pages/home.tsx:52 | `trim()` returns a contiguous run of the input with only whitespace (ECMAScript WhiteSpace and LineTerminator) before and after it, and the run neither starts nor ends with whitespace |
| Text.TrimEmptyIffAllWhitespace | RoFollow/client/src/pages/home.tsx:52-55 | `trim()` yields the empty string (falsy) exactly when every character is whitespace, in both directions |
| Text.MarkerNotBlank | RoFollow/server/routes.ts:62 | text containing the marker is non-empty and not all whitespace |
| Storage.ValuesInOrder | RoFollow/server/storage.ts:58 | `Array.from(map.values())` has one entry per key, in key insertion order, each the stored value |
| Storage.MemStorage.constructor | RoFollow/server/storage.ts:18-23 | a fresh store has no users and no submissions, and both counters start at 1 |
| Storage.MemStorage.GetUser | RoFollow/server/storage.ts:25-27 | a user is found exactly for the ids already allocated, and it carries that id |
| Storage.MemStorage.GetUserByUsername | RoFollow/server/storage.ts:29-33 | nothing is returned iff no user has that username; otherwise the returned user is stored, matches, and no user with a smaller id (created earlier) matches |
| Storage.MemStorage.CreateUser | RoFollow/server/storage.ts:35-40 | the new user takes the old user counter as its id (never used before); the counter rises by 1; the user table gains exactly that entry; submissions are untouched; the invariant is kept |
| Storage.MemStorage.CreateSubmission | RoFollow/server/storage.ts:42-51 | the new record takes the old submission counter as its id (never used before) and carries the given data, email and time stamp; the counter rises by 1; earlier submissions and all users are unchanged; the invariant is kept |
| Storage.MemStorage.GetSubmission | RoFollow/server/storage.ts:53-55 | a record is found exactly for the ids already allocated, and it carries that id |
| Storage.MemStorage.GetAllSubmissions | RoFollow/server/storage.ts:57-59 | returns every stored record once, in creation order: the length is the number of creates, the i-th entry has id i+1, and ids strictly increase |
| Storage.ListAfterThreeCreates | RoFollow/server/storage.ts:42-59 | creating A, B and C on a fresh store and then listing gives exactly [A, B, C] with ids 1, 2 and 3 |
| Routes.ValidateSessionData | RoFollow/server/routes.ts:61-64 | true exactly when the marker occurs in the text |
| Routes.SessionDataIssues | RoFollow/server/routes.ts:66-71 | no issue exactly when the text is non-empty and holds the marker; empty text reports the length issue first; non-empty text can only fail with "Invalid Paste" |
| Routes.ParseSubmission | RoFollow/server/routes.ts:77 | accepts exactly the non-empty string bodies that hold the marker, keeping the text as it is; empty text gives "Session data is required"; non-empty text without the marker (whitespace included) gives "Invalid Paste"; every rejection has a non-empty message |
| Routes.SubmitSession | RoFollow/server/routes.ts:75-108 | a rejected body gives 400 with the first issue's message and leaves the store unchanged; a valid body adds exactly one submission (old counter as id, the text, the given email) and nothing else; a delivered relay then gives 200 with that id; a failed relay gives 500 "Failed to send email notification" and the record stays |
| Routes.ListSubmissions | RoFollow/server/routes.ts:111-122 | returns the store's records as `getAllSubmissions` gives them: one per creation, in creation order |
| Routes.SubmitThenFetch | RoFollow/server/routes.ts:77-92 | submitting marked text with a working relay gives 200 and a positive id, and looking that id up returns a record with exactly the submitted text |
| Home.ValidateSessionData | RoFollow/client/src/pages/home.tsx:43-46 | the client predicate is true exactly when the marker occurs, the same predicate as the server's |
| Home.HomePage.constructor | RoFollow/client/src/pages/home.tsx:14-16 | the page starts with empty input, no error and the modal closed |
| Home.HomePage.Edit | RoFollow/client/src/pages/home.tsx:108 | typing replaces the input and touches nothing else |
| Home.HomePage.HandleSubmit | RoFollow/client/src/pages/home.tsx:48-63 | blank input (after trimming) gets the paste-first message and no request; non-blank input without the marker gets "Invalid Paste" and no request; otherwise the error is cleared and the untrimmed input is sent; the input and the modal never change |
| Home.HomePage.HandleClear | RoFollow/client/src/pages/home.tsx:65-68 | input and error become empty; the modal is unchanged |
| Home.HomePage.HandleKeyDown | RoFollow/client/src/pages/home.tsx:70-75 | Enter without Shift behaves as `handleSubmit`; any other key, Shift+Enter included, changes nothing and sends nothing |
| Home.HomePage.OnSuccess | RoFollow/client/src/pages/home.tsx:24-27 | a successful reply empties the input, clears the error and opens the modal |
| Home.HomePage.OnError | RoFollow/client/src/pages/home.tsx:33-34 | a failed request shows the error's text and leaves the input and the modal as they were |
| Home.HomePage.SetModalOpen | RoFollow/client/src/pages/home.tsx:201 | the dialog's open state becomes the given value; input and error are unchanged |
| Agreement.ClientSendsExactlyWhatServerAccepts | RoFollow/client/src/pages/home.tsx:52-62 | the client issues a request exactly for the inputs the server's schema accepts, and the server parses the sent text back unchanged |
| Agreement.BlankInputMessagesDiffer | RoFollow/client/src/pages/home.tsx:52-55 | input that trims to nothing gets the client's paste-first message and no request, while the server answers "Session data is required" only for "" and "Invalid Paste" for whitespace |

## Left out

- Mail sending is not modelled: the transport, the SMTP configuration, the message body and the recipient. The relay's outcome is the `relayDelivered` input of `Routes.SubmitSession`. The fixed address written into each record is its `email` input.
- Time values are not computed: `submittedAt` is the `now` input, and the mail's formatted date is not modelled at all.
- The Express and `http` server setup, the async/Promise wrapping and the console logging are not modelled.
- Routes.SubmitSession: the handler runs as one uninterrupted step, but in the source only `createSubmission` (id allocation and the store write) runs without interruption. The handler yields at `await sendEmail(...)` while the mail send is in flight. During that wait, other requests can run: a listing can already see the new record before the POST has replied, and another POST can add records in between. The model does not capture that interleaving, so "exactly one submission added and nothing else" holds only for the handler taken as a single step.
- Schema-library internals are not modelled. A body whose `sessionData` is missing or not a string is `Malformed(firstIssue)`, carrying the library's own first message. That message is not modelled.
- Routes.SubmitSession: the catch-all 500 answer with the thrown error's message (or "Internal server error") covers errors other than the relay's. It is not modelled, because the in-memory store never throws.
- Routes.ListSubmissions: the 500 "Failed to fetch submissions" answer is not modelled, because `getAllSubmissions` never throws.
- Home.HomePage.OnError: the message is an input. The text of the error raised by the request helper is not modelled, because `lib/queryClient` is not part of this model.
- The page's rendering, toasts, dialog presentation, styling and the disabled/pending state of the button are not modelled. The request is the value a handler returns; its reply is a later `OnSuccess` or `OnError` call.
- The user record's fields beyond `id` and `username` are not modelled precisely. `@shared/schema` is not part of this model, so a user is taken to carry `username` and `password`.
- Characters are Unicode scalar values, not UTF-16 code units. The marker is ASCII, so `includes` and `trim` give the same verdicts.
- Ids are unbounded integers. JavaScript number precision beyond 2^53 is not modelled.
