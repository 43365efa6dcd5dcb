# Glewlwyd: access-token gate, registration steps and plugin editor

A Dafny model of three pieces of Glewlwyd, an OAuth 2.0 / OpenID Connect
server, with proofs about each:

- **Bearer/DPoP access-token gate.** This is the ulfius callback of the OIDC
  resource helper (`oidc_resource.c`), in module `OidcResource`. It looks for
  the access token in the Authorization header, the form body or the URL
  query (RFC 6750 sections 2.1 to 2.3). It then checks the token's
  signature, validity and scope. For a DPoP token it also verifies the DPoP
  proof: the checks of RFC 9449 section 4.3 that the code performs, in its
  own order, and the `cnf.jkt` key binding of section 6.1. Each outcome becomes a ulfius callback code plus a
  `WWW-Authenticate` challenge (RFC 6750 section 3.1).
- **Registration page** (`Register.js`), in module `Register`. It covers:
  - the list of outstanding mandatory steps, which gates finalising a
    registration;
  - the password validator, and the gate that decides when a password is
    sent;
  - the username and e-mail availability checks, with the username
    suggestion search;
  - saving, completing and cancelling a registration.
- **Plugin editor of the administration page** (`PluginEdit.js`), in module
  `PluginEdit`. It covers the validation that runs before a plugin record is
  accepted, and the merge of an imported record into the one being edited.

Shared modules:

- `Wrappers` holds `Option`.
- `Text` holds prefix and substring tests, and the split on a separator
  character.
- `JsonModel` holds JSON values with the jansson-style accessors the C code
  uses. A missing member, or a value of the wrong type, reads as NULL,
  0 or "absent".

How the model is built:

- Pure decisions are functions. Each has lemmas relating it to a plain
  statement of what it decides.
- Loops in the source are methods with loops, proved equal to a
  specification function:
  - the scope intersection is `CheckScope`, against `ScopeCheck`;
  - the step list built with `forEach` is `CompleteSteps`, against
    `PendingSteps`;
  - the suggestion retries are `ProbeRejected`, against `ProbeRunFrom`.
- The two React components are classes. Their fields are the component state
  the handlers change, and every handler is a method that states its whole
  new state.
- Remote replies are inputs: success, a 400, or any other failure.
- Messages sent through the message dispatcher, requests issued and calls
  of the parent's callback are appended to log fields.
- The JOSE and crypto libraries are modelled by what they report:
  - `JwtVerification` for the access token;
  - `DpopProof` for the DPoP proof.

The DPoP check chain is written once, as `DpopCode`. It is then related to
an independent reference: an ordered list of 20 checks,
`DpopChecks`, whose first failure decides the code (`DpopCodeIsFirstFailure`).

## Behaviour worth noting

- **The suggestion search has no cap on probes.**
  - `suggestionCounter` counts only successful suggestions
    (`Register.js:89`).
  - A 400 reply probes again without counting (`Register.js:95`), so a run
    of 400 replies is never cut off. `Register.SearchUnbounded` proves this.
  - The 10 in `getUsernameSuggestion` caps the number of suggestions made,
    not the number of probes.
- **Only a 400 is retried.** Any other failure of a probe ends the search
  with a connection-error notification.
- **Stale replies are not tagged.** A reply to an earlier check can arrive
  after a newer edit and still set the status fields; no request carries an
  edit generation, and the model has none either.
- **Connectivity errors are handled differently by the two checks.**
  - `checkUsername` only notifies. Every status field, `checkingUsername`
    included, stays as it was.
  - `checkEmailAsUsername` also marks the name invalid and shows the
    invalid message (`Register.js:118-120`).
- **The DPoP `typ` test is inverted** (see "## Findings").

## Model

| member | source | states |
|---|---|---|
| Text.Split | docs/resources/ulfius/oidc_resource.c:61-63 | The scope strings split into at least one piece, and no piece contains a space. |
| Text.JoinSplit | docs/resources/ulfius/oidc_resource.c:61-63 | Joining the pieces back with spaces gives the original string, so the split loses nothing. |
| OidcResource.PackedResultChecks | docs/resources/ulfius/oidc_resource.c:42-48 | `check_result_value` on a packed `{"result": code}` object holds exactly for that code. A pack with a NULL `O` argument, and a NULL result, match no code. A packed member reads back as given. |
| OidcResource.CheckResultValueUnique | docs/resources/ulfius/oidc_resource.c:42-48 | A result object matches at most one code, so the callback's successive tests of one result against different codes exclude each other. |
| OidcResource.ExtractToken | docs/resources/ulfius/oidc_resource.c:185-204 | The DPoP flag is set only by the header method, and only when a token was found. |
| OidcResource.HeaderExtraction | docs/resources/ulfius/oidc_resource.c:186-195 | The header method finds a token iff the Authorization value starts with "Bearer " or "DPoP ". The DPoP flag is set iff it starts with "DPoP ". The prefix followed by the token is the header value. |
| OidcResource.AuthorizationRoundTrip | docs/resources/ulfius/oidc_resource.c:188-192 | The token a client puts after either prefix is extracted unchanged, with the DPoP flag set exactly for the DPoP prefix. |
| OidcResource.BodyAndUrlExtraction | docs/resources/ulfius/oidc_resource.c:196-203 | The body method finds a token iff the Content-Type contains `application/x-www-form-urlencoded` and the body has `access_token`, and never flags DPoP. The URL method returns the query parameter as it is. |
| OidcResource.CheckSignature | docs/resources/ulfius/oidc_resource.c:138-172 | The result is OK iff a token is present, parses, a key is found, the signature verifies and the claims are available. On OK, `grants` are those claims. The result is NULL exactly when the token parses but no key is found. |
| OidcResource.CheckValidity | docs/resources/ulfius/oidc_resource.c:100-133 | INVALID_TOKEN iff there are no grants. OK iff `now < exp`, `type` is a string, and either access tokens are accepted with `type` "access_token" and a non-empty `sub`, or client tokens are accepted with `type` "client_token" and a non-empty `aud`. The result is always OK, INVALID_REQUEST or INVALID_TOKEN. |
| OidcResource.GrantedMembership | docs/resources/ulfius/oidc_resource.c:65-69 | A scope is in the granted list iff it is both configured and in the token's scope list. |
| OidcResource.GrantedConcat | docs/resources/ulfius/oidc_resource.c:65-69 | The grant of a concatenation of configured lists is the concatenation of the grants, so the granted list keeps the configured order. |
| OidcResource.ScopeCheckOutcome | docs/resources/ulfius/oidc_resource.c:54-91 | No grants give INVALID_TOKEN. No configured scope passes the token's `scope` through (OK iff it is present). A configured scope with no scope claim gives INTERNAL. Otherwise the result is OK iff some configured scope is in the token, reporting the granted list, and INSUFFICIENT_SCOPE otherwise. |
| OidcResource.ScopeCheck | docs/resources/ulfius/oidc_resource.c:54-91 | The result is NULL exactly when there is no configured scope and the token has no `scope` claim: the pass-through pack then fails. |
| OidcResource.CheckScope | docs/resources/ulfius/oidc_resource.c:54-91 | The loop over the configured scopes computes exactly the `ScopeCheck` result. |
| OidcResource.DpopResultCode | docs/resources/ulfius/oidc_resource.c:402-404 | `check_result_value` on the proof check's result reads back exactly the code the chain decided. |
| OidcResource.VerifyDpopProofAsWritten | docs/resources/ulfius/oidc_resource.c:298-427 | The code as written never accepts a proof whose `typ` is "dpop+jwt". |
| OidcResource.VerifyDpopProof | docs/resources/ulfius/oidc_resource.c:298-427 | With the corrected typ test, an accepted proof has `typ` exactly "dpop+jwt". |
| OidcResource.DpopAcceptance | docs/resources/ulfius/oidc_resource.c:309-404 | A proof is accepted iff all of the following hold: the arguments are present, with `max_iat` non-zero and `jkt` non-empty; the proof initialises, parses and its signature verifies; `typ` is "dpop+jwt"; the algorithm is on the asymmetric allow-list; header and claims are available; there is no `x5c` and no `x5u`; the embedded jwk imports; `jti` is non-empty; `htm` and `htu` match; `iat <= now <= iat + max_iat`; the `ath` hash is computed and matches; and the jwk thumbprint equals `jkt`. |
| OidcResource.DpopCode | docs/resources/ulfius/oidc_resource.c:309-424 | The chain reports OK, INVALID_REQUEST, INTERNAL or INVALID_TOKEN. A missing argument is always INVALID_REQUEST. Once the arguments and the three library steps succeed, a rejected typ is INVALID_TOKEN. |
| OidcResource.FirstFailureFromSpec | docs/resources/ulfius/oidc_resource.c:313-400 | The reference chain finds no failure iff every remaining check passes. Otherwise the failure it reports is that of the first failing check. |
| OidcResource.DpopCodeIsFirstFailure | docs/resources/ulfius/oidc_resource.c:309-403 | The source's nested chain equals the code of the first failing check of the ordered 20-check list, and is OK iff every check of that list passes. |
| OidcResource.AsWrittenRejectsCompliantTyp | docs/resources/ulfius/oidc_resource.c:314-318 | As written, a proof with `typ` "dpop+jwt" is never accepted. Once the arguments and the library steps succeed, it is refused as INVALID_TOKEN. |
| OidcResource.CompliantProofRefusedAsWritten | docs/resources/ulfius/oidc_resource.c:314-318 | A concrete well-formed proof is accepted by the corrected check and refused as INVALID_TOKEN by the code as written. |
| OidcResource.ChallengeShape | docs/resources/ulfius/oidc_resource.c:287 | A challenge starts with "Bearer ", contains `realm=<realm>,` right after it exactly when a realm is configured, and ends with the error and its description. |
| OidcResource.AsWrittenCallbackRefusesCompliantProof | docs/resources/ulfius/oidc_resource.c:220-222 | As written, the callback lets no DPoP token through whose proof has `typ` "dpop+jwt". |
| OidcResource.CallbackVersionsAgree | docs/resources/ulfius/oidc_resource.c:205-269 | The callback as written and the corrected one authorise alike for every bearer token, and for every DPoP proof on which the two typ tests agree. |
| OidcResource.CheckAccessToken | docs/resources/ulfius/oidc_resource.c:177-293 | No configuration gives UNAUTHORIZED with no header. Otherwise CONTINUE iff the request is authorised and the shared data is accepted, and ERROR iff it is authorised but the shared data is refused. Authorised means: a token is found; its signature, validity and scope pass; and either it is DPoP with a verifying proof, or it is bearer with no `cnf.jkt`. The proof is checked by `verify_dpop_proof` as written when `asWritten` holds, and with the corrected typ test otherwise. A challenge is set exactly when the request is not authorised. The shared data on CONTINUE is given in full. Each failing path sets its own error and description. |
| Register.SchemeStepsKeys | webapp-src/src/Profile/Register.js:377-387 | Every step a scheme adds is keyed by a configured position (1 based). |
| Register.SchemeStepListed | webapp-src/src/Profile/Register.js:377-387 | A step for the scheme at position k is listed iff that scheme is registered "always" and is not registered yet, with caption `display_name` or else `name`. "optional" and "no" schemes never add a step. |
| Register.SchemeStepsOrdered | webapp-src/src/Profile/Register.js:378-386 | Scheme steps appear in configured order; their keys strictly increase. |
| Register.PasswordStepFirst | webapp-src/src/Profile/Register.js:370-376 | The password step is listed iff `set-password` is "always" and no password is set, and it is then the first step. |
| Register.PendingSteps | webapp-src/src/Profile/Register.js:369-387 | The list has at most one step per configured scheme, plus the password step. |
| Register.PendingStepsOrdered | webapp-src/src/Profile/Register.js:369-387 | The whole list is strictly ordered by key: the password step (key 0) first, then the schemes in configured order. |
| Register.CompletionAllowed | webapp-src/src/Profile/Register.js:388-427 | The list is empty, so the complete button is wired, iff the password is set when demanded and every "always" scheme is registered. |
| Register.RegisterForm.CompleteSteps | webapp-src/src/Profile/Register.js:369-387 | The `forEach` builds exactly the pending-step list. |
| Register.RegisterForm.CompletionPanel | webapp-src/src/Profile/Register.js:340-427 | A completed registration shows the completion message. Otherwise a loaded profile shows the pending steps, with the complete button enabled iff there are none. |
| Register.DefaultMinimumIsEight | webapp-src/src/Profile/Register.js:195-196 | With `PasswordMinLength` missing or 0, a password typed twice is sent iff it is at least 8 UTF-16 code units long. |
| Register.ConfiguredMinimumUsed | webapp-src/src/Profile/Register.js:195-196 | Any other configured minimum is used as it is: a password typed twice is sent iff it reaches that minimum. |
| Register.Utf16Length | webapp-src/src/Profile/Register.js:195 | JavaScript's `length` lies between the number of characters and twice that. |
| Register.Utf16LengthConcat | webapp-src/src/Profile/Register.js:195 | The length of a concatenation is the sum of the lengths, and one character counts two UTF-16 code units above U+FFFF and one otherwise. |
| Register.Utf16LengthBmp | webapp-src/src/Profile/Register.js:195 | For text inside the Basic Multilingual Plane, the length is the number of characters. |
| Register.PasswordCheck | webapp-src/src/Profile/Register.js:190-200 | No error while both fields are empty. A mismatch error iff the fields differ. The too-short error, with the minimum, iff they agree, are non-empty and shorter than the minimum in UTF-16 code units. |
| Register.AstralPasswordLongEnough | webapp-src/src/Profile/Register.js:195 | Four characters outside the Basic Multilingual Plane count as 8, so they meet the default minimum and the password is sent. |
| Register.PasswordGate | webapp-src/src/Profile/Register.js:229 | After `checkPassword`, a password is sent iff both fields agree and it has at least the minimum length in UTF-16 code units. |
| Register.SearchStopsAtFirstAnswer | webapp-src/src/Profile/Register.js:84-99 | When the first reply that is not a 400 is at probe k, the search probes exactly the candidates up to k, in order. It then suggests candidate k on success, or ends with a connection error. |
| Register.SearchUnbounded | webapp-src/src/Profile/Register.js:91-96 | While every reply is a 400, every one is probed, however many there are; there is no ten-probe cap. |
| Register.DecimalDigits | webapp-src/src/Profile/Register.js:86 | A number is written with digits only, and with at most two for a suffix below 100. |
| Register.SuggestionsExtendUsername | webapp-src/src/Profile/Register.js:86-89 | Every probed name is the typed username followed by one or two digits. A suggestion extends the username and is one of the probed names. |
| Register.RegisterForm.constructor | webapp-src/src/Profile/Register.js:11-42 | The initial component state. |
| Register.RegisterForm.ProbeRejected | webapp-src/src/Profile/Register.js:91-96 | The 400-answered probes are issued in order. The search from there on completes the specified run. |
| Register.RegisterForm.GetUsernameSuggestion | webapp-src/src/Profile/Register.js:84-99 | Nothing happens once the counter is 10 or more. Otherwise the probes of the specified run are requested; a success records the suggestion and counts it; another failure notifies. |
| Register.RegisterForm.CheckUsername | webapp-src/src/Profile/Register.js:62-82 | An empty name resets the status and suggestion fields with no request. Success marks the name valid. A 400 marks it invalid and starts the suggestion search with the counter reset. Any other failure only notifies and changes no field. |
| Register.RegisterForm.CheckEmailAsUsername | webapp-src/src/Profile/Register.js:108-128 | An empty e-mail resets the status with no request. Otherwise the address is checked: success marks it valid; a 400 marks it invalid; any other failure notifies, marks it invalid and shows the invalid message. |
| Register.RegisterForm.ChangeEmailVerification | webapp-src/src/Profile/Register.js:145-151 | The e-mail is stored, its error is shown iff it is empty, and the name becomes valid when the e-mail is the username. |
| Register.RegisterForm.CheckPassword | webapp-src/src/Profile/Register.js:190-200 | Stores the `PasswordCheck` verdict for the current fields and configured minimum, lengths in UTF-16 code units. |
| Register.RegisterForm.SaveNameOrPassword | webapp-src/src/Profile/Register.js:219-247 | The profile is always saved. The password is sent only through the gate, whose length test counts UTF-16 code units, and then the password fields are cleared whatever the reply. Connection errors are notified. The saved notification follows only when every request succeeded. |
| Register.RegisterForm.CompleteRegistration | webapp-src/src/Profile/Register.js:285-300 | Success completes the registration, clears the username and sends the two completion messages. A 400 sends the incomplete warning, and other failures the connection error, leaving the state unchanged. |
| Register.RegisterForm.ConfirmCancelRegistration | webapp-src/src/Profile/Register.js:306-320 | The confirmation dialog is always closed. Only a confirmed cancel issues the delete. Success resets the username, e-mail, verification and status fields and restarts; a failure notifies and changes nothing. |
| PluginEdit.LocalVerdict | webapp-src/src/Admin/PluginEdit.js:31-36 | The checks run in a fixed order: name (when adding), then type, then parameters. Each verdict is characterised by an iff over the record and flags. |
| PluginEdit.AcceptedIff | webapp-src/src/Admin/PluginEdit.js:29-57 | A record reaches the callback iff a type is chosen, the parameters are valid and, when adding, the name is given and the server answers 404. Editing needs no query, and an accepted record is never flagged. |
| PluginEdit.MergeImport | webapp-src/src/Admin/PluginEdit.js:138-148 | Apart from name and type, the stored record is the imported one. The name and the type each come from the file or from the current record. |
| PluginEdit.MergeImportKeeps | webapp-src/src/Admin/PluginEdit.js:138-148 | When editing, a non-empty current name and type are kept and all else comes from the file. When adding, the file replaces the record. |
| PluginEdit.MergeImportIdempotent | webapp-src/src/Admin/PluginEdit.js:138-148 | Importing the same file twice equals importing it once. Importing the record being edited (an export followed by an import) gives it back unchanged. |
| PluginEdit.EditedImportStaysValid | webapp-src/src/Admin/PluginEdit.js:140-147 | An import while editing a record that has a type never makes it fail the name or type check. |
| PluginEdit.PluginEditor.constructor | webapp-src/src/Admin/PluginEdit.js:12-27 | The initial editor state: parameters valid, no errors. |
| PluginEdit.PluginEditor.HandleModPluginMessage | webapp-src/src/Admin/PluginEdit.js:29-57 | "modValid" clears `check`. It flags an error iff a local check fails or the name is taken, and calls back iff the record is accepted. It queries the name only when adding a record that passes the local checks, and notifies only when that query fails otherwise. Each error sets its own messages. "modInvalid" clears `check` and sets `hasError`. |
| PluginEdit.PluginEditor.CloseModal | webapp-src/src/Admin/PluginEdit.js:88-96 | Confirming only sets `check`. Cancelling calls `callback(false)`. Without a callback, nothing changes. |
| PluginEdit.PluginEditor.ChangeName | webapp-src/src/Admin/PluginEdit.js:98-102 | Only the record's name changes. |
| PluginEdit.PluginEditor.ChangeDisplayName | webapp-src/src/Admin/PluginEdit.js:104-108 | Only the record's display name changes. |
| PluginEdit.PluginEditor.ChangeType | webapp-src/src/Admin/PluginEdit.js:110-114 | Only the record's type changes. |
| PluginEdit.PluginEditor.ChangeParameters | webapp-src/src/Admin/PluginEdit.js:116-120 | The record's parameters and their validity flag are replaced. |
| PluginEdit.PluginEditor.GetImportPlugin | webapp-src/src/Admin/PluginEdit.js:134-154 | A parse failure leaves the record and sends the import error. A parsed record is merged as `MergeImport` says. |
| PluginEdit.PluginEditor.ReceiveProps | webapp-src/src/Admin/PluginEdit.js:69-86 | New props replace the record, mode and callback, and reset the parameter validity and the error fields; `check` is left as it is. |

## Left out

- Crypto and the JOSE library: JWT parsing, signature verification, key
  lookup by `kid`, JWK import, the SHA-256 hash and base64url encoding, and
  the JWK thumbprint. They are inputs (`JwtVerification`, `DpopProof`),
  because what they compute is outside the decision logic.
- The clock is a `now` parameter.
  - `OidcResource.CheckAccessToken` uses one `now` for the validity check
    and for the DPoP proof check.
  - The source reads `time` separately in each, so a token that expires
    between the two reads is not modelled.
- OidcResource.IatInWindow: integers are unbounded. A `time_t` overflow of
  `iat + max_iat` is not modelled.
- Memory: jansson reference counting, `o_free`, `msprintf`, and the ulfius
  request and response maps. Only the token, the header text, the shared
  data and the callback code are modelled. A failed allocation of the scope
  array (`oidc_resource.c:87`) is a memory failure and is not modelled.
- `oidc_resource.h` is not part of this model:
  - the `G_TOKEN_*` values are taken as distinct integers;
  - the header prefixes and the `access_token` parameter name are those of
    RFC 6750 and RFC 9449.
- orcania's `split_string` is taken to split on every space and to keep
  empty pieces; a NULL string gives no pieces. orcania is not part of this
  model.
- The debug and error logging of `verify_dpop_proof` (`y_log_message`).
- React rendering and `setState` batching. Only the step list, the
  complete button and the completion message are modelled from `render`;
  the other form fields, links and buttons are not. `i18next` translations
  are tags.
- The `setTimeout`/`clearTimeout` debounce is timer-driven. Only the
  `timeout` field's reset is modelled (`timeoutPending`).
- Register.js handlers outside the registration gate are not modelled:
  `componentWillReceiveProps`, `selectSuggestion`, `changeUsername`,
  `changeEmailAsUsername`, `changeCode`, `changeName`, `changePassword`,
  `changeConfirmPassword`, `registerUsername`, `sendVerificationEmail`,
  `verifyCode`, `cancelRegistration`, `updatePassword` and `changeLang`.
  Their state changes are single `setState` calls or UI plumbing.
- Register.RegisterForm.CheckUsername: `setState` inside a reply handler
  is taken to apply at once, so the suggestion search starts from the reset
  counter. This is how React treats updates outside its own event
  batching; batched updates are not modelled.
- `Math.random` is left out: each probe's random suffix is an input.
- Register.RegisterForm.SaveNameOrPassword: the profile and password
  replies arrive in an unknown order. The model takes the profile reply
  first, so the order of the two connection-error notices can differ from
  an actual session.
- Register.RegisterForm.GetUsernameSuggestion: the recursion through
  asynchronous replies is a loop over a given sequence of replies. When the
  replies run out, the search ends as `Unanswered`; that stands for a search
  still waiting for a reply.
- OidcResource.DpopProof: `typ`, `alg` and the full header are separate
  inputs, because the library answers them separately and the full header
  can be missing while `typ` and `alg` are known (`oidc_resource.c:327`).
  Nothing ties `typ` and `alg` to the header's members, so proofs the
  library cannot produce are also covered.
- PluginEdit.js `exportRecord` and `importRecord` (a download anchor and a
  file picker) are browser plumbing. So are `FileReader` and `JSON.parse`:
  the parse result is an input, a plugin record or a failure. A parsed
  JSON value that is not an object is not modelled.
- PluginEdit.PluginEditor.ChangeName, ChangeDisplayName, ChangeType,
  ChangeParameters: the source changes the parent's `mod` object in place,
  so the parent sees the edit too. The model replaces a value field, so that
  aliasing is not captured.
- PluginEdit.PluginEditor.HandleModPluginMessage: a callback is taken to be
  present when a record is accepted. The source calls it unguarded.
- Rendering of the plugin editor, and its other state fields (`config`,
  `modSchemes`, `title`, `role`, `modTypes`, `miscConfig`), which only feed
  rendering.

## Findings

| source | as written | input that shows it | evidently intended | confidence | as-written member | corrected member |
|---|---|---|---|---|---|---|
| docs/resources/ulfius/oidc_resource.c:314 | A DPoP proof is refused as an invalid token when its `typ` header contains "dpop+jwt" (a missing `typ` passes). | A proof with `typ` "dpop+jwt" that passes every other check: the proof of `OidcResource.CompliantProofRefusedAsWritten` (ES256, matching `htm`, `htu`, `ath` and `jkt`, `iat` 90 at `now` 100 with `max_iat` 60). | Refuse the proof unless `typ` is exactly "dpop+jwt", as RFC 9449 section 4.3 requires. | high; not executed | OidcResource.VerifyDpopProofAsWritten | OidcResource.VerifyDpopProof |

With the test as written, the only DPoP proofs that can get a token
through the callback are those with no `typ`, or a `typ` that is not the
one RFC 9449 prescribes.
`OidcResource.AsWrittenRejectsCompliantTyp` proves this for every proof with
the compliant `typ`. `OidcResource.CheckAccessToken` models the callback both
ways. With `asWritten` it calls the check as written, and
`OidcResource.AsWrittenCallbackRefusesCompliantProof` shows that such a request
is then refused. Without it, the callback uses the corrected test.
