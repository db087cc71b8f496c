# AxiomHive client core in Dafny

A Dafny model of the decision logic inside the AxiomHive iOS client. The client signs
transaction requests to the AxiomHive compute API and trusts a response only after checking
the deterministic proof the server attaches to it. The model covers:

- **The response-trust protocol** (`AxiomHiveService`, `DeterministicProof`, `AxiomError`):
  - the HTTP status switch, classified by the status classes of section 15 of RFC 9110;
  - the `verifyProof` guard chain, for both `executeTransaction` and `queryStatus`;
  - request signing: base64 (section 4 of RFC 4648) of HMAC-SHA256 (RFC 2104) over the
    encoded request.
- **The crypto helpers** (`CryptoUtilities`): hex digests, HMAC sign/verify, nonce and token
  shapes, key derivation and the timestamp tolerance.
- **The value models** (`Transaction`, `TransactionRequest`, `AnyCodable`, `User`): the
  recursive `AnyCodable` value tree with its decode precedence, encode rules and scalar-only
  `==`; durations, success rates and defaults.
- **The string validators**: `truncated`, `isValidPassword` and the whole-string
  `isValidEmail` pattern.
- **The observable state** of `AppState`, `TransactionViewModel` and `HomeViewModel`. These
  are Dafny classes whose methods change their fields in place, exactly as the Swift methods
  do. Each method's `ensures` states the whole new state in terms of the old one and of the
  functions on values proved about above.

Time is an exact `real` number of seconds. Every `Date()` reading becomes a parameter, and so
does every `UUID()` or random draw. The network is a function from the outgoing request to a
transport outcome. SHA-256, HMAC-SHA256, `JSONEncoder` serialisation of the wire tree,
ISO-8601 date formatting, `JSONDecoder` of a response and `URL(string:)` are all
function-valued fields of two records, `CryptoUtilities.Primitives` and
`Service.Environment`. Nothing is assumed about them beyond their types.

One module per source file, plus `Wrappers` (`Option`/`Result`) and `Encodings` (UTF-8,
base64, hex and the UUID string: the Foundation conversions the source relies on).

## Model

| member | source | states |
|---|---|---|
| Encodings.Utf8Append | AxiomHiveApp/Utilities/CryptoUtilities.swift:56-61 | the UTF-8 bytes of a concatenation are the concatenation of the UTF-8 bytes |
| Encodings.Utf8OfAscii | AxiomHiveApp/Utilities/CryptoUtilities.swift:25 | an ASCII string encodes to one byte per character, equal to the character code |
| Encodings.Utf8 | AxiomHiveApp/Utilities/CryptoUtilities.swift:25 | `Data(key.utf8)` is the UTF-8 (RFC 3629) encoding, one to four bytes per character; the one-byte case is exactly ASCII, and `Utf8Append` proves it distributes over concatenation |
| Encodings.Base64Encode | AxiomHiveApp/Utilities/CryptoUtilities.swift:27 | `base64EncodedString` gives 4 characters per started 3-byte group, all from the RFC 4648 alphabet or '=' |
| Encodings.Base64Decode | AxiomHiveApp/Utilities/CryptoUtilities.swift:27 | the inverse of `base64EncodedString` (groups of four characters, '=' padding); `Base64RoundTrip` proves it undoes the encoder |
| Encodings.Base64RoundTrip | AxiomHiveApp/Utilities/CryptoUtilities.swift:27 | decoding the base64 text gives the bytes back, for every byte string |
| Encodings.Base64Padding | AxiomHiveApp/Utilities/CryptoUtilities.swift:27 | the text ends in '=' exactly when the byte count is not a multiple of three |
| Encodings.Base64Injective | AxiomHiveApp/Utilities/CryptoUtilities.swift:27 | two byte strings have the same base64 text if and only if they are equal |
| Encodings.DecodeEncodeGroup | AxiomHiveApp/Utilities/CryptoUtilities.swift:27 | each encoded group of one to three bytes decodes back to those bytes |
| Encodings.Hex | AxiomHiveApp/Utilities/CryptoUtilities.swift:15 | `%02x` per byte: exactly two hex digits per byte, of the requested case |
| Encodings.HexDecode | AxiomHiveApp/Utilities/CryptoUtilities.swift:15 | the inverse of the `%02x` rendering (two hex digits per byte); `HexRoundTrip` proves it undoes it |
| Encodings.HexRoundTrip | AxiomHiveApp/Utilities/CryptoUtilities.swift:15 | the hex text decodes back to the bytes |
| Encodings.HexInjective | AxiomHiveApp/Utilities/CryptoUtilities.swift:15 | two byte strings have the same hex text if and only if they are equal |
| Encodings.UuidString | AxiomHiveApp/Models/Transaction.swift:75 | `uuidString` is 36 characters: dashes at 8, 13, 18 and 23, upper-case hex digits elsewhere |
| Encodings.IntToString | AxiomHiveApp/Services/AxiomHiveService.swift:63 | `"\(statusCode)"` is the canonical decimal numeral of the code (digits only, no leading zero, denoting the code), with a leading '-' exactly for a negative code |
| Encodings.IntToStringInjective | AxiomHiveApp/Services/AxiomHiveService.swift:63 | two codes have the same decimal text if and only if they are equal |
| CryptoUtilities.Sha256Hash | AxiomHiveApp/Utilities/CryptoUtilities.swift:13-16 | the digest text is 64 lower-case hex digits and decodes to the 32 digest bytes |
| CryptoUtilities.Sha256HashOfString | AxiomHiveApp/Utilities/CryptoUtilities.swift:18-21 | hashing a string gives 64 characters that decode to the SHA-256 digest of its UTF-8 bytes |
| CryptoUtilities.HmacSignature | AxiomHiveApp/Utilities/CryptoUtilities.swift:24-28 | the signature is 44 base64 characters ending in '=', and decodes to the MAC keyed with the key's UTF-8 bytes |
| CryptoUtilities.HmacSignatureOfString | AxiomHiveApp/Utilities/CryptoUtilities.swift:30-33 | signing a string gives 44 characters that decode to the HMAC of its UTF-8 bytes under the key's UTF-8 bytes |
| CryptoUtilities.VerifyHmacSignature | AxiomHiveApp/Utilities/CryptoUtilities.swift:36-43 | a signature verifies when it equals the recomputed signature; `SignThenVerify` and `VerifyOtherData` state when that happens |
| CryptoUtilities.SignThenVerify | AxiomHiveApp/Utilities/CryptoUtilities.swift:36-43 | a signature made for some data and key verifies for the same data and key |
| CryptoUtilities.VerifyOtherData | AxiomHiveApp/Utilities/CryptoUtilities.swift:36-43 | it verifies for other data exactly when the two MACs coincide: base64 adds no collisions |
| CryptoUtilities.Nonce | AxiomHiveApp/Utilities/CryptoUtilities.swift:46-49 | the nonce is the base64 of exactly the drawn bytes (44 characters for the default 32) and decodes back to them |
| CryptoUtilities.SecureToken | AxiomHiveApp/Utilities/CryptoUtilities.swift:51-53 | the token is the 36-character UUID string, a dash, then 24 base64 characters that decode to the 16 drawn bytes |
| CryptoUtilities.DeriveKey | AxiomHiveApp/Utilities/CryptoUtilities.swift:56-63 | one SHA-256 pass over the password bytes followed by the salt bytes; `DeriveKeyOfConcatenation` restates it over the concatenated strings |
| CryptoUtilities.DeriveKeyOfConcatenation | AxiomHiveApp/Utilities/CryptoUtilities.swift:56-63 | the derived key is SHA-256 of the UTF-8 bytes of password followed by salt |
| CryptoUtilities.IsTimestampValid | AxiomHiveApp/Utilities/CryptoUtilities.swift:99-106 | the clock reading is a parameter and the tolerance defaults to 300 s; `TimestampToleranceShape` gives its meaning as an interval |
| CryptoUtilities.TimestampToleranceShape | AxiomHiveApp/Utilities/CryptoUtilities.swift:99-106 | the check is symmetric in past and future, inclusive at both bounds, and equivalent to now - tolerance <= t <= now + tolerance |
| CryptoUtilities.TimestampFourHundredSecondsOff | AxiomHiveApp/Utilities/CryptoUtilities.swift:99-106 | with the default 300 s tolerance, 400 s in the past or in the future is rejected and now is accepted |
| AnyCodable.Decode | AxiomHiveApp/Models/Transaction.swift:104-125 | a successful decode yields only Bool, Int, Double, String, array and dictionary payloads, with an Int whenever the number fits |
| AnyCodable.Encode | AxiomHiveApp/Models/Transaction.swift:127-152 | encoding succeeds exactly for values made only of the six supported shapes, and never produces a JSON null |
| AnyCodable.DecodeSucceedsIffNullFree | AxiomHiveApp/Models/Transaction.swift:104-125 | decoding fails exactly when the tree contains a null somewhere, because null matches none of the six attempts |
| AnyCodable.DecodeAfterEncode | AxiomHiveApp/Models/Transaction.swift:104-152 | decoding an encoded value gives it back, except that integral doubles in Int range come back as Int |
| AnyCodable.NormalizeDecodedForm | AxiomHiveApp/Models/Transaction.swift:109-112 | that normalisation leaves decoded values unchanged |
| AnyCodable.Normalize | AxiomHiveApp/Models/Transaction.swift:109-112 | what a value becomes on the wire and back: an integral double in Int range becomes that Int; `NormalizeDecodedForm` and `DecodeAfterEncode` state its role |
| AnyCodable.DecodedFormIsSupported | AxiomHiveApp/Models/Transaction.swift:104-152 | every decoded value can be encoded again |
| AnyCodable.RoundTripDecodedForm | AxiomHiveApp/Models/Transaction.swift:104-152 | a value in decoded form survives encode then decode unchanged |
| AnyCodable.EncodeAfterDecode | AxiomHiveApp/Models/Transaction.swift:104-152 | re-encoding a decoded tree gives back the same tree |
| AnyCodable.IntegralDoubleComesBackAsInt | AxiomHiveApp/Models/Transaction.swift:109-112 | `AnyCodable(2.0)` comes back from the wire as the Int 2 |
| AnyCodable.Equals | AxiomHiveApp/Models/Transaction.swift:154-167 | the custom `==`; `EqualsIsScalarEquality` characterises it |
| AnyCodable.EqualsIsScalarEquality | AxiomHiveApp/Models/Transaction.swift:154-167 | `==` holds exactly for two equal scalars of the same kind |
| AnyCodable.EqualsNotReflexive | AxiomHiveApp/Models/Transaction.swift:164-165 | an array or a dictionary is unequal even to itself |
| Responses.ValidityConditions | AxiomHiveApp/Models/AxiomResponse.swift:72-86 | a valid proof has a non-empty signature and hash, the pinned algorithm and an age under 300 s; an empty signature or hash makes it invalid |
| Responses.IsValid | AxiomHiveApp/Models/AxiomResponse.swift:72-86 | `isValid` with the clock reading as a parameter; `ValidityConditions`, `FreshnessBoundary` and `FutureDatedProofAccepted` give its meaning |
| Responses.AlgorithmPinned | AxiomHiveApp/Models/AxiomResponse.swift:76 | any algorithm other than exactly "HMAC-SHA256" is invalid, including "hmac-sha256" and "INVALID" |
| Responses.FreshnessBoundary | AxiomHiveApp/Models/AxiomResponse.swift:81-82 | ages 0 and 299 are valid, ages 300 and 301 are not |
| Responses.FutureDatedProofAccepted | AxiomHiveApp/Models/AxiomResponse.swift:81-85 | a proof dated any amount in the future, with otherwise valid fields, is accepted |
| Responses.ProofFreshnessVersusTolerance | AxiomHiveApp/Models/AxiomResponse.swift:81-82 | the proof check is strict and one-sided while the timestamp tolerance is inclusive and symmetric; they agree on ages in [0, 300) |
| Responses.ErrorDescriptionKeepsPayload | AxiomHiveApp/Models/AxiomResponse.swift:124-143 | two errors of the same case have the same description if and only if they are equal: the message, the cause text and the status code can all be read back |
| Responses.ServerErrorTextKeepsPayload | AxiomHiveApp/Models/AxiomResponse.swift:138-139 | "Server error (<code>): <message>" determines both the code and the message |
| Responses.ErrorDescription | AxiomHiveApp/Models/AxiomResponse.swift:124-143 | `errorDescription`, case by case; `ErrorDescriptionKeepsPayload` and `ServerErrorDescription` state what it shows |
| Responses.LocalizedDescription | AxiomHiveApp/ViewModels/TransactionViewModel.swift:72 | the `localizedDescription` of a thrown error: the `errorDescription` of an `AxiomError`, otherwise Foundation's text carried by the cause |
| Responses.ServerErrorDescription | AxiomHiveApp/Models/AxiomResponse.swift:138-139 | the description of `serverError(503, "Server error")` is "Server error (503): Server error" |
| Transactions.TransactionTypeCases | AxiomHiveApp/Models/Transaction.swift:49-55 | `allCases` lists five distinct types, and raw values convert both ways |
| Transactions.TypeRawValue | AxiomHiveApp/Models/Transaction.swift:49-55 | the five raw values; `TransactionTypeCases` proves they convert back |
| Transactions.StatusRawValueRoundTrip | AxiomHiveApp/Models/Transaction.swift:57-63 | the status raw values convert both ways |
| Transactions.StatusRawValue | AxiomHiveApp/Models/Transaction.swift:57-63 | the five raw values; `StatusRawValueRoundTrip` proves they convert back |
| Transactions.NewTransaction | AxiomHiveApp/Models/Transaction.swift:21-41 | a new transaction carries the given fields, has no response, error or completion time, and so no duration |
| Transactions.Duration | AxiomHiveApp/Models/Transaction.swift:43-46 | the duration is absent exactly when there is no completion time; otherwise creation time plus duration is the completion time |
| Transactions.DurationOfCompletedTransaction | AxiomHiveApp/Models/Transaction.swift:43-46 | completing 5 s after creation gives a positive duration |
| Transactions.CountWithStatus | AxiomHiveApp/ViewModels/HomeViewModel.swift:49-50 | a status filter's count never exceeds the list length |
| Transactions.CompletedAndFailedWithinTotal | AxiomHiveApp/ViewModels/HomeViewModel.swift:48-50 | completed plus failed never exceeds the total |
| Transactions.EncodeRequest | AxiomHiveApp/Models/Transaction.swift:65-82 | the request encodes exactly when every parameter is supported, as an object with the four keys, its nonce and the encoded parameter map |
| Users.ThemeCases | AxiomHiveApp/Models/User.swift:66-70 | three distinct themes with distinct raw values |
| Users.DefaultPreferencesValues | AxiomHiveApp/Models/User.swift:53-63 | defaults: notifications on, biometrics off, system theme, language "en" |
| Users.SuccessRateMeaning | AxiomHiveApp/Models/User.swift:93-96 | 0 without transactions; otherwise rate times total is 100 times the successes; and within [0, 100] for consistent counters |
| Users.SuccessRate | AxiomHiveApp/Models/User.swift:93-96 | `successRate`; `SuccessRateMeaning` gives its meaning |
| Users.SuccessRateExamples | AxiomHiveApp/Models/User.swift:79-96 | 85 of 100 gives 85, a zero total gives 0, and the all-zero defaults give 0 |
| StringExtensions.Truncated | AxiomHiveApp/Utilities/Extensions.swift:92-95 | a short string is returned unchanged; a longer one becomes its first `length` characters followed by `trailing` |
| StringExtensions.TruncatedIdempotent | AxiomHiveApp/Utilities/Extensions.swift:92-95 | truncating twice is truncating once |
| StringExtensions.TruncatedExample | AxiomHiveApp/Utilities/Extensions.swift:92-95 | the 54-character sentence truncated to 10 has 13 characters and ends in "..." |
| StringExtensions.MatchesClassRunIff | AxiomHiveApp/Utilities/Extensions.swift:78-85 | `.*[C]+.*` matches a whole string exactly when it has no line terminator and contains a character of C |
| StringExtensions.PasswordRule | AxiomHiveApp/Utilities/Extensions.swift:74-90 | valid if and only if at least 8 characters, no line terminator, a digit and one of the special characters |
| StringExtensions.IsValidPassword | AxiomHiveApp/Utilities/Extensions.swift:74-90 | the three guards with the regexes matched whole-string; `PasswordRule` gives its meaning |
| StringExtensions.PasswordAccepted | AxiomHiveApp/Utilities/Extensions.swift:74-90 | "Password123!" is valid |
| StringExtensions.ShortPasswordRejected | AxiomHiveApp/Utilities/Extensions.swift:75 | "short" is invalid |
| StringExtensions.PasswordWithoutDigitRejected | AxiomHiveApp/Utilities/Extensions.swift:77-81 | "NoNumbers!" is invalid |
| StringExtensions.PasswordWithoutSpecialRejected | AxiomHiveApp/Utilities/Extensions.swift:83-87 | "NoSpecial123" is invalid |
| StringExtensions.PasswordWithNewlineRejected | AxiomHiveApp/Utilities/Extensions.swift:78-85 | a trailing newline makes an otherwise valid password invalid |
| StringExtensions.EmailPatternIsDeterministic | AxiomHiveApp/Utilities/Extensions.swift:68-72 | the pattern matches exactly when splitting at the first '@' and the last '.' gives a valid local part, domain and 2-64 letter top-level domain |
| StringExtensions.IsValidEmail | AxiomHiveApp/Utilities/Extensions.swift:68-72 | the pattern as a whole-string match with backtracking; `EmailPatternIsDeterministic` gives its meaning |
| StringExtensions.EmailShape | AxiomHiveApp/Utilities/Extensions.swift:68-72 | a valid address does not start with '@', ends in a letter and has exactly one '@' |
| StringExtensions.SimpleEmailAccepted | AxiomHiveApp/Utilities/Extensions.swift:68-72 | "test@example.com" is valid |
| StringExtensions.TaggedEmailAccepted | AxiomHiveApp/Utilities/Extensions.swift:68-72 | "user.name+tag@example.co.uk" is valid |
| StringExtensions.EmailsRejected | AxiomHiveApp/Utilities/Extensions.swift:68-72 | "invalid-email", "@example.com" and "test@.com" are invalid |
| Service.StatusMapping | AxiomHiveApp/Services/AxiomHiveService.swift:55-68 | no error exactly for 2xx; 401 and 429 get their own errors; `invalidRequest` exactly for other 4xx; `serverError(code, "Server error")` exactly for 5xx; `invalidResponse` exactly for every other code |
| Service.StatusError | AxiomHiveApp/Services/AxiomHiveService.swift:55-68 | the `switch` on the status code; `StatusMapping` characterises it by status class |
| Service.ClassOf | AxiomHiveApp/Services/AxiomHiveService.swift:55-68 | the status classes of section 15 of RFC 9110, against which `StatusMapping` reads the switch |
| Service.ClientErrorMessage | AxiomHiveApp/Services/AxiomHiveService.swift:62-63 | 404 gives `invalidRequest("Client error: 404")` |
| Service.VerifyProof | AxiomHiveApp/Services/AxiomHiveService.swift:120-144 | succeeds exactly when the proof is valid, uses the pinned algorithm, has a non-empty signature and hash and carries the request's nonce; every failure is `invalidProof` |
| Service.VerifyProofIsValidityPlusNonce | AxiomHiveApp/Services/AxiomHiveService.swift:120-144 | the later guards are implied by `isValid`, so acceptance is validity plus the nonce match |
| Service.ForeignNonceRejected | AxiomHiveApp/Services/AxiomHiveService.swift:140-143 | a valid proof carrying another request's nonce is rejected with `invalidProof` |
| Service.SignRequest | AxiomHiveApp/Services/AxiomHiveService.swift:109-118 | signing succeeds exactly when the request encodes, failing with the encoder's error otherwise; the header is 44 characters that decode to the HMAC of the encoded bytes under the API key |
| Service.SignatureDependsOnEncodedBytes | AxiomHiveApp/Services/AxiomHiveService.swift:109-118 | requests with the same encoded bytes get the same header, and it verifies against those bytes |
| Service.SignatureSeparatesKeys | AxiomHiveApp/Services/AxiomHiveService.swift:109-118 | keys whose MACs differ give different headers |
| Service.ExecuteReply | AxiomHiveApp/Services/AxiomHiveService.swift:48-83 | a successful reply holds a valid proof carrying the request's nonce; every failure is an `AxiomError` |
| Service.ExecuteSuccessIsVerifiedDecoding | AxiomHiveApp/Services/AxiomHiveService.swift:50-80 | success with a response exactly when the reply is HTTP 2xx, the body decodes to that response and its proof verifies |
| Service.DecodingErrorOnlyFromDecoder | AxiomHiveApp/Services/AxiomHiveService.swift:74-83 | `decodingError(c)` arises exactly when a 2xx body fails to decode with c |
| Service.InvalidProofPropagates | AxiomHiveApp/Services/AxiomHiveService.swift:74-83 | a decoded response whose proof fails gives `invalidProof`, not `decodingError` |
| Service.StatusErrorBeforeDecoding | AxiomHiveApp/Services/AxiomHiveService.swift:55-68 | a non-2xx status fails with its status error whatever the body holds |
| Service.QueryReply | AxiomHiveApp/Services/AxiomHiveService.swift:97-106 | a status query succeeds exactly for HTTP 200 with a decodable body, and returns the decoded response |
| Service.QueryRejectsOtherSuccessCodes | AxiomHiveApp/Services/AxiomHiveService.swift:99-102 | every other status, 201-299 included, gives `invalidResponse` |
| Service.QueryAcceptsUncheckedProof | AxiomHiveApp/Services/AxiomHiveService.swift:104-106 | a status query returns a response whose proof is invalid, which `executeTransaction` would reject |
| Service.QueryDecodingErrorUnwrapped | AxiomHiveApp/Services/AxiomHiveService.swift:104-106 | a status query's decode failure is thrown as is, not wrapped |
| Service.AxiomHiveService.constructor | AxiomHiveApp/Services/AxiomHiveService.swift:16-24 | the service keeps the base URL (defaulting to `Constants.API.baseURL`) and the API key it is given |
| Service.AxiomHiveService.ExecuteRequest | AxiomHiveApp/Services/AxiomHiveService.swift:27-45 | the request goes out as a POST to `<base>/execute` with exactly the bearer token, JSON content type and signature headers, and its body is the encoded request; the signature header verifies against that body |
| Service.AxiomHiveService.ExecuteResult | AxiomHiveApp/Services/AxiomHiveService.swift:26-84 | a result is returned only with a valid proof for the request's nonce; a bad URL gives `invalidRequest("Invalid URL")`, and an unencodable request gives the encoder's error |
| Service.AxiomHiveService.ExecuteTransaction | AxiomHiveApp/Services/AxiomHiveService.swift:26-84 | a request goes out exactly when the URL is valid and the request encodes, and it is that POST; the outcome is the protocol's result |
| Service.AxiomHiveService.QueryStatus | AxiomHiveApp/Services/AxiomHiveService.swift:86-107 | a bad URL sends nothing and fails; otherwise it sends a GET to `<base>/status/<id>` with only the bearer header, and returns the status query's result |
| ApplicationState.Tally | AxiomHiveApp/ViewModels/AppState.swift:90-97 | the total always grows by one; successes grow only for a completed transaction and failures only for a failed one |
| ApplicationState.TallyAllCounts | AxiomHiveApp/ViewModels/AppState.swift:86-99 | after a run of additions, the counters have grown by the number added and by the completed and failed counts among them |
| ApplicationState.TallyPreservesConsistency | AxiomHiveApp/ViewModels/AppState.swift:90-97 | counters with successes plus failures within the total stay that way, with a non-negative rate |
| ApplicationState.FirstIndexWithId | AxiomHiveApp/ViewModels/AppState.swift:102 | `firstIndex(where:)` finds the first transaction with the id, or there is none |
| ApplicationState.Updated | AxiomHiveApp/ViewModels/AppState.swift:101-105 | the length is kept; with no match the list is unchanged; otherwise only the first match is replaced |
| ApplicationState.UpdatedIdempotent | AxiomHiveApp/ViewModels/AppState.swift:101-105 | replacing the same transaction twice is replacing it once |
| ApplicationState.UpdateAfterInsert | AxiomHiveApp/ViewModels/AppState.swift:86-105 | replacing right after inserting a transaction with the same id replaces the inserted front element |
| ApplicationState.AppState.constructor | AxiomHiveApp/ViewModels/AppState.swift:13-18 | there is no user, the flags are false, there is no error and the list is empty |
| ApplicationState.AppState.LoadCurrentUser | AxiomHiveApp/ViewModels/AppState.swift:35-47 | a stored user signs in; no stored user changes nothing; a failure sets only the error fields; loading ends false |
| ApplicationState.AppState.Authenticate | AxiomHiveApp/ViewModels/AppState.swift:49-78 | sign-in and sign-up: success sets the user and `isAuthenticated`; failure sets only the error fields; loading ends false |
| ApplicationState.AppState.SignOut | AxiomHiveApp/ViewModels/AppState.swift:80-84 | no user, not authenticated and an empty list; the rest is unchanged |
| ApplicationState.AppState.AddTransaction | AxiomHiveApp/ViewModels/AppState.swift:86-99 | the transaction goes in front of the old list; a current user gets its counters tallied; without one the user stays absent |
| ApplicationState.AppState.UpdateTransaction | AxiomHiveApp/ViewModels/AppState.swift:101-105 | the list becomes the first-match replacement, and nothing else changes |
| ApplicationState.AppState.ClearTransactions | AxiomHiveApp/ViewModels/AppState.swift:107-109 | the list is empty and nothing else changes |
| ApplicationState.AppState.HandleError | AxiomHiveApp/ViewModels/AppState.swift:111-114 | the error is set and shown; nothing else changes |
| ApplicationState.AppState.ClearError | AxiomHiveApp/ViewModels/AppState.swift:116-119 | the error is cleared and hidden; nothing else changes |
| TransactionFlow.RequestFor | AxiomHiveApp/ViewModels/TransactionViewModel.swift:40-43 | the request carries the operation, the parameters, the current time and a 36-character UUID string as its nonce |
| TransactionFlow.Settle | AxiomHiveApp/ViewModels/TransactionViewModel.swift:55-79 | success means completed with the response; failure means failed with an `EXECUTION_FAILED` error holding the error's description; both are stamped with the completion time, and identity, request and creation time are kept |
| TransactionFlow.SettledSuccessIsVerified | AxiomHiveApp/ViewModels/TransactionViewModel.swift:55-66 | a transaction that settles as completed holds a response whose proof was valid and carries the transaction's own nonce |
| TransactionFlow.TransactionViewModel.constructor | AxiomHiveApp/ViewModels/TransactionViewModel.swift:13-25 | no current transaction, not processing, no error, no success and no result |
| TransactionFlow.TransactionViewModel.ExecuteTransaction | AxiomHiveApp/ViewModels/TransactionViewModel.swift:27-80 | without a user: the error is `authenticationFailed` and nothing else changes. With a user: the settled transaction is current and heads the history; the total counter grows by one, with success and failure counts kept; the result or the error is set; processing ends false; `result` changes only to a response with a valid proof carrying this request's nonce |
| TransactionFlow.TransactionViewModel.RecordOutcome | AxiomHiveApp/ViewModels/TransactionViewModel.swift:55-79 | the settled transaction becomes current and replaces its entry; the response is published or the error is set |
| TransactionFlow.TransactionViewModel.CancelTransaction | AxiomHiveApp/ViewModels/TransactionViewModel.swift:82-90 | nothing happens without a current transaction; otherwise it is cancelled at `now` and replaced in the history; the other fields of both objects are unchanged |
| TransactionFlow.TransactionViewModel.ClearResult | AxiomHiveApp/ViewModels/TransactionViewModel.swift:92-96 | no result, no success and no current transaction |
| TransactionFlow.TransactionViewModel.RetryTransaction | AxiomHiveApp/ViewModels/TransactionViewModel.swift:98-106 | nothing happens without a current transaction; otherwise the whole new state is that of `executeTransaction` run with the current transaction's type, operation and parameters: a fresh transaction settled by the protocol heads the history, the total counter grows by one, the result or the error is set, and a changed result always holds a verified proof |
| Dashboard.Recent | AxiomHiveApp/ViewModels/HomeViewModel.swift:32 | the first min(10, n) transactions, in order |
| Dashboard.RecentIdempotent | AxiomHiveApp/ViewModels/HomeViewModel.swift:32 | taking the prefix twice changes nothing, and an empty history gives an empty list |
| Dashboard.CompletedOnes | AxiomHiveApp/ViewModels/HomeViewModel.swift:63 | the completed filter has as many elements as there are completed transactions, all of them completed; `CompletedOnesContents` gives its contents |
| Dashboard.CompletedOnesContents | AxiomHiveApp/ViewModels/HomeViewModel.swift:63 | the filter keeps each completed transaction of the history exactly as often as it occurs there, and no other: its multiset is the history's restricted to completed ones |
| Dashboard.Percentage | AxiomHiveApp/ViewModels/HomeViewModel.swift:57 | 0 for no transactions; otherwise the rate times the total is 100 times the part; within [0, 100] when the part is at most the whole |
| Dashboard.AverageResponseTime | AxiomHiveApp/ViewModels/HomeViewModel.swift:62-68 | 0 when nothing is completed; otherwise the average times the completed count is the summed durations of the completed transactions |
| Dashboard.AverageResponseTimeBounds | AxiomHiveApp/ViewModels/HomeViewModel.swift:62-68 | with every completed duration in [0, bound], the average is in [0, bound] |
| Dashboard.CompletedTotalBounds | AxiomHiveApp/ViewModels/HomeViewModel.swift:66 | with every completed duration in [0, bound], the summed durations are at most `bound` per completed transaction |
| Dashboard.MissingDurationLowersAverage | AxiomHiveApp/ViewModels/HomeViewModel.swift:63-67 | a completed transaction without a duration still counts in the denominator: 4 s and none average to 2 s |
| Dashboard.StatisticsOf | AxiomHiveApp/ViewModels/HomeViewModel.swift:48-68 | the counts are the history length and its completed and failed counts; completed plus failed never exceeds the total; the success rate is the completed share in percent, 0 for an empty history and always within [0, 100]; the average response time, times the completed count, is the summed durations of the completed transactions, and 0 when none is completed |
| Dashboard.HomeViewModel.constructor | AxiomHiveApp/ViewModels/HomeViewModel.swift:13-24 | no recent transactions, not loading, no error and no statistics |
| Dashboard.HomeViewModel.LoadDashboard | AxiomHiveApp/ViewModels/HomeViewModel.swift:26-39 | the recent list is the prefix of the history; statistics are computed only with a user; loading ends false and the error is untouched |
| Dashboard.HomeViewModel.RefreshData | AxiomHiveApp/ViewModels/HomeViewModel.swift:41-43 | the same as loading the dashboard |
| Dashboard.HomeViewModel.CalculateStatistics | AxiomHiveApp/ViewModels/HomeViewModel.swift:45-60 | without a user the statistics are unchanged; otherwise they are `StatisticsOf` the history |

## Left out

- SwiftUI views, `AxiomHiveAppApp.swift` and the view helpers in `Extensions.swift` are not modelled. They are presentation only, as are the date, duration and percentage formatting helpers, which depend on `Calendar`, `DateFormatter` and `String(format:)`.
- `NetworkService` and `URLSession` are not modelled. The transport is a function from the outgoing `HttpRequest` to an outcome. A transport failure arrives already wrapped as `networkError`, as `NetworkService.execute` wraps it. Timeouts and cancellation are not modelled.
- `AuthenticationService` is not modelled, and neither are the keychain and `UserDefaults`. `AppState` receives the outcome of `getCurrentUser`, `signIn` or `signUp` as a parameter, so `signIn` and `signUp` share one method, `Authenticate`. The `init` that starts `loadCurrentUser` in a `Task` is the constructor followed by a separate call.
- SHA-256 and HMAC-SHA256 are uninterpreted functions. AES-GCM `encrypt`/`decrypt` and `CryptoError` are not modelled, because no round-trip proof is possible over an uninterpreted cipher.
- Randomness and the clock are inputs: `UUID()`, the nonce bytes and every `Date()` reading. Nonce uniqueness is probabilistic and not stated. `generateNonce` does not model drawing `length` bytes. It takes the drawn bytes.
- `JSONEncoder` byte serialisation, ISO-8601 date text, `JSONDecoder` of an `AxiomResponse` and `URL(string:)` are abstract functions. Key order is whatever the encoder does: the source does not sort keys, so no key-order-independent canonical form is claimed, whatever a canonical signing scheme would call for. The serialiser takes a `Json` tree whose objects are Dafny maps, which have no order, so in the model two requests with equal parameter maps serialise to the same bytes; Swift's `[String: AnyCodable]` order can depend on insertion history and per-process hash seeding, which the model does not capture. The signature and the body still encode the same instance, so they agree.
- Transactions.EncodeRequest: the encoding of a request's `Date` is the abstract ISO-8601 text, and number lexemes are not distinguished. A decoded integral `Double` therefore comes back as `Int`, as `AnyCodable.DecodeAfterEncode` states.
- `async`, `await`, `@MainActor` and `defer` are sequential steps. The state after the method returns is what is stated. Intermediate published values, such as `isProcessing` being true during the call, are not observable in the model.
- AnyCodable.Encode: a Swift `Double` is an exact real, so NaN and the infinities cannot be represented. `JSONEncoder`'s default non-conforming-float strategy throws for them, and the model has no such failure. Rounding a JSON number to the nearest `Double` on decoding is not modelled either.
- Counters are unbounded integers, so Swift `Int` overflow traps are not modelled. Durations, averages and rates are exact reals, not `Double`, so rounding is not modelled.
- Strings are sequences of Unicode scalars. `count` and `prefix` in `truncated` and `isValidPassword` count grapheme clusters in Swift, and the model counts scalars, so the two differ for combining sequences.
- StringExtensions.Truncated takes a non-negative length. A negative length makes Swift's `prefix` trap, so that path has no result to model.
- `ResponseMetadata`, `AxiomResult` and the response's own timestamp are kept as opaque records. Nothing in the core inspects them.
- `LocalizedDescription` of Foundation errors (decoding, encoding, network) is an opaque message carried by `Cause`. The text Foundation gives the `EncodingError.invalidValue` of an unsupported `AnyCodable` value is the `encodingFailure` field of `Service.Environment`. It is not the "Unsupported type" debug description.
- `HomeViewModel.error` can never be set, because nothing in the `do` block throws. `LoadDashboard` states that it is unchanged.
- TransactionFlow.TransactionViewModel.ExecuteTransaction: the model does not model the user changing between the `guard` and the write-back, which concurrent `MainActor` code could interleave.
