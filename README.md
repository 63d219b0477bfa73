# CloudNet: RPC name validation and HTTP authentication, modelled in Dafny

This project models two pieces of CloudNet v3.

**The build-time RPC name-uniqueness check** (`RpcValidation`, in `rpc_validation.dfy`).
The check forbids two exposed methods of one type from sharing a simple name. An
annotation processor runs over every type annotated `@RPCValidation`, compiler round after
compiler round.
For each such type it records the simple names of its methods, filtered three ways:
- only enclosed elements of kind METHOD count;
- without `includeStaticMethods`, a type that is itself `static` records nothing;
- a name that matches the whole `excludePattern` is dropped.

The names are appended to a per-type list that lives across rounds. When processing is
over, the processor throws for a type whose list holds some name more than once, or else
clears the lists. The class `RpcValidationProcessor` holds that accumulator (`elements`,
`None` for Java's `null`). Its `Process` method is proved against the specification
functions `Collect`, `Duplicates` and `FindAnnotation`. Lemmas then state:
- what a type records;
- that recording only appends;
- that the reported set is exactly the names occurring at two positions;
- that a type passes exactly when its names are pairwise different.

**The HTTP session table and Authorization handling** (`HttpAuthentication` in
`http_authentication.dfy`, and `LoginResults` in `login_result.dfy`). The class
`V2HttpAuthentication` holds the map of sessions keyed by user id. Its methods clean up
expired entries on every read, create a session only if none is live, look sessions up
by session id, and expire them. Most methods are proved against a specification function
(`Live`, `Created`, `SessionWithId`, `BasicLogin`, `BearerLogin`). The exceptions are
`ExpireSession` and `RefreshJwt`, whose contracts state the new table directly as a map
update of the old one.

The Authorization header is classified two ways:
- `Basic <token>`, whose decoded credentials are split at the first colon
  (section 2 of RFC 7617);
- `Bearer <token>` (section 2.1 of RFC 6750), whose JWT claims must name a live session
  of an existing user.

The class invariant `WellKeyed` says two things: every session is filed under its owner's
user id, and no two sessions share a session id.

Foreign collaborators are parameters:
- the clock (`now`);
- the JWT parser (`parse`, giving claims, an expired or premature token, or a rejection);
- `UUID.fromString` (`parseUuid`);
- Base64 followed by UTF-8 decoding (`decode`; `None` means the decoder threw);
- the permission store (`Permissions`: users by id, users by name, the password check);
- the regular-expression engine (`matches`, whole-string semantics).

Two facts about the processor shape the model:
- `Process` throws for the first offending type in the accumulator's iteration order, and
  reports only that one.
- Without `includeStaticMethods`, the skip tests the annotated *type's* own STATIC modifier
  (RPCValidationProcessor.java:80), so a non-static type records its static methods too.
  `StaticTypeRecordsNothing` and `EmptyPatternRecordsAllMethods` state this.

Session expiry is a Java `long`: `createJwt` adds the session time to the clock with
64-bit wrap-around (`AddLong`), so a session time that overflows issues a session that
has already expired (`OverflowingSessionIsBornExpired`).

## Model

| member | source | states |
|---|---|---|
| `RpcValidation.FindAnnotation` | driver/src/ap/java/eu/cloudnetservice/cloudnet/ap/RPCValidationProcessor.java:120-125 | returns the first mirror of the requested annotation type, with none of that type before it; returns none exactly when no mirror has that type (the source then throws) |
| `RpcValidation.Recorded` | driver/src/ap/java/eu/cloudnetservice/cloudnet/ap/RPCValidationProcessor.java:74-86 | defines when one member is recorded: the three `continue` guards all pass; its consequences are stated by `RecordedIsUnmatchedMethods` and the lemmas after it |
| `RpcValidation.RecordedNames` | driver/src/ap/java/eu/cloudnetservice/cloudnet/ap/RPCValidationProcessor.java:74-92 | defines the names one type contributes in a round, in encounter order; `RecordedIsUnmatchedMethods` pins it to the METHOD names minus the excluded ones |
| `RpcValidation.Append` | driver/src/ap/java/eu/cloudnetservice/cloudnet/ap/RPCValidationProcessor.java:87-92 | defines `computeIfAbsent(...).add(...)` for each name, creating the map on the first name; `AppendExtends` and `RecordedAgainIsDuplicate` state its properties |
| `RpcValidation.CollectTypes` | driver/src/ap/java/eu/cloudnetservice/cloudnet/ap/RPCValidationProcessor.java:62-95 | defines the accumulator after the round's types in order, stopping at the first without the annotation; `CollectStops` and `CollectTypesAppends` state its properties |
| `RpcValidation.Collect` | driver/src/ap/java/eu/cloudnetservice/cloudnet/ap/RPCValidationProcessor.java:60-95 | defines a round's accumulation: nothing when the round offers no annotation type, else `CollectTypes` |
| `RpcValidation.Frequency` | driver/src/ap/java/eu/cloudnetservice/cloudnet/ap/RPCValidationProcessor.java:103 | defines `Collections.frequency`; `FrequencyPositive`, `FrequencyAppend` and `RepeatedIffFrequency` state its properties |
| `RpcValidation.Duplicates` | driver/src/ap/java/eu/cloudnetservice/cloudnet/ap/RPCValidationProcessor.java:102-104 | defines the set the final check collects for one type; `DuplicatesAreRepeated` and `NoDuplicatesIffDistinct` characterise it |
| `RpcValidation.RpcValidationProcessor.constructor` | driver/src/ap/java/eu/cloudnetservice/cloudnet/ap/RPCValidationProcessor.java:45 | the accumulator starts out null |
| `RpcValidation.RpcValidationProcessor.Process` | driver/src/ap/java/eu/cloudnetservice/cloudnet/ap/RPCValidationProcessor.java:59-118 | a missing annotation throws and keeps what the round had recorded so far; a round that is not the last, or one after which nothing is recorded, never checks or fails; in the last round some type with a repeated name is reported, with its simple name and exactly its duplicate set, and the accumulator is kept; otherwise the accumulator is reset to null; the returned flag is always false; the accumulator stays null or non-empty with non-empty lists |
| `RpcValidation.RpcValidationProcessor.CollectRound` | driver/src/ap/java/eu/cloudnetservice/cloudnet/ap/RPCValidationProcessor.java:62-95 | the loop over the annotated types leaves the accumulator the fold `CollectTypes` describes, stopping at the first type without the annotation |
| `RpcValidation.RpcValidationProcessor.RecordMembers` | driver/src/ap/java/eu/cloudnetservice/cloudnet/ap/RPCValidationProcessor.java:74-93 | the loop over one type's members appends exactly that type's admitted names, in encounter order, to its list |
| `RpcValidation.FindOffender` | driver/src/ap/java/eu/cloudnetservice/cloudnet/ap/RPCValidationProcessor.java:100-112 | returns some type of the accumulator whose duplicate set is non-empty, or none exactly when every type's duplicate set is empty |
| `RpcValidation.CollectStops` | driver/src/ap/java/eu/cloudnetservice/cloudnet/ap/RPCValidationProcessor.java:64-66 | once the annotation lookup throws for a type, the later types of that round contribute nothing |
| `RpcValidation.RecordsOnlyMethods` | driver/src/ap/java/eu/cloudnetservice/cloudnet/ap/RPCValidationProcessor.java:74-78 | every recorded name is the simple name of a member of kind METHOD; fields, constructors and nested types are never recorded |
| `RpcValidation.StaticTypeRecordsNothing` | driver/src/ap/java/eu/cloudnetservice/cloudnet/ap/RPCValidationProcessor.java:79-82 | without `includeStaticMethods`, a type that is itself static records no name at all |
| `RpcValidation.EmptyPatternRecordsAllMethods` | driver/src/ap/java/eu/cloudnetservice/cloudnet/ap/RPCValidationProcessor.java:79-86 | when the type's own modifier causes no skipping and the pattern is empty, the recorded names are the names of all METHOD members in order, static ones included |
| `RpcValidation.PatternExcludesExactlyMatches` | driver/src/ap/java/eu/cloudnetservice/cloudnet/ap/RPCValidationProcessor.java:83-86 | with a non-empty pattern, a name is recorded if and only if some METHOD member has it and it does not match the whole pattern |
| `RpcValidation.RecordedIsUnmatchedMethods` | driver/src/ap/java/eu/cloudnetservice/cloudnet/ap/RPCValidationProcessor.java:74-92 | unless the type's modifier skips it, a type records exactly its METHOD names, in order and with repetitions, minus those a non-empty pattern matches: fields, constructors and nested types never contribute, and overloads are kept |
| `RpcValidation.UnmatchedFrequency` | driver/src/ap/java/eu/cloudnetservice/cloudnet/ap/RPCValidationProcessor.java:83-86 | the exclude pattern removes every occurrence of a name it matches and keeps every occurrence of any other name |
| `RpcValidation.MethodNameListed` | driver/src/ap/java/eu/cloudnetservice/cloudnet/ap/RPCValidationProcessor.java:75-78 | every METHOD member's name occurs among the method names |
| `RpcValidation.OverloadsListedTwice` | driver/src/ap/java/eu/cloudnetservice/cloudnet/ap/RPCValidationProcessor.java:75-78 | two METHOD members with one name put that name at least twice among the method names |
| `RpcValidation.OverloadsAreDuplicates` | driver/src/ap/java/eu/cloudnetservice/cloudnet/ap/RPCValidationProcessor.java:74-104 | two same-named methods (overloads) that the pattern does not exclude make that name a duplicate of the type, unless the type's modifier skips it |
| `RpcValidation.RecordedDuplicates` | driver/src/ap/java/eu/cloudnetservice/cloudnet/ap/RPCValidationProcessor.java:74-104 | unless the type's modifier skips it, a name is a duplicate of the recorded names exactly when it is a duplicate among the METHOD names and the pattern does not exclude it |
| `RpcValidation.FrequencyAppend` | driver/src/ap/java/eu/cloudnetservice/cloudnet/ap/RPCValidationProcessor.java:103 | frequencies add up over a concatenation |
| `RpcValidation.CollectTypesAppends` | driver/src/ap/java/eu/cloudnetservice/cloudnet/ap/RPCValidationProcessor.java:87-92 | a round only appends: no type is dropped, and each list before the round is a prefix of its list after the round |
| `RpcValidation.AppendExtends` | driver/src/ap/java/eu/cloudnetservice/cloudnet/ap/RPCValidationProcessor.java:88-92 | `computeIfAbsent(...).add(...)` leaves the type's list as its old list (or empty) followed by the new names |
| `RpcValidation.RecordedAgainIsDuplicate` | driver/src/ap/java/eu/cloudnetservice/cloudnet/ap/RPCValidationProcessor.java:91-92 | names are never de-duplicated: a name recorded for a type again, in a later round or declaration, is in that type's duplicate set |
| `RpcValidation.FrequencyPositive` | driver/src/ap/java/eu/cloudnetservice/cloudnet/ap/RPCValidationProcessor.java:103 | a name's frequency is positive exactly when it occurs in the list |
| `RpcValidation.RepeatedIffFrequency` | driver/src/ap/java/eu/cloudnetservice/cloudnet/ap/RPCValidationProcessor.java:103 | a frequency above one means the same (case-sensitive) name at two different positions, and conversely |
| `RpcValidation.DuplicatesAreRepeated` | driver/src/ap/java/eu/cloudnetservice/cloudnet/ap/RPCValidationProcessor.java:102-104 | the duplicate set is exactly the set of names occurring at two different positions |
| `RpcValidation.NoDuplicatesIffDistinct` | driver/src/ap/java/eu/cloudnetservice/cloudnet/ap/RPCValidationProcessor.java:102-106 | a type's duplicate set is empty if and only if its recorded names are pairwise different |
| `RpcValidation.FinalCheckPassesIffDistinct` | driver/src/ap/java/eu/cloudnetservice/cloudnet/ap/RPCValidationProcessor.java:98-115 | the last round reports no type if and only if every type's recorded names are pairwise different |
| `LoginResults.LoginResult.Succeeded` | node/src/main/java/eu/cloudnetservice/node/http/V2HttpAuthentication.java:236-238 | defines `succeeded()`: the result is present |
| `LoginResults.LoginResult.Failed` | node/src/main/java/eu/cloudnetservice/node/http/V2HttpAuthentication.java:240-242 | defines `failed()`: the result is absent; `SucceededIffNotFailed` relates the two |
| `LoginResults.LoginResult.HasErrorMessage` | node/src/main/java/eu/cloudnetservice/node/http/V2HttpAuthentication.java:244-246 | defines `hasErrorMessage()`: the message is present |
| `LoginResults.Success` | node/src/main/java/eu/cloudnetservice/node/http/V2HttpAuthentication.java:228-230 | a success has succeeded, has not failed, carries its result, and has no error message |
| `LoginResults.Failure` | node/src/main/java/eu/cloudnetservice/node/http/V2HttpAuthentication.java:232-234 | a failure never succeeds and has an error message exactly when one is given |
| `LoginResults.UndefinedFailure` | node/src/main/java/eu/cloudnetservice/node/http/V2HttpAuthentication.java:221-226 | the undefined failure has failed and has no error message |
| `LoginResults.SucceededIffNotFailed` | node/src/main/java/eu/cloudnetservice/node/http/V2HttpAuthentication.java:236-242 | `failed()` is the exact negation of `succeeded()` |
| `HttpAuthentication.AddLong` | node/src/main/java/eu/cloudnetservice/node/http/V2HttpAuthentication.java:90 | the `long` sum lies in the 64-bit range, differs from the exact sum by a multiple of 2^64, and equals it when that is in range |
| `HttpAuthentication.Created` | node/src/main/java/eu/cloudnetservice/node/http/V2HttpAuthentication.java:86-93 | defines the table after `createJwt`: cleanup, then a new session under the subject's id if none is live; `CreatedWellKeyed`, `CreatedReusesLive`, `CreatedTwice` and `OverflowingSessionIsBornExpired` state its properties |
| `HttpAuthentication.GenerateJwt` | node/src/main/java/eu/cloudnetservice/node/http/V2HttpAuthentication.java:194-204 | defines the claims of an issued token: the subject's name and id, the session's id and expiry |
| `HttpAuthentication.BasicToken` | node/src/main/java/eu/cloudnetservice/node/http/V2HttpAuthentication.java:55 | defines the Basic pattern as `MatchScheme` with "Basic " and letters, digits and '=' |
| `HttpAuthentication.BearerToken` | node/src/main/java/eu/cloudnetservice/node/http/V2HttpAuthentication.java:56 | defines the Bearer pattern as `MatchScheme` with "Bearer " and letters, digits, '-', '_' and '.' |
| `HttpAuthentication.BasicLogin` | node/src/main/java/eu/cloudnetservice/node/http/V2HttpAuthentication.java:97-118 | defines the outcome of a Basic login; `BasicFailureModes`, `BasicWithoutColonFails` and `BasicSuccessMeans` state its cases |
| `HttpAuthentication.BearerLogin` | node/src/main/java/eu/cloudnetservice/node/http/V2HttpAuthentication.java:120-155 | defines the result and new table of a bearer login; `BearerFailureModes`, `BearerSuccessMeans`, `BearerOnlyDropsGoneUsers` and `IssuedTokenAccepted` state its cases |
| `HttpAuthentication.Live` | node/src/main/java/eu/cloudnetservice/node/http/V2HttpAuthentication.java:206-212 | after cleanup every remaining entry expires after `now`, each is the entry it was, every unexpired entry is kept, and the table invariant is kept |
| `HttpAuthentication.SessionWithId` | node/src/main/java/eu/cloudnetservice/node/http/V2HttpAuthentication.java:185-192 | gives a session of the table whose session id is `id`, or none exactly when no session has that id |
| `HttpAuthentication.MatchScheme` | node/src/main/java/eu/cloudnetservice/node/http/V2HttpAuthentication.java:55-56 | a header matches exactly when it is the scheme followed by a non-empty run of allowed characters, and the captured token is that run |
| `HttpAuthentication.AllOf` | node/src/main/java/eu/cloudnetservice/node/http/V2HttpAuthentication.java:55-56 | a character run is accepted exactly when every character is in the class |
| `HttpAuthentication.SplitAtFirstColon` | node/src/main/java/eu/cloudnetservice/node/http/V2HttpAuthentication.java:105-106 | gives two parts exactly when the credentials hold a colon; they rejoin with a colon to the input, and the first part holds no colon |
| `HttpAuthentication.FirstAccepted` | node/src/main/java/eu/cloudnetservice/node/http/V2HttpAuthentication.java:107-112 | gives the first user in order whose password check succeeds, or none exactly when no user passes |
| `HttpAuthentication.V2HttpAuthentication.constructor` | node/src/main/java/eu/cloudnetservice/node/http/V2HttpAuthentication.java:66 | the session table starts empty |
| `HttpAuthentication.V2HttpAuthentication.Cleanup` | node/src/main/java/eu/cloudnetservice/node/http/V2HttpAuthentication.java:206-212 | the loop leaves exactly the entries with `expireTime > now`, untouched |
| `HttpAuthentication.V2HttpAuthentication.Sessions` | node/src/main/java/eu/cloudnetservice/node/http/V2HttpAuthentication.java:214-217 | returns the table after cleanup, which is also the new state |
| `HttpAuthentication.V2HttpAuthentication.CreateJwt` | node/src/main/java/eu/cloudnetservice/node/http/V2HttpAuthentication.java:86-95 | the table becomes the cleaned-up table with a new session for the subject only if none is live, expiring at the `long` sum of clock and session time; the JWT carries the session's id and expiry and the subject's id and name; the table invariant is kept |
| `HttpAuthentication.V2HttpAuthentication.SessionById` | node/src/main/java/eu/cloudnetservice/node/http/V2HttpAuthentication.java:185-192 | cleans up, then the search loop returns the live session with that session id, or none if there is none; a returned session never has expired |
| `HttpAuthentication.V2HttpAuthentication.HandleBasicLogin` | node/src/main/java/eu/cloudnetservice/node/http/V2HttpAuthentication.java:97-118 | the header checks, decoding, split and search loop give exactly `BasicLogin`'s outcome |
| `HttpAuthentication.V2HttpAuthentication.HandleBearerLogin` | node/src/main/java/eu/cloudnetservice/node/http/V2HttpAuthentication.java:120-155 | result and new table are exactly `BearerLogin`'s: undefined failure for a missing or non-Bearer header, the exception message for an expired or premature token, the generic failure for a rejected token, an unknown session or an owner mismatch, and the user-gone failure with that session removed |
| `HttpAuthentication.V2HttpAuthentication.ExpireSession` | node/src/main/java/eu/cloudnetservice/node/http/V2HttpAuthentication.java:166-168 | removes exactly the entry keyed by the session user's id and returns true if and only if it existed; when the user is gone, throws the NullPointerException and leaves the table as it was |
| `HttpAuthentication.V2HttpAuthentication.ExpireSessionOf` | node/src/main/java/eu/cloudnetservice/node/http/V2HttpAuthentication.java:157-164 | returns false and changes nothing beyond the bearer login whenever that login fails; otherwise expires that session |
| `HttpAuthentication.V2HttpAuthentication.RefreshJwt` | node/src/main/java/eu/cloudnetservice/node/http/V2HttpAuthentication.java:180-183 | the session's new expiry shows in the table when the table holds that session; then the JWT is issued for the refreshed session, or, exactly when the session's user is gone, the NullPointerException escapes with the refresh already done |
| `HttpAuthentication.V2HttpAuthentication.RefreshJwtOf` | node/src/main/java/eu/cloudnetservice/node/http/V2HttpAuthentication.java:170-178 | gives the undefined failure whenever the bearer login fails; otherwise refreshes that session in the table and returns it with a new JWT |
| `HttpAuthentication.FirstAcceptedIs` | node/src/main/java/eu/cloudnetservice/node/http/V2HttpAuthentication.java:108-112 | the user at which the loop returns is the one `FirstAccepted` names |
| `HttpAuthentication.BearerSuccessMeans` | node/src/main/java/eu/cloudnetservice/node/http/V2HttpAuthentication.java:127-142 | a successful bearer login came from a Bearer header whose claims name the session's id; the session is live, stays filed under its user id, its user exists, and the uniqueId claim parses to that user's id |
| `HttpAuthentication.SplitJoin` | node/src/main/java/eu/cloudnetservice/node/http/V2HttpAuthentication.java:105 | splitting `user:password` gives back the user id and password when the user id holds no colon |
| `HttpAuthentication.SchemeRoundTrip` | node/src/main/java/eu/cloudnetservice/node/http/V2HttpAuthentication.java:55-56 | scheme plus token matches and captures the token exactly when the token is non-empty and of allowed characters |
| `HttpAuthentication.BasicRefusesPlusAndSlash` | node/src/main/java/eu/cloudnetservice/node/http/V2HttpAuthentication.java:55 | a Basic payload using the Base64 characters '+' or '/' is treated as no Basic header at all |
| `HttpAuthentication.SchemesExclusive` | node/src/main/java/eu/cloudnetservice/node/http/V2HttpAuthentication.java:55-56 | no header is both a Basic and a Bearer header |
| `HttpAuthentication.BasicWithoutColonFails` | node/src/main/java/eu/cloudnetservice/node/http/V2HttpAuthentication.java:105-114 | credentials without a colon give the fixed "No matching user" failure |
| `HttpAuthentication.BasicSuccessMeans` | node/src/main/java/eu/cloudnetservice/node/http/V2HttpAuthentication.java:103-112 | a successful Basic login decodes to `name:password` split at the first colon, and returns the first user of that name whose password check succeeds |
| `HttpAuthentication.BasicFailureModes` | node/src/main/java/eu/cloudnetservice/node/http/V2HttpAuthentication.java:98-117 | a missing header, or one that does not wholly match the Basic pattern, gives the undefined failure; the decoder's exception escapes exactly when the header matched and decoding failed |
| `HttpAuthentication.BearerFailureModes` | node/src/main/java/eu/cloudnetservice/node/http/V2HttpAuthentication.java:121-154 | a missing or non-Bearer header gives the undefined failure with the table untouched; an expired or premature token fails with its exception message, a rejected token with the generic failure, both leaving the table untouched; an unknown session id or an owner mismatch gives the generic failure after cleanup; a session whose user is gone is removed and gives the user-gone failure |
| `HttpAuthentication.LiveTwice` | node/src/main/java/eu/cloudnetservice/node/http/V2HttpAuthentication.java:206-217 | cleaning up again at the same time changes nothing, and a later cleanup subsumes an earlier one |
| `HttpAuthentication.CreatedWellKeyed` | node/src/main/java/eu/cloudnetservice/node/http/V2HttpAuthentication.java:86-93 | creating keeps the table invariant and adds at most the subject's key to the live keys |
| `HttpAuthentication.CreatedReusesLive` | node/src/main/java/eu/cloudnetservice/node/http/V2HttpAuthentication.java:86-93 | a user with a live session gets no new one: the table is only cleaned up |
| `HttpAuthentication.OverflowingSessionIsBornExpired` | node/src/main/java/eu/cloudnetservice/node/http/V2HttpAuthentication.java:86-93 | a session time that carries the clock past the `long` maximum issues a session with a negative expiry, a JWT with that expiry, and the next cleanup at the same time removes it |
| `HttpAuthentication.CreatedTwice` | node/src/main/java/eu/cloudnetservice/node/http/V2HttpAuthentication.java:86-95 | a second creation for the same user before the first session expires leaves the table unchanged apart from cleanup and reuses the session |
| `HttpAuthentication.IssuedTokenAccepted` | node/src/main/java/eu/cloudnetservice/node/http/V2HttpAuthentication.java:126-142 | a token issued by `createJwt`, parsed back to its claims before the session expires, logs in with that very session while the user exists |
| `HttpAuthentication.ExpireOfRemovesIffLogin` | node/src/main/java/eu/cloudnetservice/node/http/V2HttpAuthentication.java:157-168 | with a store that hands out users under their own id, `expireSession(request)` removes an entry, and returns true, exactly when the bearer login succeeds |
| `HttpAuthentication.BearerOnlyDropsGoneUsers` | node/src/main/java/eu/cloudnetservice/node/http/V2HttpAuthentication.java:129-137 | a bearer login leaves the table as it was or as cleanup left it, except that it may drop the one live session whose user is gone |

## Left out

- The RPC wire codec, class registry, dispatcher and pending-call tracker: their source is not part of this model.
- The Java annotation-processing API (`Elements`, `RoundEnvironment`, `AnnotationMirror`): each round's annotated types, their members and their annotation values (defaults already applied) are plain input data. The processor's `init` and `getSupportedSourceVersion` are configuration.
- The regular-expression engine: `matches(name, pattern)` is a parameter standing for whole-string `String.matches`. An invalid pattern, which would throw, is not modelled.
- RpcValidation.RpcValidationProcessor.Process: `HashMap` iteration order is unspecified. The model reports some offending type, chosen nondeterministically, and not a particular one. The error carries the type's simple name and its duplicate set, but the message is not built as text. That is because `String.join` over a `HashSet` has no specified order.
- JWT signing, key generation, the issuer check and the issue date: the parser is the parameter `parse`, and `Jwt` holds only the claims the code sets from the session and the user. Tokens missing a claim are not modelled. A token without an `id` claim throws a `NullPointerException` at the session lookup (V2HttpAuthentication.java:130). A token without a `uniqueId` claim throws only at :139, after the session lookup and the user-gone check have run. For such tokens the model does not capture the earlier outcomes: the generic failure after cleanup when no live session has the id, and the removal of a gone user's session.
- Base64 and UTF-8 decoding: the parameter `decode`. Its failure is `DecoderThrew`, since the source does not catch the decoder's exception.
- HttpAuthentication.V2HttpAuthentication.Cleanup: reads the clock once per call (`now`). The source reads `System.currentTimeMillis()` again for every entry, and again when `createJwt` builds a session.
- `PermissionManagement` and `PermissionUser.checkPassword`: the `Permissions` value is passed to each call. `DefaultHttpSession` is a value (`HttpSession`). Its random session id is the parameter `newSessionId` of `CreateJwt`, which must not already be in use; this stands for UUID uniqueness. Its `refreshFor(lifetime)` is the parameter `refreshedExpireTime`.
- HttpAuthentication.V2HttpAuthentication.RefreshJwt: sessions are values, so object identity is approximated by equality. The table sees the refresh when it holds an equal session under the session's user id. Other references to the session object are not modelled.
- Thread safety of `ConcurrentHashMap`: the session table is modelled sequentially. Logging is not modelled.
