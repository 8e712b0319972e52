# Admin API: verified model

This project models the admin API in Dafny and proves properties of the model: the generated router
and the client that builds paths for it, the generated JSON codec, the session protocol over Redis,
the relational service behind the handlers, the environment override of the configuration, and the
command line client's token handling. Nothing was executed: every claim is a statement checked by the
Dafny verifier about the model, and the model follows the Go code line by line where the table below
says so. `dafny verify dfyconfig.toml` checks the whole project.

## What is modelled

**Router and client paths** (`PathText`, `RouteTable`, `Router`, `RouterTheorems`, `ClientPaths`).
`RouteTable` is the API as a flat table of 14 patterns and 21 operations. `Router.ServeHTTP` and
`Router.FindPath` are the two generated tries: first-byte switches, prefix cuts, parameters up to the
next slash, and the decoded or normalised path. The generator unrolls each trie as one nested switch;
here each is cut into one method per inner node. Both are proved equal to the table, and the table's
answer is proved unique. The client's `pathParts` are built slot by slot and proved to be the inverse
of routing followed by parameter decoding. `url.PathUnescape`, `uri.PathEncoder`,
`uri.NormalizeEscapedPath` and the parsing of a URL belong to other libraries; each has the meaning of
RFC 3986, section 2.1, with the characters it leaves alone as a parameter, and the theorems hold for
every choice that treats `/` and `%` as stated in them. The path parameter style of the API hands a
parameter through unchanged, so it has no code of its own here.

**JSON codec** (`JsonTokens`, `JsonSchema`, `JsonBits`, `JsonCodec`, `JsonTheorems`, `JsonApi`,
`JsonWire`, `Requests`). One schema-driven encoder and decoder stands for the per-type copies the generator
writes; the schemas of the API's types are in `JsonSchema`. The decoder consumes a token stream field
by field, keeps the required-field byte as a bit vector, and runs the popcount and trailing-zeros loop
over it. Nil and empty slices are different values, and a nested struct is decoded into the one that
is there. Dates, URIs and 64-bit integers are leaves whose text form is a parameter; a value is
well-typed only if its leaves are read back as written. `Requests` adds the request decoders: media
type, empty body, trailing data, and the validators with their failure lists.

**Sessions** (`SessionSystem`, `SessionSafety`, `SessionHistory`, `SessionLogout`, `SessionTheorems`,
`SessionStore`). The session store and the OAuth state store share one Redis client and one key prefix,
so there is one map. `SessionSystem` is a transition system: each Redis command, each reading of the
clock and each hand-over inside login, callback, middleware, refresh and logout is one step, and any
number of handlers interleave. A handler may stop at any point, which stands for every error return.
Identifiers are fresh. The log of commands carries the time of each SET and of the clock reading behind
it. `SessionStore` holds the Redis server, `RedisStore` and the handlers as classes; their methods run
one after another, with any delay before each command and any commands failing, and each is proved to be
a run of the transition system. An expiration that is not positive sets no deadline, as the Redis driver
does, and a positive one is cut to whole milliseconds, at least one; Redis's own clock is taken as
exact. Times are in nanoseconds. The driver's special value of minus one nanosecond, which keeps an old
deadline, takes a configured duration of that value and is not modelled. The two readings of the clock
for expiry and creation time are one.

**From request to service** (`Security`, `SecurityTheorems`). The session middleware, the router, the
generated security block with its bitset and requirement loop, and parameter decoding, in the order a
request meets them.

**Relational service** (`Tables`, `Service`, `Paging`, `PagingOrder`). Four tables with their unique
constraints, column types, references and sequences; one row type serves all four (a user's email is
its `name`, and `owner` is the project of a role or user group). The members of a user group are a given
relation, which no handler writes. Assignment to a VARCHAR(n) column is the one of
the SQL standard that PostgreSQL follows: blanks beyond the limit are cut off without an error, and
anything else beyond it is refused; comparison keeps trailing blanks. A text with a zero character
cannot be sent at all. Whether an over-long value is reported when no row is there to update, and
whether a refused row uses up an identifier, depends on the query plan; one choice is made for each, and
a handler answers with an error either way. A run is any sequence of statements, which is what
interleaved handlers without transactions amount to. The handlers are methods that issue statements
one by one; any statement may fail before or after it took effect. The row order within equal creation
times is left to the database.

**Environment override** (`EnvConfig`, with `Numbers` for numerals). The recursive walk over struct
fields, in place on a flat array of leaf fields. `time.ParseDuration` is a parameter; integers and
booleans are parsed as `strconv` does.

**Command line client** (`CallbackRace`, `TokenMachine`). The callback server's channel race as a
transition system, and the client's token with its one-file storage as classes. The server's answer to
a token is arbitrary each time it is asked.

## Results worth knowing

- A deleted session is back exactly when one refresh read it before the last deletion and wrote it after,
  and it can be read as long as the deadline of the last SET has not come (`BackExactly`); from every state
  with a readable session such a run exists (`StraddlingBringsBack`).
- An OAuth state is not single-use: from every state in which it can be read, two callbacks can both use
  it (`StateUsedTwice`). Once a deletion got through, a callback can use it again exactly when it is back in
  that sense (`StateOnce`).
- An OAuth state is accepted as a session, because both stores share one map and one prefix: a login alone
  leads to a state in which a request that names it is admitted, as nobody (`LoginIsAdmitted`). An admitted
  request carries a user's profile exactly when its identifier was generated by a callback
  (`AdmittedProfile`).
- The two tries give different arguments on a URL whose escaped form is malformed (`TriesPart`); they
  agree exactly under the condition of `TriesAgree`. `net/url` never produces such a URL.
- A `user` object sent more than once is merged, not replaced: `RepeatedUser` says exactly when an
  authenticated user decodes to something other than its last `user` alone would give.
- Creating a project whose name is over-long only by trailing blanks adds a row and then answers with an
  error: the name was cut, so looking it up finds nothing. `CreateProject` and `CreateUser` say exactly
  when an error leaves the rows as they were; `PaddedNameLost` is a concrete name. `CreateOwned` answers
  with the name and description that are stored exactly when both fit.
- A session can be refused up to a millisecond before it expires, because the driver cuts the expiration
  down (`CutShort`); `AdmittedToTheEnd` says exactly when it is admitted up to its expiry.
- `ListRoles` and `ListUserGroups` never return a row (`ListOwned`), because the project id of the
  query stays zero.
- The list parameters are required although the document gives them defaults: the defaults are set and
  then overwritten or the request fails (`DecodeListParams`).
- A handler that reports a refused token waits for ever exactly when the error channel is full and the
  waiting call has returned (`StuckExactly`); there is such a run (`ReportStuck`).
- Rows created at the same time have no fixed order, and reading page after page can skip one exactly when
  such rows meet at the end of a full page (`OneOrder`, `PagesExact`).
- Offsets from 2^31 on are refused or give another page, because they are cut to 32 bits (`Int32`, `List`).

## Model

| member | source | states |
|---|---|---|
| RouteTable.PatternsDisjoint | pkg/apis/v1alpha1/generated/oas_router_gen.go:28-474 | no path matches two of the 14 patterns |
| RouterTheorems.FlatIsAnswer | pkg/apis/v1alpha1/generated/oas_router_gen.go:49-474 | the trie's answer is the only outcome the flat table admits |
| RouteTable.MatchIsRendered | pkg/apis/v1alpha1/generated/oas_router_gen.go:275-300 | a matching path is the pattern filled with the extracted arguments, and these hold no slash |
| RouteTable.RenderedMatches | pkg/apis/v1alpha1/generated/oas_router_gen.go:275-300 | a pattern filled with slash-free arguments matches and gives them back |
| Router.FlatAnswerIsFlat | pkg/apis/v1alpha1/generated/oas_router_gen.go:49-474 | the trie's answer satisfies the table: dispatch if and only if a pattern matches and serves the method, not-allowed if and only if only the method is wrong, not-found otherwise |
| Router.ServeHTTP | pkg/apis/v1alpha1/generated/oas_router_gen.go:28-474 | the outcome is the table's answer for the decoded or normalised path after the prefix cut |
| Router.CutExactly | pkg/apis/v1alpha1/generated/oas_router_gen.go:13-24 | cutting the prefix off leaves what follows it, and fails on a path that does not start with it |
| Router.ServeAuth | pkg/apis/v1alpha1/generated/oas_router_gen.go:64-191 | the node "auth/" answers as the five auth patterns do |
| Router.ServeHealth | pkg/apis/v1alpha1/generated/oas_router_gen.go:192-245 | the node "health/" answers as the two health patterns do |
| Router.ServeProjects | pkg/apis/v1alpha1/generated/oas_router_gen.go:246-446 | the node "projects" answers as the six project patterns do, arguments included |
| Router.ServeUsers | pkg/apis/v1alpha1/generated/oas_router_gen.go:447-469 | the node "users" answers as the user pattern does |
| Router.FindPath | pkg/apis/v1alpha1/generated/oas_router_gen.go:521-1047 | the route is that of the table's answer, with the arguments unescaped in place when an escaped path was given |
| Router.Deferred | pkg/apis/v1alpha1/generated/oas_router_gen.go:530-536 | each argument is replaced by its unescaped form, or stays when it does not unescape |
| RouterTheorems.TriesAgree | pkg/apis/v1alpha1/generated/oas_router_gen.go:28-1047 | for every URL both tries pick the same operation, and hand over the same decoded arguments if and only if the escaped path is absent or normalisable, or no argument with a percent sign in it unescapes |
| RouterTheorems.TriesPart | pkg/apis/v1alpha1/generated/oas_router_gen.go:530-536 | a URL with a malformed escaped path on which the arguments differ |
| RouterTheorems.AllowIsExact | pkg/apis/v1alpha1/generated/oas_router_gen.go:88-94 | a not-allowed answer lists exactly the methods for which FindPath succeeds on that URL |
| ClientPaths.BuildPath | pkg/apis/v1alpha1/generated/oas_client_gen.go:1080-1121 | the joined path parts are the operation's pattern filled with the escaped parameters |
| ClientPaths.DecodeParams | pkg/apis/v1alpha1/generated/oas_parameters_gen.go:242-334 | all parameters decoded and non-empty, or the first one that is not |
| ClientPaths.ParamExact | pkg/apis/v1alpha1/generated/oas_parameters_gen.go:242-334 | a parameter is handed over decoded, or as it stands when nothing was escaped, and never empty |
| ClientPaths.RoundTrip | pkg/apis/v1alpha1/generated/oas_client_gen.go:1080-1121 | for every operation and all non-empty parameters, the sent path is routed to that operation and decodes to those parameters, through the plain or the escaped branch |
| PathText.NormalizeMeaning | pkg/apis/v1alpha1/generated/oas_router_gen.go:29-36 | normalising an escaped path succeeds if and only if it decodes, and does not change what it decodes to |
| PathText.NormalForm | pkg/apis/v1alpha1/generated/oas_router_gen.go:29-36 | the normal form of an escaped text does not depend on how it was escaped |
| JsonTokens.ParseToks | pkg/apis/v1alpha1/generated/oas_json_gen.go:2608-2609 | unique readability: the tokens of a value followed by anything parse as that value and leave the rest |
| JsonTokens.ParseSound | pkg/apis/v1alpha1/generated/oas_json_gen.go:2608-2609 | what parses is the tokens of the value followed by the rest |
| JsonCodec.Decoder.Skip | pkg/apis/v1alpha1/generated/oas_json_gen.go:2608-2609 | consumes exactly one well-formed value of any depth, or fails |
| JsonCodec.Decoder.Decode | pkg/apis/v1alpha1/generated/oas_json_gen.go:2512-2649 | on a stream that starts with a value: the meaning of that value, and on success exactly its tokens consumed; otherwise an error |
| JsonCodec.Decoder.DecodeObj | pkg/apis/v1alpha1/generated/oas_json_gen.go:2518-2649 | the member loop with the required byte means the same as decoding the members in order |
| JsonCodec.Decoder.DecodeArr | pkg/apis/v1alpha1/generated/oas_json_gen.go:2566-2585 | a new slice of the decoded elements |
| JsonCodec.CheckRequired | pkg/apis/v1alpha1/generated/oas_json_gen.go:2615-2649 | the struct, or a failure with the names of the missing fields |
| JsonBits.MissingNames | pkg/apis/v1alpha1/generated/oas_json_gen.go:2616-2642 | the names at the required bits that are not set, in index order |
| JsonBits.TakeLowest | pkg/apis/v1alpha1/generated/oas_json_gen.go:2626-2641 | the lowest set bit is found and reset, and no other |
| JsonApi.MasksAgree | pkg/apis/v1alpha1/generated/oas_json_gen.go:2617-2619 | all 17 masks of the generated code are those computed from the schemas |
| JsonWire.WritesNames | pkg/apis/v1alpha1/generated/oas_json_gen.go:1473-1510 | the encoder writes one member for each required field and each optional one that is set, under its name, in order |
| JsonWire.AnswerNames | pkg/apis/v1alpha1/generated/oas_json_gen.go:2687-2691 | the member names, in order, of every value written of the small answer types |
| JsonWire.ListsMembers | pkg/apis/v1alpha1/generated/oas_json_gen.go:1473-1510 | the members written are those of the fields, in order, without the optional ones that are unset |
| JsonWire.ProjectOnWire | pkg/apis/v1alpha1/generated/oas_json_gen.go:2247-2281 | a project on the wire, member by member: the names, what is a string and what is a date |
| JsonWire.RoleOnWire | pkg/apis/v1alpha1/generated/oas_json_gen.go:2466-2509 | the same for a role, with its project and attributes |
| JsonWire.UserOnWire | pkg/apis/v1alpha1/generated/oas_json_gen.go:3767-3800 | the same for a user, with its roles |
| JsonWire.UserGroupOnWire | pkg/apis/v1alpha1/generated/oas_json_gen.go:3941-3984 | the same for a user group, with its project and members |
| JsonWire.GitHubUserOnWire | pkg/apis/v1alpha1/generated/oas_json_gen.go:1473-1521 | the same for a GitHub user: a number, a URI, and dates only when they are set |
| JsonWire.AuthenticatedUserOnWire | pkg/apis/v1alpha1/generated/oas_json_gen.go:25-48 | the same for an authenticated user |
| JsonWire.RequestNames | pkg/apis/v1alpha1/generated/oas_json_gen.go:270-276 | the member names, in order, of every value written of each request type |
| JsonWire.LeafExact | pkg/apis/v1alpha1/generated/oas_json_gen.go:2338-2348 | a date or URI is read from a string and a 64-bit integer from a number, as its format reads it; anything else is refused |
| JsonWire.UnsetSlice | pkg/apis/v1alpha1/generated/oas_validators_gen.go:83-93 | a slice that was never set is refused by the validator, but written like an empty one |
| JsonCodec.Encoder.Encode | pkg/apis/v1alpha1/generated/oas_json_gen.go:2459-2501 | appends exactly the tokens of the value's tree |
| JsonCodec.Encoder.EncodeObj | pkg/apis/v1alpha1/generated/oas_json_gen.go:2466-2501 | the fields in order, unset optional ones left out |
| JsonTheorems.RoundTrip | pkg/apis/v1alpha1/generated/oas_json_gen.go:2459-2649 | decoding an encoded value gives it back with nil slices made empty |
| JsonCodec.WireRoundTrip | pkg/apis/v1alpha1/generated/oas_json_gen.go:3934-4124 | the same on tokens with any suffix, which is left untouched |
| JsonApi.ApiRoundTrip | pkg/apis/v1alpha1/generated/oas_json_gen.go:3760-3918 | the round trip for every type of the API that has a schema |
| JsonCodec.SkipTakesOne | pkg/apis/v1alpha1/generated/oas_json_gen.go:2608-2609 | skipping the tokens of any value leaves exactly what follows |
| JsonTheorems.DecodeMeans | pkg/apis/v1alpha1/generated/oas_json_gen.go:2512-2649 | for every object type: decoding succeeds if and only if the values under every field's name decode one after another and every required name occurs; each field then holds what the values under its own name leave in it; if only names are missing the failure lists them |
| JsonTheorems.LastDecides | pkg/apis/v1alpha1/generated/oas_json_gen.go:2522-2607 | a field whose nested structs have required fields only decodes if and only if each of its values does, and holds the last one |
| JsonTheorems.AbsentExact | pkg/apis/v1alpha1/generated/oas_json_gen.go:2615-2648 | that list holds each absent required name once and nothing else |
| JsonTheorems.OrderIrrelevant | pkg/apis/v1alpha1/generated/oas_json_gen.go:2518-2614 | for every object type: objects with the same values under every field's name decode alike, so order and unknown names do not matter |
| JsonTheorems.SwapKeepsUnder | pkg/apis/v1alpha1/generated/oas_json_gen.go:2608-2609 | swapping neighbours with different names, or adding an unknown name, keeps the values under every field's name |
| JsonTheorems.ReceiverIrrelevant | pkg/apis/v1alpha1/generated/oas_json_gen.go:2556-2565 | a decoder whose nested fields are all required gives one result whatever struct it writes into |
| JsonApi.ApiTypesPlain | pkg/apis/v1alpha1/generated/oas_json_gen.go:2501-2509 | 15 of the API's 17 types have required fields only, at every level of nested structs |
| JsonApi.RepeatedUser | pkg/apis/v1alpha1/generated/oas_json_gen.go:51-109 | an authenticated user whose `user` was sent any number of times decodes as with its last `user` alone, which is good, if and only if each of them decodes on its own and the last has every optional date any of them has |
| JsonApi.RepeatMerges | pkg/apis/v1alpha1/generated/oas_json_gen.go:1604-1623 | the same for any struct sent repeatedly under one name and its optional fields |
| Requests.Validate | pkg/apis/v1alpha1/generated/oas_validators_gen.go:510-618 | the nested failure list |
| Requests.ValidMeans | pkg/apis/v1alpha1/generated/oas_validators_gen.go:64-118 | a value without nil slices is valid if and only if its strings meet their rules |
| JsonWire.ProjectRule | pkg/apis/v1alpha1/generated/oas_validators_gen.go:328-360 | a project is valid if and only if its kind is "personal" or "shared" |
| JsonWire.CreateProjectRule | pkg/apis/v1alpha1/generated/oas_validators_gen.go:64-118 | the same for a request to create one |
| JsonWire.CreateUserRule | pkg/apis/v1alpha1/generated/oas_validators_gen.go:166-195 | a request to create a user is valid if and only if its email is one |
| JsonWire.GitHubUserRule | pkg/apis/v1alpha1/generated/oas_validators_gen.go:197-226 | a GitHub user is valid if and only if its email is one |
| JsonWire.TeamMembershipRule | pkg/apis/v1alpha1/generated/oas_validators_gen.go:396-428 | a membership is valid if and only if its role is "member" or "maintainer" |
| JsonWire.OtherRequestsFree | pkg/apis/v1alpha1/generated/oas_validators_gen.go:430-508 | no string of the other requests has a rule |
| Requests.DecodedShape | pkg/apis/v1alpha1/generated/oas_validators_gen.go:83-100 | a decoded value is well-shaped and has no nil slice, so the nil rule never fires on the wire |
| Requests.DecodeRequest | pkg/apis/v1alpha1/generated/oas_request_decoders_gen.go:17-86 | accepted if and only if the media type is right, the body can be read and is not empty, and it is one value that decodes and is valid; each refusal comes exactly when no earlier one applies |
| SessionSystem.KeyInjective | pkg/auth/session/redis_store.go:12 | different identifiers have different keys |
| SessionSafety.RecordKept | pkg/auth/session/redis_store.go:26-77 | every step keeps records at the prefix plus their own identifier, with the contents the identifier was generated for |
| SessionSafety.ExpiryKept | pkg/auth/session/redis_store.go:32-37 | every step keeps expiries bounded, and Redis deadlines less than a millisecond before expiries, if before them at all |
| SessionSafety.OrderKept | pkg/server/server.go:182-311 | every step keeps: what is held, stored or deleted was written before, and a first write is the first |
| SessionLogout.LogoutKept | pkg/apis/v1alpha1/server.go:544-555 | every step keeps: a deleted identifier that was written again was straddled by one refresh |
| SessionHistory.OriginKept | pkg/server/server.go:187-306 | every step keeps: each identifier comes from a login or a callback, and its record tells which |
| SessionHistory.StampKept | pkg/auth/session/redis_store.go:32-37 | every step keeps: a SET takes effect after its clock reading, with the expiration computed from it |
| SessionTheorems.ReplayKept | pkg/auth/session/redis_store.go:37-66 | every step keeps the map equal to the log of commands replayed |
| SessionTheorems.DeadlineKept | pkg/auth/session/redis_store.go:37-42 | every step keeps: what is stored is what the last SET stored, with the deadline it set |
| SessionTheorems.RecordsAgree | pkg/auth/session/redis_store.go:26-77 | in every interleaving: own keys, records under one identifier equal up to expiry, and every stored expiry at most now plus the longer duration |
| SessionTheorems.ComesBackOnlyByStraddling | pkg/auth/session/redis_store.go:61-77 | in every interleaving: a deleted identifier is readable only if one refresh did its GET before and its SET after the deletion |
| SessionTheorems.BackExactly | pkg/auth/session/redis_store.go:61-77 | in every interleaving: after its last deletion an identifier is stored again if and only if one refresh straddled that deletion, and is readable if and only if in addition the deadline of the last SET has not come |
| SessionTheorems.StraddlingBringsBack | pkg/auth/session/redis_store.go:68-77 | from every reachable state with a readable session such a run exists |
| SessionTheorems.StateOnce | pkg/server/server.go:232-246 | in every interleaving: a callback that looks up a state deleted before gets on if and only if a refresh straddled the last deletion and the deadline of the last SET has not come |
| SessionTheorems.StateUsedTwice | pkg/server/server.go:232-311 | from every reachable state in which an OAuth state is readable, a run in which two callbacks read it, delete it and store a session each |
| SessionTheorems.ExpirySandwich | pkg/middleware/session.go:44-56 | in every interleaving: the last write is admitted when its GET comes a millisecond or more before its expiry and the check not after it, never when the check comes after it, and exactly when the GET comes before the moment of the SET plus the cut expiration and the check not after the expiry |
| SessionTheorems.AdmittedToTheEnd | pkg/auth/session/redis_store.go:32-37 | in every interleaving: every request up to the expiry is admitted if and only if the SET came later after the reading of the clock than what was cut off the expiration, or the clock had already reached the expiry |
| SessionTheorems.CutShort | pkg/auth/session/redis_store.go:32-37 | a run after which a record is refused within the last millisecond before its expiry |
| SessionTheorems.NothingToAdmit | pkg/middleware/session.go:44-56 | without a write, or after a deletion, nothing is admitted |
| SessionTheorems.DeletedStaysDeleted | pkg/auth/session/redis_store.go:61-77 | in serial runs a deleted identifier is never readable again |
| SessionTheorems.Conservation | pkg/server/server.go:182-311 | in serial runs the live records number at most the logins plus the state deletions that failed |
| SessionStore.RedisStore.Create | pkg/auth/session/redis_store.go:26-42 | a SET at the prefix plus the identifier with the computed expiration, or nothing on an error |
| SessionStore.RedisStore.Get | pkg/auth/session/redis_store.go:44-59 | what a GET finds at the moment it takes effect |
| SessionStore.RedisStore.Delete | pkg/auth/session/redis_store.go:61-66 | a DEL, or nothing on an error |
| SessionStore.RedisStore.Refresh | pkg/auth/session/redis_store.go:68-77 | the record read earlier is written back with the new expiry, or nothing changes |
| SessionStore.Server.constructor | pkg/server/server.go:71-76 | both stores on one client, the state store with ten minutes, and a day when no session duration is configured |
| SessionStore.Server.Login | pkg/server/server.go:187-213 | one run: succeeds if and only if the SET gets through, and then a fresh state record holds the redirect; no other record is touched |
| SessionStore.Server.Callback | pkg/server/server.go:225-332 | one run: the outcome is determined by the parameters, the stored state, the profile and which commands get through; signed in, the session holds the profile with its expiry under the identifier in the answer, the address is that in the record under the state, or the frontend when it holds none, with this identifier as token and the state as state, and a consumed state is never readable again |
| SessionStore.Server.SignIn | pkg/server/server.go:187-332 | a login and the callback on its state: signed in, the browser is sent to the redirect of the login, or to the frontend when it named none, with the identifier the new session is stored under as token and the state as state |
| SessionStore.Server.Authenticate | pkg/middleware/session.go:38-63 | the middleware's decision at the moments of its GET and of its expiry check, a store failure being its own case |
| SessionStore.Server.Logout | pkg/apis/v1alpha1/server.go:544-555 | one run: if the session is admitted and the DEL gets through it is never readable again, otherwise the store is unchanged |
| SessionStore.Server.RefreshToken | pkg/apis/v1alpha1/server.go:589-601 | one run: succeeds if and only if the session is admitted, found again and written; only its expiry changes, to the duration from the check on |
| Security.IsPublicPath | pkg/middleware/session.go:67-74 | true if and only if the path is one of the four |
| Security.SessionMiddleware | pkg/middleware/session.go:31-63 | each refusal exactly when no earlier one applies: public paths pass, a request that names no session is refused, and any other is answered by what is stored under the name |
| Security.NamedExactly | pkg/middleware/session.go:76-88 | the session looked up is the one the request names: what follows "Bearer " in its header, or without such a header its cookie |
| SecurityTheorems.CookieAsHeader | pkg/middleware/session.go:76-88 | a request without a Bearer header is answered by cookie as it would be with that identifier in the header |
| SecurityTheorems.HeaderWins | pkg/middleware/session.go:77-80 | a Bearer header wins over any cookie |
| SecurityTheorems.AdmittedExactly | pkg/middleware/session.go:38-56 | in every interleaving: a request that names a session, by header or by cookie alone, is admitted with a record if and only if it is readable there at the GET and not expired at the check, and it is then the last one written |
| SecurityTheorems.GateMeans | pkg/middleware/session.go:44-56 | in every interleaving: the answer to a request that names a session, by header or cookie, in terms of the last SET under that identifier that no deletion followed, its moment and its expiration |
| SecurityTheorems.AdmittedProfile | pkg/server/server.go:280-306 | in every interleaving: an admitted request carries the record under the identifier it names, with a user's profile if and only if a callback generated the identifier; otherwise it is a login's and the record is about no user |
| SecurityTheorems.LoginIsAdmitted | pkg/server/server.go:187-206 | from every reachable state a login alone leads to one in which a request that names its state is admitted, as nobody |
| Security.FindAuthorization | pkg/apis/v1alpha1/generated/oas_security_gen.go:25-38 | the credentials of the first header value with the scheme, whatever its case |
| Security.BearerCredentials | pkg/apis/v1alpha1/generated/oas_security_gen.go:25-38 | the credentials for the Bearer scheme are what follows the word, in any case, and one blank |
| Security.SomeRequirement | pkg/apis/v1alpha1/generated/oas_handlers_gen.go:145-159 | true if and only if some requirement's bits are all set |
| Security.HasMeans | pkg/apis/v1alpha1/generated/oas_handlers_gen.go:145-159 | a byte meets a requirement if and only if every bit of the requirement is set |
| Security.SecurityBlock | pkg/apis/v1alpha1/generated/oas_handlers_gen.go:107-168 | passes if and only if a session is known and a header or cookie credential is present; a credential without a session fails at once |
| SecurityTheorems.SecuredOps | pkg/apis/v1alpha1/generated/oas_security_gen.go:40-50 | an operation declares security if and only if it is neither public nor about roles or user groups |
| Security.Handle | pkg/apis/v1alpha1/generated/oas_handlers_gen.go:107-217 | middleware, router, security, parameters, body and service in that order |
| SecurityTheorems.PublicAgrees | pkg/middleware/session.go:19-24 | whatever spelling the router works on, it dispatches to a public operation if and only if the decoded path is one of the four public paths |
| SecurityTheorems.NeverInsecure | pkg/apis/v1alpha1/generated/oas_security_gen.go:52-102 | no request the middleware lets through is stopped by the security block |
| SecurityTheorems.RunsWithSession | pkg/middleware/session.go:31-88 | in every state of every interleaving a non-public service method runs only with the last record written under the named identifier, not deleted since and not expired when checked, which is about a user if and only if a callback generated the identifier |
| SecurityTheorems.PublicRunsBare | pkg/middleware/session.go:34-36 | a public operation runs without a session |
| Tables.InsertKeeps | sql/schema.sql:5-26 | an insert keeps uniqueness of what is stored, column limits and sequence, and changes no other row |
| Tables.UpdateKeeps | pkg/db/admindb/query.sql.go:469-566 | an update keeps them too, and no row's display id, owner, kind or creation time changes |
| Tables.InsertExact | sql/schema.sql:5-104 | an insert into unique rows goes through if and only if its texts can be stored and the rows with the new one at the end are unique; the rows and the sequence after it, and the error otherwise |
| Tables.OtherOwnersFree | sql/schema.sql:68-69 | rows of other projects never stand in the way of a role or user group |
| Tables.UpdateExact | pkg/db/admindb/query.sql.go:469-566 | an update of a row that is there goes through if and only if its texts can be stored and the rows with that row's name, description and update time replaced are unique; the rows after it, and the error otherwise |
| Tables.UpdateMisses | pkg/db/admindb/query.sql.go:469-473 | an update of a row that is not there changes nothing and fails only on a text that cannot be sent |
| Tables.StatementKeeps | sql/schema.sql:60-104 | every statement keeps all four tables and their references, and loses no row |
| Tables.RunKeeps | pkg/apis/v1alpha1/server.go:30-116 | so does every run of statements, however the handlers interleave |
| Tables.EveryRunOk | sql/schema.sql:5-26 | from empty tables every run keeps them, and every later state extends every earlier one |
| Tables.Assigned | sql/schema.sql:8-10 | a value is accepted if and only if only blanks lie beyond the limit, and is stored as it is if and only if it fits, otherwise cut to the limit |
| Tables.ColumnWidths | sql/schema.sql:8-98 | the widths of the name, description and kind columns of the four tables |
| Service.Database.Exec | pkg/db/admindb/query.sql.go:28-92 | a statement takes effect and reports, or a fault hides whether it did |
| Tables.FailedExactly | pkg/db/admindb/query.sql.go:28-92 | a statement that fails changes no row, and an insert that fails uses up an identifier unless its texts could not be sent |
| Service.Handlers.CreateProject | pkg/apis/v1alpha1/server.go:437-459 | without faults: the row is added, with the values as stored, if and only if they can be stored and no row has its display id or stored name, and otherwise no row changes; the handler succeeds if and only if in addition the name has at most 64 characters, and then every column of the stored row is in its place in the answer; after a fault it answers with an error, and the rows are as they were or exactly that row was added |
| Service.Handlers.CreateUser | pkg/apis/v1alpha1/server.go:64-81 | the same for users |
| Service.CanAddIsUnique | sql/schema.sql:5-104 | what the create handlers ask of a row is that the table with it is still unique |
| Service.InsertedFound | pkg/apis/v1alpha1/server.go:447-450 | the added row is found by the name in the request if and only if that name fits uncut |
| Service.PaddedNameLost | pkg/apis/v1alpha1/server.go:437-450 | 64 letters and a blank: the row is added and the lookup by name fails |
| Service.Handlers.CreateOwned | pkg/apis/v1alpha1/server.go:30-61 | for roles and user groups: without faults the row is added under the named project if and only if it can be stored and no row of that project has its display id or stored name; the answer has neither its identifier nor its times, and shows the stored name and description if and only if both fit uncut; after a fault as for projects |
| Service.Handlers.UpdateProject | pkg/apis/v1alpha1/server.go:310-336 | without faults: succeeds if and only if the row exists, the values can be stored and no other row has the stored name; exactly that row changes, to the stored name and description and the clock of the statement; every column of the stored row is in its place in the answer, and the name and the description are those of the request if and only if they fit uncut; after a fault it answers with an error, and the rows are as they were or exactly that change was made |
| Service.Handlers.UpdateOwned | pkg/apis/v1alpha1/server.go:339-385 | the same for roles and user groups, within the named project |
| Service.Handlers.GetProject | pkg/apis/v1alpha1/server.go:119-138 | every column of the row with that display id in its place in the answer, or an error |
| Service.Handlers.GetRole | pkg/apis/v1alpha1/server.go:141-180 | every column of the row with that display id within the project, and of the project, in its place in the answer, or an error |
| Paging.GetUserGroup | pkg/apis/v1alpha1/server.go:183-237 | the group within its project and the users the relation pairs with it, newest first, column by column, or an error |
| Paging.MembersOnce | pkg/db/admindb/query.sql.go:327-337 | no member is listed twice |
| Paging.Collect | pkg/db/admindb/query.sql.go:257-275 | all rows in order, or an error if and only if a row fails to scan or the set ends in one |
| Paging.Int32 | pkg/apis/v1alpha1/server.go:463-466 | the 32-bit value that differs by a multiple of 2^32, which is the same value if and only if it fits |
| Paging.List | pkg/apis/v1alpha1/server.go:462-483 | the views of a page at the cut limit and offset, or an error exactly when one is negative or the rows cannot be read |
| Paging.ListProjects | pkg/apis/v1alpha1/server.go:462-483 | the same with projects, every column in its place |
| Paging.ListUsers | pkg/apis/v1alpha1/server.go:283-305 | the same with users |
| Paging.PageExact | pkg/db/admindb/query.sql.go:425-430 | a page is what follows the skipped rows, cut to the limit |
| Paging.ListOwned | pkg/apis/v1alpha1/server.go:241-261 | listing roles or user groups never returns a row |
| Paging.DecodeListParams | pkg/apis/v1alpha1/generated/oas_parameters_gen.go:650-769 | both parameters must be present, integers and in range; the failure names the first that is not |
| Paging.OneListing | pkg/db/admindb/query.sql.go:232-237 | with strictly growing creation times there is one order, the reverse of insertion |
| Paging.NothingSkipped | pkg/db/admindb/query.sql.go:425-430 | page after page with writes in between: once a page is short, every row there at the start was returned |
| Paging.NothingSkippedDuring | pkg/db/admindb/query.sql.go:425-430 | the same for pages read during a run of statements with strictly growing clocks |
| PagingOrder.OneOrder | pkg/db/admindb/query.sql.go:232-237 | the order of a listing is fixed if and only if no two rows were created at the same time |
| PagingOrder.PagesExact | pkg/db/admindb/query.sql.go:425-430 | reading an unchanging table page after page returns every row, in whatever order each page is read, if and only if no tie falls on the end of a full page, as long as offsets fit 32 bits |
| EnvConfig.LoadRecursive | pkg/envconfig/envconfig.go:46-94 | the leaves before the first failing one take their values in place, all others stay, and the error is that leaf's |
| EnvConfig.OverrideFromEnv | pkg/envconfig/envconfig.go:33-44 | the leafwise map over the whole struct, or an error for a type that is none |
| EnvConfig.LoadFromEnv | pkg/envconfig/envconfig.go:14-28 | the same on the zero value, which is returned on an error |
| EnvConfig.ActionsLeafwise | pkg/envconfig/envconfig.go:51-90 | what happens to a leaf depends on that leaf alone: it takes a value or fails exactly when it has a tag, a non-empty variable and a supported kind, can be set, and no enclosing struct shuts it out |
| EnvConfig.SecondRun | pkg/envconfig/envconfig.go:46-94 | a second run over the struct the first one left, with every variable that occurs as a tag unchanged, changes nothing and ends the same way |
| EnvConfig.UnusedVariables | pkg/envconfig/envconfig.go:51-52 | only variables that occur as tags matter |
| EnvConfig.ParseExact | pkg/envconfig/envconfig.go:71 | a text is read as a number if and only if it is an optional fitting sign, leading zeros and the number's decimal text, and the field's type holds the number |
| EnvConfig.ParseBoolExact | pkg/envconfig/envconfig.go:77 | a text is read as a truth value if and only if it is its digit, its word in lower case, upper case or capitalised, or the first letter of its word in either case |
| EnvConfig.TruthTaken | pkg/envconfig/envconfig.go:76-81 | a reached leaf that holds a truth value takes the one its variable spells, and fails if and only if the variable spells none |
| EnvConfig.NumberTaken | pkg/envconfig/envconfig.go:70-75 | a reached leaf that holds a number takes the one its variable spells, and fails if and only if the variable spells none that fits |
| EnvConfig.OthersTaken | pkg/envconfig/envconfig.go:57-69 | a reached text leaf takes its variable as it is, and a duration leaf what the duration parser makes of it |
| EnvConfig.IntRanges | pkg/envconfig/envconfig.go:70-71 | the ranges of integers of 8, 16, 32 and 64 bits |
| EnvConfig.WrittenIsRead | pkg/envconfig/envconfig.go:71 | the decimal text of a number that fits is read back as that number |
| CallbackRace.RaceSafe | pkg/client/auth/token.go:129-164 | in every interleaving: at most one token in the channel, all accepted by the server, the returned token is the first sent, and a returned error has a cause |
| CallbackRace.OffersGoThrough | pkg/client/auth/token.go:153-157 | no handler waits on the token channel, and a token is turned down only when another was sent |
| CallbackRace.OneAnswer | pkg/client/auth/token.go:286-298 | in every continuation the answer stays what it was |
| CallbackRace.AnswerTells | pkg/client/auth/token.go:286-298 | in every run: what the call returned tells whether a token, an error, the time-out or a cancellation ended its wait |
| CallbackRace.ReportsWait | pkg/client/auth/token.go:145-149 | a report of a failure waits if and only if the error channel is full |
| CallbackRace.ReportStuck | pkg/client/auth/token.go:229-233 | a run in which two requests arrive before the time-out and the second report waits after the call has returned |
| CallbackRace.StaysStuck | pkg/client/auth/token.go:286-298 | in every continuation it still waits |
| CallbackRace.StuckExactly | pkg/client/auth/token.go:145-149 | a handler can report in no continuation if and only if the error channel is full and the call has returned |
| TokenMachine.TokenStorage.SaveToken | pkg/client/auth/storage.go:44-61 | the file holds the token, or a failure may leave it as it was, garbled or written |
| TokenMachine.TokenStorage.LoadToken | pkg/client/auth/storage.go:64-80 | the token, none when there is no file, an error when it cannot be parsed |
| TokenMachine.TokenStorage.RemoveToken | pkg/client/auth/storage.go:83-89 | the file is gone, or an error leaves it |
| TokenMachine.Client.constructor | pkg/client/v1alpha1/client.go:54-80 | the token of the file, if it can be read |
| TokenMachine.Client.EnsureAuthenticated | pkg/client/v1alpha1/client.go:157-230 | the candidates are checked in order until one is accepted, which is then in memory and, unless it was there before, saved; the trace of checks and saves is exact |
| TokenMachine.Client.Request | pkg/client/v1alpha1/client.go:83-138 | a request is sent if and only if a candidate was accepted in this call and the request could be built, and carries that token |
| TokenMachine.Client.Authenticate | pkg/client/v1alpha1/client.go:233-236 | the same without the token in memory |
| TokenMachine.Client.Logout | pkg/client/v1alpha1/client.go:244-256 | memory is empty in any case; it succeeds if and only if there is no storage, no file, or the file could be removed, and then the file is gone |
| TokenMachine.SentWasAccepted | pkg/client/v1alpha1/client.go:83-138 | over every run: between the acceptance of a token and the request with it no new call began |

## Left out

- The lexer below tokens, and the text forms of dates, URIs and 64-bit numbers: other libraries.
- Echo's own routing, CORS, logging, telemetry, TLS, HTML pages, commands and start-up retries: plumbing.
- GitHub calls: their result is a parameter of the callback.
- Marshalling of session records: Redis holds the record itself.
- JsonCodec.Decoder.Decode: does not say which error a malformed stream gives, only that there is one.
- Response encoders and the per-status error types: copies of the one schema-driven codec.
- SessionStore.Server.Callback: like the other handlers of its class it runs alone; interleaved handlers are covered by the transition system.
- Freshness of generated identifiers: assumed.
- Owner, member and attribute lists of requests: the handlers ignore them.
- The SQL for project owners, role attributes and identities: no handler uses it.
- Commands that take effect and are then reported as failed: in the classes a failed command has no effect; in the transition system such a run is the step followed by a stop.
