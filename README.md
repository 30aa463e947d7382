# Okta-to-Active-Directory SCIM connector, modelled in Dafny

The connector receives SCIM 2.0 requests from Okta and provisions user accounts
in Active Directory. This project models two parts of it:

- **The Active Directory adapter** (`adapter.py`). It creates, reads, updates and
  deletes a user, and checks the connection. Each operation opens its own LDAP
  connection.
  - The directory is a map from DN to an entry record (`Directory`). The server
    refuses an add whose DN or sAMAccountName is already in use, and a modify
    or delete of a missing DN.
  - Any LDAP call may fail with an `LDAPError`. Which call fails, if any, is an
    input (`Fault`): call 0 is the bind, and later calls are numbered in order.
  - Each operation has a specification function (`CreateSpec`, `ReadSpec`,
    `UpdateSpec`, `DeleteSpec`, `CheckSpec`). It gives the result, the
    directory afterwards and the trace of calls made.
  - The class `Adapter.ActiveDirectory` runs the operations step by step over a
    mutable directory, connection state and call trace. Each method is proved
    to agree with its specification function.
  - Lemmas about the specification functions state what the adapter promises:
    - the required fields of a create;
    - the fixed order of a create's three writes, with no rollback;
    - the UTF-16LE password encoding and its round trip;
    - the `active` bit mapping of a read;
    - the two writes an update may make;
    - a delete that is idempotent;
    - an unbind on every exit path.
- **The SCIM front end** (`app.py`), in module `App`:
  - the Bearer-token gate on `/scim/v2` paths;
  - the single-user routes, which append a job to an append-only queue (`JobQueue`) or read the directory;
  - the bulk route, which turns a list of operations into an ordered list of jobs;
  - the read route's 200/404 mapping;
  - the health check's 200/503 computation.
  `Connector.Handle` runs the gate and then the route.

Files:
- `wrappers.dfy`: Option and Result.
- `utf16.dfy`: UTF-16LE encoding and decoding.
- `directory.dfy`: the abstract directory, faults and call traces.
- `adapter.dfy`: the adapter.
- `app.dfy`: the front end.

Two behaviours one might expect are not what the code does. The model follows the code in both:

- **No PATCH re-enables an account.** An account left disabled by a failed create cannot be turned back on by update: `update_user_in_ad` writes only 514 (adapter.py:124) and never 512 (`Adapter.UpdateNeverEnables`).
- **A half-created account is enabled.** The comment at adapter.py:64 calls the value added "Disabled", so a create that fails after the add would leave an account that reads as `active=false`. The value written, 544, does not have the disabled bit 0x2 set, so it reads as active. See Findings.

With `SCIM_API_TOKEN` unset, the gate compares the header with the literal text `Bearer None` (`App.UnsetTokenAcceptsBearerNone`).

## Model

| member | source | states |
|---|---|---|
| Utf16.Encode | adapter.py:72 | UTF-16LE takes two to four bytes per character |
| Utf16.DecodeEncode | adapter.py:72 | decoding the UTF-16LE encoding of a string gives back exactly that string, surrogate pairs included |
| Utf16.EncodeConcat | adapter.py:72 | the encoding of a concatenation is the concatenation of the encodings |
| Utf16.BmpLength | adapter.py:72 | a string of Basic Multilingual Plane characters encodes to exactly two bytes per character |
| Directory.Changed | adapter.py:73-76 | the effect of one MOD_REPLACE: only the replaced attribute (unicodePwd or userAccountControl) takes the new value, as also at adapter.py:124 and 130. CreateReplaysFresh and ReplayPatch state it for create and update |
| Directory.Apply | adapter.py:70-76 | a server write never breaks sAMAccountName uniqueness |
| Directory.FindUserDn | adapter.py:36-42 | `_find_user_dn` gives None exactly when no entry has the account name; otherwise it gives the DN of the one entry that has it |
| Directory.RunWrites | adapter.py:68-80 | writes are sent in order, the first as call k, and stop at the first error without rollback. No fault was injected on any applied write. A run stops early only because call k+applied drew a fault, or because, with no fault there, the server refused the next write with that error. The applied writes replay to the resulting directory, the failing one is counted as issued, and uniqueness is kept |
| Directory.RunWritesClean | adapter.py:68-80 | with no fault and every write acceptable to the server, all writes are applied with no error |
| Adapter.Truthy | adapter.py:52 | a field counts for `all([...])` when it is present and not the empty string. Validate states the acceptance rule in its terms |
| Adapter.Validate | adapter.py:46-54 | create's fields are accepted exactly when userName, givenName, familyName, displayName and password are all present and non-empty, and then their values are kept |
| Adapter.IsDisabled | adapter.py:96 | the ACCOUNTDISABLE test `flags & 2`: bit 0x2 of the control value, read as Python reads it for negative values too. Its consequences are stated by ToScimUser and PartialCreateRead |
| Adapter.UserDn | adapter.py:56 | the new entry's DN is `CN=<displayName>,<base DN>`, joined with no escaping. CreateThenRead states where the entry ends up |
| Adapter.PrincipalName | adapter.py:63 | userPrincipalName is `<userName>@<domain>` |
| Adapter.NewEntry | adapter.py:57-65 | the attributes the add carries: the four object classes, cn, sAMAccountName, givenName, sn, userPrincipalName and the given account control, and no password. CreateReplaysFresh states that the add stores exactly these |
| Adapter.EncodePassword | adapter.py:72 | the unicodePwd value, also written by update at adapter.py:129: the password in double quotes, in UTF-16LE. Its properties are PasswordEncoding and PasswordLength |
| Adapter.CreateWrites | adapter.py:56-76 | the create protocol as writes, in order: add with the transient control, replace unicodePwd, replace userAccountControl with 512. Its effect is stated by CreateReplaysFresh |
| Adapter.UpdateWrites | adapter.py:123-130 | the update writes, in order: userAccountControl 514 when `active` is exactly false, then unicodePwd when a password key is present. Its effect is stated by UpdateWritesArePatches and ReplayPatch |
| Adapter.CheckSpec | adapter.py:27-34 | the reference definition of `check_ad_connection`: a failed bind gives (False, error text) with no calls; otherwise (True, "Success") after a bind and an unbind. Stated by CheckReportsBind and CheckReleasesConnection |
| Adapter.CreateSpec | adapter.py:44-83 | the reference definition of `create_user_in_ad` for a given transient control: ValueError and no calls on a missing field, the bind's error and no calls on a failed bind, otherwise the create writes run as RunWrites runs them from call 1, then an unbind. Stated by the Create lemmas |
| Adapter.ReadSpec | adapter.py:85-113 | the reference definition of `read_user_from_ad`: a failed bind escapes; a search error, a missing account or a read error gives (False, text); otherwise (True, the SCIM user); every path after the bind unbinds. Stated by ReadReportsAccount and ReadReleasesConnection |
| Adapter.UpdateSpec | adapter.py:115-137 | the reference definition of `update_user_in_ad`: bind, search, ValueError for a missing account, otherwise the update writes run from call 2, then an unbind. Stated by the Update lemmas |
| Adapter.DeleteSpec | adapter.py:139-154 | the reference definition of `delete_user_in_ad`: bind, search, a normal return for a missing account, otherwise one delete as call 2, then an unbind. Stated by the Delete lemmas |
| Adapter.ControlOf | adapter.py:96 | userAccountControl, with the `.get` default 0 when absent. ToScimUser states that an absent value reads as active |
| Adapter.TextOr | adapter.py:104-105 | a text attribute, with the empty-string default when absent; app.py:67-68 uses the same default. ToScimUser and DispatchRules state its use |
| Adapter.ToScimUser | adapter.py:96-107 | the SCIM user has id and userName equal to sAMAccountName; `active` holds exactly when userAccountControl is absent or has bit 0x2 clear; missing names become empty strings; there is no password field |
| Adapter.PasswordEncoding | adapter.py:72 | the password value decodes to the password in double quotes, and begins and ends with the bytes 22 00 |
| Adapter.PasswordLength | adapter.py:72 | for a BMP password the value is 2·(len(password)+2) bytes long |
| Adapter.CheckReleasesConnection | adapter.py:27-34 | the connection check's trace is a session: any bind is followed by exactly one unbind, as the last call |
| Adapter.CreateReleasesConnection | adapter.py:67-83 | on every path, once create has bound it unbinds exactly once, as its last call |
| Adapter.ReadReleasesConnection | adapter.py:85-113 | on every path, once read has bound it unbinds exactly once, as its last call |
| Adapter.UpdateReleasesConnection | adapter.py:115-137 | on every path, once update has bound it unbinds exactly once, as its last call |
| Adapter.DeleteReleasesConnection | adapter.py:139-154 | on every path, once delete has bound it unbinds exactly once, as its last call |
| Adapter.CheckReportsBind | adapter.py:27-34 | the check reports success exactly when the bind succeeds; on failure it returns the error text instead of raising |
| Adapter.CreateRejectsIncomplete | adapter.py:52-54 | if a required field is missing or empty, create raises ValueError, leaves the directory unchanged and makes no call |
| Adapter.CreateReplaysFresh | adapter.py:56-76 | for a fresh account the three writes give, in turn, the entry as added, then with unicodePwd set, then with userAccountControl 512 |
| Adapter.CreateStopsAtFault | adapter.py:68-80 | a fault on write k issues writes 1..k in order and propagates the error; whatever was applied before it stays |
| Adapter.CreateThenRead | adapter.py:56-108 | for any transient account control, including the 544 the code writes, a fault-free create of a fresh account adds the final entry (control 512) at `CN=<displayName>,<base DN>`, and reading it back gives an active SCIM user with the given names |
| Adapter.CreateOutcome | adapter.py:44-83 | for every input, fault and control, create leaves the directory unchanged or, for a fresh account, adds exactly one entry at `CN=<displayName>,<base DN>` and changes no other; a normal return means the account was fresh and the directory is the old one plus the final entry |
| Adapter.CreateOfTakenAccountIsRefused | adapter.py:70 | when the DN or the account name is in use, the add fails with entryAlreadyExists and nothing changes |
| Adapter.PartialCreateRead | adapter.py:64-80 | a create that fails after the add leaves an entry that reads back active exactly when its transient control value has bit 0x2 clear |
| Adapter.PartialCreateAsWrittenReadsActive | adapter.py:64 | with the 544 the code writes, a half-created account reads as active |
| Adapter.PartialCreateReadsInactive | adapter.py:64 | with 546, the disabled transient value, a half-created account reads as inactive |
| Adapter.ReadReportsAccount | adapter.py:85-111 | read raises only when the bind fails; it succeeds exactly when the account exists and no call fails, returning that account's user under the requested id; a missing account gives (False, "User not found"); LDAP errors after the bind give (False, text) |
| Adapter.ReplayPatch | adapter.py:123-130 | update's writes keep the set of DNs and every other entry; on the target entry only the control (to 514) and the password can change |
| Adapter.UpdateChangesOnlyResolvedEntry | adapter.py:119-131 | update, whatever its fault, changes only the entry its search resolved, and only there userAccountControl (to 514 when `active` is false) and unicodePwd (when a password is given) |
| Adapter.UpdateNeverEnables | adapter.py:123-130 | a disabled account stays disabled after any update |
| Adapter.Patched | adapter.py:123-130 | update's fault-free effect on one entry: the control becomes 514 when `active` is false, then the password is replaced when one is given. UpdateAppliesPatch states that update produces it |
| Adapter.UpdateAppliesPatch | adapter.py:123-131 | with no fault, update deactivates first when asked, then replaces the password, and returns normally |
| Adapter.UpdateOfMissingRaises | adapter.py:119-121 | update of an account the search does not find raises ValueError after a bind, a search and an unbind, and changes nothing |
| Adapter.DeleteRemovesOnlyResolvedEntry | adapter.py:143-148 | delete leaves the directory unchanged or removes exactly the resolved DN; a normal return leaves no entry with that account name |
| Adapter.DeleteOfMissingIsNoOp | adapter.py:143-146 | deleting an account that is not found returns normally and changes nothing |
| Adapter.DeleteIsIdempotent | adapter.py:139-154 | a second fault-free delete of the same account also returns normally and changes nothing |
| Adapter.ActiveDirectory.constructor | adapter.py:9-15 | the adapter starts with no connection held, over a directory with unique account names, with the given transient account control that create adds entries with |
| Adapter.ActiveDirectory.Connect | adapter.py:17-25 | a successful bind records Bind and holds the connection; a failed bind raises and holds nothing |
| Adapter.ActiveDirectory.FindAccount | adapter.py:36-42 | the subtree search records Search and returns `_find_user_dn`'s answer, or the error |
| Adapter.ActiveDirectory.FetchEntry | adapter.py:93-94 | the base search records ReadEntry and returns the entry, or the error |
| Adapter.ActiveDirectory.Send | adapter.py:70-76 | a write records Issue and applies the server's answer, or the injected error, to the directory |
| Adapter.ActiveDirectory.Release | adapter.py:81-83 | unbind records Unbind and releases the connection |
| Adapter.ActiveDirectory.CheckConnection | adapter.py:27-34 | `check_ad_connection` returns CheckSpec's answer and trace, and changes no entry |
| Adapter.ActiveDirectory.SendCreateWrites | adapter.py:70-76 | the three create writes, the add carrying the adapter's transient control, each sent only after the previous one succeeded, as RunWrites describes |
| Adapter.ActiveDirectory.CreateUser | adapter.py:44-83 | the result, new directory and trace are those of CreateSpec with the adapter's transient control: 544 for the code as written, 546 for the corrected protocol (see Findings) |
| Adapter.ActiveDirectory.ReadUser | adapter.py:85-113 | the result and trace are those of ReadSpec, and no entry changes |
| Adapter.ActiveDirectory.SendUpdateWrites | adapter.py:123-131 | the deactivation, then the password write, as RunWrites describes |
| Adapter.ActiveDirectory.UpdateUser | adapter.py:115-137 | the result, new directory and trace are those of UpdateSpec |
| Adapter.ActiveDirectory.DeleteUser | adapter.py:139-154 | the result, new directory and trace are those of DeleteSpec |
| App.StartsWith | app.py:27 | Python's `str.startswith`: the prefix is no longer than the string and equals its first characters. Authenticate and ScimRoutesNeedToken state the gate in its terms |
| App.ContainsAt | app.py:71 | Python's substring test holds exactly when the substring occurs at some position |
| App.ContainsPrefix | app.py:71-77 | a path containing `/Users/` also contains `/Users` |
| App.Contains | app.py:71 | Python's `t in s` on strings, by recursion over the start position. ContainsAt states its meaning |
| App.Upper | app.py:67 | upper-casing keeps the length and maps each ASCII lower-case letter to its upper case |
| App.UpperMatchesEitherCase | app.py:67 | the upper-cased method equals an upper-case word exactly when it spells that word letter by letter in either case |
| App.UpperIsIdempotent | app.py:67 | upper-casing twice is upper-casing once |
| App.Split | app.py:74 | `split('/')` never returns an empty list |
| App.JoinSplit | app.py:74 | joining the segments with `/` gives back the path, and no segment holds `/` |
| App.UserIdIsLastSegment | app.py:74 | the user id taken by `split('/')[-1]` is the longest suffix of the path that holds no `/` |
| App.UserIdOf | app.py:74 | `path.split('/')[-1]`. UserIdIsLastSegment states its meaning |
| App.ExpectedAuthorization | app.py:28 | the header the gate expects, `Bearer <token>`, with an unset token formatted as `None`. UnsetTokenAcceptsBearerNone states that case |
| App.PathOf | app.py:33-82 | the request path of each route: `/scim/v2/Users` (POST, line 33), `/scim/v2/Users/<id>` (GET, PATCH, DELETE, lines 40, 47, 54), `/scim/v2/Bulk` (line 60) and `/health` (line 82). ScimRoutesNeedToken states which are gated |
| App.Authenticate | app.py:27-30 | a request is refused with 401 and `{"error": "Unauthorized"}` exactly when its path starts with `/scim/v2` and its Authorization header is not `Bearer <token>` |
| App.ScimRoutesNeedToken | app.py:27-30 | every route but `/health` is refused unless its header equals the expected one; `/health` is never refused |
| App.UnsetTokenAcceptsBearerNone | app.py:28 | with no token configured, the header `Bearer None` passes the gate |
| App.MissingHeaderIsRefused | app.py:28-30 | a SCIM request with no Authorization header is refused, whatever the token |
| App.JobFor | app.py:66-78 | the job one bulk operation enqueues, if any. DispatchRules and MethodCaseIsIgnored state its cases |
| App.OperationsOf | app.py:63 | `bulk_data.get('Operations', [])`: the operations, or none when the key is absent. ScimBulkOperations states the loop over them |
| App.DispatchRules | app.py:66-78 | POST with `/Users` in the path gives a create job with the data (`{}` when absent); PATCH or DELETE with `/Users/` gives an update or delete job for the last path segment; anything else gives no job |
| App.MethodCaseIsIgnored | app.py:67 | an operation dispatches the same as one whose method is already upper-cased |
| App.SomesAppend | app.py:66-78 | the jobs of two consecutive lists of operations are the jobs of the first followed by the jobs of the second |
| App.JobsFor | app.py:66-78 | the jobs the bulk loop enqueues, one per dispatched operation. ScimBulkOperations is proved to append exactly these, and JobsFollowOperations describes them in operation order |
| App.JobsForSnoc | app.py:66-78 | one more operation adds its own job, if it has one, at the end |
| App.JobsFollowOperations | app.py:66-78 | the bulk jobs are exactly the jobs of the operations that produce one, in operation order; there are no more jobs than operations |
| App.ReadResponse | app.py:42-45 | the read route answers 200 exactly when the adapter reports success and 404 otherwise; an error escaping the adapter escapes the route |
| App.ReadRouteAnswers | app.py:42-45 | the read route answers 200 with the account's user exactly when the account exists and no call fails; a missing account or an LDAP error after the bind gives 404 with an error; a failed bind escapes |
| App.StatusWord | app.py:92-93 | each status field is `ok` exactly when its check passed and `error` otherwise |
| App.HealthResponse | app.py:91-96 | health answers 200 exactly when both checks pass and 503 otherwise, with one status field per check |
| App.HealthFollowsBind | app.py:90-95 | health is 200 exactly when Redis answers and the directory accepts the bind |
| App.RouteJobs | app.py:33-80 | the jobs each route enqueues: one for create, update and delete, the bulk jobs for bulk, none for read and health. Stated by WriteRoutesQueueOneJob and JobsFollowOperations |
| App.RouteCalls | app.py:40-96 | the directory calls of each route: only read and health touch the directory, with ReadSpec's and CheckSpec's calls |
| App.RouteResponse | app.py:33-96 | each route's answer: 201 with the echoed data, ReadResponse of the read, 200 with `{}`, 204 with an empty body, 200 "Bulk request accepted", HealthResponse of the checks. Stated by ReadRouteAnswers and HealthFollowsBind |
| App.WriteRoutesQueueOneJob | app.py:33-58 | the create, update and delete routes each queue exactly one job, carrying their arguments unvalidated, and make no directory call |
| App.JobQueue.Enqueue | app.py:36 | enqueueing appends the job at the end of the queue |
| App.Connector.ScimCreateUser | app.py:33-38 | the raw data is queued as one create job and echoed with 201 |
| App.Connector.ScimReadUser | app.py:40-45 | the answer is ReadResponse of the adapter's read, and no entry changes |
| App.Connector.ScimUpdateUser | app.py:47-52 | one update job is queued, and the answer is 200 with `{}` |
| App.Connector.ScimDeleteUser | app.py:54-58 | one delete job is queued, and the answer is 204 with an empty body |
| App.Connector.ScimBulkOperations | app.py:60-80 | the loop appends exactly JobsFor(operations) to the queue, with a missing `Operations` read as an empty list, and the answer is always 200 "Bulk request accepted" |
| App.Connector.HealthCheck | app.py:82-96 | the answer is HealthResponse of the Redis result and the adapter's connection check |
| App.Connector.Handle | app.py:24-31 | a refused request queues nothing and makes no directory call; any other request has exactly its route's answer, jobs and calls |

## Left out

- Logging (`logger_config.py` and every `logger` call) is not modelled: it has no effect on results.
- `worker.py` and the RQ queue machinery are not part of this model. Jobs are values appended to `JobQueue.jobs`; running them, `retry_policy` and dead-lettering are not modelled. `q`, `retry_policy` and `redis_conn` are not defined in `app.py`.
- The health check's `redis_conn.ping()` is the parameter `redisOk`.
- Networking inside `get_ldap_connection`, the server address, protocol options and the bind DN are not modelled. The bind is `Connect`, which succeeds or fails with the injected error.
- Environment loading is not modelled. `AD_BASE_DN` and `AD_DOMAIN_NAME` are `Config`, and `SCIM_API_TOKEN` is `Connector.token`.
- Flask routing, JSON parsing and waitress are not modelled. A request arrives as a `Route` with its arguments, JSON bodies are `Payload` values, and the nested `name.givenName`/`name.familyName` keys are flat fields.
- Escaped exceptions are not mapped to responses. Flask's 500 page for an exception that escapes a route is left as `Failure(error)`.
- JSON values of the wrong type are not modelled. Examples are a null or non-string password, which Python formats as `"None"`, a non-boolean `active`, a null `Operations`, and a non-string bulk `method`.
- A create request whose body is not a JSON object is not modelled. In that case the route would enqueue and then fail when it logs.
- FindUserDn: the account search matches sAMAccountName exactly. Active Directory compares it case-insensitively and reads filter metacharacters in the id, because the filter is built by plain interpolation. No injection safety is claimed.
- FindUserDn: every entry counts as inside the search base. The base DN's subtree scope, and the order in which several matches would come back, are not modelled; under `UniqueAccounts` there is at most one match.
- FindUserDn: `if not user_dn` would also treat an empty DN as not found. A user entry's DN is never empty, so the model treats every found DN as found.
- Apply, Fresh and UserDn: DNs are opaque strings compared exactly, and account names are compared case-sensitively. `create_user_in_ad` builds the DN by plain interpolation with no escaping, and Active Directory parses DNs and compares both DNs and sAMAccountName case-insensitively. So a displayName such as `Doe, Jane` (invalid DN syntax) or `x,OU=Other` (another container), and an account `JDoe` beside `jdoe` (a duplicate to the server), behave differently on a real server than in the model. `Adapter.CreateThenRead`, `Adapter.CreateStopsAtFault` and `Adapter.CreateOfTakenAccountIsRefused` hold for this exact-string directory, not for such inputs on a real server.
- The UTF-8 encoding and decoding of text attributes is abstracted: attribute values are stored as strings.
- Server-side password policy and the LDAPS requirement for `unicodePwd` are covered only as an injected error on that write.
- A fault stops a call before it takes effect. A write that takes effect and still reports an error, such as a lost response, is not modelled.
- `unbind_s` never fails in the model. In `check_ad_connection`, an unbind error would turn the result into `(False, text)`.
- App.Upper: only ASCII letters are upper-cased. Python's `str.upper()` also maps characters such as U+017F to `S` and U+0131 to `I`, so the model misses methods like `poſt`.
- Logging of the request line in `auth_and_log` and the remote address on refusal are not modelled.

## Findings

| source | as written | input that shows it | evidently intended | confidence | as-written member | corrected member |
|---|---|---|---|---|---|---|
| adapter.py:64 | The account is added with userAccountControl 544 (0x220, NORMAL_ACCOUNT with PASSWD_NOTREQD), which the comment calls disabled. Bit 0x2 (ACCOUNTDISABLE) is clear. | A create of a fresh account whose password write (call 2) or enable write (call 3) fails, for example on a password-policy violation. The entry is left enabled, with no password required, and read reports `active: true`. | Add the account disabled, with 546 (0x222). A half-created account then stays disabled and reads as `active: false`. | not executed | Adapter.PartialCreateAsWrittenReadsActive | Adapter.PartialCreateReadsInactive |

`Adapter.ActiveDirectory` takes the transient value as a constructor argument, used by `CreateUser` and `SendCreateWrites`. An adapter constructed with `TransientControlAsWritten` (544) is the code as written; one constructed with `TransientControl` (546) is the corrected protocol. A fully successful create ends at 512 whatever the transient value (`Adapter.CreateThenRead`).
