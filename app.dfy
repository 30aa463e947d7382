/**
  The SCIM web front end: the Bearer-token gate, the single-user routes that
  queue jobs or read the directory, the bulk route that turns a list of
  operations into an ordered list of jobs, and the health check.

  The job queue is an append-only sequence of job values; running the jobs
  is the worker's business and not part of this module.
 */
module App {
  import opened Wrappers
  import opened Directory
  import opened Adapter

  // ---------------------------------------------------------------------
  // String helpers with Python's meaning

  predicate StartsWith(s: string, prefix: string) {
    |prefix| <= |s| && s[..|prefix|] == prefix
  }

  /** Python's `t in s` for strings. */
  predicate Contains(s: string, t: string)
    decreases |s|
  {
    StartsWith(s, t) || (s != [] && Contains(s[1..], t))
  }

  predicate OccursAt(s: string, t: string, i: int) {
    0 <= i && i + |t| <= |s| && s[i..i + |t|] == t
  }

  /** `t in s` holds exactly when `t` occurs in `s` at some position. */
  lemma {:induction false} ContainsAt(s: string, t: string)
    ensures Contains(s, t) <==> exists i :: OccursAt(s, t, i)
    decreases |s|
  {
    if StartsWith(s, t) {
      assert OccursAt(s, t, 0);
    } else if s == [] {
    } else {
      ContainsAt(s[1..], t);
      if exists i :: OccursAt(s, t, i) {
        var i :| OccursAt(s, t, i);
        assert i != 0;
        assert s[1..][i - 1..i - 1 + |t|] == s[i..i + |t|];
        assert OccursAt(s[1..], t, i - 1);
      }
      if Contains(s[1..], t) {
        var j :| OccursAt(s[1..], t, j);
        assert s[j + 1..j + 1 + |t|] == s[1..][j..j + |t|];
        assert OccursAt(s, t, j + 1);
      }
    }
  }

  /** A string that holds `t` holds every prefix of `t`. */
  lemma {:induction false} ContainsPrefix(s: string, t: string, u: string)
    requires Contains(s, t) && StartsWith(t, u)
    ensures Contains(s, u)
    decreases |s|
  {
    if StartsWith(s, t) {
      assert s[..|u|] == t[..|u|];
    } else {
      ContainsPrefix(s[1..], t, u);
    }
  }

  /** `str.upper()` on ASCII letters; other characters are kept. */
  function UpperChar(c: char): char {
    if 'a' <= c <= 'z' then (c as int - 32) as char else c
  }

  function Upper(s: string): (r: string)
    ensures |r| == |s| && forall i :: 0 <= i < |s| ==> r[i] == UpperChar(s[i])
  {
    seq(|s|, i requires 0 <= i < |s| => UpperChar(s[i]))
  }

  predicate AllUpperAscii(w: string) {
    forall i :: 0 <= i < |w| ==> 'A' <= w[i] <= 'Z'
  }

  /** An upper-cased string equals an upper-case word exactly when it spells the word in either case. */
  lemma UpperMatchesEitherCase(s: string, w: string)
    requires AllUpperAscii(w)
    ensures Upper(s) == w <==>
      |s| == |w| && forall i :: 0 <= i < |s| ==> s[i] == w[i] || s[i] as int == w[i] as int + 32
  {
  }

  lemma UpperIsIdempotent(s: string)
    ensures Upper(Upper(s)) == Upper(s)
  {
  }

  /** Python's `s.split('/')`: never empty, and the separators are dropped. */
  function Split(s: string): (r: seq<string>)
    ensures |r| >= 1
    decreases |s|
  {
    if s == [] then [""]
    else
      var rest := Split(s[1..]);
      if s[0] == '/' then [""] + rest else [[s[0]] + rest[0]] + rest[1..]
  }

  /** Python's `'/'.join(parts)`. */
  function Join(parts: seq<string>): string
    requires |parts| >= 1
    decreases |parts|
  {
    if |parts| == 1 then parts[0] else parts[0] + "/" + Join(parts[1..])
  }

  /** Splitting loses nothing: the segments hold no separator and join back to the string. */
  lemma {:induction false} JoinSplit(s: string)
    ensures Join(Split(s)) == s
    ensures forall i :: 0 <= i < |Split(s)| ==> '/' !in Split(s)[i]
    decreases |s|
  {
    if s != [] {
      JoinSplit(s[1..]);
      var rest := Split(s[1..]);
      if s[0] == '/' {
        assert Split(s) == [""] + rest && Split(s)[1..] == rest;
        assert s == "" + "/" + s[1..];
      } else {
        var first := [s[0]] + rest[0];
        assert Split(s) == [first] + rest[1..];
        assert forall i :: 1 <= i < |Split(s)| ==> Split(s)[i] == rest[i];
        if |rest| == 1 {
          assert s == first;
        } else {
          assert Split(s)[1..] == rest[1..];
          assert Join(rest) == rest[0] + "/" + Join(rest[1..]);
          assert s == first + "/" + Join(rest[1..]);
        }
      }
    }
  }

  /** `path.split('/')[-1]`, the user id the bulk route takes from a path. */
  function UserIdOf(path: string): string {
    var parts := Split(path);
    parts[|parts| - 1]
  }

  /** A string splits into a single segment exactly when it holds no separator. */
  lemma {:induction false} SingleSegment(t: string)
    ensures |Split(t)| == 1 <==> '/' !in t
    decreases |t|
  {
    if t != [] {
      SingleSegment(t[1..]);
    }
  }

  /** The last segment of a non-empty path, in terms of the path without its first character. */
  lemma UserIdStep(path: string)
    requires path != []
    ensures UserIdOf(path) == if path[0] != '/' && '/' !in path[1..] then path else UserIdOf(path[1..])
  {
    var rest := Split(path[1..]);
    SingleSegment(path[1..]);
    if path[0] == '/' {
      assert Split(path) == [""] + rest;
    } else {
      var parts := [[path[0]] + rest[0]] + rest[1..];
      assert Split(path) == parts;
      if |rest| == 1 {
        JoinSplit(path[1..]);
        assert path == [path[0]] + path[1..];
      } else {
        assert parts[|parts| - 1] == rest[|rest| - 1];
      }
    }
  }

  /** The user id is the longest suffix of the path free of `/`. */
  lemma {:induction false} UserIdIsLastSegment(path: string)
    ensures var id := UserIdOf(path);
            && '/' !in id && |id| <= |path| && path[|path| - |id|..] == id
            && (|id| < |path| ==> path[|path| - |id| - 1] == '/')
    decreases |path|
  {
    if path == [] {
      assert UserIdOf(path) == "";
    } else {
      var tail := path[1..];
      UserIdIsLastSegment(tail);
      UserIdStep(path);
      if path[0] == '/' || '/' in tail {
        var id' := UserIdOf(tail);
        assert path[|path| - |id'|..] == tail[|tail| - |id'|..];
      }
    }
  }

  // ---------------------------------------------------------------------
  // Requests, responses and the token gate

  /** The JSON a route answers with. */
  datatype Body =
    | Echo(payload: Payload)
    | EmptyObject
    | EmptyText
    | ErrorBody(error: UserOrMessage)
    | UserBody(result: UserOrMessage)
    | StatusBody(status: string)
    | HealthBody(redisStatus: string, adStatus: string)

  datatype Response = Response(code: int, body: Body)

  const ScimPrefix := "/scim/v2"
  const Unauthorized := "Unauthorized"
  const BulkAccepted := "Bulk request accepted"

  /** The header value the gate accepts; an unset token is formatted as `None`. */
  function ExpectedAuthorization(token: Option<string>): string {
    "Bearer " + (if token.Some? then token.value else "None")
  }

  /** `auth_and_log`: the 401 answer for a SCIM path without the right header, or `None` to go on. */
  function Authenticate(path: string, authorization: Option<string>, token: Option<string>): (r: Option<Response>)
    ensures r.Some? <==> StartsWith(path, ScimPrefix) && authorization != Some(ExpectedAuthorization(token))
    ensures r.Some? ==> r.value.code == 401 && r.value.body == ErrorBody(Message(Unauthorized))
  {
    if StartsWith(path, ScimPrefix) && authorization != Some(ExpectedAuthorization(token))
    then Some(Response(401, ErrorBody(Message(Unauthorized))))
    else None
  }

  /** The routes and what Flask passes to each. */
  datatype Route =
    | PostUser(data: Payload)
    | GetUser(userId: string)
    | PatchUser(userId: string, patch: Payload)
    | DeleteUser(userId: string)
    | PostBulk(bulk: BulkRequest)
    | GetHealth

  function PathOf(route: Route): string {
    match route
    case PostUser(_) => "/scim/v2/Users"
    case GetUser(id) => "/scim/v2/Users/" + id
    case PatchUser(id, _) => "/scim/v2/Users/" + id
    case DeleteUser(id) => "/scim/v2/Users/" + id
    case PostBulk(_) => "/scim/v2/Bulk"
    case GetHealth => "/health"
  }

  datatype Request = Request(route: Route, authorization: Option<string>)

  /** Every route but the health check sits under the SCIM prefix, so it needs the exact header. */
  lemma ScimRoutesNeedToken(route: Route, authorization: Option<string>, token: Option<string>)
    ensures route.GetHealth? ==> Authenticate(PathOf(route), authorization, token).None?
    ensures !route.GetHealth? ==>
      (Authenticate(PathOf(route), authorization, token).None? <==> authorization == Some(ExpectedAuthorization(token)))
  {
  }

  /** With no token configured, the literal header `Bearer None` opens every SCIM path. */
  lemma UnsetTokenAcceptsBearerNone(path: string)
    ensures Authenticate(path, Some("Bearer None"), None).None?
  {
    assert ExpectedAuthorization(None) == "Bearer " + "None" == "Bearer None";
  }

  /** A missing header is refused on every SCIM path, whatever the token. */
  lemma MissingHeaderIsRefused(path: string, token: Option<string>)
    requires StartsWith(path, ScimPrefix)
    ensures Authenticate(path, None, token) == Some(Response(401, ErrorBody(Message(Unauthorized))))
  {
  }

  // ---------------------------------------------------------------------
  // Jobs and the bulk dispatch

  /** A queued call of an adapter operation with its arguments. */
  datatype Job = CreateJob(data: Payload) | UpdateJob(userId: string, patch: Payload) | DeleteJob(userId: string)

  /** One element of `Operations`; `None` is a missing key. */
  datatype BulkOp = BulkOp(verb: Option<string>, path: Option<string>, data: Option<Payload>)

  datatype BulkRequest = BulkRequest(operations: Option<seq<BulkOp>>)

  function OperationsOf(bulk: BulkRequest): seq<BulkOp> {
    if bulk.operations.Some? then bulk.operations.value else []
  }

  /** The job one bulk operation produces, if any. */
  function JobFor(op: BulkOp): Option<Job> {
    var m := Upper(TextOr(op.verb));
    var path := TextOr(op.path);
    var data := if op.data.Some? then op.data.value else EmptyPayload;
    if m == "POST" && Contains(path, "/Users") then Some(CreateJob(data))
    else if m == "PATCH" && Contains(path, "/Users/") then Some(UpdateJob(UserIdOf(path), data))
    else if m == "DELETE" && Contains(path, "/Users/") then Some(DeleteJob(UserIdOf(path)))
    else None
  }

  /** The present values of a list of options, in order. */
  function Somes<T>(xs: seq<Option<T>>): (r: seq<T>)
    ensures |r| <= |xs|
    decreases |xs|
  {
    if xs == [] then [] else (if xs[0].Some? then [xs[0].value] else []) + Somes(xs[1..])
  }

  lemma {:induction false} SomesAppend<T>(a: seq<Option<T>>, b: seq<Option<T>>)
    ensures Somes(a + b) == Somes(a) + Somes(b)
    decreases |a|
  {
    if a == [] {
      assert a + b == b;
    } else {
      assert (a + b)[0] == a[0] && (a + b)[1..] == a[1..] + b;
      SomesAppend(a[1..], b);
    }
  }

  function Shift(xs: seq<nat>): (r: seq<nat>)
    ensures |r| == |xs| && forall j :: 0 <= j < |xs| ==> r[j] == xs[j] + 1
  {
    seq(|xs|, j requires 0 <= j < |xs| => xs[j] + 1)
  }

  lemma ShiftMembers(xs: seq<nat>, i: nat)
    ensures i in Shift(xs) <==> 1 <= i && i - 1 in xs
  {
  }

  /** The positions of the present values of a list of options, in increasing order. */
  function Positions<T>(xs: seq<Option<T>>): (r: seq<nat>)
    ensures |r| <= |xs|
    ensures forall j :: 0 <= j < |r| ==> r[j] < |xs|
    decreases |xs|
  {
    if xs == [] then [] else (if xs[0].Some? then [0] else []) + Shift(Positions(xs[1..]))
  }

  predicate Increasing(idx: seq<nat>) {
    forall j, k :: 0 <= j < k < |idx| ==> idx[j] < idx[k]
  }

  lemma {:induction false} PositionsIncrease<T>(xs: seq<Option<T>>)
    ensures Increasing(Positions(xs))
    decreases |xs|
  {
    if xs != [] {
      PositionsIncrease(xs[1..]);
      assert Increasing(Shift(Positions(xs[1..])));
    }
  }

  lemma {:induction false} PositionsAreThePresentOnes<T>(xs: seq<Option<T>>)
    ensures forall i :: 0 <= i < |xs| ==> (xs[i].Some? <==> i in Positions(xs))
    decreases |xs|
  {
    if xs != [] {
      PositionsAreThePresentOnes(xs[1..]);
      forall i | 0 <= i < |xs|
        ensures xs[i].Some? <==> i in Positions(xs)
      {
        ShiftMembers(Positions(xs[1..]), i);
        if i >= 1 {
          assert xs[i] == xs[1..][i - 1];
        }
      }
    }
  }

  /** `vs[j]` is the value present at position `idx[j]` of `xs`, for every `j`. */
  ghost predicate Aligned<T>(xs: seq<Option<T>>, vs: seq<T>, idx: seq<nat>) {
    |vs| == |idx| && forall j :: 0 <= j < |idx| ==> idx[j] < |xs| && xs[idx[j]] == Some(vs[j])
  }

  lemma {:induction false} SomesAtPositions<T>(xs: seq<Option<T>>)
    ensures Aligned(xs, Somes(xs), Positions(xs))
    decreases |xs|
  {
    if xs != [] {
      SomesAtPositions(xs[1..]);
      var later, rest := Positions(xs[1..]), Somes(xs[1..]);
      var shifted := Shift(later);
      assert Aligned(xs, rest, shifted) by {
        forall j | 0 <= j < |shifted|
          ensures shifted[j] < |xs| && xs[shifted[j]] == Some(rest[j])
        {
          assert xs[later[j] + 1] == xs[1..][later[j]];
        }
      }
      if xs[0].Some? {
        var idx, vs := [0] + shifted, [xs[0].value] + rest;
        assert Positions(xs) == idx && Somes(xs) == vs;
        forall j | 0 < j < |idx|
          ensures idx[j] < |xs| && xs[idx[j]] == Some(vs[j])
        {
          assert idx[j] == shifted[j - 1] && vs[j] == rest[j - 1];
        }
      } else {
        assert Positions(xs) == shifted && Somes(xs) == rest;
      }
    }
  }

  /** What each operation produces, position by position. */
  function Outcomes(ops: seq<BulkOp>): (r: seq<Option<Job>>)
    ensures |r| == |ops| && forall i :: 0 <= i < |ops| ==> r[i] == JobFor(ops[i])
  {
    seq(|ops|, i requires 0 <= i < |ops| => JobFor(ops[i]))
  }

  /** The jobs of a list of operations, in the operations' order. */
  function JobsFor(ops: seq<BulkOp>): seq<Job> {
    Somes(Outcomes(ops))
  }

  /** The positions of the operations that produce a job. */
  function Dispatched(ops: seq<BulkOp>): seq<nat> {
    Positions(Outcomes(ops))
  }

  /** Queueing the jobs of one more operation extends the job list by that operation's job. */
  lemma JobsForSnoc(ops: seq<BulkOp>, op: BulkOp)
    ensures JobsFor(ops + [op]) == JobsFor(ops) + (if JobFor(op).Some? then [JobFor(op).value] else [])
  {
    assert Outcomes(ops + [op]) == Outcomes(ops) + [JobFor(op)];
    SomesAppend(Outcomes(ops), [JobFor(op)]);
    assert Somes([JobFor(op)]) == (if JobFor(op).Some? then [JobFor(op).value] else []) + Somes<Job>([]);
  }

  /**
    The bulk jobs are exactly the jobs of the dispatched operations, taken in
    the order of the operations; every other operation is skipped.
   */
  lemma JobsFollowOperations(ops: seq<BulkOp>)
    ensures var jobs, idx := JobsFor(ops), Dispatched(ops);
            && |jobs| == |idx| <= |ops|
            && (forall j :: 0 <= j < |idx| ==> JobFor(ops[idx[j]]) == Some(jobs[j]))
            && Increasing(idx)
            && (forall i :: 0 <= i < |ops| ==> (JobFor(ops[i]).Some? <==> i in idx))
  {
    SomesAtPositions(Outcomes(ops));
    PositionsIncrease(Outcomes(ops));
    PositionsAreThePresentOnes(Outcomes(ops));
  }

  /** Upper- and lower-case methods dispatch alike. */
  lemma MethodCaseIsIgnored(op: BulkOp)
    ensures JobFor(op) == JobFor(op.(verb := Some(Upper(TextOr(op.verb)))))
  {
  }

  /**
    POST with `/Users` in the path gives a create job carrying the data (`{}`
    when absent); PATCH and DELETE need `/Users/` and take the last segment
    of the path as the user id; anything else gives no job.
   */
  lemma DispatchRules(op: BulkOp)
    ensures var m, path := Upper(TextOr(op.verb)), TextOr(op.path);
            var data := if op.data.Some? then op.data.value else EmptyPayload;
            var j := JobFor(op);
            && (j == Some(CreateJob(data)) <==> m == "POST" && Contains(path, "/Users"))
            && (j == Some(UpdateJob(UserIdOf(path), data)) <==> m == "PATCH" && Contains(path, "/Users/"))
            && (j == Some(DeleteJob(UserIdOf(path))) <==> m == "DELETE" && Contains(path, "/Users/"))
            && (j.None? <==> !(m == "POST" && Contains(path, "/Users")) && !(m in ["PATCH", "DELETE"] && Contains(path, "/Users/")))
            && (j.Some? ==> Contains(path, "/Users"))
  {
    var path := TextOr(op.path);
    if Contains(path, "/Users/") {
      assert "/Users/"[..|"/Users"|] == "/Users";
      ContainsPrefix(path, "/Users/", "/Users");
    }
  }

  // ---------------------------------------------------------------------
  // Read and health answers

  /** `scim_read_user`: `Failure` is the LDAPError that escapes the adapter and the route. */
  function ReadResponse(r: ReadResult): (a: Result<Response, LdapError>)
    ensures a.Failure? <==> r.ReadRaised?
    ensures a.Success? ==> (a.value.code == 200 <==> r.success) && (a.value.code == 200 || a.value.code == 404)
  {
    match r
    case ReadRaised(e) => Failure(e)
    case Reply(success, result) =>
      if success then Success(Response(200, UserBody(result))) else Success(Response(404, ErrorBody(result)))
  }

  /**
    The read route answers 200 with the account's SCIM user exactly when the
    account exists and no call fails, 404 with an error for a missing account
    or a failed search or read, and lets a failed bind escape.
   */
  lemma ReadRouteAnswers(d: Entries, id: string, f: Option<Fault>)
    requires UniqueAccounts(d)
    ensures var a := ReadResponse(ReadSpec(d, id, f).result);
            && (a.Failure? <==> Injected(f, 0).Some?)
            && (a.Success? && a.value.code == 200 <==> AccountTaken(d, id) && NoFaultBefore(f, 3))
            && (a.Success? && a.value.code == 200 ==> a.value.body.UserBody? && a.value.body.result.User? && a.value.body.result.user.id == id)
            && (a.Success? && a.value.code == 404 ==> a.value.body.ErrorBody? && a.value.body.error.Message?)
            && (!AccountTaken(d, id) && NoFaultBefore(f, 2) ==> a == Success(Response(404, ErrorBody(Message(UserNotFound)))))
  {
  }

  function StatusWord(ok: bool): (w: string)
    ensures w == "ok" <==> ok
    ensures w == "error" <==> !ok
  {
    if ok then "ok" else "error"
  }

  /** `health_check`'s answer from the outcome of the two probes. */
  function HealthResponse(redisOk: bool, adOk: bool): (r: Response)
    ensures r.code == 200 <==> redisOk && adOk
    ensures r.code == 503 <==> !(redisOk && adOk)
    ensures r.body.HealthBody? && (r.body.redisStatus == "ok" <==> redisOk) && (r.body.adStatus == "ok" <==> adOk)
  {
    Response(if redisOk && adOk then 200 else 503, HealthBody(StatusWord(redisOk), StatusWord(adOk)))
  }

  /** The health check is green exactly when Redis answers and the directory accepts the bind. */
  lemma HealthFollowsBind(redisOk: bool, f: Option<Fault>)
    ensures HealthResponse(redisOk, CheckSpec(f).ok).code == 200 <==> redisOk && Injected(f, 0).None?
    ensures HealthResponse(redisOk, CheckSpec(f).ok).body.adStatus == "ok" <==> Injected(f, 0).None?
  {
  }

  // ---------------------------------------------------------------------
  // What a request does, once the gate lets it through

  /** The jobs a route enqueues. */
  function RouteJobs(route: Route): seq<Job> {
    match route
    case PostUser(data) => [CreateJob(data)]
    case PatchUser(id, patch) => [UpdateJob(id, patch)]
    case DeleteUser(id) => [DeleteJob(id)]
    case PostBulk(bulk) => JobsFor(OperationsOf(bulk))
    case GetUser(_) => []
    case GetHealth => []
  }

  /** The calls a route makes on the directory. */
  function RouteCalls(route: Route, d: Entries, f: Option<Fault>): seq<Call>
    requires UniqueAccounts(d)
  {
    match route
    case GetUser(id) => ReadSpec(d, id, f).calls
    case GetHealth => CheckSpec(f).calls
    case _ => []
  }

  /** The answer of a route; `Failure` is an error that escapes it. */
  function RouteResponse(route: Route, d: Entries, redisOk: bool, f: Option<Fault>): Result<Response, LdapError>
    requires UniqueAccounts(d)
  {
    match route
    case PostUser(data) => Success(Response(201, Echo(data)))
    case GetUser(id) => ReadResponse(ReadSpec(d, id, f).result)
    case PatchUser(_, _) => Success(Response(200, EmptyObject))
    case DeleteUser(_) => Success(Response(204, EmptyText))
    case PostBulk(_) => Success(Response(200, StatusBody(BulkAccepted)))
    case GetHealth => Success(HealthResponse(redisOk, CheckSpec(f).ok))
  }

  /** The single-user write routes queue exactly one job, and never touch the directory. */
  lemma WriteRoutesQueueOneJob(route: Route, d: Entries, f: Option<Fault>)
    requires UniqueAccounts(d)
    requires route.PostUser? || route.PatchUser? || route.DeleteUser?
    ensures |RouteJobs(route)| == 1 && RouteCalls(route, d, f) == []
    ensures route.PostUser? ==> RouteJobs(route)[0] == CreateJob(route.data)
    ensures route.PatchUser? ==> RouteJobs(route)[0] == UpdateJob(route.userId, route.patch)
    ensures route.DeleteUser? ==> RouteJobs(route)[0] == DeleteJob(route.userId)
  {
  }

  /** The queue the routes hand their jobs to. */
  class JobQueue {
    var jobs: seq<Job>

    constructor ()
      ensures jobs == []
    {
      jobs := [];
    }

    method Enqueue(job: Job)
      modifies this
      ensures jobs == old(jobs) + [job]
    {
      jobs := jobs + [job];
    }
  }

  /** The Flask application: its token, its queue and the directory its adapter uses. */
  class Connector {
    const token: Option<string>
    const queue: JobQueue
    const directory: ActiveDirectory

    constructor (token: Option<string>, queue: JobQueue, directory: ActiveDirectory)
      ensures this.token == token && this.queue == queue && this.directory == directory
    {
      this.token := token;
      this.queue := queue;
      this.directory := directory;
    }

    /** `scim_create_user`: queue the raw data, unvalidated, and echo it. */
    method ScimCreateUser(data: Payload) returns (resp: Response)
      modifies queue
      ensures queue.jobs == old(queue.jobs) + [CreateJob(data)]
      ensures resp == Response(201, Echo(data))
    {
      queue.Enqueue(CreateJob(data));
      resp := Response(201, Echo(data));
    }

    /** `scim_read_user`. */
    method ScimReadUser(userId: string, f: Option<Fault>) returns (r: Result<Response, LdapError>)
      requires directory.Valid()
      modifies directory
      ensures directory.Valid() && directory.entries == old(directory.entries)
      ensures var run := ReadSpec(old(directory.entries), userId, f);
              r == ReadResponse(run.result) && directory.calls == old(directory.calls) + run.calls
    {
      var result := directory.ReadUser(userId, f);
      r := ReadResponse(result);
    }

    /** `scim_update_user`. */
    method ScimUpdateUser(userId: string, patch: Payload) returns (resp: Response)
      modifies queue
      ensures queue.jobs == old(queue.jobs) + [UpdateJob(userId, patch)]
      ensures resp == Response(200, EmptyObject)
    {
      queue.Enqueue(UpdateJob(userId, patch));
      resp := Response(200, EmptyObject);
    }

    /** `scim_delete_user`. */
    method ScimDeleteUser(userId: string) returns (resp: Response)
      modifies queue
      ensures queue.jobs == old(queue.jobs) + [DeleteJob(userId)]
      ensures resp == Response(204, EmptyText)
    {
      queue.Enqueue(DeleteJob(userId));
      resp := Response(204, EmptyText);
    }

    /** `scim_bulk_operations`: one pass over the operations, queueing the job of each in turn. */
    method ScimBulkOperations(bulk: BulkRequest) returns (resp: Response)
      modifies queue
      ensures queue.jobs == old(queue.jobs) + JobsFor(OperationsOf(bulk))
      ensures resp == Response(200, StatusBody(BulkAccepted))
    {
      var ops := OperationsOf(bulk);
      for i := 0 to |ops|
        invariant queue.jobs == old(queue.jobs) + JobsFor(ops[..i])
      {
        var job := JobFor(ops[i]);
        if job.Some? {
          queue.Enqueue(job.value);
        }
        assert ops[..i + 1] == ops[..i] + [ops[i]];
        JobsForSnoc(ops[..i], ops[i]);
      }
      assert ops[..|ops|] == ops;
      resp := Response(200, StatusBody(BulkAccepted));
    }

    /** `health_check`, given whether Redis answered its ping. */
    method HealthCheck(redisOk: bool, f: Option<Fault>) returns (resp: Response)
      requires directory.Valid()
      modifies directory
      ensures directory.Valid() && directory.entries == old(directory.entries)
      ensures var c := CheckSpec(f); resp == HealthResponse(redisOk, c.ok) && directory.calls == old(directory.calls) + c.calls
    {
      var adOk, _ := directory.CheckConnection(f);
      resp := HealthResponse(redisOk, adOk);
    }

    /**
      A request passes the token gate, then runs its route. A refused request
      queues nothing and makes no call on the directory.
     */
    method Handle(req: Request, redisOk: bool, f: Option<Fault>) returns (r: Result<Response, LdapError>)
      requires directory.Valid()
      modifies queue, directory
      ensures directory.Valid() && directory.entries == old(directory.entries)
      ensures var refused := Authenticate(PathOf(req.route), req.authorization, token);
              if refused.Some? then
                r == Success(refused.value) && queue.jobs == old(queue.jobs) && directory.calls == old(directory.calls)
              else
                && r == RouteResponse(req.route, old(directory.entries), redisOk, f)
                && queue.jobs == old(queue.jobs) + RouteJobs(req.route)
                && directory.calls == old(directory.calls) + RouteCalls(req.route, old(directory.entries), f)
    {
      var refused := Authenticate(PathOf(req.route), req.authorization, token);
      if refused.Some? {
        return Success(refused.value);
      }
      match req.route
      case PostUser(data) =>
        var resp := ScimCreateUser(data);
        r := Success(resp);
      case GetUser(id) =>
        r := ScimReadUser(id, f);
      case PatchUser(id, patch) =>
        var resp := ScimUpdateUser(id, patch);
        r := Success(resp);
      case DeleteUser(id) =>
        var resp := ScimDeleteUser(id);
        r := Success(resp);
      case PostBulk(bulk) =>
        var resp := ScimBulkOperations(bulk);
        r := Success(resp);
      case GetHealth =>
        var resp := HealthCheck(redisOk, f);
        r := Success(resp);
    }
  }
}
