/**
  An abstract Active Directory as the adapter sees it through python-ldap:
  entries keyed by distinguished name, the server's rules for add, modify and
  delete, the account search, and a record of the calls made on a connection.
  Any request may fail with an LDAPError; which one fails is an input (a Fault).
 */
module Directory {
  import opened Wrappers
  import opened Utf16

  type Dn = string

  /** The attributes of an entry that the adapter writes or reads. */
  datatype Entry = Entry(
    objectClass: seq<string>,
    cn: Option<string>,
    sAMAccountName: Option<string>,
    givenName: Option<string>,
    sn: Option<string>,
    userPrincipalName: Option<string>,
    userAccountControl: Option<int>,
    unicodePwd: Option<seq<byte>>)

  type Entries = map<Dn, Entry>

  /** `ldap.LDAPError`; `str(e)` is its description. */
  datatype LdapError = LdapError(description: string)

  const EntryAlreadyExists := LdapError("Already exists")
  const NoSuchObject := LdapError("No such object")

  /** The two MOD_REPLACE modifications the adapter issues. */
  datatype Change = ReplacePassword(encoded: seq<byte>) | ReplaceControl(flags: int)

  /** A write request: `add_s`, `modify_s` or `delete_s`. */
  datatype Write = Add(dn: Dn, entry: Entry) | Modify(dn: Dn, change: Change) | Remove(dn: Dn)

  function Changed(e: Entry, c: Change): Entry {
    match c
    case ReplacePassword(p) => e.(unicodePwd := Some(p))
    case ReplaceControl(f) => e.(userAccountControl := Some(f))
  }

  predicate HasAccount(d: Entries, dn: Dn, name: string) {
    dn in d && d[dn].sAMAccountName == Some(name)
  }

  predicate AccountTaken(d: Entries, name: string) {
    exists dn :: dn in d && d[dn].sAMAccountName == Some(name)
  }

  /** The domain never holds two entries with the same sAMAccountName. */
  ghost predicate UniqueAccounts(d: Entries) {
    forall a, b :: a in d && b in d && d[a].sAMAccountName.Some? && d[a].sAMAccountName == d[b].sAMAccountName ==> a == b
  }

  /**
    The server's answer to one write, when the connection itself does not fail:
    an add is refused for a DN or an account name already in use, a modify or
    delete for a DN that does not exist.
   */
  function Apply(d: Entries, w: Write): (r: Result<Entries, LdapError>)
    ensures UniqueAccounts(d) && r.Success? ==> UniqueAccounts(r.value)
  {
    match w
    case Add(dn, e) =>
      if dn in d || (e.sAMAccountName.Some? && AccountTaken(d, e.sAMAccountName.value)) then Failure(EntryAlreadyExists)
      else Success(d[dn := e])
    case Modify(dn, c) =>
      if dn !in d then Failure(NoSuchObject) else Success(d[dn := Changed(d[dn], c)])
    case Remove(dn) =>
      if dn !in d then Failure(NoSuchObject) else Success(d - {dn})
  }

  /** Applies writes in order, assuming each one succeeds. */
  function Replay(d: Entries, ws: seq<Write>): Option<Entries>
    decreases |ws|
  {
    if ws == [] then Some(d)
    else match Apply(d, ws[0])
      case Failure(_) => None
      case Success(d') => Replay(d', ws[1..])
  }

  /**
    `_find_user_dn`: the DN of the entry whose sAMAccountName is `name`, or
    None when the subtree search returns nothing.
   */
  function FindUserDn(d: Entries, name: string): (r: Option<Dn>)
    requires UniqueAccounts(d)
    ensures r.Some? ==> HasAccount(d, r.value, name)
    ensures r.None? <==> !AccountTaken(d, name)
    ensures forall dn :: HasAccount(d, dn, name) ==> r == Some(dn)
  {
    if AccountTaken(d, name) then
      var dn :| dn in d && d[dn].sAMAccountName == Some(name);
      Some(dn)
    else None
  }

  /** The request on an open connection that is to fail, counting the bind as call 0. */
  datatype Fault = Fault(call: nat, error: LdapError)

  function Injected(f: Option<Fault>, k: nat): Option<LdapError> {
    if f.Some? && f.value.call == k then Some(f.value.error) else None
  }

  /** What happened on one connection, in order. `Bind` is recorded only when binding succeeded. */
  datatype Call = Bind | Search(account: string) | ReadEntry(dn: Dn) | Issue(w: Write) | Unbind

  datatype Connection = Released | Bound

  predicate IsBindOrUnbind(c: Call) {
    c == Bind || c == Unbind
  }

  /**
    A connection that was opened is released exactly once, as the last call,
    and no request is made outside it.
   */
  predicate Session(calls: seq<Call>) {
    calls == [] ||
    (2 <= |calls| && calls[0] == Bind && calls[|calls| - 1] == Unbind &&
     forall i :: 0 < i < |calls| - 1 ==> !IsBindOrUnbind(calls[i]))
  }

  function IssueCalls(ws: seq<Write>): (r: seq<Call>)
    ensures |r| == |ws| && forall i :: 0 <= i < |ws| ==> r[i] == Issue(ws[i])
  {
    seq(|ws|, i requires 0 <= i < |ws| => Issue(ws[i]))
  }

  /** The outcome of issuing writes in order, stopping at the first error. */
  datatype Run = Run(entries: Entries, applied: nat, error: Option<LdapError>)

  /** How many writes were sent: the applied ones and the one that failed. */
  function Issued(r: Run): nat {
    r.applied + if r.error.Some? then 1 else 0
  }

  /**
    Issues `ws` in order, the first as call `k`, stopping at the first
    injected fault or server error. What was applied stays applied.
   */
  function RunWrites(d: Entries, ws: seq<Write>, f: Option<Fault>, k: nat): (r: Run)
    ensures r.error.None? ==> r.applied == |ws|
    ensures r.error.Some? ==> r.applied < |ws|
    ensures Replay(d, ws[..r.applied]) == Some(r.entries)
    ensures forall j :: k <= j < k + r.applied ==> Injected(f, j).None?
    ensures r.error.Some? ==>
              || r.error == Injected(f, k + r.applied)
              || (Injected(f, k + r.applied).None? && Apply(r.entries, ws[r.applied]) == Failure(r.error.value))
    ensures UniqueAccounts(d) ==> UniqueAccounts(r.entries)
    decreases |ws|
  {
    if ws == [] then Run(d, 0, None)
    else match Injected(f, k)
      case Some(e) => Run(d, 0, Some(e))
      case None =>
        match Apply(d, ws[0])
        case Failure(e) => Run(d, 0, Some(e))
        case Success(d') =>
          var rest := RunWrites(d', ws[1..], f, k + 1);
          assert ws[..rest.applied + 1][1..] == ws[1..][..rest.applied];
          Run(rest.entries, rest.applied + 1, rest.error)
  }

  /** With no fault on its calls and every write acceptable to the server, a run applies everything. */
  lemma {:induction false} RunWritesClean(d: Entries, ws: seq<Write>, f: Option<Fault>, k: nat)
    requires forall j :: k <= j < k + |ws| ==> Injected(f, j).None?
    requires Replay(d, ws).Some?
    ensures RunWrites(d, ws, f, k) == Run(Replay(d, ws).value, |ws|, None)
    decreases |ws|
  {
    if ws != [] {
      assert Injected(f, k).None?;
      var d' := Apply(d, ws[0]).value;
      RunWritesClean(d', ws[1..], f, k + 1);
    }
  }

  /** A run as seen from one write earlier: `n` more writes applied. */
  function Shifted(r: Run, n: nat): Run {
    Run(r.entries, r.applied + n, r.error)
  }

  /**
    The state after sending `ws` one by one from call `k`, starting from
    entries `d` and trace `c`: the error, the entries and the trace are those
    RunWrites gives.
   */
  ghost predicate Sent(d: Entries, c: seq<Call>, ws: seq<Write>, f: Option<Fault>, k: nat,
                       err: Option<LdapError>, d': Entries, c': seq<Call>)
  {
    SentRun(c, ws, RunWrites(d, ws, f, k), err, d', c')
  }

  /** The error, entries and trace of run `r` of `ws`, after trace `c`. */
  ghost predicate SentRun(c: seq<Call>, ws: seq<Write>, r: Run, err: Option<LdapError>, d': Entries, c': seq<Call>) {
    && Issued(r) <= |ws|
    && err == r.error && d' == r.entries && c' == c + IssueCalls(ws[..Issued(r)])
  }

  /** Sending nothing changes nothing. */
  lemma SentNothing(d: Entries, c: seq<Call>, f: Option<Fault>, k: nat)
    ensures Sent(d, c, [], f, k, None, d, c)
  {
  }

  /** A first write that draws a fault or is refused ends the run with its error. */
  lemma SentStops(d: Entries, c: seq<Call>, ws: seq<Write>, f: Option<Fault>, k: nat, e: LdapError)
    requires ws != []
    requires Injected(f, k) == Some(e) || (Injected(f, k).None? && Apply(d, ws[0]) == Failure(e))
    ensures Sent(d, c, ws, f, k, Some(e), d, c + [Issue(ws[0])])
  {
    assert ws[..1] == [ws[0]];
  }

  /** A first write that is applied is followed by the run of the rest, one call later. */
  lemma SentOn(d: Entries, c: seq<Call>, ws: seq<Write>, f: Option<Fault>, k: nat, d1: Entries,
               err: Option<LdapError>, d': Entries, c': seq<Call>)
    requires ws != [] && Injected(f, k).None? && Apply(d, ws[0]) == Success(d1)
    requires Sent(d1, c + [Issue(ws[0])], ws[1..], f, k + 1, err, d', c')
    ensures Sent(d, c, ws, f, k, err, d', c')
  {
    RunOn(d, ws, f, k, d1);
    SentRunOn(c, ws, RunWrites(d1, ws[1..], f, k + 1), err, d', c');
  }

  /** The trace of a run shifted by one write starts with that write. */
  lemma SentRunOn(c: seq<Call>, ws: seq<Write>, rest: Run, err: Option<LdapError>, d': Entries, c': seq<Call>)
    requires ws != []
    requires SentRun(c + [Issue(ws[0])], ws[1..], rest, err, d', c')
    ensures SentRun(c, ws, Shifted(rest, 1), err, d', c')
  {
    var n := Issued(rest);
    var tail := IssueCalls(ws[1..][..n]);
    assert ws[..n + 1] == [ws[0]] + ws[1..][..n];
    IssueCallsCons(ws[0], ws[1..][..n]);
    assert c + [Issue(ws[0])] + tail == c + ([Issue(ws[0])] + tail);
  }

  /** RunWrites after a first write that is applied. */
  lemma RunOn(d: Entries, ws: seq<Write>, f: Option<Fault>, k: nat, d1: Entries)
    requires ws != [] && Injected(f, k).None? && Apply(d, ws[0]) == Success(d1)
    ensures RunWrites(d, ws, f, k) == Shifted(RunWrites(d1, ws[1..], f, k + 1), 1)
  {
  }

  lemma IssueCallsCons(w: Write, ws: seq<Write>)
    ensures IssueCalls([w] + ws) == [Issue(w)] + IssueCalls(ws)
  {
  }
}
