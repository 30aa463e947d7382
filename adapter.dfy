/**
  The Active Directory adapter: create, read, update and delete of a user,
  and the connection check, each on its own connection to the directory.

  Each operation has a specification function (`CreateSpec`, `ReadSpec`, ...)
  that gives, for a starting directory and a fault, what the operation
  returns, the directory afterwards and the calls it makes. The class
  `ActiveDirectory` performs the operations step by step and is proved to
  agree with those functions; the lemmas state what the functions promise.
 */
module Adapter {
  import opened Wrappers
  import opened Utf16
  import opened Directory

  /** Configuration read from the environment at start-up. */
  datatype Config = Config(baseDn: string, domainName: string)

  /**
    The keys of a SCIM JSON object that the adapter consults. `None` is a
    missing key; `active` is `Some(false)` only for the JSON literal `false`.
   */
  datatype Payload = Payload(
    userName: Option<string>,
    givenName: Option<string>,
    familyName: Option<string>,
    displayName: Option<string>,
    password: Option<string>,
    active: Option<bool>)

  const EmptyPayload := Payload(None, None, None, None, None, None)

  /** Python truthiness of an optional string: present and not empty. */
  predicate Truthy(v: Option<string>) {
    v.Some? && v.value != ""
  }

  /** The five fields a create needs, all present. */
  datatype NewUser = NewUser(userName: string, givenName: string, familyName: string, displayName: string, password: string)

  function Validate(p: Payload): (r: Option<NewUser>)
    ensures r.Some? <==>
      Truthy(p.userName) && Truthy(p.givenName) && Truthy(p.familyName) && Truthy(p.displayName) && Truthy(p.password)
    ensures r.Some? ==>
      r.value.userName == p.userName.value && r.value.givenName == p.givenName.value &&
      r.value.familyName == p.familyName.value && r.value.displayName == p.displayName.value &&
      r.value.password == p.password.value
  {
    if Truthy(p.userName) && Truthy(p.givenName) && Truthy(p.familyName) && Truthy(p.displayName) && Truthy(p.password)
    then Some(NewUser(p.userName.value, p.givenName.value, p.familyName.value, p.displayName.value, p.password.value))
    else None
  }

  const MissingAttributes := "Missing required user attributes in SCIM data."
  const UserNotFound := "User not found"
  const UserSchema := "urn:ietf:params:scim:schemas:core:2.0:User"
  const UserObjectClasses := ["top", "person", "organizationalPerson", "user"]

  function NotFoundForUpdate(id: string): string {
    "User " + id + " not found for update."
  }

  // userAccountControl flags
  const AccountDisable := 2
  const NormalAccount := 512
  const DisabledAccount := 514
  /** The value the adapter adds a new entry with: NORMAL_ACCOUNT | PASSWD_NOTREQD, not disabled. */
  const TransientControlAsWritten := 544
  /** NORMAL_ACCOUNT | PASSWD_NOTREQD | ACCOUNTDISABLE: the disabled state the creation protocol intends. */
  const TransientControl := 546

  /** Bit 0x2 of `flags` in Python's two's-complement `&` (Dafny's `/` floors for a positive divisor). */
  predicate IsDisabled(flags: int) {
    (flags / AccountDisable) % 2 == 1
  }

  function UserDn(cfg: Config, displayName: string): Dn {
    "CN=" + displayName + "," + cfg.baseDn
  }

  function PrincipalName(cfg: Config, userName: string): string {
    userName + "@" + cfg.domainName
  }

  /** The attributes of `addModlist(attrs)`, with the account control given. */
  function NewEntry(cfg: Config, u: NewUser, control: int): Entry {
    Entry(UserObjectClasses, Some(u.displayName), Some(u.userName), Some(u.givenName), Some(u.familyName),
          Some(PrincipalName(cfg, u.userName)), Some(control), None)
  }

  /** `f'"{password}"'.encode('utf-16-le')`, the value written to unicodePwd by create and update. */
  function EncodePassword(pw: string): seq<byte> {
    Encode("\"" + pw + "\"")
  }

  /** The directory decodes the quoted password back, and the bytes start and end with the quote `22 00`. */
  lemma PasswordEncoding(pw: string)
    ensures var r := EncodePassword(pw);
            && Decode(r) == Some("\"" + pw + "\"")
            && 4 <= |r| && r[..2] == [0x22, 0x00] && r[|r| - 2..] == [0x22, 0x00]
  {
    var quoted := "\"" + pw + "\"";
    EncodeConcat("\"" + pw, "\"");
    EncodeConcat("\"", pw);
    DecodeEncode(quoted);
  }

  /** The entry a fully successful create leaves behind. */
  function CreatedEntry(cfg: Config, u: NewUser): Entry {
    NewEntry(cfg, u, NormalAccount).(unicodePwd := Some(EncodePassword(u.password)))
  }

  /** The three writes of a create, in order: add, set the password, enable. */
  function CreateWrites(cfg: Config, u: NewUser, control: int): seq<Write> {
    var dn := UserDn(cfg, u.displayName);
    [Add(dn, NewEntry(cfg, u, control)),
     Modify(dn, ReplacePassword(EncodePassword(u.password))),
     Modify(dn, ReplaceControl(NormalAccount))]
  }

  /** The writes of an update: deactivate when `active` is `false`, then replace the password when one is given. */
  function UpdateWrites(dn: Dn, p: Payload): seq<Write> {
    (if p.active == Some(false) then [Modify(dn, ReplaceControl(DisabledAccount))] else []) +
    (if p.password.Some? then [Modify(dn, ReplacePassword(EncodePassword(p.password.value)))] else [])
  }

  datatype Exception = ValueError(message: string) | LdapException(error: LdapError)

  /** How a write operation ends: it returns, or raises. */
  datatype Status = Returned | Raised(exception: Exception)

  datatype Outcome = Outcome(status: Status, entries: Entries, calls: seq<Call>)

  function StatusOf(err: Option<LdapError>): Status {
    if err.Some? then Raised(LdapException(err.value)) else Returned
  }

  /** The SCIM user resource that read returns; it has no password field. */
  datatype ScimUser = ScimUser(schemas: seq<string>, id: string, userName: string, active: bool, givenName: string, familyName: string)

  /** userAccountControl, 0 when the attribute is absent. */
  function ControlOf(e: Entry): int {
    if e.userAccountControl.Some? then e.userAccountControl.value else 0
  }

  /** `.get(key, '')`: the text, or the empty string when the key is absent. */
  function TextOr(v: Option<string>): string {
    if v.Some? then v.value else ""
  }

  function ToScimUser(e: Entry): (u: ScimUser)
    requires e.sAMAccountName.Some?
    ensures u.schemas == [UserSchema]
    ensures u.id == u.userName == e.sAMAccountName.value
    ensures u.active <==> e.userAccountControl.None? || !IsDisabled(e.userAccountControl.value)
    ensures (e.givenName.Some? ==> u.givenName == e.givenName.value) && (e.givenName.None? ==> u.givenName == "")
    ensures (e.sn.Some? ==> u.familyName == e.sn.value) && (e.sn.None? ==> u.familyName == "")
  {
    var name := e.sAMAccountName.value;
    ScimUser([UserSchema], name, name, !IsDisabled(ControlOf(e)), TextOr(e.givenName), TextOr(e.sn))
  }

  datatype UserOrMessage = User(user: ScimUser) | Message(text: string)

  /** The `(success, result)` pair read returns, or the LDAPError that escapes it. */
  datatype ReadResult = Reply(success: bool, result: UserOrMessage) | ReadRaised(error: LdapError)

  datatype ReadRun = ReadRun(result: ReadResult, calls: seq<Call>)

  datatype CheckRun = CheckRun(ok: bool, detail: string, calls: seq<Call>)

  /** No fault among the first `n` calls. */
  predicate NoFaultBefore(f: Option<Fault>, n: nat) {
    f.None? || n <= f.value.call
  }

  /** A create of `u` that the directory can accept: neither its DN nor its account name is in use. */
  predicate Fresh(cfg: Config, d: Entries, u: NewUser) {
    UserDn(cfg, u.displayName) !in d && !AccountTaken(d, u.userName)
  }

  // ---------------------------------------------------------------------
  // What each operation does

  /** `check_ad_connection`. */
  function CheckSpec(f: Option<Fault>): CheckRun {
    match Injected(f, 0)
    case Some(e) => CheckRun(false, e.description, [])
    case None => CheckRun(true, "Success", [Bind, Unbind])
  }

  /** `create_user_in_ad`, adding the entry with account control `control`. */
  function CreateSpec(cfg: Config, d: Entries, p: Payload, f: Option<Fault>, control: int): Outcome {
    match Validate(p)
    case None => Outcome(Raised(ValueError(MissingAttributes)), d, [])
    case Some(u) =>
      match Injected(f, 0)
      case Some(e) => Outcome(Raised(LdapException(e)), d, [])
      case None =>
        var ws := CreateWrites(cfg, u, control);
        var r := RunWrites(d, ws, f, 1);
        Outcome(StatusOf(r.error), r.entries, [Bind] + IssueCalls(ws[..Issued(r)]) + [Unbind])
  }

  /** `read_user_from_ad`. */
  function ReadSpec(d: Entries, id: string, f: Option<Fault>): ReadRun
    requires UniqueAccounts(d)
  {
    match Injected(f, 0)
    case Some(e) => ReadRun(ReadRaised(e), [])
    case None =>
      match Injected(f, 1)
      case Some(e) => ReadRun(Reply(false, Message(e.description)), [Bind, Search(id), Unbind])
      case None =>
        match FindUserDn(d, id)
        case None => ReadRun(Reply(false, Message(UserNotFound)), [Bind, Search(id), Unbind])
        case Some(dn) =>
          match Injected(f, 2)
          case Some(e) => ReadRun(Reply(false, Message(e.description)), [Bind, Search(id), ReadEntry(dn), Unbind])
          case None => ReadRun(Reply(true, User(ToScimUser(d[dn]))), [Bind, Search(id), ReadEntry(dn), Unbind])
  }

  /** `update_user_in_ad`. */
  function UpdateSpec(d: Entries, id: string, p: Payload, f: Option<Fault>): Outcome
    requires UniqueAccounts(d)
  {
    match Injected(f, 0)
    case Some(e) => Outcome(Raised(LdapException(e)), d, [])
    case None =>
      match Injected(f, 1)
      case Some(e) => Outcome(Raised(LdapException(e)), d, [Bind, Search(id), Unbind])
      case None =>
        match FindUserDn(d, id)
        case None => Outcome(Raised(ValueError(NotFoundForUpdate(id))), d, [Bind, Search(id), Unbind])
        case Some(dn) =>
          var ws := UpdateWrites(dn, p);
          var r := RunWrites(d, ws, f, 2);
          Outcome(StatusOf(r.error), r.entries, [Bind, Search(id)] + IssueCalls(ws[..Issued(r)]) + [Unbind])
  }

  /** `delete_user_in_ad`. */
  function DeleteSpec(d: Entries, id: string, f: Option<Fault>): Outcome
    requires UniqueAccounts(d)
  {
    match Injected(f, 0)
    case Some(e) => Outcome(Raised(LdapException(e)), d, [])
    case None =>
      match Injected(f, 1)
      case Some(e) => Outcome(Raised(LdapException(e)), d, [Bind, Search(id), Unbind])
      case None =>
        match FindUserDn(d, id)
        case None => Outcome(Returned, d, [Bind, Search(id), Unbind])
        case Some(dn) =>
          var ws := [Remove(dn)];
          var r := RunWrites(d, ws, f, 2);
          Outcome(StatusOf(r.error), r.entries, [Bind, Search(id)] + IssueCalls(ws[..Issued(r)]) + [Unbind])
  }

  // ---------------------------------------------------------------------
  // Connections

  /** Every operation that opened a connection releases it, once, as its last call, on every path. */
  lemma CheckReleasesConnection(f: Option<Fault>)
    ensures Session(CheckSpec(f).calls)
  {
  }

  lemma CreateReleasesConnection(cfg: Config, d: Entries, p: Payload, f: Option<Fault>, control: int)
    ensures Session(CreateSpec(cfg, d, p, f, control).calls)
  {
  }

  lemma ReadReleasesConnection(d: Entries, id: string, f: Option<Fault>)
    requires UniqueAccounts(d)
    ensures Session(ReadSpec(d, id, f).calls)
  {
  }

  lemma UpdateReleasesConnection(d: Entries, id: string, p: Payload, f: Option<Fault>)
    requires UniqueAccounts(d)
    ensures Session(UpdateSpec(d, id, p, f).calls)
  {
  }

  lemma DeleteReleasesConnection(d: Entries, id: string, f: Option<Fault>)
    requires UniqueAccounts(d)
    ensures Session(DeleteSpec(d, id, f).calls)
  {
  }

  /** The connection check reports a failed bind as `(False, str(e))` and never raises. */
  lemma CheckReportsBind(f: Option<Fault>)
    ensures CheckSpec(f).ok <==> Injected(f, 0).None?
    ensures !CheckSpec(f).ok ==> CheckSpec(f).detail == f.value.error.description
    ensures CheckSpec(f).ok ==> CheckSpec(f).detail == "Success"
  {
  }

  // ---------------------------------------------------------------------
  // Create

  /** Missing or empty required fields raise ValueError before any connection is made. */
  lemma CreateRejectsIncomplete(cfg: Config, d: Entries, p: Payload, f: Option<Fault>, control: int)
    requires !Truthy(p.userName) || !Truthy(p.givenName) || !Truthy(p.familyName) || !Truthy(p.displayName) || !Truthy(p.password)
    ensures CreateSpec(cfg, d, p, f, control) == Outcome(Raised(ValueError(MissingAttributes)), d, [])
  {
  }

  lemma CreateReplaysFresh(cfg: Config, d: Entries, u: NewUser, control: int)
    requires Fresh(cfg, d, u)
    ensures var dn := UserDn(cfg, u.displayName);
            var ws := CreateWrites(cfg, u, control);
            var e0 := NewEntry(cfg, u, control);
            var e1 := e0.(unicodePwd := Some(EncodePassword(u.password)));
            && Replay(d, ws[..0]) == Some(d)
            && Replay(d, ws[..1]) == Some(d[dn := e0])
            && Replay(d, ws[..2]) == Some(d[dn := e1])
            && Replay(d, ws) == Some(d[dn := CreatedEntry(cfg, u)])
  {
    var dn := UserDn(cfg, u.displayName);
    var ws := CreateWrites(cfg, u, control);
    var w0, w1, w2 := ws[0], ws[1], ws[2];
    var e0 := NewEntry(cfg, u, control);
    var e1 := e0.(unicodePwd := Some(EncodePassword(u.password)));
    var d1, d2, d3 := d[dn := e0], d[dn := e1], d[dn := CreatedEntry(cfg, u)];
    assert Apply(d, w0) == Success(d1);
    assert Apply(d1, w1) == Success(d2) by { assert d1[dn := e1] == d2; }
    assert Apply(d2, w2) == Success(d3) by { assert d2[dn := CreatedEntry(cfg, u)] == d3; }
    assert Replay(d3, []) == Some(d3);
    assert Replay(d2, [w2]) == Some(d3) by { assert [w2][1..] == []; }
    assert Replay(d2, []) == Some(d2);
    assert Replay(d1, [w1]) == Some(d2) by { assert [w1][1..] == []; }
    assert Replay(d1, [w1, w2]) == Some(d3) by { assert [w1, w2][1..] == [w2]; }
    assert Replay(d1, []) == Some(d1);
    assert ws[..0] == [] && ws[..1] == [w0] && ws[..2] == [w0, w1] && ws == [w0, w1, w2];
    assert Replay(d, [w0]) == Some(d1) by { assert [w0][1..] == []; }
    assert Replay(d, [w0, w1]) == Some(d2) by { assert [w0, w1][1..] == [w1]; }
    assert Replay(d, [w0, w1, w2]) == Some(d3) by { assert [w0, w1, w2][1..] == [w1, w2]; }
  }

  /**
    A create whose fault comes after the bind: the writes are issued in order up
    to the failing one, the error propagates, and whatever was applied before it
    stays in the directory (no rollback).
   */
  lemma CreateStopsAtFault(cfg: Config, d: Entries, p: Payload, k: nat, e: LdapError, control: int)
    requires Validate(p).Some? && Fresh(cfg, d, Validate(p).value)
    requires 1 <= k <= 3
    ensures var u := Validate(p).value;
            var dn := UserDn(cfg, u.displayName);
            var ws := CreateWrites(cfg, u, control);
            var e0 := NewEntry(cfg, u, control);
            var o := CreateSpec(cfg, d, p, Some(Fault(k, e)), control);
            && o.status == Raised(LdapException(e))
            && o.calls == [Bind] + IssueCalls(ws[..k]) + [Unbind]
            && o.entries == (if k == 1 then d
                             else if k == 2 then d[dn := e0]
                             else d[dn := e0.(unicodePwd := Some(EncodePassword(u.password)))])
  {
    var u := Validate(p).value;
    var ws := CreateWrites(cfg, u, control);
    var f := Some(Fault(k, e));
    CreateReplaysFresh(cfg, d, u, control);
    var w0, w1, w2 := ws[0], ws[1], ws[2];
    assert ws == [w0, w1, w2];
    assert ws[1..] == [w1, w2] && [w1, w2][1..] == [w2] && [w2][1..] == [];
    var r := RunWrites(d, ws, f, 1);
    if k > 1 {
      var d1 := Apply(d, w0).value;
      assert Replay(d, [w0]) == Some(d1) by { assert [w0][1..] == []; }
      if k > 2 {
        var d2 := Apply(d1, w1).value;
        assert RunWrites(d2, [w2], f, 3) == Run(d2, 0, Some(e));
        assert RunWrites(d1, [w1, w2], f, 2) == Run(d2, 1, Some(e));
      } else {
        assert RunWrites(d1, [w1, w2], f, 2) == Run(d1, 0, Some(e));
      }
    }
    assert r.applied == k - 1 && r.error == Some(e);
    assert Replay(d, ws[..k - 1]) == Some(r.entries);
  }

  /**
    A create of a fresh account with no fault adds the final entry, and reading
    it back gives the SCIM user, whatever account control the add used: the
    last write always sets 512.
   */
  lemma CreateThenRead(cfg: Config, d: Entries, p: Payload, f: Option<Fault>, control: int)
    requires UniqueAccounts(d)
    requires Validate(p).Some? && Fresh(cfg, d, Validate(p).value)
    requires NoFaultBefore(f, 4)
    ensures var u := Validate(p).value;
            var o := CreateSpec(cfg, d, p, f, control);
            && o.status == Returned
            && o.entries == d[UserDn(cfg, u.displayName) := CreatedEntry(cfg, u)]
            && o.calls == [Bind] + IssueCalls(CreateWrites(cfg, u, control)) + [Unbind]
            && UniqueAccounts(o.entries)
            && ReadSpec(o.entries, u.userName, None).result ==
               Reply(true, User(ScimUser([UserSchema], u.userName, u.userName, true, u.givenName, u.familyName)))
  {
    var u := Validate(p).value;
    var dn := UserDn(cfg, u.displayName);
    var ws := CreateWrites(cfg, u, control);
    CreateReplaysFresh(cfg, d, u, control);
    RunWritesClean(d, ws, f, 1);
    assert ws[..3] == ws;
    var d' := d[dn := CreatedEntry(cfg, u)];
    assert HasAccount(d', dn, u.userName);
  }

  /** The read of an account whose create failed after the add, for a given account control. */
  lemma PartialCreateRead(cfg: Config, d: Entries, p: Payload, k: nat, e: LdapError, control: int)
    requires UniqueAccounts(d)
    requires Validate(p).Some? && Fresh(cfg, d, Validate(p).value)
    requires k == 2 || k == 3
    ensures var u := Validate(p).value;
            var o := CreateSpec(cfg, d, p, Some(Fault(k, e)), control);
            && o.status == Raised(LdapException(e))
            && UniqueAccounts(o.entries)
            && ReadSpec(o.entries, u.userName, None).result ==
               Reply(true, User(ScimUser([UserSchema], u.userName, u.userName, !IsDisabled(control), u.givenName, u.familyName)))
  {
    var u := Validate(p).value;
    var dn := UserDn(cfg, u.displayName);
    CreateStopsAtFault(cfg, d, p, k, e, control);
    var o := CreateSpec(cfg, d, p, Some(Fault(k, e)), control);
    assert HasAccount(o.entries, dn, u.userName);
  }

  /**
    As written, a create that fails after the add leaves an account that read
    reports as active: 544 does not carry the disabled bit.
   */
  lemma PartialCreateAsWrittenReadsActive(cfg: Config, d: Entries, p: Payload, k: nat, e: LdapError)
    requires UniqueAccounts(d)
    requires Validate(p).Some? && Fresh(cfg, d, Validate(p).value)
    requires k == 2 || k == 3
    ensures var u := Validate(p).value;
            var o := CreateSpec(cfg, d, p, Some(Fault(k, e)), TransientControlAsWritten);
            && o.status.Raised?
            && UniqueAccounts(o.entries)
            && ReadSpec(o.entries, u.userName, None).result ==
               Reply(true, User(ScimUser([UserSchema], u.userName, u.userName, true, u.givenName, u.familyName)))
  {
    PartialCreateRead(cfg, d, p, k, e, TransientControlAsWritten);
  }

  /** With the disabled transient value, an account whose create failed after the add reads as inactive. */
  lemma PartialCreateReadsInactive(cfg: Config, d: Entries, p: Payload, k: nat, e: LdapError)
    requires UniqueAccounts(d)
    requires Validate(p).Some? && Fresh(cfg, d, Validate(p).value)
    requires k == 2 || k == 3
    ensures var u := Validate(p).value;
            var o := CreateSpec(cfg, d, p, Some(Fault(k, e)), TransientControl);
            && o.status.Raised?
            && UniqueAccounts(o.entries)
            && ReadSpec(o.entries, u.userName, None).result ==
               Reply(true, User(ScimUser([UserSchema], u.userName, u.userName, false, u.givenName, u.familyName)))
  {
    PartialCreateRead(cfg, d, p, k, e, TransientControl);
  }

  /**
    Create for every input and fault: it leaves the directory as it was, or
    the account was fresh and exactly one entry, at its DN, was added; a
    normal return means the whole create went through.
   */
  lemma CreateOutcome(cfg: Config, d: Entries, p: Payload, f: Option<Fault>, control: int)
    ensures var o := CreateSpec(cfg, d, p, f, control);
            || o.entries == d
            || (&& Validate(p).Some? && Fresh(cfg, d, Validate(p).value)
                && o.entries.Keys == d.Keys + {UserDn(cfg, Validate(p).value.displayName)}
                && forall x :: x in d ==> o.entries[x] == d[x])
    ensures var o := CreateSpec(cfg, d, p, f, control);
            o.status == Returned ==>
              && Validate(p).Some? && Fresh(cfg, d, Validate(p).value)
              && o.entries == d[UserDn(cfg, Validate(p).value.displayName) := CreatedEntry(cfg, Validate(p).value)]
  {
    if Validate(p).Some? && Injected(f, 0).None? {
      var u := Validate(p).value;
      var ws := CreateWrites(cfg, u, control);
      var r := RunWrites(d, ws, f, 1);
      if r.applied > 0 {
        assert ws[..r.applied][0] == ws[0];
        assert Apply(d, ws[0]).Success?;
        CreateReplaysFresh(cfg, d, u, control);
        if r.applied == 3 {
          assert ws[..3] == ws;
        }
      }
    }
  }

  /** When the DN or the account name is already in use, the add is refused and nothing changes. */
  lemma CreateOfTakenAccountIsRefused(cfg: Config, d: Entries, p: Payload, f: Option<Fault>, control: int)
    requires Validate(p).Some? && !Fresh(cfg, d, Validate(p).value)
    requires NoFaultBefore(f, 2)
    ensures var ws := CreateWrites(cfg, Validate(p).value, control);
            CreateSpec(cfg, d, p, f, control) == Outcome(Raised(LdapException(EntryAlreadyExists)), d, [Bind, Issue(ws[0]), Unbind])
  {
  }

  /** For characters of the Basic Multilingual Plane the encoded password is two bytes per character, quotes included. */
  lemma PasswordLength(pw: string)
    requires AllBmp(pw)
    ensures |EncodePassword(pw)| == 2 * (|pw| + 2)
  {
    var quoted := "\"" + pw + "\"";
    forall i | 0 <= i < |quoted| ensures IsBmp(quoted[i]) {
      if 0 < i < |quoted| - 1 { assert quoted[i] == pw[i - 1]; }
    }
    BmpLength(quoted);
  }

  // ---------------------------------------------------------------------
  // Update

  /** `b` differs from `a` at most in userAccountControl and unicodePwd. */
  predicate KeepsIdentity(a: Entry, b: Entry) {
    b == a.(userAccountControl := b.userAccountControl, unicodePwd := b.unicodePwd)
  }

  /** `b` is `a` with, at most, the changes `p` asks for. */
  predicate PatchedBy(a: Entry, b: Entry, p: Payload) {
    && KeepsIdentity(a, b)
    && (b.userAccountControl == a.userAccountControl ||
        (p.active == Some(false) && b.userAccountControl == Some(DisabledAccount)))
    && (b.unicodePwd == a.unicodePwd ||
        (p.password.Some? && b.unicodePwd == Some(EncodePassword(p.password.value))))
  }

  predicate PatchWrite(dn: Dn, p: Payload, w: Write) {
    w.Modify? && w.dn == dn &&
    ((p.active == Some(false) && w.change == ReplaceControl(DisabledAccount)) ||
     (p.password.Some? && w.change == ReplacePassword(EncodePassword(p.password.value))))
  }

  /** `e` with every change of `p` applied. */
  function Patched(e: Entry, p: Payload): Entry {
    var e1 := if p.active == Some(false) then e.(userAccountControl := Some(DisabledAccount)) else e;
    if p.password.Some? then e1.(unicodePwd := Some(EncodePassword(p.password.value))) else e1
  }

  lemma {:induction false} ReplayPatch(d: Entries, dn: Dn, ws: seq<Write>, p: Payload, d': Entries)
    requires forall i :: 0 <= i < |ws| ==> PatchWrite(dn, p, ws[i])
    requires Replay(d, ws) == Some(d')
    ensures d'.Keys == d.Keys
    ensures forall x :: x in d && x != dn ==> d'[x] == d[x]
    ensures dn in d ==> PatchedBy(d[dn], d'[dn], p)
    decreases |ws|
  {
    if ws != [] {
      assert PatchWrite(dn, p, ws[0]);
      var d1 := Apply(d, ws[0]).value;
      assert forall i :: 0 <= i < |ws[1..]| ==> PatchWrite(dn, p, ws[1..][i]) by {
        forall i | 0 <= i < |ws[1..]| ensures PatchWrite(dn, p, ws[1..][i]) { assert ws[1..][i] == ws[i + 1]; }
      }
      ReplayPatch(d1, dn, ws[1..], p, d');
    }
  }

  lemma UpdateWritesArePatches(dn: Dn, p: Payload, n: nat)
    requires n <= |UpdateWrites(dn, p)|
    ensures forall i :: 0 <= i < |UpdateWrites(dn, p)[..n]| ==> PatchWrite(dn, p, UpdateWrites(dn, p)[..n][i])
  {
  }

  /**
    Update acts only on the DN its search resolved: no entry appears or
    disappears, no other entry changes, and on that entry only
    userAccountControl (to 514, when `active` is `false`) and unicodePwd (to the
    encoded password, when one is given) may change.
   */
  lemma UpdateChangesOnlyResolvedEntry(d: Entries, id: string, p: Payload, f: Option<Fault>)
    requires UniqueAccounts(d)
    ensures var o := UpdateSpec(d, id, p, f);
            && o.entries.Keys == d.Keys
            && (forall dn :: dn in d && !HasAccount(d, dn, id) ==> o.entries[dn] == d[dn])
            && (forall dn :: HasAccount(d, dn, id) ==> PatchedBy(d[dn], o.entries[dn], p))
  {
    if Injected(f, 0).None? && Injected(f, 1).None? && FindUserDn(d, id).Some? {
      var dn := FindUserDn(d, id).value;
      var ws := UpdateWrites(dn, p);
      var r := RunWrites(d, ws, f, 2);
      UpdateWritesArePatches(dn, p, r.applied);
      ReplayPatch(d, dn, ws[..r.applied], p, r.entries);
    }
  }

  /** Update can disable an account but never enables one. */
  lemma UpdateNeverEnables(d: Entries, id: string, p: Payload, f: Option<Fault>)
    requires UniqueAccounts(d)
    ensures var o := UpdateSpec(d, id, p, f);
            forall dn :: dn in d && IsDisabled(ControlOf(d[dn])) ==> dn in o.entries && IsDisabled(ControlOf(o.entries[dn]))
  {
    UpdateChangesOnlyResolvedEntry(d, id, p, f);
  }

  /**
    With no fault, update of a found account deactivates it first when asked,
    then replaces the password when one is given.
   */
  lemma UpdateAppliesPatch(d: Entries, id: string, p: Payload, f: Option<Fault>)
    requires UniqueAccounts(d) && AccountTaken(d, id)
    requires NoFaultBefore(f, 4)
    ensures var dn := FindUserDn(d, id).value;
            var o := UpdateSpec(d, id, p, f);
            && o.status == Returned
            && o.entries == d[dn := Patched(d[dn], p)]
            && o.calls == [Bind, Search(id)] + IssueCalls(UpdateWrites(dn, p)) + [Unbind]
  {
    var dn := FindUserDn(d, id).value;
    var ws := UpdateWrites(dn, p);
    var e := d[dn];
    var e1 := if p.active == Some(false) then e.(userAccountControl := Some(DisabledAccount)) else e;
    var d1 := d[dn := e1];
    var d2 := d[dn := Patched(e, p)];
    assert Replay(d, ws) == Some(d2) by {
      if p.password.Some? {
        var w := Modify(dn, ReplacePassword(EncodePassword(p.password.value)));
        assert Replay(d1, [w]) == Some(d2) by { assert [w][1..] == []; assert d1[dn := Patched(e, p)] == d2; }
        if p.active == Some(false) {
          var w0 := Modify(dn, ReplaceControl(DisabledAccount));
          assert ws == [w0, w] && [w0, w][1..] == [w];
        } else {
          assert ws == [w];
        }
      } else if p.active == Some(false) {
        var w0 := Modify(dn, ReplaceControl(DisabledAccount));
        assert ws == [w0] && [w0][1..] == [];
      } else {
        assert ws == [] && d2 == d;
      }
    }
    RunWritesClean(d, ws, f, 2);
    assert ws[..|ws|] == ws;
  }

  /** Update of an account that the search does not find raises ValueError and changes nothing. */
  lemma UpdateOfMissingRaises(d: Entries, id: string, p: Payload, f: Option<Fault>)
    requires UniqueAccounts(d) && !AccountTaken(d, id)
    requires NoFaultBefore(f, 2)
    ensures UpdateSpec(d, id, p, f) == Outcome(Raised(ValueError(NotFoundForUpdate(id))), d, [Bind, Search(id), Unbind])
  {
  }

  // ---------------------------------------------------------------------
  // Delete

  /** Delete removes only the DN its search resolved, or nothing. */
  lemma DeleteRemovesOnlyResolvedEntry(d: Entries, id: string, f: Option<Fault>)
    requires UniqueAccounts(d)
    ensures var o := DeleteSpec(d, id, f);
            && UniqueAccounts(o.entries)
            && (o.entries == d || (AccountTaken(d, id) && o.entries == d - {FindUserDn(d, id).value}))
            && (o.status == Returned ==> !AccountTaken(o.entries, id))
  {
  }

  /** Deleting an account that the search does not find is a normal return that changes nothing. */
  lemma DeleteOfMissingIsNoOp(d: Entries, id: string, f: Option<Fault>)
    requires UniqueAccounts(d) && !AccountTaken(d, id)
    requires NoFaultBefore(f, 2)
    ensures DeleteSpec(d, id, f) == Outcome(Returned, d, [Bind, Search(id), Unbind])
  {
  }

  /** Deleting the same account twice succeeds both times; the second changes nothing. */
  lemma DeleteIsIdempotent(d: Entries, id: string)
    requires UniqueAccounts(d)
    ensures var o1 := DeleteSpec(d, id, None);
            && o1.status == Returned
            && UniqueAccounts(o1.entries)
            && DeleteSpec(o1.entries, id, None) == Outcome(Returned, o1.entries, [Bind, Search(id), Unbind])
  {
  }

  // ---------------------------------------------------------------------
  // Read

  /**
    Read raises only when the bind fails; it reports success exactly when the
    account exists and none of its three calls fails, and then returns that
    account's entry as a SCIM user whose id is the account name asked for.
   */
  lemma ReadReportsAccount(d: Entries, id: string, f: Option<Fault>)
    requires UniqueAccounts(d)
    ensures var r := ReadSpec(d, id, f).result;
            && (r.ReadRaised? <==> Injected(f, 0).Some?)
            && (r.Reply? && r.success <==> AccountTaken(d, id) && NoFaultBefore(f, 3))
            && (r.Reply? && r.success ==>
                  r.result.User? && r.result.user.id == id && r.result.user.userName == id &&
                  exists dn :: HasAccount(d, dn, id) && r.result.user == ToScimUser(d[dn]))
            && (r.Reply? && !r.success ==> r.result.Message?)
            && (!AccountTaken(d, id) && NoFaultBefore(f, 2) ==> r == Reply(false, Message(UserNotFound)))
  {
  }

  /** Past a successful bind, create is its writes sent from call 1 after trace `c`, then the unbind. */
  lemma CreateSpecSent(cfg: Config, d: Entries, p: Payload, u: NewUser, f: Option<Fault>, control: int,
                       c: seq<Call>, err: Option<LdapError>, d': Entries, c': seq<Call>)
    requires Validate(p) == Some(u) && Injected(f, 0).None?
    requires Sent(d, c + [Bind], CreateWrites(cfg, u, control), f, 1, err, d', c')
    ensures var o := CreateSpec(cfg, d, p, f, control);
            o.status == StatusOf(err) && o.entries == d' && c' + [Unbind] == c + o.calls
  {
    var ws := CreateWrites(cfg, u, control);
    var issued := IssueCalls(ws[..Issued(RunWrites(d, ws, f, 1))]);
    assert c + [Bind] + issued + [Unbind] == c + ([Bind] + issued + [Unbind]);
  }

  /** Past a successful bind and search, update is its writes sent from call 2 after trace `c`, then the unbind. */
  lemma UpdateSpecSent(d: Entries, id: string, p: Payload, dn: Dn, f: Option<Fault>,
                       c: seq<Call>, err: Option<LdapError>, d': Entries, c': seq<Call>)
    requires UniqueAccounts(d) && FindUserDn(d, id) == Some(dn)
    requires Injected(f, 0).None? && Injected(f, 1).None?
    requires Sent(d, c + [Bind, Search(id)], UpdateWrites(dn, p), f, 2, err, d', c')
    ensures var o := UpdateSpec(d, id, p, f);
            o.status == StatusOf(err) && o.entries == d' && c' + [Unbind] == c + o.calls
  {
    var ws := UpdateWrites(dn, p);
    var issued := IssueCalls(ws[..Issued(RunWrites(d, ws, f, 2))]);
    assert c + [Bind, Search(id)] + issued + [Unbind] == c + ([Bind, Search(id)] + issued + [Unbind]);
  }

  // ---------------------------------------------------------------------
  // The adapter as the connector's code runs it: one connection per operation

  /**
    The directory the adapter talks to, the state of the adapter's connection,
    and the calls made so far. The python-ldap calls are the methods Connect,
    FindAccount, FetchEntry, Send and Release; each takes the error the
    directory answers that call with, if any.
   */
  class ActiveDirectory {
    const cfg: Config
    /** The account control a new entry is added with before it is enabled. */
    const transientControl: int
    var entries: Entries
    var connection: Connection
    var calls: seq<Call>

    /** Between operations no connection is held. */
    ghost predicate Valid()
      reads this
    {
      connection == Released && UniqueAccounts(entries)
    }

    constructor (cfg: Config, transientControl: int, entries: Entries)
      requires UniqueAccounts(entries)
      ensures Valid() && this.cfg == cfg && this.transientControl == transientControl
      ensures this.entries == entries && calls == []
    {
      this.cfg := cfg;
      this.transientControl := transientControl;
      this.entries := entries;
      connection := Released;
      calls := [];
    }

    /** `get_ldap_connection`: initialise and bind. */
    method Connect(injected: Option<LdapError>) returns (err: Option<LdapError>)
      requires connection == Released
      modifies this
      ensures err == injected && entries == old(entries)
      ensures connection == (if err.None? then Bound else Released)
      ensures calls == old(calls) + (if err.None? then [Bind] else [])
    {
      err := injected;
      if err.None? {
        connection := Bound;
        calls := calls + [Bind];
      }
    }

    /** The subtree search on sAMAccountName of `_find_user_dn`. */
    method FindAccount(name: string, injected: Option<LdapError>) returns (r: Result<Option<Dn>, LdapError>)
      requires connection == Bound && UniqueAccounts(entries)
      modifies this
      ensures connection == Bound && entries == old(entries)
      ensures calls == old(calls) + [Search(name)]
      ensures r == if injected.Some? then Failure(injected.value) else Success(FindUserDn(entries, name))
    {
      calls := calls + [Search(name)];
      if injected.Some? {
        r := Failure(injected.value);
      } else {
        r := Success(FindUserDn(entries, name));
      }
    }

    /** `search_s(dn, SCOPE_BASE)`. */
    method FetchEntry(dn: Dn, injected: Option<LdapError>) returns (r: Result<Entry, LdapError>)
      requires connection == Bound
      modifies this
      ensures connection == Bound && entries == old(entries)
      ensures calls == old(calls) + [ReadEntry(dn)]
      ensures r == if injected.Some? then Failure(injected.value)
                   else if dn in entries then Success(entries[dn]) else Failure(NoSuchObject)
    {
      calls := calls + [ReadEntry(dn)];
      if injected.Some? {
        r := Failure(injected.value);
      } else if dn in entries {
        r := Success(entries[dn]);
      } else {
        r := Failure(NoSuchObject);
      }
    }

    /** `add_s`, `modify_s` or `delete_s`. */
    method Send(w: Write, injected: Option<LdapError>) returns (err: Option<LdapError>)
      requires connection == Bound
      modifies this
      ensures connection == Bound
      ensures calls == old(calls) + [Issue(w)]
      ensures injected.Some? ==> err == injected && entries == old(entries)
      ensures injected.None? && Apply(old(entries), w).Success? ==> err.None? && entries == Apply(old(entries), w).value
      ensures injected.None? && Apply(old(entries), w).Failure? ==> err == Some(Apply(old(entries), w).error) && entries == old(entries)
    {
      calls := calls + [Issue(w)];
      if injected.Some? {
        err := injected;
      } else {
        match Apply(entries, w)
        case Success(d) =>
          entries := d;
          err := None;
        case Failure(e) =>
          err := Some(e);
      }
    }

    /** `unbind_s`. */
    method Release()
      requires connection == Bound
      modifies this
      ensures connection == Released && entries == old(entries)
      ensures calls == old(calls) + [Unbind]
    {
      connection := Released;
      calls := calls + [Unbind];
    }

    /** `check_ad_connection`. */
    method CheckConnection(f: Option<Fault>) returns (ok: bool, detail: string)
      requires Valid()
      modifies this
      ensures Valid() && entries == old(entries)
      ensures var c := CheckSpec(f); ok == c.ok && detail == c.detail && calls == old(calls) + c.calls
    {
      var err := Connect(Injected(f, 0));
      if err.Some? {
        return false, err.value.description;
      }
      Release();
      return true, "Success";
    }

    /** The three writes of `create_user_in_ad`, each sent only when the previous one succeeded. */
    method SendCreateWrites(u: NewUser, f: Option<Fault>) returns (err: Option<LdapError>)
      requires connection == Bound
      modifies this
      ensures connection == Bound
      ensures Sent(old(entries), old(calls), CreateWrites(cfg, u, transientControl), f, 1, err, entries, calls)
    {
      var dn := UserDn(cfg, u.displayName);
      var attrs := NewEntry(cfg, u, transientControl);
      ghost var ws := CreateWrites(cfg, u, transientControl);
      ghost var d0, c0 := entries, calls;
      err := Send(Add(dn, attrs), Injected(f, 1));
      if err.Some? {
        SentStops(d0, c0, ws, f, 1, err.value);
        return;
      }
      ghost var d1, c1 := entries, calls;
      var encoded := EncodePassword(u.password);
      err := Send(Modify(dn, ReplacePassword(encoded)), Injected(f, 2));
      if err.Some? {
        SentStops(d1, c1, ws[1..], f, 2, err.value);
        SentOn(d0, c0, ws, f, 1, d1, err, entries, calls);
        return;
      }
      ghost var d2, c2 := entries, calls;
      err := Send(Modify(dn, ReplaceControl(NormalAccount)), Injected(f, 3));
      if err.Some? {
        SentStops(d2, c2, ws[2..], f, 3, err.value);
      } else {
        SentNothing(entries, calls, f, 4);
        assert ws[2..][1..] == [];
        SentOn(d2, c2, ws[2..], f, 3, entries, err, entries, calls);
      }
      assert ws[1..][1..] == ws[2..];
      SentOn(d1, c1, ws[1..], f, 2, d2, err, entries, calls);
      SentOn(d0, c0, ws, f, 1, d1, err, entries, calls);
    }

    /** `create_user_in_ad`, adding the entry with `transientControl`. */
    method CreateUser(p: Payload, f: Option<Fault>) returns (status: Status)
      requires Valid()
      modifies this
      ensures Valid()
      ensures var o := CreateSpec(cfg, old(entries), p, f, transientControl);
              status == o.status && entries == o.entries && calls == old(calls) + o.calls
    {
      var user := Validate(p);
      if user.None? {
        return Raised(ValueError(MissingAttributes));
      }
      var err := Connect(Injected(f, 0));
      if err.Some? {
        return Raised(LdapException(err.value));
      }
      err := SendCreateWrites(user.value, f);
      CreateSpecSent(cfg, old(entries), p, user.value, f, transientControl, old(calls), err, entries, calls);
      Release();
      status := StatusOf(err);
    }

    /** `read_user_from_ad`. */
    method ReadUser(id: string, f: Option<Fault>) returns (result: ReadResult)
      requires Valid()
      modifies this
      ensures Valid() && entries == old(entries)
      ensures var r := ReadSpec(old(entries), id, f); result == r.result && calls == old(calls) + r.calls
    {
      var err := Connect(Injected(f, 0));
      if err.Some? {
        return ReadRaised(err.value);
      }
      var found := FindAccount(id, Injected(f, 1));
      if found.Failure? {
        Release();
        return Reply(false, Message(found.error.description));
      }
      if found.value.None? {
        Release();
        return Reply(false, Message(UserNotFound));
      }
      var dn := found.value.value;
      var fetched := FetchEntry(dn, Injected(f, 2));
      if fetched.Failure? {
        Release();
        return Reply(false, Message(fetched.error.description));
      }
      Release();
      result := Reply(true, User(ToScimUser(fetched.value)));
    }

    /** The writes of `update_user_in_ad` on the resolved DN: deactivation, then the password. */
    method SendUpdateWrites(dn: Dn, p: Payload, f: Option<Fault>) returns (err: Option<LdapError>)
      requires connection == Bound
      modifies this
      ensures connection == Bound
      ensures Sent(old(entries), old(calls), UpdateWrites(dn, p), f, 2, err, entries, calls)
    {
      ghost var ws := UpdateWrites(dn, p);
      ghost var d0, c0 := entries, calls;
      if p.active != Some(false) {
        if p.password.None? {
          assert ws == [];
          SentNothing(d0, c0, f, 2);
          return None;
        }
        var encoded := EncodePassword(p.password.value);
        var w := Modify(dn, ReplacePassword(encoded));
        assert ws == [w] && ws[1..] == [];
        err := Send(w, Injected(f, 2));
        if err.Some? {
          SentStops(d0, c0, ws, f, 2, err.value);
        } else {
          SentNothing(entries, calls, f, 3);
          SentOn(d0, c0, ws, f, 2, entries, err, entries, calls);
        }
        return;
      }
      var w0 := Modify(dn, ReplaceControl(DisabledAccount));
      err := Send(w0, Injected(f, 2));
      if err.Some? {
        SentStops(d0, c0, ws, f, 2, err.value);
        return;
      }
      ghost var d1, c1 := entries, calls;
      if p.password.None? {
        assert ws == [w0] && ws[1..] == [];
        SentNothing(d1, c1, f, 3);
        SentOn(d0, c0, ws, f, 2, d1, err, entries, calls);
        return;
      }
      var encoded := EncodePassword(p.password.value);
      var w1 := Modify(dn, ReplacePassword(encoded));
      assert ws == [w0, w1] && ws[1..] == [w1] && [w1][1..] == [];
      err := Send(w1, Injected(f, 3));
      if err.Some? {
        SentStops(d1, c1, [w1], f, 3, err.value);
      } else {
        SentNothing(entries, calls, f, 4);
        SentOn(d1, c1, [w1], f, 3, entries, err, entries, calls);
      }
      SentOn(d0, c0, ws, f, 2, d1, err, entries, calls);
    }

    /** `update_user_in_ad`. */
    method UpdateUser(id: string, p: Payload, f: Option<Fault>) returns (status: Status)
      requires Valid()
      modifies this
      ensures Valid()
      ensures var o := UpdateSpec(old(entries), id, p, f);
              status == o.status && entries == o.entries && calls == old(calls) + o.calls
    {
      var err := Connect(Injected(f, 0));
      if err.Some? {
        return Raised(LdapException(err.value));
      }
      var found := FindAccount(id, Injected(f, 1));
      if found.Failure? {
        Release();
        return Raised(LdapException(found.error));
      }
      if found.value.None? {
        Release();
        return Raised(ValueError(NotFoundForUpdate(id)));
      }
      var dn := found.value.value;
      err := SendUpdateWrites(dn, p, f);
      UpdateSpecSent(old(entries), id, p, dn, f, old(calls), err, entries, calls);
      Release();
      status := StatusOf(err);
    }

    /** `delete_user_in_ad`. */
    method DeleteUser(id: string, f: Option<Fault>) returns (status: Status)
      requires Valid()
      modifies this
      ensures Valid()
      ensures var o := DeleteSpec(old(entries), id, f);
              status == o.status && entries == o.entries && calls == old(calls) + o.calls
    {
      var err := Connect(Injected(f, 0));
      if err.Some? {
        return Raised(LdapException(err.value));
      }
      var found := FindAccount(id, Injected(f, 1));
      if found.Failure? {
        Release();
        return Raised(LdapException(found.error));
      }
      if found.value.None? {
        Release();
        return Returned;
      }
      var dn := found.value.value;
      err := Send(Remove(dn), Injected(f, 2));
      assert [Remove(dn)][1..] == [] && [Remove(dn)][..1] == [Remove(dn)];
      Release();
      status := StatusOf(err);
    }
  }
}
