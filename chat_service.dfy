/**
 * The chat service (`services/chatService.ts`): the access log, registered users, maintenance
 * flag, admin password and configuration, course access codes, the custom word filter, chat
 * messages and the blocked/added user lists, all kept in the browser's storage.
 *
 * Each operation is a function on the decoded stored value, proved against the property the
 * service promises, and a method that reads the store, applies the function and writes back.
 * Clocks (`Date.now()`, `new Date().toISOString()`), `navigator.userAgent` and
 * `Math.random()` are parameters.
 */
module ChatService {
  import opened Wrappers
  import opened Text
  import opened Records
  import opened Storage

  /** Words the profanity filter always masks. */
  const BadWords: seq<string> := [
    "idiota", "burro", "estupido", "estúpido", "imbecil", "trouxa",
    "palavrão", "merda", "bosta", "pqp", "caralho", "porra", "inferno", "demonio"]

  const MockUsers: seq<ChatUser> := [
    ChatUser("user_1", "Irmão João", "bg-blue-700", true, None, None),
    ChatUser("user_2", "Maria Madalena", "bg-pink-700", true, None, None),
    ChatUser("user_3", "Paulo Apóstolo", "bg-green-700", false, None, None),
    ChatUser("user_4", "Débora Juíza", "bg-purple-700", true, None, None),
    ChatUser("user_5", "Pedro Pescador", "bg-orange-700", true, None, None)]

  const MaxLogs := 50
  const MaxMessages := 20
  const FallbackMessages := 5
  const DefaultAdminPassword := "admin123"
  const DefaultAdminConfig := AdminConfig(false, true, false)

  function Min(a: int, b: int): int {
    if a < b then a else b
  }

  function Max(a: int, b: int): int {
    if a < b then b else a
  }

  predicate NoDuplicates<T(==)>(s: seq<T>) {
    forall i, j :: 0 <= i < j < |s| ==> s[i] != s[j]
  }

  // ---------------------------------------------------------------- access log

  /** The log after one access: the new entry first, then the older ones, at most 50 kept. */
  function PrependLog(logs: seq<AccessLog>, entry: AccessLog): (r: seq<AccessLog>)
    ensures |r| == Min(|logs| + 1, MaxLogs)
    ensures r[0] == entry && r[1..] == logs[..|r| - 1]
  {
    ([entry] + logs)[..Min(|logs| + 1, MaxLogs)]
  }

  /** The log after a series of accesses, oldest access first. */
  function LogAll(logs: seq<AccessLog>, entries: seq<AccessLog>): seq<AccessLog>
    decreases entries
  {
    if entries == [] then logs else LogAll(PrependLog(logs, entries[0]), entries[1..])
  }

  function Reverse<T>(s: seq<T>): (r: seq<T>)
    ensures |r| == |s|
    ensures forall i :: 0 <= i < |s| ==> r[i] == s[|s| - 1 - i]
  {
    if s == [] then [] else Reverse(s[1..]) + [s[0]]
  }

  /** However many accesses happen, the log holds the 50 most recent, newest first. */
  lemma {:induction false} LogAllKeepsNewest(logs: seq<AccessLog>, entries: seq<AccessLog>)
    requires |logs| <= MaxLogs
    ensures LogAll(logs, entries) == (Reverse(entries) + logs)[..Min(|entries| + |logs|, MaxLogs)]
    decreases entries
  {
    if entries != [] {
      var next := PrependLog(logs, entries[0]);
      LogAllKeepsNewest(next, entries[1..]);
      var whole := Reverse(entries) + logs;
      var k := Min(|entries| + |logs|, MaxLogs);
      assert next == ([entries[0]] + logs)[..|next|];
      assert Reverse(entries[1..]) + next == (Reverse(entries[1..]) + [entries[0]] + logs)[..|entries| - 1 + |next|];
      assert Reverse(entries[1..]) + [entries[0]] == Reverse(entries);
    }
  }

  /** A security notification is attempted unless the e-mail mentions "admin" in any case. */
  predicate NotifiesOnAccess(email: string) {
    !Contains(ToLower(email), "admin")
  }

  function StoredLogs(store: Store): seq<AccessLog>
    reads store
  {
    match store.Get(AccessLogsKey)
    case Some(Logs(l)) => l
    case _ => []
  }

  method LogUserAccess(store: Store, email: string, nowMillis: nat, nowIso: string, userAgent: string)
    returns (notify: bool)
    requires store.Valid()
    modifies store
    ensures store.Valid()
    ensures store.items == old(store.items)[AccessLogsKey :=
      Logs(PrependLog(old(StoredLogs(store)), AccessLog(NatToString(nowMillis), email, nowIso, userAgent)))]
    ensures notify <==> NotifiesOnAccess(email)
  {
    var entry := AccessLog(NatToString(nowMillis), email, nowIso, userAgent);
    store.SetItem(AccessLogsKey, Logs(PrependLog(StoredLogs(store), entry)));
    notify := NotifiesOnAccess(email);
  }

  method ClearAccessLogs(store: Store)
    requires store.Valid()
    modifies store
    ensures store.Valid() && store.items == old(store.items) - {AccessLogsKey}
    ensures StoredLogs(store) == []
  {
    store.RemoveItem(AccessLogsKey);
  }

  // ---------------------------------------------------------------- registered users

  /** `users.findIndex(u => u.email === email)`. */
  function FindByEmail(users: seq<ChatUser>, email: string): (r: Option<nat>)
    ensures r.Some? ==> r.value < |users| && users[r.value].email == Some(email)
    ensures r.Some? ==> forall j :: 0 <= j < r.value ==> users[j].email != Some(email)
    ensures r.None? ==> forall j :: 0 <= j < |users| ==> users[j].email != Some(email)
  {
    if users == [] then None
    else if users[0].email == Some(email) then Some(0)
    else
      var r := FindByEmail(users[1..], email);
      if r.Some? then Some(r.value + 1) else None
  }

  function CountEmail(users: seq<ChatUser>, email: string): nat {
    if users == [] then 0
    else (if users[0].email == Some(email) then 1 else 0) + CountEmail(users[1..], email)
  }

  /**
   * The user list after a login: an existing entry for the e-mail is marked online with the
   * new login time; otherwise a new online user is appended.
   */
  function RecordLogin(users: seq<ChatUser>, name: string, email: string, nowIso: string, newId: string)
    : (r: seq<ChatUser>)
    ensures FindByEmail(users, email).Some? ==> |r| == |users|
    ensures FindByEmail(users, email).None? ==> |r| == |users| + 1 && r[..|users|] == users
    ensures FindByEmail(r, email).Some?
    ensures var i := FindByEmail(r, email).value;
      r[i].isOnline && r[i].lastLogin == Some(nowIso)
      && (forall j :: 0 <= j < |users| && j != i ==> r[j] == users[j])
      && (i < |users| ==> r[i].id == users[i].id && r[i].name == users[i].name)
    ensures FindByEmail(users, email).Some? ==> var i := FindByEmail(users, email).value;
      r[i].avatarColor == users[i].avatarColor && r[i].email == users[i].email
    ensures FindByEmail(users, email).None? ==>
      r[|users|] == ChatUser(newId, name, "bg-amber-700", true, Some(email), Some(nowIso))
  {
    match FindByEmail(users, email)
    case Some(i) =>
      var u := users[i].(lastLogin := Some(nowIso), isOnline := true);
      FindByEmailUpdate(users, i, u, email);
      users[i := u]
    case None =>
      var u := ChatUser(newId, name, "bg-amber-700", true, Some(email), Some(nowIso));
      FindByEmailAppend(users, u, email);
      users + [u]
  }

  lemma {:induction false} FindByEmailUpdate(users: seq<ChatUser>, i: nat, u: ChatUser, email: string)
    requires i < |users| && u.email == users[i].email
    ensures FindByEmail(users[i := u], email) == FindByEmail(users, email)
  {
    if i > 0 {
      assert users[i := u][1..] == users[1..][i - 1 := u];
      FindByEmailUpdate(users[1..], i - 1, u, email);
    }
  }

  lemma {:induction false} FindByEmailAppend(users: seq<ChatUser>, u: ChatUser, email: string)
    requires FindByEmail(users, email).None? && u.email == Some(email)
    ensures FindByEmail(users + [u], email) == Some(|users|)
  {
    if users != [] {
      assert (users + [u])[1..] == users[1..] + [u];
      FindByEmailAppend(users[1..], u, email);
    }
  }

  lemma {:induction false} CountEmailAppend(users: seq<ChatUser>, u: ChatUser, email: string)
    ensures CountEmail(users + [u], email) == CountEmail(users, email) + (if u.email == Some(email) then 1 else 0)
  {
    if users != [] {
      assert (users + [u])[1..] == users[1..] + [u];
      CountEmailAppend(users[1..], u, email);
    }
  }

  lemma {:induction false} CountEmailUpdate(users: seq<ChatUser>, i: nat, u: ChatUser, email: string)
    requires i < |users| && u.email == users[i].email
    ensures CountEmail(users[i := u], email) == CountEmail(users, email)
  {
    if i > 0 {
      assert users[i := u][1..] == users[1..][i - 1 := u];
      CountEmailUpdate(users[1..], i - 1, u, email);
    }
  }

  /** Logging in never creates a second entry for an e-mail: the count becomes one, or stays. */
  lemma RecordLoginKeepsOneEntry(users: seq<ChatUser>, name: string, email: string, nowIso: string, newId: string)
    ensures CountEmail(RecordLogin(users, name, email, nowIso, newId), email)
      == if CountEmail(users, email) == 0 then 1 else CountEmail(users, email)
  {
    match FindByEmail(users, email)
    case Some(i) =>
      CountEmailUpdate(users, i, users[i].(lastLogin := Some(nowIso), isOnline := true), email);
      CountPositive(users, i, email);
    case None =>
      CountEmailAppend(users, ChatUser(newId, name, "bg-amber-700", true, Some(email), Some(nowIso)), email);
      CountZero(users, email);
  }

  lemma {:induction false} CountPositive(users: seq<ChatUser>, i: nat, email: string)
    requires i < |users| && users[i].email == Some(email)
    ensures CountEmail(users, email) > 0
  {
    if i > 0 {
      CountPositive(users[1..], i - 1, email);
    }
  }

  lemma {:induction false} CountZero(users: seq<ChatUser>, email: string)
    requires forall j :: 0 <= j < |users| ==> users[j].email != Some(email)
    ensures CountEmail(users, email) == 0
  {
    if users != [] {
      CountZero(users[1..], email);
    }
  }

  /** `users.filter(u => u.email !== email)`. */
  function WithoutEmail(users: seq<ChatUser>, email: string): (r: seq<ChatUser>)
    ensures |r| <= |users|
    ensures forall u :: u in r <==> u in users && u.email != Some(email)
  {
    if users == [] then []
    else
      var rest := WithoutEmail(users[1..], email);
      assert forall u :: u in users <==> u == users[0] || u in users[1..];
      if users[0].email == Some(email) then rest else [users[0]] + rest
  }

  /** The filter keeps order and multiplicity: it works entry by entry over a concatenation. */
  lemma {:induction false} WithoutEmailConcat(a: seq<ChatUser>, b: seq<ChatUser>, email: string)
    ensures WithoutEmail(a + b, email) == WithoutEmail(a, email) + WithoutEmail(b, email)
    ensures forall u :: WithoutEmail([u], email) == if u.email == Some(email) then [] else [u]
  {
    WithoutEmailSingle(email);
    if a == [] {
      assert a + b == b;
    } else {
      assert (a + b)[0] == a[0] && (a + b)[1..] == a[1..] + b;
      WithoutEmailConcat(a[1..], b, email);
      var rest := WithoutEmail(a[1..], email);
      if a[0].email != Some(email) {
        assert [a[0]] + (rest + WithoutEmail(b, email)) == [a[0]] + rest + WithoutEmail(b, email);
      }
    }
  }

  lemma WithoutEmailSingle(email: string)
    ensures forall u :: WithoutEmail([u], email) == if u.email == Some(email) then [] else [u]
  {
    forall u ensures WithoutEmail([u], email) == if u.email == Some(email) then [] else [u] {
      assert [u][1..] == [];
    }
  }

  /** Removing a user after a login leaves no entry for that e-mail, and every other entry. */
  lemma RemoveAfterLogin(users: seq<ChatUser>, name: string, email: string, nowIso: string, newId: string)
    ensures var r := WithoutEmail(RecordLogin(users, name, email, nowIso, newId), email);
      FindByEmail(r, email).None?
      && forall u :: u in users && u.email != Some(email) ==> u in r
  {
    var logged := RecordLogin(users, name, email, nowIso, newId);
    var r := WithoutEmail(logged, email);
    forall u | u in users && u.email != Some(email)
      ensures u in logged
    {
      var j :| 0 <= j < |users| && users[j] == u;
      assert logged[j] == u;
    }
    forall j | 0 <= j < |r|
      ensures r[j].email != Some(email)
    {
      assert r[j] in r;
    }
  }

  function StoredUsers(store: Store): seq<ChatUser>
    reads store
  {
    match store.Get(RegisteredUsersKey)
    case Some(Users(u)) => u
    case _ => []
  }

  method RegisterUserLogin(store: Store, name: string, email: string, nowIso: string, nowMillis: nat)
    requires store.Valid()
    modifies store
    ensures store.Valid()
    ensures store.items == old(store.items)[RegisteredUsersKey :=
      Users(RecordLogin(old(StoredUsers(store)), name, email, nowIso, "user_" + NatToString(nowMillis)))]
  {
    var users := RecordLogin(StoredUsers(store), name, email, nowIso, "user_" + NatToString(nowMillis));
    store.SetItem(RegisteredUsersKey, Users(users));
  }

  method RemoveRegisteredUser(store: Store, email: string) returns (users: seq<ChatUser>)
    requires store.Valid()
    modifies store
    ensures store.Valid()
    ensures users == WithoutEmail(old(StoredUsers(store)), email)
    ensures store.items == old(store.items)[RegisteredUsersKey := Users(users)]
  {
    users := WithoutEmail(StoredUsers(store), email);
    store.SetItem(RegisteredUsersKey, Users(users));
  }

  // ---------------------------------------------------------------- maintenance, password, config

  /** `String(b)` for a boolean. */
  function BoolString(b: bool): (s: string)
    ensures s == "true" <==> b
    ensures s == "false" <==> !b
  {
    if b then "true" else "false"
  }

  function IsAppInMaintenance(store: Store): bool
    reads store
  {
    store.Get(MaintenanceKey) == Some(Raw("true"))
  }

  method SetAppMaintenance(store: Store, enabled: bool)
    requires store.Valid()
    modifies store
    ensures store.Valid() && store.items == old(store.items)[MaintenanceKey := Raw(BoolString(enabled))]
    ensures IsAppInMaintenance(store) == enabled
  {
    store.SetItem(MaintenanceKey, Raw(BoolString(enabled)));
  }

  /** The stored password, or the default one when none (or an empty one) is stored. */
  function GetAdminPassword(store: Store): (p: string)
    reads store
    ensures p != ""
    ensures store.Get(AdminPassKey).None? ==> p == DefaultAdminPassword
  {
    match store.Get(AdminPassKey)
    case Some(Raw(s)) => if s != "" then s else DefaultAdminPassword
    case _ => DefaultAdminPassword
  }

  method SetAdminPassword(store: Store, newPass: string)
    requires store.Valid()
    modifies store
    ensures store.Valid() && store.items == old(store.items)[AdminPassKey := Raw(newPass)]
    ensures GetAdminPassword(store) == if newPass == "" then DefaultAdminPassword else newPass
  {
    store.SetItem(AdminPassKey, Raw(newPass));
  }

  method ResetAdminPassword(store: Store)
    requires store.Valid()
    modifies store
    ensures store.Valid() && store.items == old(store.items)[AdminPassKey := Raw(DefaultAdminPassword)]
    ensures GetAdminPassword(store) == DefaultAdminPassword
  {
    store.SetItem(AdminPassKey, Raw(DefaultAdminPassword));
  }

  function GetAdminConfig(store: Store): (c: AdminConfig)
    reads store
    ensures store.Get(AdminConfigKey).None? ==> c == DefaultAdminConfig
  {
    match store.Get(AdminConfigKey)
    case Some(Config(c)) => c
    case _ => DefaultAdminConfig
  }

  method SetAdminConfig(store: Store, config: AdminConfig)
    requires store.Valid()
    modifies store
    ensures store.Valid() && store.items == old(store.items)[AdminConfigKey := Config(config)]
    ensures GetAdminConfig(store) == config
  {
    store.SetItem(AdminConfigKey, Config(config));
  }

  // ---------------------------------------------------------------- course access

  /** `permissions.find(p => p.userId === userId && p.courseId === courseId)`, as an index. */
  function FindPermission(perms: seq<CoursePermission>, userId: string, courseId: string): (r: Option<nat>)
    ensures r.Some? ==> r.value < |perms| && perms[r.value].userId == userId && perms[r.value].courseId == courseId
    ensures r.None? ==> forall j :: 0 <= j < |perms| ==> !(perms[j].userId == userId && perms[j].courseId == courseId)
    ensures r.Some? ==> forall j :: 0 <= j < r.value ==> !(perms[j].userId == userId && perms[j].courseId == courseId)
  {
    if perms == [] then None
    else if perms[0].userId == userId && perms[0].courseId == courseId then Some(0)
    else
      var r := FindPermission(perms[1..], userId, courseId);
      if r.Some? then Some(r.value + 1) else None
  }

  /** The first permission for the course whose code is `code`. */
  function FindCode(perms: seq<CoursePermission>, courseId: string, code: string): (r: Option<nat>)
    ensures r.Some? ==> r.value < |perms| && perms[r.value].courseId == courseId && perms[r.value].accessCode == code
    ensures r.None? ==> forall j :: 0 <= j < |perms| ==> !(perms[j].courseId == courseId && perms[j].accessCode == code)
    ensures r.Some? ==> forall j :: 0 <= j < r.value ==> !(perms[j].courseId == courseId && perms[j].accessCode == code)
  {
    if perms == [] then None
    else if perms[0].courseId == courseId && perms[0].accessCode == code then Some(0)
    else
      var r := FindCode(perms[1..], courseId, code);
      if r.Some? then Some(r.value + 1) else None
  }

  datatype Grant = Grant(code: string, permissions: seq<CoursePermission>)

  /**
   * Granting access: the code already issued to this user for this course, or `freshCode`
   * recorded as a new, still locked permission.
   */
  function GrantAccess(perms: seq<CoursePermission>, userId: string, courseId: string, freshCode: string)
    : (g: Grant)
    ensures FindPermission(perms, userId, courseId).Some? ==> g.permissions == perms
    ensures FindPermission(perms, userId, courseId).None? ==>
      g.code == freshCode && g.permissions == perms + [CoursePermission(userId, courseId, freshCode, false)]
    ensures var i := FindPermission(g.permissions, userId, courseId);
      i.Some? && g.permissions[i.value].accessCode == g.code
  {
    match FindPermission(perms, userId, courseId)
    case Some(i) => Grant(perms[i].accessCode, perms)
    case None =>
      var p := perms + [CoursePermission(userId, courseId, freshCode, false)];
      FindPermissionAppend(perms, userId, courseId, freshCode);
      Grant(freshCode, p)
  }

  lemma {:induction false} FindPermissionAppend(perms: seq<CoursePermission>, userId: string, courseId: string, code: string)
    requires FindPermission(perms, userId, courseId).None?
    ensures FindPermission(perms + [CoursePermission(userId, courseId, code, false)], userId, courseId) == Some(|perms|)
  {
    if perms != [] {
      assert (perms + [CoursePermission(userId, courseId, code, false)])[1..]
        == perms[1..] + [CoursePermission(userId, courseId, code, false)];
      FindPermissionAppend(perms[1..], userId, courseId, code);
    }
  }

  /** Granting the same access twice hands out the same code and changes nothing the second time. */
  lemma GrantIsIdempotent(perms: seq<CoursePermission>, userId: string, courseId: string, code1: string, code2: string)
    ensures var g := GrantAccess(perms, userId, courseId, code1);
      GrantAccess(g.permissions, userId, courseId, code2) == g
  {
  }

  /** Some permission of the course is unlocked: `permissions.some(p => p.courseId === courseId && p.isUnlocked)`. */
  predicate Unlocked(perms: seq<CoursePermission>, courseId: string) {
    exists i :: 0 <= i < |perms| && perms[i].courseId == courseId && perms[i].isUnlocked
  }

  datatype Verification = Verification(ok: bool, permissions: seq<CoursePermission>)

  /**
   * Checking a typed code: it is upper-cased and trimmed, then compared with the codes of the
   * course; the first match is unlocked.
   */
  function VerifyCode(perms: seq<CoursePermission>, courseId: string, input: string): (v: Verification)
    ensures v.ok <==> exists i :: 0 <= i < |perms| && perms[i].courseId == courseId && perms[i].accessCode == Trim(ToUpper(input))
    ensures v.ok ==> Unlocked(v.permissions, courseId)
    ensures !v.ok ==> v.permissions == perms
    ensures |v.permissions| == |perms|
    ensures forall i :: 0 <= i < |perms| ==> v.permissions[i] == perms[i] || v.permissions[i] == perms[i].(isUnlocked := true)
    ensures v.ok ==> (FindCode(perms, courseId, Trim(ToUpper(input))).Some?
      && v.permissions == perms[FindCode(perms, courseId, Trim(ToUpper(input))).value
        := perms[FindCode(perms, courseId, Trim(ToUpper(input))).value].(isUnlocked := true)])
  {
    Redeem(perms, courseId, Trim(ToUpper(input)))
  }

  /** Unlocking the first permission of the course whose code is `code`, if there is one. */
  function Redeem(perms: seq<CoursePermission>, courseId: string, code: string): (v: Verification)
    ensures v.ok <==> exists i :: 0 <= i < |perms| && perms[i].courseId == courseId && perms[i].accessCode == code
    ensures v.ok ==> Unlocked(v.permissions, courseId)
    ensures !v.ok ==> v.permissions == perms
    ensures |v.permissions| == |perms|
    ensures forall i :: 0 <= i < |perms| ==> v.permissions[i] == perms[i] || v.permissions[i] == perms[i].(isUnlocked := true)
    ensures v.ok ==> (FindCode(perms, courseId, code).Some?
      && v.permissions == perms[FindCode(perms, courseId, code).value
        := perms[FindCode(perms, courseId, code).value].(isUnlocked := true)])
  {
    match FindCode(perms, courseId, code)
    case Some(i) =>
      var unlocked := perms[i := perms[i].(isUnlocked := true)];
      assert unlocked[i].courseId == courseId && unlocked[i].isUnlocked;
      Verification(true, unlocked)
    case None => Verification(false, perms)
  }

  /** Once a course is unlocked, neither granting nor verifying codes locks it again. */
  lemma UnlockIsPermanent(perms: seq<CoursePermission>, courseId: string, otherCourse: string, input: string,
                          userId: string, code: string)
    requires Unlocked(perms, courseId)
    ensures Unlocked(VerifyCode(perms, otherCourse, input).permissions, courseId)
    ensures Unlocked(GrantAccess(perms, userId, otherCourse, code).permissions, courseId)
  {
    var i :| 0 <= i < |perms| && perms[i].courseId == courseId && perms[i].isUnlocked;
    var v := VerifyCode(perms, otherCourse, input);
    assert v.permissions[i].courseId == courseId && v.permissions[i].isUnlocked;
    var g := GrantAccess(perms, userId, otherCourse, code);
    assert g.permissions[i] == perms[i];
  }

  /** A code as `generateAccessCode` makes it: upper-case base-36 digits. */
  predicate IsAccessCode(code: string) {
    forall i :: 0 <= i < |code| ==> IsDigit(code[i]) || 'A' <= code[i] <= 'Z'
  }

  /**
   * A granted code, typed back in lower case with surrounding spaces, unlocks the course.
   */
  lemma GrantedCodeUnlocks(perms: seq<CoursePermission>, userId: string, courseId: string, freshCode: string)
    requires IsAccessCode(freshCode) && freshCode != []
    requires forall j :: 0 <= j < |perms| ==> IsAccessCode(perms[j].accessCode) && perms[j].accessCode != []
    ensures var g := GrantAccess(perms, userId, courseId, freshCode);
      VerifyCode(g.permissions, courseId, " " + ToLower(g.code) + " ").ok
  {
    var g := GrantAccess(perms, userId, courseId, freshCode);
    var typed := " " + ToLower(g.code) + " ";
    var up := ToUpper(typed);
    assert up == " " + g.code + " ";
    TrimSurrounded(g.code);
    var i := FindPermission(g.permissions, userId, courseId).value;
    assert g.permissions[i].courseId == courseId && g.permissions[i].accessCode == Trim(up);
  }

  lemma TrimSurrounded(code: string)
    requires IsAccessCode(code) && code != []
    ensures Trim(" " + code + " ") == code
  {
    var s := " " + code + " ";
    assert s[1..] == code + " ";
    TrimStartKeeps(code + " ");
    assert TrimStart(s) == code + " ";
    assert (code + " ")[..|code|] == code;
    TrimEndKeeps(code);
  }

  function StoredPermissions(store: Store): seq<CoursePermission>
    reads store
  {
    match store.Get(PermissionsKey)
    case Some(Permissions(p)) => p
    case _ => []
  }

  function IsCourseUnlocked(store: Store, courseId: string): bool
    reads store
  {
    Unlocked(StoredPermissions(store), courseId)
  }

  method GrantCourseAccess(store: Store, userId: string, courseId: string, freshCode: string) returns (code: string)
    requires store.Valid()
    modifies store
    ensures store.Valid()
    ensures var g := GrantAccess(old(StoredPermissions(store)), userId, courseId, freshCode);
      code == g.code
      && store.items == if g.permissions == old(StoredPermissions(store)) then old(store.items)
                        else old(store.items)[PermissionsKey := Permissions(g.permissions)]
  {
    var perms := StoredPermissions(store);
    var g := GrantAccess(perms, userId, courseId, freshCode);
    if FindPermission(perms, userId, courseId).None? {
      store.SetItem(PermissionsKey, Permissions(g.permissions));
    }
    code := g.code;
  }

  method VerifyAccessCode(store: Store, courseId: string, input: string) returns (ok: bool)
    requires store.Valid()
    modifies store
    ensures store.Valid()
    ensures var v := VerifyCode(old(StoredPermissions(store)), courseId, input);
      ok == v.ok
      && store.items == if v.ok then old(store.items)[PermissionsKey := Permissions(v.permissions)] else old(store.items)
    ensures ok ==> IsCourseUnlocked(store, courseId)
  {
    var v := VerifyCode(StoredPermissions(store), courseId, input);
    if v.ok {
      store.SetItem(PermissionsKey, Permissions(v.permissions));
    }
    ok := v.ok;
  }

  // ---------------------------------------------------------------- id lists and the custom filter

  /** `ids.filter(x => x !== id)`. */
  function RemoveAll(ids: seq<string>, id: string): (r: seq<string>)
    ensures |r| <= |ids|
    ensures forall x :: x in r <==> x in ids && x != id
    ensures multiset(r) == multiset(ids)[id := 0]
  {
    if ids == [] then []
    else
      var rest := RemoveAll(ids[1..], id);
      assert ids == [ids[0]] + ids[1..];
      if ids[0] == id then rest else [ids[0]] + rest
  }

  lemma {:induction false} RemoveAllAbsent(ids: seq<string>, id: string)
    requires id !in ids
    ensures RemoveAll(ids, id) == ids
  {
    if ids != [] {
      RemoveAllAbsent(ids[1..], id);
    }
  }

  lemma {:induction false} RemoveAllKeepsNoDuplicates(ids: seq<string>, id: string)
    requires NoDuplicates(ids)
    ensures NoDuplicates(RemoveAll(ids, id))
  {
    if ids != [] {
      RemoveAllKeepsNoDuplicates(ids[1..], id);
      assert ids[0] !in ids[1..];
    }
  }

  /** Blocking or adding a user: removes the id when present, otherwise appends it. */
  function Toggle(ids: seq<string>, id: string): (r: seq<string>)
    ensures id in r <==> id !in ids
    ensures forall x :: x != id ==> (x in r <==> x in ids)
  {
    if id in ids then RemoveAll(ids, id) else ids + [id]
  }

  /** Toggling keeps a list free of duplicates. */
  lemma ToggleKeepsNoDuplicates(ids: seq<string>, id: string)
    requires NoDuplicates(ids)
    ensures NoDuplicates(Toggle(ids, id))
  {
    if id in ids {
      RemoveAllKeepsNoDuplicates(ids, id);
    }
  }

  /**
   * Toggling twice restores a list the id was not in; for a list holding the id it restores
   * the members, but the id moves to the end.
   */
  lemma ToggleTwice(ids: seq<string>, id: string)
    ensures id !in ids ==> Toggle(Toggle(ids, id), id) == ids
    ensures id in ids ==> Toggle(Toggle(ids, id), id) == RemoveAll(ids, id) + [id]
    ensures forall x :: x in Toggle(Toggle(ids, id), id) <==> x in ids
  {
    if id !in ids {
      var once := ids + [id];
      assert once[|ids|] == id;
      RemoveAllSplit(ids, [id], id);
      RemoveAllAbsent(ids, id);
    }
  }

  lemma {:induction false} RemoveAllSplit(a: seq<string>, b: seq<string>, id: string)
    ensures RemoveAll(a + b, id) == RemoveAll(a, id) + RemoveAll(b, id)
  {
    if a != [] {
      assert (a + b)[0] == a[0];
      assert (a + b)[1..] == a[1..] + b;
      RemoveAllSplit(a[1..], b, id);
    } else {
      assert a + b == b;
    }
  }

  /** A custom word as stored: lower-cased and trimmed. */
  function NormalizeWord(word: string): string {
    Trim(ToLower(word))
  }

  /**
   * The custom word list after adding `word`: its normalized form is appended unless it is
   * blank, already listed or one of the built-in words.
   */
  function AddWord(current: seq<string>, word: string): (r: seq<string>)
    ensures var w := NormalizeWord(word);
      (r == current + [w] && w != [] && w !in current && w !in BadWords)
      || (r == current && (w == [] || w in current || w in BadWords))
  {
    var w := NormalizeWord(word);
    if w == [] || w in current || w in BadWords then current else current + [w]
  }

  /** The stored custom words stay distinct, non-blank and outside the built-in list. */
  predicate CleanWords(words: seq<string>) {
    NoDuplicates(words) && forall i :: 0 <= i < |words| ==> words[i] != [] && words[i] !in BadWords
  }

  lemma AddWordKeepsClean(current: seq<string>, word: string)
    requires CleanWords(current)
    ensures CleanWords(AddWord(current, word))
  {
    var w := NormalizeWord(word);
    if AddWord(current, word) != current {
      CleanSnoc(current, w);
    }
  }

  lemma CleanSnoc(current: seq<string>, w: string)
    requires CleanWords(current) && w != [] && w !in current && w !in BadWords
    ensures CleanWords(current + [w])
  {
    var r := current + [w];
    forall i | 0 <= i < |r|
      ensures r[i] != [] && r[i] !in BadWords
    {
      if i < |current| {
        assert r[i] == current[i];
      }
    }
    forall i, j | 0 <= i < j < |r|
      ensures r[i] != r[j]
    {
      if j == |current| {
        assert r[i] == current[i];
      } else {
        assert r[i] == current[i] && r[j] == current[j];
      }
    }
  }

  lemma RemoveWordKeepsClean(current: seq<string>, word: string)
    requires CleanWords(current)
    ensures CleanWords(RemoveAll(current, word))
  {
    RemoveAllKeepsNoDuplicates(current, word);
    var r := RemoveAll(current, word);
    forall i | 0 <= i < |r|
      ensures r[i] != [] && r[i] !in BadWords
    {
      assert r[i] in current;
    }
  }

  /** Adding the same word twice is the same as adding it once. */
  lemma AddWordIdempotent(current: seq<string>, word: string)
    ensures AddWord(AddWord(current, word), word) == AddWord(current, word)
  {
  }

  function StoredIds(store: Store, key: string): seq<string>
    reads store
  {
    match store.Get(key)
    case Some(Ids(ids)) => ids
    case _ => []
  }

  method AddCustomFilterWord(store: Store, word: string) returns (words: seq<string>)
    requires store.Valid()
    modifies store
    ensures store.Valid()
    ensures words == AddWord(old(StoredIds(store, CustomFilterKey)), word)
    ensures store.items == if words == old(StoredIds(store, CustomFilterKey)) then old(store.items)
                           else old(store.items)[CustomFilterKey := Ids(words)]
  {
    var current := StoredIds(store, CustomFilterKey);
    words := AddWord(current, word);
    if words != current {
      store.SetItem(CustomFilterKey, Ids(words));
    }
  }

  /** Removing a custom word compares it exactly, without normalizing it, and always writes. */
  method RemoveCustomFilterWord(store: Store, word: string) returns (words: seq<string>)
    requires store.Valid()
    modifies store
    ensures store.Valid()
    ensures words == RemoveAll(old(StoredIds(store, CustomFilterKey)), word) && word !in words
    ensures store.items == old(store.items)[CustomFilterKey := Ids(words)]
  {
    words := RemoveAll(StoredIds(store, CustomFilterKey), word);
    store.SetItem(CustomFilterKey, Ids(words));
  }

  method ToggleBlockUser(store: Store, userId: string) returns (blocked: seq<string>)
    requires store.Valid()
    modifies store
    ensures store.Valid()
    ensures blocked == Toggle(old(StoredIds(store, BlockedKey)), userId)
    ensures store.items == old(store.items)[BlockedKey := Ids(blocked)]
  {
    blocked := Toggle(StoredIds(store, BlockedKey), userId);
    store.SetItem(BlockedKey, Ids(blocked));
  }

  method ToggleAddUser(store: Store, userId: string) returns (added: seq<string>)
    requires store.Valid()
    modifies store
    ensures store.Valid()
    ensures added == Toggle(old(StoredIds(store, AddedKey)), userId)
    ensures store.items == old(store.items)[AddedKey := Ids(added)]
  {
    added := Toggle(StoredIds(store, AddedKey), userId);
    store.SetItem(AddedKey, Ids(added));
  }

  // ---------------------------------------------------------------- messages

  /** The two greeting messages stored when the chat has no history yet. */
  function SeedMessages(hourAgo: string, halfHourAgo: string): seq<ChatMessage> {
    [ChatMessage("msg_1", "user_1", "Irmão João", "bg-blue-700",
                 Some("A paz do Senhor a todos! Alguém já leu Salmos hoje?"), None, TextMessage, hourAgo),
     ChatMessage("msg_2", "user_2", "Maria Madalena", "bg-pink-700",
                 Some("Amém! Li o Salmo 91, muito edificante."), None, TextMessage, halfHourAgo)]
  }

  /** The history after appending `m`: when it then exceeds 20 messages, the oldest one goes. */
  function AppendBounded(messages: seq<ChatMessage>, m: ChatMessage): (r: seq<ChatMessage>)
    ensures |r| == Min(|messages| + 1, Max(|messages|, MaxMessages))
    ensures |r| >= 1 && r[|r| - 1] == m
    ensures r == (messages + [m])[|messages| + 1 - |r|..]
  {
    var u := messages + [m];
    if |u| > MaxMessages then u[1..] else u
  }

  /** The history after sending a series of messages, oldest first. */
  function SendAll(messages: seq<ChatMessage>, sent: seq<ChatMessage>): seq<ChatMessage>
    decreases sent
  {
    if sent == [] then messages else SendAll(AppendBounded(messages, sent[0]), sent[1..])
  }

  /** A history of at most 20 messages keeps exactly the 20 most recent ones, in order. */
  lemma {:induction false} SendAllKeepsLatest(messages: seq<ChatMessage>, sent: seq<ChatMessage>)
    requires |messages| <= MaxMessages
    ensures SendAll(messages, sent) == (messages + sent)[Max(0, |messages| + |sent| - MaxMessages)..]
    decreases sent
  {
    if sent != [] {
      var m, rest := sent[0], sent[1..];
      AppendThenWindow(messages, m, rest);
      SendAllKeepsLatest(AppendBounded(messages, m), rest);
      SplitFirst(messages, sent);
    }
  }

  lemma SplitFirst<T>(a: seq<T>, s: seq<T>)
    requires s != []
    ensures a + s == (a + [s[0]]) + s[1..]
  {
    assert s == [s[0]] + s[1..];
  }

  /** One message appended, then a further window: the same as one window over everything. */
  lemma AppendThenWindow(messages: seq<ChatMessage>, m: ChatMessage, rest: seq<ChatMessage>)
    requires |messages| <= MaxMessages
    ensures |AppendBounded(messages, m)| <= MaxMessages
    ensures (AppendBounded(messages, m) + rest)[Max(0, |AppendBounded(messages, m)| + |rest| - MaxMessages)..]
      == ((messages + [m]) + rest)[Max(0, |messages| + 1 + |rest| - MaxMessages)..]
  {
    var k := AppendWindow(messages, m);
    var next := AppendBounded(messages, m);
    var j := Max(0, |next| + |rest| - MaxMessages);
    WindowsAdd(|messages|, |rest| + 1, k, j);
    SliceOfSuffix(messages + [m], rest, k, j);
  }

  lemma WindowsAdd(n: nat, s: nat, k: nat, j: nat)
    requires n <= MaxMessages && s > 0
    requires k == Max(0, n + 1 - MaxMessages) && j == Max(0, n + 1 - k + s - 1 - MaxMessages)
    ensures k + j == Max(0, n + s - MaxMessages)
  {
  }

  /** Appending to a history of at most 20 keeps a window of at most 20 ending with the new message. */
  lemma AppendWindow(messages: seq<ChatMessage>, m: ChatMessage) returns (k: nat)
    requires |messages| <= MaxMessages
    ensures k == Max(0, |messages| + 1 - MaxMessages)
    ensures AppendBounded(messages, m) == (messages + [m])[k..]
    ensures |AppendBounded(messages, m)| == |messages| + 1 - k <= MaxMessages
  {
    k := Max(0, |messages| + 1 - MaxMessages);
  }

  lemma SliceOfSuffix<T>(a: seq<T>, b: seq<T>, k: nat, j: nat)
    requires k <= |a| && j <= |a| - k + |b|
    ensures (a[k..] + b)[j..] == (a + b)[k + j..]
  {
    assert a[k..] + b == (a + b)[k..];
  }

  /** When the full write fails, the five newest messages are written instead, if there are more than five. */
  function FallbackTail(updated: seq<ChatMessage>): (r: Option<seq<ChatMessage>>)
    ensures r.Some? <==> |updated| > FallbackMessages
    ensures r.Some? ==> |r.value| == FallbackMessages && r.value == updated[|updated| - FallbackMessages..]
  {
    if |updated| > FallbackMessages then Some(updated[|updated| - FallbackMessages..]) else None
  }

  /** The chat history a stored value holds; unreadable text reads as an empty history. */
  function MessagesIn(v: Value): seq<ChatMessage> {
    if v.Messages? then v.messages else []
  }

  /** The history `getMessages` returns: the seed when nothing is stored. */
  function CurrentMessages(store: Store, hourAgo: string, halfHourAgo: string): seq<ChatMessage>
    reads store
  {
    match store.Get(MessagesKey)
    case None => SeedMessages(hourAgo, halfHourAgo)
    case Some(v) => MessagesIn(v)
  }

  method GetMessages(store: Store, hourAgo: string, halfHourAgo: string) returns (messages: seq<ChatMessage>)
    requires store.Valid()
    modifies store
    ensures store.Valid()
    ensures messages == old(CurrentMessages(store, hourAgo, halfHourAgo))
    ensures store.items == if old(store.Get(MessagesKey)).None? then old(store.items)[MessagesKey := Messages(messages)]
                           else old(store.items)
  {
    messages := CurrentMessages(store, hourAgo, halfHourAgo);
    if store.Get(MessagesKey).None? {
      store.SetItem(MessagesKey, Messages(messages));
    }
  }

  /** The message `sendMessage` builds: text goes through the profanity filter, audio does not. */
  function NewMessage(content: string, userId: string, userName: string, kind: MessageKind,
                      nowMillis: nat, nowIso: string, filter: string -> string): (m: ChatMessage)
    ensures m.userId == userId && m.kind == kind
    ensures kind == TextMessage ==> m.text == Some(filter(content)) && m.audio.None?
    ensures kind == AudioMessage ==> m.audio == Some(content) && m.text.None?
  {
    ChatMessage(NatToString(nowMillis), userId, userName, "bg-[#3e2723]",
      if kind == TextMessage then Some(filter(content)) else None,
      if kind == AudioMessage then Some(content) else None,
      kind, nowIso)
  }

  datatype SendOutcome = Sent(message: ChatMessage) | Thrown

  /**
   * `sendMessage`. `fullWriteFails` and `fallbackWriteFails` say whether the storage quota
   * rejects the first and the second write; the second write is outside the `try`, so its
   * failure reaches the caller.
   */
  method SendMessage(store: Store, content: string, userId: string, userName: string, kind: MessageKind,
                     nowMillis: nat, nowIso: string, hourAgo: string, halfHourAgo: string,
                     filter: string -> string, fullWriteFails: bool, fallbackWriteFails: bool)
    returns (outcome: SendOutcome)
    requires store.Valid()
    modifies store
    ensures store.Valid()
    ensures var m := NewMessage(content, userId, userName, kind, nowMillis, nowIso, filter);
      var before := old(CurrentMessages(store, hourAgo, halfHourAgo));
      var updated := AppendBounded(before, m);
      var seeded := if old(store.Get(MessagesKey)).None? then old(store.items)[MessagesKey := Messages(before)]
                    else old(store.items);
      if !fullWriteFails then
        outcome == Sent(m) && store.items == old(store.items)[MessagesKey := Messages(updated)]
      else if FallbackTail(updated).None? then
        outcome == Sent(m) && store.items == seeded
      else if fallbackWriteFails then
        outcome == Thrown && store.items == seeded
      else
        outcome == Sent(m) && store.items == old(store.items)[MessagesKey := Messages(FallbackTail(updated).value)]
  {
    var m := NewMessage(content, userId, userName, kind, nowMillis, nowIso, filter);
    var messages := GetMessages(store, hourAgo, halfHourAgo);
    var updated := AppendBounded(messages, m);
    if !fullWriteFails {
      store.SetItem(MessagesKey, Messages(updated));
      outcome := Sent(m);
    } else {
      var tail := FallbackTail(updated);
      if tail.None? {
        outcome := Sent(m);
      } else if fallbackWriteFails {
        outcome := Thrown;
      } else {
        store.SetItem(MessagesKey, Messages(tail.value));
        outcome := Sent(m);
      }
    }
  }
}
