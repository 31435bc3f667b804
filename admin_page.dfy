/**
 * The pastoral control panel of `components/AdminPage.tsx`: a password gate, then switches for
 * the admin configuration and the maintenance flag, access codes for the restricted courses,
 * the blocked and registered users, the access log, the chat history and the password itself,
 * all read from and written to the store through the chat service.
 */
module AdminPage {
  import opened Wrappers
  import opened Text
  import opened Records
  import opened Storage
  import opened ChatService

  /** The user id every code generated from the panel is granted to. */
  const GeneralStudent := "student_general"

  datatype ConfigField = AdminMode | AdminSound | AppLocked

  /** `{ ...config, [key]: !config[key] }`. */
  function Flip(c: AdminConfig, f: ConfigField): (r: AdminConfig)
    ensures f == AdminMode ==> r.isAdminMode == !c.isAdminMode
    ensures f == AdminSound ==> r.adminSoundEnabled == !c.adminSoundEnabled
    ensures f == AppLocked ==> r.isAppLocked == !c.isAppLocked
    ensures f != AdminMode ==> r.isAdminMode == c.isAdminMode
    ensures f != AdminSound ==> r.adminSoundEnabled == c.adminSoundEnabled
    ensures f != AppLocked ==> r.isAppLocked == c.isAppLocked
  {
    match f
    case AdminMode => c.(isAdminMode := !c.isAdminMode)
    case AdminSound => c.(adminSoundEnabled := !c.adminSoundEnabled)
    case AppLocked => c.(isAppLocked := !c.isAppLocked)
  }

  /** A switch pressed twice is back where it was, and two switches commute. */
  lemma FlipTwice(c: AdminConfig, f: ConfigField, g: ConfigField)
    ensures Flip(Flip(c, f), f) == c
    ensures Flip(Flip(c, f), g) == Flip(Flip(c, g), f)
  {
  }

  /** The gate opens exactly for the stored password, `admin123` when none is stored. */
  predicate Accepts(store: Store, input: string)
    reads store
  {
    input == GetAdminPassword(store)
  }

  lemma GateFacts(store: Store, input: string)
    ensures store.Get(AdminPassKey).None? ==> (Accepts(store, input) <==> input == "admin123")
    ensures !Accepts(store, "")
  {
  }

  /** A new password is taken only when it is not blank once trimmed. */
  predicate TakesNewPassword(newPass: string) {
    !IsBlank(newPass)
  }

  /**
   * After a change the gate opens for the new password exactly as typed: the blank check trims,
   * the stored value does not, so the trimmed form opens it only when nothing was trimmed.
   */
  lemma ChangedPasswordOpens(store: Store, newPass: string, input: string)
    requires TakesNewPassword(newPass) && store.Get(AdminPassKey) == Some(Raw(newPass))
    ensures Accepts(store, input) <==> input == newPass
    ensures Accepts(store, Trim(newPass)) <==> Trim(newPass) == newPass
  {
    assert Trim(newPass) != [];
  }

  /** Generating a code twice for one course gives the first code and grants nothing new. */
  lemma GenerateCodeTwice(perms: seq<CoursePermission>, courseId: string, fresh1: string, fresh2: string)
    ensures var g1 := GrantAccess(perms, GeneralStudent, courseId, fresh1);
      var g2 := GrantAccess(g1.permissions, GeneralStudent, courseId, fresh2);
      g2.code == g1.code && g2.permissions == g1.permissions
  {
    GrantIsIdempotent(perms, GeneralStudent, courseId, fresh1, fresh2);
  }

  /** After the chat is cleared, the next read of the history gives the two greeting messages. */
  lemma ClearedChatReseeds(store: Store, hourAgo: string, halfHourAgo: string)
    requires MessagesKey !in store.items
    ensures CurrentMessages(store, hourAgo, halfHourAgo) == SeedMessages(hourAgo, halfHourAgo)
    ensures |CurrentMessages(store, hourAgo, halfHourAgo)| == 2
  {
  }

  /** The panel: authentication, the loaded data and the form inputs. */
  class AdminScreen {
    const store: Store
    var isAuthenticated: bool
    var passwordInput: string
    var errorMsg: string
    var config: AdminConfig
    var maintenanceMode: bool
    var blockedUsers: seq<string>
    var registeredUsers: seq<ChatUser>
    var accessLogs: seq<AccessLog>
    var generatedCodes: map<string, string>
    var newPass: string

    ghost predicate Valid()
      reads this, store
    {
      store.Valid()
    }

    constructor(s: Store)
      requires s.Valid()
      ensures Valid() && store == s && !isAuthenticated && passwordInput == "" && errorMsg == ""
      ensures config == AdminConfig(false, true, false) && !maintenanceMode
      ensures blockedUsers == [] && registeredUsers == [] && accessLogs == [] && generatedCodes == map[]
      ensures newPass == ""
    {
      store := s;
      isAuthenticated := false;
      passwordInput := "";
      errorMsg := "";
      config := AdminConfig(false, true, false);
      maintenanceMode := false;
      blockedUsers := [];
      registeredUsers := [];
      accessLogs := [];
      generatedCodes := map[];
      newPass := "";
    }

    /** `loadData`, run when the panel opens. */
    method LoadData()
      requires Valid()
      modifies this
      ensures Valid()
      ensures blockedUsers == StoredIds(store, BlockedKey) && config == GetAdminConfig(store)
      ensures maintenanceMode == IsAppInMaintenance(store)
      ensures registeredUsers == StoredUsers(store) && accessLogs == StoredLogs(store)
      ensures isAuthenticated == old(isAuthenticated) && passwordInput == old(passwordInput)
      ensures errorMsg == old(errorMsg) && generatedCodes == old(generatedCodes) && newPass == old(newPass)
    {
      blockedUsers, config, maintenanceMode, registeredUsers, accessLogs :=
        StoredIds(store, BlockedKey), GetAdminConfig(store), IsAppInMaintenance(store), StoredUsers(store), StoredLogs(store);
    }

    /** `handleLogin`: the right password opens the panel (and loads it); a wrong one clears the input. */
    method HandleLogin()
      requires Valid() && !isAuthenticated
      modifies this
      ensures Valid()
      ensures isAuthenticated <==> Accepts(store, old(passwordInput))
      ensures isAuthenticated ==> (errorMsg == "" && config == GetAdminConfig(store)
        && maintenanceMode == IsAppInMaintenance(store) && blockedUsers == StoredIds(store, BlockedKey))
      ensures !isAuthenticated ==> errorMsg == "Senha incorreta." && passwordInput == ""
    {
      if passwordInput == GetAdminPassword(store) {
        isAuthenticated := true;
        errorMsg := "";
        LoadData();
      } else {
        errorMsg := "Senha incorreta.";
        passwordInput := "";
      }
    }

    /** `toggleMaintenance`. */
    method ToggleMaintenance()
      requires Valid()
      modifies this, store
      ensures Valid()
      ensures maintenanceMode == !old(maintenanceMode)
      ensures store.items == old(store.items)[MaintenanceKey := Raw(BoolString(maintenanceMode))]
      ensures IsAppInMaintenance(store) == maintenanceMode
      ensures config == old(config) && isAuthenticated == old(isAuthenticated)
    {
      var newState := !maintenanceMode;
      maintenanceMode := newState;
      SetAppMaintenance(store, newState);
    }

    /** `toggleConfig`: one switch flips and the whole record is written. */
    method ToggleConfig(f: ConfigField)
      requires Valid()
      modifies this, store
      ensures Valid()
      ensures config == Flip(old(config), f)
      ensures store.items == old(store.items)[AdminConfigKey := Config(config)]
      ensures GetAdminConfig(store) == config
      ensures maintenanceMode == old(maintenanceMode) && isAuthenticated == old(isAuthenticated)
    {
      var newConfig := Flip(config, f);
      config := newConfig;
      SetAdminConfig(store, newConfig);
    }

    /**
     * `handleChangePassword`: a blank entry (nothing left after `Trim`) is ignored; otherwise it
     * is stored as typed and the field cleared.
     */
    method HandleChangePassword()
      requires Valid()
      modifies this, store
      ensures Valid()
      ensures !TakesNewPassword(old(newPass)) ==> store.items == old(store.items) && newPass == old(newPass)
      ensures TakesNewPassword(old(newPass)) ==>
        (store.items == old(store.items)[AdminPassKey := Raw(old(newPass))] && newPass == ""
        && Accepts(store, old(newPass)))
      ensures isAuthenticated == old(isAuthenticated) && config == old(config)
    {
      var typed := newPass;
      if IsBlank(typed) {
        return;
      }
      assert typed != "";
      SetAdminPassword(store, typed);
      newPass := "";
    }

    /** `handleGenerateCode`: a code for the general student, shown beside the course. */
    method HandleGenerateCode(courseId: string, freshCode: string)
      requires Valid()
      modifies this, store
      ensures Valid()
      ensures var g := GrantAccess(old(StoredPermissions(store)), GeneralStudent, courseId, freshCode);
        generatedCodes == old(generatedCodes)[courseId := g.code]
        && StoredPermissions(store) == g.permissions
      ensures forall k :: k != PermissionsKey ==> store.Get(k) == old(store.Get(k))
      ensures isAuthenticated == old(isAuthenticated) && config == old(config)
    {
      var code := GrantCourseAccess(store, GeneralStudent, courseId, freshCode);
      generatedCodes := generatedCodes[courseId := code];
    }

    /** `handleUnblock`. */
    method HandleUnblock(userId: string)
      requires Valid()
      modifies this, store
      ensures Valid()
      ensures blockedUsers == Toggle(old(StoredIds(store, BlockedKey)), userId)
      ensures store.items == old(store.items)[BlockedKey := Ids(blockedUsers)]
      ensures config == old(config) && isAuthenticated == old(isAuthenticated)
    {
      var _ := ToggleBlockUser(store, userId);
      blockedUsers := StoredIds(store, BlockedKey);
    }

    /** `handleDeleteUser`, after the confirmation dialog. */
    method HandleDeleteUser(email: string, confirmed: bool)
      requires Valid()
      modifies this, store
      ensures Valid()
      ensures !confirmed ==> store.items == old(store.items) && registeredUsers == old(registeredUsers)
      ensures confirmed ==> (registeredUsers == WithoutEmail(old(StoredUsers(store)), email)
        && store.items == old(store.items)[RegisteredUsersKey := Users(registeredUsers)])
      ensures config == old(config) && isAuthenticated == old(isAuthenticated)
    {
      if confirmed {
        registeredUsers := RemoveRegisteredUser(store, email);
      }
    }

    /** `handleClearChat`: with confirmation the history is removed, so the next read reseeds it. */
    method HandleClearChat(confirmed: bool)
      requires Valid()
      modifies store
      ensures Valid()
      ensures !confirmed ==> store.items == old(store.items)
      ensures confirmed ==> store.items == old(store.items) - {MessagesKey}
      ensures confirmed ==> forall h, hh :: CurrentMessages(store, h, hh) == SeedMessages(h, hh)
    {
      if confirmed {
        store.RemoveItem(MessagesKey);
      }
    }

    /** `handleClearLogs`. */
    method HandleClearLogs(confirmed: bool)
      requires Valid()
      modifies this, store
      ensures Valid()
      ensures !confirmed ==> store.items == old(store.items) && accessLogs == old(accessLogs)
      ensures confirmed ==> store.items == old(store.items) - {AccessLogsKey} && accessLogs == []
    {
      if confirmed {
        ClearAccessLogs(store);
        accessLogs := [];
      }
    }

    /** `handleFactoryReset`: with confirmation everything stored is erased (the reload is left out). */
    method HandleFactoryReset(confirmed: bool)
      requires Valid()
      modifies store
      ensures Valid()
      ensures !confirmed ==> store.items == old(store.items)
      ensures confirmed ==> store.items == map[] && GetAdminPassword(store) == DefaultAdminPassword
    {
      if confirmed {
        store.Clear();
      }
    }
  }
}
