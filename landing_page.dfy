/**
 * The entry screen of `components/LandingPage.tsx`: a cover, a login form and a maintenance
 * notice. Logins are simulated: after a delay the form either shows an error or records the
 * user, logs the access and enables biometrics for the next visit. Each delayed step is a
 * pending timer; which one fires next is the caller's choice.
 */
module LandingPage {
  import opened Wrappers
  import opened Text
  import opened Records
  import opened Storage
  import opened ChatService

  datatype AuthMode = Cover | Login | Maintenance | Forgot

  /** What a pending timer does when it fires. */
  datatype Timer =
    | ShowError
    | AdminEntry
    | PerformLogin(email: string)
    | SendRecovery(email: string)

  const AdminEmail := "admin@iasd.com"
  const BackdoorPassword := "admin123"
  const LoginError := "E-mail ou senha incorretos."
  const BiometricEmail := "bio@user.com"
  const GoogleEmail := "google@gmail.com"
  const NewUserName := "Usuário"

  /** The screen shown for a mode: the maintenance notice, the cover, or (otherwise) the form. */
  predicate ShowsForm(mode: AuthMode) {
    mode != Maintenance && mode != Cover
  }

  /** The simulated validation: an empty e-mail or a password under four characters. */
  predicate Rejected(email: string, password: string) {
    email == "" || |password| < 4
  }

  predicate IsBackdoor(mode: AuthMode, email: string, password: string) {
    mode == Maintenance && email == AdminEmail && password == BackdoorPassword
  }

  /** The timer a form submission schedules. */
  function Submitted(mode: AuthMode, email: string, password: string): (t: Timer)
    ensures t == ShowError <==> Rejected(email, password)
    ensures t == AdminEntry <==> !Rejected(email, password) && IsBackdoor(mode, email, password)
    ensures t.PerformLogin? <==> !Rejected(email, password) && !IsBackdoor(mode, email, password)
    ensures t.PerformLogin? ==> t.email == email
    ensures !t.SendRecovery?
  {
    if Rejected(email, password) then ShowError
    else if IsBackdoor(mode, email, password) then AdminEntry
    else PerformLogin(email)
  }

  /**
   * The backdoor cannot be taken: it needs the maintenance mode, but the form is only on screen
   * in the other modes, so the admin's credentials go down the ordinary login path.
   */
  lemma BackdoorUnreachable(mode: AuthMode, email: string, password: string)
    requires ShowsForm(mode)
    ensures Submitted(mode, email, password) != AdminEntry
    ensures email == AdminEmail && password == BackdoorPassword ==>
      Submitted(mode, email, password) == PerformLogin(AdminEmail)
  {
  }

  /** The recovery notice names the e-mail typed, or a generic one when the field is empty. */
  function RecoveryMessage(email: string): (m: string)
    ensures email != "" ==> m == "Link de recuperação enviado para " + email
    ensures email == "" ==> m == "Link de recuperação enviado para seu e-mail"
    ensures |m| > |"Link de recuperação enviado para "|
  {
    "Link de recuperação enviado para " + (if email != "" then email else "seu e-mail")
  }

  predicate BiometricsEnabled(store: Store)
    reads store
  {
    store.Get(BiometricsKey) == Some(Raw("true"))
  }

  /** `performLogin`: record the user, log the access, enable biometrics; the caller signals success. */
  method PerformUserLogin(store: Store, userEmail: string, nowIso: string, nowMillis: nat, userAgent: string)
    requires store.Valid()
    modifies store
    ensures store.Valid()
    ensures var registered := RecordLogin(old(StoredUsers(store)), NewUserName, userEmail, nowIso,
        "user_" + NatToString(nowMillis));
      var logged := PrependLog(old(StoredLogs(store)), AccessLog(NatToString(nowMillis), userEmail, nowIso, userAgent));
      store.items == old(store.items)[RegisteredUsersKey := Users(registered)][AccessLogsKey := Logs(logged)]
        [BiometricsKey := Raw("true")]
    ensures BiometricsEnabled(store)
    ensures FindByEmail(StoredUsers(store), userEmail).Some?
  {
    RegisterUserLogin(store, NewUserName, userEmail, nowIso, nowMillis);
    ghost var users := store.Get(RegisteredUsersKey);
    assert FindByEmail(StoredUsers(store), userEmail).Some?;
    var _ := LogUserAccess(store, userEmail, nowMillis, nowIso, userAgent);
    store.SetItem(BiometricsKey, Raw("true"));
    assert store.Get(RegisteredUsersKey) == users;
  }

  class LandingScreen {
    const store: Store
    var mode: AuthMode
    var email: string
    var password: string
    var loading: bool
    var biometricsAvailable: bool
    var errorMessage: Option<string>
    var feedbackMessage: Option<string>
    var timers: seq<Timer>
    /** How many times `onLoginSuccess` was called. */
    var successes: nat

    ghost predicate Valid()
      reads this, store
    {
      store.Valid() && mode != Forgot
    }

    /** The first render together with the mount effect. */
    constructor(s: Store)
      requires s.Valid()
      ensures Valid() && store == s
      ensures mode == (if IsAppInMaintenance(s) then Maintenance else Cover)
      ensures biometricsAvailable <==> BiometricsEnabled(s)
      ensures email == "" && password == "" && !loading && errorMessage == None && feedbackMessage == None
      ensures timers == [] && successes == 0
    {
      store := s;
      mode := if IsAppInMaintenance(s) then Maintenance else Cover;
      biometricsAvailable := s.Get(BiometricsKey) == Some(Raw("true"));
      email := "";
      password := "";
      loading := false;
      errorMessage := None;
      feedbackMessage := None;
      timers := [];
      successes := 0;
    }

    /** `handleEnterClick`: the cover opens the form unless the app is in maintenance. */
    method EnterClick()
      requires Valid()
      modifies this
      ensures Valid()
      ensures mode == if old(mode) == Maintenance then Maintenance else Login
      ensures timers == old(timers) && errorMessage == old(errorMessage) && successes == old(successes)
    {
      if mode == Maintenance {
        return;
      }
      mode := Login;
    }

    /** The "Admin Access" button of the maintenance notice. */
    method AdminAccess()
      requires Valid()
      modifies this
      ensures Valid() && mode == Login && ShowsForm(mode)
      ensures timers == old(timers) && errorMessage == old(errorMessage) && successes == old(successes)
    {
      mode := Login;
    }

    /** The back arrow: to the cover, with both messages cleared. */
    method Back()
      requires Valid()
      modifies this
      ensures Valid() && mode == Cover && errorMessage == None && feedbackMessage == None
      ensures timers == old(timers) && loading == old(loading) && successes == old(successes)
    {
      mode := Cover;
      errorMessage := None;
      feedbackMessage := None;
    }

    /** Typing into the two fields. */
    method Type(newEmail: string, newPassword: string)
      requires Valid()
      modifies this
      ensures Valid() && email == newEmail && password == newPassword
      ensures mode == old(mode) && timers == old(timers) && successes == old(successes)
    {
      email := newEmail;
      password := newPassword;
    }

    /** `handleLogin`, submitted from the form (which is on screen only outside the cover and maintenance). */
    method HandleLogin()
      requires Valid() && ShowsForm(mode) && !loading
      modifies this
      ensures Valid() && loading && errorMessage == None
      ensures timers == old(timers) + [Submitted(old(mode), old(email), old(password))]
      ensures AdminEntry !in timers[|old(timers)|..]
      ensures mode == old(mode) && email == old(email) && successes == old(successes)
    {
      errorMessage := None;
      loading := true;
      BackdoorUnreachable(mode, email, password);
      timers := timers + [Submitted(mode, email, password)];
    }

    /** `handleBiometricAuth`. */
    method HandleBiometricAuth()
      requires Valid()
      modifies this
      ensures Valid() && loading && timers == old(timers) + [PerformLogin(BiometricEmail)]
      ensures mode == old(mode) && errorMessage == old(errorMessage) && successes == old(successes)
    {
      loading := true;
      timers := timers + [PerformLogin(BiometricEmail)];
    }

    /** `handleGoogleLogin`. */
    method HandleGoogleLogin()
      requires Valid()
      modifies this
      ensures Valid() && loading && timers == old(timers) + [PerformLogin(GoogleEmail)]
      ensures mode == old(mode) && errorMessage == old(errorMessage) && successes == old(successes)
    {
      loading := true;
      timers := timers + [PerformLogin(GoogleEmail)];
    }

    /** `handleForgotPassword`: the e-mail is taken when the link is pressed. */
    method HandleForgotPassword()
      requires Valid()
      modifies this
      ensures Valid() && loading && timers == old(timers) + [SendRecovery(old(email))]
      ensures mode == old(mode) && errorMessage == old(errorMessage) && successes == old(successes)
    {
      loading := true;
      timers := timers + [SendRecovery(email)];
    }

    /** Pending timer `i` fires: loading ends and its step runs. */
    method TimerFires(i: nat, nowIso: string, nowMillis: nat, userAgent: string)
      requires Valid() && i < |timers|
      modifies this, store
      ensures Valid() && !loading && mode == old(mode)
      ensures timers == old(timers[..i] + timers[i + 1..])
      ensures old(timers[i]) == ShowError ==>
        errorMessage == Some(LoginError) && successes == old(successes) && store.items == old(store.items)
      ensures old(timers[i]) == AdminEntry ==>
        successes == old(successes) + 1 && store.items == old(store.items)
      ensures old(timers[i]).PerformLogin? ==>
        successes == old(successes) + 1 && BiometricsEnabled(store)
        && FindByEmail(StoredUsers(store), old(timers[i]).email).Some?
        && store.items == old(store.items)
          [RegisteredUsersKey := Users(RecordLogin(old(StoredUsers(store)), NewUserName, old(timers[i]).email, nowIso,
            "user_" + NatToString(nowMillis)))]
          [AccessLogsKey := Logs(PrependLog(old(StoredLogs(store)),
            AccessLog(NatToString(nowMillis), old(timers[i]).email, nowIso, userAgent)))]
          [BiometricsKey := Raw("true")]
      ensures old(timers[i]).SendRecovery? ==>
        errorMessage == None && feedbackMessage == Some(RecoveryMessage(old(timers[i]).email))
        && successes == old(successes) && store.items == old(store.items)
    {
      var t := timers[i];
      timers := timers[..i] + timers[i + 1..];
      loading := false;
      match t
      case ShowError =>
        errorMessage := Some(LoginError);
      case AdminEntry =>
        successes := successes + 1;
      case PerformLogin(userEmail) =>
        PerformUserLogin(store, userEmail, nowIso, nowMillis, userAgent);
        successes := successes + 1;
      case SendRecovery(typed) =>
        errorMessage := None;
        feedbackMessage := Some(RecoveryMessage(typed));
    }
  }

  /** A submission from the form never enters without the user being recorded. */
  lemma FormNeverSkipsRecording(mode: AuthMode, email: string, password: string)
    requires ShowsForm(mode)
    ensures Submitted(mode, email, password) == ShowError || Submitted(mode, email, password) == PerformLogin(email)
  {
    BackdoorUnreachable(mode, email, password);
  }
}
