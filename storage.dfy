/**
 * The browser's `localStorage` as the application uses it: one map from key to stored value.
 * Values are kept already decoded; `Corrupt` stands for text that `JSON.parse` rejects.
 */
module Storage {
  import opened Wrappers
  import opened Records

  datatype Value =
    | Raw(text: string)
    | Messages(messages: seq<ChatMessage>)
    | Ids(ids: seq<string>)
    | Logs(logs: seq<AccessLog>)
    | Users(users: seq<ChatUser>)
    | Permissions(permissions: seq<CoursePermission>)
    | Config(config: AdminConfig)
    | Notes(notes: map<string, string>)
    | Progress(progress: map<string, Option<int>>)
    | Position(lastRead: LastRead)
    | Corrupt

  // Keys of the chat service
  const MessagesKey := "bible_chat_messages"
  const BlockedKey := "bible_chat_blocked_users"
  const AddedKey := "bible_chat_added_users"
  const CustomFilterKey := "bible_chat_custom_filter"
  const AdminConfigKey := "bible_chat_admin_config"
  const AdminPassKey := "bible_chat_admin_pass"
  const PermissionsKey := "bible_course_permissions"
  const RegisteredUsersKey := "bible_app_registered_users"
  const MaintenanceKey := "bible_app_maintenance_mode"
  const AccessLogsKey := "bible_app_access_logs"
  // Keys of the screens
  const LastReadKey := "bible_last_read"
  const VersionPrefKey := "bible_version_pref"
  const NotesKey := "bible_user_notes"
  const ProgressKey := "bible_courses_progress"
  const LionSoundKey := "bible_lion_sound_enabled"
  const BiometricsKey := "bible_biometrics_enabled"

  /**
   * What each key may hold. Keys whose readers catch a parse error may also hold `Corrupt`;
   * keys read without a `try` must hold their own shape, or the read would throw.
   */
  predicate Fits(key: string, v: Value) {
    if key == MessagesKey then v.Messages? || v.Corrupt?
    else if key == AccessLogsKey then v.Logs? || v.Corrupt?
    else if key == RegisteredUsersKey then v.Users? || v.Corrupt?
    else if key == PermissionsKey then v.Permissions? || v.Corrupt?
    else if key == CustomFilterKey then v.Ids? || v.Corrupt?
    else if key == LastReadKey then v.Position? || v.Corrupt?
    else if key == BlockedKey || key == AddedKey then v.Ids?
    else if key == AdminConfigKey then v.Config?
    else if key == NotesKey then v.Notes?
    else if key == ProgressKey then v.Progress?
    else if key in {AdminPassKey, MaintenanceKey, VersionPrefKey, LionSoundKey, BiometricsKey} then v.Raw?
    else true
  }

  predicate WellTyped(items: map<string, Value>) {
    forall k :: k in items ==> Fits(k, items[k])
  }

  class Store {
    var items: map<string, Value>

    ghost predicate Valid()
      reads this
    {
      WellTyped(items)
    }

    constructor()
      ensures items == map[] && Valid()
    {
      items := map[];
    }

    /** `localStorage.getItem(key)`, `None` standing for `null`. */
    function Get(key: string): (r: Option<Value>)
      reads this
      ensures r.Some? <==> key in items
      ensures r.Some? ==> r.value == items[key]
    {
      if key in items then Some(items[key]) else None
    }

    method SetItem(key: string, v: Value)
      requires Valid() && Fits(key, v)
      modifies this
      ensures items == old(items)[key := v]
      ensures Valid()
    {
      items := items[key := v];
    }

    method RemoveItem(key: string)
      requires Valid()
      modifies this
      ensures items == old(items) - {key}
      ensures Valid()
    {
      items := items - {key};
    }

    /** `localStorage.clear()`. */
    method Clear()
      modifies this
      ensures items == map[] && Valid()
    {
      items := map[];
    }
  }
}
