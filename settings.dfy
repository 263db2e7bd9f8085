/**
 * User settings: the language, whether lunar dates are shown and whether reminders are on.
 * They start from the stored copy merged over the defaults, change by merging partial
 * updates, and drive the two-language lookup `t`. Reading and writing browser storage is
 * outside the model; what was read is an input.
 */
module Settings {
  import opened Wrappers

  datatype Language = Vi | En

  datatype Settings = Settings(language: Language, showLunar: bool, notificationsEnabled: bool)

  /** `Partial<Settings>`: an absent key leaves the setting alone. */
  datatype SettingsPatch = SettingsPatch(language: Option<Language>, showLunar: Option<bool>,
                                         notificationsEnabled: Option<bool>)

  /** `defaultSettings`. */
  const DefaultSettings := Settings(Vi, true, true)

  const NoChange := SettingsPatch(None, None, None)

  /** `{ ...s, ...p }`. */
  function Apply(s: Settings, p: SettingsPatch): (r: Settings)
    ensures r.language == p.language.GetOr(s.language)
    ensures r.showLunar == p.showLunar.GetOr(s.showLunar)
    ensures r.notificationsEnabled == p.notificationsEnabled.GetOr(s.notificationsEnabled)
  {
    Settings(p.language.GetOr(s.language), p.showLunar.GetOr(s.showLunar),
             p.notificationsEnabled.GetOr(s.notificationsEnabled))
  }

  /** `{ ...p, ...q }`: the keys of `q` win. */
  function Then(p: SettingsPatch, q: SettingsPatch): SettingsPatch {
    SettingsPatch(if q.language.Some? then q.language else p.language,
                  if q.showLunar.Some? then q.showLunar else p.showLunar,
                  if q.notificationsEnabled.Some? then q.notificationsEnabled else p.notificationsEnabled)
  }

  /** Merging changes nothing for an empty update, merging the same update twice is merging
      it once, and two updates in a row are one combined update. */
  lemma ApplyLaws(s: Settings, p: SettingsPatch, q: SettingsPatch)
    ensures Apply(s, NoChange) == s
    ensures Apply(Apply(s, p), p) == Apply(s, p)
    ensures Apply(Apply(s, p), q) == Apply(s, Then(p, q))
  {
  }

  /** What the stored settings turned out to be: nothing (or an empty string), text that is
      not JSON, or an object with some of the keys. */
  datatype Stored = Absent | Unparseable | Parsed(fields: SettingsPatch)

  /** The initial state: the stored keys over the defaults, or the defaults. */
  function LoadSettings(stored: Stored): (r: Settings)
    ensures stored.Parsed? ==> r == Apply(DefaultSettings, stored.fields)
    ensures !stored.Parsed? ==> r == DefaultSettings
  {
    match stored
    case Absent => DefaultSettings
    case Unparseable => DefaultSettings
    case Parsed(fields) => Apply(DefaultSettings, fields)
  }

  /** A stored copy of a full settings record loads back as that record. */
  lemma LoadSavedSettings(s: Settings)
    ensures LoadSettings(Parsed(SettingsPatch(Some(s.language), Some(s.showLunar), Some(s.notificationsEnabled)))) == s
  {
  }

  /** The settings provider's state. */
  class SettingsStore {
    var settings: Settings

    constructor (stored: Stored)
      ensures settings == LoadSettings(stored)
    {
      settings := LoadSettings(stored);
    }

    /** `updateSettings`: exactly the provided keys change. */
    method UpdateSettings(updates: SettingsPatch)
      modifies this
      ensures settings == Apply(old(settings), updates)
    {
      settings := Apply(settings, updates);
    }

    /** `t`, in the current language. */
    method Translate(key: string) returns (text: string)
      ensures text == T(settings.language, key)
    {
      text := T(settings.language, key);
    }
  }

  // ---------------------------------------------------------------- translations

  const ViStrings: map<string, string> := map[
    "settings" := "Cài đặt",
    "language" := "Ngôn ngữ",
    "vietnamese" := "Tiếng Việt",
    "english" := "English",
    "show_lunar" := "Hiển thị Âm lịch",
    "notifications" := "Thông báo",
    "enable_notifications" := "Bật thông báo",
    "account" := "Tài khoản",
    "help" := "Trợ giúp",
    "sign_out" := "Đăng xuất",
    "lunar" := "Âm lịch"
  ]

  const EnStrings: map<string, string> := map[
    "settings" := "Settings",
    "language" := "Language",
    "vietnamese" := "Tiếng Việt",
    "english" := "English",
    "show_lunar" := "Show Lunar Calendar",
    "notifications" := "Notifications",
    "enable_notifications" := "Enable notifications",
    "account" := "Account",
    "help" := "Help",
    "sign_out" := "Sign Out",
    "lunar" := "Lunar"
  ]

  /** `translations`. */
  function Translations(lang: Language): map<string, string> {
    match lang
    case Vi => ViStrings
    case En => EnStrings
  }

  /** `translations[language][key] || key`. */
  function T(lang: Language, key: string): (text: string)
    ensures key in Translations(lang) && Translations(lang)[key] != "" ==> text == Translations(lang)[key]
    ensures key !in Translations(lang) ==> text == key
  {
    var table := Translations(lang);
    if key in table && table[key] != "" then table[key] else key
  }

  /** Both languages translate the same keys, each to a non-empty text. */
  lemma SameKeys()
    ensures ViStrings.Keys == EnStrings.Keys
    ensures forall k :: k in ViStrings ==> ViStrings[k] != "" && EnStrings[k] != ""
  {
  }

  /** So `t` falls back to the key itself in one language exactly when it does in the
      other. */
  lemma FallbackAgrees(key: string)
    ensures T(Vi, key) == key <==> T(En, key) == key
  {
    SameKeys();
    if key in ViStrings {
      assert ViStrings[key] != key;
      assert EnStrings[key] != key;
    }
  }
}
