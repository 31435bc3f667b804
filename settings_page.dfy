/**
 * The preferences screen of `components/SettingsPage.tsx`: the lion-roar sound and biometric
 * login switches, each written back to the store as `"true"`/`"false"`, and the erase button.
 */
module SettingsPage {
  import opened Wrappers
  import opened Storage
  import opened ChatService
  import opened Constants

  /** Biometric login is on only when the stored text is exactly `"true"`. */
  predicate BiometricsOn(stored: Option<Value>) {
    stored == Some(Raw("true"))
  }

  /**
   * The two readers disagree on what they default to: the sound is on unless switched off,
   * biometrics is off unless switched on; anything else stored counts as the default.
   */
  lemma PreferenceDefaults(stored: Option<Value>)
    ensures stored == None ==> LionRoarPlays(stored) && !BiometricsOn(stored)
    ensures stored != Some(Raw("true")) && stored != Some(Raw("false")) ==>
      LionRoarPlays(stored) && !BiometricsOn(stored)
  {
  }

  /** What a switch writes is read back as the switch's state. */
  lemma PreferenceReadsBack(b: bool)
    ensures LionRoarPlays(Some(Raw(BoolString(b)))) == b
    ensures BiometricsOn(Some(Raw(BoolString(b)))) == b
  {
  }

  class SettingsScreen {
    const store: Store
    var lionSound: bool
    var biometrics: bool

    ghost predicate Valid()
      reads this, store
    {
      store.Valid()
    }

    /** The first render together with the mount effect reading both preferences. */
    constructor(s: Store)
      requires s.Valid()
      ensures Valid() && store == s
      ensures lionSound == LionRoarPlays(s.Get(LionSoundKey))
      ensures biometrics == BiometricsOn(s.Get(BiometricsKey))
    {
      store := s;
      lionSound := s.Get(LionSoundKey) != Some(Raw("false"));
      biometrics := s.Get(BiometricsKey) == Some(Raw("true"));
    }

    /** `toggleLionSound`: the switch flips and the roar follows it. */
    method ToggleLionSound()
      requires Valid()
      modifies this, store
      ensures Valid()
      ensures lionSound == !old(lionSound) && biometrics == old(biometrics)
      ensures store.items == old(store.items)[LionSoundKey := Raw(BoolString(lionSound))]
      ensures LionRoarPlays(store.Get(LionSoundKey)) == lionSound
    {
      var newState := !lionSound;
      lionSound := newState;
      store.SetItem(LionSoundKey, Raw(BoolString(newState)));
      PreferenceReadsBack(newState);
    }

    /** `toggleBiometrics`: the switch flips and the landing screen's offer follows it. */
    method ToggleBiometrics()
      requires Valid()
      modifies this, store
      ensures Valid()
      ensures biometrics == !old(biometrics) && lionSound == old(lionSound)
      ensures store.items == old(store.items)[BiometricsKey := Raw(BoolString(biometrics))]
      ensures BiometricsOn(store.Get(BiometricsKey)) == biometrics
    {
      var newState := !biometrics;
      biometrics := newState;
      store.SetItem(BiometricsKey, Raw(BoolString(newState)));
      PreferenceReadsBack(newState);
    }

    /** `clearLocalData`: only on confirmation; afterwards both preferences read as their defaults. */
    method ClearLocalData(confirmed: bool)
      requires Valid()
      modifies store
      ensures Valid()
      ensures !confirmed ==> store.items == old(store.items)
      ensures confirmed ==> (store.items == map[]
        && LionRoarPlays(store.Get(LionSoundKey)) && !BiometricsOn(store.Get(BiometricsKey)))
    {
      if confirmed {
        store.Clear();
      }
    }
  }
}
