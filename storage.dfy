/**
 * The extension's synced key-value storage as one mutable object shared by
 * the service worker, the options form and the popup. Each `set`/`remove`
 * call is appended to `writes` as the set of keys it touched: that is the
 * change notification the service worker receives.
 */
module Storage {
  import opened Wrappers
  import opened Rules

  /** The storage keys the extension reads and writes. */
  datatype Key = EnabledKey | ProfilesKey | LastRandomizeTimeKey | UpdatingKey
               | SpoofIpKey | PreviousKey | HeadersKey

  class Store {
    /** `enabled`: the global on/off switch. */
    var enabled: Option<bool>
    /** `profiles` */
    var profiles: Option<seq<Profile>>
    /** `lastRandomizeTime`: seconds of the last regeneration, by profile id. */
    var lastRandomizeTime: Option<map<int, int>>
    /** Presence of the `_updating` marker. */
    var updating: bool
    /** The keys of the pre-1.0 settings layout. */
    var spoofIp: Option<string>
    var previous: Option<seq<string>>
    var legacyHeaders: Option<seq<string>>
    /** The key sets of the writes made so far, oldest first. */
    var writes: seq<set<Key>>

    /** A store holding the given values and no write history. */
    constructor (enabled: Option<bool>, profiles: Option<seq<Profile>>, lastRandomizeTime: Option<map<int, int>>,
                 spoofIp: Option<string>, previous: Option<seq<string>>, legacyHeaders: Option<seq<string>>)
      ensures this.enabled == enabled && this.profiles == profiles && this.lastRandomizeTime == lastRandomizeTime
      ensures !updating && this.spoofIp == spoofIp && this.previous == previous && this.legacyHeaders == legacyHeaders
      ensures writes == []
    {
      this.enabled := enabled;
      this.profiles := profiles;
      this.lastRandomizeTime := lastRandomizeTime;
      this.updating := false;
      this.spoofIp := spoofIp;
      this.previous := previous;
      this.legacyHeaders := legacyHeaders;
      this.writes := [];
    }

    /** `set({profiles, _updating: true})` */
    method SetProfilesUpdating(ps: seq<Profile>)
      modifies this
      ensures profiles == Some(ps) && updating
      ensures writes == old(writes) + [{ProfilesKey, UpdatingKey}]
      ensures enabled == old(enabled) && lastRandomizeTime == old(lastRandomizeTime)
      ensures spoofIp == old(spoofIp) && previous == old(previous) && legacyHeaders == old(legacyHeaders)
    {
      profiles := Some(ps);
      updating := true;
      writes := writes + [{ProfilesKey, UpdatingKey}];
    }

    /** `set({profiles})` */
    method SetProfiles(ps: seq<Profile>)
      modifies this
      ensures profiles == Some(ps)
      ensures writes == old(writes) + [{ProfilesKey}]
      ensures enabled == old(enabled) && lastRandomizeTime == old(lastRandomizeTime) && updating == old(updating)
      ensures spoofIp == old(spoofIp) && previous == old(previous) && legacyHeaders == old(legacyHeaders)
    {
      profiles := Some(ps);
      writes := writes + [{ProfilesKey}];
    }

    /** `set({enabled})` */
    method SetEnabled(e: bool)
      modifies this
      ensures enabled == Some(e)
      ensures writes == old(writes) + [{EnabledKey}]
      ensures profiles == old(profiles) && lastRandomizeTime == old(lastRandomizeTime) && updating == old(updating)
      ensures spoofIp == old(spoofIp) && previous == old(previous) && legacyHeaders == old(legacyHeaders)
    {
      enabled := Some(e);
      writes := writes + [{EnabledKey}];
    }

    /** `set({profiles, enabled})` */
    method SetProfilesAndEnabled(ps: seq<Profile>, e: bool)
      modifies this
      ensures profiles == Some(ps) && enabled == Some(e)
      ensures writes == old(writes) + [{ProfilesKey, EnabledKey}]
      ensures lastRandomizeTime == old(lastRandomizeTime) && updating == old(updating)
      ensures spoofIp == old(spoofIp) && previous == old(previous) && legacyHeaders == old(legacyHeaders)
    {
      profiles := Some(ps);
      enabled := Some(e);
      writes := writes + [{ProfilesKey, EnabledKey}];
    }

    /** `set({lastRandomizeTime})` */
    method SetLastRandomizeTime(times: map<int, int>)
      modifies this
      ensures lastRandomizeTime == Some(times)
      ensures writes == old(writes) + [{LastRandomizeTimeKey}]
      ensures enabled == old(enabled) && profiles == old(profiles) && updating == old(updating)
      ensures spoofIp == old(spoofIp) && previous == old(previous) && legacyHeaders == old(legacyHeaders)
    {
      lastRandomizeTime := Some(times);
      writes := writes + [{LastRandomizeTimeKey}];
    }

    /** `remove('_updating')` */
    method RemoveUpdating()
      modifies this
      ensures !updating
      ensures writes == old(writes) + [{UpdatingKey}]
      ensures enabled == old(enabled) && profiles == old(profiles) && lastRandomizeTime == old(lastRandomizeTime)
      ensures spoofIp == old(spoofIp) && previous == old(previous) && legacyHeaders == old(legacyHeaders)
    {
      updating := false;
      writes := writes + [{UpdatingKey}];
    }

    /** `remove(["spoofIp", "previous", "headers"])` */
    method RemoveLegacyKeys()
      modifies this
      ensures spoofIp.None? && previous.None? && legacyHeaders.None?
      ensures writes == old(writes) + [{SpoofIpKey, PreviousKey, HeadersKey}]
      ensures enabled == old(enabled) && profiles == old(profiles)
      ensures lastRandomizeTime == old(lastRandomizeTime) && updating == old(updating)
    {
      spoofIp := None;
      previous := None;
      legacyHeaders := None;
      writes := writes + [{SpoofIpKey, PreviousKey, HeadersKey}];
    }
  }
}
