/**
 * The popup: the enabled-profile count it displays, the quick toggle of one
 * profile, and the global on/off switch, each written straight back to the
 * store.
 */
module Popup {
  import opened Wrappers
  import opened Rules
  import opened Storage

  /** The count shown: the enabled profiles, or 0 while the extension is off. */
  function DisplayedCount(enabled: bool, ps: seq<Profile>): (n: nat)
    ensures n <= |ps|
    ensures !enabled ==> n == 0
    ensures enabled ==> n == |EnabledProfiles(ps)|
  {
    if enabled then |EnabledProfiles(ps)| else 0
  }

  /** The `map` of `_toggleProfile`: every profile with the id has `enabled` negated. */
  function ToggledProfiles(ps: seq<Profile>, id: int): (r: seq<Profile>)
    ensures |r| == |ps|
    ensures forall k :: 0 <= k < |ps| ==>
              r[k] == ps[k].(enabled := r[k].enabled) && (r[k].enabled <==> (ps[k].enabled != (ps[k].id == id)))
  {
    seq(|ps|, k requires 0 <= k < |ps| => if ps[k].id == id then ps[k].(enabled := !ps[k].enabled) else ps[k])
  }

  /** Toggling the same id twice restores the list. */
  lemma ToggleTwice(ps: seq<Profile>, id: int)
    ensures ToggledProfiles(ToggledProfiles(ps, id), id) == ps
  {
    var once := ToggledProfiles(ps, id);
    var twice := ToggledProfiles(once, id);
    forall k | 0 <= k < |ps| ensures twice[k] == ps[k] {
      assert once[k].id == ps[k].id;
    }
  }

  /** The number of profiles with the id whose `enabled` is `state`. */
  function MatchCount(ps: seq<Profile>, id: int, state: bool): (n: nat)
    ensures n <= |ps|
  {
    if ps == [] then 0
    else (if ps[0].id == id && ps[0].enabled == state then 1 else 0) + MatchCount(ps[1..], id, state)
  }

  /**
   * The toggle moves the count by the matching profiles: those that were on
   * no longer count, those that were off now do. With one profile per id the
   * count goes up or down by exactly one.
   */
  lemma {:induction false} ToggleCount(ps: seq<Profile>, id: int)
    ensures |EnabledProfiles(ToggledProfiles(ps, id))| + MatchCount(ps, id, true)
            == |EnabledProfiles(ps)| + MatchCount(ps, id, false)
  {
    if ps != [] {
      var t := ToggledProfiles(ps, id);
      assert t[1..] == ToggledProfiles(ps[1..], id);
      assert t == [t[0]] + t[1..];
      ToggleCount(ps[1..], id);
    }
  }

  class ActionScreen {
    const store: Store
    /** `_enabled` */
    var enabled: bool
    /** `_profiles` */
    var profiles: seq<Profile>

    constructor (store: Store)
      ensures this.store == store && !enabled && profiles == []
    {
      this.store := store;
      enabled := false;
      profiles := [];
    }

    /** `connectedCallback`: a missing `enabled` reads as off, missing `profiles` as none. */
    method Load()
      modifies this`enabled, this`profiles
      ensures enabled == (store.enabled == Some(true))
      ensures profiles == store.profiles.GetOr([])
    {
      enabled := store.enabled.Some? && store.enabled.value;
      profiles := store.profiles.GetOr([]);
    }

    /** `_toggleProfile`: the toggled list replaces the local one and is written to the store. */
    method ToggleProfile(profileId: int)
      modifies this`profiles, store
      ensures profiles == ToggledProfiles(old(profiles), profileId)
      ensures store.profiles == Some(profiles)
      ensures store.writes == old(store.writes) + [{ProfilesKey}]
      ensures store.enabled == old(store.enabled) && store.lastRandomizeTime == old(store.lastRandomizeTime)
      ensures store.updating == old(store.updating)
      ensures store.spoofIp == old(store.spoofIp) && store.previous == old(store.previous)
      ensures store.legacyHeaders == old(store.legacyHeaders)
    {
      var updatedProfiles := ToggledProfiles(profiles, profileId);
      profiles := updatedProfiles;
      store.SetProfiles(updatedProfiles);
    }

    /** `_toggleEnabled`: negate the switch and write exactly `enabled`. */
    method ToggleEnabled()
      modifies this`enabled, store
      ensures enabled == !old(enabled)
      ensures store.enabled == Some(enabled)
      ensures store.writes == old(store.writes) + [{EnabledKey}]
      ensures store.profiles == old(store.profiles) && store.lastRandomizeTime == old(store.lastRandomizeTime)
      ensures store.updating == old(store.updating)
      ensures store.spoofIp == old(store.spoofIp) && store.previous == old(store.previous)
      ensures store.legacyHeaders == old(store.legacyHeaders)
    {
      enabled := !enabled;
      store.SetEnabled(enabled);
    }
  }
}
