/**
 * The service worker: reconciling the installed rule set with the stored
 * settings (`updateFromSettings`), the periodic regeneration of randomized
 * profiles (`updateRandomizedProfiles`), install defaults and the migration
 * of pre-1.0 settings (`onInstalled`), and the `_updating` guard on change
 * notifications (`onChanged`). Each handler runs to completion against the
 * shared store; the random draws it may consume are parameters.
 */
module Worker {
  import opened Wrappers
  import opened Text
  import opened IpValidation
  import opened Address
  import opened Rules
  import opened Storage

  // ---------------------------------------------------------------------
  // Random draws

  /** The draws of one `getRandomSubset` call: the size draw and the shuffle. */
  datatype SubsetDraw = SubsetDraw(size: nat, order: seq<nat>)

  predicate ValidSubsetDraw(sd: SubsetDraw, n: nat) {
    IsPermutation(sd.order, n) && (n > 0 ==> sd.size < n)
  }

  /** The draws a handler may consume, by profile position. */
  datatype Randomness = Randomness(address: nat -> AddressDraw, subset: nat -> SubsetDraw)

  ghost predicate ValidAddressSupply(address: nat -> AddressDraw) {
    forall k: nat :: ValidAddressDraw(address(k))
  }

  ghost predicate ValidRandomness(rnd: Randomness, ps: seq<Profile>) {
    ValidAddressSupply(rnd.address)
    && forall k :: 0 <= k < |ps| ==> ValidSubsetDraw(rnd.subset(k), |ps[k].headers|)
  }

  // ---------------------------------------------------------------------
  // updateFromSettings, as a function of the settings it reads

  /** A profile that randomizes its address but holds none yet (`"auto"` or empty). */
  predicate NeedsAddress(p: Profile) {
    p.randomizeIp && (p.value == "auto" || p.value == "")
  }

  function FillAddress(p: Profile, d: AddressDraw): Profile
    requires ValidAddressDraw(d)
  {
    if NeedsAddress(p) then p.(value := RandomIp(p.useIPv6, d)) else p
  }

  /** The profiles after the address fill, the k-th using the k-th draw. */
  function FilledProfiles(ps: seq<Profile>, address: nat -> AddressDraw): (r: seq<Profile>)
    requires ValidAddressSupply(address)
    ensures |r| == |ps|
  {
    seq(|ps|, k requires 0 <= k < |ps| => FillAddress(ps[k], address(k)))
  }

  predicate AnyNeedsAddress(ps: seq<Profile>) {
    exists k :: 0 <= k < |ps| && NeedsAddress(ps[k])
  }

  /** The rules of the enabled profiles, in list order. */
  function CompileRules(ps: seq<Profile>): (rules: seq<Rule>)
    ensures |rules| == |EnabledProfiles(ps)|
  {
    var enabled := EnabledProfiles(ps);
    seq(|enabled|, k requires 0 <= k < |enabled| => ConvertProfileToRule(enabled[k]))
  }

  /** Both `enabled` and `profiles` are truthy (an empty profile list is). */
  predicate Active(enabled: Option<bool>, profiles: Option<seq<Profile>>) {
    enabled == Some(true) && profiles.Some?
  }

  /** What one reconciliation does: the profile write (with `_updating`), the rule update, the icon. */
  datatype Reconciliation = Reconciliation(profileWrite: Option<seq<Profile>>, update: Option<RuleUpdate>, iconActive: bool)

  function Reconcile(enabled: Option<bool>, profiles: Option<seq<Profile>>, installed: seq<Rule>,
                     address: nat -> AddressDraw): Reconciliation
    requires ValidAddressSupply(address)
  {
    if !Active(enabled, profiles) then
      Reconciliation(None, if |installed| > 0 then Some(DeclarativeUpdate([], installed)) else None, false)
    else
      var filled := FilledProfiles(profiles.value, address);
      var written := if AnyNeedsAddress(profiles.value) then Some(filled) else None;
      var current := if written.Some? then filled else profiles.value;
      Reconciliation(written, Some(DeclarativeUpdate(CompileRules(current), installed)), true)
  }

  /** The rule set installed after a reconciliation whose update the browser accepted. */
  function InstalledAfter(installed: seq<Rule>, rec: Reconciliation): seq<Rule> {
    if rec.update.Some? then ApplyRuleUpdate(installed, rec.update.value) else installed
  }

  // ---------------------------------------------------------------------
  // updateRandomizedProfiles, as a function of the settings it reads

  /** `profile.randomizeInterval || 5`: absent, 0 and NaN all read as 5 seconds. */
  function Interval(p: Profile): int {
    if p.randomizeInterval.None? || p.randomizeInterval.value == 0 then 5 else p.randomizeInterval.value
  }

  /** `lastRandomizeTime[profile.id] || 0` */
  function LastUpdate(times: map<int, int>, id: int): int {
    if id in times then times[id] else 0
  }

  /** Whether the profile is regenerated at time `now`. */
  predicate Due(p: Profile, times: map<int, int>, now: int) {
    (p.randomizeIp || p.randomizeHeaders) && p.enabled && now - LastUpdate(times, p.id) >= Interval(p)
  }

  /** `{...profile, ...updates}`: a new address if randomizeIp, a new header subset if randomizeHeaders. */
  function Regenerate(p: Profile, d: AddressDraw, sd: SubsetDraw): Profile
    requires ValidAddressDraw(d) && ValidSubsetDraw(sd, |p.headers|)
  {
    var withValue := if p.randomizeIp then p.(value := RandomIp(p.useIPv6, d)) else p;
    if p.randomizeHeaders && |p.headers| > 0 then
      withValue.(activeHeaders := Some(GetRandomSubset(p.headers, p.randomHeaderCount, sd.size, sd.order)))
    else withValue
  }

  /** The state of the tick after the first `n` profiles: new profiles, timestamps, and whether any was due. */
  datatype TickState = TickState(profiles: seq<Profile>, times: map<int, int>, updated: bool)

  function TickUpTo(ps: seq<Profile>, times0: map<int, int>, now: int, rnd: Randomness, n: nat): (t: TickState)
    requires n <= |ps| && ValidRandomness(rnd, ps)
    ensures |t.profiles| == n
  {
    if n == 0 then TickState([], times0, false)
    else
      var s := TickUpTo(ps, times0, now, rnd, n - 1);
      var p := ps[n - 1];
      if Due(p, s.times, now) then
        TickState(s.profiles + [Regenerate(p, rnd.address(n - 1), rnd.subset(n - 1))], s.times[p.id := now], true)
      else
        TickState(s.profiles + [p], s.times, s.updated)
  }

  function Tick(ps: seq<Profile>, times0: map<int, int>, now: int, rnd: Randomness): TickState
    requires ValidRandomness(rnd, ps)
  {
    TickUpTo(ps, times0, now, rnd, |ps|)
  }

  /** The address-fill loop of `updateFromSettings`. */
  method FillAddresses(ps: seq<Profile>, address: nat -> AddressDraw) returns (updatedProfiles: seq<Profile>, profilesUpdated: bool)
    requires ValidAddressSupply(address)
    ensures updatedProfiles == FilledProfiles(ps, address)
    ensures profilesUpdated <==> AnyNeedsAddress(ps)
  {
    ghost var filled := FilledProfiles(ps, address);
    profilesUpdated := false;
    updatedProfiles := [];
    var i := 0;
    while i < |ps|
      invariant 0 <= i <= |ps|
      invariant updatedProfiles == filled[..i]
      invariant profilesUpdated <==> exists k :: 0 <= k < i && NeedsAddress(ps[k])
    {
      var profile := ps[i];
      if profile.randomizeIp && (profile.value == "auto" || profile.value == "") {
        profilesUpdated := true;
        var ip := GenerateRandomIp(profile.useIPv6, address(i));
        profile := profile.(value := ip);
      }
      assert profile == filled[i];
      assert filled[..i + 1] == filled[..i] + [filled[i]];
      updatedProfiles := updatedProfiles + [profile];
      i := i + 1;
    }
    assert filled[..i] == filled;
  }

  /** The loop of `updateRandomizedProfiles` over the profiles, threading the timestamp map. */
  method RandomizeProfiles(ps: seq<Profile>, times: map<int, int>, now: int, rnd: Randomness) returns (t: TickState)
    requires ValidRandomness(rnd, ps)
    ensures t == Tick(ps, times, now, rnd)
  {
    var lastRandomizeTime := times;
    var profilesUpdated := false;
    var updatedProfiles: seq<Profile> := [];
    var i := 0;
    while i < |ps|
      invariant 0 <= i <= |ps|
      invariant TickUpTo(ps, times, now, rnd, i) == TickState(updatedProfiles, lastRandomizeTime, profilesUpdated)
    {
      ghost var before := TickState(updatedProfiles, lastRandomizeTime, profilesUpdated);
      ghost var due := Due(ps[i], lastRandomizeTime, now);
      var profile := ps[i];
      var shouldRandomize := (profile.randomizeIp || profile.randomizeHeaders) && profile.enabled;
      if shouldRandomize {
        var interval := if profile.randomizeInterval.None? || profile.randomizeInterval.value == 0 then 5
                        else profile.randomizeInterval.value;
        var lastUpdate := if profile.id in lastRandomizeTime then lastRandomizeTime[profile.id] else 0;
        if now - lastUpdate >= interval {
          profilesUpdated := true;
          lastRandomizeTime := lastRandomizeTime[profile.id := now];
          if profile.randomizeIp {
            var ip := GenerateRandomIp(profile.useIPv6, rnd.address(i));
            profile := profile.(value := ip);
          }
          if profile.randomizeHeaders && |profile.headers| > 0 {
            var sd := rnd.subset(i);
            profile := profile.(activeHeaders := Some(GetRandomSubset(profile.headers, profile.randomHeaderCount, sd.size, sd.order)));
          }
        }
      }
      assert profile == if due then Regenerate(ps[i], rnd.address(i), rnd.subset(i)) else ps[i];
      assert lastRandomizeTime == if due then before.times[ps[i].id := now] else before.times;
      updatedProfiles := updatedProfiles + [profile];
      i := i + 1;
    }
    t := TickState(updatedProfiles, lastRandomizeTime, profilesUpdated);
  }

  // ---------------------------------------------------------------------
  // onInstalled

  datatype InstallReason = Install | Update | ChromeUpdate | SharedModuleUpdate

  /** `previousVersion?.startsWith("0.")` */
  predicate IsLegacyVersion(previousVersion: Option<string>) {
    previousVersion.Some? && StartsWith(previousVersion.value, "0.")
  }

  predicate Migrates(reason: InstallReason, previousVersion: Option<string>) {
    reason == Update && IsLegacyVersion(previousVersion)
  }

  /** A profile created by the migration: no domain filter, no randomization. */
  function MigratedProfile(id: int, name: string, headers: seq<string>, value: string, enabled: bool): Profile {
    Profile(id, name, headers, value, [], true, enabled, false, None, false, false, None, None)
  }

  /** `if (previousSettings.spoofIp)`: a non-empty string. */
  predicate HasSpoofIp(spoofIp: Option<string>) {
    spoofIp.Some? && spoofIp.value != ""
  }

  function DefaultMigrated(spoofIp: string, headers: seq<string>): Profile {
    MigratedProfile(1, "Default (Migrated)", headers, spoofIp, true)
  }

  function PreviousMigrated(previous: seq<string>, headers: seq<string>, i: nat): Profile
    requires i < |previous|
  {
    MigratedProfile(i + 2, previous[i] + " (Migrated)", headers, previous[i], false)
  }

  /** The profiles the migration builds from the legacy keys. */
  function MigratedProfiles(spoofIp: Option<string>, previous: Option<seq<string>>, headers: seq<string>): (r: seq<Profile>)
    ensures var first := if HasSpoofIp(spoofIp) then 1 else 0;
            |r| == first + (if previous.Some? then |previous.value| else 0)
            && (HasSpoofIp(spoofIp) ==> r[0].id == 1 && r[0].value == spoofIp.value && r[0].name == "Default (Migrated)")
            && (previous.Some? ==> forall i :: 0 <= i < |previous.value| ==>
                  r[first + i].id == i + 2 && r[first + i].value == previous.value[i]
                  && r[first + i].name == previous.value[i] + " (Migrated)")
    ensures forall i, j :: 0 <= i < j < |r| ==> 1 <= r[i].id < r[j].id
    ensures forall k :: 0 <= k < |r| ==>
              r[k].headers == headers && r[k].domains == [] && r[k].includeDomains && !NeedsAddress(r[k])
              && (r[k].enabled <==> k == 0 && HasSpoofIp(spoofIp))
  {
    (if HasSpoofIp(spoofIp) then [DefaultMigrated(spoofIp.value, headers)] else [])
    + (if previous.Some? then seq(|previous.value|, i requires 0 <= i < |previous.value| => PreviousMigrated(previous.value, headers, i)) else [])
  }

  /** The push loop of the migration. */
  method BuildMigratedProfiles(spoofIp: Option<string>, previous: Option<seq<string>>, headers: seq<string>)
    returns (newProfiles: seq<Profile>)
    ensures newProfiles == MigratedProfiles(spoofIp, previous, headers)
  {
    newProfiles := [];
    if spoofIp.Some? && spoofIp.value != "" {
      newProfiles := newProfiles + [MigratedProfile(1, "Default (Migrated)", headers, spoofIp.value, true)];
    }
    ghost var head := newProfiles;
    if previous.Some? {
      var prev := previous.value;
      var index := 0;
      while index < |prev|
        invariant 0 <= index <= |prev|
        invariant newProfiles == head + seq(index, i requires 0 <= i < index => PreviousMigrated(prev, headers, i))
      {
        newProfiles := newProfiles + [MigratedProfile(index + 2, prev[index] + " (Migrated)", headers, prev[index], false)];
        index := index + 1;
      }
    }
  }

  // ---------------------------------------------------------------------
  // The service worker

  class ServiceWorker {
    const store: Store
    /** The dynamic rules the browser holds. */
    var installedRules: seq<Rule>
    /** The toolbar icon: coloured when active, grey otherwise. */
    var iconActive: bool

    constructor (store: Store)
      ensures this.store == store && installedRules == [] && !iconActive
    {
      this.store := store;
      installedRules := [];
      iconActive := false;
    }

    /**
     * `updateDeclarativeRules`: one update removing the given rules' ids and
     * adding the new rules, applied atomically if the browser accepts it.
     */
    method UpdateDeclarativeRules(addRules: seq<Rule>, removeRules: seq<Rule>, accepted: bool) returns (u: RuleUpdate)
      modifies this`installedRules
      ensures u == DeclarativeUpdate(addRules, removeRules)
      ensures installedRules == if accepted then ApplyRuleUpdate(old(installedRules), u) else old(installedRules)
    {
      u := RuleUpdate(RuleIds(removeRules), addRules);
      if accepted {
        installedRules := ApplyRuleUpdate(installedRules, u);
      }
    }

    /** `updateFromSettings` */
    method UpdateFromSettings(address: nat -> AddressDraw, accepted: bool) returns (issued: Option<RuleUpdate>)
      requires ValidAddressSupply(address)
      modifies this, store
      ensures var rec := Reconcile(old(store.enabled), old(store.profiles), old(installedRules), address);
              issued == rec.update && iconActive == rec.iconActive
              && installedRules == (if accepted then InstalledAfter(old(installedRules), rec) else old(installedRules))
              && store.profiles == (if rec.profileWrite.Some? then rec.profileWrite else old(store.profiles))
              && store.updating == (old(store.updating) || rec.profileWrite.Some?)
              && store.writes == old(store.writes) + (if rec.profileWrite.Some? then [{ProfilesKey, UpdatingKey}] else [])
      ensures store.enabled == old(store.enabled) && store.lastRandomizeTime == old(store.lastRandomizeTime)
      ensures store.spoofIp == old(store.spoofIp) && store.previous == old(store.previous)
      ensures store.legacyHeaders == old(store.legacyHeaders)
    {
      var oldRules := installedRules;
      if store.enabled != Some(true) || store.profiles.None? {
        issued := None;
        if |oldRules| > 0 {
          var u := UpdateDeclarativeRules([], oldRules, accepted);
          issued := Some(u);
        }
        iconActive := false;
      } else {
        var ps := store.profiles.value;
        var updatedProfiles, profilesUpdated := FillAddresses(ps, address);
        if profilesUpdated {
          store.SetProfilesUpdating(updatedProfiles);
          ps := updatedProfiles;
        }
        var rules := CompileRules(ps);
        var u := UpdateDeclarativeRules(rules, oldRules, accepted);
        issued := Some(u);
        iconActive := true;
      }
    }

    /** `updateRandomizedProfiles` at time `now` (whole seconds). */
    method UpdateRandomizedProfiles(now: int, rnd: Randomness)
      requires store.profiles.Some? ==> ValidRandomness(rnd, store.profiles.value)
      modifies store
      ensures old(store.profiles).None? ==>
                store.profiles == old(store.profiles) && store.lastRandomizeTime == old(store.lastRandomizeTime)
                && store.updating == old(store.updating) && store.writes == old(store.writes)
      ensures old(store.profiles).Some? ==>
                var t := Tick(old(store.profiles).value, old(store.lastRandomizeTime).GetOr(map[]), now, rnd);
                store.profiles == (if t.updated then Some(t.profiles) else old(store.profiles))
                && store.lastRandomizeTime == (if t.updated then Some(t.times) else old(store.lastRandomizeTime))
                && store.updating == (old(store.updating) || t.updated)
                && store.writes == old(store.writes)
                                   + (if t.updated then [{ProfilesKey, UpdatingKey}, {LastRandomizeTimeKey}] else [])
      ensures store.enabled == old(store.enabled) && store.spoofIp == old(store.spoofIp)
      ensures store.previous == old(store.previous) && store.legacyHeaders == old(store.legacyHeaders)
    {
      if store.profiles.None? {
        return;
      }
      var ps := store.profiles.value;
      var t := RandomizeProfiles(ps, store.lastRandomizeTime.GetOr(map[]), now, rnd);
      var updatedProfiles, lastRandomizeTime, profilesUpdated, timeUpdated := t.profiles, t.times, t.updated, t.updated;
      if profilesUpdated {
        store.SetProfilesUpdating(updatedProfiles);
      }
      if timeUpdated {
        store.SetLastRandomizeTime(lastRandomizeTime);
      }
    }

    /** `onInstalled`: install defaults or legacy migration, then a reconciliation. */
    method OnInstalled(reason: InstallReason, previousVersion: Option<string>, address: nat -> AddressDraw, accepted: bool)
      returns (issued: Option<RuleUpdate>)
      requires ValidAddressSupply(address)
      modifies this, store
      ensures var profiles := if Migrates(reason, previousVersion) then
                                Some(MigratedProfiles(old(store.spoofIp), old(store.previous), old(store.legacyHeaders).GetOr([])))
                              else if reason == Install then Some([]) else old(store.profiles);
              var enabled := if Migrates(reason, previousVersion) || reason == Install then Some(true) else old(store.enabled);
              var rec := Reconcile(enabled, profiles, old(installedRules), address);
              var setupWrites := if Migrates(reason, previousVersion) then [{ProfilesKey, EnabledKey}, {SpoofIpKey, PreviousKey, HeadersKey}]
                                 else if reason == Install then [{ProfilesKey, EnabledKey}] else [];
              issued == rec.update && iconActive == rec.iconActive
              && installedRules == (if accepted then InstalledAfter(old(installedRules), rec) else old(installedRules))
              && store.enabled == enabled
              && store.profiles == (if rec.profileWrite.Some? then rec.profileWrite else profiles)
              && store.updating == (old(store.updating) || rec.profileWrite.Some?)
              && store.writes == old(store.writes) + setupWrites
                                 + (if rec.profileWrite.Some? then [{ProfilesKey, UpdatingKey}] else [])
      ensures Migrates(reason, previousVersion) ==>
                store.spoofIp.None? && store.previous.None? && store.legacyHeaders.None?
      ensures store.lastRandomizeTime == old(store.lastRandomizeTime)
      ensures !Migrates(reason, previousVersion) ==>
                store.spoofIp == old(store.spoofIp) && store.previous == old(store.previous)
                && store.legacyHeaders == old(store.legacyHeaders)
    {
      if reason == Install {
        store.SetProfilesAndEnabled([], true);
      }
      if reason == Update {
        if previousVersion.Some? && StartsWith(previousVersion.value, "0.") {
          var newProfiles := BuildMigratedProfiles(store.spoofIp, store.previous, store.legacyHeaders.GetOr([]));
          store.SetProfilesAndEnabled(newProfiles, true);
          store.RemoveLegacyKeys();
        }
      }
      issued := UpdateFromSettings(address, accepted);
    }

    /** `onChanged`: a change set carrying `_updating` only removes the marker; any other reconciles. */
    method OnChanged(changes: set<Key>, address: nat -> AddressDraw, accepted: bool) returns (issued: Option<RuleUpdate>)
      requires ValidAddressSupply(address)
      modifies this, store
      ensures UpdatingKey in changes ==>
                issued.None? && installedRules == old(installedRules) && iconActive == old(iconActive)
                && !store.updating && store.profiles == old(store.profiles)
                && store.writes == old(store.writes) + [{UpdatingKey}]
      ensures UpdatingKey !in changes ==>
                var rec := Reconcile(old(store.enabled), old(store.profiles), old(installedRules), address);
                issued == rec.update && iconActive == rec.iconActive
                && installedRules == (if accepted then InstalledAfter(old(installedRules), rec) else old(installedRules))
                && store.profiles == (if rec.profileWrite.Some? then rec.profileWrite else old(store.profiles))
                && store.updating == (old(store.updating) || rec.profileWrite.Some?)
                && store.writes == old(store.writes) + (if rec.profileWrite.Some? then [{ProfilesKey, UpdatingKey}] else [])
      ensures store.enabled == old(store.enabled) && store.lastRandomizeTime == old(store.lastRandomizeTime)
      ensures store.spoofIp == old(store.spoofIp) && store.previous == old(store.previous)
      ensures store.legacyHeaders == old(store.legacyHeaders)
    {
      if UpdatingKey in changes {
        store.RemoveUpdating();
        issued := None;
        return;
      }
      issued := UpdateFromSettings(address, accepted);
    }
  }
}
