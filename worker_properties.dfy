/**
 * What the service worker's handlers achieve, stated over the functions
 * that specify them: the address fill, the reconciliation of the installed
 * rules with the settings, and the timing of the periodic regeneration.
 */
module WorkerProperties {
  import opened Wrappers
  import opened Text
  import opened IpValidation
  import opened Address
  import opened Rules
  import opened Worker

  /** A generated address is never `"auto"` nor empty, so it is never replaced by the next fill. */
  lemma GeneratedValueIsConcrete(useIPv6: bool, d: AddressDraw)
    requires ValidAddressDraw(d)
    ensures RandomIp(useIPv6, d) != "auto" && RandomIp(useIPv6, d) != ""
  {
    RandomIpValid(useIPv6, d, s => false);
    if useIPv6 {
      SplitOnWithout("auto", ':');
      SplitOnWithout("", ':');
    } else {
      GeneratedIPv4Valid(d.v4);
      SplitOnWithout("auto", '.');
      SplitOnWithout("", '.');
    }
  }

  /**
   * The fill changes only values, and only of the profiles that need an
   * address; those get an address `validateIP` accepts, of the family the
   * profile asks for. Afterwards no profile needs an address.
   */
  lemma FilledProfilesMeaning(ps: seq<Profile>, address: nat -> AddressDraw, otherForms: string -> bool)
    requires ValidAddressSupply(address)
    ensures var r := FilledProfiles(ps, address);
            forall k :: 0 <= k < |ps| ==>
              r[k] == ps[k].(value := r[k].value)
              && (NeedsAddress(ps[k]) ==> ValidateIP(r[k].value, otherForms) && (ps[k].useIPv6 <==> FullIPv6(r[k].value)))
              && (!NeedsAddress(ps[k]) ==> r[k] == ps[k])
              && !NeedsAddress(r[k])
  {
    var r := FilledProfiles(ps, address);
    forall k | 0 <= k < |ps|
      ensures NeedsAddress(ps[k]) ==> ValidateIP(r[k].value, otherForms) && (ps[k].useIPv6 <==> FullIPv6(r[k].value))
      ensures !NeedsAddress(r[k])
    {
      RandomIpValid(ps[k].useIPv6, address(k), otherForms);
      GeneratedValueIsConcrete(ps[k].useIPv6, address(k));
    }
  }

  /** When no profile needs an address the fill is the identity. */
  lemma FillWithoutNeed(ps: seq<Profile>, address: nat -> AddressDraw)
    requires ValidAddressSupply(address) && !AnyNeedsAddress(ps)
    ensures FilledProfiles(ps, address) == ps
  {
    var r := FilledProfiles(ps, address);
    forall k | 0 <= k < |ps| ensures r[k] == ps[k] {
      assert !NeedsAddress(ps[k]);
    }
  }

  /** Filling twice is filling once, whatever the second draws. */
  lemma FillIdempotent(ps: seq<Profile>, a: nat -> AddressDraw, b: nat -> AddressDraw)
    requires ValidAddressSupply(a) && ValidAddressSupply(b)
    ensures !AnyNeedsAddress(FilledProfiles(ps, a))
    ensures FilledProfiles(FilledProfiles(ps, a), b) == FilledProfiles(ps, a)
  {
    FilledProfilesMeaning(ps, a, s => false);
    FillWithoutNeed(FilledProfiles(ps, a), b);
  }

  /** The compiled rules are exactly the rules of the enabled profiles, one per profile, in order. */
  lemma CompileRulesMeaning(ps: seq<Profile>)
    ensures forall r :: r in CompileRules(ps) <==> exists p :: p in ps && p.enabled && r == ConvertProfileToRule(p)
    ensures forall k :: 0 <= k < |CompileRules(ps)| ==> CompileRules(ps)[k].id == EnabledProfiles(ps)[k].id
  {
    var enabled := EnabledProfiles(ps);
    var rules := CompileRules(ps);
    forall r | r in rules ensures exists p :: p in ps && p.enabled && r == ConvertProfileToRule(p) {
      var k :| 0 <= k < |rules| && rules[k] == r;
      assert enabled[k] in enabled;
    }
    forall p | p in ps && p.enabled ensures ConvertProfileToRule(p) in rules {
      var k :| 0 <= k < |enabled| && enabled[k] == p;
      assert rules[k] == ConvertProfileToRule(p);
    }
  }

  /**
   * Compiling works profile by profile: the rules of a concatenation are
   * the rules of each part, concatenated, so the rules follow list order.
   */
  lemma CompileRulesConcat(a: seq<Profile>, b: seq<Profile>)
    ensures CompileRules(a + b) == CompileRules(a) + CompileRules(b)
  {
    EnabledProfilesConcat(a, b);
    var ea := EnabledProfiles(a);
    var eb := EnabledProfiles(b);
    assert EnabledProfiles(a + b) == ea + eb;
    forall k | 0 <= k < |ea| + |eb|
      ensures CompileRules(a + b)[k] == (CompileRules(a) + CompileRules(b))[k]
    {
      if k < |ea| {
        assert (ea + eb)[k] == ea[k];
      } else {
        assert (ea + eb)[k] == eb[k - |ea|];
      }
    }
  }

  /** One profile compiles to its own rule when enabled and to none otherwise. */
  lemma CompileRulesSingleton(p: Profile)
    ensures CompileRules([p]) == if p.enabled then [ConvertProfileToRule(p)] else []
  {
    EnabledProfilesSingleton(p);
  }

  /** Disabled (or without profiles): nothing is written, the icon is grey and no rule stays installed. */
  lemma ReconcileInactive(enabled: Option<bool>, profiles: Option<seq<Profile>>, installed: seq<Rule>,
                          address: nat -> AddressDraw)
    requires ValidAddressSupply(address) && !Active(enabled, profiles)
    ensures var rec := Reconcile(enabled, profiles, installed, address);
            rec.profileWrite.None? && !rec.iconActive
            && (rec.update.Some? <==> |installed| > 0)
            && InstalledAfter(installed, rec) == []
  {
    ReplaceAllRules(installed, []);
  }

  /**
   * Active: the profiles are written back exactly when some needed an
   * address, and the installed rules become the rules of the filled profiles,
   * whatever was installed before.
   */
  lemma ReconcileActive(enabled: Option<bool>, profiles: Option<seq<Profile>>, installed: seq<Rule>,
                        address: nat -> AddressDraw)
    requires ValidAddressSupply(address) && Active(enabled, profiles)
    ensures var rec := Reconcile(enabled, profiles, installed, address);
            var filled := FilledProfiles(profiles.value, address);
            rec.iconActive
            && (rec.profileWrite.Some? <==> AnyNeedsAddress(profiles.value))
            && (rec.profileWrite.Some? ==> rec.profileWrite.value == filled)
            && rec.update.Some? && rec.update.value.removeRuleIds == RuleIds(installed)
            && InstalledAfter(installed, rec) == CompileRules(filled)
  {
    if !AnyNeedsAddress(profiles.value) {
      FillWithoutNeed(profiles.value, address);
    }
    ReplaceAllRules(installed, CompileRules(FilledProfiles(profiles.value, address)));
  }

  /**
   * A second reconciliation on the state the first left behind writes no
   * profiles and leaves the installed rules as they are: the pass that the
   * `_updating` marker skips would have changed nothing.
   */
  lemma ReconcileSettles(enabled: Option<bool>, profiles: Option<seq<Profile>>, installed: seq<Rule>,
                         a: nat -> AddressDraw, b: nat -> AddressDraw)
    requires ValidAddressSupply(a) && ValidAddressSupply(b)
    ensures var first := Reconcile(enabled, profiles, installed, a);
            var stored := if first.profileWrite.Some? then first.profileWrite else profiles;
            var second := Reconcile(enabled, stored, InstalledAfter(installed, first), b);
            second.profileWrite.None?
            && second.iconActive == first.iconActive
            && InstalledAfter(InstalledAfter(installed, first), second) == InstalledAfter(installed, first)
  {
    var first := Reconcile(enabled, profiles, installed, a);
    var stored := if first.profileWrite.Some? then first.profileWrite else profiles;
    var after := InstalledAfter(installed, first);
    if Active(enabled, profiles) {
      ReconcileActive(enabled, profiles, installed, a);
      var filled := FilledProfiles(profiles.value, a);
      assert stored.value == filled by {
        if !AnyNeedsAddress(profiles.value) { FillWithoutNeed(profiles.value, a); }
      }
      FillIdempotent(profiles.value, a, b);
      ReconcileActive(enabled, stored, after, b);
    } else {
      ReconcileInactive(enabled, profiles, installed, a);
      ReconcileInactive(enabled, stored, after, b);
    }
  }

  // ---------------------------------------------------------------------
  // The periodic regeneration

  predicate DistinctIds(ps: seq<Profile>) {
    forall i, j :: 0 <= i < j < |ps| ==> ps[i].id != ps[j].id
  }

  /** The ids of the first `n` profiles that are due at `now` against the timestamps `times`. */
  ghost function DueIds(ps: seq<Profile>, times: map<int, int>, now: int, n: nat): set<int>
    requires n <= |ps|
  {
    set k | 0 <= k < n && Due(ps[k], times, now) :: ps[k].id
  }

  /**
   * A regenerated profile keeps its identity and settings; its address is
   * one `validateIP` accepts when it randomizes addresses, and its active
   * headers are a sub-multiset of its headers when it randomizes headers.
   */
  lemma RegenerateMeaning(p: Profile, d: AddressDraw, sd: SubsetDraw, otherForms: string -> bool)
    requires ValidAddressDraw(d) && ValidSubsetDraw(sd, |p.headers|)
    ensures var r := Regenerate(p, d, sd);
            r == p.(value := r.value, activeHeaders := r.activeHeaders)
            && (p.randomizeIp ==> ValidateIP(r.value, otherForms) && (p.useIPv6 <==> FullIPv6(r.value)))
            && (!p.randomizeIp ==> r.value == p.value)
            && (p.randomizeHeaders && |p.headers| > 0 ==>
                  r.activeHeaders.Some? && multiset(r.activeHeaders.value) <= multiset(p.headers)
                  && 1 <= |r.activeHeaders.value| <= |p.headers|)
            && (!(p.randomizeHeaders && |p.headers| > 0) ==> r.activeHeaders == p.activeHeaders)
  {
    RandomIpValid(p.useIPv6, d, otherForms);
    if p.randomizeHeaders && |p.headers| > 0 {
      RandomSubsetIsSubMultiset(p.headers, p.randomHeaderCount, sd.size, sd.order);
    }
  }

  /** The timestamps after the first `n` profiles of the tick: they do not depend on the draws. */
  function TimesUpTo(ps: seq<Profile>, times0: map<int, int>, now: int, n: nat): map<int, int>
    requires n <= |ps|
  {
    if n == 0 then times0
    else
      var before := TimesUpTo(ps, times0, now, n - 1);
      if Due(ps[n - 1], before, now) then before[ps[n - 1].id := now] else before
  }

  lemma {:induction false} TickUpToTimesAreTimesUpTo(ps: seq<Profile>, times0: map<int, int>, now: int, rnd: Randomness, n: nat)
    requires n <= |ps| && ValidRandomness(rnd, ps)
    ensures TickUpTo(ps, times0, now, rnd, n).times == TimesUpTo(ps, times0, now, n)
  {
    if n > 0 {
      TickUpToTimesAreTimesUpTo(ps, times0, now, rnd, n - 1);
    }
  }

  /**
   * With distinct profile ids, the tick stamps exactly the due profiles with
   * `now` and keeps every other timestamp, deciding each profile against the
   * timestamps it started from.
   */
  lemma TickUpToTimes(ps: seq<Profile>, times0: map<int, int>, now: int, rnd: Randomness, n: nat)
    requires n <= |ps| && ValidRandomness(rnd, ps) && DistinctIds(ps)
    ensures var t := TickUpTo(ps, times0, now, rnd, n);
            t.times.Keys == times0.Keys + DueIds(ps, times0, now, n)
            && (forall id :: id in DueIds(ps, times0, now, n) ==> t.times[id] == now)
            && (forall id :: id !in DueIds(ps, times0, now, n) ==> LastUpdate(t.times, id) == LastUpdate(times0, id))
  {
    TickUpToTimesAreTimesUpTo(ps, times0, now, rnd, n);
    TimesUpToMeaning(ps, times0, now, n);
  }

  lemma {:induction false} TimesUpToMeaning(ps: seq<Profile>, times0: map<int, int>, now: int, n: nat)
    requires n <= |ps| && DistinctIds(ps)
    ensures var times := TimesUpTo(ps, times0, now, n);
            times.Keys == times0.Keys + DueIds(ps, times0, now, n)
            && (forall id :: id in DueIds(ps, times0, now, n) ==> times[id] == now)
            && (forall id :: id !in DueIds(ps, times0, now, n) ==> LastUpdate(times, id) == LastUpdate(times0, id))
  {
    if n > 0 {
      TimesUpToMeaning(ps, times0, now, n - 1);
      var p := ps[n - 1];
      var before := TimesUpTo(ps, times0, now, n - 1);
      var after := TimesUpTo(ps, times0, now, n);
      var due := DueIds(ps, times0, now, n - 1);
      assert p.id !in due by {
        forall k | 0 <= k < n - 1 ensures ps[k].id != p.id { }
      }
      assert LastUpdate(before, p.id) == LastUpdate(times0, p.id);
      DueIdsStep(ps, times0, now, n);
    }
  }

  lemma DueIdsStep(ps: seq<Profile>, times: map<int, int>, now: int, n: nat)
    requires 0 < n <= |ps|
    ensures DueIds(ps, times, now, n)
            == DueIds(ps, times, now, n - 1) + (if Due(ps[n - 1], times, now) then {ps[n - 1].id} else {})
  {
  }

  /** A profile is due during the tick exactly when it is due against the starting timestamps. */
  lemma DueAtStep(ps: seq<Profile>, times0: map<int, int>, now: int, rnd: Randomness, n: nat)
    requires n < |ps| && ValidRandomness(rnd, ps) && DistinctIds(ps)
    ensures Due(ps[n], TickUpTo(ps, times0, now, rnd, n).times, now) == Due(ps[n], times0, now)
  {
    TickUpToTimes(ps, times0, now, rnd, n);
    assert ps[n].id !in DueIds(ps, times0, now, n) by {
      forall k | 0 <= k < n ensures ps[k].id != ps[n].id { }
    }
  }

  /** With distinct ids, exactly the due profiles are regenerated. */
  lemma {:induction false} TickUpToProfiles(ps: seq<Profile>, times0: map<int, int>, now: int, rnd: Randomness, n: nat)
    requires n <= |ps| && ValidRandomness(rnd, ps) && DistinctIds(ps)
    ensures var t := TickUpTo(ps, times0, now, rnd, n);
            (forall k :: 0 <= k < n ==>
               t.profiles[k] == if Due(ps[k], times0, now) then Regenerate(ps[k], rnd.address(k), rnd.subset(k)) else ps[k])
  {
    if n > 0 {
      TickUpToProfiles(ps, times0, now, rnd, n - 1);
      DueAtStep(ps, times0, now, rnd, n - 1);
    }
  }

  /** With distinct ids, the tick reports an update exactly when some profile was due. */
  lemma {:induction false} TickUpToUpdated(ps: seq<Profile>, times0: map<int, int>, now: int, rnd: Randomness, n: nat)
    requires n <= |ps| && ValidRandomness(rnd, ps) && DistinctIds(ps)
    ensures TickUpTo(ps, times0, now, rnd, n).updated <==> exists k :: 0 <= k < n && Due(ps[k], times0, now)
  {
    if n > 0 {
      TickUpToUpdated(ps, times0, now, rnd, n - 1);
      DueAtStep(ps, times0, now, rnd, n - 1);
      if Due(ps[n - 1], times0, now) {
        assert TickUpTo(ps, times0, now, rnd, n).updated;
      } else {
        assert TickUpTo(ps, times0, now, rnd, n).updated == TickUpTo(ps, times0, now, rnd, n - 1).updated;
        assert (exists k :: 0 <= k < n && Due(ps[k], times0, now)) ==> exists k :: 0 <= k < n - 1 && Due(ps[k], times0, now);
      }
    }
  }

  /** The tick regenerates exactly the due profiles and reports an update exactly when one was due. */
  lemma TickMeaning(ps: seq<Profile>, times0: map<int, int>, now: int, rnd: Randomness)
    requires ValidRandomness(rnd, ps) && DistinctIds(ps)
    ensures var t := Tick(ps, times0, now, rnd);
            |t.profiles| == |ps|
            && (forall k :: 0 <= k < |ps| ==>
                  t.profiles[k] == if Due(ps[k], times0, now) then Regenerate(ps[k], rnd.address(k), rnd.subset(k)) else ps[k])
            && (t.updated <==> exists k :: 0 <= k < |ps| && Due(ps[k], times0, now))
  {
    TickUpToProfiles(ps, times0, now, rnd, |ps|);
    TickUpToUpdated(ps, times0, now, rnd, |ps|);
  }

  /** After the tick a due profile's timestamp is `now`; every other profile's is what it was. */
  lemma TickTimestamps(ps: seq<Profile>, times0: map<int, int>, now: int, rnd: Randomness)
    requires ValidRandomness(rnd, ps) && DistinctIds(ps)
    ensures var t := Tick(ps, times0, now, rnd);
            (forall k :: 0 <= k < |ps| && Due(ps[k], times0, now) ==> LastUpdate(t.times, ps[k].id) == now)
            && (forall k :: 0 <= k < |ps| && !Due(ps[k], times0, now) ==>
                  LastUpdate(t.times, ps[k].id) == LastUpdate(times0, ps[k].id))
  {
    TickUpToTimes(ps, times0, now, rnd, |ps|);
    var t := Tick(ps, times0, now, rnd);
    var due := DueIds(ps, times0, now, |ps|);
    forall k | 0 <= k < |ps|
      ensures Due(ps[k], times0, now) ==> LastUpdate(t.times, ps[k].id) == now
      ensures !Due(ps[k], times0, now) ==> LastUpdate(t.times, ps[k].id) == LastUpdate(times0, ps[k].id)
    {
      if Due(ps[k], times0, now) {
        assert ps[k].id in due;
      } else {
        assert ps[k].id !in due by {
          forall j | 0 <= j < |ps| && Due(ps[j], times0, now) ensures ps[j].id != ps[k].id {
            assert j != k;
          }
        }
      }
    }
  }

  /**
   * When every interval is positive, a second tick in the same second finds
   * nothing due: each regenerated profile was stamped with `now`, and every
   * other profile and its timestamp are unchanged.
   */
  lemma TickSettles(ps: seq<Profile>, times0: map<int, int>, now: int, rnd: Randomness, rnd2: Randomness)
    requires ValidRandomness(rnd, ps) && DistinctIds(ps)
    requires forall k :: 0 <= k < |ps| ==> Interval(ps[k]) > 0
    ensures var t := Tick(ps, times0, now, rnd);
            ValidRandomness(rnd2, t.profiles) ==> !Tick(t.profiles, t.times, now, rnd2).updated
  {
    var t := Tick(ps, times0, now, rnd);
    NothingDueAfterTick(ps, times0, now, rnd);
    if ValidRandomness(rnd2, t.profiles) {
      TickUpToUpdated(t.profiles, t.times, now, rnd2, |t.profiles|);
    }
  }

  /** Right after the tick, with positive intervals, no profile is due; the ids stay distinct. */
  lemma NothingDueAfterTick(ps: seq<Profile>, times0: map<int, int>, now: int, rnd: Randomness)
    requires ValidRandomness(rnd, ps) && DistinctIds(ps)
    requires forall k :: 0 <= k < |ps| ==> Interval(ps[k]) > 0
    ensures var t := Tick(ps, times0, now, rnd);
            DistinctIds(t.profiles) && forall k :: 0 <= k < |t.profiles| ==> !Due(t.profiles[k], t.times, now)
  {
    var t := Tick(ps, times0, now, rnd);
    TickMeaning(ps, times0, now, rnd);
    TickTimestamps(ps, times0, now, rnd);
    forall k | 0 <= k < |ps|
      ensures t.profiles[k].id == ps[k].id && !Due(t.profiles[k], t.times, now)
    {
      if Due(ps[k], times0, now) {
        var r := Regenerate(ps[k], rnd.address(k), rnd.subset(k));
        assert t.profiles[k] == r;
        assert r.id == ps[k].id && Interval(r) == Interval(ps[k]);
        assert LastUpdate(t.times, r.id) == now;
      } else {
        assert t.profiles[k] == ps[k];
      }
    }
  }
}
