/**
 * Profiles and the declarative request rules the service worker compiles
 * them into: `getRandomSubset`, `convertProfileToRule` and the dynamic-rule
 * update of `updateDeclarativeRules`.
 */
module Rules {
  import opened Wrappers
  import opened Text

  /**
   * A stored profile. The optional booleans of the stored object are plain
   * booleans here (absent reads as false everywhere); `randomizeInterval`
   * is `None` when absent or `NaN`, and `activeHeaders` is the internal
   * `_activeHeaders` subset, absent until header randomization first runs.
   */
  datatype Profile = Profile(
    id: int,
    name: string,
    headers: seq<string>,
    value: string,
    domains: seq<string>,
    includeDomains: bool,
    enabled: bool,
    randomizeIp: bool,
    randomizeInterval: Option<int>,
    useIPv6: bool,
    randomizeHeaders: bool,
    randomHeaderCount: Option<int>,
    activeHeaders: Option<seq<string>>)

  // ---------------------------------------------------------------------
  // getRandomSubset

  /** `order` lists each position below `n` exactly once: a shuffle of `n` items. */
  predicate IsPermutation(order: seq<nat>, n: nat) {
    |order| == n
    && (forall k :: 0 <= k < n ==> order[k] < n)
    && (forall i, j :: 0 <= i < j < n ==> order[i] != order[j])
  }

  /** The items at the given positions, in that order. */
  function Pick<T>(a: seq<T>, positions: seq<nat>): (r: seq<T>)
    requires forall k :: 0 <= k < |positions| ==> positions[k] < |a|
    ensures |r| == |positions|
    ensures forall k :: 0 <= k < |r| ==> r[k] == a[positions[k]]
  {
    seq(|positions|, k requires 0 <= k < |positions| => a[positions[k]])
  }

  function Min(x: int, y: int): int { if x < y then x else y }

  /**
   * How many items `getRandomSubset` keeps: `min(count, length)` for a
   * positive count, else `1 + sizeDraw` for the draw
   * `Math.floor(Math.random() * length)`.
   */
  function SubsetSize(length: nat, count: Option<int>, sizeDraw: nat): (n: nat)
    requires 0 < length && sizeDraw < length
    ensures 1 <= n <= length
    ensures count.Some? && count.value > 0 ==> n == Min(count.value, length)
  {
    if count.Some? && count.value > 0 then Min(count.value, length) else sizeDraw + 1
  }

  /**
   * `getRandomSubset(items, count)`: the first items of a shuffled copy of
   * `items`; the shuffle is the permutation `order` of its positions.
   */
  function GetRandomSubset<T>(items: seq<T>, count: Option<int>, sizeDraw: nat, order: seq<nat>): (r: seq<T>)
    requires IsPermutation(order, |items|)
    requires |items| > 0 ==> sizeDraw < |items|
    ensures |items| == 0 ==> r == []
    ensures |items| > 0 && count.Some? && count.value > 0 ==> |r| == Min(count.value, |items|)
    ensures |items| > 0 && !(count.Some? && count.value > 0) ==> 1 <= |r| <= |items|
    ensures |r| <= |items| && forall k :: 0 <= k < |r| ==> r[k] == items[order[k]]
  {
    if |items| == 0 then []
    else Pick(items, order[..SubsetSize(|items|, count, sizeDraw)])
  }

  /**
   * Picking pairwise different positions takes no item more often than the
   * input holds it.
   */
  lemma {:induction false} PickSubMultiset<T>(a: seq<T>, positions: seq<nat>)
    requires forall k :: 0 <= k < |positions| ==> positions[k] < |a|
    requires forall i, j :: 0 <= i < j < |positions| ==> positions[i] != positions[j]
    ensures multiset(Pick(a, positions)) <= multiset(a)
    decreases |positions|
  {
    if |positions| > 0 {
      var n := |positions|;
      var m := positions[n - 1];
      var rest := a[..m] + a[m + 1..];
      var shifted := seq(n - 1, k requires 0 <= k < n - 1 => if positions[k] < m then positions[k] else positions[k] - 1);
      forall k | 0 <= k < n - 1 ensures shifted[k] < |rest| && rest[shifted[k]] == a[positions[k]] {
        assert positions[k] != m;
      }
      forall i, j | 0 <= i < j < n - 1 ensures shifted[i] != shifted[j] {
        assert positions[i] != positions[j] && positions[i] != m && positions[j] != m;
      }
      PickSubMultiset(rest, shifted);
      var picked := Pick(a, positions);
      assert Pick(rest, shifted) == picked[..n - 1];
      assert picked == picked[..n - 1] + [a[m]];
      assert a == a[..m] + [a[m]] + a[m + 1..];
      assert multiset(a) == multiset(rest) + multiset{a[m]};
    }
  }

  /**
   * The subset is a sub-multiset of the input: every kept item is a distinct
   * position of the input.
   */
  lemma RandomSubsetIsSubMultiset<T>(items: seq<T>, count: Option<int>, sizeDraw: nat, order: seq<nat>)
    requires IsPermutation(order, |items|)
    requires |items| > 0 ==> sizeDraw < |items|
    ensures multiset(GetRandomSubset(items, count, sizeDraw, order)) <= multiset(items)
  {
    if |items| > 0 {
      PickSubMultiset(items, order[..SubsetSize(|items|, count, sizeDraw)]);
    }
  }

  // ---------------------------------------------------------------------
  // convertProfileToRule

  /** One `requestHeaders` entry of a rule action. */
  datatype HeaderInfo = HeaderInfo(header: string, operation: string, value: string)

  datatype RuleAction = RuleAction(actionType: string, requestHeaders: seq<HeaderInfo>)

  datatype RuleCondition = RuleCondition(
    resourceTypes: seq<string>,
    requestDomains: Option<seq<string>>,
    excludedRequestDomains: Option<seq<string>>)

  /** A dynamic declarativeNetRequest rule. */
  datatype Rule = Rule(id: int, priority: int, action: RuleAction, condition: RuleCondition)

  /** The 13 resource types every compiled rule applies to. */
  const ResourceTypes: seq<string> :=
    ["main_frame", "sub_frame", "stylesheet", "script", "image", "font", "object",
     "xmlhttprequest", "ping", "csp_report", "media", "websocket", "other"]

  /** `profile._activeHeaders || profile.headers` (an array, even an empty one, is truthy). */
  function HeadersToUse(p: Profile): seq<string> {
    if p.activeHeaders.Some? then p.activeHeaders.value else p.headers
  }

  function SetHeader(header: string, value: string): HeaderInfo {
    HeaderInfo(ToLower(header), "set", value)
  }

  /** `convertProfileToRule` */
  function ConvertProfileToRule(p: Profile): (r: Rule)
    ensures r.id == p.id && r.priority == p.id
    ensures r.action.actionType == "modifyHeaders"
    ensures |r.action.requestHeaders| == |HeadersToUse(p)|
    ensures forall k :: 0 <= k < |r.action.requestHeaders| ==>
              r.action.requestHeaders[k] == HeaderInfo(ToLower(HeadersToUse(p)[k]), "set", p.value)
    ensures r.condition.resourceTypes == ResourceTypes
    ensures r.condition.requestDomains.Some? <==> |p.domains| > 0 && p.includeDomains
    ensures r.condition.excludedRequestDomains.Some? <==> |p.domains| > 0 && !p.includeDomains
    ensures r.condition.requestDomains.Some? ==> r.condition.requestDomains.value == p.domains
    ensures r.condition.excludedRequestDomains.Some? ==> r.condition.excludedRequestDomains.value == p.domains
  {
    var headers := HeadersToUse(p);
    var action := RuleAction("modifyHeaders", seq(|headers|, k requires 0 <= k < |headers| => SetHeader(headers[k], p.value)));
    var condition :=
      if |p.domains| > 0 then
        if p.includeDomains then RuleCondition(ResourceTypes, Some(p.domains), None)
        else RuleCondition(ResourceTypes, None, Some(p.domains))
      else RuleCondition(ResourceTypes, None, None);
    Rule(p.id, p.id, action, condition)
  }

  /**
   * The browser's domain condition: `host` is `domain` or one of its
   * subdomains.
   */
  predicate DomainMatches(domain: string, host: string) {
    host == domain || (|host| > |domain| && host[|host| - |domain| - 1..] == "." + domain)
  }

  predicate AnyDomainMatches(domains: seq<string>, host: string) {
    exists k :: 0 <= k < |domains| && DomainMatches(domains[k], host)
  }

  /** Whether a rule's condition selects a request of the given type to the given host. */
  predicate RuleApplies(r: Rule, host: string, resourceType: string) {
    resourceType in r.condition.resourceTypes
    && (r.condition.requestDomains.None? || AnyDomainMatches(r.condition.requestDomains.value, host))
    && (r.condition.excludedRequestDomains.None? || !AnyDomainMatches(r.condition.excludedRequestDomains.value, host))
  }

  /**
   * The profile's own domain setting: an empty list means every site;
   * otherwise the listed sites (include) or every other site (exclude).
   */
  predicate ProfileCoversHost(p: Profile, host: string) {
    |p.domains| == 0 || (p.includeDomains <==> AnyDomainMatches(p.domains, host))
  }

  /**
   * The compiled rule applies to a request exactly when its type is one of
   * the 13 resource types and the profile's domain setting covers the host.
   */
  lemma RuleAppliesIff(p: Profile, host: string, resourceType: string)
    ensures RuleApplies(ConvertProfileToRule(p), host, resourceType)
            <==> resourceType in ResourceTypes && ProfileCoversHost(p, host)
  {
  }

  /** The header names a rule sets. */
  function SetHeaderNames(r: Rule): (names: seq<string>)
    ensures |names| == |r.action.requestHeaders|
  {
    seq(|r.action.requestHeaders|, k requires 0 <= k < |r.action.requestHeaders| => r.action.requestHeaders[k].header)
  }

  predicate DistinctIgnoringCase(hs: seq<string>) {
    forall i, j :: 0 <= i < j < |hs| ==> !SameIgnoringCase(hs[i], hs[j])
  }

  /**
   * The rule sets every header to the profile's value, names them in lower
   * case, and names each header once exactly when the selected names are
   * distinct ignoring case.
   */
  lemma RuleHeadersMeaning(p: Profile)
    ensures var r := ConvertProfileToRule(p);
            (forall k :: 0 <= k < |r.action.requestHeaders| ==>
               r.action.requestHeaders[k].value == p.value && r.action.requestHeaders[k].operation == "set"
               && ToLower(r.action.requestHeaders[k].header) == r.action.requestHeaders[k].header)
            && (NoDup(SetHeaderNames(r)) <==> DistinctIgnoringCase(HeadersToUse(p)))
  {
    var r := ConvertProfileToRule(p);
    var names := SetHeaderNames(r);
    var hs := HeadersToUse(p);
    forall k | 0 <= k < |names| ensures names[k] == ToLower(hs[k]) && ToLower(names[k]) == names[k] {
      LowerIdempotent(hs[k]);
    }
    assert NoDup(names) <==> DistinctIgnoringCase(hs);
  }

  lemma LowerIdempotent(s: string)
    ensures ToLower(ToLower(s)) == ToLower(s)
  {
  }

  /** `profiles.filter((profile) => profile.enabled)` */
  function EnabledProfiles(ps: seq<Profile>): (r: seq<Profile>)
    ensures |r| <= |ps|
    ensures forall p :: p in r <==> p in ps && p.enabled
  {
    if ps == [] then []
    else (if ps[0].enabled then [ps[0]] else []) + EnabledProfiles(ps[1..])
  }

  /**
   * The filter works profile by profile: on a concatenation it is the two
   * results concatenated, so the kept profiles stay in list order.
   */
  lemma {:induction false} EnabledProfilesConcat(a: seq<Profile>, b: seq<Profile>)
    ensures EnabledProfiles(a + b) == EnabledProfiles(a) + EnabledProfiles(b)
    decreases |a|
  {
    if a == [] {
      assert a + b == b;
    } else {
      assert (a + b)[0] == a[0] && (a + b)[1..] == a[1..] + b;
      EnabledProfilesConcat(a[1..], b);
    }
  }

  /** One profile is kept exactly when it is enabled. */
  lemma EnabledProfilesSingleton(p: Profile)
    ensures EnabledProfiles([p]) == if p.enabled then [p] else []
  {
    assert [p][1..] == [];
  }

  // ---------------------------------------------------------------------
  // updateDeclarativeRules

  /** One `updateDynamicRules` call: the ids to remove and the rules to add. */
  datatype RuleUpdate = RuleUpdate(removeRuleIds: seq<int>, addRules: seq<Rule>)

  function RuleIds(rules: seq<Rule>): (ids: seq<int>)
    ensures |ids| == |rules| && forall k :: 0 <= k < |rules| ==> ids[k] == rules[k].id
  {
    seq(|rules|, k requires 0 <= k < |rules| => rules[k].id)
  }

  /** The installed rules whose ids are not in `ids`, in order. */
  function WithoutIds(rules: seq<Rule>, ids: seq<int>): (r: seq<Rule>)
    ensures |r| <= |rules|
    ensures forall k :: 0 <= k < |r| ==> r[k] in rules && r[k].id !in ids
    ensures forall x :: x in rules && x.id !in ids ==> x in r
  {
    if rules == [] then []
    else if rules[0].id in ids then WithoutIds(rules[1..], ids)
    else [rules[0]] + WithoutIds(rules[1..], ids)
  }

  /** An accepted update: remove the listed ids, then add the new rules. */
  function ApplyRuleUpdate(installed: seq<Rule>, u: RuleUpdate): seq<Rule> {
    WithoutIds(installed, u.removeRuleIds) + u.addRules
  }

  /** `updateDeclarativeRules({addRules, removeRules})` builds the update from the old rules' ids. */
  function DeclarativeUpdate(addRules: seq<Rule>, removeRules: seq<Rule>): RuleUpdate {
    RuleUpdate(RuleIds(removeRules), addRules)
  }

  /**
   * Removing the ids of every installed rule and adding a new set leaves
   * exactly the new set installed.
   */
  lemma ReplaceAllRules(installed: seq<Rule>, addRules: seq<Rule>)
    ensures ApplyRuleUpdate(installed, DeclarativeUpdate(addRules, installed)) == addRules
  {
    WithoutCoveredIds(installed, RuleIds(installed));
  }

  lemma {:induction false} WithoutCoveredIds(rules: seq<Rule>, ids: seq<int>)
    requires forall k :: 0 <= k < |rules| ==> rules[k].id in ids
    ensures WithoutIds(rules, ids) == []
  {
    if rules != [] {
      assert rules[0].id in ids;
      WithoutCoveredIds(rules[1..], ids);
    }
  }
}
