/**
 * The profile form: the header list and its two catalog sections, the
 * coupled `domains` / `allDomains` fields, the per-field error map, and the
 * save-time validation that decides whether an edited profile is emitted.
 */
module Form {
  import opened Wrappers
  import opened Text
  import opened Headers
  import opened IpValidation

  /** The message shown for an address the validators reject. */
  const InvalidAddressMessage := "Please enter a valid IPv4 or IPv6 address"

  /** The localisation key of a missing required field's message. */
  function RequiredMessageKey(field: string): string {
    "error_" + field + "_required"
  }

  /** What a list property's setter receives: a list, or text to split on white space and commas. */
  datatype ListInput = ListValue(items: seq<string>) | TextValue(text: string)

  /** The list a setter stores; text always yields at least one piece (`""` yields `[""]`). */
  function ListOf(input: ListInput): (r: seq<string>)
    ensures input.TextValue? ==> |r| >= 1 && forall k :: 0 <= k < |r| ==> NoSeparator(r[k])
    ensures input.ListValue? ==> r == input.items
  {
    match input
    case ListValue(items) => items
    case TextValue(text) => SplitFields(text)
  }

  // ---------------------------------------------------------------------
  // The header list

  /** Checking a header: append it unless it is already there. */
  function AddHeader(hs: seq<string>, h: string): (r: seq<string>)
    ensures |r| >= |hs| && r[..|hs|] == hs
    ensures forall x :: x in r <==> x in hs || x == h
    ensures multiset(r)[h] == (if h in hs then multiset(hs)[h] else 1)
    ensures forall x :: x != h ==> multiset(r)[x] == multiset(hs)[x]
    ensures NoDup(hs) ==> NoDup(r)
  {
    if h in hs then hs else hs + [h]
  }

  /** Unchecking a header: drop every occurrence, keeping the others in order. */
  function Without(hs: seq<string>, h: string): (r: seq<string>)
    ensures multiset(r) == multiset(hs)[h := 0]
    ensures NoDup(hs) ==> NoDup(r)
  {
    if hs == [] then []
    else
      var rest := Without(hs[1..], h);
      var r := if hs[0] == h then rest else [hs[0]] + rest;
      WithoutStep(hs, h, rest, r);
      r
  }

  /** One step of `Without`: dropping `h` from the tail, then keeping the head unless it is `h`. */
  lemma WithoutStep(hs: seq<string>, h: string, rest: seq<string>, r: seq<string>)
    requires hs != []
    requires multiset(rest) == multiset(hs[1..])[h := 0]
    requires NoDup(hs[1..]) ==> NoDup(rest)
    requires r == if hs[0] == h then rest else [hs[0]] + rest
    ensures multiset(r) == multiset(hs)[h := 0]
    ensures NoDup(hs) ==> NoDup(r)
  {
    assert hs == [hs[0]] + hs[1..];
    if NoDup(hs) {
      NoDupTail(hs);
      if hs[0] != h {
        assert multiset(rest)[hs[0]] == 0;
        NoDupCons(hs[0], rest);
      }
    }
  }

  /** The tail of a list without duplicates has none, and does not hold the head. */
  lemma NoDupTail(hs: seq<string>)
    requires hs != [] && NoDup(hs)
    ensures NoDup(hs[1..]) && hs[0] !in hs[1..]
  {
    forall i, j | 0 <= i < j < |hs| - 1 ensures hs[1..][i] != hs[1..][j] {
      assert hs[1..][i] == hs[i + 1] && hs[1..][j] == hs[j + 1];
    }
    forall k | 0 <= k < |hs| - 1 ensures hs[1..][k] != hs[0] {
      assert hs[1..][k] == hs[k + 1];
    }
  }

  /** A new head in front of a list without duplicates keeps it so. */
  lemma NoDupCons(x: string, rest: seq<string>)
    requires x !in rest && NoDup(rest)
    ensures NoDup([x] + rest)
  {
    var r := [x] + rest;
    forall i, j | 0 <= i < j < |r| ensures r[i] != r[j] {
      if i == 0 {
        assert r[j] == rest[j - 1];
      } else {
        assert r[i] == rest[i - 1] && r[j] == rest[j - 1];
      }
    }
  }

  /**
   * Unchecking works element by element: on a concatenation it is the
   * two results concatenated. With `WithoutSingleton` this fixes the
   * result completely: the kept headers stay in their relative order.
   */
  lemma {:induction false} WithoutConcat(a: seq<string>, b: seq<string>, h: string)
    ensures Without(a + b, h) == Without(a, h) + Without(b, h)
    decreases |a|
  {
    if a == [] {
      assert a + b == b;
    } else {
      assert (a + b)[0] == a[0] && (a + b)[1..] == a[1..] + b;
      WithoutConcat(a[1..], b, h);
    }
  }

  /** On one header, unchecking `h` drops it exactly when it is `h`. */
  lemma WithoutSingleton(x: string, h: string)
    ensures Without([x], h) == if x == h then [] else [x]
  {
    assert [x][1..] == [];
  }

  /** Deselecting a section: drop every header the section lists, keeping the others in order. */
  function WithoutAll(hs: seq<string>, section: seq<string>): (r: seq<string>)
    ensures forall x :: multiset(r)[x] == if x in section then 0 else multiset(hs)[x]
    ensures forall x :: x in r <==> x in hs && x !in section
  {
    if hs == [] then []
    else
      var rest := WithoutAll(hs[1..], section);
      assert hs == [hs[0]] + hs[1..];
      if hs[0] in section then rest else [hs[0]] + rest
  }

  /** Deselecting a section works element by element, so the kept headers stay in their relative order. */
  lemma {:induction false} WithoutAllConcat(a: seq<string>, b: seq<string>, section: seq<string>)
    ensures WithoutAll(a + b, section) == WithoutAll(a, section) + WithoutAll(b, section)
    decreases |a|
  {
    if a == [] {
      assert a + b == b;
    } else {
      assert (a + b)[0] == a[0] && (a + b)[1..] == a[1..] + b;
      WithoutAllConcat(a[1..], b, section);
    }
  }

  /** On one header, deselecting a section drops it exactly when the section lists it. */
  lemma WithoutAllSingleton(x: string, section: seq<string>)
    ensures WithoutAll([x], section) == if x in section then [] else [x]
  {
    assert [x][1..] == [];
  }

  /** Checking each of `xs` in turn. */
  function AddAll(acc: seq<string>, xs: seq<string>): (r: seq<string>)
    ensures |r| >= |acc| && r[..|acc|] == acc
    ensures forall x :: x in r <==> x in acc || x in xs
    ensures NoDup(acc) ==> NoDup(r)
    decreases |xs|
  {
    if xs == [] then acc
    else
      var next := AddHeader(acc, xs[0]);
      var r := AddAll(next, xs[1..]);
      AddAllStep(acc, xs, next, r);
      r
  }

  /** One step of `AddAll`: what holds of `next` and of `r` holds of `acc`. */
  lemma AddAllStep(acc: seq<string>, xs: seq<string>, next: seq<string>, r: seq<string>)
    requires xs != []
    requires |next| >= |acc| && next[..|acc|] == acc
    requires forall x :: x in next <==> x in acc || x == xs[0]
    requires |r| >= |next| && r[..|next|] == next
    requires forall x :: x in r <==> x in next || x in xs[1..]
    ensures |r| >= |acc| && r[..|acc|] == acc
    ensures forall x :: x in r <==> x in acc || x in xs
  {
    assert r[..|acc|] == r[..|next|][..|acc|];
    assert xs == [xs[0]] + xs[1..];
  }

  /** `Array.from(new Set(xs))`: the first occurrence of each element, in order. */
  function Dedupe(xs: seq<string>): (r: seq<string>)
    ensures NoDup(r) && forall x :: x in r <==> x in xs
  {
    AddAll([], xs)
  }

  lemma {:induction false} AddAllConcat(acc: seq<string>, a: seq<string>, b: seq<string>)
    ensures AddAll(acc, a + b) == AddAll(AddAll(acc, a), b)
    decreases |a|
  {
    if a != [] {
      assert (a + b)[0] == a[0] && (a + b)[1..] == a[1..] + b;
      AddAllConcat(AddHeader(acc, a[0]), a[1..], b);
    } else {
      assert a + b == b;
    }
  }

  /** Adding elements that are all new and distinct appends them unchanged. */
  lemma {:induction false} AddAllFresh(acc: seq<string>, xs: seq<string>)
    requires NoDup(acc + xs)
    ensures AddAll(acc, xs) == acc + xs
    decreases |xs|
  {
    if xs != [] {
      assert xs[0] !in acc by {
        forall k | 0 <= k < |acc| ensures acc[k] != xs[0] {
          assert (acc + xs)[k] == acc[k] && (acc + xs)[|acc|] == xs[0];
        }
      }
      assert (acc + [xs[0]]) + xs[1..] == acc + xs;
      AddAllFresh(acc + [xs[0]], xs[1..]);
    }
  }

  /** A list without duplicates is its own deduplication. */
  lemma DedupeIdentity(xs: seq<string>)
    requires NoDup(xs)
    ensures Dedupe(xs) == xs
  {
    assert [] + xs == xs;
    AddAllFresh([], xs);
  }

  /**
   * Select-all on a duplicate-free list is checking each of the section's
   * headers in turn: the old list stays in front, unchanged, followed by the
   * section's headers it lacked, and no duplicate appears.
   */
  lemma SelectAllMeaning(hs: seq<string>, section: seq<string>)
    requires NoDup(hs)
    ensures Dedupe(hs + section) == AddAll(hs, section)
    ensures var r := Dedupe(hs + section);
            r[..|hs|] == hs && NoDup(r) && forall x :: x in r <==> x in hs || x in section
  {
    AddAllConcat([], hs, section);
    DedupeIdentity(hs);
  }

  /** Unchecking a header just checked restores the list. */
  lemma {:induction false} UncheckUndoesCheck(hs: seq<string>, h: string)
    requires h !in hs
    ensures Without(AddHeader(hs, h), h) == hs
  {
    WithoutAbsent(hs, h);
    WithoutAppend(hs, h);
  }

  lemma {:induction false} WithoutAbsent(hs: seq<string>, h: string)
    requires h !in hs
    ensures Without(hs, h) == hs
  {
    if hs != [] {
      assert hs == [hs[0]] + hs[1..];
      assert hs[0] != h && h !in hs[1..];
      WithoutAbsent(hs[1..], h);
      assert Without(hs, h) == [hs[0]] + Without(hs[1..], h);
    }
  }

  lemma {:induction false} WithoutAppend(hs: seq<string>, h: string)
    ensures Without(hs + [h], h) == Without(hs, h)
  {
    if hs == [] {
      assert Without([h], h) == Without([], h);
    } else {
      assert (hs + [h])[1..] == hs[1..] + [h];
      WithoutAppend(hs[1..], h);
    }
  }

  /** Deselecting one catalog section never removes a header of the other one. */
  lemma DeselectKeepsOtherSection(hs: seq<string>)
    ensures forall h :: h in SafeHeaders ==> multiset(WithoutAll(hs, AdvancedHeaders))[h] == multiset(hs)[h]
    ensures forall h :: h in AdvancedHeaders ==> multiset(WithoutAll(hs, SafeHeaders))[h] == multiset(hs)[h]
  {
    TiersDisjoint();
  }

  // ---------------------------------------------------------------------
  // The error map

  /**
   * The controls `_handleInput` listens to, by the `id` the event carries.
   * `OtherControl` stands only for an id outside the six named ones
   * (`WellFormedControl`), so each event has one encoding.
   */
  datatype Control = NameInput | ValueInput | DomainsInput | AllDomainsSelect | IncludeDomainsSelect
                   | IntervalSelect | OtherControl(id: string)

  /** The ids of the six named controls. */
  const NamedControlIds: set<string> :=
    {"name", "value", "domains", "allDomains", "includeDomains", "randomizeInterval"}

  predicate WellFormedControl(c: Control) {
    c.OtherControl? ==> c.id !in NamedControlIds
  }

  /** The control's `id`, which is also its key in the error map. */
  function ControlId(c: Control): string {
    match c
    case NameInput => "name"
    case ValueInput => "value"
    case DomainsInput => "domains"
    case AllDomainsSelect => "allDomains"
    case IncludeDomainsSelect => "includeDomains"
    case IntervalSelect => "randomizeInterval"
    case OtherControl(id) => id
  }

  /** Well-formed controls are told apart by their ids. */
  lemma ControlIdInjective(a: Control, b: Control)
    requires WellFormedControl(a) && WellFormedControl(b)
    ensures ControlId(a) == ControlId(b) <==> a == b
  {
  }

  /** An error is shown for `key`: present and non-empty. */
  predicate HasError(errors: map<string, string>, key: string) {
    key in errors && errors[key] != ""
  }

  /** After a header change: the headers error goes once the list is non-empty. */
  function ClearHeadersError(errors: map<string, string>, headers: seq<string>): (r: map<string, string>)
    ensures "headers" in r <==> "headers" in errors && (headers == [] || errors["headers"] == "")
    ensures "headers" in r ==> r["headers"] == errors["headers"]
    ensures forall k :: k != "headers" ==> (k in r <==> k in errors) && (k in r ==> r[k] == errors[k])
  {
    if |headers| > 0 && HasError(errors, "headers") then errors - {"headers"} else errors
  }

  /** The address check `_handleInput` makes on the `value` field. */
  function ValidatedErrors(errors: map<string, string>, id: string, value: string, randomizeIp: bool,
                           otherForms: string -> bool): map<string, string>
  {
    var v := Trim(value);
    if id == "value" && v != [] && !randomizeIp then
      (if !ValidateIP(v, otherForms) then errors[id := InvalidAddressMessage] else errors - {id})
    else errors
  }

  /** The required-field step of `_handleInput`, on the raw (untrimmed) value. */
  function RequiredErrors(errors: map<string, string>, id: string, value: string, required: bool,
                          messages: string -> string): map<string, string>
  {
    if !required then errors
    else if value != [] then (if HasError(errors, id) then errors - {id} else errors)
    else if !HasError(errors, id) then errors[id := messages(RequiredMessageKey(id))]
    else errors
  }

  /** The error map `_handleInput` leaves, as written: the address check, then the required step. */
  function InputErrorsAsWritten(errors: map<string, string>, id: string, value: string, randomizeIp: bool,
                                required: bool, otherForms: string -> bool, messages: string -> string): map<string, string>
  {
    RequiredErrors(ValidatedErrors(errors, id, value, randomizeIp, otherForms), id, value, required, messages)
  }

  /**
   * As written, the required step discards the address error the check has
   * just set: the `value` input is required exactly when the check runs, and
   * a rejected address is non-empty text.
   */
  lemma InvalidAddressErrorDiscarded(errors: map<string, string>, value: string, otherForms: string -> bool,
                                     messages: string -> string)
    requires Trim(value) != [] && !ValidateIP(Trim(value), otherForms)
    ensures "value" !in InputErrorsAsWritten(errors, "value", value, false, true, otherForms, messages)
  {
    assert value != [];
  }

  /** `abc` is no address: it has no '.' to make four fields of, nor ':' to make eight groups of. */
  lemma AbcIsNoAddress()
    ensures !ValidateIP("abc", s => false)
  {
    SplitOnWithout("abc", '.');
    SplitOnWithout("abc", ':');
  }

  /** A concrete instance: typing `abc` leaves no error although no validator accepts it. */
  lemma InvalidAddressExample()
    ensures !ValidateIP("abc", s => false)
    ensures "value" !in InputErrorsAsWritten(map[], "value", "abc", false, true, s => false, k => k)
  {
    assert Trim("abc") == "abc" by {
      assert !IsSpace('a') && !IsSpace('c');
      assert LeadingSpace("abc") == 0;
    }
    AbcIsNoAddress();
    InvalidAddressErrorDiscarded(map[], "abc", s => false, k => k);
  }

  /** The error map `_handleInput` is evidently meant to leave: the required step, then the address check. */
  function InputErrors(errors: map<string, string>, id: string, value: string, randomizeIp: bool,
                       required: bool, otherForms: string -> bool, messages: string -> string): map<string, string>
  {
    ValidatedErrors(RequiredErrors(errors, id, value, required, messages), id, value, randomizeIp, otherForms)
  }

  /** Input touches only its own field's error. */
  lemma InputErrorsLocal(errors: map<string, string>, id: string, value: string, randomizeIp: bool,
                         required: bool, otherForms: string -> bool, messages: string -> string)
    ensures var r := InputErrors(errors, id, value, randomizeIp, required, otherForms, messages);
            forall k :: k != id ==> (k in r <==> k in errors) && (k in r ==> r[k] == errors[k])
  {
    var afterRequired := RequiredErrors(errors, id, value, required, messages);
    assert forall k :: k != id ==> (k in afterRequired <==> k in errors) && (k in afterRequired ==> afterRequired[k] == errors[k]);
    var r := ValidatedErrors(afterRequired, id, value, randomizeIp, otherForms);
    var v := Trim(value);
    if id == "value" && v != [] && !randomizeIp {
      if !ValidateIP(v, otherForms) {
        assert r == afterRequired[id := InvalidAddressMessage];
      } else {
        assert r == afterRequired - {id};
      }
    } else {
      assert r == afterRequired;
    }
  }

  /** A typed address is flagged exactly when the validators reject it, whatever the required step did. */
  lemma InputAddressChecked(errors: map<string, string>, value: string, randomizeIp: bool,
                            required: bool, otherForms: string -> bool, messages: string -> string)
    requires Trim(value) != [] && !randomizeIp
    ensures var r := InputErrors(errors, "value", value, randomizeIp, required, otherForms, messages);
            (HasError(r, "value") <==> !ValidateIP(Trim(value), otherForms))
            && (!ValidateIP(Trim(value), otherForms) ==> r["value"] == InvalidAddressMessage)
  {
  }

  /** An empty required field is flagged; other non-empty required input clears its field's error. */
  lemma InputRequiredChecked(errors: map<string, string>, id: string, value: string, randomizeIp: bool,
                             otherForms: string -> bool, messages: string -> string)
    ensures var r := InputErrors(errors, id, value, randomizeIp, true, otherForms, messages);
            (value == [] ==> id in r)
            && (value != [] && !(id == "value" && Trim(value) != [] && !randomizeIp) ==> !HasError(r, id))
  {
    if value == [] {
      assert Trim(value) == [];
    }
  }

  // ---------------------------------------------------------------------
  // Saving

  /** What `_save` emits: the fields of the edited profile, with `id` only when one is set. */
  datatype ProfileDraft = ProfileDraft(
    id: Option<int>,
    name: string,
    value: string,
    headers: seq<string>,
    includeDomains: bool,
    domains: seq<string>,
    randomizeIp: bool,
    randomizeInterval: Option<int>,
    useIPv6: bool)

  /** The errors `_save` finds, built from scratch. */
  function SaveErrors(name: string, value: string, headers: seq<string>, randomizeIp: bool, allDomains: bool,
                      domains: seq<string>, otherForms: string -> bool, messages: string -> string): (r: map<string, string>)
    ensures "name" in r <==> name == []
    ensures "headers" in r <==> headers == []
    ensures "value" in r <==> !randomizeIp && (value == [] || !ValidateIP(value, otherForms))
    ensures "value" in r && value != [] ==> r["value"] == InvalidAddressMessage
    ensures "domains" in r <==> !allDomains && domains == []
    ensures r.Keys <= {"name", "value", "headers", "domains"}
  {
    var required := if randomizeIp then ["name", "headers"] else ["name", "value", "headers"];
    var draftValue := if randomizeIp then "auto" else value;
    var missing := map field | field in required && (if field == "name" then name == []
                                                      else if field == "value" then draftValue == []
                                                      else headers == []) :: messages(RequiredMessageKey(field));
    assert "name" in missing <==> name == [];
    assert "value" in missing <==> !randomizeIp && value == [];
    assert "headers" in missing <==> headers == [];
    assert "domains" !in missing;
    var checked := if !randomizeIp && value != [] && !ValidateIP(value, otherForms)
                   then missing["value" := InvalidAddressMessage] else missing;
    if !allDomains && domains == [] then checked["domains" := messages(RequiredMessageKey("domains"))] else checked
  }

  /** `if (this.profileId)`: null and 0 are both absent. */
  function DraftId(profileId: Option<int>): Option<int> {
    if profileId.Some? && profileId.value != 0 then profileId else None
  }

  // ---------------------------------------------------------------------
  // The form component

  class ProfileForm {
    var profileId: Option<int>
    var name: string
    var value: string
    var randomizeIp: bool
    /** `randomizeInterval`, `None` standing for `NaN`. */
    var randomizeInterval: Option<int>
    var useIPv6: bool
    var headers: seq<string>
    var includeDomains: bool
    var domains: seq<string>
    var allDomains: bool
    var errors: map<string, string>
    /** The alternatives of the IPv6 pattern other than the full eight-group form. */
    const otherIPv6Forms: string -> bool
    /** The localised message of each key. */
    const messages: string -> string

    /** "All domains" selected means no domain list. */
    ghost predicate Valid()
      reads this
    {
      allDomains ==> domains == []
    }

    constructor (otherIPv6Forms: string -> bool, messages: string -> string)
      ensures Valid()
      ensures profileId == None && name == "" && value == "" && !randomizeIp && randomizeInterval == Some(5)
      ensures !useIPv6 && headers == [] && includeDomains && domains == [] && allDomains && errors == map[]
      ensures this.otherIPv6Forms == otherIPv6Forms && this.messages == messages
    {
      profileId := None;
      name := "";
      value := "";
      randomizeIp := false;
      randomizeInterval := Some(5);
      useIPv6 := false;
      headers := [];
      includeDomains := true;
      domains := [];
      allDomains := true;
      errors := map[];
      this.otherIPv6Forms := otherIPv6Forms;
      this.messages := messages;
    }

    /** The `headers` setter. */
    method SetHeaders(input: ListInput)
      modifies this`headers
      ensures headers == ListOf(input)
    {
      headers := ListOf(input);
    }

    /** The `domains` setter: a non-empty list turns "all domains" off. */
    method SetDomains(input: ListInput)
      modifies this`domains, this`allDomains
      ensures domains == ListOf(input)
      ensures allDomains == (old(allDomains) && domains == [])
      ensures Valid()
    {
      domains := ListOf(input);
      if |domains| > 0 && allDomains {
        allDomains := false;
      }
    }

    /** The `allDomains` setter: turning it on empties the domain list. */
    method SetAllDomains(config: bool)
      modifies this`domains, this`allDomains
      requires Valid()
      ensures allDomains == config
      ensures domains == if config then [] else old(domains)
      ensures Valid()
    {
      allDomains := config;
      if config {
        domains := [];
      }
    }

    /** `_handleHeaderCheckbox` */
    method HandleHeaderCheckbox(header: string, checked: bool)
      modifies this`headers, this`errors
      ensures headers == if checked then AddHeader(old(headers), header) else Without(old(headers), header)
      ensures errors == ClearHeadersError(old(errors), headers)
    {
      if checked {
        if header !in headers {
          headers := headers + [header];
        }
      } else {
        headers := Without(headers, header);
      }
      DropHeadersError();
    }

    /** Once some header is checked, a pending "headers" error goes away. */
    method DropHeadersError()
      modifies this`errors
      ensures errors == ClearHeadersError(old(errors), headers)
    {
      if |headers| > 0 && "headers" in errors && errors["headers"] != "" {
        errors := errors - {"headers"};
      }
    }

    /** `_selectAllHeaders` on the safe (`true`) or advanced (`false`) section. */
    method SelectAllHeaders(safe: bool, select: bool)
      modifies this`headers, this`errors
      ensures var section := if safe then SafeHeaders else AdvancedHeaders;
              headers == if select then Dedupe(old(headers) + section) else WithoutAll(old(headers), section)
      ensures errors == ClearHeadersError(old(errors), headers)
    {
      var headerList := if safe then SafeHeaders else AdvancedHeaders;
      if select {
        headers := Dedupe(headers + headerList);
      } else {
        headers := WithoutAll(headers, headerList);
      }
      DropHeadersError();
    }

    /** `_handleInput` for `control` holding `value`, with its `required` flag. */
    method HandleInput(control: Control, value: string, required: bool)
      requires Valid()
      modifies this`name, this`value, this`domains, this`allDomains, this`includeDomains, this`randomizeInterval, this`errors
      ensures Valid()
      ensures name == if control == NameInput then Trim(value) else old(name)
      ensures this.value == if control == ValueInput then Trim(value) else old(this.value)
      ensures control == DomainsInput ==> domains == SplitFields(Trim(value)) && allDomains == (old(allDomains) && domains == [])
      ensures control == AllDomainsSelect ==> allDomains == (value == "true") && domains == (if allDomains then [] else old(domains))
      ensures control != DomainsInput && control != AllDomainsSelect ==> domains == old(domains) && allDomains == old(allDomains)
      ensures includeDomains == if control == IncludeDomainsSelect then value == "true" else old(includeDomains)
      ensures randomizeInterval == if control == IntervalSelect then ParseInt(value) else old(randomizeInterval)
      ensures errors == InputErrors(old(errors), ControlId(control), value, randomizeIp, required, otherIPv6Forms, messages)
    {
      StoreInput(control, value, Trim(value), ParseInt(value));
      UpdateInputErrors(ControlId(control), value, required);
    }

    /**
     * The field bookkeeping of `_handleInput`: the new value goes to the
     * control's own field; `trimmed` is the value's trimmed text and
     * `interval` its `parseInt` reading.
     */
    method StoreInput(control: Control, value: string, trimmed: string, interval: Option<int>)
      requires Valid()
      modifies this`name, this`value, this`domains, this`allDomains, this`includeDomains, this`randomizeInterval
      ensures Valid()
      ensures name == if control == NameInput then trimmed else old(name)
      ensures this.value == if control == ValueInput then trimmed else old(this.value)
      ensures control == DomainsInput ==> domains == SplitFields(trimmed) && allDomains == (old(allDomains) && domains == [])
      ensures control == AllDomainsSelect ==> allDomains == (value == "true") && domains == (if allDomains then [] else old(domains))
      ensures control != DomainsInput && control != AllDomainsSelect ==> domains == old(domains) && allDomains == old(allDomains)
      ensures includeDomains == if control == IncludeDomainsSelect then value == "true" else old(includeDomains)
      ensures randomizeInterval == if control == IntervalSelect then interval else old(randomizeInterval)
    {
      match control {
        case NameInput => name := trimmed;
        case ValueInput => this.value := trimmed;
        case DomainsInput => SetDomains(TextValue(trimmed));
        case AllDomainsSelect => SetAllDomains(value == "true");
        case IncludeDomainsSelect => includeDomains := value == "true";
        case IntervalSelect => randomizeInterval := interval;
        case OtherControl(_) =>
      }
    }

    /** The error bookkeeping of `_handleInput`: the required step, then the address check. */
    method UpdateInputErrors(id: string, value: string, required: bool)
      modifies this`errors
      ensures errors == InputErrors(old(errors), id, value, randomizeIp, required, otherIPv6Forms, messages)
    {
      var newErrors := errors;
      if required {
        if value != [] {
          if id in newErrors && newErrors[id] != "" {
            newErrors := newErrors - {id};
          }
        } else if !(id in newErrors && newErrors[id] != "") {
          newErrors := newErrors[id := messages(RequiredMessageKey(id))];
        }
      }
      var trimmed := Trim(value);
      if id == "value" && trimmed != [] && !randomizeIp {
        if !ValidateIP(trimmed, otherIPv6Forms) {
          newErrors := newErrors[id := InvalidAddressMessage];
        } else {
          newErrors := newErrors - {id};
        }
      }
      errors := newErrors;
    }

    /** `_handleCheckbox`: turning address randomization on clears the value error. */
    method HandleCheckbox(id: string, checked: bool)
      modifies this`randomizeIp, this`useIPv6, this`errors
      ensures randomizeIp == if id == "randomizeIp" then checked else old(randomizeIp)
      ensures useIPv6 == if id == "useIPv6" then checked else old(useIPv6)
      ensures errors == if id == "randomizeIp" && checked && HasError(old(errors), "value")
                        then old(errors) - {"value"} else old(errors)
    {
      if id == "randomizeIp" {
        randomizeIp := checked;
        if randomizeIp && "value" in errors && errors["value"] != "" {
          errors := errors - {"value"};
        }
      } else if id == "useIPv6" {
        useIPv6 := checked;
      }
    }

    /** `_save`: the draft when nothing is wrong; otherwise the errors replace the old ones. */
    method Save() returns (draft: Option<ProfileDraft>)
      modifies this`errors
      ensures var found := SaveErrors(name, value, headers, randomizeIp, allDomains, domains, otherIPv6Forms, messages);
              (draft.Some? <==> found == map[])
              && (draft.None? ==> errors == found)
              && (draft.Some? ==>
                    errors == old(errors) && draft.value == ProfileDraft(DraftId(profileId), name, if randomizeIp then "auto" else value,
                                                   headers, includeDomains, domains, randomizeIp, randomizeInterval, useIPv6))
    {
      var found := SaveErrors(name, value, headers, randomizeIp, allDomains, domains, otherIPv6Forms, messages);
      if found != map[] {
        errors := found;
        return None;
      }
      var id := if profileId.Some? && profileId.value != 0 then profileId else None;
      draft := Some(ProfileDraft(id, name, if randomizeIp then "auto" else value, headers, includeDomains, domains,
                                 randomizeIp, randomizeInterval, useIPv6));
    }
  }

  /**
   * A draft that passes validation has a name and headers; a fixed address
   * passes `validateIP`, and a randomized one is the `"auto"` placeholder; the
   * domain list is empty exactly when every domain is meant.
   */
  lemma SavedDraftMeaning(name: string, value: string, headers: seq<string>, randomizeIp: bool, allDomains: bool,
                          domains: seq<string>, otherForms: string -> bool, messages: string -> string)
    requires allDomains ==> domains == []
    requires SaveErrors(name, value, headers, randomizeIp, allDomains, domains, otherForms, messages) == map[]
    ensures name != [] && headers != []
    ensures randomizeIp || (value != [] && ValidateIP(value, otherForms))
    ensures domains == [] <==> allDomains
  {
    var r := SaveErrors(name, value, headers, randomizeIp, allDomains, domains, otherForms, messages);
    assert "name" !in r && "headers" !in r && "value" !in r && "domains" !in r;
  }

  /** Clearing the domains field stores `[""]`, which counts as a domain list when saving. */
  lemma EmptyDomainsInputPassesSave(name: string, value: string, headers: seq<string>, randomizeIp: bool,
                                    otherForms: string -> bool, messages: string -> string)
    ensures ListOf(TextValue(Trim(""))) == [""]
    ensures "domains" !in SaveErrors(name, value, headers, randomizeIp, false, ListOf(TextValue(Trim(""))), otherForms, messages)
  {
    assert Trim("") == "";
    SplitFieldsOfEmpty();
  }
}
