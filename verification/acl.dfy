/**
 * The network ACL commands of the command-line client: the key=value
 * arguments of `create`, the building of a rule from key=value pairs, and
 * the adding and removing of rules in an ACL's ingress and egress lists.
 */
module ACL {
  import opened Wrappers
  import Strs
  import opened Util

  /** A network ACL rule: its string fields, named by their JSON tags. */
  datatype Rule = Rule(
    action: string, state: string, description: string, protocol: string,
    source: string, sourcePort: string, destination: string, destinationPort: string,
    icmpType: string, icmpCode: string)

  /** The JSON tags of the rule's string fields: the keys a rule can be built from or filtered by. */
  const RuleFields: seq<string> :=
    ["action", "state", "description", "protocol", "source", "source_port",
     "destination", "destination_port", "icmp_type", "icmp_code"]

  const EmptyRule := Rule("", "", "", "", "", "", "", "", "", "")

  /** The field a JSON tag names; `None` for any other key. */
  function Field(r: Rule, key: string): (v: Option<string>)
    ensures v.Some? <==> key in RuleFields
  {
    if key == "action" then Some(r.action)
    else if key == "state" then Some(r.state)
    else if key == "description" then Some(r.description)
    else if key == "protocol" then Some(r.protocol)
    else if key == "source" then Some(r.source)
    else if key == "source_port" then Some(r.sourcePort)
    else if key == "destination" then Some(r.destination)
    else if key == "destination_port" then Some(r.destinationPort)
    else if key == "icmp_type" then Some(r.icmpType)
    else if key == "icmp_code" then Some(r.icmpCode)
    else None
  }

  /** Sets the field a JSON tag names. */
  function SetField(r: Rule, key: string, v: string): (s: Rule)
    requires key in RuleFields
    ensures Field(s, key) == Some(v)
    ensures forall k :: k != key ==> Field(s, k) == Field(r, k)
  {
    if key == "action" then r.(action := v)
    else if key == "state" then r.(state := v)
    else if key == "description" then r.(description := v)
    else if key == "protocol" then r.(protocol := v)
    else if key == "source" then r.(source := v)
    else if key == "source_port" then r.(sourcePort := v)
    else if key == "destination" then r.(destination := v)
    else if key == "destination_port" then r.(destinationPort := v)
    else if key == "icmp_type" then r.(icmpType := v)
    else r.(icmpCode := v)
  }

  /** A rule is determined by its fields. */
  lemma RuleByFields(a: Rule, b: Rule)
    requires forall k :: k in RuleFields ==> Field(a, k) == Field(b, k)
    ensures a == b
  {
    SameFirstFields(a, b);
    SameLastFields(a, b);
  }

  lemma SameFirstFields(a: Rule, b: Rule)
    requires forall k :: k in RuleFields ==> Field(a, k) == Field(b, k)
    ensures a.action == b.action && a.state == b.state && a.description == b.description
    ensures a.protocol == b.protocol && a.source == b.source
  {
    assert Field(a, "action") == Field(b, "action");
    assert Field(a, "state") == Field(b, "state");
    assert Field(a, "description") == Field(b, "description");
    assert Field(a, "protocol") == Field(b, "protocol");
    assert Field(a, "source") == Field(b, "source");
  }

  lemma SameLastFields(a: Rule, b: Rule)
    requires forall k :: k in RuleFields ==> Field(a, k) == Field(b, k)
    ensures a.sourcePort == b.sourcePort && a.destination == b.destination
    ensures a.destinationPort == b.destinationPort && a.icmpType == b.icmpType && a.icmpCode == b.icmpCode
  {
    assert Field(a, "source_port") == Field(b, "source_port");
    assert Field(a, "destination") == Field(b, "destination");
    assert Field(a, "destination_port") == Field(b, "destination_port");
    assert Field(a, "icmp_type") == Field(b, "icmp_type");
    assert Field(a, "icmp_code") == Field(b, "icmp_code");
  }

  // ---------------------------------------------------------------------
  // create: key=value arguments
  // ---------------------------------------------------------------------

  function ErrBadPair(arg: string): string
  {
    "Bad key/value pair: " + arg
  }

  /**
   * The configuration after the given key=value arguments, applied in order
   * on top of `base`: a later value for a key replaces an earlier one, and
   * the first argument without "=" is an error.
   */
  function KeyValues(base: Config, args: seq<string>): Result<Config>
  {
    if |args| == 0 then Ok(base)
    else
      var last := args[|args| - 1];
      match KeyValues(base, args[..|args| - 1])
      case Err(m) => Err(m)
      case Ok(c) =>
        var entry := Strs.SplitN2(last, '=');
        if |entry| < 2 then Err(ErrBadPair(last)) else Ok(c[entry[0] := entry[1]])
  }

  /** The arguments are accepted exactly when each holds an "=". */
  lemma {:induction false} KeyValuesOkIff(base: Config, args: seq<string>)
    ensures KeyValues(base, args).Ok? <==> forall i :: 0 <= i < |args| ==> '=' in args[i]
  {
    if |args| > 0 {
      var init := args[..|args| - 1];
      var last := args[|args| - 1];
      KeyValuesOkIff(base, init);
      assert args == init + [last];
      var entry := Strs.SplitN2(last, '=');
      assert |entry| < 2 <==> '=' !in last;
    }
  }

  /** Once accepted, every key written before an argument's first "=" is set. */
  lemma {:induction false} KeyValuesSetsKeys(base: Config, args: seq<string>)
    requires KeyValues(base, args).Ok?
    ensures forall i :: 0 <= i < |args| ==> Strs.SplitN2(args[i], '=')[0] in KeyValues(base, args).value
  {
    if |args| > 0 {
      var init := args[..|args| - 1];
      var last := args[|args| - 1];
      KeyValuesSetsKeys(base, init);
      var c := KeyValues(base, init).value;
      var entry := Strs.SplitN2(last, '=');
      assert KeyValues(base, args).value == c[entry[0] := entry[1]];
      forall i | 0 <= i < |args| ensures Strs.SplitN2(args[i], '=')[0] in KeyValues(base, args).value {
        if i < |init| {
          assert init[i] == args[i];
        }
      }
    }
  }

  /** A refusal reports the first argument without an "=". */
  lemma {:induction false} KeyValuesFirstBad(base: Config, args: seq<string>)
    requires KeyValues(base, args).Err?
    ensures exists i :: BadPairAt(args, i) && KeyValues(base, args).msg == ErrBadPair(args[i])
  {
    var init := args[..|args| - 1];
    var last := args[|args| - 1];
    if KeyValues(base, init).Err? {
      KeyValuesFirstBad(base, init);
      var i :| BadPairAt(init, i) && KeyValues(base, init).msg == ErrBadPair(init[i]);
      assert init[i] == args[i];
      assert BadPairAt(args, i);
    } else {
      KeyValuesOkIff(base, init);
      assert forall j :: 0 <= j < |init| ==> init[j] == args[j];
      assert BadPairAt(args, |args| - 1);
    }
  }

  /** Argument `i` is the first without an "=". */
  predicate BadPairAt(args: seq<string>, i: int)
  {
    0 <= i < |args| && '=' !in args[i] && forall j :: 0 <= j < i ==> '=' in args[j]
  }

  /** A single key=value argument whose key holds no "=" sets that key to that value. */
  lemma KeyValuesSingle(base: Config, key: string, value: string)
    requires '=' !in key
    ensures KeyValues(base, [key + "=" + value]) == Ok(base[key := value])
  {
    Strs.SplitN2Concat(key, '=', value);
    assert [key + "=" + value][..0] == [];
  }

  /** Once a prefix of the arguments is refused, so is the whole list, with the same error. */
  lemma {:induction false} KeyValuesErrPrefix(base: Config, args: seq<string>, n: nat)
    requires n <= |args| && KeyValues(base, args[..n]).Err?
    ensures KeyValues(base, args) == KeyValues(base, args[..n])
    decreases |args| - n
  {
    if n < |args| {
      var init := args[..|args| - 1];
      assert init[..n] == args[..n];
      KeyValuesErrPrefix(base, init, n);
    } else {
      assert args[..n] == args;
    }
  }

  /** `args[0]` names the ACL; every later argument is a key=value pair. */
  method CreateConfig(base: Config, args: seq<string>) returns (r: Result<Config>)
    requires |args| >= 1
    ensures r == KeyValues(base, args[1..])
  {
    var config := base;
    var i := 1;
    while i < |args|
      invariant 1 <= i <= |args|
      invariant KeyValues(base, args[1..][..i - 1]) == Ok(config)
    {
      KeyValuesStep(base, args[1..], i - 1);
      var entry := Strs.SplitN2(args[i], '=');
      if |entry| < 2 {
        KeyValuesErrPrefix(base, args[1..], i);
        return Err(ErrBadPair(args[i]));
      }
      config := config[entry[0] := entry[1]];
      i := i + 1;
    }
    assert args[1..][..i - 1] == args[1..];
    return Ok(config);
  }

  /** One more argument sets its key, or is refused when it holds no "=". */
  lemma KeyValuesStep(base: Config, args: seq<string>, n: nat)
    requires n < |args| && KeyValues(base, args[..n]).Ok?
    ensures KeyValues(base, args[..n + 1]) ==
      (var entry := Strs.SplitN2(args[n], '=');
       if |entry| < 2 then Err(ErrBadPair(args[n])) else Ok(KeyValues(base, args[..n]).value[entry[0] := entry[1]]))
  {
    assert args[..n + 1][..n] == args[..n];
  }

  // ---------------------------------------------------------------------
  // A rule from key=value pairs
  // ---------------------------------------------------------------------

  function ErrUnknownKey(k: string): string
  {
    "Unknown key: " + k
  }

  /** The first key (in iteration order) that names no rule field. */
  function FirstUnknown(order: seq<string>): (r: Option<string>)
    ensures r.None? <==> forall i :: 0 <= i < |order| ==> order[i] in RuleFields
    ensures r.Some? ==> r.value in order && r.value !in RuleFields
  {
    if |order| == 0 then None
    else if order[0] !in RuleFields then Some(order[0])
    else FirstUnknown(order[1..])
  }

  /** The rule whose every field is the configured value, "" when not configured. */
  function RuleOf(config: Config): (r: Rule)
    ensures forall k :: k in RuleFields ==> Field(r, k) == Some(Get(config, k))
  {
    Rule(Get(config, "action"), Get(config, "state"), Get(config, "description"), Get(config, "protocol"),
         Get(config, "source"), Get(config, "source_port"), Get(config, "destination"), Get(config, "destination_port"),
         Get(config, "icmp_type"), Get(config, "icmp_code"))
  }

  function RuleFromConfig(config: Config, order: seq<string>): (r: Result<Rule>)
    requires KeyOrder(config, order)
    ensures r.Ok? <==> forall k :: k in config ==> k in RuleFields
    ensures r.Err? ==> exists k :: k in config && k !in RuleFields && r.msg == ErrUnknownKey(k)
  {
    match FirstUnknown(order)
    case Some(k) => Err(ErrUnknownKey(k))
    case None => Ok(RuleOf(config))
  }

  /**
   * Sets each configured field of a new rule in turn; a key that names no
   * string field of a rule is an error.
   */
  method ParseConfigToRule(config: Config, order: seq<string>) returns (r: Result<Rule>)
    requires KeyOrder(config, order)
    ensures r == RuleFromConfig(config, order)
  {
    var rule := EmptyRule;
    var i := 0;
    while i < |order|
      invariant 0 <= i <= |order|
      invariant FirstUnknown(order) == FirstUnknown(order[i..])
      invariant rule == SetFields(config, order[..i])
    {
      FirstUnknownStep(order, i);
      var k := order[i];
      if k !in RuleFields {
        return Err(ErrUnknownKey(k));
      }
      SetFieldsStep(config, order, i);
      rule := SetField(rule, k, Get(config, k));
      i := i + 1;
    }
    assert order[..i] == order;
    SetFieldsMeaning(config, order);
    AllFieldsSet(rule, config, order);
    return Ok(rule);
  }

  lemma FirstUnknownStep(order: seq<string>, i: nat)
    requires i < |order|
    ensures FirstUnknown(order[i..]) == if order[i] !in RuleFields then Some(order[i]) else FirstUnknown(order[i + 1..])
  {
    assert order[i..][0] == order[i] && order[i..][1..] == order[i + 1..];
  }

  lemma SetFieldsStep(config: Config, keys: seq<string>, i: nat)
    requires i < |keys| && keys[i] in RuleFields
    ensures SetFields(config, keys[..i + 1]) == SetField(SetFields(config, keys[..i]), keys[i], Get(config, keys[i]))
  {
    assert keys[..i + 1][..i] == keys[..i];
  }

  /** A new rule with the field of each of `keys` that names one set to its configured value, in turn. */
  function SetFields(config: Config, keys: seq<string>): Rule
  {
    if |keys| == 0 then EmptyRule
    else
      var last := keys[|keys| - 1];
      var rule := SetFields(config, keys[..|keys| - 1]);
      if last in RuleFields then SetField(rule, last, Get(config, last)) else rule
  }

  /** After setting the fields in turn, each holds its configured value if its key is among `keys`. */
  lemma {:induction false} SetFieldsMeaning(config: Config, keys: seq<string>)
    ensures FieldsSoFar(SetFields(config, keys), config, keys)
  {
    if |keys| == 0 {
      forall k | k in RuleFields ensures Field(EmptyRule, k) == Some("") {
        EmptyRuleFields(k);
      }
    } else {
      var init := keys[..|keys| - 1];
      var last := keys[|keys| - 1];
      assert keys == init + [last];
      SetFieldsMeaning(config, init);
      if last in RuleFields {
        SetFieldStep(SetFields(config, init), config, init, last);
      } else {
        forall k | k in RuleFields ensures (k in keys <==> k in init) {
          assert k in init + [last] <==> k in init || k == last;
        }
      }
    }
  }

  lemma EmptyRuleFields(k: string)
    requires k in RuleFields
    ensures Field(EmptyRule, k) == Some("")
  {
  }

  /** Once every configured key has been set, the rule is the configured one. */
  lemma AllFieldsSet(rule: Rule, config: Config, order: seq<string>)
    requires KeyOrder(config, order) && FieldsSoFar(rule, config, order)
    ensures rule == RuleOf(config)
  {
    forall k | k in RuleFields ensures Field(rule, k) == Field(RuleOf(config), k) {
      assert k in order <==> k in config;
    }
    RuleByFields(rule, RuleOf(config));
  }

  /** Each field of `rule` holds its configured value if its key is among `keys`, and "" otherwise. */
  predicate FieldsSoFar(rule: Rule, config: Config, keys: seq<string>)
  {
    forall k :: k in RuleFields ==> Field(rule, k) == Some(if k in keys then Get(config, k) else "")
  }

  lemma SetFieldStep(rule: Rule, config: Config, keys: seq<string>, key: string)
    requires FieldsSoFar(rule, config, keys) && key in RuleFields
    ensures FieldsSoFar(SetField(rule, key, Get(config, key)), config, keys + [key])
  {
    var next := SetField(rule, key, Get(config, key));
    forall k | k in RuleFields
      ensures Field(next, k) == Some(if k in keys + [key] then Get(config, k) else "")
    {
      assert k in keys + [key] <==> k in keys || k == key;
    }
  }

  // ---------------------------------------------------------------------
  // The ACL's rule lists
  // ---------------------------------------------------------------------

  const ErrDirection := "The direction argument must be one of: ingress, egress"
  const ErrNoMatch := "No matching rule(s) found"
  const ErrMultipleMatch := "Multiple rules match. Use --force to remove them all"

  /**
   * The rule `rule add` appends: built from the pairs, given the
   * description flag when that is set, normalised, and "enabled" when it
   * names no state.
   */
  function NewRule(keys: Config, order: seq<string>, description: string, normalise: Rule -> Rule): (r: Result<Rule>)
    requires KeyOrder(keys, order)
    ensures r.Ok? <==> RuleFromConfig(keys, order).Ok?
    ensures r.Ok? ==> r.value.state != ""
    ensures r.Ok? ==> var n := normalise(if description != "" then RuleOf(keys).(description := description) else RuleOf(keys));
      r.value == (if n.state == "" then n.(state := "enabled") else n)
  {
    match RuleFromConfig(keys, order)
    case Err(m) => Err(m)
    case Ok(rule) =>
      var described := if description != "" then rule.(description := description) else rule;
      var n := normalise(described);
      Ok(if n.state == "" then n.(state := "enabled") else n)
  }

  /** Whether every filtered field of the rule holds the filter's value (an empty filter matches every rule). */
  predicate Matches(rule: Rule, filters: Config)
  {
    forall k :: k in filters ==> Field(rule, k) == Some(filters[k])
  }

  /** Compares the filtered fields one at a time, giving up at the first difference. */
  method IsFilterMatch(rule: Rule, filters: Config, order: seq<string>) returns (b: bool)
    requires KeyOrder(filters, order)
    ensures b == Matches(rule, filters)
  {
    var i := 0;
    while i < |order|
      invariant 0 <= i <= |order|
      invariant forall j :: 0 <= j < i ==> Field(rule, order[j]) == Some(Get(filters, order[j]))
    {
      var k := order[i];
      var f := Field(rule, k);
      if f.None? || f.value != Get(filters, k) {
        MismatchAt(rule, filters, order, i);
        return false;
      }
      i := i + 1;
    }
    MatchesInOrder(rule, filters, order);
    return true;
  }

  /** A filtered key whose field differs rules the match out. */
  lemma MismatchAt(rule: Rule, filters: Config, order: seq<string>, i: nat)
    requires KeyOrder(filters, order) && i < |order|
    requires Field(rule, order[i]) != Some(Get(filters, order[i]))
    ensures !Matches(rule, filters)
  {
    assert order[i] in filters;
  }

  /** Every filtered key, visited in order, agreeing with its field makes a match. */
  lemma MatchesInOrder(rule: Rule, filters: Config, order: seq<string>)
    requires KeyOrder(filters, order)
    requires forall j :: 0 <= j < |order| ==> Field(rule, order[j]) == Some(Get(filters, order[j]))
    ensures Matches(rule, filters)
  {
    forall k | k in filters ensures Field(rule, k) == Some(filters[k]) {
      assert k in order;
      var j :| 0 <= j < |order| && order[j] == k;
    }
  }

  /** The rules the filter does not match, in their order. */
  function Kept(rules: seq<Rule>, filters: Config): (r: seq<Rule>)
    ensures |r| <= |rules|
  {
    if |rules| == 0 then []
    else Kept(rules[..|rules| - 1], filters) + (if Matches(rules[|rules| - 1], filters) then [] else [rules[|rules| - 1]])
  }

  function MatchCount(rules: seq<Rule>, filters: Config): nat
  {
    if |rules| == 0 then 0
    else MatchCount(rules[..|rules| - 1], filters) + (if Matches(rules[|rules| - 1], filters) then 1 else 0)
  }

  /** removeFromRules: drop the one match, or every match when forced. */
  function RemoveVerdict(rules: seq<Rule>, filters: Config, force: bool): Result<seq<Rule>>
  {
    var n := MatchCount(rules, filters);
    if n == 0 then Err(ErrNoMatch)
    else if n > 1 && !force then Err(ErrMultipleMatch)
    else Ok(Kept(rules, filters))
  }

  /** Keeping is done list by list: the kept rules keep their relative order. */
  lemma {:induction false} KeptAppend(a: seq<Rule>, b: seq<Rule>, filters: Config)
    ensures Kept(a + b, filters) == Kept(a, filters) + Kept(b, filters)
    ensures MatchCount(a + b, filters) == MatchCount(a, filters) + MatchCount(b, filters)
    decreases |b|
  {
    if |b| == 0 {
      assert a + b == a;
    } else {
      var b' := b[..|b| - 1];
      assert (a + b)[..|a + b| - 1] == a + b';
      assert (a + b)[|a + b| - 1] == b[|b| - 1];
      KeptAppend(a, b', filters);
    }
  }

  /**
   * The kept rules are exactly the rules the filter does not match, and
   * they and the matched ones together are all the rules.
   */
  lemma {:induction false} KeptMeaning(rules: seq<Rule>, filters: Config)
    ensures forall r :: r in Kept(rules, filters) <==> r in rules && !Matches(r, filters)
    ensures |Kept(rules, filters)| + MatchCount(rules, filters) == |rules|
    ensures MatchCount(rules, filters) == 0 ==> Kept(rules, filters) == rules
  {
    KeptMembers(rules, filters);
    KeptCount(rules, filters);
  }

  /** The kept rules are exactly the rules the filters do not match. */
  lemma {:induction false} KeptMembers(rules: seq<Rule>, filters: Config)
    ensures forall r :: r in Kept(rules, filters) <==> r in rules && !Matches(r, filters)
  {
    if |rules| > 0 {
      var init, last := rules[..|rules| - 1], rules[|rules| - 1];
      KeptMembers(init, filters);
      assert rules == init + [last];
      var tail := if Matches(last, filters) then [] else [last];
      assert Kept(rules, filters) == Kept(init, filters) + tail;
      forall r ensures r in Kept(rules, filters) <==> r in rules && !Matches(r, filters) {
        assert r in Kept(rules, filters) <==> r in Kept(init, filters) || r in tail;
        assert r in rules <==> r in init || r == last;
      }
    }
  }

  /** Every rule is either kept or counted as a match; with no match, all are kept. */
  lemma {:induction false} KeptCount(rules: seq<Rule>, filters: Config)
    ensures |Kept(rules, filters)| + MatchCount(rules, filters) == |rules|
    ensures MatchCount(rules, filters) == 0 ==> Kept(rules, filters) == rules
  {
    if |rules| > 0 {
      var init := rules[..|rules| - 1];
      KeptCount(init, filters);
      assert rules == init + [rules[|rules| - 1]];
    }
  }


  /** An empty filter matches every rule: it removes a lone rule, and more only when forced. */
  lemma {:induction false} EmptyFilterMatchesAll(rules: seq<Rule>, force: bool)
    ensures MatchCount(rules, map[]) == |rules|
    ensures Kept(rules, map[]) == []
    ensures RemoveVerdict(rules, map[], force) ==
      (if |rules| == 0 then Err(ErrNoMatch) else if |rules| > 1 && !force then Err(ErrMultipleMatch) else Ok([]))
  {
    if |rules| > 0 {
      EmptyFilterMatchesAll(rules[..|rules| - 1], force);
    }
  }

  lemma MatchCountPrefix(rules: seq<Rule>, filters: Config, i: nat)
    requires i <= |rules|
    ensures MatchCount(rules[..i], filters) <= MatchCount(rules, filters)
  {
    KeptAppend(rules[..i], rules[i..], filters);
    assert rules[..i] + rules[i..] == rules;
  }

  lemma KeptStep(rules: seq<Rule>, filters: Config, i: nat)
    requires i < |rules|
    ensures Kept(rules[..i + 1], filters) == Kept(rules[..i], filters) + (if Matches(rules[i], filters) then [] else [rules[i]])
    ensures MatchCount(rules[..i + 1], filters) == MatchCount(rules[..i], filters) + (if Matches(rules[i], filters) then 1 else 0)
  {
    assert rules[..i + 1][..i] == rules[..i];
  }

  /** A second match among the first rules already refuses an unforced removal. */
  lemma SecondMatch(rules: seq<Rule>, filters: Config, i: nat)
    requires i < |rules| && MatchCount(rules[..i + 1], filters) > 1
    ensures RemoveVerdict(rules, filters, false) == Err(ErrMultipleMatch)
  {
    MatchCountPrefix(rules, filters, i + 1);
  }

  /**
   * Walks the rules once, keeping the unmatched ones; a second match without
   * force stops the walk with an error.
   */
  method RemoveFromRules(rules: seq<Rule>, filters: Config, order: seq<string>, force: bool) returns (r: Result<seq<Rule>>)
    requires KeyOrder(filters, order)
    ensures r == RemoveVerdict(rules, filters, force)
  {
    var removed := false;
    var newRules: seq<Rule> := [];
    var i := 0;
    while i < |rules|
      invariant 0 <= i <= |rules|
      invariant newRules == Kept(rules[..i], filters)
      invariant removed <==> MatchCount(rules[..i], filters) > 0
      invariant !force ==> MatchCount(rules[..i], filters) <= 1
    {
      KeptStep(rules, filters, i);
      ghost var seen := MatchCount(rules[..i], filters);
      var matched := IsFilterMatch(rules[i], filters, order);
      if matched {
        assert MatchCount(rules[..i + 1], filters) == seen + 1;
        if removed && !force {
          SecondMatch(rules, filters, i);
          return Err(ErrMultipleMatch);
        }
        assert !force ==> seen == 0;
        removed := true;
      } else {
        newRules := newRules + [rules[i]];
      }
      i := i + 1;
    }
    assert rules[..i] == rules;
    if !removed {
      return Err(ErrNoMatch);
    }
    return Ok(newRules);
  }

  /** Checks the filter keys in turn; the first that names no rule field is reported. */
  method UnknownFilterKey(order: seq<string>) returns (r: Option<string>)
    ensures r == FirstUnknown(order)
  {
    var i := 0;
    while i < |order|
      invariant 0 <= i <= |order|
      invariant FirstUnknown(order) == FirstUnknown(order[i..])
    {
      FirstUnknownStep(order, i);
      if order[i] !in RuleFields {
        return Some(order[i]);
      }
      i := i + 1;
    }
    return None;
  }

  /** A network ACL's ingress and egress rule lists. */
  class NetworkACL {
    var ingress: seq<Rule>
    var egress: seq<Rule>

    constructor (ingress: seq<Rule>, egress: seq<Rule>)
      ensures this.ingress == ingress && this.egress == egress
    {
      this.ingress := ingress;
      this.egress := egress;
    }

    /**
     * `rule add`: the rule goes at the end of the list the direction names,
     * and the other list stays as it was.
     */
    method AddRule(direction: string, keys: Config, order: seq<string>, description: string, normalise: Rule -> Rule)
      returns (r: Outcome)
      requires KeyOrder(keys, order)
      modifies this
      ensures r.Pass? <==> NewRule(keys, order, description, normalise).Ok? && direction in ["ingress", "egress"]
      ensures r.Fail? ==> ingress == old(ingress) && egress == old(egress)
      ensures r.Fail? && NewRule(keys, order, description, normalise).Ok? ==> r.msg == ErrDirection
      ensures r.Pass? && direction == "ingress" ==>
        ingress == old(ingress) + [NewRule(keys, order, description, normalise).value] && egress == old(egress)
      ensures r.Pass? && direction == "egress" ==>
        egress == old(egress) + [NewRule(keys, order, description, normalise).value] && ingress == old(ingress)
    {
      var parsed := ParseConfigToRule(keys, order);
      if parsed.Err? {
        return Fail(parsed.msg);
      }
      var rule := parsed.value;
      if description != "" {
        rule := rule.(description := description);
      }
      rule := normalise(rule);
      if rule.state == "" {
        rule := rule.(state := "enabled");
      }
      if direction == "ingress" {
        ingress := ingress + [rule];
      } else if direction == "egress" {
        egress := egress + [rule];
      } else {
        return Fail(ErrDirection);
      }
      return Pass;
    }

    /**
     * `rule remove`: every filter key must name a rule field; then the
     * matching rules leave the list the direction names.
     */
    method RemoveRules(direction: string, filters: Config, order: seq<string>, force: bool) returns (r: Outcome)
      requires KeyOrder(filters, order)
      modifies this
      ensures FirstUnknown(order).Some? ==> r == Fail(ErrUnknownKey(FirstUnknown(order).value))
      ensures r.Pass? <==>
        FirstUnknown(order).None? && direction in ["ingress", "egress"] &&
        RemoveVerdict(if direction == "ingress" then old(ingress) else old(egress), filters, force).Ok?
      ensures r.Fail? ==> ingress == old(ingress) && egress == old(egress)
      ensures r.Pass? && direction == "ingress" ==>
        ingress == Kept(old(ingress), filters) && egress == old(egress)
      ensures r.Pass? && direction == "egress" ==>
        egress == Kept(old(egress), filters) && ingress == old(ingress)
    {
      var unknown := UnknownFilterKey(order);
      if unknown.Some? {
        return Fail(ErrUnknownKey(unknown.value));
      }
      if direction == "ingress" {
        var rules := RemoveFromRules(ingress, filters, order, force);
        if rules.Err? {
          return Fail(rules.msg);
        }
        ingress := rules.value;
      } else if direction == "egress" {
        var rules := RemoveFromRules(egress, filters, order, force);
        if rules.Err? {
          return Fail(rules.msg);
        }
        egress := rules.value;
      } else {
        return Fail(ErrDirection);
      }
      return Pass;
    }
  }
}
