/**
 * The shared validator library: a validator takes a configuration value
 * and returns nil (`Pass`) or an error (`Fail`). Combinators build larger
 * validators from smaller ones; the checks below them test integers,
 * network numbers, names, DHCP route lists and CPU sets.
 */
module Validate {
  import opened Wrappers
  import Strs
  import Net

  type Validator = string -> Outcome

  /** fmt's %q for the strings validators quote (escaping is not modelled). */
  function Quote(v: string): string
  {
    "\"" + v + "\""
  }

  // ---------------------------------------------------------------------
  // Combinators
  // ---------------------------------------------------------------------

  /** Runs the validators in order and stops at the first error. */
  function FirstFailure(vs: seq<Validator>, value: string): (r: Outcome)
    ensures r.Pass? <==> forall i :: 0 <= i < |vs| ==> vs[i](value).Pass?
    decreases |vs|
  {
    if |vs| == 0 then Pass
    else if vs[0](value).Fail? then vs[0](value)
    else FirstFailure(vs[1..], value)
  }

  /** Every validator must pass. */
  function And(vs: seq<Validator>): Validator
  {
    (value: string) => FirstFailure(vs, value)
  }

  /** The same as `And`. */
  function Required(vs: seq<Validator>): Validator
  {
    And(vs)
  }

  /** The empty value passes; any other value must pass every validator. */
  function Optional(vs: seq<Validator>): Validator
  {
    (value: string) => if value == "" then Pass else Required(vs)(value)
  }

  /** Whether some validator accepts the value, trying them in order. */
  function SomePasses(vs: seq<Validator>, value: string): (b: bool)
    ensures b <==> exists i :: 0 <= i < |vs| && vs[i](value).Pass?
    decreases |vs|
  {
    |vs| > 0 && (vs[0](value).Pass? || SomePasses(vs[1..], value))
  }

  /** At least one validator must pass. */
  function Or(vs: seq<Validator>): Validator
  {
    (value: string) => if SomePasses(vs, value) then Pass else Fail(Quote(value) + " isn't a valid value")
  }

  /** `And` passes exactly when every validator passes. */
  lemma AndPassIff(vs: seq<Validator>, value: string)
    ensures And(vs)(value).Pass? <==> forall i :: 0 <= i < |vs| ==> vs[i](value).Pass?
  {
  }

  /** When `And` fails, it returns the error of the first failing validator. */
  lemma {:induction false} AndFirstError(vs: seq<Validator>, value: string, k: nat)
    requires k < |vs| && vs[k](value).Fail?
    requires forall i :: 0 <= i < k ==> vs[i](value).Pass?
    ensures And(vs)(value) == vs[k](value)
    decreases k
  {
    if k > 0 {
      assert vs[0](value).Pass?;
      AndFirstError(vs[1..], value, k - 1);
      assert And(vs[1..])(value) == FirstFailure(vs[1..], value);
    }
  }

  /** `Or` passes exactly when some validator passes. */
  lemma OrPassIff(vs: seq<Validator>, value: string)
    ensures Or(vs)(value).Pass? <==> exists i :: 0 <= i < |vs| && vs[i](value).Pass?
  {
  }

  /** `Optional` accepts "" whatever its validators say. */
  lemma OptionalEmpty(vs: seq<Validator>)
    ensures Optional(vs)("") == Pass
  {
  }

  /** On any value but "", `Optional` behaves like `And`. */
  lemma OptionalNonEmpty(vs: seq<Validator>, value: string)
    requires value != ""
    ensures Optional(vs)(value) == And(vs)(value)
  {
    assert Optional(vs)(value) == Required(vs)(value);
  }

  // ---------------------------------------------------------------------
  // Simple checks
  // ---------------------------------------------------------------------

  function IsInt64(value: string): Outcome
  {
    if Strs.ParseInt(value, 64).None? then Fail("Invalid value for an integer " + Quote(value)) else Pass
  }

  function IsUint8(value: string): Outcome
  {
    if Strs.ParseUint(value, 8).None? then
      Fail("Invalid value for an integer " + Quote(value) + ". Must be between 0 and 255")
    else Pass
  }

  function IsUint32(value: string): Outcome
  {
    if Strs.ParseUint(value, 32).None? then Fail("Invalid value for uint32 " + Quote(value)) else Pass
  }

  /** The check behind `IsInRange(minValue, maxValue)`. */
  function InRange(minValue: int, maxValue: int, value: string): (r: Outcome)
    ensures r.Pass? ==> Strs.ParseInt(value, 64).Some?
    ensures r.Pass? ==> minValue <= Strs.ParseInt(value, 64).value <= maxValue
  {
    match Strs.ParseInt(value, 64)
      case None => Fail("Invalid value for an integer " + Quote(value))
      case Some(n) =>
        if n < minValue || n > maxValue then
          Fail("Value isn't within valid range. Must be between " + Strs.IntToString(minValue)
               + " and " + Strs.IntToString(maxValue))
        else Pass
  }

  function IsInRange(minValue: int, maxValue: int): Validator
  {
    (value: string) => InRange(minValue, maxValue, value)
  }

  /** A 64-bit integer, rendered in decimal, is accepted exactly when it lies in the range. */
  lemma IsInRangeAccepts(minValue: int, maxValue: int, n: int)
    requires -(Strs.Pow2(63) as int) <= n < Strs.Pow2(63)
    ensures IsInRange(minValue, maxValue)(Strs.IntToString(n)).Pass? <==> minValue <= n <= maxValue
  {
    Strs.ParseIntRender(n, 64);
  }

  /** Anything that is not a 64-bit decimal integer is rejected. */
  lemma IsInRangeRejectsNonIntegers(minValue: int, maxValue: int, value: string)
    requires Strs.ParseInt(value, 64).None?
    ensures IsInRange(minValue, maxValue)(value) == Fail("Invalid value for an integer " + Quote(value))
  {
  }

  /** A priority is an integer from 0 to 10. */
  function IsPriority(value: string): (r: Outcome)
    ensures r.Pass? ==> InRange(0, 10, value).Pass?
    ensures InRange(0, 10, value).Pass? ==> r.Pass?
  {
    match Strs.ParseInt(value, 64)
      case None => Fail("Invalid value for an integer " + Quote(value))
      case Some(n) =>
        if n < 0 || n > 10 then Fail("Invalid value for a limit " + Quote(value) + ". Must be between 0 and 10")
        else Pass
  }

  const BoolWords: seq<string> := ["true", "false", "yes", "no", "1", "0", "on", "off"]

  function IsBool(value: string): (r: Outcome)
    ensures r.Pass? <==> Strs.ToLower(value) in BoolWords
  {
    if Strs.ToLower(value) !in BoolWords then Fail("Invalid value for a boolean " + Quote(value)) else Pass
  }

  function IsOneOf(valid: seq<string>): Validator
  {
    (value: string) => if value !in valid then Fail("Invalid value " + Quote(value) + " (not one of " + ListText(valid) + ")") else Pass
  }

  /** A list of strings as Go's `%s` prints a slice: bracketed and space-separated. */
  function ListText(items: seq<string>): string
  {
    "[" + Strs.Join(items, ' ') + "]"
  }

  /**
   * A value is accepted iff it is one of the allowed values; a refusal
   * lists them as Go prints a slice, e.g. `[gre vxlan]`.
   */
  lemma IsOneOfVerdict(valid: seq<string>, value: string)
    ensures IsOneOf(valid)(value).Pass? <==> value in valid
    ensures value !in valid ==>
      IsOneOf(valid)(value) == Fail("Invalid value " + Quote(value) + " (not one of " + ListText(valid) + ")")
    ensures ListText(["gre", "vxlan"]) == "[gre vxlan]"
  {
    assert Strs.Join(["gre", "vxlan"], ' ') == "gre" + " " + Strs.Join(["vxlan"], ' ');
  }

  function IsAny(value: string): Outcome
  {
    Pass
  }

  function IsNotEmpty(value: string): (r: Outcome)
    ensures r.Pass? <==> value != ""
  {
    if value == "" then Fail("Required value") else Pass
  }

  function IsShorterThan(length: int): Validator
  {
    (value: string) =>
      if Strs.ByteLen(value) > length then
        Fail("Value is too long. Must be within " + Strs.IntToString(length) + " characters")
      else Pass
  }

  /** The characters that may not appear in a URL path segment, in the order they are tried. */
  const URLUnsafe: seq<char> := ['/', '?', '&', '+']

  function FirstContained(value: string, chars: seq<char>): (r: Option<char>)
    ensures r.None? <==> forall i :: 0 <= i < |chars| ==> chars[i] !in value
    ensures r.Some? ==> r.value in chars && r.value in value
  {
    if |chars| == 0 then None
    else if chars[0] in value then Some(chars[0])
    else FirstContained(value, chars[1..])
  }

  function IsURLSegmentSafe(value: string): (r: Outcome)
    ensures r.Pass? <==> '/' !in value && '?' !in value && '&' !in value && '+' !in value
  {
    assert URLUnsafe == ['/', '?', '&', '+'];
    match FirstContained(value, URLUnsafe)
      case None =>
        assert URLUnsafe[0] !in value && URLUnsafe[1] !in value;
        assert URLUnsafe[2] !in value && URLUnsafe[3] !in value;
        Pass
      case Some(c) => Fail("Cannot contain " + Quote([c]))
  }

  // ---------------------------------------------------------------------
  // Names
  // ---------------------------------------------------------------------

  predicate IsLetter(c: char)
  {
    'a' <= c <= 'z' || 'A' <= c <= 'Z'
  }

  predicate InterfaceChar(c: char)
  {
    c == '-' || c == '_' || c == '.' || IsLetter(c) || Strs.IsDigit(c)
  }

  /** A kernel interface name: 2 to 15 bytes of letters, digits, '-', '_' and '.'. */
  function IsInterfaceName(value: string): (r: Outcome)
    ensures r.Pass? <==> 2 <= |value| <= 15 && forall i :: 0 <= i < |value| ==> InterfaceChar(value[i])
  {
    if Strs.ByteLen(value) < 2 then Fail("Network interface is too short (minimum 2 characters)")
    else if Strs.ByteLen(value) > 15 then Fail("Network interface is too long (maximum 15 characters)")
    else if !(forall i :: 0 <= i < |value| ==> InterfaceChar(value[i])) then
      Fail("Network interface contains invalid characters")
    else Pass
  }

  /**
   * A network name: an interface name that is also URL-safe and has no ':'.
   * The interface characters hold none of the URL-unsafe ones nor ':', so
   * the two later checks never decide: the verdict is the interface one.
   */
  function IsNetworkName(value: string): (r: Outcome)
    ensures r.Pass? <==> 2 <= |value| <= 15 && (forall i :: 0 <= i < |value| ==> InterfaceChar(value[i])) &&
                         IsURLSegmentSafe(value).Pass? && ':' !in value
    ensures r == IsInterfaceName(value)
  {
    var e := IsInterfaceName(value);
    if e.Fail? then e
    else
      var u := IsURLSegmentSafe(value);
      if u.Fail? then u
      else if ':' in value then Fail("Cannot contain " + Quote(":"))
      else Pass
  }

  predicate HostnameChar(c: char)
  {
    c == '-' || IsLetter(c) || Strs.IsDigit(c)
  }

  /**
   * A DNS host name label: 1 to 63 bytes of letters, digits and '-', not
   * starting or ending with '-', and not a number.
   */
  function IsHostname(name: string): (r: Outcome)
    ensures r.Pass? ==> 1 <= |name| <= 63 && name[0] != '-' && name[|name| - 1] != '-'
    ensures r.Pass? ==> forall i :: 0 <= i < |name| ==> HostnameChar(name[i])
    ensures r.Pass? && Strs.AllDigits(name) ==> Strs.DecimalValue(name) >= Strs.Pow2(64)
    ensures (&& 1 <= |name| <= 63 && name[0] != '-' && name[|name| - 1] != '-'
             && (forall i :: 0 <= i < |name| ==> HostnameChar(name[i]))
             && (exists i :: 0 <= i < |name| && IsLetter(name[i]))) ==> r.Pass?
  {
    if Strs.ByteLen(name) < 1 || Strs.ByteLen(name) > 63 then Fail("Name must be 1-63 characters long")
    else if name[0] == '-' then Fail("Name must not start with \"-\" character")
    else if name[|name| - 1] == '-' then Fail("Name must not end with \"-\" character")
    else if Strs.ParseUint(name, 64).Some? then Fail("Name cannot be a number")
    else if !(forall i :: 0 <= i < |name| ==> HostnameChar(name[i])) then
      Fail("Name can only contain alphanumeric and hyphen characters")
    else Pass
  }

  /**
   * The number test in `IsHostname` relies on 64-bit parsing, so an all-digit
   * name too large for 64 bits passes: every number from 2^64
   * ("18446744073709551616") up to 2^66 is accepted as a host name.
   */
  lemma IsHostnameAcceptsHugeNumber(n: nat)
    requires Strs.Pow2(64) <= n < Strs.Pow2(66)
    ensures Strs.AllDigits(Strs.NatToString(n))
    ensures IsHostname(Strs.NatToString(n)).Pass?
  {
    HugeNumberShape(n);
    IsHostnamePassWhen(Strs.NatToString(n));
  }

  /** A name of the right length, shape and characters passes unless it reads as a 64-bit number. */
  lemma IsHostnamePassWhen(name: string)
    requires 1 <= |name| <= 63 && Strs.ByteLen(name) == |name| && name[0] != '-' && name[|name| - 1] != '-'
    requires forall i :: 0 <= i < |name| ==> HostnameChar(name[i])
    requires Strs.ParseUint(name, 64) == None
    ensures IsHostname(name) == Pass
  {
  }

  /** A number below 2^66 written out is a short run of ASCII digits. */
  lemma HugeNumberShape(n: nat)
    requires n < Strs.Pow2(66)
    ensures var s := Strs.NatToString(n);
      && 1 <= |s| <= 63 && Strs.ByteLen(s) == |s| && s[0] != '-' && s[|s| - 1] != '-'
      && (forall i :: 0 <= i < |s| ==> HostnameChar(s[i]))
  {
    var s := Strs.NatToString(n);
    Strs.NatToStringShort(n, 22);
    AsciiDigits(s);
  }

  lemma AsciiDigits(s: string)
    requires Strs.AllDigits(s)
    ensures forall i :: 0 <= i < |s| ==> s[i] as int < 0x80 && HostnameChar(s[i])
  {
  }

  /**
   * The host name check as evidently meant: a name made only of digits is a
   * number and is rejected whatever its size.
   */
  function IsHostnameStrict(name: string): (r: Outcome)
    ensures r.Pass? ==> 1 <= |name| <= 63 && name[0] != '-' && name[|name| - 1] != '-'
    ensures r.Pass? ==> forall i :: 0 <= i < |name| ==> HostnameChar(name[i])
    ensures r.Pass? ==> !Strs.AllDigits(name)
    ensures r.Pass? <==> IsHostname(name).Pass? && !Strs.AllDigits(name)
  {
    if Strs.ByteLen(name) < 1 || Strs.ByteLen(name) > 63 then Fail("Name must be 1-63 characters long")
    else if name[0] == '-' then Fail("Name must not start with \"-\" character")
    else if name[|name| - 1] == '-' then Fail("Name must not end with \"-\" character")
    else if Strs.AllDigits(name) then Fail("Name cannot be a number")
    else if !(forall i :: 0 <= i < |name| ==> HostnameChar(name[i])) then
      Fail("Name can only contain alphanumeric and hyphen characters")
    else Pass
  }

  // ---------------------------------------------------------------------
  // Addresses (the text parsers are passed in)
  // ---------------------------------------------------------------------

  /** An IPv4 network in CIDR form, written with its network address. */
  function IsNetworkV4(p: Net.Parsers, value: string): Outcome
  {
    match p.parseCIDR(value)
      case None => Fail("invalid CIDR address: " + value)
      case Some((ip, subnet)) =>
        if ip.family != Net.V4 then Fail("Not an IPv4 network " + Quote(value))
        else if ip.value != Net.First(subnet) then Fail("Not an IPv4 network address " + Quote(value))
        else Pass
  }

  /** An IPv4 address. */
  function IsNetworkAddressV4(p: Net.Parsers, value: string): Outcome
  {
    match p.parseIP(value)
      case Some(ip) => if ip.family == Net.V4 then Pass else Fail("Not an IPv4 address " + Quote(value))
      case None => Fail("Not an IPv4 address " + Quote(value))
  }

  /** An IPv4 or IPv6 address. */
  function IsNetworkAddress(p: Net.Parsers, value: string): Outcome
  {
    if p.parseIP(value).None? then Fail("Not an IP address " + Quote(value)) else Pass
  }

  /** An IPv4 host address in CIDR form (not the network address itself). */
  function IsNetworkAddressCIDRV4(p: Net.Parsers, value: string): Outcome
  {
    match p.parseCIDR(value)
      case None => Fail("invalid CIDR address: " + value)
      case Some((ip, subnet)) =>
        if ip.family != Net.V4 then Fail("Not an IPv4 address " + Quote(value))
        else if ip.value == Net.First(subnet) then Fail("Not a usable IPv4 address " + Quote(value))
        else Pass
  }

  /** An IPv6 network in CIDR form, written with its network address. */
  function IsNetworkV6(p: Net.Parsers, value: string): Outcome
  {
    match p.parseCIDR(value)
      case None => Fail("invalid CIDR address: " + value)
      case Some((ip, subnet)) =>
        if ip.family != Net.V6 then Fail("Not an IPv6 network " + Quote(value))
        else if ip.value != Net.First(subnet) then Fail("Not an IPv6 network address " + Quote(value))
        else Pass
  }

  // ---------------------------------------------------------------------
  // Network numbers
  // ---------------------------------------------------------------------

  /** An IEEE 802.1Q VLAN ID, 0 to 4094. */
  function IsNetworkVLAN(value: string): (r: Outcome)
    ensures r.Pass? <==> Strs.Atoi(value).Some? && 0 <= Strs.Atoi(value).value <= 4094
  {
    match Strs.Atoi(value)
      case None => Fail("Invalid VLAN ID " + Quote(value))
      case Some(id) => if id < 0 || id > 4094 then Fail("Out of VLAN ID range (0-4094) " + Quote(value)) else Pass
  }

  /** An MTU from the IPv6 minimum, 1280, up to the largest jumbo frame, 16384. */
  function IsNetworkMTU(value: string): (r: Outcome)
    ensures r.Pass? <==> Strs.IsDecimal(value) && 1280 <= Strs.DecimalValue(value) <= 16384
  {
    match Strs.ParseUint(value, 32)
      case None =>
        Strs.Pow2Values();
        Fail("Invalid MTU " + Quote(value))
      case Some(mtu) => if mtu < 1280 || mtu > 16384 then Fail("Out of MTU range (1280-16384) " + Quote(value)) else Pass
  }

  /** Exactly the numbers 1280 to 16384 are accepted as MTUs. */
  lemma IsNetworkMTUAccepts(n: nat)
    ensures IsNetworkMTU(Strs.NatToString(n)).Pass? <==> 1280 <= n <= 16384
  {
  }

  /** An IP port number, 0 to 65535. */
  function IsNetworkPort(value: string): (r: Outcome)
    ensures r.Pass? <==> Strs.IsDecimal(value) && Strs.DecimalValue(value) <= 65535
  {
    match Strs.ParseUint(value, 32)
      case None =>
        Strs.Pow2Values();
        Fail("Invalid port number " + Quote(value))
      case Some(port) => if port > 65535 then Fail("Out of port number range (0-65535) " + Quote(value)) else Pass
  }

  /**
   * A port range, "port" or "start-end" with start strictly below end. The
   * numbers are read as 32-bit unsigned integers and are not bounded by 65535.
   */
  function IsNetworkPortRange(value: string): (r: Outcome)
    ensures r.Pass? ==> forall i :: 0 <= i < |Strs.SplitN2(value, '-')| ==>
      Strs.ParseUint(Strs.SplitN2(value, '-')[i], 32).Some?
    ensures r.Pass? && '-' in value ==>
      Strs.ParseUint(Strs.SplitN2(value, '-')[0], 32).value < Strs.ParseUint(Strs.SplitN2(value, '-')[1], 32).value
  {
    var ports := Strs.SplitN2(value, '-');
    match Strs.ParseUint(ports[0], 32)
      case None => Fail("Invalid port number " + Quote(value))
      case Some(startPort) =>
        if |ports| == 2 then
          match Strs.ParseUint(ports[1], 32)
            case None => Fail("Invalid end port number " + Quote(value))
            case Some(endPort) =>
              if startPort >= endPort then
                Fail("Start port " + Strs.NatToString(startPort) + " must be lower than end port " + Strs.NatToString(endPort))
              else Pass
        else Pass
  }

  /** A single 32-bit number is accepted as a port range, whatever its size. */
  lemma IsNetworkPortRangeSingle(n: nat)
    requires n < Strs.Pow2(32)
    ensures IsNetworkPortRange(Strs.NatToString(n)) == Pass
  {
    Strs.SplitPartsFree(Strs.NatToString(n), '-');
  }

  /** Two 32-bit numbers around one '-' pass the range check exactly when the first is smaller. */
  lemma PortRangeOfParts(s: string, x: string, y: string, a: nat, b: nat)
    requires Strs.SplitN2(s, '-') == [x, y]
    requires Strs.ParseUint(x, 32) == Some(a) && Strs.ParseUint(y, 32) == Some(b)
    ensures IsNetworkPortRange(s).Pass? <==> a < b
  {
  }

  /** "a-b" is accepted exactly when a < b; in particular "a-a" is rejected. */
  lemma IsNetworkPortRangePair(a: nat, b: nat)
    requires a < Strs.Pow2(32) && b < Strs.Pow2(32)
    ensures IsNetworkPortRange(Strs.NatToString(a) + "-" + Strs.NatToString(b)).Pass? <==> a < b
  {
    var sa, sb := Strs.NatToString(a), Strs.NatToString(b);
    Strs.SplitN2Concat(sa, '-', sb);
    Strs.ParseUintRender(a, 32);
    Strs.ParseUintRender(b, 32);
    PortRangeOfParts(sa + "-" + sb, sa, sb, a, b);
  }

  /**
   * The port range check lets through a port number above 65535 ("70000"
   * passes), which the single-port check rejects.
   */
  lemma IsNetworkPortRangeAcceptsLargePort(n: nat)
    requires 65535 < n < Strs.Pow2(32)
    ensures IsNetworkPortRange(Strs.NatToString(n)) == Pass
    ensures IsNetworkPort(Strs.NatToString(n)).Fail?
  {
    IsNetworkPortRangeSingle(n);
  }

  /**
   * The port range check as evidently meant: each number is also a valid
   * port, 0 to 65535, as `IsNetworkPort` requires.
   */
  function IsNetworkPortRangeBounded(value: string): (r: Outcome)
    ensures r.Pass? ==> IsNetworkPortRange(value).Pass?
    ensures r.Pass? ==> forall i :: 0 <= i < |Strs.SplitN2(value, '-')| ==>
      IsNetworkPort(Strs.SplitN2(value, '-')[i]).Pass?
  {
    var ports := Strs.SplitN2(value, '-');
    match Strs.ParseUint(ports[0], 32)
      case None => Fail("Invalid port number " + Quote(value))
      case Some(startPort) =>
        if startPort > 65535 then Fail("Out of port number range (0-65535) " + Quote(value))
        else if |ports| == 2 then
          match Strs.ParseUint(ports[1], 32)
            case None => Fail("Invalid end port number " + Quote(value))
            case Some(endPort) =>
              if endPort > 65535 then Fail("Out of port number range (0-65535) " + Quote(value))
              else if startPort >= endPort then
                Fail("Start port " + Strs.NatToString(startPort) + " must be lower than end port " + Strs.NatToString(endPort))
              else Pass
        else Pass
  }

  /** With the bound, two 32-bit numbers around one '-' pass exactly when a < b <= 65535. */
  lemma BoundedPortRangeOfParts(s: string, x: string, y: string, a: nat, b: nat)
    requires Strs.SplitN2(s, '-') == [x, y]
    requires Strs.ParseUint(x, 32) == Some(a) && Strs.ParseUint(y, 32) == Some(b)
    ensures IsNetworkPortRangeBounded(s).Pass? <==> a < b <= 65535
  {
  }

  /** With the bound, "a-b" is accepted exactly when a < b <= 65535. */
  lemma IsNetworkPortRangeBoundedPair(a: nat, b: nat)
    requires a < Strs.Pow2(32) && b < Strs.Pow2(32)
    ensures IsNetworkPortRangeBounded(Strs.NatToString(a) + "-" + Strs.NatToString(b)).Pass?
      <==> a < b <= 65535
  {
    var sa, sb := Strs.NatToString(a), Strs.NatToString(b);
    Strs.SplitN2Concat(sa, '-', sb);
    Strs.ParseUintRender(a, 32);
    Strs.ParseUintRender(b, 32);
    BoundedPortRangeOfParts(sa + "-" + sb, sa, sb, a, b);
  }

  // ---------------------------------------------------------------------
  // Lists
  // ---------------------------------------------------------------------

  /** The first item (after trimming) the validator rejects, wrapped with the item. */
  function ListOfFrom(validator: Validator, items: seq<string>, i: nat): (r: Outcome)
    requires i <= |items|
    ensures r.Pass? <==> forall j :: i <= j < |items| ==> validator(Strs.TrimSpace(items[j])).Pass?
    decreases |items| - i
  {
    if i == |items| then Pass
    else
      var v := Strs.TrimSpace(items[i]);
      match validator(v)
        case Fail(msg) => Fail("Item " + Quote(v) + ": " + msg)
        case Pass => ListOfFrom(validator, items, i + 1)
  }

  /** A comma-separated list whose every trimmed item passes the validator. */
  method IsListOf(validator: Validator, value: string) returns (r: Outcome)
    ensures r == ListOfFrom(validator, Strs.Split(value, ','), 0)
    ensures r.Pass? <==> forall j :: 0 <= j < |Strs.Split(value, ',')| ==>
      validator(Strs.TrimSpace(Strs.Split(value, ',')[j])).Pass?
  {
    var items := Strs.Split(value, ',');
    var i := 0;
    while i < |items|
      invariant 0 <= i <= |items|
      invariant ListOfFrom(validator, items, 0) == ListOfFrom(validator, items, i)
    {
      var v := Strs.TrimSpace(items[i]);
      var err := validator(v);
      if err.Fail? {
        return Fail("Item " + Quote(v) + ": " + err.msg);
      }
      i := i + 1;
    }
    return Pass;
  }

  /** Subnets at even positions, gateways at odd positions. */
  function RouteItem(p: Net.Parsers, i: nat, item: string): Outcome
  {
    if i % 2 == 0 then IsNetworkV4(p, item) else IsNetworkAddressV4(p, item)
  }

  /** The first failing item from position i on, then the missing-gateway check. */
  function RouteListFrom(p: Net.Parsers, parts: seq<string>, i: nat): (r: Outcome)
    requires 1 <= |parts| && i <= |parts|
    decreases |parts| - i
  {
    if i == |parts| then
      if |parts| % 2 != 0 then Fail("missing gateway for route " + parts[|parts| - 1]) else Pass
    else if RouteItem(p, i, parts[i]).Fail? then RouteItem(p, i, parts[i])
    else RouteListFrom(p, parts, i + 1)
  }

  lemma {:induction false} RouteListFromPass(p: Net.Parsers, parts: seq<string>, i: nat)
    requires 1 <= |parts| && i <= |parts|
    ensures RouteListFrom(p, parts, i).Pass? <==>
      |parts| % 2 == 0 && forall j :: i <= j < |parts| ==> RouteItem(p, j, parts[j]).Pass?
    decreases |parts| - i
  {
    if i < |parts| {
      RouteListFromPass(p, parts, i + 1);
    }
  }

  /**
   * A DHCP classless static route list (section 2 of RFC 3442): comma-separated
   * pairs of an IPv4 network and an IPv4 gateway.
   */
  method IsDHCPRouteList(p: Net.Parsers, value: string) returns (r: Outcome)
    ensures r == RouteListFrom(p, Strs.Split(value, ','), 0)
  {
    var parts := Strs.Split(value, ',');
    var i := 0;
    while i < |parts|
      invariant 0 <= i <= |parts|
      invariant RouteListFrom(p, parts, 0) == RouteListFrom(p, parts, i)
    {
      var err := if i % 2 == 0 then IsNetworkV4(p, parts[i]) else IsNetworkAddressV4(p, parts[i]);
      if err.Fail? {
        return err;
      }
      i := i + 1;
    }
    if |parts| % 2 != 0 {
      return Fail("missing gateway for route " + parts[|parts| - 1]);
    }
    return Pass;
  }

  /**
   * A route list passes exactly when it has an even number of items, every
   * even item is an IPv4 network and every odd item an IPv4 address.
   */
  lemma DHCPRouteListPassIff(p: Net.Parsers, value: string)
    ensures var parts := Strs.Split(value, ',');
      RouteListFrom(p, parts, 0).Pass? <==>
        && |parts| % 2 == 0
        && (forall j :: 0 <= j < |parts| && j % 2 == 0 ==> IsNetworkV4(p, parts[j]).Pass?)
        && (forall j :: 0 <= j < |parts| && j % 2 == 1 ==> IsNetworkAddressV4(p, parts[j]).Pass?)
  {
    var parts := Strs.Split(value, ',');
    RouteListFromPass(p, parts, 0);
    assert forall j :: 0 <= j < |parts| ==>
      (RouteItem(p, j, parts[j]) == if j % 2 == 0 then IsNetworkV4(p, parts[j]) else IsNetworkAddressV4(p, parts[j]));
  }

  // ---------------------------------------------------------------------
  // VLAN ranges
  // ---------------------------------------------------------------------

  /** A VLAN range "n" or "start-end", as its first ID and its number of IDs. */
  function ParseNetworkVLANRange(vlan: string): (r: Result<(int, int)>)
    ensures r.Ok? ==> 0 <= r.value.0 && 1 <= r.value.1 && r.value.0 + r.value.1 - 1 <= 4094
  {
    if IsNetworkVLAN(vlan).Pass? then
      Ok((Strs.Atoi(vlan).value, 1))
    else
      var vlanRange := Strs.Split(vlan, '-');
      if |vlanRange| != 2 then Err("Invalid VLAN range input: " + vlan)
      else if IsNetworkVLAN(vlanRange[0]).Fail? || IsNetworkVLAN(vlanRange[1]).Fail? then
        Err("Invalid VLAN range boundary. start:" + vlanRange[0] + ", end:" + vlanRange[1])
      else
        var start := Strs.Atoi(vlanRange[0]).value;
        var end := Strs.Atoi(vlanRange[1]).value;
        if start > end then
          Err("Invalid VLAN range boundary. start:" + Strs.IntToString(start) + " is higher than end:" + Strs.IntToString(end))
        else Ok((start, end - start + 1))
  }

  lemma VLANIDRender(n: nat)
    requires n <= 4094
    ensures Strs.Atoi(Strs.NatToString(n)) == Some(n as int)
  {
    Strs.Pow2Values();
    Strs.Pow2Mono(12, 63);
    Strs.ParseIntRender(n, 64);
  }

  /** A single ID n in 0..4094 gives the range (n, 1); an ID above 4094 is an error. */
  lemma ParseNetworkVLANRangeSingle(n: nat)
    ensures n <= 4094 ==> ParseNetworkVLANRange(Strs.NatToString(n)) == Ok((n as int, 1))
    ensures n > 4094 ==> ParseNetworkVLANRange(Strs.NatToString(n)).Err?
  {
    var s := Strs.NatToString(n);
    if n <= 4094 {
      VLANIDRender(n);
    } else {
      Strs.SplitNoSep(s, '-');
      assert IsNetworkVLAN(s).Fail? by {
        Strs.ParseIntOfDecimal(s, 64);
      }
    }
  }

  /** Two valid IDs around one '-' give the range from the first to the second, if it is not empty. */
  lemma VLANRangeOfParts(s: string, x: string, y: string, a: nat, b: nat)
    requires Strs.Atoi(s) == None && Strs.Split(s, '-') == [x, y]
    requires Strs.Atoi(x) == Some(a as int) && Strs.Atoi(y) == Some(b as int) && a <= 4094 && b <= 4094
    ensures ParseNetworkVLANRange(s) == if a <= b then Ok((a as int, b - a + 1)) else
      Err("Invalid VLAN range boundary. start:" + Strs.IntToString(a) + " is higher than end:" + Strs.IntToString(b))
  {
  }

  /** "a-b" with both IDs valid gives (a, b - a + 1) when a <= b and an error otherwise. */
  lemma ParseNetworkVLANRangePair(a: nat, b: nat)
    requires a <= 4094 && b <= 4094
    ensures a <= b ==> ParseNetworkVLANRange(Strs.NatToString(a) + "-" + Strs.NatToString(b)) == Ok((a as int, b - a + 1))
    ensures a > b ==> ParseNetworkVLANRange(Strs.NatToString(a) + "-" + Strs.NatToString(b)).Err?
  {
    var sa, sb := Strs.NatToString(a), Strs.NatToString(b);
    Strs.SplitConcat(sa, '-', sb);
    Strs.SplitNoSep(sb, '-');
    Strs.DashPairNotInt(sa, sb, 64);
    VLANIDRender(a);
    VLANIDRender(b);
    VLANRangeOfParts(sa + "-" + sb, sa, sb, a, b);
  }

  // ---------------------------------------------------------------------
  // CPU sets
  // ---------------------------------------------------------------------

  predicate CPUSetChar(c: char)
  {
    Strs.IsDigit(c) || c == ',' || c == '-'
  }

  /** The ',' and '-' characters of a string, in order. */
  function Separators(s: string): (seps: seq<char>)
    ensures Strs.AllDigits(s) ==> seps == []
    decreases |s|
  {
    if |s| == 0 then []
    else (if s[0] == ',' || s[0] == '-' then [s[0]] else []) + Separators(s[1..])
  }

  /**
   * The accepted CPU set syntax: runs of digits separated by single ',' or
   * '-' characters, where after the first two runs every separator may be
   * ',' or '-' only if the first or the second separator was a ','.
   */
  predicate CPUSetSyntax(s: string)
  {
    && |s| > 0
    && (forall i :: 0 <= i < |s| ==> CPUSetChar(s[i]))
    && Strs.IsDigit(s[0]) && Strs.IsDigit(s[|s| - 1])
    && (forall i :: 1 <= i < |s| ==> Strs.IsDigit(s[i - 1]) || Strs.IsDigit(s[i]))
    && (var seps := Separators(s); |seps| <= 1 || seps[0] == ',' || seps[1] == ',')
  }

  /** The CPUs low, low + 1, ..., high, each once (none when low > high). */
  function CPURange(low: int, high: int): (m: multiset<int>)
    ensures forall x :: m[x] == if low <= x <= high then 1 else 0
    decreases high - low
  {
    if low > high then multiset{} else multiset{low} + CPURange(low + 1, high)
  }

  /** The CPUs one comma-separated chunk names: "n" or "low-high". */
  function ChunkCPUs(chunk: string): Option<multiset<int>>
  {
    if '-' in chunk then
      var fields := Strs.SplitN2(chunk, '-');
      var low := Strs.ParseInt(fields[0], 64);
      var high := Strs.ParseInt(fields[1], 64);
      if low.Some? && high.Some? then Some(CPURange(low.value, high.value)) else None
    else
      var nr := Strs.ParseInt(chunk, 64);
      if nr.Some? then Some(multiset{nr.value}) else None
  }

  /** Every CPU the chunks name, counted once per mention; `None` if a chunk does not parse. */
  function ChunksCPUs(chunks: seq<string>): Option<multiset<int>>
    decreases |chunks|
  {
    if |chunks| == 0 then Some(multiset{})
    else
      var before := ChunksCPUs(chunks[..|chunks| - 1]);
      var last := ChunkCPUs(chunks[|chunks| - 1]);
      if before.Some? && last.Some? then Some(before.value + last.value) else None
  }

  /** Once a prefix of the chunks fails to parse, so does the whole list. */
  lemma {:induction false} ChunksCPUsPrefixFails(chunks: seq<string>, k: nat)
    requires k <= |chunks| && ChunksCPUs(chunks[..k]).None?
    ensures ChunksCPUs(chunks).None?
    decreases |chunks|
  {
    if k < |chunks| {
      var init := chunks[..|chunks| - 1];
      assert init[..k] == chunks[..k];
      ChunksCPUsPrefixFails(init, k);
    } else {
      assert chunks[..k] == chunks;
    }
  }

  /** One chunk that does not parse spoils the whole list. */
  lemma ChunksCPUsFails(chunks: seq<string>, k: nat)
    requires k < |chunks| && ChunkCPUs(chunks[k]).None?
    ensures ChunksCPUs(chunks).None?
  {
    var upto := chunks[..k + 1];
    assert upto[..|upto| - 1] == chunks[..k];
    assert ChunksCPUs(upto).None?;
    ChunksCPUsPrefixFails(chunks, k + 1);
  }

  /** What `IsValidCPUSet` decides for a value. */
  function CPUSetVerdict(value: string): Outcome
  {
    if !CPUSetSyntax(value) then Fail("Invalid CPU limit syntax")
    else match Strs.ParseInt(value, 64)
      case Some(cpu) => if cpu < 1 then Fail("Invalid cpuset value: " + value) else Pass
      case None =>
        match ChunksCPUs(Strs.Split(value, ','))
          case None => Fail("Invalid cpuset value: " + value)
          case Some(cpus) =>
            if exists x :: x in cpus && cpus[x] > 1 then Fail("Cannot define CPU multiple times") else Pass
  }

  function Count(cpus: map<int, int>, x: int): int
  {
    if x in cpus then cpus[x] else 0
  }

  /** Counts one more mention of each CPU from low to high. */
  method AddRange(cpus: map<int, int>, low: int, high: int) returns (out: map<int, int>)
    ensures forall x :: Count(out, x) == Count(cpus, x) + CPURange(low, high)[x]
  {
    out := cpus;
    var i := low;
    assert CPURange(low, i - 1) == multiset{};
    while i <= high
      invariant low <= i
      invariant low <= high ==> i <= high + 1
      invariant low > high ==> i == low
      invariant forall x :: Count(out, x) == Count(cpus, x) + CPURange(low, i - 1)[x]
      decreases high - i
    {
      out := out[i := Count(out, i) + 1];
      i := i + 1;
    }
    assert CPURange(low, i - 1) == CPURange(low, high);
  }

  /** The counter of the range loop as written, after `n` rounds of Go's int64 `i++` from `low`. */
  function Counter64(low: int, n: nat): int
  {
    if n == 0 then low else Strs.Inc64(Counter64(low, n - 1))
  }

  /** However many rounds it makes, the int64 counter stays an int64, so never exceeds the largest one. */
  lemma {:induction false} CounterStaysInt64(low: int, n: nat)
    requires Strs.InInt(low)
    ensures Strs.InInt(Counter64(low, n))
  {
    if n > 0 {
      CounterStaysInt64(low, n - 1);
    }
  }

  /**
   * As written, the range loop of `IsValidCPUSet` never ends when the high
   * end `b` is the largest int64 ("0-9223372036854775807,1", say): the
   * value passes the syntax check, is no single number, its first chunk
   * splits into a and b, which both parse, and after any number of rounds
   * the int64 counter still satisfies `i <= high`.
   */
  lemma CPURangeLoopNeverEnds(a: nat, b: nat, c: nat, n: nat)
    requires a < Strs.Pow2(63) && c < Strs.Pow2(63) && b == Strs.MaxInt
    ensures var s := Strs.NatToString(a) + "-" + Strs.NatToString(b) + "," + Strs.NatToString(c);
      CPUSetSyntax(s) && Strs.ParseInt(s, 64) == None
    ensures var sa, sb := Strs.NatToString(a), Strs.NatToString(b);
      Strs.Split(sa + "-" + sb + "," + Strs.NatToString(c), ',')[0] == sa + "-" + sb &&
      Strs.SplitN2(sa + "-" + sb, '-') == [sa, sb]
    ensures Strs.ParseInt(Strs.NatToString(a), 64) == Some(a) && Strs.ParseInt(Strs.NatToString(b), 64) == Some(b)
    ensures Counter64(a, n) <= b
  {
    Strs.Pow2Of63();
    var sa, sb, sc := Strs.NatToString(a), Strs.NatToString(b), Strs.NatToString(c);
    var s := sa + "-" + sb + "," + sc;
    assert CPUSetSyntax(s) && Strs.ParseInt(s, 64) == None by {
      RangeListSyntax(sa, sb, sc);
      RangeListNotInt(sa, sb, sc);
    }
    assert Strs.Split(s, ',')[0] == sa + "-" + sb by {
      RangeListSplit(sa, sb, sc);
    }
    assert Strs.SplitN2(sa + "-" + sb, '-') == [sa, sb] by {
      Strs.DigitsFree(sa, '-');
      Strs.SplitN2Concat(sa, '-', sb);
    }
    assert Strs.ParseInt(sa, 64) == Some(a) && Strs.ParseInt(sb, 64) == Some(b) by {
      Strs.ParseIntOfNat(a, 64);
      Strs.ParseIntOfNat(b, 64);
    }
    CounterStaysInt64(a, n);
  }

  /** Counts the CPUs of one chunk, or reports that it does not parse. */
  method CountChunk(cpus: map<int, int>, chunk: string) returns (ok: bool, out: map<int, int>)
    ensures ok <==> ChunkCPUs(chunk).Some?
    ensures ok ==> forall x :: Count(out, x) == Count(cpus, x) + ChunkCPUs(chunk).value[x]
  {
    out := cpus;
    if '-' in chunk {
      var fields := Strs.SplitN2(chunk, '-');
      var low := Strs.ParseInt(fields[0], 64);
      if low.None? {
        return false, out;
      }
      var high := Strs.ParseInt(fields[1], 64);
      if high.None? {
        return false, out;
      }
      out := AddRange(cpus, low.value, high.value);
    } else {
      var nr := Strs.ParseInt(chunk, 64);
      if nr.None? {
        return false, out;
      }
      out := cpus[nr.value := Count(cpus, nr.value) + 1];
    }
    return true, out;
  }

  /**
   * Checks a CPU set such as "0-3,8": the syntax first, then a single
   * number must be at least 1, and in a list no CPU may be named twice.
   */
  method IsValidCPUSet(value: string) returns (r: Outcome)
    ensures r == CPUSetVerdict(value)
  {
    if !CPUSetSyntax(value) {
      return Fail("Invalid CPU limit syntax");
    }
    var single := Strs.ParseInt(value, 64);
    if single.Some? {
      if single.value < 1 {
        return Fail("Invalid cpuset value: " + value);
      }
      return Pass;
    }
    var chunks := Strs.Split(value, ',');
    var ok, cpus := CountCPUs(chunks);
    if !ok {
      return Fail("Invalid cpuset value: " + value);
    }
    DuplicatesAgree(cpus, ChunksCPUs(chunks).value);
    if exists x :: x in cpus && cpus[x] > 1 {
      return Fail("Cannot define CPU multiple times");
    }
    return Pass;
  }

  /** Counts the mentions of each CPU, chunk by chunk, stopping at the first chunk that does not parse. */
  method CountCPUs(chunks: seq<string>) returns (ok: bool, cpus: map<int, int>)
    ensures ok <==> ChunksCPUs(chunks).Some?
    ensures ok ==> forall x :: Count(cpus, x) == ChunksCPUs(chunks).value[x]
  {
    cpus := map[];
    var k := 0;
    while k < |chunks|
      invariant 0 <= k <= |chunks|
      invariant ChunksCPUs(chunks[..k]).Some?
      invariant forall x :: Count(cpus, x) == ChunksCPUs(chunks[..k]).value[x]
    {
      var chunkOk;
      chunkOk, cpus := CountChunk(cpus, chunks[k]);
      if !chunkOk {
        ChunksCPUsFails(chunks, k);
        return false, cpus;
      }
      ChunksCPUsStep(chunks, k);
      k := k + 1;
    }
    assert chunks[..k] == chunks;
    return true, cpus;
  }

  lemma ChunksCPUsStep(chunks: seq<string>, k: nat)
    requires k < |chunks| && ChunksCPUs(chunks[..k]).Some? && ChunkCPUs(chunks[k]).Some?
    ensures ChunksCPUs(chunks[..k + 1]) == Some(ChunksCPUs(chunks[..k]).value + ChunkCPUs(chunks[k]).value)
  {
    assert chunks[..k + 1][..k] == chunks[..k];
  }

  /** Counts that agree with a multiset have a repeated CPU exactly when the multiset does. */
  lemma DuplicatesAgree(cpus: map<int, int>, all: multiset<int>)
    requires forall x :: Count(cpus, x) == all[x]
    ensures (exists x :: x in cpus && cpus[x] > 1) <==> (exists x :: x in all && all[x] > 1)
  {
    if exists x :: x in cpus && cpus[x] > 1 {
      var x :| x in cpus && cpus[x] > 1;
      assert Count(cpus, x) == all[x];
    }
    if exists x :: x in all && all[x] > 1 {
      var x :| x in all && all[x] > 1;
      assert Count(cpus, x) == all[x];
    }
  }

  /** A run of digits is in the CPU set syntax. */
  lemma DecimalSyntax(s: string)
    requires Strs.IsDecimal(s)
    ensures CPUSetSyntax(s)
  {
    assert Strs.IsDigit(s[0]) && Strs.IsDigit(s[|s| - 1]);
    assert Separators(s) == [];
  }

  /** A single positive number is a valid CPU set; 0 is not. */
  lemma CPUSetSingle(n: nat)
    requires n < Strs.Pow2(63)
    ensures CPUSetVerdict(Strs.NatToString(n)) == if n >= 1 then Pass else Fail("Invalid cpuset value: " + Strs.NatToString(n))
    ensures n == 0 ==> Strs.NatToString(n) == "0"
  {
    var s := Strs.NatToString(n);
    DecimalSyntax(s);
    Strs.ParseIntOfNat(n, 64);
  }

  /** Two chunks count the CPUs of both. */
  lemma ChunksPair(a: string, b: string)
    ensures ChunksCPUs([a, b]) ==
      if ChunkCPUs(a).Some? && ChunkCPUs(b).Some? then Some(ChunkCPUs(a).value + ChunkCPUs(b).value) else None
  {
    var none: seq<string> := [];
    assert [a, b][..1] == [a] && [a][..0] == none;
    assert ChunksCPUs(none) == Some(multiset{});
    if ChunkCPUs(a).Some? {
      assert multiset{} + ChunkCPUs(a).value == ChunkCPUs(a).value;
    }
  }

  /** The separators of a concatenation are those of each part, in order. */
  lemma {:induction false} SeparatorsConcat(x: string, y: string)
    ensures Separators(x + y) == Separators(x) + Separators(y)
    decreases |x|
  {
    if |x| == 0 {
      assert x + y == y;
    } else {
      assert (x + y)[1..] == x[1..] + y;
      SeparatorsConcat(x[1..], y);
    }
  }

  /** "a-b,c", with a, b and c runs of digits, has only allowed characters, never two separators in a row. */
  lemma RangeListChars(sa: string, sb: string, sc: string)
    requires Strs.IsDecimal(sa) && Strs.IsDecimal(sb) && Strs.IsDecimal(sc)
    ensures var s := sa + "-" + sb + "," + sc;
      && (forall i :: 0 <= i < |s| ==> CPUSetChar(s[i]))
      && Strs.IsDigit(s[0]) && Strs.IsDigit(s[|s| - 1])
      && (forall i :: 1 <= i < |s| ==> Strs.IsDigit(s[i - 1]) || Strs.IsDigit(s[i]))
  {
    var s := sa + "-" + sb + "," + sc;
    var p, q := |sa|, |sa| + 1 + |sb|;
    assert forall i :: 0 <= i < p ==> s[i] == sa[i];
    assert s[p] == '-' && s[q] == ',';
    assert forall i :: p < i < q ==> s[i] == sb[i - p - 1];
    assert forall i :: q < i < |s| ==> s[i] == sc[i - q - 1];
    forall i | 1 <= i < |s| ensures Strs.IsDigit(s[i - 1]) || Strs.IsDigit(s[i]) {
      if i == p + 1 {
        assert s[i] == sb[0];
      } else if i == q + 1 {
        assert s[i] == sc[0];
      }
    }
  }

  /** The separators of "a-b,c" are '-' and then ','. */
  lemma RangeListSeparators(sa: string, sb: string, sc: string)
    requires Strs.AllDigits(sa) && Strs.AllDigits(sb) && Strs.AllDigits(sc)
    ensures Separators(sa + "-" + sb + "," + sc) == ['-', ',']
  {
    SeparatorsConcat(sa + "-" + sb + ",", sc);
    SeparatorsConcat(sa + "-" + sb, ",");
    SeparatorsConcat(sa + "-", sb);
    SeparatorsConcat(sa, "-");
  }

  /** "a-b,c" is not a single number. */
  lemma RangeListNotInt(sa: string, sb: string, sc: string)
    requires Strs.IsDecimal(sa)
    ensures Strs.ParseInt(sa + "-" + sb + "," + sc, 64) == None
  {
    var s := sa + "-" + sb + "," + sc;
    assert Strs.IsDigit(s[0]) && s[|sa|] == '-';
  }

  /** A chunk "x-y" names the CPUs x to y. */
  lemma ChunkRangeOf(sa: string, sb: string, a: int, b: int)
    requires '-' !in sa && Strs.ParseInt(sa, 64) == Some(a) && Strs.ParseInt(sb, 64) == Some(b)
    ensures ChunkCPUs(sa + "-" + sb) == Some(CPURange(a, b))
  {
    Strs.SplitN2Concat(sa, '-', sb);
    assert (sa + "-" + sb)[|sa|] == '-';
  }

  /** "a-b,c" splits at its comma into "a-b" and "c". */
  lemma RangeListSplit(sa: string, sb: string, sc: string)
    requires Strs.AllDigits(sa) && Strs.AllDigits(sb) && Strs.AllDigits(sc)
    ensures Strs.Split(sa + "-" + sb + "," + sc, ',') == [sa + "-" + sb, sc]
  {
    var head := sa + "-" + sb;
    Strs.DigitsFree(sa, ',');
    Strs.DigitsFree(sb, ',');
    Strs.DigitsFree(sc, ',');
    assert ',' !in head;
    Strs.SplitConcat(head, ',', sc);
    Strs.SplitNoSep(sc, ',');
  }

  /** "a-b,c" counts the CPUs a to b and then c once more. */
  lemma RangeListChunks(a: nat, b: nat, c: nat)
    requires a < Strs.Pow2(63) && b < Strs.Pow2(63) && c < Strs.Pow2(63)
    ensures ChunksCPUs(Strs.Split(Strs.NatToString(a) + "-" + Strs.NatToString(b) + "," + Strs.NatToString(c), ','))
      == Some(CPURange(a, b) + multiset{c})
  {
    var sa, sb, sc := Strs.NatToString(a), Strs.NatToString(b), Strs.NatToString(c);
    RangeListSplit(sa, sb, sc);
    Strs.DigitsFree(sa, '-');
    Strs.DigitsFree(sc, '-');
    Strs.ParseIntOfNat(a, 64);
    Strs.ParseIntOfNat(b, 64);
    Strs.ParseIntOfNat(c, 64);
    ChunkRangeOf(sa, sb, a, b);
    ChunksPair(sa + "-" + sb, sc);
  }

  /** A well-formed list that is not one number is rejected exactly when some CPU is named twice. */
  lemma VerdictOfList(s: string, m: multiset<int>)
    requires CPUSetSyntax(s) && Strs.ParseInt(s, 64) == None && ChunksCPUs(Strs.Split(s, ',')) == Some(m)
    ensures CPUSetVerdict(s) == if exists x :: x in m && m[x] > 1 then Fail("Cannot define CPU multiple times") else Pass
  {
  }

  /**
   * "a-b,c" is rejected for naming a CPU twice exactly when c lies in the
   * range a to b; otherwise it is a valid CPU set.
   */
  lemma CPUSetRangeAndSingle(a: nat, b: nat, c: nat)
    requires a < Strs.Pow2(63) && b < Strs.Pow2(63) && c < Strs.Pow2(63)
    ensures CPUSetVerdict(Strs.NatToString(a) + "-" + Strs.NatToString(b) + "," + Strs.NatToString(c))
      == if a <= c <= b then Fail("Cannot define CPU multiple times") else Pass
  {
    var sa, sb, sc := Strs.NatToString(a), Strs.NatToString(b), Strs.NatToString(c);
    var s := sa + "-" + sb + "," + sc;
    RangeListSyntax(sa, sb, sc);
    RangeListNotInt(sa, sb, sc);
    RangeListChunks(a, b, c);
    RangeAndSingleRepeats(a, b, c);
    VerdictOfList(s, CPURange(a, b) + multiset{c});
  }

  /** "a-b,c", with a, b and c runs of digits, is in the CPU set syntax. */
  lemma RangeListSyntax(sa: string, sb: string, sc: string)
    requires Strs.IsDecimal(sa) && Strs.IsDecimal(sb) && Strs.IsDecimal(sc)
    ensures CPUSetSyntax(sa + "-" + sb + "," + sc)
  {
    RangeListChars(sa, sb, sc);
    RangeListSeparators(sa, sb, sc);
  }

  /** The CPUs a to b and c once more name some CPU twice exactly when c lies in the range. */
  lemma RangeAndSingleRepeats(a: int, b: int, c: int)
    ensures var m := CPURange(a, b) + multiset{c};
      (exists x :: x in m && m[x] > 1) <==> a <= c <= b
  {
    var m := CPURange(a, b) + multiset{c};
    if a <= c <= b {
      assert CPURange(a, b)[c] == 1;
      assert c in m && m[c] > 1;
    } else {
      assert forall x :: m[x] <= 1;
    }
  }
}
