/**
 * The managed bridge network driver: configuration defaults, the cross-key
 * checks run after per-key validation, the flags and values derived from a
 * network's configuration, and the bookkeeping behind network forwards.
 * A configuration is a string map; a missing key reads as "".
 * Go map iteration order is not fixed, so every loop over a map takes the
 * order as a sequence of the map's keys.
 */
module Bridge {
  import opened Wrappers
  import Strs
  import Net
  import Validate
  import opened Util

  /** The "ipv4" or "ipv6" key of a family, with the given suffix. */
  function Key(fam: Net.Family, suffix: string): string
  {
    (if fam == Net.V4 then "ipv4" else "ipv6") + suffix
  }

  const BridgeMTUDefault: nat := 1500
  const TunnelMTU: nat := 1400

  // ---------------------------------------------------------------------
  // Tunnels
  // ---------------------------------------------------------------------

  predicate IsTunnelKey(k: string)
  {
    "tunnel." <= k
  }

  predicate HasTunnelKey(c: Config)
  {
    exists k :: k in c && IsTunnelKey(k)
  }

  /** A tunnel key splits at its dots into "tunnel" and the dotted rest. */
  lemma TunnelKeySplit(k: string)
    requires IsTunnelKey(k)
    ensures Strs.Split(k, '.') == ["tunnel"] + Strs.Split(k[7..], '.')
  {
    assert k == "tunnel" + ['.'] + k[7..];
    Strs.SplitConcat("tunnel", '.', k[7..]);
  }

  /** The tunnel's name: the second dot-separated field of its key. */
  function TunnelName(k: string): string
    requires IsTunnelKey(k)
  {
    TunnelKeySplit(k);
    Strs.Split(k, '.')[1]
  }

  /**
   * getTunnels: the names of the tunnels configured, each once, in the order
   * their first key is met.
   */
  method GetTunnels(config: Config, order: seq<string>) returns (tunnels: seq<string>)
    requires KeyOrder(config, order)
    ensures forall i, j :: 0 <= i < j < |tunnels| ==> tunnels[i] != tunnels[j]
    ensures forall t :: t in tunnels <==> exists k :: k in config && IsTunnelKey(k) && TunnelName(k) == t
    ensures |tunnels| == 0 <==> !HasTunnelKey(config)
  {
    tunnels := [];
    var i := 0;
    while i < |order|
      invariant 0 <= i <= |order|
      invariant forall a, b :: 0 <= a < b < |tunnels| ==> tunnels[a] != tunnels[b]
      invariant forall t :: t in tunnels <==> exists k :: k in order[..i] && IsTunnelKey(k) && TunnelName(k) == t
    {
      var k := order[i];
      assert order[..i + 1] == order[..i] + [k];
      if IsTunnelKey(k) {
        var name := TunnelName(k);
        if name !in tunnels {
          tunnels := tunnels + [name];
        }
      }
      i := i + 1;
    }
    assert order[..i] == order;
    if HasTunnelKey(config) {
      var k :| k in config && IsTunnelKey(k);
      assert TunnelName(k) in tunnels;
    }
    if |tunnels| > 0 {
      assert tunnels[0] in tunnels;
    }
  }

  /** The rule the validator attaches to a tunnel key, chosen by its last field. */
  datatype TunnelRule = ProtocolRule | AddressRule | PortRule | IDRule | InterfaceRule | TTLRule

  function RuleFor(field: string): Option<TunnelRule>
  {
    match field
      case "protocol" => Some(ProtocolRule)
      case "local" => Some(AddressRule)
      case "remote" => Some(AddressRule)
      case "port" => Some(PortRule)
      case "group" => Some(AddressRule)
      case "id" => Some(IDRule)
      case "interface" => Some(InterfaceRule)
      case "ttl" => Some(TTLRule)
      case _ => None
  }

  /**
   * The validator of each rule. The port check of the network package is not
   * part of this model and is passed in.
   */
  function TunnelValidator(p: Net.Parsers, validPort: Validate.Validator, rule: TunnelRule): Validate.Validator
  {
    match rule
      case ProtocolRule => Validate.Optional([Validate.IsOneOf(["gre", "vxlan"])])
      case AddressRule => Validate.Optional([(v: string) => Validate.IsNetworkAddress(p, v)])
      case PortRule => validPort
      case IDRule => Validate.Optional([Validate.IsInt64])
      case InterfaceRule => Validate.IsInterfaceName
      case TTLRule => Validate.Optional([Validate.IsUint8])
  }

  /** A tunnel's protocol is unset, "gre" or "vxlan". */
  lemma TunnelProtocolValues(p: Net.Parsers, validPort: Validate.Validator, value: string)
    ensures TunnelValidator(p, validPort, ProtocolRule)(value).Pass? <==> value in ["", "gre", "vxlan"]
  {
    if value != "" {
      Validate.OptionalNonEmpty([Validate.IsOneOf(["gre", "vxlan"])], value);
      Validate.AndPassIff([Validate.IsOneOf(["gre", "vxlan"])], value);
    }
  }

  /** The error the rule builder reports for a tunnel key, if any. */
  function TunnelKeyError(netName: string, k: string): Option<string>
    requires IsTunnelKey(k)
  {
    var fields := Strs.Split(k, '.');
    if |fields| != 3 then Some("Invalid network configuration key: " + k)
    else if Strs.ByteLen(netName) + Strs.ByteLen(fields[1]) > 14 then
      Some("Network name too long for tunnel interface: " + netName + "-" + fields[1])
    else None
  }

  /** The rule of a well-formed tunnel key (None for an unknown last field). */
  function TunnelKeyRule(k: string): Option<TunnelRule>
    requires IsTunnelKey(k)
  {
    var fields := Strs.Split(k, '.');
    if |fields| == 3 then RuleFor(fields[2]) else None
  }

  /**
   * The tunnel part of the validator's rule building: every tunnel key must
   * have three fields and a name short enough for "<network>-<tunnel>", and
   * each known key gets its rule. The first bad key in iteration order gives
   * the error.
   */
  method TunnelRules(netName: string, config: Config, order: seq<string>) returns (r: Result<map<string, TunnelRule>>)
    requires KeyOrder(config, order)
    ensures r.Ok? <==> forall k :: k in config && IsTunnelKey(k) ==> TunnelKeyError(netName, k).None?
    ensures r.Err? ==> exists j :: 0 <= j < |order| && IsTunnelKey(order[j]) && TunnelKeyError(netName, order[j]) == Some(r.msg)
    ensures r.Ok? ==> forall k :: k in r.value <==> k in config && IsTunnelKey(k) && TunnelKeyRule(k).Some?
    ensures r.Ok? ==> forall k :: k in r.value ==> r.value[k] == TunnelKeyRule(k).value
  {
    var rules: map<string, TunnelRule> := map[];
    var i := 0;
    while i < |order|
      invariant 0 <= i <= |order|
      invariant forall k :: k in order[..i] && IsTunnelKey(k) ==> TunnelKeyError(netName, k).None?
      invariant forall k :: k in rules <==> k in order[..i] && IsTunnelKey(k) && TunnelKeyRule(k).Some?
      invariant forall k :: k in rules ==> IsTunnelKey(k) && rules[k] == TunnelKeyRule(k).value
    {
      var k := order[i];
      assert order[..i + 1] == order[..i] + [k];
      if IsTunnelKey(k) {
        var e := TunnelKeyError(netName, k);
        if e.Some? {
          return Err(e.value);
        }
        var rule := TunnelKeyRule(k);
        if rule.Some? {
          rules := rules[k := rule.value];
        }
      }
      i := i + 1;
    }
    assert order[..i] == order;
    return Ok(rules);
  }

  /**
   * Once the tunnel keys pass, the interface name "<network>-<tunnel>" of
   * every tunnel fits the kernel's 15-byte limit.
   */
  lemma TunnelInterfaceNameFits(netName: string, k: string)
    requires IsTunnelKey(k) && TunnelKeyError(netName, k).None?
    ensures Strs.ByteLen(netName + "-" + TunnelName(k)) <= 15
  {
    Strs.ByteLenConcat(netName, "-");
    Strs.ByteLenConcat(netName + "-", TunnelName(k));
  }

  // ---------------------------------------------------------------------
  // Static MAC address and MTU checks
  // ---------------------------------------------------------------------

  const ErrMACNoAddresses: string :=
    "Cannot use static \"bridge.hwaddr\" MAC address when bridge has no IP addresses and has external interfaces set"
  const ErrMACTunnels: string :=
    "Cannot use static \"bridge.hwaddr\" MAC address when bridge has tunnels connected"
  const ErrMACHostIPv6: string :=
    "Cannot use static \"bridge.hwaddr\" MAC address when bridge uses a host-specific IPv6 address"

  /**
   * checkClusterWideMACSafe: one MAC address on every cluster member is
   * unsafe when the bridge joins external interfaces with no address of its
   * own, when it has tunnels, or when its IPv6 address is derived from the
   * MAC (the address is a bare network).
   */
  function CheckClusterWideMACSafe(p: Net.Parsers, config: Config): (r: Outcome)
    ensures r.Pass? <==>
      !(Get(config, "bridge.external_interfaces") != "" && Get(config, "ipv4.address") == "none" && Get(config, "ipv6.address") == "none")
      && !HasTunnelKey(config)
      && !(Get(config, "ipv6.address") != "none" && Validate.IsNetworkV6(p, Get(config, "ipv6.address")).Pass?)
    ensures r.Fail? ==> r.msg in {ErrMACNoAddresses, ErrMACTunnels, ErrMACHostIPv6}
  {
    if Get(config, "bridge.external_interfaces") != "" && Get(config, "ipv4.address") == "none" && Get(config, "ipv6.address") == "none" then
      Fail(ErrMACNoAddresses)
    else if HasTunnelKey(config) then Fail(ErrMACTunnels)
    else if Get(config, "ipv6.address") != "none" && Validate.IsNetworkV6(p, Get(config, "ipv6.address")).Pass? then
      Fail(ErrMACHostIPv6)
    else Pass
  }

  predicate AddressSet(v: string)
  {
    !Util.IsNoneOrEmpty(v)
  }

  /**
   * The MTU floors of a bridge: 1280 when it carries IPv6 (section 5 of
   * RFC 8200) and 68 when it carries IPv4 (section 3.1 of RFC 791).
   */
  function MTUCheck(config: Config): (r: Outcome)
    ensures r.Pass? <==>
      Get(config, "bridge.mtu") == ""
      || (Strs.ParseInt(Get(config, "bridge.mtu"), 64).Some?
          && (AddressSet(Get(config, "ipv6.address")) ==> Strs.ParseInt(Get(config, "bridge.mtu"), 64).value >= 1280)
          && (AddressSet(Get(config, "ipv4.address")) ==> Strs.ParseInt(Get(config, "bridge.mtu"), 64).value >= 68))
  {
    var v := Get(config, "bridge.mtu");
    if v == "" then Pass
    else match Strs.ParseInt(v, 64)
      case None => Fail("Invalid value for an integer: " + v)
      case Some(mtu) =>
        if AddressSet(Get(config, "ipv6.address")) && mtu < 1280 then
          Fail("The minimum MTU for an IPv6 network is 1280")
        else if AddressSet(Get(config, "ipv4.address")) && mtu < 68 then
          Fail("The minimum MTU for an IPv4 network is 68")
        else Pass
  }

  /** The MTU selected when the bridge is brought up. */
  function BridgeMTU(config: Config, tunnelCount: nat): (r: Result<nat>)
    ensures Get(config, "bridge.mtu") != "" ==>
      (r.Ok? <==> Strs.ParseUint(Get(config, "bridge.mtu"), 32).Some?)
      && (r.Ok? ==> r.value == Strs.ParseUint(Get(config, "bridge.mtu"), 32).value)
    ensures Get(config, "bridge.mtu") == "" ==> r == Ok(if tunnelCount > 0 then TunnelMTU else BridgeMTUDefault)
  {
    var v := Get(config, "bridge.mtu");
    if v != "" then
      match Strs.ParseUint(v, 32)
        case None => Err("Invalid MTU " + Validate.Quote(v) + ": invalid syntax")
        case Some(mtu) => Ok(mtu)
    else if tunnelCount > 0 then Ok(TunnelMTU)
    else Ok(BridgeMTUDefault)
  }

  /**
   * A `bridge.mtu` the per-key validator accepts also passes the MTU floors
   * and is the MTU the bridge is brought up with.
   */
  lemma ValidatedMTUAccepted(config: Config, tunnelCount: nat)
    requires Get(config, "bridge.mtu") != ""
    requires Validate.IsNetworkMTU(Get(config, "bridge.mtu")).Pass?
    ensures MTUCheck(config).Pass?
    ensures BridgeMTU(config, tunnelCount).Ok?
    ensures 1280 <= BridgeMTU(config, tunnelCount).value <= 16384
  {
    ValidMTUParses(Get(config, "bridge.mtu"));
    ValidMTUParsesUnsigned(Get(config, "bridge.mtu"));
  }

  /** An MTU the validator accepts reads as a 64-bit signed integer of at least 1280. */
  lemma ValidMTUParses(v: string)
    requires Validate.IsNetworkMTU(v).Pass?
    ensures Strs.ParseInt(v, 64).Some? && Strs.ParseInt(v, 64).value >= 1280
  {
    Strs.Pow2Above(63);
    Strs.ParseIntOfDecimal(v, 64);
  }

  /** An MTU the validator accepts reads as a 32-bit unsigned integer from 1280 to 16384. */
  lemma ValidMTUParsesUnsigned(v: string)
    requires Validate.IsNetworkMTU(v).Pass?
    ensures Strs.ParseUint(v, 32).Some? && 1280 <= Strs.ParseUint(v, 32).value <= 16384
  {
    Strs.Pow2Above(32);
  }

  // ---------------------------------------------------------------------
  // Flags derived from the configuration
  // ---------------------------------------------------------------------

  /** The IPv4 firewall is on when the bridge has an IPv4 address and ipv4.firewall is not off. */
  predicate HasIPv4Firewall(config: Config)
  {
    AddressSet(Get(config, "ipv4.address")) && Util.IsTrueOrEmpty(Get(config, "ipv4.firewall"))
  }

  predicate HasIPv6Firewall(config: Config)
  {
    AddressSet(Get(config, "ipv6.address")) && Util.IsTrueOrEmpty(Get(config, "ipv6.firewall"))
  }

  /** DHCP is on unless switched off. */
  predicate HasDHCP(config: Config, fam: Net.Family)
  {
    Util.IsTrueOrEmpty(Get(config, Key(fam, ".dhcp")))
  }

  /**
   * A family's firewall needs an address and is on by default once the
   * address is set; "false" switches it, and DHCP, off.
   */
  lemma FlagDefaults(config: Config, fam: Net.Family)
    ensures Get(config, "ipv4.address") == "none" ==> !HasIPv4Firewall(config)
    ensures Get(config, "ipv6.address") == "none" ==> !HasIPv6Firewall(config)
    ensures AddressSet(Get(config, "ipv4.address")) && Get(config, "ipv4.firewall") == "" ==> HasIPv4Firewall(config)
    ensures AddressSet(Get(config, "ipv6.address")) && Get(config, "ipv6.firewall") == "" ==> HasIPv6Firewall(config)
    ensures Get(config, "ipv4.firewall") == "false" ==> !HasIPv4Firewall(config)
    ensures Get(config, "ipv6.firewall") == "false" ==> !HasIPv6Firewall(config)
    ensures Get(config, Key(fam, ".dhcp")) == "" ==> HasDHCP(config, fam)
    ensures Get(config, Key(fam, ".dhcp")) == "false" ==> !HasDHCP(config, fam)
  {
  }

  /**
   * DHCPv4Subnet / DHCPv6Subnet: the block of the bridge's address when DHCP
   * is on and the address parses as a CIDR.
   */
  function DHCPSubnet(p: Net.Parsers, config: Config, fam: Net.Family): (s: Option<Net.Subnet>)
    ensures s.Some? <==> HasDHCP(config, fam) && p.parseCIDR(Get(config, Key(fam, ".address"))).Some?
    ensures s.Some? ==> s.value == p.parseCIDR(Get(config, Key(fam, ".address"))).value.1
  {
    if !HasDHCP(config, fam) then None
    else match p.parseCIDR(Get(config, Key(fam, ".address")))
      case None => None
      case Some((_, subnet)) => Some(subnet)
  }

  /**
   * UsesDNSMasq: dnsmasq is needed when the bridge has some address and
   * either serves DNS records, carries IPv6, or serves DHCPv4.
   */
  function UsesDNSMasq(config: Config): (b: bool)
    ensures !AddressSet(Get(config, "ipv4.address")) && !AddressSet(Get(config, "ipv6.address")) ==> !b
    ensures AddressSet(Get(config, "ipv4.address")) || AddressSet(Get(config, "ipv6.address")) ==>
      (b <==> Get(config, "dns.mode") != "none" || AddressSet(Get(config, "ipv6.address")) || HasDHCP(config, Net.V4))
  {
    if Util.IsNoneOrEmpty(Get(config, "ipv4.address")) && Util.IsNoneOrEmpty(Get(config, "ipv6.address")) then false
    else if Get(config, "dns.mode") != "none" then true
    else if !Util.IsNoneOrEmpty(Get(config, "ipv6.address")) then true
    else if !Util.IsNoneOrEmpty(Get(config, "ipv4.address")) && HasDHCP(config, Net.V4) then true
    else false
  }

  // ---------------------------------------------------------------------
  // External interfaces
  // ---------------------------------------------------------------------

  /** One entry of bridge.external_interfaces: a name, or "name/parent/vlan". */
  datatype ExternalInterface = ExternalInterface(name: string, parent: string, vlan: int)

  /**
   * The reading of an entry when the bridge is set up: the three-field form
   * with a VLAN ID from 1 to 4094 names an interface to create on a parent;
   * anything else is the name of an existing interface (VLAN 0).
   */
  function ParseExternalInterface(entry: string): (e: ExternalInterface)
    ensures e.vlan == 0 || 1 <= e.vlan <= 4094
    ensures e.vlan == 0 ==> e.name == Strs.TrimSpace(entry) && e.parent == ""
    ensures e.vlan != 0 ==>
      var parts := Strs.Split(Strs.TrimSpace(entry), '/');
      |parts| == 3 && e.name == Strs.TrimSpace(parts[0]) && e.parent == Strs.TrimSpace(parts[1])
      && Strs.Atoi(parts[2]) == Some(e.vlan)
  {
    var trimmed := Strs.TrimSpace(entry);
    var parts := Strs.Split(trimmed, '/');
    if |parts| == 3 then
      match Strs.Atoi(parts[2])
        case Some(v) =>
          if 1 <= v <= 4094 then ExternalInterface(Strs.TrimSpace(parts[0]), Strs.TrimSpace(parts[1]), v)
          else ExternalInterface(trimmed, "", 0)
        case None => ExternalInterface(trimmed, "", 0)
    else ExternalInterface(trimmed, "", 0)
  }

  /** Three separator-free fields joined by "/" split back into the three. */
  lemma SplitThree(a: string, b: string, c: string)
    requires '/' !in a && '/' !in b && '/' !in c
    ensures Strs.Split(a + "/" + b + "/" + c, '/') == [a, b, c]
  {
    assert a + "/" + b + "/" + c == a + ['/'] + (b + ['/'] + c);
    Strs.SplitConcat(a, '/', b + ['/'] + c);
    Strs.SplitConcat(b, '/', c);
    Strs.SplitNoSep(c, '/');
  }

  /** Atoi reads back a VLAN ID. */
  lemma AtoiVLAN(vlan: nat)
    requires vlan <= 4094
    ensures Strs.Atoi(Strs.NatToString(vlan)) == Some(vlan as int)
  {
    Strs.Pow2Values();
    Strs.Pow2Mono(12, 63);
    Strs.ParseIntRender(vlan, 64);
    assert Strs.IntToString(vlan) == Strs.NatToString(vlan);
  }

  /** "name/parent/vlan" written out reads back as the same interface. */
  lemma ParseExternalInterfaceRoundTrip(name: string, parent: string, vlan: nat)
    requires '/' !in name && '/' !in parent && 1 <= vlan <= 4094
    requires |name| > 0 && !Strs.IsSpace(name[0])
    ensures ParseExternalInterface(name + "/" + parent + "/" + Strs.NatToString(vlan))
      == ExternalInterface(Strs.TrimSpace(name), Strs.TrimSpace(parent), vlan)
  {
    var digits := Strs.NatToString(vlan);
    var entry := name + "/" + parent + "/" + digits;
    assert entry[0] == name[0];
    assert entry[|entry| - 1] == digits[|digits| - 1];
    assert Strs.IsDigit(digits[|digits| - 1]);
    Strs.TrimSpaceIdentity(entry);
    assert '/' !in digits by {
      forall i | 0 <= i < |digits| ensures digits[i] != '/' {
        assert Strs.IsDigit(digits[i]);
      }
    }
    SplitThree(name, parent, digits);
    AtoiVLAN(vlan);
  }

  /** The name deleteChildren keeps for an entry: the text before its first "/". */
  function ExternalName(entry: string): string
  {
    Strs.Split(Strs.TrimSpace(entry), '/')[0]
  }

  function ExternalNames(config: Config): (names: seq<string>)
    ensures Get(config, "bridge.external_interfaces") == "" ==> names == []
    ensures Get(config, "bridge.external_interfaces") != "" ==>
      |names| == |Strs.Split(Get(config, "bridge.external_interfaces"), ',')|
  {
    var ext := Get(config, "bridge.external_interfaces");
    if ext == "" then [] else NamesOf(Strs.Split(ext, ','))
  }

  function NamesOf(entries: seq<string>): (names: seq<string>)
    ensures |names| == |entries|
    ensures forall i :: 0 <= i < |entries| ==> names[i] == ExternalName(entries[i])
  {
    if |entries| == 0 then [] else [ExternalName(entries[0])] + NamesOf(entries[1..])
  }

  /** A network interface as the kernel reports it. */
  datatype Link = Link(name: string, master: string, kind: string)

  /**
   * deleteChildren's filter: a tunnel or dummy interface attached to the
   * bridge is deleted unless it is one of the external interfaces.
   */
  function ShouldDeleteChild(config: Config, bridgeName: string, l: Link): (b: bool)
    ensures b ==> l.master == bridgeName && l.kind in ["vxlan", "gretap", "dummy"]
    ensures Get(config, "bridge.external_interfaces") != "" &&
      (exists e :: e in Strs.Split(Get(config, "bridge.external_interfaces"), ',') && ExternalName(e) == l.name)
      ==> !b
  {
    l.master == bridgeName && l.name !in ExternalNames(config) && l.kind in ["vxlan", "gretap", "dummy"]
  }

  // ---------------------------------------------------------------------
  // FillConfig: defaults, then "auto" replaced by generated subnets
  // ---------------------------------------------------------------------

  /** An unset address becomes "auto" (the IPv6 one only when `enabled`). */
  function DefaultAddress(c: Config, addressKey: string, enabled: bool): (out: Config)
    ensures forall k :: Get(out, k) == (if k == addressKey && Get(c, addressKey) == "" && enabled then "auto" else Get(c, k))
  {
    if Get(c, addressKey) == "" && enabled then c[addressKey := "auto"] else c
  }

  /** An "auto" address turns NAT on unless NAT is already set. */
  function DefaultNAT(c: Config, addressKey: string, natKey: string): (out: Config)
    ensures forall k :: Get(out, k) == (if k == natKey && Get(c, addressKey) == "auto" && Get(c, natKey) == "" then "true" else Get(c, k))
  {
    if Get(c, addressKey) == "auto" && Get(c, natKey) == "" then c[natKey := "true"] else c
  }

  /**
   * The defaults FillConfig writes, in its order: the IPv4 address, IPv4
   * NAT, the IPv6 address when the host has IPv6 enabled, IPv6 NAT.
   */
  function Defaults(c: Config, ipv6Enabled: bool): Config
  {
    var c1 := DefaultNAT(DefaultAddress(c, "ipv4.address", true), "ipv4.address", "ipv4.nat");
    DefaultNAT(DefaultAddress(c1, "ipv6.address", ipv6Enabled), "ipv6.address", "ipv6.nat")
  }

  /** One "auto" address replaced by the generated subnet, or the generator's error. */
  function ReplaceAuto(c: Config, addressKey: string, subnet: Result<string>): (r: Result<Config>)
    ensures r.Err? <==> Get(c, addressKey) == "auto" && subnet.Err?
    ensures r.Ok? ==> forall k :: Get(r.value, k) == (if k == addressKey && Get(c, addressKey) == "auto" then subnet.value else Get(c, k))
  {
    if Get(c, addressKey) != "auto" then Ok(c)
    else match subnet
      case Err(e) => Err(e)
      case Ok(s) => Ok(c[addressKey := s])
  }

  /**
   * populateAutoConfig: each "auto" address is replaced by a generated
   * subnet (`subnetV4`, `subnetV6` stand for the random generator's
   * answers); a generator error stops at once, keeping what was already
   * written; when something changed and the network has state, the new
   * configuration is validated again.
   */
  function PopulateAuto(c: Config, subnetV4: Result<string>, subnetV6: Result<string>,
                        hasState: bool, revalidate: Config -> Outcome): (Config, Outcome)
  {
    match ReplaceAuto(c, "ipv4.address", subnetV4)
      case Err(e) => (c, Fail(e))
      case Ok(c1) =>
        match ReplaceAuto(c1, "ipv6.address", subnetV6)
          case Err(e) => (c1, Fail(e))
          case Ok(c2) =>
            var changed := Get(c, "ipv4.address") == "auto" || Get(c1, "ipv6.address") == "auto";
            (c2, if changed && hasState then revalidate(c2) else Pass)
  }

  /** FillConfig: the defaults, then the "auto" replacement, its error wrapped. */
  function Fill(c: Config, ipv6Enabled: bool, subnetV4: Result<string>, subnetV6: Result<string>,
                hasState: bool, revalidate: Config -> Outcome): (Config, Outcome)
  {
    var filled := PopulateAuto(Defaults(c, ipv6Enabled), subnetV4, subnetV6, hasState, revalidate);
    (filled.0, if filled.1.Fail? then Fail("Failed generating auto config: " + filled.1.msg) else Pass)
  }

  /** What a generated subnet never is. */
  predicate Generated(s: Result<string>)
  {
    s.Ok? ==> s.value != "" && s.value != "auto"
  }

  /**
   * After a successful FillConfig no address is left "auto", the IPv4
   * address is set, and the IPv6 address is set whenever the host has IPv6
   * enabled.
   */
  lemma FillResolvesAuto(c: Config, ipv6Enabled: bool, subnetV4: Result<string>, subnetV6: Result<string>,
                         hasState: bool, revalidate: Config -> Outcome)
    requires Generated(subnetV4) && Generated(subnetV6)
    requires Fill(c, ipv6Enabled, subnetV4, subnetV6, hasState, revalidate).1.Pass?
    ensures var out := Fill(c, ipv6Enabled, subnetV4, subnetV6, hasState, revalidate).0;
      Get(out, "ipv4.address") != "" && Get(out, "ipv4.address") != "auto"
      && Get(out, "ipv6.address") != "auto"
      && (ipv6Enabled ==> Get(out, "ipv6.address") != "")
  {
    var d := Defaults(c, ipv6Enabled);
    assert Get(d, "ipv4.address") != "";
    assert ipv6Enabled ==> Get(d, "ipv6.address") != "";
    var c1 := ReplaceAuto(d, "ipv4.address", subnetV4).value;
    var c2 := ReplaceAuto(c1, "ipv6.address", subnetV6).value;
    assert Get(c1, "ipv6.address") == Get(d, "ipv6.address");
    assert Get(c2, "ipv4.address") == Get(c1, "ipv4.address");
  }

  /**
   * FillConfig writes only the two address keys and the two NAT keys, and
   * never overwrites an address already set to something other than
   * "auto", nor a NAT key already set.
   */
  lemma FillKeepsOtherKeys(c: Config, ipv6Enabled: bool, subnetV4: Result<string>, subnetV6: Result<string>,
                           hasState: bool, revalidate: Config -> Outcome, k: string)
    ensures var out := Fill(c, ipv6Enabled, subnetV4, subnetV6, hasState, revalidate).0;
      (k != "ipv4.address" && k != "ipv4.nat" && k != "ipv6.address" && k != "ipv6.nat" ==> Get(out, k) == Get(c, k))
      && ((k == "ipv4.address" || k == "ipv6.address") && Get(c, k) != "" && Get(c, k) != "auto" ==> Get(out, k) == Get(c, k))
      && ((k == "ipv4.nat" || k == "ipv6.nat") && Get(c, k) != "" ==> Get(out, k) == Get(c, k))
  {
    DefaultsOnlyFillUnset(c, ipv6Enabled, k);
    PopulateOnlyReplacesAuto(Defaults(c, ipv6Enabled), subnetV4, subnetV6, hasState, revalidate, k);
  }

  /** The defaults write only unset address and NAT keys. */
  lemma DefaultsOnlyFillUnset(c: Config, ipv6Enabled: bool, k: string)
    ensures var d := Defaults(c, ipv6Enabled);
      Get(d, k) == Get(c, k)
      || (Get(c, k) == "" && (k == "ipv4.address" || k == "ipv4.nat" || k == "ipv6.address" || k == "ipv6.nat"))
  {
  }

  /** The "auto" replacement writes only address keys that were "auto". */
  lemma PopulateOnlyReplacesAuto(d: Config, subnetV4: Result<string>, subnetV6: Result<string>,
                                 hasState: bool, revalidate: Config -> Outcome, k: string)
    ensures var out := PopulateAuto(d, subnetV4, subnetV6, hasState, revalidate).0;
      Get(out, k) == Get(d, k) || (Get(d, k) == "auto" && (k == "ipv4.address" || k == "ipv6.address"))
  {
  }

  /**
   * FillConfig is idempotent: filling a configuration it has filled changes
   * nothing and succeeds without generating anything.
   */
  lemma FillIdempotent(c: Config, ipv6Enabled: bool, subnetV4: Result<string>, subnetV6: Result<string>,
                       hasState: bool, revalidate: Config -> Outcome,
                       again4: Result<string>, again6: Result<string>)
    requires Generated(subnetV4) && Generated(subnetV6)
    requires Fill(c, ipv6Enabled, subnetV4, subnetV6, hasState, revalidate).1.Pass?
    ensures var out := Fill(c, ipv6Enabled, subnetV4, subnetV6, hasState, revalidate).0;
      Fill(out, ipv6Enabled, again4, again6, hasState, revalidate) == (out, Pass)
  {
    var out := Fill(c, ipv6Enabled, subnetV4, subnetV6, hasState, revalidate).0;
    FillResolvesAuto(c, ipv6Enabled, subnetV4, subnetV6, hasState, revalidate);
    var a := DefaultAddress(out, "ipv4.address", true);
    assert a == out;
    var b := DefaultNAT(a, "ipv4.address", "ipv4.nat");
    assert b == out;
    var e := DefaultAddress(b, "ipv6.address", ipv6Enabled);
    assert e == out;
    assert Defaults(out, ipv6Enabled) == out;
    assert ReplaceAuto(out, "ipv4.address", again4) == Ok(out);
    assert ReplaceAuto(out, "ipv6.address", again6) == Ok(out);
  }

  /** The configuration map of a network, which FillConfig fills in place. */
  class ConfigMap {
    var entries: Config

    constructor(c: Config)
      ensures entries == c
    {
      entries := c;
    }

    /** populateAutoConfig on this map. */
    method PopulateAutoConfig(subnetV4: Result<string>, subnetV6: Result<string>,
                              hasState: bool, revalidate: Config -> Outcome) returns (r: Outcome)
      modifies this
      ensures (entries, r) == PopulateAuto(old(entries), subnetV4, subnetV6, hasState, revalidate)
    {
      var changed := false;
      if Get(entries, "ipv4.address") == "auto" {
        if subnetV4.Err? {
          return Fail(subnetV4.msg);
        }
        entries := entries["ipv4.address" := subnetV4.value];
        changed := true;
      }
      assert ReplaceAuto(old(entries), "ipv4.address", subnetV4) == Ok(entries);
      ghost var c1 := entries;
      if Get(entries, "ipv6.address") == "auto" {
        if subnetV6.Err? {
          return Fail(subnetV6.msg);
        }
        entries := entries["ipv6.address" := subnetV6.value];
        changed := true;
      }
      assert ReplaceAuto(c1, "ipv6.address", subnetV6) == Ok(entries);
      if changed && hasState {
        return revalidate(entries);
      }
      return Pass;
    }

    /** The four defaults of FillConfig, written one after the other. */
    method ApplyDefaults(ipv6Enabled: bool)
      modifies this
      ensures entries == Defaults(old(entries), ipv6Enabled)
    {
      SetDefaultAddress("ipv4.address", true);
      SetDefaultNAT("ipv4.address", "ipv4.nat");
      SetDefaultAddress("ipv6.address", ipv6Enabled);
      SetDefaultNAT("ipv6.address", "ipv6.nat");
    }

    /** An unset address becomes "auto" when the family is enabled. */
    method SetDefaultAddress(addressKey: string, enabled: bool)
      modifies this
      ensures entries == DefaultAddress(old(entries), addressKey, enabled)
    {
      if Get(entries, addressKey) == "" && enabled {
        entries := entries[addressKey := "auto"];
      }
    }

    /** An "auto" address turns NAT on unless NAT is already set. */
    method SetDefaultNAT(addressKey: string, natKey: string)
      modifies this
      ensures entries == DefaultNAT(old(entries), addressKey, natKey)
    {
      if Get(entries, addressKey) == "auto" && Get(entries, natKey) == "" {
        entries := entries[natKey := "true"];
      }
    }

    /**
     * FillConfig on this map; `ipv6Enabled` is the host's answer to whether
     * IPv6 is enabled by default on new interfaces.
     */
    method FillConfig(ipv6Enabled: bool, subnetV4: Result<string>, subnetV6: Result<string>,
                      hasState: bool, revalidate: Config -> Outcome) returns (r: Outcome)
      modifies this
      ensures (entries, r) == Fill(old(entries), ipv6Enabled, subnetV4, subnetV6, hasState, revalidate)
    {
      ApplyDefaults(ipv6Enabled);
      var err := PopulateAutoConfig(subnetV4, subnetV6, hasState, revalidate);
      if err.Fail? {
        return Fail("Failed generating auto config: " + err.msg);
      }
      return Pass;
    }
  }

  // ---------------------------------------------------------------------
  // OVN ranges against DHCP ranges
  // ---------------------------------------------------------------------

  predicate OverlapsAny(x: Net.IPRange, ranges: seq<Net.IPRange>)
  {
    exists j :: 0 <= j < |ranges| && Net.RangesOverlap(x, ranges[j])
  }

  /** The first range of `ovn` that overlaps some range of `dhcp`. */
  function FirstOverlap(ovn: seq<Net.IPRange>, dhcp: seq<Net.IPRange>): (r: Option<Net.IPRange>)
    ensures r.None? <==> forall i :: 0 <= i < |ovn| ==> !OverlapsAny(ovn[i], dhcp)
    ensures r.Some? ==> r.value in ovn && OverlapsAny(r.value, dhcp)
    decreases |ovn|
  {
    if |ovn| == 0 then None
    else if OverlapsAny(ovn[0], dhcp) then Some(ovn[0])
    else
      var rest := FirstOverlap(ovn[1..], dhcp);
      assert rest.None? ==> forall i :: 1 <= i < |ovn| ==> ovn[i] == ovn[1..][i - 1];
      rest
  }

  /** The nested loop over OVN and DHCP ranges, stopping at the first overlap. */
  method FindOverlap(ovn: seq<Net.IPRange>, dhcp: seq<Net.IPRange>) returns (r: Option<Net.IPRange>)
    ensures r == FirstOverlap(ovn, dhcp)
  {
    var i := 0;
    assert ovn[0..] == ovn;
    while i < |ovn|
      invariant 0 <= i <= |ovn|
      invariant FirstOverlap(ovn[i..], dhcp) == FirstOverlap(ovn, dhcp)
    {
      var j := 0;
      while j < |dhcp|
        invariant 0 <= j <= |dhcp|
        invariant forall jj :: 0 <= jj < j ==> !Net.RangesOverlap(ovn[i], dhcp[jj])
      {
        if Net.RangesOverlap(ovn[i], dhcp[j]) {
          assert OverlapsAny(ovn[i], dhcp);
          assert ovn[i..][0] == ovn[i];
          return Some(ovn[i]);
        }
        j := j + 1;
      }
      assert ovn[i..][1..] == ovn[i + 1..];
      i := i + 1;
    }
    return None;
  }

  function ErrOVNNeedsDHCPRanges(fam: Net.Family): string
  {
    if fam == Net.V4 then
      "\"ipv4.ovn.ranges\" must be used in conjunction with non-overlapping \"ipv4.dhcp.ranges\" when DHCPv4 is enabled"
    else
      "\"ipv6.ovn.ranges\" must be used in conjunction with non-overlapping \"ipv6.dhcp.ranges\" when stateful DHCPv6 is enabled"
  }

  /**
   * Stateful DHCP: always for IPv4; for IPv6 only when ipv6.dhcp.stateful is
   * true (otherwise clients pick addresses by SLAAC and no DHCP range is used).
   */
  predicate Stateful(config: Config, fam: Net.Family)
  {
    fam == Net.V4 || Util.IsTrue(Get(config, "ipv6.dhcp.stateful"))
  }

  /**
   * The OVN range check of one family. The DHCP subnet comes from the
   * network's stored configuration `stored`, the ranges from the
   * configuration being validated.
   */
  function OVNRangesVerdict(p: Net.Parsers, stored: Config, config: Config, fam: Net.Family): (r: Outcome)
  {
    if Get(config, Key(fam, ".ovn.ranges")) == "" || !HasDHCP(config, fam) then Pass
    else
      var dhcpSubnet := DHCPSubnet(p, stored, fam);
      if dhcpSubnet.Some? && Get(config, Key(fam, ".dhcp.ranges")) == "" && Stateful(config, fam) then
        Fail(ErrOVNNeedsDHCPRanges(fam))
      else
        var allowed := if dhcpSubnet.Some? then [dhcpSubnet.value] else [];
        match p.parseIPRanges(Get(config, Key(fam, ".ovn.ranges")), allowed)
          case Err(e) => Fail("Failed parsing " + Key(fam, ".ovn.ranges") + ": " + e)
          case Ok(ovn) =>
            if fam == Net.V6 && !(dhcpSubnet.Some? && Stateful(config, fam)) then Pass
            else match p.parseIPRanges(Get(config, Key(fam, ".dhcp.ranges")), allowed)
              case Err(e) => Fail("Failed parsing " + Key(fam, ".dhcp.ranges") + ": " + e)
              case Ok(dhcp) =>
                match FirstOverlap(ovn, dhcp)
                  case Some(o) =>
                    Fail("The range specified in \"" + Key(fam, ".ovn.ranges") + "\" (" + Validate.Quote(p.formatRange(o))
                      + ") cannot overlap with \"" + Key(fam, ".dhcp.ranges") + "\"")
                  case None => Pass
  }

  /** The OVN range check as the validator runs it, with its nested loop. */
  method CheckOVNRanges(p: Net.Parsers, stored: Config, config: Config, fam: Net.Family) returns (r: Outcome)
    ensures r == OVNRangesVerdict(p, stored, config, fam)
  {
    if Get(config, Key(fam, ".ovn.ranges")) == "" || !HasDHCP(config, fam) {
      return Pass;
    }
    var dhcpSubnet := DHCPSubnet(p, stored, fam);
    var allowed: seq<Net.Subnet> := [];
    if dhcpSubnet.Some? {
      if Get(config, Key(fam, ".dhcp.ranges")) == "" && Stateful(config, fam) {
        return Fail(ErrOVNNeedsDHCPRanges(fam));
      }
      allowed := allowed + [dhcpSubnet.value];
    }
    assert allowed == (if dhcpSubnet.Some? then [dhcpSubnet.value] else []);
    var ovn := p.parseIPRanges(Get(config, Key(fam, ".ovn.ranges")), allowed);
    if ovn.Err? {
      return Fail("Failed parsing " + Key(fam, ".ovn.ranges") + ": " + ovn.msg);
    }
    if fam == Net.V6 && !(dhcpSubnet.Some? && Stateful(config, fam)) {
      return Pass;
    }
    var dhcp := p.parseIPRanges(Get(config, Key(fam, ".dhcp.ranges")), allowed);
    if dhcp.Err? {
      return Fail("Failed parsing " + Key(fam, ".dhcp.ranges") + ": " + dhcp.msg);
    }
    var o := FindOverlap(ovn.value, dhcp.value);
    if o.Some? {
      return Fail("The range specified in \"" + Key(fam, ".ovn.ranges") + "\" (" + Validate.Quote(p.formatRange(o.value))
        + ") cannot overlap with \"" + Key(fam, ".dhcp.ranges") + "\"");
    }
    return Pass;
  }

  /**
   * When the check passes and both range lists were compared, no address
   * lies in both an OVN range and a DHCP range.
   */
  lemma OVNRangesDisjoint(p: Net.Parsers, stored: Config, config: Config, fam: Net.Family,
                          o: Net.IPRange, d: Net.IPRange, v: nat)
    requires OVNRangesVerdict(p, stored, config, fam).Pass?
    requires Get(config, Key(fam, ".ovn.ranges")) != "" && HasDHCP(config, fam)
    requires fam == Net.V4 || (DHCPSubnet(p, stored, fam).Some? && Stateful(config, fam))
    requires var allowed := if DHCPSubnet(p, stored, fam).Some? then [DHCPSubnet(p, stored, fam).value] else [];
      var ovn := p.parseIPRanges(Get(config, Key(fam, ".ovn.ranges")), allowed);
      var dhcp := p.parseIPRanges(Get(config, Key(fam, ".dhcp.ranges")), allowed);
      ovn.Ok? && dhcp.Ok? && o in ovn.value && d in dhcp.value
    requires o.family == d.family
    ensures !(Net.RangeHas(o, v) && Net.RangeHas(d, v))
  {
    var allowed := if DHCPSubnet(p, stored, fam).Some? then [DHCPSubnet(p, stored, fam).value] else [];
    var ovn := p.parseIPRanges(Get(config, Key(fam, ".ovn.ranges")), allowed).value;
    var dhcp := p.parseIPRanges(Get(config, Key(fam, ".dhcp.ranges")), allowed).value;
    assert FirstOverlap(ovn, dhcp).None?;
    var i :| 0 <= i < |ovn| && ovn[i] == o;
    var j :| 0 <= j < |dhcp| && dhcp[j] == d;
    assert !OverlapsAny(ovn[i], dhcp);
    assert !Net.RangesOverlap(o, d);
  }

  /**
   * The cross-key checks of the validator, in the order it runs them: the
   * MTU floors, the static MAC check when bridge.hwaddr is set, then the OVN
   * ranges of IPv4 and of IPv6. (The DNS zone and ACL checks are not part
   * of this model.)
   */
  function CompositeChecks(p: Net.Parsers, stored: Config, config: Config): (r: Outcome)
    ensures r.Pass? <==>
      MTUCheck(config).Pass?
      && (Get(config, "bridge.hwaddr") != "" ==> CheckClusterWideMACSafe(p, config).Pass?)
      && OVNRangesVerdict(p, stored, config, Net.V4).Pass?
      && OVNRangesVerdict(p, stored, config, Net.V6).Pass?
  {
    if MTUCheck(config).Fail? then MTUCheck(config)
    else if Get(config, "bridge.hwaddr") != "" && CheckClusterWideMACSafe(p, config).Fail? then
      CheckClusterWideMACSafe(p, config)
    else if OVNRangesVerdict(p, stored, config, Net.V4).Fail? then OVNRangesVerdict(p, stored, config, Net.V4)
    else OVNRangesVerdict(p, stored, config, Net.V6)
  }

  // ---------------------------------------------------------------------
  // Network forwards as firewall entries
  // ---------------------------------------------------------------------

  /** One port mapping of a forward. */
  datatype PortMap = PortMap(protocol: string, target: Net.IP, listenPorts: seq<nat>, targetPorts: seq<nat>, snat: bool)

  /** The firewall's view of a forward (AddressForward). */
  datatype AddressForward = AddressForward(listen: Net.IP, protocol: string, target: Net.IP,
                                           listenPorts: seq<nat>, targetPorts: seq<nat>, snat: bool)

  /**
   * forwardConvertToFirewallForwards: the default target first, as an
   * entry with no protocol and no ports, then one entry per port mapping in
   * order, every entry on the forward's listen address.
   */
  method ForwardConvertToFirewallForwards(listen: Net.IP, defaultTarget: Option<Net.IP>, portMaps: seq<PortMap>)
    returns (vips: seq<AddressForward>)
    ensures |vips| == |portMaps| + (if defaultTarget.Some? then 1 else 0)
    ensures forall i :: 0 <= i < |vips| ==> vips[i].listen == listen
    ensures defaultTarget.Some? ==> vips[0] == AddressForward(listen, "", defaultTarget.value, [], [], false)
    ensures var off := if defaultTarget.Some? then 1 else 0;
      forall i :: 0 <= i < |portMaps| ==>
        vips[i + off] == AddressForward(listen, portMaps[i].protocol, portMaps[i].target,
                                        portMaps[i].listenPorts, portMaps[i].targetPorts, portMaps[i].snat)
  {
    vips := [];
    if defaultTarget.Some? {
      vips := vips + [AddressForward(listen, "", defaultTarget.value, [], [], false)];
    }
    var off := |vips|;
    var i := 0;
    while i < |portMaps|
      invariant 0 <= i <= |portMaps|
      invariant |vips| == off + i
      invariant forall k :: 0 <= k < |vips| ==> vips[k].listen == listen
      invariant defaultTarget.Some? ==> vips[0] == AddressForward(listen, "", defaultTarget.value, [], [], false)
      invariant forall k :: 0 <= k < i ==>
        vips[k + off] == AddressForward(listen, portMaps[k].protocol, portMaps[k].target,
                                        portMaps[k].listenPorts, portMaps[k].targetPorts, portMaps[k].snat)
    {
      var m := portMaps[i];
      vips := vips + [AddressForward(listen, m.protocol, m.target, m.listenPorts, m.targetPorts, m.snat)];
      i := i + 1;
    }
  }

  // ---------------------------------------------------------------------
  // External subnets in use
  // ---------------------------------------------------------------------

  /** What an external subnet is used for. */
  datatype UsageType = UsageNetwork | UsageNetworkSNAT | UsageInstance | UsageProxy | UsageNetworkForward

  datatype SubnetUsage = SubnetUsage(subnet: Net.Subnet, project: string, network: string, usage: UsageType)

  /** A bridge network: its name and configuration. */
  datatype NetworkInfo = NetworkInfo(name: string, config: Config)

  /** The host-prefix suffix of a NAT address of the family. */
  function HostSuffix(fam: Net.Family): string
  {
    if fam == Net.V4 then "/32" else "/128"
  }

  /** The parsable routes of a network, each as a network usage; others are skipped. */
  function RouteUsages(p: Net.Parsers, project: string, name: string, cidrs: seq<string>): (r: seq<SubnetUsage>)
    ensures |r| <= |cidrs|
    ensures forall u :: u in r ==> u.project == project && u.network == name && u.usage == UsageNetwork
    ensures forall u :: u in r ==> exists c :: c in cidrs && p.parseCIDR(c).Some? && p.parseCIDR(c).value.1 == u.subnet
    decreases |cidrs|
  {
    if |cidrs| == 0 then []
    else
      var prev := RouteUsages(p, project, name, cidrs[..|cidrs| - 1]);
      assert forall c :: c in cidrs[..|cidrs| - 1] ==> c in cidrs;
      match p.parseCIDR(cidrs[|cidrs| - 1])
        case None => prev
        case Some((_, s)) => prev + [SubnetUsage(s, project, name, UsageNetwork)]
  }

  /** The usage of the network's own subnet: only with NAT off and an address that parses. */
  function AddressUsage(p: Net.Parsers, project: string, ni: NetworkInfo, fam: Net.Family): (r: seq<SubnetUsage>)
    ensures |r| == 1 <==> Util.IsFalseOrEmpty(Get(ni.config, Key(fam, ".nat")))
                          && p.parseCIDR(Get(ni.config, Key(fam, ".address"))).Some?
    ensures |r| <= 1
    ensures |r| == 1 ==> r[0] == SubnetUsage(p.parseCIDR(Get(ni.config, Key(fam, ".address"))).value.1,
                                             project, ni.name, UsageNetwork)
  {
    if !Util.IsFalseOrEmpty(Get(ni.config, Key(fam, ".nat"))) then []
    else match p.parseCIDR(Get(ni.config, Key(fam, ".address")))
      case None => []
      case Some((_, s)) => [SubnetUsage(s, project, ni.name, UsageNetwork)]
  }

  function NATText(ni: NetworkInfo, fam: Net.Family): string
  {
    Get(ni.config, Key(fam, ".nat.address")) + HostSuffix(fam)
  }

  /**
   * The usage of a NAT address: set, it is one host subnet (a /32 or a
   * /128) used for SNAT.
   */
  function SNATUsage(p: Net.Parsers, project: string, ni: NetworkInfo, fam: Net.Family): (r: seq<SubnetUsage>)
    requires !BadNATAddress(p, ni, fam)
    ensures |r| == 1 <==> Get(ni.config, Key(fam, ".nat.address")) != ""
    ensures |r| <= 1
    ensures |r| == 1 ==> r[0] == SubnetUsage(p.parseCIDR(NATText(ni, fam)).value.1, project, ni.name, UsageNetworkSNAT)
  {
    if Get(ni.config, Key(fam, ".nat.address")) == "" then []
    else [SubnetUsage(p.parseCIDR(NATText(ni, fam)).value.1, project, ni.name, UsageNetworkSNAT)]
  }

  /** A network family whose NAT address is set but does not parse. */
  predicate BadNATAddress(p: Net.Parsers, ni: NetworkInfo, fam: Net.Family)
  {
    Get(ni.config, Key(fam, ".nat.address")) != "" && p.parseCIDR(NATText(ni, fam)).None?
  }

  function ErrBadNATAddress(project: string, ni: NetworkInfo, fam: Net.Family): string
  {
    "Failed parsing " + Validate.Quote(Key(fam, ".nat.address")) + " of " + Validate.Quote(ni.name)
      + " in project " + Validate.Quote(project) + ": invalid CIDR address: " + NATText(ni, fam)
  }

  function Routes(ni: NetworkInfo, fam: Net.Family): seq<string>
  {
    Util.SplitNTrimSpace(Get(ni.config, Key(fam, ".routes")), ',')
  }

  /**
   * The external subnets of one family of one network: its own subnet, its
   * SNAT address, its routes, or the error of an unparsable NAT address.
   */
  function FamilyUsages(p: Net.Parsers, project: string, ni: NetworkInfo, fam: Net.Family): (r: Result<seq<SubnetUsage>>)
    ensures r.Err? <==> BadNATAddress(p, ni, fam)
    ensures r.Ok? ==> r.value == AddressUsage(p, project, ni, fam) + SNATUsage(p, project, ni, fam)
                                 + RouteUsages(p, project, ni.name, Routes(ni, fam))
  {
    if BadNATAddress(p, ni, fam) then Err(ErrBadNATAddress(project, ni, fam))
    else Ok(AddressUsage(p, project, ni, fam) + SNATUsage(p, project, ni, fam) + RouteUsages(p, project, ni.name, Routes(ni, fam)))
  }

  /** Every usage of a network family names that network and its project. */
  lemma FamilyUsagesOwner(p: Net.Parsers, project: string, ni: NetworkInfo, fam: Net.Family, u: SubnetUsage)
    requires FamilyUsages(p, project, ni, fam).Ok? && u in FamilyUsages(p, project, ni, fam).value
    ensures u.project == project && u.network == ni.name
  {
    var a := AddressUsage(p, project, ni, fam);
    var s := SNATUsage(p, project, ni, fam);
    var rs := RouteUsages(p, project, ni.name, Routes(ni, fam));
    assert u in a || u in s || u in rs;
  }

  /** The external subnets of one network: IPv4 first, then IPv6. */
  function NetworkUsages(p: Net.Parsers, project: string, ni: NetworkInfo): (r: Result<seq<SubnetUsage>>)
    ensures r.Err? <==> BadNATAddress(p, ni, Net.V4) || BadNATAddress(p, ni, Net.V6)
  {
    match FamilyUsages(p, project, ni, Net.V4)
      case Err(e) => Err(e)
      case Ok(v4) =>
        match FamilyUsages(p, project, ni, Net.V6)
          case Err(e) => Err(e)
          case Ok(v6) => Ok(v4 + v6)
  }

  /**
   * bridgeNetworkExternalSubnets over the (project, network) pairs in
   * iteration order: every usage of every network, or the first error.
   */
  function AllUsages(p: Net.Parsers, nets: seq<(string, NetworkInfo)>): Result<seq<SubnetUsage>>
    decreases |nets|
  {
    if |nets| == 0 then Ok([])
    else
      match AllUsages(p, nets[..|nets| - 1])
        case Err(e) => Err(e)
        case Ok(prev) =>
          match NetworkUsages(p, nets[|nets| - 1].0, nets[|nets| - 1].1)
            case Err(e) => Err(e)
            case Ok(u) => Ok(prev + u)
  }

  lemma AllUsagesStep(p: Net.Parsers, nets: seq<(string, NetworkInfo)>, i: nat)
    requires i < |nets| && AllUsages(p, nets[..i]).Ok?
    ensures AllUsages(p, nets[..i + 1]) ==
      match NetworkUsages(p, nets[i].0, nets[i].1)
      case Err(e) => Err(e)
      case Ok(u) => Ok(AllUsages(p, nets[..i]).value + u)
  {
    assert nets[..i + 1][..i] == nets[..i];
  }

  /** An error of a prefix of the networks is the error of the whole. */
  lemma {:induction false} AllUsagesErrPrefix(p: Net.Parsers, nets: seq<(string, NetworkInfo)>, k: nat)
    requires k <= |nets| && AllUsages(p, nets[..k]).Err?
    ensures AllUsages(p, nets) == AllUsages(p, nets[..k])
    decreases |nets| - k
  {
    if k < |nets| {
      assert nets[..k + 1][..k] == nets[..k];
      AllUsagesErrPrefix(p, nets, k + 1);
    } else {
      assert nets[..k] == nets;
    }
  }

  /** Every usage found belongs to one of the networks given, under its project. */
  lemma {:induction false} AllUsagesOwners(p: Net.Parsers, nets: seq<(string, NetworkInfo)>, u: SubnetUsage)
    requires AllUsages(p, nets).Ok? && u in AllUsages(p, nets).value
    ensures exists i :: 0 <= i < |nets| && nets[i].0 == u.project && nets[i].1.name == u.network
    decreases |nets|
  {
    var init := nets[..|nets| - 1];
    var last := nets[|nets| - 1];
    var prev := AllUsages(p, init).value;
    if u in prev {
      AllUsagesOwners(p, init, u);
      var i :| 0 <= i < |init| && init[i].0 == u.project && init[i].1.name == u.network;
      assert nets[i] == init[i];
    } else {
      var v4 := FamilyUsages(p, last.0, last.1, Net.V4).value;
      var v6 := FamilyUsages(p, last.0, last.1, Net.V6).value;
      assert u in v4 + v6;
      if u in v4 {
        FamilyUsagesOwner(p, last.0, last.1, Net.V4, u);
      } else {
        FamilyUsagesOwner(p, last.0, last.1, Net.V6, u);
      }
    }
  }

  predicate NetworkBad(p: Net.Parsers, ni: NetworkInfo)
  {
    BadNATAddress(p, ni, Net.V4) || BadNATAddress(p, ni, Net.V6)
  }

  lemma AllUsagesErrStep(p: Net.Parsers, nets: seq<(string, NetworkInfo)>)
    requires |nets| > 0
    ensures AllUsages(p, nets).Err? <==> AllUsages(p, nets[..|nets| - 1]).Err? || NetworkBad(p, nets[|nets| - 1].1)
  {
  }

  predicate SomeNetworkBad(p: Net.Parsers, nets: seq<(string, NetworkInfo)>)
  {
    exists i :: 0 <= i < |nets| && NetworkBad(p, nets[i].1)
  }

  lemma SomeNetworkBadStep(p: Net.Parsers, nets: seq<(string, NetworkInfo)>)
    requires |nets| > 0
    ensures SomeNetworkBad(p, nets) <==> SomeNetworkBad(p, nets[..|nets| - 1]) || NetworkBad(p, nets[|nets| - 1].1)
  {
    var init := nets[..|nets| - 1];
    if SomeNetworkBad(p, nets) && !NetworkBad(p, nets[|nets| - 1].1) {
      var i :| 0 <= i < |nets| && NetworkBad(p, nets[i].1);
      assert init[i] == nets[i];
    }
    if SomeNetworkBad(p, init) {
      var i :| 0 <= i < |init| && NetworkBad(p, init[i].1);
      assert init[i] == nets[i];
    }
  }

  /** The aggregation fails exactly when some network has an unparsable NAT address. */
  lemma {:induction false} AllUsagesErrIff(p: Net.Parsers, nets: seq<(string, NetworkInfo)>)
    ensures AllUsages(p, nets).Err? <==> SomeNetworkBad(p, nets)
    decreases |nets|
  {
    if |nets| > 0 {
      AllUsagesErrIff(p, nets[..|nets| - 1]);
      AllUsagesErrStep(p, nets);
      SomeNetworkBadStep(p, nets);
    }
  }

  /** The routes loop of one family, appending each parsable route. */
  method CollectRoutes(p: Net.Parsers, project: string, name: string, cidrs: seq<string>) returns (r: seq<SubnetUsage>)
    ensures r == RouteUsages(p, project, name, cidrs)
  {
    r := [];
    var j := 0;
    while j < |cidrs|
      invariant 0 <= j <= |cidrs|
      invariant r == RouteUsages(p, project, name, cidrs[..j])
    {
      assert cidrs[..j + 1][..j] == cidrs[..j];
      var parsed := p.parseCIDR(cidrs[j]);
      if parsed.Some? {
        r := r + [SubnetUsage(parsed.value.1, project, name, UsageNetwork)];
      }
      j := j + 1;
    }
    assert cidrs[..j] == cidrs;
  }

  /** The body of the family loop for one network and one family. */
  method CollectFamily(p: Net.Parsers, project: string, ni: NetworkInfo, fam: Net.Family) returns (r: Result<seq<SubnetUsage>>)
    ensures r == FamilyUsages(p, project, ni, fam)
  {
    var found: seq<SubnetUsage> := [];
    if Util.IsFalseOrEmpty(Get(ni.config, Key(fam, ".nat"))) {
      var parsed := p.parseCIDR(Get(ni.config, Key(fam, ".address")));
      if parsed.Some? {
        found := found + [SubnetUsage(parsed.value.1, project, ni.name, UsageNetwork)];
      }
    }
    assert found == AddressUsage(p, project, ni, fam);
    if Get(ni.config, Key(fam, ".nat.address")) != "" {
      var parsed := p.parseCIDR(NATText(ni, fam));
      if parsed.None? {
        return Err(ErrBadNATAddress(project, ni, fam));
      }
      found := found + [SubnetUsage(parsed.value.1, project, ni.name, UsageNetworkSNAT)];
    }
    assert found == AddressUsage(p, project, ni, fam) + SNATUsage(p, project, ni, fam);
    var routes := CollectRoutes(p, project, ni.name, Routes(ni, fam));
    return Ok(found + routes);
  }

  /** The family loop of one network. */
  method CollectNetwork(p: Net.Parsers, project: string, ni: NetworkInfo) returns (r: Result<seq<SubnetUsage>>)
    ensures r == NetworkUsages(p, project, ni)
  {
    var found: seq<SubnetUsage> := [];
    var fams := [Net.V4, Net.V6];
    var f := 0;
    while f < 2
      invariant 0 <= f <= 2
      invariant f >= 1 ==> FamilyUsages(p, project, ni, Net.V4).Ok?
      invariant f == 0 ==> found == []
      invariant f == 1 ==> found == FamilyUsages(p, project, ni, Net.V4).value
      invariant f == 2 ==> NetworkUsages(p, project, ni) == Ok(found)
    {
      var u := CollectFamily(p, project, ni, fams[f]);
      if u.Err? {
        return u;
      }
      found := found + u.value;
      f := f + 1;
    }
    return Ok(found);
  }

  /** bridgeNetworkExternalSubnets with its nested loops. */
  method BridgeNetworkExternalSubnets(p: Net.Parsers, nets: seq<(string, NetworkInfo)>) returns (r: Result<seq<SubnetUsage>>)
    ensures r == AllUsages(p, nets)
  {
    var found: seq<SubnetUsage> := [];
    var i := 0;
    while i < |nets|
      invariant 0 <= i <= |nets|
      invariant AllUsages(p, nets[..i]) == Ok(found)
    {
      var u := CollectNetwork(p, nets[i].0, nets[i].1);
      AllUsagesStep(p, nets, i);
      if u.Err? {
        AllUsagesErrPrefix(p, nets, i + 1);
        return u;
      }
      found := found + u.value;
      i := i + 1;
    }
    assert nets[..i] == nets;
    return Ok(found);
  }

  // ---------------------------------------------------------------------
  // Network forwards: listen address and member-scoped records
  // ---------------------------------------------------------------------

  /** The network's own subnet and SNAT usages, which a forward may sit in. */
  predicate OwnUsage(project: string, name: string, u: SubnetUsage)
  {
    u.project == project && u.network == name && (u.usage == UsageNetwork || u.usage == UsageNetworkSNAT)
  }

  predicate ListenConflict(listen: Net.Subnet, u: SubnetUsage)
  {
    Net.SubnetContains(u.subnet, listen) || Net.SubnetContains(listen, u.subnet)
  }

  /** No usage other than the network's own conflicts with the listen address. */
  predicate ListenClear(project: string, name: string, listen: Net.Subnet, usages: seq<SubnetUsage>)
  {
    forall i :: 0 <= i < |usages| && !OwnUsage(project, name, usages[i]) ==> !ListenConflict(listen, usages[i])
  }

  function ErrListenOverlap(p: Net.Parsers, listen: Net.Subnet): string
  {
    "Forward listen address " + Validate.Quote(p.formatSubnet(listen)) + " overlaps with another network or NIC"
  }

  /**
   * The overlap loop of ForwardCreate: the first conflicting usage stops it,
   * with an error that names only the listen address.
   */
  method CheckListenOverlap(p: Net.Parsers, project: string, name: string, listen: Net.Subnet, usages: seq<SubnetUsage>)
    returns (r: Outcome)
    ensures r.Pass? <==> ListenClear(project, name, listen, usages)
    ensures r.Fail? ==> r.msg == ErrListenOverlap(p, listen)
  {
    var i := 0;
    while i < |usages|
      invariant 0 <= i <= |usages|
      invariant forall k :: 0 <= k < i && !OwnUsage(project, name, usages[k]) ==> !ListenConflict(listen, usages[k])
    {
      var u := usages[i];
      if !OwnUsage(project, name, u) && ListenConflict(listen, u) {
        return Fail(ErrListenOverlap(p, listen));
      }
      i := i + 1;
    }
    return Pass;
  }

  /**
   * For well-formed CIDR blocks, "one contains the other" is the same as
   * sharing an address, so the check rejects exactly the listen addresses
   * that overlap a foreign usage.
   */
  lemma ListenClearMeansDisjoint(project: string, name: string, listen: Net.Subnet, usages: seq<SubnetUsage>)
    requires Net.ValidSubnet(listen)
    requires forall i :: 0 <= i < |usages| ==> Net.ValidSubnet(usages[i].subnet)
    ensures ListenClear(project, name, listen, usages) <==>
      forall i :: 0 <= i < |usages| && !OwnUsage(project, name, usages[i]) ==> !Net.SubnetsOverlap(listen, usages[i].subnet)
  {
    forall i | 0 <= i < |usages|
      ensures ListenConflict(listen, usages[i]) <==> Net.SubnetsOverlap(listen, usages[i].subnet)
    {
      Net.CIDRNested(listen, usages[i].subnet);
    }
  }

  /** A forward record: its id and the cluster member it is bound to, if any. */
  datatype ForwardRecord = ForwardRecord(id: int, node: Option<int>)

  predicate OnMember(r: ForwardRecord, localNode: int)
  {
    r.node.None? || r.node.value == localNode
  }

  /** The records bound to no member or to this one, in their order. */
  function MemberRecords(records: seq<ForwardRecord>, localNode: int): (rs: seq<ForwardRecord>)
    ensures |rs| <= |records|
    ensures forall x :: x in rs <==> x in records && OnMember(x, localNode)
    decreases |records|
  {
    if |records| == 0 then []
    else
      var prev := MemberRecords(records[..|records| - 1], localNode);
      var last := records[|records| - 1];
      assert records == records[..|records| - 1] + [last];
      if OnMember(last, localNode) then prev + [last] else prev
  }

  /** The member filter loop of ForwardCreate, ForwardUpdate and ForwardDelete. */
  method FilterMemberRecords(records: seq<ForwardRecord>, localNode: int) returns (rs: seq<ForwardRecord>)
    ensures rs == MemberRecords(records, localNode)
  {
    rs := [];
    var i := 0;
    while i < |records|
      invariant 0 <= i <= |records|
      invariant rs == MemberRecords(records[..i], localNode)
    {
      assert records[..i + 1][..i] == records[..i];
      if OnMember(records[i], localNode) {
        rs := rs + [records[i]];
      }
      i := i + 1;
    }
    assert records[..i] == records;
  }

  /** The outcome of looking up a forward by listen address. */
  datatype Lookup = Found(record: ForwardRecord) | NotFound | Conflict

  const ErrForwardNotFound: string := "Network forward not found"
  const ErrForwardConflict: string :=
    "Network forward found on more than one cluster member. Please target a specific member"
  const ErrForwardExists: string := "A forward for that listen address already exists"

  /**
   * The member-scoped lookup: no record on this member is "not found"
   * (HTTP 404), more than one is a conflict (HTTP 409).
   */
  function LookupForward(records: seq<ForwardRecord>, localNode: int): (r: Lookup)
    ensures r.NotFound? <==> forall x :: x in records ==> !OnMember(x, localNode)
    ensures r.Conflict? <==> |MemberRecords(records, localNode)| > 1
    ensures r.Found? ==> (r.record in records && OnMember(r.record, localNode)
                          && MemberRecords(records, localNode) == [r.record])
  {
    var rs := MemberRecords(records, localNode);
    assert |rs| > 0 ==> rs[0] in rs;
    if |rs| == 0 then NotFound
    else if |rs| > 1 then Conflict
    else
      assert rs[0] in rs;
      Found(rs[0])
  }

  function LookupMessage(l: Lookup): Option<string>
  {
    match l
      case NotFound => Some(ErrForwardNotFound)
      case Conflict => Some(ErrForwardConflict)
      case Found(_) => None
  }

  /**
   * ForwardCreate's checks before anything is written: an existing forward
   * on this member for the listen address is refused; any other lookup
   * outcome lets creation go on; the listen address must parse and must not
   * sit in another network's or NIC's subnet. (The forward's own fields are
   * checked by forwardValidate, which is not part of this model.)
   */
  method ForwardCreateCheck(p: Net.Parsers, project: string, name: string, records: seq<ForwardRecord>,
                            localNode: int, listenAddress: string, usages: seq<SubnetUsage>) returns (r: Outcome)
    ensures LookupForward(records, localNode).Found? ==> r == Fail(ErrForwardExists)
    ensures r.Pass? <==>
      !LookupForward(records, localNode).Found?
      && p.parseIPToNet(listenAddress).Ok?
      && ListenClear(project, name, p.parseIPToNet(listenAddress).value, usages)
  {
    var rs := FilterMemberRecords(records, localNode);
    if |rs| == 1 {
      return Fail(ErrForwardExists);
    }
    var listen := p.parseIPToNet(listenAddress);
    if listen.Err? {
      return Fail("Failed parsing address forward listen address " + Validate.Quote(listenAddress) + ": " + listen.msg);
    }
    r := CheckListenOverlap(p, project, name, listen.value, usages);
  }
}
