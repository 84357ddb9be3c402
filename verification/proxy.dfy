/**
 * The proxy device: the checks run on its configuration, the search for a
 * network forward already using its listen address, the choice of the
 * instance address that NAT mode forwards to, the assignment of the listen
 * and connect sides to the daemon and the instance, and the scan of the
 * forkproxy log for its start-up status.
 */
module Proxy {
  import opened Wrappers
  import Strs
  import Net
  import Validate
  import opened Util

  datatype InstanceType = Container | VM

  /**
   * A parsed proxy address `<type>:<addr>:<port>[-<port>][,<port>]`: the
   * connection type ("tcp", "udp" or "unix"), the host part and the ports
   * with every range expanded.
   */
  datatype ProxyAddress = ProxyAddress(connType: string, address: string, ports: seq<nat>)

  /**
   * The helpers the device calls whose source is not part of this model:
   * network.ProxyParseAddr, the octal file mode and user id validators, and
   * net.ParseIP (`None` for nil).
   */
  datatype Checkers = Checkers(
    parseAddr: string -> Result<ProxyAddress>,
    validMode: Validate.Validator,
    validUserID: Validate.Validator,
    parseIP: string -> Option<Net.IP>)

  // ---------------------------------------------------------------------
  // Per-key rules
  // ---------------------------------------------------------------------

  const BindValues: seq<string> := ["host", "instance", "guest", "container"]

  const ErrInvalidBind := "Invalid binding side given. Must be \"host\" or \"instance\""

  /** "instance", "guest" and "container" all bind on the instance side. */
  function ValidateBind(value: string): (r: Outcome)
    ensures r.Pass? <==> value in BindValues
    ensures r.Fail? ==> r.msg == ErrInvalidBind
  {
    if value !in BindValues then Fail(ErrInvalidBind) else Pass
  }

  function AddrRule(parseAddr: string -> Result<ProxyAddress>): Validate.Validator
  {
    (value: string) => if parseAddr(value).Err? then Fail(parseAddr(value).msg) else Pass
  }

  /** The keys the device checks, in the order the model checks them. */
  const RuleKeys: seq<string> :=
    ["listen", "connect", "bind", "mode", "nat", "gid", "uid", "security.uid", "security.gid", "proxy_protocol"]

  /** The validator of each key (any other key is left to the generic device checks). */
  function KeyRule(c: Checkers, key: string): Validate.Validator
  {
    if key == "listen" || key == "connect" then Validate.Required([AddrRule(c.parseAddr)])
    else if key == "bind" then Validate.Optional([ValidateBind])
    else if key == "mode" then Validate.Optional([c.validMode])
    else if key == "nat" || key == "proxy_protocol" then Validate.Optional([Validate.IsBool])
    else if key in ["gid", "uid", "security.uid", "security.gid"] then Validate.Optional([c.validUserID])
    else Validate.IsAny
  }

  /** The first key whose value its rule refuses gives the error. */
  function KeysVerdict(c: Checkers, config: Config, keys: seq<string>): (r: Outcome)
    ensures r.Pass? <==> forall i :: 0 <= i < |keys| ==> KeyRule(c, keys[i])(Get(config, keys[i])).Pass?
  {
    if |keys| == 0 then Pass
    else if KeyRule(c, keys[0])(Get(config, keys[0])).Fail? then KeyRule(c, keys[0])(Get(config, keys[0]))
    else KeysVerdict(c, config, keys[1..])
  }

  /** Once the key rules pass, "nat" is a boolean word: set to true or not. */
  lemma NATIsBoolean(c: Checkers, config: Config)
    requires KeysVerdict(c, config, RuleKeys).Pass?
    ensures IsTrue(Get(config, "nat")) <==> !IsFalseOrEmpty(Get(config, "nat"))
    ensures Get(config, "bind") == "" || Get(config, "bind") in BindValues
  {
    var natValue := Get(config, "nat");
    var bindValue := Get(config, "bind");
    assert RuleKeys[4] == "nat" && RuleKeys[2] == "bind";
    assert KeyRule(c, "nat")(natValue).Pass?;
    assert KeyRule(c, "bind")(bindValue).Pass?;
    if natValue != "" {
      assert KeyRule(c, "nat") == Validate.Optional([Validate.IsBool]);
      Validate.OptionalNonEmpty([Validate.IsBool], natValue);
      Validate.AndPassIff([Validate.IsBool], natValue);
      assert Validate.IsBool(natValue).Pass?;
    }
    if bindValue != "" {
      assert KeyRule(c, "bind") == Validate.Optional([ValidateBind]);
      Validate.OptionalNonEmpty([ValidateBind], bindValue);
      Validate.AndPassIff([ValidateBind], bindValue);
      assert ValidateBind(bindValue).Pass?;
    }
  }

  // ---------------------------------------------------------------------
  // Conflicts with network forwards
  // ---------------------------------------------------------------------

  /** A network forward row: the cluster member it lives on (if any) and its listen address. */
  datatype ForwardRow = ForwardRow(node: Option<int>, listenAddress: string)

  /** The forwards of one network of one project. */
  datatype NetworkForwards = NetworkForwards(project: string, network: string, forwards: seq<ForwardRow>)

  /** The listen addresses of the forwards that live on cluster member `node`. */
  function LocalAddresses(rows: seq<ForwardRow>, node: int): (r: seq<string>)
    ensures forall a :: a in r <==> exists j :: 0 <= j < |rows| && rows[j].node == Some(node) && rows[j].listenAddress == a
  {
    if |rows| == 0 then []
    else
      var last := rows[|rows| - 1];
      LocalAddresses(rows[..|rows| - 1], node) + (if last.node == Some(node) then [last.listenAddress] else [])
  }

  predicate HasLocalForward(nets: seq<NetworkForwards>, node: int, a: string)
  {
    exists i :: 0 <= i < |nets| && a in LocalAddresses(nets[i].forwards, node)
  }

  /** The local forward addresses of every network, network by network. */
  function AllLocalAddresses(nets: seq<NetworkForwards>, node: int): (r: seq<string>)
    ensures forall a :: a in r <==> HasLocalForward(nets, node, a)
  {
    if |nets| == 0 then []
    else
      var r := AllLocalAddresses(nets[..|nets| - 1], node) + LocalAddresses(nets[|nets| - 1].forwards, node);
      assert forall a :: HasLocalForward(nets, node, a) <==>
        (HasLocalForward(nets[..|nets| - 1], node, a) || a in LocalAddresses(nets[|nets| - 1].forwards, node)) by {
        forall a
          ensures HasLocalForward(nets, node, a) ==>
            (HasLocalForward(nets[..|nets| - 1], node, a) || a in LocalAddresses(nets[|nets| - 1].forwards, node))
        {
          if HasLocalForward(nets, node, a) {
            var i :| 0 <= i < |nets| && a in LocalAddresses(nets[i].forwards, node);
            if i < |nets| - 1 {
              assert nets[..|nets| - 1][i] == nets[i];
            }
          }
        }
        forall a | HasLocalForward(nets[..|nets| - 1], node, a)
          ensures HasLocalForward(nets, node, a)
        {
          var i :| 0 <= i < |nets| - 1 && a in LocalAddresses(nets[..|nets| - 1][i].forwards, node);
          assert nets[..|nets| - 1][i] == nets[i];
        }
      }
      r
  }

  /**
   * What validateListenAddressConflicts gathers as written: the collecting
   * map is recreated for every network, so only the local forwards of the
   * last network visited remain.
   */
  function LastNetworkLocalAddresses(nets: seq<NetworkForwards>, node: int): (r: seq<string>)
    ensures |nets| > 0 ==> r == LocalAddresses(nets[|nets| - 1].forwards, node)
  {
    if |nets| == 0 then [] else LocalAddresses(nets[|nets| - 1].forwards, node)
  }

  /** The first address among `addrs` equal to the listen IP (net.IP.Equal; nil equals nil). */
  function FirstConflict(parseIP: string -> Option<Net.IP>, listen: Option<Net.IP>, addrs: seq<string>): (r: Option<string>)
    ensures r.None? <==> forall a :: a in addrs ==> parseIP(a) != listen
    ensures r.Some? ==> r.value in addrs && parseIP(r.value) == listen
  {
    if |addrs| == 0 then None
    else if parseIP(addrs[0]) == listen then Some(addrs[0])
    else FirstConflict(parseIP, listen, addrs[1..])
  }

  function ErrListenConflict(a: string): string
  {
    "Listen address " + Validate.Quote(a) + " conflicts with existing network forward"
  }

  function ConflictVerdict(parseIP: string -> Option<Net.IP>, listen: Option<Net.IP>, addrs: seq<string>): (r: Outcome)
    ensures r.Pass? <==> FirstConflict(parseIP, listen, addrs).None?
    ensures r.Fail? ==> r.msg == ErrListenConflict(FirstConflict(parseIP, listen, addrs).value)
  {
    match FirstConflict(parseIP, listen, addrs)
    case None => Pass
    case Some(a) => Fail(ErrListenConflict(a))
  }

  /**
   * The proxy's listen address is refused exactly when a forward on this
   * cluster member, on any network of any project, listens on the same IP.
   */
  lemma ConflictVerdictPassIff(parseIP: string -> Option<Net.IP>, listen: Option<Net.IP>, nets: seq<NetworkForwards>, node: int)
    ensures ConflictVerdict(parseIP, listen, AllLocalAddresses(nets, node)).Pass? <==>
      forall i, j :: 0 <= i < |nets| && 0 <= j < |nets[i].forwards| && nets[i].forwards[j].node == Some(node) ==>
        parseIP(nets[i].forwards[j].listenAddress) != listen
  {
    var all := AllLocalAddresses(nets, node);
    if ConflictVerdict(parseIP, listen, all).Pass? {
      forall i, j | 0 <= i < |nets| && 0 <= j < |nets[i].forwards| && nets[i].forwards[j].node == Some(node)
        ensures parseIP(nets[i].forwards[j].listenAddress) != listen
      {
        var a := nets[i].forwards[j].listenAddress;
        assert a in LocalAddresses(nets[i].forwards, node);
        assert HasLocalForward(nets, node, a);
      }
    } else {
      var a := FirstConflict(parseIP, listen, all).value;
      assert HasLocalForward(nets, node, a);
      var i :| 0 <= i < |nets| && a in LocalAddresses(nets[i].forwards, node);
      var j :| 0 <= j < |nets[i].forwards| && nets[i].forwards[j].node == Some(node) && nets[i].forwards[j].listenAddress == a;
    }
  }

  /**
   * Gathers the listen addresses of the forwards on cluster member `node`
   * over every network, then refuses the proxy's listen IP when one of
   * them is the same address.
   */
  method ValidateListenAddressConflicts(parseIP: string -> Option<Net.IP>, listen: Option<Net.IP>, nets: seq<NetworkForwards>, node: int)
    returns (r: Outcome)
    ensures r == ConflictVerdict(parseIP, listen, AllLocalAddresses(nets, node))
  {
    var addrs := GatherLocalAddresses(nets, node);
    r := CheckConflicts(parseIP, listen, addrs);
  }

  /** The local forward addresses, network by network. */
  method GatherLocalAddresses(nets: seq<NetworkForwards>, node: int) returns (addrs: seq<string>)
    ensures addrs == AllLocalAddresses(nets, node)
  {
    addrs := [];
    var i := 0;
    while i < |nets|
      invariant 0 <= i <= |nets|
      invariant addrs == AllLocalAddresses(nets[..i], node)
    {
      var local := NetworkLocalAddresses(nets[i].forwards, node);
      assert nets[..i + 1][..i] == nets[..i];
      addrs := addrs + local;
      i := i + 1;
    }
    assert nets[..i] == nets;
  }

  /** The listen addresses of one network's forwards on member `node`, row by row. */
  method NetworkLocalAddresses(rows: seq<ForwardRow>, node: int) returns (local: seq<string>)
    ensures local == LocalAddresses(rows, node)
  {
    local := [];
    var j := 0;
    while j < |rows|
      invariant 0 <= j <= |rows|
      invariant local == LocalAddresses(rows[..j], node)
    {
      if rows[j].node == Some(node) {
        local := local + [rows[j].listenAddress];
      }
      assert rows[..j + 1][..j] == rows[..j];
      j := j + 1;
    }
    assert rows[..j] == rows;
  }

  /** Compares each gathered address with the listen IP, failing at the first equal one. */
  method CheckConflicts(parseIP: string -> Option<Net.IP>, listen: Option<Net.IP>, addrs: seq<string>) returns (r: Outcome)
    ensures r == ConflictVerdict(parseIP, listen, addrs)
  {
    var k := 0;
    while k < |addrs|
      invariant 0 <= k <= |addrs|
      invariant FirstConflict(parseIP, listen, addrs) == FirstConflict(parseIP, listen, addrs[k..])
    {
      if parseIP(addrs[k]) == listen {
        return Fail(ErrListenConflict(addrs[k]));
      }
      assert addrs[k..][1..] == addrs[k + 1..];
      k := k + 1;
    }
    return Pass;
  }

  /**
   * As written, a forward on an earlier network that shares the listen
   * address goes unseen when a later network has no local forwards.
   */
  lemma ConflictsAsWrittenMissEarlierNetworks()
    ensures var parseIP := (s: string) => if s == "10.0.0.1" then Some(Net.IP(Net.V4, 167772161)) else None;
      var nets := [NetworkForwards("default", "br0", [ForwardRow(Some(1), "10.0.0.1")]), NetworkForwards("default", "br1", [])];
      ConflictVerdict(parseIP, Some(Net.IP(Net.V4, 167772161)), LastNetworkLocalAddresses(nets, 1)).Pass? &&
      ConflictVerdict(parseIP, Some(Net.IP(Net.V4, 167772161)), AllLocalAddresses(nets, 1)).Fail?
  {
    var parseIP := (s: string) => if s == "10.0.0.1" then Some(Net.IP(Net.V4, 167772161)) else None;
    var nets := [NetworkForwards("default", "br0", [ForwardRow(Some(1), "10.0.0.1")]), NetworkForwards("default", "br1", [])];
    assert LocalAddresses(nets[1].forwards, 1) == [];
    assert "10.0.0.1" in LocalAddresses(nets[0].forwards, 1);
    assert HasLocalForward(nets, 1, "10.0.0.1");
  }

  // ---------------------------------------------------------------------
  // Cross-key checks
  // ---------------------------------------------------------------------

  /** One listen port cannot feed several connect ports; a unix socket feeds at most one. */
  predicate PortsMatch(listen: ProxyAddress, connect: ProxyAddress)
  {
    if listen.connType == "unix" then |connect.ports| <= 1 else |connect.ports| <= |listen.ports|
  }

  /** The PROXY header goes only to tcp targets, and never in NAT mode. */
  predicate ProxyHeaderAllowed(config: Config)
  {
    IsTrue(Get(config, "proxy_protocol")) ==> "tcp" <= Get(config, "connect") && !IsTrue(Get(config, "nat"))
  }

  /** Owner and mode settings are only for a non-abstract unix listen socket. */
  predicate OwnershipAllowed(config: Config)
  {
    (Get(config, "uid") != "" || Get(config, "gid") != "" || Get(config, "mode") != "") ==>
      "unix:" <= Get(config, "listen") && !("unix:@" <= Get(config, "listen"))
  }

  /** net.IP.To4() == nil gives 6, anything else 4. */
  function IPVersion(ip: Option<Net.IP>): nat
  {
    if ip.Some? && ip.value.family == Net.V4 then 4 else 6
  }

  /** Equal to 0.0.0.0 or to ::. */
  predicate IsWildcard(ip: Option<Net.IP>)
  {
    ip.Some? && ip.value.value == 0
  }

  /** A project other than "default" with its own networks. */
  predicate NetworksProject(project: Option<(string, Config)>)
  {
    project.Some? && project.value.0 != "default" && IsTrue(Get(project.value.1, "features.networks"))
  }

  /** What NAT mode demands of the listen and connect addresses. */
  predicate NATAllowed(c: Checkers, config: Config, project: Option<(string, Config)>, listen: ProxyAddress, connect: ProxyAddress)
  {
    && !NetworksProject(project)
    && (Get(config, "bind") == "" || Get(config, "bind") == "host")
    && listen.connType != "unix" && listen.connType == connect.connType
    && !IsWildcard(c.parseIP(listen.address))
    && IPVersion(c.parseIP(listen.address)) == IPVersion(c.parseIP(connect.address))
  }

  function NATVerdict(c: Checkers, config: Config, project: Option<(string, Config)>, listen: ProxyAddress, connect: ProxyAddress): (r: Outcome)
    ensures r.Pass? <==> NATAllowed(c, config, project, listen, connect)
  {
    var l := c.parseIP(listen.address);
    if NetworksProject(project) then Fail("NAT mode cannot be used in projects that have the networks feature")
    else if Get(config, "bind") != "" && Get(config, "bind") != "host" then Fail("Only host-bound proxies can use NAT")
    else if listen.connType == "unix" || connect.connType == "unix" || listen.connType != connect.connType then
      Fail("Proxying " + listen.connType + " <-> " + connect.connType + " is not supported when using NAT")
    else if IsWildcard(l) then
      Fail("Cannot listen on wildcard address " + Validate.Quote(if l.value.family == Net.V4 then "0.0.0.0" else "::") + " when in nat mode")
    else if IPVersion(l) != IPVersion(c.parseIP(connect.address)) then
      Fail("Cannot mix IP versions between listen and connect in nat mode")
    else Pass
  }

  const ErrVMNeedsNAT := "Only NAT mode is supported for proxies on VM instances"
  const ErrPortsMismatch := "Mismatch between listen port(s) and connect port(s) count"
  const ErrProxyHeader := "The PROXY header can only be sent to tcp servers in non-nat mode"
  const ErrOwnership := "Only proxy devices for non-abstract unix sockets can carry uid, gid, or mode properties"

  /**
   * The device configuration check. `project` is the instance's project
   * name and configuration (`None` when there is no instance yet); `nets`
   * are the network forwards of every project and `node` this cluster
   * member.
   */
  function ValidateConfig(c: Checkers, instType: InstanceType, config: Config, project: Option<(string, Config)>,
                          nets: seq<NetworkForwards>, node: int): (r: Outcome)
    ensures r.Pass? ==> KeysVerdict(c, config, RuleKeys).Pass?
    ensures r.Pass? && instType == VM ==> !IsFalseOrEmpty(Get(config, "nat"))
    ensures r.Pass? ==> c.parseAddr(Get(config, "listen")).Ok? && c.parseAddr(Get(config, "connect")).Ok?
    ensures r.Pass? ==> PortsMatch(c.parseAddr(Get(config, "listen")).value, c.parseAddr(Get(config, "connect")).value)
    ensures r.Pass? ==> ProxyHeaderAllowed(config) && OwnershipAllowed(config)
    ensures r.Pass? && IsTrue(Get(config, "nat")) ==>
      NATAllowed(c, config, project, c.parseAddr(Get(config, "listen")).value, c.parseAddr(Get(config, "connect")).value)
    ensures r.Pass? ==> forall i, j :: 0 <= i < |nets| && 0 <= j < |nets[i].forwards| && nets[i].forwards[j].node == Some(node) ==>
      c.parseIP(nets[i].forwards[j].listenAddress) != c.parseIP(c.parseAddr(Get(config, "listen")).value.address)
    ensures (&& KeysVerdict(c, config, RuleKeys).Pass?
             && (instType == VM ==> !IsFalseOrEmpty(Get(config, "nat")))
             && c.parseAddr(Get(config, "listen")).Ok? && c.parseAddr(Get(config, "connect")).Ok?
             && ConflictVerdict(c.parseIP, c.parseIP(c.parseAddr(Get(config, "listen")).value.address), AllLocalAddresses(nets, node)).Pass?
             && PortsMatch(c.parseAddr(Get(config, "listen")).value, c.parseAddr(Get(config, "connect")).value)
             && ProxyHeaderAllowed(config) && OwnershipAllowed(config)
             && (IsTrue(Get(config, "nat")) ==>
                   NATAllowed(c, config, project, c.parseAddr(Get(config, "listen")).value, c.parseAddr(Get(config, "connect")).value)))
            ==> r.Pass?
  {
    var keys := KeysVerdict(c, config, RuleKeys);
    if keys.Fail? then keys
    else if instType == VM && IsFalseOrEmpty(Get(config, "nat")) then Fail(ErrVMNeedsNAT)
    else if c.parseAddr(Get(config, "listen")).Err? then Fail(c.parseAddr(Get(config, "listen")).msg)
    else if c.parseAddr(Get(config, "connect")).Err? then Fail(c.parseAddr(Get(config, "connect")).msg)
    else
      var listen := c.parseAddr(Get(config, "listen")).value;
      var connect := c.parseAddr(Get(config, "connect")).value;
      var conflicts := ConflictVerdict(c.parseIP, c.parseIP(listen.address), AllLocalAddresses(nets, node));
      ConflictVerdictPassIff(c.parseIP, c.parseIP(listen.address), nets, node);
      if conflicts.Fail? then conflicts
      else if !PortsMatch(listen, connect) then Fail(ErrPortsMismatch)
      else if !ProxyHeaderAllowed(config) then Fail(ErrProxyHeader)
      else if !OwnershipAllowed(config) then Fail(ErrOwnership)
      else if IsTrue(Get(config, "nat")) then NATVerdict(c, config, project, listen, connect)
      else Pass
  }

  /**
   * A proxy accepted on a VM runs in NAT mode, so it is host-bound, joins
   * two addresses of one IP version, and sends no PROXY header.
   */
  lemma VMProxyIsNAT(c: Checkers, config: Config, project: Option<(string, Config)>, nets: seq<NetworkForwards>, node: int)
    requires ValidateConfig(c, VM, config, project, nets, node).Pass?
    ensures IsTrue(Get(config, "nat"))
    ensures Get(config, "bind") == "" || Get(config, "bind") == "host"
    ensures !IsTrue(Get(config, "proxy_protocol"))
    ensures IPVersion(c.parseIP(c.parseAddr(Get(config, "listen")).value.address)) ==
      IPVersion(c.parseIP(c.parseAddr(Get(config, "connect")).value.address))
  {
    NATIsBoolean(c, config);
  }

  // ---------------------------------------------------------------------
  // NAT target selection
  // ---------------------------------------------------------------------

  /** An instance device: its name, its configuration and, for a NIC, its resolved NIC type (or the error resolving it). */
  datatype Device = Device(name: string, config: Config, nicType: Result<string>)

  /** The listen address's version: 6 when its host part holds a ':'. */
  function ListenIPVersion(address: string): (v: nat)
    ensures v == 4 || v == 6
    ensures v == 6 <==> ':' in address
  {
    if ':' in address then 6 else 4
  }

  function StaticAddressKey(version: nat): string
  {
    if version == 4 then "ipv4.address" else "ipv6.address"
  }

  function WildcardText(version: nat): string
  {
    if version == 4 then "0.0.0.0" else "::"
  }

  predicate IsNIC(d: Device)
  {
    Get(d.config, "type") == "nic"
  }

  /** A NIC reachable from the host: bridged or routed. */
  predicate Reachable(d: Device)
  {
    IsNIC(d) && d.nicType.Ok? && d.nicType.value in ["bridged", "routed"]
  }

  /**
   * The address this device offers as the connect IP: its static address
   * of the listen version, when the connect host names it or is the
   * wildcard of that version.
   */
  function DeviceConnectIP(parseIP: string -> Option<Net.IP>, version: nat, connect: string, d: Device): (r: Option<Net.IP>)
    ensures r.Some? ==> Reachable(d) && Get(d.config, StaticAddressKey(version)) != ""
    ensures r.Some? ==> r == parseIP(Get(d.config, StaticAddressKey(version)))
    ensures r.Some? ==> connect == Get(d.config, StaticAddressKey(version)) || connect == WildcardText(version)
  {
    var a := Get(d.config, StaticAddressKey(version));
    if !Reachable(d) then None
    else if a != "" && (connect == a || connect == WildcardText(version)) then parseIP(a)
    else None
  }

  /** The chosen connect IP and the host-side interface name of its NIC. */
  datatype NATTarget = NATTarget(connectIP: Net.IP, hostName: string)

  function ErrNoConnectIP(version: nat, connect: string): string
  {
    var v := if version == 4 then "4" else "6";
    if connect == "0.0.0.0" || connect == "::" then "Instance has no static IPv" + v + " address assigned to be used as the connect IP"
    else "Connect IP " + Validate.Quote(connect) + " must be one of the instance's static IPv" + v + " addresses"
  }

  /** The first device offering a connect IP wins; a NIC whose type cannot be resolved stops the search. */
  function SelectConnect(parseIP: string -> Option<Net.IP>, version: nat, connect: string, devices: seq<Device>, expanded: Config): Result<NATTarget>
  {
    if |devices| == 0 then Err(ErrNoConnectIP(version, connect))
    else if IsNIC(devices[0]) && devices[0].nicType.Err? then Err(devices[0].nicType.msg)
    else match DeviceConnectIP(parseIP, version, connect, devices[0])
      case Some(ip) => Ok(NATTarget(ip, Get(expanded, "volatile." + devices[0].name + ".host_name")))
      case None => SelectConnect(parseIP, version, connect, devices[1..], expanded)
  }

  /** Device `i` is the one chosen: it offers `t.connectIP` and no NIC before it errs or offers one. */
  predicate ChosenAt(parseIP: string -> Option<Net.IP>, version: nat, connect: string, devices: seq<Device>, expanded: Config, i: nat, t: NATTarget)
    requires i < |devices|
  {
    && DeviceConnectIP(parseIP, version, connect, devices[i]) == Some(t.connectIP)
    && t.hostName == Get(expanded, "volatile." + devices[i].name + ".host_name")
    && forall j :: 0 <= j < i ==> DeviceConnectIP(parseIP, version, connect, devices[j]).None? && !(IsNIC(devices[j]) && devices[j].nicType.Err?)
  }

  /**
   * A selected target is the static address of the first bridged or routed
   * NIC that matches; when the connect host is not a wildcard it is that
   * host's own address.
   */
  lemma {:induction false} SelectConnectChoosesFirst(parseIP: string -> Option<Net.IP>, version: nat, connect: string, devices: seq<Device>, expanded: Config)
    requires SelectConnect(parseIP, version, connect, devices, expanded).Ok?
    ensures exists i :: 0 <= i < |devices| && ChosenAt(parseIP, version, connect, devices, expanded, i, SelectConnect(parseIP, version, connect, devices, expanded).value)
    ensures connect != WildcardText(version) ==> Some(SelectConnect(parseIP, version, connect, devices, expanded).value.connectIP) == parseIP(connect)
  {
    var t := SelectConnect(parseIP, version, connect, devices, expanded).value;
    if DeviceConnectIP(parseIP, version, connect, devices[0]).Some? {
      assert ChosenAt(parseIP, version, connect, devices, expanded, 0, t);
    } else {
      SelectConnectChoosesFirst(parseIP, version, connect, devices[1..], expanded);
      var i :| 0 <= i < |devices| - 1 && ChosenAt(parseIP, version, connect, devices[1..], expanded, i, t);
      assert ChosenAt(parseIP, version, connect, devices, expanded, i + 1, t);
    }
  }

  /** With no NIC in error and none offering an address, the error names the version and the connect host. */
  lemma {:induction false} SelectConnectNoMatch(parseIP: string -> Option<Net.IP>, version: nat, connect: string, devices: seq<Device>, expanded: Config)
    requires forall j :: 0 <= j < |devices| ==> DeviceConnectIP(parseIP, version, connect, devices[j]).None? && !(IsNIC(devices[j]) && devices[j].nicType.Err?)
    ensures SelectConnect(parseIP, version, connect, devices, expanded) == Err(ErrNoConnectIP(version, connect))
  {
    if |devices| > 0 {
      SelectConnectNoMatch(parseIP, version, connect, devices[1..], expanded);
    }
  }

  /** setupNAT's search: parse both addresses, then pick the connect IP. */
  function NATTargetFor(c: Checkers, config: Config, devices: seq<Device>, expanded: Config): Result<NATTarget>
  {
    var l := c.parseAddr(Get(config, "listen"));
    var cn := c.parseAddr(Get(config, "connect"));
    if l.Err? then Err(l.msg)
    else if cn.Err? then Err(cn.msg)
    else SelectConnect(c.parseIP, ListenIPVersion(l.value.address), cn.value.address, devices, expanded)
  }

  /** `devices` are the instance's expanded devices in map iteration order. */
  method SetupNATTarget(c: Checkers, config: Config, devices: seq<Device>, expanded: Config) returns (r: Result<NATTarget>)
    ensures r == NATTargetFor(c, config, devices, expanded)
  {
    var listen := c.parseAddr(Get(config, "listen"));
    if listen.Err? {
      return Err(listen.msg);
    }
    var connect := c.parseAddr(Get(config, "connect"));
    if connect.Err? {
      return Err(connect.msg);
    }
    var version := 4;
    if ':' in listen.value.address {
      version := 6;
    }
    var connectTo := connect.value.address;
    var i := 0;
    while i < |devices|
      invariant 0 <= i <= |devices|
      invariant SelectConnect(c.parseIP, version, connectTo, devices, expanded) == SelectConnect(c.parseIP, version, connectTo, devices[i..], expanded)
    {
      var d := devices[i];
      assert devices[i..][0] == d && devices[i..][1..] == devices[i + 1..];
      if Get(d.config, "type") == "nic" {
        if d.nicType.Err? {
          return Err(d.nicType.msg);
        }
        if d.nicType.value in ["bridged", "routed"] {
          var connectIP: Option<Net.IP> := None;
          if version == 4 && Get(d.config, "ipv4.address") != "" {
            if connectTo == Get(d.config, "ipv4.address") || connectTo == "0.0.0.0" {
              connectIP := c.parseIP(Get(d.config, "ipv4.address"));
            }
          } else if version == 6 && Get(d.config, "ipv6.address") != "" {
            if connectTo == Get(d.config, "ipv6.address") || connectTo == "::" {
              connectIP := c.parseIP(Get(d.config, "ipv6.address"));
            }
          }
          assert connectIP == DeviceConnectIP(c.parseIP, version, connectTo, d);
          if connectIP.Some? {
            return Ok(NATTarget(connectIP.value, Get(expanded, "volatile." + d.name + ".host_name")));
          }
        }
      }
      i := i + 1;
    }
    return Err(ErrNoConnectIP(version, connectTo));
  }

  // ---------------------------------------------------------------------
  // forkproxy process sides
  // ---------------------------------------------------------------------

  /** The process (pid and pidfd) each end of the proxy runs in, and the listen socket's mode. */
  datatype ProcSides = ProcSides(listenPid: string, listenPidFd: int, connectPid: string, connectPidFd: int, listenAddrMode: string)

  /**
   * Host binding listens in the daemon and connects from the instance;
   * instance binding is the mirror image. The listen socket's mode
   * defaults to "0644".
   */
  function ProcInfo(config: Config, daemonPid: string, daemonPidFd: int, containerPid: string, containerPidFd: int): (r: Result<ProcSides>)
    ensures r.Ok? <==> Get(config, "bind") == "" || Get(config, "bind") in BindValues
    ensures r.Err? ==> r.msg == ErrInvalidBind
    ensures r.Ok? && Get(config, "bind") in ["", "host"] ==>
      r.value.listenPid == daemonPid && r.value.listenPidFd == daemonPidFd &&
      r.value.connectPid == containerPid && r.value.connectPidFd == containerPidFd
    ensures r.Ok? && Get(config, "bind") in ["instance", "guest", "container"] ==>
      r.value.listenPid == containerPid && r.value.listenPidFd == containerPidFd &&
      r.value.connectPid == daemonPid && r.value.connectPidFd == daemonPidFd
    ensures r.Ok? ==> r.value.listenAddrMode == (if Get(config, "mode") == "" then "0644" else Get(config, "mode"))
  {
    var bind := Get(config, "bind");
    var mode := if Get(config, "mode") != "" then Get(config, "mode") else "0644";
    if bind == "host" || bind == "" then Ok(ProcSides(daemonPid, daemonPidFd, containerPid, containerPidFd, mode))
    else if bind in ["instance", "guest", "container"] then Ok(ProcSides(containerPid, containerPidFd, daemonPid, daemonPidFd, mode))
    else Err(ErrInvalidBind)
  }

  /** Every configuration the per-key rules accept gets its process sides. */
  lemma ValidatedBindHasSides(c: Checkers, config: Config, daemonPid: string, daemonPidFd: int, containerPid: string, containerPidFd: int)
    requires KeysVerdict(c, config, RuleKeys).Pass?
    ensures ProcInfo(config, daemonPid, daemonPidFd, containerPid, containerPidFd).Ok?
  {
    NATIsBoolean(c, config);
  }

  // ---------------------------------------------------------------------
  // forkproxy start-up status
  // ---------------------------------------------------------------------

  predicate IsStartedLine(line: string)
  {
    Strs.TrimSpace(line) == "Status: Started"
  }

  predicate IsErrorLine(line: string)
  {
    "Error:" <= Strs.TrimSpace(line)
  }

  /** The log's verdict: started, the error line reported, or neither yet. */
  function ProcStatus(lines: seq<string>): Result<bool>
  {
    if |lines| == 0 then Ok(false)
    else if IsStartedLine(lines[0]) then Ok(true)
    else if IsErrorLine(lines[0]) then Err(Strs.TrimSpace(lines[0]))
    else ProcStatus(lines[1..])
  }

  /** A line at `i` that `hit` accepts, with no line before it that `stop` accepts. */
  predicate FirstBefore(lines: seq<string>, i: int, hit: string -> bool, stop: string -> bool)
  {
    0 <= i < |lines| && hit(lines[i]) && forall j :: 0 <= j < i ==> !stop(lines[j])
  }

  /** Some line that `hit` accepts comes before every line that `stop` accepts. */
  ghost predicate Settles(lines: seq<string>, hit: string -> bool, stop: string -> bool)
  {
    exists i :: FirstBefore(lines, i, hit, stop)
  }

  /** A "Status: Started" line comes before any "Error:" line. */
  ghost predicate Started(lines: seq<string>)
  {
    Settles(lines, IsStartedLine, IsErrorLine)
  }

  /** An "Error:" line comes before any "Status: Started" line. */
  ghost predicate Failed(lines: seq<string>)
  {
    Settles(lines, IsErrorLine, IsStartedLine)
  }

  /** Past a line that neither predicate accepts, the search moves one line on. */
  lemma SkipLine(lines: seq<string>, hit: string -> bool, stop: string -> bool)
    requires |lines| > 0 && !hit(lines[0]) && !stop(lines[0])
    ensures Settles(lines, hit, stop) <==> Settles(lines[1..], hit, stop)
  {
    var tail := lines[1..];
    if Settles(lines, hit, stop) {
      var i :| FirstBefore(lines, i, hit, stop);
      assert i > 0 && tail[i - 1] == lines[i];
      forall j | 0 <= j < i - 1 ensures !stop(tail[j]) {
        assert tail[j] == lines[j + 1];
      }
      assert FirstBefore(tail, i - 1, hit, stop);
    }
    if Settles(tail, hit, stop) {
      var i :| FirstBefore(tail, i, hit, stop);
      assert lines[i + 1] == tail[i];
      forall j | 0 <= j < i + 1 ensures !stop(lines[j]) {
        if j > 0 {
          assert lines[j] == tail[j - 1];
        }
      }
      assert FirstBefore(lines, i + 1, hit, stop);
    }
  }

  /** A first line that `hit` accepts and `stop` does not settles the search for `hit` and not for `stop`. */
  lemma HitFirst(lines: seq<string>, hit: string -> bool, stop: string -> bool)
    requires |lines| > 0 && hit(lines[0]) && !stop(lines[0])
    ensures Settles(lines, hit, stop)
    ensures !Settles(lines, stop, hit)
  {
    assert FirstBefore(lines, 0, hit, stop);
    forall i | 0 < i < |lines| ensures !FirstBefore(lines, i, stop, hit) {
      assert 0 <= 0 < i && hit(lines[0]);
    }
  }

  lemma StartedIsNoError(line: string)
    requires IsStartedLine(line)
    ensures !IsErrorLine(line)
  {
    assert Strs.TrimSpace(line)[0] == 'S';
  }

  /** The reported error line, already trimmed, is itself an error line. */
  lemma ErrorLineTrimmed(line: string)
    requires IsErrorLine(line)
    ensures IsErrorLine(Strs.TrimSpace(line))
  {
    Strs.TrimSpaceIdentity(Strs.TrimSpace(line));
  }

  /**
   * The process has started when a "Status: Started" line comes before any
   * "Error:" line; it failed, with that trimmed line as the error, when an
   * "Error:" line comes first.
   */
  lemma {:induction false} ProcStatusMeaning(lines: seq<string>)
    ensures ProcStatus(lines) == Ok(true) <==> Started(lines)
    ensures ProcStatus(lines).Err? <==> Failed(lines)
    ensures ProcStatus(lines).Err? ==> IsErrorLine(ProcStatus(lines).msg)
  {
    if |lines| > 0 {
      if IsStartedLine(lines[0]) {
        StartedIsNoError(lines[0]);
        HitFirst(lines, IsStartedLine, IsErrorLine);
      } else if IsErrorLine(lines[0]) {
        HitFirst(lines, IsErrorLine, IsStartedLine);
        ErrorLineTrimmed(lines[0]);
      } else {
        ProcStatusMeaning(lines[1..]);
        SkipLine(lines, IsStartedLine, IsErrorLine);
        SkipLine(lines, IsErrorLine, IsStartedLine);
      }
    }
  }

  /** Reads the log line by line and stops at the first status line. */
  method CheckProcStarted(lines: seq<string>) returns (r: Result<bool>)
    ensures r == ProcStatus(lines)
  {
    var i := 0;
    while i < |lines|
      invariant 0 <= i <= |lines|
      invariant ProcStatus(lines) == ProcStatus(lines[i..])
    {
      assert lines[i..][0] == lines[i] && lines[i..][1..] == lines[i + 1..];
      var line := Strs.TrimSpace(lines[i]);
      if line == "Status: Started" {
        return Ok(true);
      }
      if "Error:" <= line {
        return Err(line);
      }
      i := i + 1;
    }
    return Ok(false);
  }
}
