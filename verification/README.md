# Incus decision procedures in Dafny

This project models the decision logic of Incus, the system container and
virtual machine manager. The logic comes from its daemon, its CLI and its
shared validator library. Each core source file becomes one Dafny module. The
configuration checks, parsers, name generators and tuple diffs are written as
functions over strings, maps and sequences. Where the Go code updates state or
loops, the module has a method or class proved against those functions. The
properties the code promises are proved as contracts and lemmas.

| module | file | what it models |
|---|---|---|
| `Certificate` | certificate.dfy | the certificate kinds and the mapping from their API names |
| `Validate` | validate.dfy | the validator combinators and the checks on booleans, ranges, priorities, MTUs, ports, port ranges, VLANs, DHCP route lists, CPU sets, interface, network and host names, and the VLAN range parser |
| `Bridge` | bridge.dfy | the managed bridge network: the cross-key checks of `Validate`, tunnel keys, `FillConfig` defaulting (a `ConfigMap` class updated in place), MTU choice, external interface entries, the firewall and DHCP flags, `UsesDNSMasq`, firewall forwards, external-subnet usage, and the forward listen-address and member lookup checks |
| `Proxy` | proxy.dfy | the proxy device's configuration rules, its listen-address conflict check against network forwards, the bind-side role swap, NAT connect-IP selection and the scan of the forkproxy log |
| `ACL` | acl.dfy | `incus network acl`: key=value parsing in `create`, building a rule from `key=value` arguments, `rule add` (a `NetworkACL` class updated in place) and filtered `rule remove` |
| `Cli` | cli.dfy | helpers the list and storage commands share: scanning an entry of shorthand column characters, the first part of a dotted key, and rewriting a bare filter into a name regex |
| `List` | list.dfy | `incus list`: column parsing with shorthand characters, custom columns and `--fast`, client-side filters, server-filter rewriting, the base image and type columns |
| `Storage` | storage.dfy | `incus storage`: `create` argument checks, column parsing, the state and used-by columns, server-filter rewriting and the used-by listing of `info` |
| `Backup` | backup.dfy | instance backup naming: the automatic `backupN` name, name validation on create and rename, and the requested expiry |
| `OpenFGA` | openfga.dfy | the OpenFGA authorizer: its configuration (an `FGA` class), the tuples written and deleted for each object, the request sent, the reply check, the resource sync diff and the instance access listing |
| `InstanceMove` | instance_post.dfy | instance move and rename: the quick checks on the request URL, the precondition rules, target member selection, the backup check and the reverse snapshot deletion order |
| `Wrappers`, `Strs`, `Net`, `Util` | wrappers.dfy, strs.dfy, net.dfy, util.dfy | shared support: Option, Result and pass/fail outcomes; Go's string and `strconv` behaviour (split, trim, integer parsing with widths, decimal rendering); IP addresses as naturals tagged with a family, with CIDR blocks and ranges as intervals; the configuration map and the `util` truth-word predicates |

Helpers the core calls but that are not part of this model are parameters. Examples are
`net.ParseIP` and `net.ParseCIDR`, `parseIPRanges`, `ParseIPToNet`,
`ProxyParseAddr`, `ObjectFromString`, `structHasField`, the config key
checker, the instance filter matcher and the OpenFGA client's replies. They
are function-valued parameters (the `Net.Parsers` record and others), so every
property holds whatever those helpers answer. A Go map that the code ranges
over becomes a sequence, and its order is a parameter.

Where the documentation and the code differ, the model follows the code:

- The OVN range check in `Validate` takes the DHCP subnet from the network's
  stored configuration, not from the one being validated, so
  `Bridge.OVNRangesVerdict` takes both maps.
- `ForwardCreate` treats any failed lookup as "no existing forward". That
  covers both zero matches and more than one match on the member. Only exactly
  one match gives "already exists".
- `IsValidCPUSet` accepts a reversed range such as `3-1`, which adds no CPU.
- `IsNetworkPortRange` does not bound its numbers by 65535; see Findings.

## Model

| member | source | states |
|---|---|---|
| Certificate.FromAPIType | internal/server/certificate/type.go:22-33 | succeeds exactly for "client", "server" and "metrics", and then gives the kind whose API name is the input; any other name gives -1 and "Invalid certificate type" |
| Certificate.FromAPITypeRoundTrip | internal/server/certificate/type.go:13-29 | each of the three stored kinds converts back from its API name without error |
| Certificate.FromAPITypeInjective | internal/server/certificate/type.go:13-33 | two different accepted names never give the same kind, and no accepted name gives the -1 of the error case |
| Cli.FirstUnknownRune | cmd/incus/list.go:565-570 | the first position from `i` whose letter is not a known shorthand; none exactly when every letter from `i` on is known |
| Cli.ShorthandRunes | cmd/incus/list.go:565-577 | an entry is accepted exactly when all its letters are known shorthands, and then gives them in order; otherwise the error names the first unknown letter and the entry |
| Cli.ScanShorthands | cmd/incus/list.go:565-577 | the letter-by-letter loop returns what `ShorthandRunes` specifies, stopping at the first unknown letter |
| Cli.NameFilter | cmd/incus/list.go:960-966 | the rewritten filter starts with `name=(`; its two alternatives are stated by `Cli.NameFilterAlternatives` |
| Cli.NameFilterAlternatives | cmd/incus/list.go:960-966 | a bare word k splits at its first '=' into the field `name` and the regex `(^k$\|^k.*)`, or `(k\|^k.*)` when k already holds '^' or '$': the exact name or any name starting with k |
| Cli.KeyHead | cmd/incus/list.go:968-971 | the field asked about holds no '.'; it is the whole key when the key has none, and otherwise it followed by '.' starts the key, so it is the part before the first '.' |
| List.EffectiveFlag | cmd/incus/list.go:518-537 | `--all-projects` turns the default into the project default; `--fast` is accepted exactly with one of the two defaults, which it replaces by the fast columns (with the project column for all projects), and otherwise fails with "Can't specify --fast with --columns" |
| List.ShorthandEntry | cmd/incus/list.go:555-577 | without clustering an entry holding 'L' that is not a default is refused; an accepted entry gives one shorthand column per letter, in order, after dropping 'L' when not clustered, all of them known |
| List.ShorthandEntryOk | cmd/incus/list.go:555-577 | an entry whose letters are all known (after the 'L' rule) is accepted |
| List.RemoveLFromDefaults | cmd/incus/list.go:157-158 | the two defaults lose exactly their final 'L' when it is dropped |
| List.DefaultsWithoutClustering | cmd/incus/list.go:557-563 | the two defaults are accepted on a server that is not clustered, without their location column |
| List.MaxWidth | cmd/incus/list.go:607-624 | no third field means -1; a third field must be a 64-bit integer of at least -1, 0 asks for the header's length and any other value is the width |
| List.CustomEntry | cmd/incus/list.go:579-624 | more than three fields gives the too-many-fields error; an entry is accepted exactly when it has at most three fields, a config column's key is one the instance accepts, the name is empty only when a width follows, and a given width is an integer of at least -1; an accepted column keeps the type and key, takes the key as its name when none is given, and has width -1 without a width field, the name's byte length for width 0 and the given number otherwise |
| List.EntryColumns | cmd/incus/list.go:549-552 | an empty entry is refused with the "Empty column entry" error naming the whole flag |
| List.EntriesColumnsOk | cmd/incus/list.go:546-553 | in an accepted flag no entry is empty and every entry parses on its own |
| List.EntriesColumnsInOrder | cmd/incus/list.go:546-668 | the columns of an accepted flag are the columns of its entries in flag order |
| List.FastEntryNeedsNothing | cmd/incus/list.go:494-517 | an entry of known letters none of which needs state or snapshots gives columns that need neither |
| List.FastLettersKnown | cmd/incus/list.go:531-535 | the fast column sets are single entries of known letters with no location column and none needing state or snapshots |
| List.FastEntriesParse | cmd/incus/list.go:546-575 | such an entry as the whole flag parses to its columns with "needs data" false |
| List.SingleShorthandEntry | cmd/incus/list.go:546-577 | a flag of one shorthand entry has exactly that entry's columns |
| List.EntriesParseNoData | cmd/incus/list.go:571-575 | when no column needs data, the parse reports that none is needed |
| List.EntriesColumnsSingle | cmd/incus/list.go:546-553 | a one-entry list parses as its entry |
| List.FastColumnsParse | cmd/incus/list.go:527-577 | `--fast` with a default flag always parses, and its columns never need the instance state or snapshots |
| List.ParseColumns | cmd/incus/list.go:493-671 | the whole column parse returns the columns and "needs data" flag of `ColumnsOf`: effective flag, split at commas, entries parsed in turn |
| List.ParseEntries | cmd/incus/list.go:546-671 | parses the entries and reports whether any column needs state or snapshot data |
| List.CollectColumns | cmd/incus/list.go:548-668 | the loop over the entries returns the columns of all entries in order or the first entry's error |
| List.NextEntryColumns | cmd/incus/list.go:548-668 | one step extends the columns of the earlier entries; an error here is the error of the whole flag |
| List.AnyNeedsData | cmd/incus/list.go:571-575 | true exactly when some column needs the instance state or its snapshots |
| List.EntryColumnsStep | cmd/incus/list.go:549-668 | one entry's columns: the empty-entry error, a custom column when it holds '.', shorthand letters otherwise |
| List.EntriesColumnsNext | cmd/incus/list.go:548-668 | the parse of one more entry is the earlier columns followed by that entry's, or that entry's error |
| List.EntriesErrPrefix | cmd/incus/list.go:548-553 | the first entry in error decides the error of the whole flag |
| List.Truncate | cmd/incus/list.go:634-637 | a positive width bounds the byte length, the value is a prefix of the original, -1, 0 or a value that fits leave it unchanged, and the cut is as long as it can be: the next character would not fit |
| List.TruncateAscii | cmd/incus/list.go:634-637 | on ASCII text the cut keeps exactly the first `maxWidth` characters, as Go's `v[:maxWidth]` does |
| List.ConfigColumnData | cmd/incus/list.go:626-640 | the shown value is a prefix of the instance's own value, or of the expanded value when the instance does not set the key; it is the whole value when it fits, and a positive width bounds its byte length |
| List.DeviceColumnData | cmd/incus/list.go:642-662 | a device key without a '.' shows nothing, and a positive width bounds the byte length of what is shown |
| List.DeviceColumnOf | cmd/incus/list.go:645-659 | the column `<device>.<key>` shows a prefix of the device's own value for the key, else of the expanded device's, the whole value when it fits, and nothing when neither device has it |
| List.BaseImage | cmd/incus/list.go:673-684 | nothing without `volatile.base_image`; otherwise a prefix of the fingerprint, at most 12 characters unless long, all of it when long |
| List.TypeColumnData | cmd/incus/list.go:807-823 | the text is the upper-cased type ("CONTAINER" when empty), followed by " (APP)" when `volatile.container.oci` is true and by " (EPHEMERAL)" for an ephemeral instance, the application mark first |
| List.ShorthandFilter | cmd/incus/list.go:187-207 | a key other than ipv4/ipv6 (in any case) never matches; a single value matches by address; a comma list matches when any of its values does |
| List.EvaluateShorthandFilter | cmd/incus/list.go:187-207 | the loop over every comma-separated value returns what `ShorthandFilter` specifies |
| List.ShouldShow | cmd/incus/list.go:163-185 | an instance is shown exactly when every filter, split at its first '=', holds |
| List.RewriteFilter | cmd/incus/list.go:956-980 | the rewrite of one filter, with the two overwriting assignments of the source, gives `ServerFilter` |
| List.PrepareInstanceServerFilters | cmd/incus/list.go:953-986 | every filter is rewritten for the server, one for one and in order |
| List.PairFilterKeepsValue | cmd/incus/list.go:967-977 | a `key=value` filter whose key is not `state` keeps its value and ends with the filter as given; its key is kept when its head is an instance field and is prefixed with `expanded_config.` otherwise |
| List.StateFilterAsksStatus | cmd/incus/list.go:975-977 | `state=v` becomes a `status` filter with the same value |
| List.BareFilterIsNameFilter | cmd/incus/list.go:960-966 | a bare word becomes the name filter with the exact-name and name-prefix alternatives |
| Validate.FirstFailure | shared/validate/validate.go:28-39 | passes exactly when every validator passes the value |
| Validate.SomePasses | shared/validate/validate.go:42-53 | true exactly when some validator passes the value |
| Validate.AndPassIff | shared/validate/validate.go:28-39 | `And` passes exactly when every validator passes |
| Validate.AndFirstError | shared/validate/validate.go:28-39 | when `And` fails it returns the error of the first failing validator |
| Validate.OrPassIff | shared/validate/validate.go:42-53 | `Or` passes exactly when at least one validator passes |
| Validate.OptionalEmpty | shared/validate/validate.go:61-65 | `Optional` accepts "" whatever its validators say |
| Validate.OptionalNonEmpty | shared/validate/validate.go:61-69 | on any other value `Optional` behaves exactly like `And` |
| Validate.InRange | shared/validate/validate.go:122-135 | an accepted value is a 64-bit decimal integer lying between the bounds |
| Validate.IsInRangeAccepts | shared/validate/validate.go:122-135 | a 64-bit integer written in decimal is accepted exactly when it lies between the bounds |
| Validate.IsInRangeRejectsNonIntegers | shared/validate/validate.go:124-127 | anything that is not a 64-bit decimal integer is refused with the "Invalid value for an integer" error |
| Validate.IsPriority | shared/validate/validate.go:138-149 | a priority is accepted exactly when it is an integer from 0 to 10 |
| Validate.IsBool | shared/validate/validate.go:152-158 | accepted exactly when the value, lower-cased, is one of the boolean words |
| Validate.IsOneOfVerdict | shared/validate/validate.go:161-169 | accepted exactly when the value is one of the list; otherwise the error is `Invalid value "x" (not one of [a b])`, the list printed as Go prints a slice |
| Validate.IsNotEmpty | shared/validate/validate.go:193-199 | accepted exactly when the value is not empty |
| Validate.FirstContained | shared/validate/validate.go:556-564 | none exactly when the value holds none of the characters; otherwise one of them that it holds |
| Validate.IsURLSegmentSafe | shared/validate/validate.go:556-564 | accepted exactly when the value holds none of '/', '?', '&' and '+' |
| Validate.IsInterfaceName | shared/validate/validate.go:222-239 | accepted exactly when the name is 2 to 15 bytes of letters, digits, '-', '_' and '.' |
| Validate.IsNetworkName | shared/validate/validate.go:242-258 | accepted exactly when the name is 2 to 15 bytes of interface characters, URL-safe and without ':'; the verdict, message included, is always the interface-name one, since no interface character is URL-unsafe or ':' |
| Validate.IsHostname | shared/validate/validate.go:732-763 | an accepted name is 1 to 63 characters of letters, digits and '-' not starting or ending with '-', and if all digits it is at least 2^64; any such name with a letter is accepted |
| Validate.IsHostnameAcceptsHugeNumber | shared/validate/validate.go:748-751 | every all-digit name from 2^64 up to 2^66 is accepted, although it is a number |
| Validate.IsHostnamePassWhen | shared/validate/validate.go:732-763 | a name of the right length, edges and characters that does not read as a 64-bit number is accepted |
| Validate.IsHostnameStrict | shared/validate/validate.go:748-751 | corrected form: accepted exactly when `IsHostname` accepts and the name is not all digits, whatever its size |
| Validate.IsNetworkVLAN | shared/validate/validate.go:461-472 | accepted exactly when the value is an integer from 0 to 4094 |
| Validate.IsNetworkMTU | shared/validate/validate.go:477-488 | accepted exactly when the value is a decimal number from 1280 to 16384 |
| Validate.IsNetworkMTUAccepts | shared/validate/validate.go:477-488 | the number n written out is accepted exactly when 1280 <= n <= 16384 |
| Validate.IsNetworkPort | shared/validate/validate.go:491-502 | accepted exactly when the value is a decimal number up to 65535 |
| Validate.IsNetworkPortRange | shared/validate/validate.go:505-529 | in an accepted range every part is a 32-bit unsigned number, and with a '-' the start is below the end |
| Validate.IsNetworkPortRangeSingle | shared/validate/validate.go:505-529 | any single 32-bit number is accepted |
| Validate.PortRangeOfParts | shared/validate/validate.go:519-526 | two 32-bit numbers around one '-' are accepted exactly when the first is smaller |
| Validate.IsNetworkPortRangePair | shared/validate/validate.go:505-529 | "a-b" is accepted exactly when a < b, so "a-a" is refused |
| Validate.IsNetworkPortRangeAcceptsLargePort | shared/validate/validate.go:511-514 | a number from 65536 up to 2^32 is accepted as a port range while the single-port check refuses it |
| Validate.IsNetworkPortRangeBounded | shared/validate/validate.go:505-529 | corrected form: whatever it accepts the original accepts too, and every part is a valid port |
| Validate.BoundedPortRangeOfParts | shared/validate/validate.go:505-529 | with the bound, two numbers around one '-' are accepted exactly when a < b <= 65535 |
| Validate.IsNetworkPortRangeBoundedPair | shared/validate/validate.go:505-529 | with the bound, "a-b" is accepted exactly when a < b <= 65535 |
| Validate.ListOfFrom | shared/validate/validate.go:177-190 | passes exactly when every item from position `i` on, trimmed, passes the validator |
| Validate.IsListOf | shared/validate/validate.go:177-190 | the loop over the comma-separated items passes exactly when every trimmed item passes, and otherwise reports the first failing item |
| Validate.RouteListFromPass | shared/validate/validate.go:532-553 | the route check from position `i` passes exactly when every later item passes its network or gateway check and the count is even |
| Validate.IsDHCPRouteList | shared/validate/validate.go:532-553 | the loop returns the first failing item's error, then the missing-gateway error for an odd count |
| Validate.DHCPRouteListPassIff | shared/validate/validate.go:532-553 | a route list passes exactly when it has an even number of items, every even item an IPv4 network and every odd item an IPv4 address |
| Validate.ParseNetworkVLANRange | shared/validate/validate.go:694-729 | an accepted range starts at an ID of at least 0, holds at least one ID and ends at or below 4094 |
| Validate.VLANIDRender | shared/validate/validate.go:695-702 | an ID up to 4094 written out reads back as itself |
| Validate.ParseNetworkVLANRangeSingle | shared/validate/validate.go:694-712 | "n" gives (n, 1) for n up to 4094 and an error above |
| Validate.VLANRangeOfParts | shared/validate/validate.go:705-728 | two valid IDs around one '-' give the range from the first to the second, or an error when it would be empty |
| Validate.ParseNetworkVLANRangePair | shared/validate/validate.go:694-729 | "a-b" gives (a, b - a + 1) when a <= b and an error when a > b |
| Validate.Separators | shared/validate/validate.go:834 | a run of digits has no separators |
| Validate.CPURange | shared/validate/validate.go:871-873 | the range names each CPU from low to high once and no other |
| Validate.ChunksCPUsPrefixFails | shared/validate/validate.go:853-883 | once a chunk fails to parse the whole value fails |
| Validate.ChunksCPUsFails | shared/validate/validate.go:853-883 | a single chunk that does not parse spoils the value |
| Validate.AddRange | shared/validate/validate.go:871-873 | corrected form: the loop counts each CPU from low to high once more and ends, counting in unbounded integers (see Findings) |
| Validate.CounterStaysInt64 | shared/validate/validate.go:871 | the int64 loop counter, incremented with wrap-around any number of times, stays an int64 |
| Validate.CPURangeLoopNeverEnds | shared/validate/validate.go:832-873 | "a-9223372036854775807,c" passes the syntax check, is not a single number, and reaches the range loop with high the largest int64, where the counter never exceeds high however many rounds run |
| Validate.CountChunk | shared/validate/validate.go:854-882 | a chunk is counted exactly when it parses, adding its CPUs to the counts |
| Validate.IsValidCPUSet | shared/validate/validate.go:832-893 | with the corrected range loop, the syntax check, the single-value rule and the counting loops give `CPUSetVerdict` |
| Validate.CountCPUs | shared/validate/validate.go:850-883 | the counts are those of every chunk together, or the value fails when a chunk does not parse |
| Validate.ChunksCPUsStep | shared/validate/validate.go:853-883 | one more chunk adds its CPUs to the counts |
| Validate.DuplicatesAgree | shared/validate/validate.go:885-890 | the count map has a CPU counted twice exactly when the multiset of mentions does |
| Validate.DecimalSyntax | shared/validate/validate.go:833-837 | a run of digits is in the CPU set syntax |
| Validate.CPUSetSingle | shared/validate/validate.go:839-847 | a single number is a valid CPU set exactly when it is at least 1; "0" is refused |
| Validate.ChunksPair | shared/validate/validate.go:850-883 | two chunks count the CPUs of both |
| Validate.SeparatorsConcat | shared/validate/validate.go:834 | the separators of two strings run together are those of each, in order |
| Validate.RangeListChars | shared/validate/validate.go:834 | "a-b,c" holds only digits and separators, never two separators in a row |
| Validate.RangeListSeparators | shared/validate/validate.go:834 | the separators of "a-b,c" are '-' then ',' |
| Validate.RangeListNotInt | shared/validate/validate.go:840 | "a-b,c" is not a single number |
| Validate.ChunkRangeOf | shared/validate/validate.go:854-873 | a chunk "x-y" names the CPUs x to y |
| Validate.RangeListSplit | shared/validate/validate.go:851 | "a-b,c" splits into "a-b" and "c" |
| Validate.RangeListChunks | shared/validate/validate.go:850-883 | "a-b,c" counts the CPUs a to b and then c once more |
| Validate.VerdictOfList | shared/validate/validate.go:832-893 | a well-formed list that is not one number is refused exactly when some CPU is named twice |
| Validate.CPUSetRangeAndSingle | shared/validate/validate.go:832-893 | "a-b,c" is refused for naming a CPU twice exactly when c lies in a..b, as in "1-3,3", and is valid otherwise |
| Validate.RangeListSyntax | shared/validate/validate.go:833-837 | "a-b,c" is in the CPU set syntax |
| Validate.RangeAndSingleRepeats | shared/validate/validate.go:885-890 | the CPUs a to b plus c name some CPU twice exactly when c lies in the range |
| Bridge.TunnelKeySplit | internal/server/network/driver_bridge.go:586-592 | a key of the form `tunnel.<name>.<field>` splits on "." into "tunnel" followed by the split of the rest, so the tunnel name is the second field |
| Bridge.GetTunnels | internal/server/network/driver_bridge.go:2198-2213 | the tunnel list holds no duplicates, holds exactly the names of the `tunnel.*` keys present, and is empty iff no tunnel key is set |
| Bridge.TunnelProtocolValues | internal/server/network/driver_bridge.go:600-606 | a `tunnel.NAME.protocol` value is accepted iff it is empty, "gre" or "vxlan" |
| Bridge.TunnelRules | internal/server/network/driver_bridge.go:586-678 | validation of the tunnel keys succeeds iff no tunnel key has a malformed shape, an over-long interface name or an unknown field; a failure carries the error of one tunnel key of the configuration; on success the rule map covers exactly the known tunnel fields, each with its rule |
| Bridge.TunnelInterfaceNameFits | internal/server/network/driver_bridge.go:596-598 | once a tunnel key passes the length check, the interface name `<network>-<tunnel>` fits the 15-byte kernel limit |
| Bridge.CheckClusterWideMACSafe | internal/server/network/driver_bridge.go:77-97 | a fixed MAC is safe iff the bridge is not an address-less bridge with external interfaces, has no tunnels and has no plain host IPv6 subnet; every failure is one of the three named errors |
| Bridge.MTUCheck | internal/server/network/driver_bridge.go:742-761 | `bridge.mtu` passes iff it is unset, or it parses as a 64-bit integer that is at least 1280 when IPv6 is set and at least 68 when IPv4 is set |
| Bridge.BridgeMTU | internal/server/network/driver_bridge.go:989-1001 | a set `bridge.mtu` yields exactly its 32-bit unsigned value (or the parse error); an unset one yields 1400 with tunnels and the default 1500 otherwise |
| Bridge.ValidatedMTUAccepted | internal/server/network/driver_bridge.go:742-761 | a `bridge.mtu` the key validator accepts passes the address-family floors and gives a setup MTU between 1280 and 16384 |
| Bridge.ValidMTUParses | internal/server/network/driver_bridge.go:745-750 | a validated MTU parses as a signed 64-bit integer of at least 1280 |
| Bridge.ValidMTUParsesUnsigned | internal/server/network/driver_bridge.go:993-997 | a validated MTU parses as an unsigned 32-bit integer in [1280, 16384] |
| Bridge.DHCPSubnet | internal/server/network/driver_bridge.go:2302-2330 | the DHCP subnet exists iff DHCP is on for the family and its address parses as a CIDR, and it is then that CIDR's network |
| Bridge.UsesDNSMasq | internal/server/network/driver_bridge.go:3418-3440 | dnsmasq is never used without an address; with one it is used iff DNS mode is not "none", IPv6 is set, or IPv4 DHCP is on |
| Bridge.ParseExternalInterface | internal/server/network/driver_bridge.go:1166-1184 | the VLAN is 0 or within 1..4094; a VLAN of 0 keeps the whole trimmed entry as the name with no parent; otherwise the entry had three "/" parts and name, parent and VLAN come from them |
| Bridge.ParseExternalInterfaceRoundTrip | internal/server/network/driver_bridge.go:1166-1184 | parsing `name/parent/vlan` built from a valid VLAN gives back the trimmed name, the trimmed parent and the VLAN |
| Bridge.ExternalNames | internal/server/network/driver_bridge.go:3449-3455 | no external interface names when the key is empty; otherwise one name per comma-separated entry |
| Bridge.NamesOf | internal/server/network/driver_bridge.go:3451-3454 | each entry maps, position for position, to the part of its trimmed text before the first "/" |
| Bridge.ShouldDeleteChild | internal/server/network/driver_bridge.go:3457-3472 | a link is deleted only when the bridge is its master and its kind is vxlan, gretap or dummy, and never when it is one of the external interfaces |
| Bridge.DefaultAddress | internal/server/network/driver_bridge.go:102-115 | only the address key changes, and only from unset to "auto" when the family is enabled |
| Bridge.DefaultNAT | internal/server/network/driver_bridge.go:106-119 | only the NAT key changes, and only from unset to "true" when the address is "auto" |
| Bridge.ReplaceAuto | internal/server/network/driver_bridge.go:131-161 | fails iff the address is "auto" and no subnet could be generated; otherwise only an "auto" address is replaced by the generated subnet |
| Bridge.FillResolvesAuto | internal/server/network/driver_bridge.go:100-161 | after a successful fill with generated subnets, no address is "auto" and IPv6 is set whenever it is enabled |
| Bridge.FillKeepsOtherKeys | internal/server/network/driver_bridge.go:100-161 | the fill keeps every other key and every explicit address and NAT value the user set |
| Bridge.DefaultsOnlyFillUnset | internal/server/network/driver_bridge.go:100-128 | the defaults change a key only if it was unset and is one of the four address or NAT keys |
| Bridge.PopulateOnlyReplacesAuto | internal/server/network/driver_bridge.go:131-161 | the auto replacement changes only address keys that were "auto" |
| Bridge.FillIdempotent | internal/server/network/driver_bridge.go:100-161 | filling an already filled configuration changes nothing and succeeds whatever subnets it is offered |
| Bridge.ConfigMap.constructor | internal/server/network/driver_bridge.go:100 | the configuration object holds the given keys |
| Bridge.ConfigMap.PopulateAutoConfig | internal/server/network/driver_bridge.go:131-161 | the configuration and outcome after the in-place update are those of the auto-replacement specification |
| Bridge.ConfigMap.ApplyDefaults | internal/server/network/driver_bridge.go:102-119 | the configuration after the in-place update is the defaults applied to the old one |
| Bridge.ConfigMap.SetDefaultAddress | internal/server/network/driver_bridge.go:102-104 | the in-place update matches the address default specification |
| Bridge.ConfigMap.SetDefaultNAT | internal/server/network/driver_bridge.go:106-108 | the in-place update matches the NAT default specification |
| Bridge.ConfigMap.FillConfig | internal/server/network/driver_bridge.go:100-128 | the configuration and outcome after FillConfig are those of the fill specification |
| Bridge.FirstOverlap | internal/server/network/driver_bridge.go:794-800 | no overlap is reported iff no OVN range overlaps a DHCP range; a reported range is an OVN range that overlaps one |
| Bridge.FindOverlap | internal/server/network/driver_bridge.go:794-800 | the loop finds the first OVN range that overlaps a DHCP range |
| Bridge.CheckOVNRanges | internal/server/network/driver_bridge.go:772-837 | the OVN range check for one family gives the verdict of its specification |
| Bridge.OVNRangesDisjoint | internal/server/network/driver_bridge.go:772-837 | once the OVN range check passes, no address lies both in an OVN range and in a DHCP range of the same family |
| Bridge.CompositeChecks | internal/server/network/driver_bridge.go:742-837 | the cross-key checks pass iff the MTU passes, a set hwaddr is cluster-safe, and both OVN range checks pass |
| Bridge.ForwardConvertToFirewallForwards | internal/server/network/driver_bridge.go:2333-2355 | one firewall forward per port map plus one for a default target, which comes first; every forward listens on the listen address and copies its port map |
| Bridge.RouteUsages | internal/server/network/driver_bridge.go:2427-2440 | at most one usage per route; each is a network usage owned by this network whose subnet is a route that parses |
| Bridge.AddressUsage | internal/server/network/driver_bridge.go:2388-2403 | the address is an external subnet iff NAT is false or unset and the address parses, and the usage then records that subnet as a network usage |
| Bridge.SNATUsage | internal/server/network/driver_bridge.go:2405-2425 | a SNAT usage exists iff the NAT address is set, and records it as a /32 or /128 host subnet |
| Bridge.FamilyUsages | internal/server/network/driver_bridge.go:2387-2441 | a family fails iff its NAT address does not parse; otherwise it yields the address usage then the SNAT usage |
| Bridge.FamilyUsagesOwner | internal/server/network/driver_bridge.go:2397-2424 | each usage of a family belongs to that network and project |
| Bridge.NetworkUsages | internal/server/network/driver_bridge.go:2386-2442 | a network fails iff one of its NAT addresses does not parse |
| Bridge.AllUsagesStep | internal/server/network/driver_bridge.go:2385-2443 | collecting one more network appends its usages, or stops at its error |
| Bridge.AllUsagesErrPrefix | internal/server/network/driver_bridge.go:2415-2417 | the first error returned ends the collection: later networks do not change it |
| Bridge.AllUsagesOwners | internal/server/network/driver_bridge.go:2383-2446 | every collected usage belongs to one of the listed networks and its project |
| Bridge.AllUsagesErrStep | internal/server/network/driver_bridge.go:2385-2443 | the collection fails iff it failed before the last network or the last network is bad |
| Bridge.SomeNetworkBadStep | internal/server/network/driver_bridge.go:2385-2443 | some network is bad iff one before the last is, or the last is |
| Bridge.AllUsagesErrIff | internal/server/network/driver_bridge.go:2383-2446 | collecting the external subnets fails iff some network has a NAT address that does not parse |
| Bridge.CollectRoutes | internal/server/network/driver_bridge.go:2427-2440 | the route loop yields the route usages of the specification |
| Bridge.CollectFamily | internal/server/network/driver_bridge.go:2387-2441 | the per-family body yields the family usages of the specification |
| Bridge.CollectNetwork | internal/server/network/driver_bridge.go:2386-2442 | the per-network body yields the network usages of the specification |
| Bridge.BridgeNetworkExternalSubnets | internal/server/network/driver_bridge.go:2383-2446 | the whole loop yields the collection of the specification |
| Bridge.CheckListenOverlap | internal/server/network/driver_bridge.go:2709-2724 | the listen address passes iff no usage outside this network's own subnet and SNAT conflicts with it; the error names only the listen address |
| Bridge.ListenClearMeansDisjoint | internal/server/network/driver_bridge.go:2709-2724 | passing the overlap check means the listen subnet shares no address with any usage other than this network's own subnet and SNAT |
| Bridge.MemberRecords | internal/server/network/driver_bridge.go:2665-2671 | the kept records are exactly those with no member or on the local member |
| Bridge.FilterMemberRecords | internal/server/network/driver_bridge.go:2665-2671 | the filtering loop keeps the records of the specification |
| Bridge.LookupForward | internal/server/network/driver_bridge.go:2665-2686 | not found iff no record is on this member, a conflict iff more than one is, and otherwise the unique record on this member |
| Bridge.ForwardCreateCheck | internal/server/network/driver_bridge.go:2654-2724 | an existing forward fails creation with "already exists"; creation passes iff none is found, the listen address parses and it overlaps no foreign usage |
| Bridge.FlagDefaults | internal/server/network/driver_bridge.go:2270-2299 | a family's firewall is off without an address or when switched off, and on by default once the address is set; DHCP is on by default and off when switched off |
| Proxy.ValidateBind | internal/server/device/proxy.go:75-83 | the bind side is accepted exactly when it is "host", "instance", "guest" or "container", and otherwise refused with the binding-side error |
| Proxy.KeysVerdict | internal/server/device/proxy.go:85-178 | the per-key rules pass exactly when every key's rule accepts its value (unset keys read as "") |
| Proxy.NATIsBoolean | internal/server/device/proxy.go:109-127 | once the key rules pass, "nat" is a boolean word, so it is true exactly when it is not false or unset, and "bind" is unset or one of the four sides |
| Proxy.LocalAddresses | internal/server/device/proxy.go:298-308 | an address is gathered exactly when some forward on this cluster member listens on it |
| Proxy.AllLocalAddresses | internal/server/device/proxy.go:284-324 | the addresses gathered over every network are exactly the listen addresses of forwards on this member (corrected form) |
| Proxy.LastNetworkLocalAddresses | internal/server/device/proxy.go:298-308 | as written, the map that is checked holds only the last network's local forwards |
| Proxy.FirstConflict | internal/server/device/proxy.go:312-320 | none exactly when no gathered address parses to the listen IP; otherwise a gathered address equal to it |
| Proxy.ConflictVerdict | internal/server/device/proxy.go:312-323 | passes exactly when there is no conflicting address, and otherwise names the first one in the "conflicts with existing network forward" error |
| Proxy.ConflictVerdictPassIff | internal/server/device/proxy.go:274-323 | the corrected check passes exactly when no forward on this member, in any network, listens on the proxy's listen IP |
| Proxy.ValidateListenAddressConflicts | internal/server/device/proxy.go:274-323 | gathering the local forwards of every network and comparing them returns the corrected verdict |
| Proxy.GatherLocalAddresses | internal/server/device/proxy.go:286-310 | the loop over the networks gathers every network's local forward addresses |
| Proxy.NetworkLocalAddresses | internal/server/device/proxy.go:299-308 | the loop over one network's forwards keeps the ones on this member, in order |
| Proxy.CheckConflicts | internal/server/device/proxy.go:312-323 | the comparison loop fails at the first equal address, as `ConflictVerdict` states |
| Proxy.ConflictsAsWrittenMissEarlierNetworks | internal/server/device/proxy.go:286-323 | for a forward on 10.0.0.1 on the first of two networks, the check as written passes while the corrected check reports the conflict |
| Proxy.NATVerdict | internal/server/device/proxy.go:213-258 | NAT mode passes exactly when the project has no networks feature, the proxy is host-bound, both ends are the same non-unix protocol, the listen IP is no wildcard and both IPs have one version |
| Proxy.ValidateConfig | internal/server/device/proxy.go:65-261 | a passing configuration meets every rule: key rules, NAT on VMs, both addresses parse, no forward conflict (by the corrected check over every network, see Findings), port counts, PROXY header, unix ownership and the NAT rules; and a configuration meeting them all passes |
| Proxy.VMProxyIsNAT | internal/server/device/proxy.go:180-258 | an accepted proxy on a VM is in NAT mode, host-bound, sends no PROXY header and joins addresses of one IP version |
| Proxy.ListenIPVersion | internal/server/device/proxy.go:503-506 | the listen version is 6 exactly when the address holds a ':', and 4 otherwise |
| Proxy.DeviceConnectIP | internal/server/device/proxy.go:513-537 | a device offers a connect IP only when it is a bridged or routed NIC with a static address of the version, the IP is that address, and the connect host is that address or the wildcard |
| Proxy.SelectConnectChoosesFirst | internal/server/device/proxy.go:511-544 | a chosen connect IP comes from the first device offering one, and a connect host that is not the wildcard is the chosen IP |
| Proxy.SelectConnectNoMatch | internal/server/device/proxy.go:546-552 | with no device offering an address and no NIC type in error, the error names the version and the connect host |
| Proxy.SetupNATTarget | internal/server/device/proxy.go:492-555 | the device loop returns the target `NATTargetFor` specifies: both addresses parsed, then the first device's connect IP and its host interface name |
| Proxy.ProcInfo | internal/server/device/proxy.go:634-656 | host binding (or none) listens in the daemon and connects from the instance, instance binding the reverse, any other side is an error, and the mode defaults to "0644" |
| Proxy.ValidatedBindHasSides | internal/server/device/proxy.go:75-83 | every bind side the rules accept gets its process sides |
| Proxy.SkipLine | internal/server/device/proxy.go:443-452 | a line that is neither status line moves the search on |
| Proxy.HitFirst | internal/server/device/proxy.go:443-452 | the first status line decides the outcome |
| Proxy.StartedIsNoError | internal/server/device/proxy.go:445-451 | "Status: Started" is not an error line |
| Proxy.ErrorLineTrimmed | internal/server/device/proxy.go:443-451 | a line is checked after trimming, and the trimmed error line is still an error line |
| Proxy.ProcStatusMeaning | internal/server/device/proxy.go:433-461 | started exactly when a "Status: Started" line comes before any "Error:" line, an error exactly when an "Error:" line comes first, and the error is that line |
| Proxy.CheckProcStarted | internal/server/device/proxy.go:433-461 | reading the log line by line returns `ProcStatus` |
| ACL.Field | cmd/incus/network_acl.go:940-967 | a rule has a field exactly for each JSON tag of its string fields |
| ACL.SetField | cmd/incus/network_acl.go:984-990 | setting a tagged field gives it the value and leaves every other field as it was |
| ACL.RuleByFields | cmd/incus/network_acl.go:940-967 | two rules whose tagged fields agree are the same rule |
| ACL.KeyValuesOkIff | cmd/incus/network_acl.go:470-477 | the key=value arguments are accepted exactly when every one holds an "=" |
| ACL.KeyValuesSetsKeys | cmd/incus/network_acl.go:470-477 | once accepted, the key before each argument's first "=" is in the configuration |
| ACL.KeyValuesFirstBad | cmd/incus/network_acl.go:470-474 | a refusal names the first argument without an "=" in "Bad key/value pair" |
| ACL.KeyValuesSingle | cmd/incus/network_acl.go:470-477 | a single `key=value` sets that key to that value, the value keeping any further "=" |
| ACL.KeyValuesErrPrefix | cmd/incus/network_acl.go:470-474 | the loop stops at the first bad argument: the later arguments do not change the error |
| ACL.CreateConfig | cmd/incus/network_acl.go:466-477 | the loop over the arguments after the ACL name returns the configuration `KeyValues` specifies, or its error |
| ACL.FirstUnknown | cmd/incus/network_acl.go:1119-1127 | none exactly when every key names a rule field; otherwise a key of the list that names none |
| ACL.RuleOf | cmd/incus/network_acl.go:970-993 | every field of the built rule holds its configured value, "" when unset |
| ACL.RuleFromConfig | cmd/incus/network_acl.go:970-993 | building succeeds exactly when every configured key names a rule field; otherwise the error names such a key as "Unknown key" |
| ACL.ParseConfigToRule | cmd/incus/network_acl.go:970-993 | setting the fields one key at a time returns what `RuleFromConfig` specifies |
| ACL.SetFieldsMeaning | cmd/incus/network_acl.go:978-990 | after the fields of some keys are set in turn, each of them holds its configured value and every other field is "" |
| ACL.AllFieldsSet | cmd/incus/network_acl.go:978-993 | once every configured key is set, the rule is the one whose fields are the configured values |
| ACL.NewRule | cmd/incus/network_acl.go:1026-1042 | the added rule exists exactly when the keys build a rule; it never has an empty state, it takes the description flag when set, and it is the normalised rule with "enabled" when no state was given |
| ACL.IsFilterMatch | cmd/incus/network_acl.go:1129-1147 | comparing the filtered fields one at a time returns true exactly when every filtered field equals the filter's value |
| ACL.MismatchAt | cmd/incus/network_acl.go:1134-1143 | one filtered field that differs rules the match out |
| ACL.MatchesInOrder | cmd/incus/network_acl.go:1134-1146 | every filtered field agreeing makes a match |
| ACL.Kept | cmd/incus/network_acl.go:1151-1165 | the kept rules are no more than the rules |
| ACL.KeptAppend | cmd/incus/network_acl.go:1155-1165 | keeping and counting matches work list by list, so the kept rules keep their order |
| ACL.KeptMeaning | cmd/incus/network_acl.go:1151-1165 | the kept rules are exactly the unmatched ones, kept plus matched is all the rules, and with no match nothing is removed |
| ACL.KeptMembers | cmd/incus/network_acl.go:1155-1165 | a rule is kept exactly when it is one of the rules and the filter does not match it |
| ACL.KeptCount | cmd/incus/network_acl.go:1155-1165 | every rule is either kept or counted as a match |
| ACL.EmptyFilterMatchesAll | cmd/incus/network_acl.go:1129-1172 | an empty filter matches every rule: no rules is "No matching rule(s) found", several without force is "Multiple rules match", and otherwise all rules go |
| ACL.SecondMatch | cmd/incus/network_acl.go:1156-1159 | a second match anywhere refuses an unforced removal with "Multiple rules match" |
| ACL.RemoveFromRules | cmd/incus/network_acl.go:1151-1172 | the single walk returns `RemoveVerdict`: no match is an error, a second match without force is an error, otherwise the unmatched rules in order |
| ACL.UnknownFilterKey | cmd/incus/network_acl.go:1119-1127 | checking the filter keys in turn reports the first one that names no rule field |
| ACL.NetworkACL.AddRule | cmd/incus/network_acl.go:1026-1053 | the new rule is appended to the list the direction names and the other list is unchanged; a bad key or a direction other than ingress or egress changes nothing |
| ACL.NetworkACL.RemoveRules | cmd/incus/network_acl.go:1118-1195 | an unknown filter key is reported first; on success the named list becomes its unmatched rules and the other list is unchanged; any failure changes nothing |
| Storage.Create | cmd/incus/storage.go:133-190 | building the create request for a pool gives the request of its specification: the name, the driver, the description flag when set, and the stdin config updated by the key=value arguments |
| Storage.PoolConfigErrPrefix | cmd/incus/storage.go:183-187 | the first malformed argument ends the parsing: the arguments after it do not change the error |
| Storage.CreateOkIff | cmd/incus/storage.go:143-190 | creation is accepted iff the driver argument holds no "=" and every further argument holds one |
| Storage.PoolConfigOkIff | cmd/incus/storage.go:183-190 | the config arguments parse iff every one of them contains "=" |
| Storage.PoolConfigFirstBad | cmd/incus/storage.go:184-186 | a parse failure names the first argument without "=" |
| Storage.PoolConfigLastWins | cmd/incus/storage.go:183-190 | for a key given more than once the last value wins, and it is split at the first "=" |
| Storage.PoolConfigKeepsBase | cmd/incus/storage.go:171-190 | a stdin config key that no argument sets keeps its value |
| Storage.ParseColumns | cmd/incus/storage.go:733-763 | the column loop yields the column list of its specification |
| Storage.EntriesColumnsErrPrefix | cmd/incus/storage.go:747-760 | the first bad column entry ends the parsing: later entries do not change the error |
| Storage.EntriesMeaning | cmd/incus/storage.go:743-763 | a list of entries parses iff no entry is empty and every character is a known shorthand, and the columns are then those characters in order |
| Storage.KnownAppend | cmd/incus/storage.go:734-741 | a string of shorthand characters is known iff both of its parts are |
| Storage.LookupAppend | cmd/incus/storage.go:752-759 | the columns of a concatenation are the columns of its parts, in order |
| Storage.ColumnsMeaning | cmd/incus/storage.go:733-763 | the flag parses iff no comma-separated entry is empty and every non-comma character is a known shorthand; the columns are then those characters in order, so commas between shorthand characters are optional |
| Storage.DefaultColumnsList | cmd/incus/storage.go:731-741 | the default "nDdus" gives name, driver, description, used-by and state |
| Storage.ColumnData | cmd/incus/storage.go:765-787 | the source column shows the "source" config key, the used-by column is the decimal count of users, and the state column is the status in upper case |
| Storage.PrepareServerFilters | cmd/incus/storage.go:1105-1134 | one server filter per client filter, each rewritten by the filter rule |
| Storage.PairFilterKeepsValue | cmd/incus/storage.go:1119-1128 | a key=value filter keeps its value; its key is kept when the part before the first "." is a pool field and is prefixed with "config." otherwise |
| Storage.SuffixCases | cmd/incus/storage.go:614-637 | the used-by suffix is empty without project and location, and otherwise lists the project, then the location, each quoted, in parentheses |
| Storage.SuffixBoth | cmd/incus/storage.go:626-637 | with both a project and a location, the suffix is " (project P, location L)" |
| Storage.ListingStep | cmd/incus/storage.go:628-634 | the attribute list is comma-space separated |
| Storage.EntryText | cmd/incus/storage.go:610-637 | the used-by entry is the entity name followed by its suffix |
| Storage.BuildUsedBy | cmd/incus/storage.go:579-640 | the used-by loop builds the grouping of its specification |
| Storage.UsedByGroups | cmd/incus/storage.go:579-640 | an entity type appears in the used-by map iff some listed URL has that type, and its list is the entries of that type in URL order |
| Storage.ClassifyOfFields | cmd/incus/storage.go:586-608 | a URL whose next-to-last segment is "snapshots" is skipped; two segments give type and name; under a storage pool the third and fourth segments give them; for volumes the fifth segment is the name |
| Storage.ClassifyOneSegment | cmd/incus/storage.go:589-592 | a single-segment path is "unrecognized" with the whole path as its name |
| Storage.ClassifyEntity | cmd/incus/storage.go:592-595 | "/1.0/T/N" gives type T and name N |
| Storage.ClassifySnapshot | cmd/incus/storage.go:596-598 | a snapshot URL is left out of the used-by list |
| Storage.ClassifyPoolEntity | cmd/incus/storage.go:600-603 | "/1.0/storage-pools/P/K/N" gives type K and name N |
| Storage.ClassifyVolume | cmd/incus/storage.go:604-606 | "/1.0/storage-pools/P/volumes/T/N" gives type "volumes" and name N |
| Backup.FullNameSplits | cmd/incusd/instance_backup.go:309 | a full backup name splits at its first "/" into the instance and the backup's own name |
| Backup.SkipSpace | cmd/incusd/instance_backup.go:291 | the number scanner skips leading white space: what remains is no longer and does not start with a space |
| Backup.LeadingDigits | cmd/incusd/instance_backup.go:291 | the scanned digits are a digit-only prefix of the text and are followed by no further digit |
| Backup.ScanIntInInt | cmd/incusd/instance_backup.go:290-291 | a number scanned into a Go int lies within the 64-bit range |
| Backup.NumbersInInt | cmd/incusd/instance_backup.go:283-294 | every number read from the backup names lies within the 64-bit range |
| Backup.LeadingDigitsOf | cmd/incusd/instance_backup.go:291 | the digits read from digits followed by a non-digit are exactly those digits |
| Backup.ScanRendered | cmd/incusd/instance_backup.go:291-301 | scanning a rendered default number back, whatever non-digit text follows it, yields that number |
| Backup.ScanUnsigned | cmd/incusd/instance_backup.go:291 | on text starting with a digit, the scanner reads the 64-bit value of its leading digits |
| Backup.Numbers | cmd/incusd/instance_backup.go:283-294 | one scanned number (or none) per backup name, in order |
| Backup.NextBackupName | cmd/incusd/instance_backup.go:279-301 | the numbering loop names a new backup "backup" followed by one more than the largest number read, counted without wrap-around |
| Backup.NextIndexAbove | cmd/incusd/instance_backup.go:283-299 | the next index is above every number read |
| Backup.NextIndexLeast | cmd/incusd/instance_backup.go:296-298 | the next index is 0 or one more than a number read, so it is the least index above them all |
| Backup.AsWrittenAgrees | cmd/incusd/instance_backup.go:296-298 | while no backup carries the largest int, the 64-bit loop computes the same index as unbounded arithmetic |
| Backup.AsWrittenWraps | cmd/incusd/instance_backup.go:296-298 | once the last number read is the largest int, the 64-bit loop wraps to the smallest int where the unbounded index is one above it |
| Backup.AsWrittenAtMost | cmd/incusd/instance_backup.go:283-299 | the 64-bit loop never yields more than the largest int |
| Backup.NextIndexAtMost | cmd/incusd/instance_backup.go:283-299 | the unbounded index never exceeds the largest int plus one |
| Backup.WrapsAfterLargestName | cmd/incusd/instance_backup.go:296-301 | after a backup numbered with the largest int, the default name is "backup-9223372036854775808" |
| Backup.NumberOfDefault | cmd/incusd/instance_backup.go:279-309 | the full name made from a default "backupN" reads back as N |
| Backup.DefaultNameAfterBase | cmd/incusd/instance_backup.go:279-309 | the full name of "backupX" is the base followed by X |
| Backup.NumberAfterBase | cmd/incusd/instance_backup.go:285-291 | the number read from the base followed by a rendered number is that number |
| Backup.NextNameFresh | cmd/incusd/instance_backup.go:279-309 | with the numbering in unbounded integers, the default name is not among the existing backups |
| Backup.RequestedExpiry | cmd/incusd/instance_backup.go:253-257 | no expiry iff "expires_at" is missing, not a string, or empty; otherwise the requested time string |
| Backup.CreateNameMeaning | cmd/incusd/instance_backup.go:220-309 | creation is refused exactly for a snapshot instance or a requested name with a "/"; a default name is new while its number is an int |
| Backup.DefaultNameNoSlash | cmd/incusd/instance_backup.go:301-307 | a default name never contains "/", so it always passes the slash check |
| Backup.NumberNameNoSlash | cmd/incusd/instance_backup.go:301 | "backup" followed by any rendered int contains no "/" |
| Backup.LargestNotRead | cmd/incusd/instance_backup.go:296-298 | while the next number is an int, no backup carries the largest int, so the wrap never happens |
| Backup.AsWrittenNameAgrees | cmd/incusd/instance_backup.go:279-301 | while the next number is an int, the server's wrapping loop and the unbounded count give the same default name |
| Backup.RenameKeepsInstance | cmd/incusd/instance_backup.go:484-520 | an accepted rename keeps the instance: old and new full names split into the instance and the old and new backup names, and the new name has no "/" |
| OpenFGA.CheckKey | internal/server/auth/driver_openfga.go:45-73 | a configuration key passes iff it holds a string; a missing key gives its "Missing" error and a non-string one the "Expected a string" error naming the key and the value's type |
| OpenFGA.ConfiguredPassIff | internal/server/auth/driver_openfga.go:40-76 | configuration succeeds iff a configuration is given and the API token, API URL and store ID all hold strings |
| OpenFGA.ConfiguredReportsFirst | internal/server/auth/driver_openfga.go:40-76 | a failure reports the first missing key in the order token, URL, store ID |
| OpenFGA.FGA.constructor | internal/server/auth/driver_openfga.go:27-32 | a new authorizer has empty connection settings and is offline |
| OpenFGA.FGA.Configure | internal/server/auth/driver_openfga.go:40-76 | the outcome is that of the configuration check; each setting is assigned exactly when its key and every earlier key were read, and on success the three settings are the given strings; the online flag is unchanged |
| OpenFGA.Parent | internal/server/auth/driver_openfga.go:361-936 | each object is attached by one tuple: a project-scoped object to its project with the project relation, every other object to the server with the server relation |
| OpenFGA.WithName | internal/server/auth/driver_openfga.go:583-601 | renaming an object keeps its kind and its project and changes only its name |
| OpenFGA.RenameKeepsParent | internal/server/auth/driver_openfga.go:583-601 | a rename writes the new object's tuple and deletes the old one's, under the same parent and relation |
| OpenFGA.DeleteUndoesAdd | internal/server/auth/driver_openfga.go:557-580 | adding an object's tuple and then deleting the object leaves the store as it was |
| OpenFGA.ProjectDeleteUndoesAdd | internal/server/auth/driver_openfga.go:361-396 | deleting a project removes exactly the two tuples adding it wrote (the project and its default profile), restoring the store |
| OpenFGA.RenameMovesTuple | internal/server/auth/driver_openfga.go:583-601 | applying a rename replaces the old object's tuple by the new one's and changes nothing else in the store |
| OpenFGA.Body | internal/server/auth/driver_openfga.go:966-978 | the request body sends each list as given, and a nil list as an empty one |
| OpenFGA.DispatchSendsUpdate | internal/server/auth/driver_openfga.go:938-951 | a request is sent iff the authorizer is online and there is at least one write or deletion, and it carries exactly those tuples |
| OpenFGA.SingleChangesSend | internal/server/auth/driver_openfga.go:557-580 | online, adding or deleting an object sends its single tuple as a write or a deletion; offline nothing is sent |
| OpenFGA.FirstFailure | internal/server/auth/driver_openfga.go:985-995 | no failure is reported iff every tuple reply succeeded; otherwise the first failed reply is reported |
| OpenFGA.CheckReply | internal/server/auth/driver_openfga.go:980-997 | the reply check succeeds iff the request succeeded and every write and every deletion reply carries no error |
| OpenFGA.FirstFailureAt | internal/server/auth/driver_openfga.go:985-995 | the reported reply is the first that failed |
| OpenFGA.TupleForIsParent | internal/server/auth/driver_openfga.go:1040-1071 | the tuple the sync writes or deletes for an object under its relation is the object's parent tuple |
| OpenFGA.DiffObjects | internal/server/auth/driver_openfga.go:1039-1076 | diffing appends the missing writes and stale deletions of the specification to the accumulated lists, or returns the first parse error |
| OpenFGA.AppendMissing | internal/server/auth/driver_openfga.go:1042-1054 | the first loop appends a write for each local object the store does not list |
| OpenFGA.AppendStale | internal/server/auth/driver_openfga.go:1056-1073 | the second loop fails with the first parse error, or appends a deletion for each listed object that is not local |
| OpenFGA.ParseAllStops | internal/server/auth/driver_openfga.go:1056-1060 | the first string that does not parse ends the loop |
| OpenFGA.MissingMeaning | internal/server/auth/driver_openfga.go:1042-1054 | the writes are exactly the tuples of local objects whose names the store does not list |
| OpenFGA.StaleMeaning | internal/server/auth/driver_openfga.go:1062-1072 | the deletions are exactly the tuples of listed objects that are not local |
| OpenFGA.ParseAllMeaning | internal/server/auth/driver_openfga.go:1056-1060 | parsing succeeds iff every listed string parses; it then yields one object per string, each the parse of the string at its position |
| OpenFGA.NilIfEmpty | internal/server/auth/driver_openfga.go:1033-1034 | an empty list becomes nil, which the body sends as the same empty list |
| OpenFGA.Then | internal/server/auth/driver_openfga.go:1089-1175 | a failed step stops the sync with its error; otherwise its writes and deletions are appended to the accumulated ones |
| OpenFGA.GatherProjectLevel | internal/server/auth/driver_openfga.go:1143-1158 | the project-level objects listed in the store are gathered project by project; the first project that does not parse, or whose listing fails, ends the gathering with its error |
| OpenFGA.RemoteStops | internal/server/auth/driver_openfga.go:1143-1158 | once a project fails, the gathering over any longer list fails with the same error |
| OpenFGA.RemoteProjectLevelMeaning | internal/server/auth/driver_openfga.go:1143-1158 | the gathering succeeds exactly when every project parses and its listing succeeds |
| OpenFGA.SyncResources | internal/server/auth/driver_openfga.go:1032-1179 | the sync yields the update of its specification: the writes and deletions of the five diffs, in order, or the first error, a failed listing included |
| OpenFGA.MissingNone | internal/server/auth/driver_openfga.go:1042-1054 | when the store lists every local object, nothing is written |
| OpenFGA.StaleNone | internal/server/auth/driver_openfga.go:1056-1073 | when every listed string parses to a local object, nothing is deleted |
| OpenFGA.DiffInStep | internal/server/auth/driver_openfga.go:1039-1076 | when the store and the local objects agree, a diff neither writes nor deletes |
| OpenFGA.SyncInStepSendsNothing | internal/server/auth/driver_openfga.go:1032-1179 | when the store agrees with every kind of local resource, the sync plans nothing and no request is sent |
| OpenFGA.ListingFailureEndsSync | internal/server/auth/driver_openfga.go:1017-1024 | a failed certificate listing is the sync's error, and a sync that succeeds had every listing succeed |
| OpenFGA.GetInstanceAccess | internal/server/auth/driver_openfga.go:1182-1235 | the access listing loop yields the access map of its specification |
| OpenFGA.AccessStops | internal/server/auth/driver_openfga.go:1197-1208 | the first relation whose listing fails ends the listing with its error |
| OpenFGA.MergeMeaning | internal/server/auth/driver_openfga.go:1211-1221 | merging adds each non-empty user not yet present with the relation, and keeps users already present |
| OpenFGA.FirstListing | internal/server/auth/driver_openfga.go:1187-1222 | finds the first relation in the order admin, operator, user, viewer whose listing names the user |
| OpenFGA.AccessPrecedence | internal/server/auth/driver_openfga.go:1187-1222 | a user has access iff its identifier is non-empty and some relation lists it, and its role is the first such relation |
| OpenFGA.InstanceAccessPrecedence | internal/server/auth/driver_openfga.go:1182-1235 | each user's role is the strongest of admin, operator, user, viewer that lists it |
| OpenFGA.AccessFails | internal/server/auth/driver_openfga.go:1188-1209 | the listing fails iff some relation's listing fails other than with "relation not found" |
| InstanceMove.ClearSameName | cmd/incusd/instance_post.go:162-165 | the requested name is cleared exactly when it equals the current name; the rest of the request is unchanged |
| InstanceMove.QuickChecks | cmd/incusd/instance_post.go:91-126 | the URL passes exactly when it names no snapshot, a target comes with a cluster, and without a target the source member is online; the errors are "Invalid instance name", "Target only allowed when clustered" and the offline one, in that order |
| InstanceMove.MoveDecision | cmd/incusd/instance_post.go:193-269 | a non-migration is a rename to the requested name; a snapshot is never migrated; an accepted migration is a move of a non-snapshot; a stopped instance moves exactly when it is no snapshot and an offline source changes nothing but the member |
| InstanceMove.RequestRunningIff | cmd/incusd/instance_post.go:91-269 | for a running instance that changes pool, project or member, the whole request is accepted exactly when the quick checks pass, the move is live, keeps project and name (a name equal to the current one counts as kept), a pool change is for a clustered VM with a target, and an offline source changes no pool |
| InstanceMove.OfflineSourceOnlyRelocates | cmd/incusd/instance_post.go:123-269 | a request accepted while the source member is offline names a target in a cluster, and a migration then changes nothing but the member |
| InstanceMove.MoveKeepsRequest | cmd/incusd/instance_post.go:223-269 | an accepted migration goes ahead with the request as given for a running instance, and with the live flag cleared for a stopped one |
| InstanceMove.StoppedMovesNotLive | cmd/incusd/instance_post.go:261-264 | a stopped instance is never migrated live |
| InstanceMove.RunningMoveIff | cmd/incusd/instance_post.go:229-269 | a running instance that changes pool, project or member may move iff the move is live, keeps project and name, a pool change is for a VM in a cluster with a target member, and a pool change does not come from an offline source |
| InstanceMove.RunningMoveErrors | cmd/incusd/instance_post.go:229-260 | for a running instance the first failing rule decides the error: stateless, then container pool change, then project change, then name change |
| InstanceMove.PickFallback | cmd/incusd/instance_post.go:429-445 | the fallback loop yields the member of its specification |
| InstanceMove.ElsewhereMeaning | cmd/incusd/instance_post.go:434-438 | the filtered candidates are exactly those not on the instance's current member |
| InstanceMove.ElsewhereFirst | cmd/incusd/instance_post.go:434-444 | the first filtered candidate is the first candidate not on the current member |
| InstanceMove.ElsewhereNone | cmd/incusd/instance_post.go:434-442 | when every candidate is the current member, none is left |
| InstanceMove.FallbackMeaning | cmd/incusd/instance_post.go:429-445 | the fallback fails iff every candidate is the current member; otherwise it is the first candidate that is not |
| InstanceMove.Placement | cmd/incusd/instance_post.go:300-449 | a chosen member is never offline |
| InstanceMove.FallbackLeavesLocation | cmd/incusd/instance_post.go:429-445 | a member picked by the fallback is never the instance's current member |
| InstanceMove.TargetMember | cmd/incusd/instance_post.go:276-450 | a clustered move with a target or a project change that succeeds has a member; without one no member is looked up |
| InstanceMove.TargetHasMember | cmd/incusd/instance_post.go:279-450 | with a target in a cluster, an accepted placement always has a member, so the later checks can read its name |
| InstanceMove.TargetChecksIff | cmd/incusd/instance_post.go:459-480 | the checks pass iff a named target differs from the current member and, when the member changes, the backups can be listed and there are none |
| InstanceMove.DeleteSnapshots | cmd/incusd/instance_post.go:1013-1022 | snapshots are deleted newest first; success means all were deleted; a failure stops at the snapshot that failed and names it |
| InstanceMove.DeletionOrder | cmd/incusd/instance_post.go:1014-1016 | a later snapshot is deleted before an earlier one |

## Left out

- I/O and the system: netlink, sysctl, OVS, dnsmasq, AppArmor, the firewall backend, database transactions, HTTP requests and replies, terminals, YAML and the editor commands (`edit`, `show`, `get`, `set`, `unset`), and the `checkArgs` argument-count checks. These are external effects. Their results appear only as inputs: records, node IDs, listed objects and replies.
- Helpers defined outside the core files are parameters with no specification of their own. These are the `net` parsers, `parseIPRanges`, `IPRangesOverlap`, `SubnetContains`, `ParseIPToNet`, `ProxyParseAddr`, `ObjectFromString`, `structHasField`, the config key checker and the instance filter matcher. Addresses are naturals tagged with a family, and subnets and ranges are intervals.
- The `util` truth words (`IsTrue`, `IsFalse`, `IsTrueOrEmpty`, `IsFalseOrEmpty`, `IsNoneOrEmpty`) and `SplitNTrimSpace` are defined in `shared/util`, which is not part of this model. They are written from their documented behaviour: true/1/yes/on and false/0/no/off, ignoring case.
- `%q` quoting: a quoted string is the text between double quotes, with no escaping of quotes or control characters. Error texts are compared as strings built that way.
- `url.Parse` and the query string of used-by URLs are inputs: each URL arrives already split into path, project and target, or fails to parse.
- Randomness and clocks: the random subnets of `populateAutoConfig` are inputs that either succeed or fail. The expiry date is the requested string, and the zero time stands for "no expiry".
- `IsSnapshot` and `SnapshotDelimiter` come from the instance package: an instance name with a "/" is a snapshot.
- Unmodelled validators: `IsWWN`, `IsSize`, `IsDeviceID`, `IsNetworkMAC`, the `IsNetworkRange*` family, `IsUUID`, `IsPCIAddress`, `IsCompressionAlgorithm`, `IsCron`, `IsListenAddress`, `IsAbsFilePath`, `IsDeviceName`, `IsRequestURL`, `IsCloudInitUserData`, `IsYAML`, `IsMinimumDuration` and `IsUint32Range`. They rely on regex engines, external parsers or the file system, or they are not used by the modelled checks. `IsNetworkV4`, `IsNetworkV6` and the address checks are modelled only through the parser parameters.
- Bridge `Validate`: the per-key rules table, the DNS zone and ACL existence lookups, and the BGP rules are database or BGP lookups. The model covers the cross-key checks: tunnel keys, MTU, cluster-wide MAC and OVN ranges.
- Bridge `forwardValidate` and the firewall programming after the forward checks are left out; the model stops at the overlap and lookup checks.
- Bridge.TunnelRules: Go ranges over the configuration map, so when several tunnel keys are bad the source may report any of them. The contract says only that the error is that of some bad tunnel key.
- Proxy.KeysVerdict: the per-key rules are checked in a fixed key order. Go ranges over the configuration map, so when several keys fail the source may report another failing key.
- Proxy: the device start-up plumbing, the forkproxy process, `checkProcStarted`'s file opening and scanner errors, and the per-device NIC lookup are left out. The log is a sequence of lines, and the NICs are a sequence of records.
- List: the column data functions other than type and base image, the worker goroutines, the float memory percentage and the date columns, and `SortColumnsNaturally` are left out. They involve concurrency, floating point or the instance state API.
- Storage.ColumnData: the name, driver and description columns are plain field reads and are not stated.
- OpenFGA: the object string format (`objects.go`) and the relation strings are defined outside the core, so objects and relations are datatypes. Also left out are the `onlineMu` locking and the background goroutines, `GetProjectAccess` and the other checker functions, and the error type assertions in `GetInstanceAccess`, which are reduced to three reply kinds. The access entries are a map, not the unordered `api.Access` list.
- InstanceMove: the placement scriptlet, `ValidName` and the database conflict checks, request forwarding, the `CheckTarget` project rules and the rest of `migrateInstance` beyond the snapshot deletion order. Their outcomes are inputs.
- InstanceMove.Placement: the contract states only that the chosen member is online. Which member is chosen is stated by InstanceMove.FallbackMeaning and InstanceMove.FallbackLeavesLocation for the fallback; the member kept or named by `CheckTarget` is an input.
- List.Truncate: when the byte cut falls inside a multi-byte character, Go keeps the first bytes of that character, which a Dafny string cannot hold; the model stops before that character. On ASCII text the two agree (`List.TruncateAscii`).
- Strs.ToLower and Strs.ToUpper map only the ASCII letters, while Go's `strings.ToLower` and `strings.ToUpper` map every Unicode cased letter ("é" to "É"). This affects `List.TypeColumnData`, the truth words and the filters on non-ASCII text. `Strs.TrimSpace` follows Go's Unicode white space.
- Validate.AddRange and Validate.IsValidCPUSet: the range loop counts in unbounded integers, so it ends where Go's int64 loop never does for a range ending at the largest int64 (see Findings).
- OpenFGA.GatherProjectLevel: the per-type `ListObjects` calls that `projectObjects` makes for one project are folded into one listing parameter per project, which either lists the project's objects or fails with the first error.
- Certificate: the `api.CertificateType*` name constants live in `shared/api` and are written out as the strings "client", "server" and "metrics".

## Findings

| source | as written | input that shows it | evidently intended | confidence | as-written member | corrected member |
|---|---|---|---|---|---|---|
| shared/validate/validate.go:505-529 | `IsNetworkPortRange` parses each part as a 32-bit unsigned number and never checks it against 65535 | "70000" is accepted as a port range, while `IsNetworkPort` refuses it | every part of a port range is a valid port (at most 65535) | high (not executed) | Validate.IsNetworkPortRangeAcceptsLargePort | Validate.IsNetworkPortRangeBounded |
| shared/validate/validate.go:748-751 | `IsHostname` refuses an all-digit name only when it parses as a 64-bit unsigned number | "18446744073709551616" (2^64) is accepted as a host name | no all-digit name is a host name | medium (not executed) | Validate.IsHostnameAcceptsHugeNumber | Validate.IsHostnameStrict |
| internal/server/device/proxy.go:286-323 | the map of local forward addresses is re-created for every network in the loop, so the conflict check sees only the last network's forwards | a forward on 10.0.0.1 in network br0 followed by network br1 with none: a proxy listening on 10.0.0.1 passes | the listen address is checked against the forwards of every network on the uplink | high (not executed) | Proxy.ConflictsAsWrittenMissEarlierNetworks | Proxy.ValidateListenAddressConflicts |
| cmd/incusd/instance_backup.go:296-298 | `max = num + 1` in a Go `int` wraps around at the largest int | an existing backup `<instance>/backup9223372036854775807`: the next default name is `backup-9223372036854775808` | the next default name is one more than the largest number and is not already taken | medium (not executed) | Backup.WrapsAfterLargestName | Backup.NextNameFresh |
| shared/validate/validate.go:871-873 | `for i := low; i <= high; i++` counts in a Go `int`, which wraps at the largest int64, so the counter never exceeds `high` when `high` is 9223372036854775807 | "0-9223372036854775807,1" passes the syntax check and reaches the loop, which never ends | the loop ends after high - low + 1 rounds, or such a range is refused | high (not executed) | Validate.CPURangeLoopNeverEnds | Validate.AddRange |
