# Feilian Lite: a verified model

This project models the parts of Feilian Lite whose correctness no finite set of examples settles, and
proves what they promise.

| file | what it models |
|---|---|
| `Bits.dfy`, `Bytes.dfy`, `Counting.dfy`, `Sequences.dfy`, `Wrappers.dfy` | machine words bit by bit, big-endian bytes, distinct numbers below a bound, concatenation, option and result types |
| `Cidr.dfy`, `CidrAlgebra.dfy`, `Minimality.dfy` | CIDR parsing, intersection and subtraction (`src/utils.rs`), their meaning as sets of addresses, and the shortness of the result |
| `RouteFilters.dfy`, `RoutePipeline.dfy` | allowlist and denylist (`src/utils.rs`), and the way from the server's routes to the tunnel's allowed IPs (`src/client.rs`) |
| `TunnelText.dfy`, `TunnelRoutes.dfy`, `TunnelReadBack.dfy` | the configuration text the tunnel is handed: its lines, the addresses they give, and every key read back (`src/wg.rs`) |
| `TunnelPreparation.dfy` | from the server's answer to a tunnel configuration, or to a wasted grant (`src/client.rs`) |
| `Probes.dfy` | choosing and listing VPN nodes while their probes finish in any order (`src/client.rs`) |
| `Totp.dfy` | one-time passwords and the clock offset (`src/totp.rs`, `src/client.rs`) |
| `Template.dfy` | text templates (`src/template.rs`) |
| `WindowsQuoting.dfy` | Windows argument quoting (`apps/desktop/src-tauri/src/launcher.rs`) against the command-line rules of the Microsoft C runtime |
| `HelperIpc.dfy`, `Fingerprint.dfy`, `FingerprintReading.dfy` | the helper's messages, the tunnel fingerprint, and a decoder for what it hashes (`crates/feilian-ipc/src/lib.rs`, `apps/helper/src/lib.rs`) |
| `Supervisor.dfy`, `SupervisorRequests.dfy`, `LibwgBackend.dfy` | the tunnel supervisor over any backend, what each request does in it, and the supervisor over libwg (`apps/helper/src/lib.rs`, `apps/helper/src/libwg_backend.rs`) |
| `CutRequests.dfy` | the supervisor when the helper drops requests after ten seconds (`apps/helper/src/unix.rs`, `apps/helper/src/windows.rs`) |
| `SecretMigration.dfy`, `DiskOutcomes.dfy`, `KeyPairs.dfy` | the desktop controller's disk: secrets moving to the credential store, new profiles, what every cut of these leaves, and the key pair a session gets (`apps/desktop/src-tauri/src/controller.rs`, `src/config.rs`) |
| `ConnectionLedger.dfy`, `ControllerEvents.dfy` | the desktop controller's server connections, taken and given back; what each of its events does, and how long a record lasts (`apps/desktop/src-tauri/src/controller.rs`) |

## How things are represented

- An address is a family and a number below 2^32 or 2^128. A route is the text the program keeps: `Cidr` for text of
  the form `ip/number`, with a spelling to tell apart texts that read the same, `Bare` for an address without a slash,
  and `Opaque` for everything else. Only `Cidr` with a legal prefix parses; other routes hold no address for the filters.
  For addresses, containing a colon is the same as being IPv6. Address text itself is not parsed or printed here.
- The tunnel is handed text of `key=value` lines. A `Cidr` is written as it is, a `Bare` address with a prefix behind it,
  `Opaque` text as it is or with a prefix, whatever line breaks it holds. `read` is the tunnel's reading of the value
  behind a key, an arbitrary function; `Names` says that some line gives a use (allowed IP or system route) an address.
  Whether the tunnel takes a configuration with lines it cannot read, and where it stops reading, is not modelled:
  the sources of its parser are not part of this model. A text of the form `ip/number` is a line of that route.
- The list of system routes is the list of allowed IPs, or empty when `auto_setup_routes` is off.
- `In` says that an address belongs to a route: it agrees with the route on the first `prefix` bits. `Mask`, `And`,
  `Or` and `ShiftLeft` are the program's word operations; lemmas connect them to `In`.
- Where the program changes something step by step, there is a method or a class that does the same, with a contract
  that equates its result or its new state with a function of the inputs or of the old state. What the program promises
  is then proved about that function.
- What comes from outside is a parameter: the order in which probes finish and how each ends, the hash and the HMAC, the
  clocks, the backend's four operations, the replies of the foreign library, and the faults of the disk and of the
  credential store. Every lemma holds for all of them.
- `order` is the order in which probes finish. Each probe finishes once, so it lists every index once.
- Text inside the helper's messages is its UTF-8 bytes, and `usize` has eight bytes. Elsewhere text is a sequence of
  characters; the template's byte offsets are character offsets here, which is the same thing at the braces.
- Events of the desktop controller are the sections that run under its `auth` lock. `stop` and `cleanup` call the helper
  before they take the lock, and `auth_configure` writes the profile before it does, so each of them is two events or
  more, and anything may happen in between.
- Clocks are in nanoseconds. `now` is the client's clock when it reads a `Date` header, `date` the header, and `truth` the
  server's clock at that moment, so `truth - date` is the part of a second the header drops plus the network delay.

## Where a promise and the code differ

- `subtract_cidr_from_cidr` is documented to return a minimal set when the outer block strictly contains the inner one.
  It does, and in the other cases too, except that text which does not parse is kept although it covers nothing
  (`SubtractIsMinimal` is an equivalence).
- The peer's address is cut out of the routes so that the tunnel does not carry its own packets. That works for every
  entry that parses. Text that does not parse passes the denylist and the cut, and is still written into the
  configuration: the peer's address is given to the tunnel if and only if there is no allowlist and such an entry of the
  server's list reaches it, or another field of the configuration does (`PeerIsRoutedIff`, for every reading of the
  tunnel). An entry can reach it as a bare address, which as an IPv6 allowed IP is even widened to the `/32` around it
  (`BarePeerIsRouted`, `BareNeighbourIsWidened`); as text with a line break, whose second line has a key of its own
  (`BrokenEntryIsRouted`, with `10.0.0.0/8`, a line break and `allowed_ip=203.0.113.7/32` as `BrokenEntryExample`); and
  as other text that the tunnel reads and the program does not. When no text of the server holds a line break and the
  tunnel reads no address where the program cannot, bare addresses are all there is (`PeerIsRoutedByBares`).
- Server connections are conserved over every interleaving if and only if no reconfiguration took effect while a
  connection was on record and no connect failed after the server had granted its connection
  (`ConservedIffNothingLost`, with losing runs in `ReconfiguringLosesAConnection` and
  `FailedPreparationLosesAConnection`). `auth_reset` refuses in the first situation; `auth_configure` does not look. In
  the second, `connect` reports `tunnel_prepare_failed` and does not give the connection back; it happens exactly when
  the answer is lost, the private key is missing, the mask is not a number, or full mode has no route of a usable family
  (`StrandsIff`, `FailsAfterGrantIff`).
- A session is meant to have a private key and the public key that belongs to it. `auth_configure` writes the profile with
  the new public key before it stores the new private key. When it is cut in between, the next load pairs the new public
  key with the old private key and reports success (`RefusedKeyMismatches`); `MatchesAfterCut` says for every cut and
  all later loads when the pair matches.
- `docs/helper-protocol.md` says that starting the same tunnel twice is idempotent. That holds exactly while the helper
  reports `Running` (`RepeatedStartIsIdempotent`, `StartAcceptedIffSameTunnel`); with a record left by a failed stop or
  cleanup the same specification is refused (`SameTunnelIsRefusedAfterAFailedStop` is such a run). With libwg as the
  backend that state cannot occur (`RunIsCoupled`).
- A start never follows a start without a stop or a cleanup in between, unless the helper's ten-second limit cut the
  first one: then the supervisor forgets it, a second start reaches the backend, and a stop reports success without
  calling it (`CutRunIsSound`, `CutStartIsForgotten`, `CutStartRunsTwice`). The calls of the libwg backend never yield
  (`src/wg.rs:143-190` has no point to wait at), so with libwg a request is over before the limit can drop it, and
  `RunIsCoupled` and `DropLeavesNothing` are not affected.
- The clock offset is taken from a header in whole seconds, cut to whole slots, kept in 32 bits, and taken as zero when it
  does not fit. The client stays within one time step of the server if and only if what this leaves of the distance of
  the clocks is at most one slot (`DriftBound`, for every header; `InStepIffFresh` in terms of the header's age). A header
  that is ahead of the client's clock can fail this without any network delay (`HeaderCanCostASlot`).

## Model

| member | source | states |
|---|---|---|
| Cidr.Canonicalize | src/utils.rs:202-215 | masking keeps the family and the first `prefix` bits and clears every other bit |
| Cidr.MaskValue | src/utils.rs:202-208 | the mask is 2^width - 2^(width - prefix), also for the prefixes 0 and `width` |
| Cidr.ContainsIsSamePrefix | src/utils.rs:217-229 | equality under the mask holds iff both addresses are of one family and agree on the first `prefix` bits |
| Cidr.BlockIsInterval | src/utils.rs:178-186 | a canonical block is the interval of 2^(width - prefix) addresses starting at its base |
| Cidr.ParseMeaning | src/utils.rs:178-186 | parsing succeeds on everything that holds an address, and the canonical form holds the same addresses |
| Cidr.Laminar | src/utils.rs:217-229 | of two blocks with a common address, the one with the longer prefix lies inside the other |
| Cidr.SplitHalf | src/utils.rs:231-244 | both halves are aligned to the next prefix length, and their prefixes are the block's followed by 0 and by 1 |
| Cidr.HalvesPartition | src/utils.rs:231-244 | every address of a block is in exactly one of its halves, and no other address is |
| Cidr.StrictContainment | src/utils.rs:163-174 | when the two containment tests fall through, the inner block is a proper part of the outer one, as carving asserts |
| Cidr.Halves | src/utils.rs:258-264 | the recursion keeps `inner` inside the half it continues with, and sets the sibling aside |
| CidrAlgebra.IntersectMeaning | src/utils.rs:85-104 | the intersection is exactly the common addresses, canonical; there is none iff the routes are disjoint, of different families or invalid |
| CidrAlgebra.IntersectCommutes | src/utils.rs:85-104 | the intersection does not depend on the order of its arguments |
| CidrAlgebra.DisjointOrNested | src/utils.rs:85-104 | any two routes are disjoint or one contains the other |
| CidrAlgebra.CarveMeaning | src/utils.rs:246-275 | the carved blocks cover the addresses of `outer` that are not in `inner`, and no others |
| CidrAlgebra.CarveShape | src/utils.rs:246-275 | there is one canonical block for each prefix length from outer+1 to inner, each beside the path to `inner` |
| CidrAlgebra.CarveDisjoint | src/utils.rs:246-275 | the carved blocks are pairwise disjoint |
| CidrAlgebra.SubtractMeaning | src/utils.rs:141-176 | for every pair of texts the result covers exactly the addresses of `outer` that are not in `inner` |
| CidrAlgebra.SubtractShape | src/utils.rs:141-176 | disjoint, mixed-family and unparseable input leaves `outer` as it is, a covering `inner` leaves nothing, strict containment gives disjoint blocks, one per level |
| Minimality.CarveIsMinimal | src/utils.rs:145-146 | no list of CIDR text that covers exactly `outer` minus `inner` is shorter than the carved one |
| Minimality.TwoBlocksReachInner | src/utils.rs:246-275 | a block that holds the bases of two carved siblings contains the base of `inner` |
| Minimality.SubtractIsMinimal | src/utils.rs:141-176 | the result is a shortest list for the difference iff `outer` parses, for any `inner` |
| RouteFilters.ApplyRouteFilters | src/utils.rs:109-139 | the loops build the intersections in server order then allowlist order without duplicates, then subtract the denylist entry by entry |
| RouteFilters.FilterMeaning | src/utils.rs:106-139 | an address is routed iff the server routes it, the allowlist (when present) holds it, and the denylist does not |
| RouteFilters.FilterIgnoresOrder | src/utils.rs:106-139 | permuting the server routes, the allowlist or the denylist does not change the set of addresses |
| RouteFilters.NothingAllowed | src/utils.rs:106-108 | an allowlist without a valid entry, also an empty one, permits no route |
| RouteFilters.IntersectionsListedOnce | src/utils.rs:117-127 | the intersections are canonical and none is listed twice |
| RouteFilters.IntersectionsInOrder | src/utils.rs:117-127 | the intersections come in the order of the server's routes and then of the allowlist, each at its first place |
| RouteFilters.SubtractFromInOrder | src/utils.rs:130-136 | subtraction goes entry by entry: what comes of earlier entries stands before what comes of later ones |
| RouteFilters.SubtractFromMeaning | src/utils.rs:130-136 | one denylist entry removes exactly its addresses from the whole list |
| RouteFilters.FilterKeepsDisjoint | src/utils.rs:109-139 | disjoint server routes, and a disjoint allowlist if present, give disjoint routes |
| RouteFilters.SubtractFromSize | src/utils.rs:130-136 | on disjoint routes one IPv4 denylist entry adds at most 31 entries and one IPv6 entry at most 127 |
| RouteFilters.FilterSize | src/utils.rs:109-139 | the denylist as a whole adds at most the sum of those bounds |
| RoutePipeline.MergeAdditionalRoutes | src/client.rs:43-65 | invalid routes and IPv6 routes without an IPv6 address are skipped, the rest are appended unless already listed |
| RoutePipeline.MergeMeaning | src/client.rs:43-65 | merging adds exactly the addresses of the usable additional routes |
| RoutePipeline.MergeAppends | src/client.rs:60-62 | the given routes stay in front, and nothing already listed is appended |
| RoutePipeline.MergeInOrder | src/client.rs:43-65 | the usable additional routes are appended in their order |
| RoutePipeline.ServerRoutesMeaning | src/client.rs:1305-1351 | the mode selects the server's lists, and IPv6 lists count only with an IPv6 address |
| RoutePipeline.CarvePeer | src/client.rs:1411-1424 | the loop subtracts the peer's host route from every allowed IP in order |
| RoutePipeline.AllowedIps | src/client.rs:1305-1433 | server routes, additional routes, filters and peer carve-out are applied in this order, or the connection is refused |
| RoutePipeline.PipelineMeaning | src/client.rs:1305-1433 | the allowed IPs that parse cover the routable addresses: ((server routes or usable additional routes) within the allowlist) minus the denylist minus the peer's address |
| RoutePipeline.PipelineInOrder | src/client.rs:1305-1433 | the final list is the server's list with the usable additional routes behind it, then the allowlist, the denylist and the peer, in this order |
| RoutePipeline.ParsedRoutesAvoidPeer | src/client.rs:1400-1425 | for every configuration, no allowed IP that parses contains the peer's address |
| RoutePipeline.RefusedOnlyWithoutRoutes | src/client.rs:1343-1348 | the connection is refused iff full mode has no route of a usable family |
| TunnelText.LinesBreak | src/wg.rs:155-180 | a line break in a value ends the line, and what follows is read as lines of its own |
| TunnelRoutes.ConfigWg | src/wg.rs:143-182 | the configuration is the peer's fields, the allowed IPs, the device's fields and the system routes, in this order; bare addresses get `/32` as allowed IPs of either family, and `/32` or `/128` as system routes, other text without a slash likewise by its colon |
| TunnelRoutes.ConfigWgNetstack | src/wg.rs:196-213 | the configuration of the SOCKS5 mode is the peer's fields and the allowed IPs |
| TunnelReadBack.ReadConfiguration | src/wg.rs:143-182 | without line breaks in its values the configuration is read back pair by pair: the peer's keys before what the peer may carry, and that before the device and the system routes |
| TunnelReadBack.PeerKeysReadBack | src/wg.rs:149-154 | `private_key`, `public_key` and `endpoint` each give their own field, once, in both kinds of configuration |
| TunnelReadBack.FlagsReadBack | src/wg.rs:150-154 | the two replace flags are `true` and the keepalive interval is 10, once each, in both kinds of configuration |
| TunnelReadBack.DeviceKeysReadBack | src/wg.rs:163-171 | `address` gives the IPv4 address and, if there is one, the IPv6 address, `mtu` its field, `up` is `true`; the SOCKS5 configuration has none of them, and no route |
| TunnelReadBack.ListsReadBack | src/wg.rs:155-180 | `allowed_ip` and `route` give the two lists entry by entry and in order, with the prefixes that bare addresses and text get |
| TunnelRoutes.FinalUnparsed | src/client.rs:1305-1433 | the entries of the final list that are not of the form `ip/number` are the server's, in order, when there is no allowlist, and none otherwise; denylist, peer and additional routes do not matter |
| TunnelRoutes.BareReachesItself | src/wg.rs:155-180 | a bare address stands for itself alone, except as an IPv6 allowed IP |
| TunnelRoutes.BareMeaning | src/wg.rs:155-180 | a bare address reaches what agrees with it on 32 bits, or on 128 as an IPv6 system route |
| TunnelRoutes.OpaqueMeaning | src/wg.rs:155-180 | text without a line break gives its own use what the tunnel reads in it: as it is with a slash, else with `/32`, or `/128` as a system route with a colon |
| TunnelRoutes.BrokenMeaning | src/wg.rs:155-180 | text with a line break gives what its first line says, and what every further line says under the key it brings |
| TunnelRoutes.UnbrokenFieldsAreSilent | src/wg.rs:145-171 | the other fields of the configuration give no address, as long as they hold no line break |
| TunnelRoutes.TunnelMeaning | src/wg.rs:143-182 | for every reading of the tunnel, the configuration gives a use exactly the addresses of `PipelineMeaning`, those that the server's unparsed text reaches when there is no allowlist, and those of the other fields |
| TunnelRoutes.PeerIsRoutedIff | src/client.rs:1400-1425 | the peer's address is given to its own tunnel iff there is no allowlist and an unparsed entry of the server's list in use reaches it, or another field does |
| TunnelRoutes.PeerIsRoutedByBares | src/client.rs:1400-1425 | without line breaks, and when the tunnel reads no address where the program cannot, it is given iff there is no allowlist and a bare address in the server's list reaches it |
| TunnelRoutes.BarePeerIsRouted | src/client.rs:1411-1424 | a server that lists the peer's bare address gets it routed, though the denylist names it and the carve-out ran |
| TunnelRoutes.BareNeighbourIsWidened | src/wg.rs:206-211 | a bare IPv6 address with the peer's first 32 bits makes the peer an allowed IP, but not a system route |
| TunnelRoutes.BrokenEntryIsRouted | src/wg.rs:155-161 | an entry of two lines, the second an allowed IP that holds the peer, is unparsed, passes the denylist and the carve-out, and makes the peer an allowed IP |
| TunnelRoutes.BrokenEntryExample | src/wg.rs:155-161 | the same for `10.0.0.0/8` followed by `allowed_ip=203.0.113.7/32` |
| TunnelPreparation.ConnectVpnSelected | src/client.rs:1283-1433 | after the server's answer come the private key, the mask and the routes, in this order; a failure of any of them wastes the grant |
| TunnelPreparation.PreparedList | src/client.rs:1305-1433 | the list of a prepared connection covers the routable addresses for the client's settings, the server's answer and the client's peer, and keeps the server's unparsed text iff there is no allowlist |
| TunnelPreparation.PreparedConfiguration | src/client.rs:1305-1475 | the configuration written from that list gives a use exactly the routable addresses, those that unparsed text reaches without an allowlist, and those of the other fields |
| TunnelPreparation.PreparedPeer | src/client.rs:1400-1425 | no entry of that list that parses holds the client's own peer, and the configuration gives it only through text that does not parse |
| TunnelPreparation.FailsAfterGrantIff | src/client.rs:1283-1348 | the call fails after the grant iff the answer is lost, the private key is missing, the mask is not a number, or full mode has no route of a usable family |
| TunnelPreparation.MaskRoundTrip | src/client.rs:1299 | every number below 2^32 is read back from its decimal print, with or without a plus sign, and no larger one is |
| TunnelPreparation.MaskIsDecimal | src/client.rs:1299 | nothing but decimal digits, with or without a plus sign, is read as a mask |
| Probes.TakeCompletion | src/client.rs:1000-1026 | storing one result and draining the ready slots keeps every slot's meaning and stops at the first success in list order; the index only moves forward and the slots it passes are emptied, so each is consumed at most once |
| Probes.GetFirstAvailableVpn | src/client.rs:985-1028 | for every completion order it returns the lowest-index node that answers, with that probe's cookies, none iff all fail, at the first completion that settles it |
| Probes.ReadyIsDetermined | src/client.rs:985-1028 | the finished probes fix the answer, whatever the others bring, iff every unfinished one is behind the first success |
| Probes.GetFirstVpnByLatency | src/client.rs:904-947 | for every completion order it returns the least (latency, index) among the nodes that answer, none iff all fail |
| Probes.ProbeVpnNodes | src/client.rs:949-983 | the list has one entry per node in input order with the node's own fields, and with the probe's latency iff the probe answered in time |
| Totp.HotpIsDynamicTruncation | src/totp.rs:7-20 | the code is the dynamic truncation of section 5.3 of RFC 4226, in bounds and below 10^6 |
| Totp.LowBitsOfWord | src/totp.rs:17 | masking with 0x7fffffff is the remainder modulo 2^31 |
| Bytes.BigEndianRoundTrip | src/totp.rs:8-9 | the counter's eight bytes determine the counter |
| Totp.CodeLifetime | src/totp.rs:31-40 | the counter stays the same up to the nanosecond the slot ends and then moves on by one; `secs_left` is the rest of the slot in seconds rounded up, between 1 and 30 |
| Totp.DriftSign | src/client.rs:432-459 | with an offset that fits and a header at most 30 seconds old: a header ahead of the client's clock leaves the client zero to two slots behind the server, any other header leaves it within one slot |
| Totp.DriftBound | src/client.rs:1148-1154 | for every header, also one out of range, the client is within one slot of the server at all later times iff its slot offset is within one slot of the distance of the two clocks |
| Totp.InStepIffFresh | src/client.rs:432-459 | that is the case iff the offset in seconds fits an `i32` and the header's age plus what the slot offset drops (minus it, with a header not ahead) is at most 30 seconds |
| Totp.OffsetLimits | src/client.rs:440-449 | the offset fits iff the distance is less than 2147483648 seconds, in either direction |
| Totp.HeaderCanCostASlot | src/client.rs:432-459 | a client at 0.9 s that sees the header 30 s of a server at 30.95 s is two slots behind at 29.96 s |
| Totp.CodeIsWithinOneSlot | src/client.rs:1148-1154 | under the condition of `DriftBound` the code sent has six digits and is the server's for its current slot or a neighbouring one, as section 5.2 of RFC 6238 expects of a validator |
| Template.MatchEndIsMatch | src/template.rs:13 | a match is two opening braces, a name without a closing brace, and two closing braces |
| Template.FindMatchesIsLeftmost | src/template.rs:17-20 | the matches do not overlap, each starts at the first position after the previous one where a match starts, and none is left out |
| Template.RenderHole | src/template.rs:54-78 | each turn of the loop extends the rendered prefix up to the end of its hole |
| Template.SubstituteHole | src/template.rs:60-75 | a match contributes the value bound to its name, or its own text |
| Template.RenderNamed | src/template.rs:35-90 | rendering is a single left-to-right pass: every hole is filled on its own and no value is looked at again; all slices are in bounds |
| Template.OwnBracesKeepSource | src/template.rs:65-75 | if every name is unbound or bound to its own braces, the template comes back unchanged |
| WindowsQuoting.QuoteWindowsArgument | apps/desktop/src-tauri/src/launcher.rs:664-693 | the backslash-counting loop writes the text that `Quoted` describes |
| WindowsQuoting.JoinArguments | apps/desktop/src-tauri/src/launcher.rs:604-608 | the quoted arguments are joined by single spaces |
| WindowsQuoting.ScanQuoted | apps/desktop/src-tauri/src/launcher.rs:673-692 | inside quotes the runtime reads back the text, backslash runs before quotes and at the end included |
| WindowsQuoting.ScanBare | apps/desktop/src-tauri/src/launcher.rs:665-671 | an argument that is left unquoted is read back as it stands |
| WindowsQuoting.ScanOne | apps/desktop/src-tauri/src/launcher.rs:664-693 | one quoted argument, followed by a space or the end, is read back as one argument |
| WindowsQuoting.RoundTrip | apps/desktop/src-tauri/src/launcher.rs:604-608 | splitting the command line gives back exactly the list of arguments, empty ones included |
| WindowsQuoting.RoundTripIffNulFree | apps/desktop/src-tauri/src/launcher.rs:604-608 | this holds iff no argument contains a NUL |
| WindowsQuoting.LeftAloneIff | apps/desktop/src-tauri/src/launcher.rs:664-671 | an argument is left as it is iff it is not empty and has no white space and no quote |
| WindowsQuoting.QuoteRule | apps/desktop/src-tauri/src/launcher.rs:676-684 | a quote after n backslashes is written after 2n + 1 of them |
| WindowsQuoting.CopyRule | apps/desktop/src-tauri/src/launcher.rs:685-690 | backslashes in front of anything else are copied with it |
| WindowsQuoting.EndRule | apps/desktop/src-tauri/src/launcher.rs:691-692 | n backslashes at the end become 2n in front of the closing quote |
| WindowsQuoting.JoinAppend | apps/desktop/src-tauri/src/launcher.rs:604-608 | between two groups of arguments stands one space |
| Fingerprint.Hasher.HashString | apps/helper/src/lib.rs:254-257 | a string feeds its length as eight big-endian bytes and then its bytes |
| Fingerprint.Hasher.HashStrings | apps/helper/src/lib.rs:247-252 | a list feeds its length and then each string |
| Fingerprint.Hasher.HashOptionalString | apps/helper/src/lib.rs:237-245 | an optional string feeds a tag and, if present, the string |
| Fingerprint.Hasher.HashMode | apps/helper/src/lib.rs:207-219 | the mode feeds a tag, and for SOCKS5 its address and its two optional fields |
| Fingerprint.TunnelFingerprint | apps/helper/src/lib.rs:203-235 | the fingerprint is the hash of the stream of all fields |
| Fingerprint.TextSeparable | apps/helper/src/lib.rs:254-257 | length prefixes make strings self-delimiting: two of them are told apart in any longer stream |
| Fingerprint.TextsSeparable | apps/helper/src/lib.rs:247-252 | so do counted lists |
| Fingerprint.ModeSeparable | apps/helper/src/lib.rs:207-219 | so do the mode tags with their optional fields |
| Fingerprint.EncodingIsPrefixFree | apps/helper/src/lib.rs:203-257 | the stream, followed by anything, determines the whole specification |
| FingerprintReading.StreamIsRead | apps/helper/src/lib.rs:203-257 | a decoder that reads the fields in their order, with big-endian lengths and tags, gets every specification back from its stream, whatever follows |
| Fingerprint.SameFingerprintSameTunnel | apps/helper/src/lib.rs:95-108 | unless the hash collides on the two streams, equal fingerprints mean equal specifications |
| Supervisor.Supervisor.constructor | apps/helper/src/lib.rs:44-50 | a new supervisor is idle, without a record, and has not called its backend |
| Supervisor.Supervisor.Handle | apps/helper/src/lib.rs:59-92 | the reply carries the request's id, state, reply and backend calls are those of `HandleStep`, and during each call the record and the state are those of `DuringCall` |
| Supervisor.Supervisor.HandleFrame | apps/helper/src/lib.rs:182-201 | a malformed frame is answered with id 0 and changes nothing |
| Supervisor.Supervisor.Start | apps/helper/src/lib.rs:94-135 | a start changes state and calls the backend as `StartStep` says, with the cleanup after a failure |
| Supervisor.Supervisor.Stop | apps/helper/src/lib.rs:137-165 | a stop changes state and calls the backend as `StopStep` says; the record is kept iff the cleanup fails too |
| Supervisor.Supervisor.Clean | apps/helper/src/lib.rs:167-179 | a cleanup empties the record iff the backend agrees |
| Supervisor.StartsOnlyWhenInactive | apps/helper/src/lib.rs:94-108 | the backend is started only when no tunnel is recorded |
| Supervisor.RepliesAreTruthful | apps/helper/src/lib.rs:59-179 | success replies show the state the request leaves, and backend failures are reported only after a backend call |
| SupervisorRequests.RunIsReplayed | apps/helper/src/lib.rs:59-179 | after every run the backend is what the calls made of it, and the record is there iff the last successful start, stop or cleanup was a start, and is that start's |
| SupervisorRequests.OtherVersion | apps/helper/src/lib.rs:60-74 | after any run a request of another protocol version is refused for good, without a call or a change |
| SupervisorRequests.HelloRequest | apps/helper/src/lib.rs:77-83 | a greeting is answered and does nothing |
| SupervisorRequests.StatusRequest | apps/helper/src/lib.rs:52-57 | a status does nothing, and shows the state and the name, interface, mode, address and protocol of the tunnel last started, if one is on record |
| SupervisorRequests.StatsRequest | apps/helper/src/lib.rs:86-89 | the figures are the backend's own, and neither record nor state changes |
| SupervisorRequests.CleanupRequest | apps/helper/src/lib.rs:167-179 | after any run a cleanup calls the backend exactly once; it ends idle without a record iff the backend agrees, and failed with the old record otherwise |
| SupervisorRequests.StopRequest | apps/helper/src/lib.rs:137-165 | without a record a stop asks nobody; with one the backend is asked, a refusal is followed by a cleanup, and its message by that of a failed cleanup |
| SupervisorRequests.StartRequest | apps/helper/src/lib.rs:110-135 | without a record a start asks the backend for exactly this tunnel and records it iff it succeeds, and cleans up after a refusal |
| SupervisorRequests.StartAfterCleanup | apps/helper/src/lib.rs:94-179 | recovery: whatever happened before, after a cleanup the backend agrees to, a start reaches the backend |
| Supervisor.StepIsSound | apps/helper/src/lib.rs:59-179 | every request keeps the invariant of `RunIsSound` |
| Supervisor.RunIsSound | apps/helper/src/lib.rs:59-179 | over every run of requests that are not cut, and every backend: only (Idle, none), (Running, some) and Failed are visible, no start follows a start without a stop or cleanup between, and the record describes the tunnel last started |
| Supervisor.RepeatedStartIsIdempotent | apps/helper/src/lib.rs:96-99 | starting the running tunnel again, any number of times, is answered with success and the unchanged status each time, changes nothing and calls nothing |
| Supervisor.StartAcceptedIffSameTunnel | apps/helper/src/lib.rs:96-108 | while a record is held a start succeeds iff the tunnel is running and is the same, and is refused as already running otherwise |
| Supervisor.SameTunnelIsRefusedAfterAFailedStop | apps/helper/src/lib.rs:96-165 | with a backend that starts but neither stops nor cleans up, start and stop lead to Failed with a record, and the same start is then refused as already running |
| CutRequests.CutRunIsSound | apps/helper/src/unix.rs:58-67 | over every run, backend and pattern of dropped requests: only (Starting, none) and (Stopping, some) become visible besides the states of `RunIsSound`, a start that follows a start without a stop or cleanup begun between follows a cut one, and the record describes the tunnel last started |
| CutRequests.CutLeaves | apps/helper/src/lib.rs:94-179 | a cut leaves the backend in any state, the record as it was, and a start or a stop announced |
| CutRequests.CutStartIsForgotten | apps/helper/src/lib.rs:94-143 | after every run that leaves a start open, a further start reaches the backend iff the open one was cut, and a stop reaches it iff it was not; after a cut one the stop still reports success |
| CutRequests.UncutStartsAreSingle | apps/helper/src/unix.rs:58-67 | as long as no start is cut, whatever else is, no start follows a start without a stop or cleanup between |
| CutRequests.CutStartRunsTwice | apps/helper/src/lib.rs:110-111 | with any backend, a start that is cut and then repeated is made twice |
| CutRequests.UncutAttemptsAreARun | apps/helper/src/lib.rs:59-92 | without cuts these runs are those of `RunIsSound` |
| LibwgBackend.LibwgBackend.Start | apps/helper/src/libwg_backend.rs:15-52 | an instance that starts but cannot be configured is stopped again; only a configured one counts as running |
| LibwgBackend.LibwgBackend.Stats | apps/helper/src/libwg_backend.rs:59-74 | the figures are zero when nothing runs, and are otherwise asked of the named instance |
| LibwgBackend.LibwgBackend.Stop | apps/helper/src/libwg_backend.rs:54-57 | stopping never fails |
| LibwgBackend.LibwgBackend.Cleanup | apps/helper/src/libwg_backend.rs:76-79 | cleaning up never fails |
| LibwgBackend.LibwgBackend.Drop | apps/helper/src/libwg_backend.rs:92-96 | dropping the backend stops what runs |
| LibwgBackend.LibwgBackend.StopIfRunning | apps/helper/src/libwg_backend.rs:83-89 | the library is stopped iff the driver says it is running |
| LibwgBackend.RequestKeepsCoupling | apps/helper/src/libwg_backend.rs:13-90 | every request keeps the invariant of `RunIsCoupled`, replies tell the truth about the library, and neither of the driver's own errors can occur |
| LibwgBackend.RunIsCoupled | apps/helper/src/libwg_backend.rs:13-90 | in every reachable state at most one library instance lives, exactly while the helper is Running with a record; Failed is unreachable |
| LibwgBackend.DropLeavesNothing | apps/helper/src/libwg_backend.rs:92-96 | whenever the helper ends, dropping the backend leaves no instance behind |
| LibwgBackend.FiguresAreTheLibrarys | apps/helper/src/libwg_backend.rs:59-74 | after every run the figures are zero without a tunnel, and otherwise what the library says next |
| LibwgBackend.StartAsksTwice | apps/helper/src/libwg_backend.rs:15-52 | after every run without a tunnel, a start succeeds iff the library starts and takes the configuration, and otherwise reports the first of the two that fails |
| SecretMigration.Vault.StoreSecret | apps/desktop/src-tauri/src/controller.rs:447-451 | a secret is written under its own name, or the failure is reported |
| SecretMigration.Vault.RestoreOrMigrateOptional | apps/desktop/src-tauri/src/controller.rs:435-445 | a secret in the profile is written to the store and used, otherwise the store is asked |
| SecretMigration.Vault.RestoreOrMigrateRequired | apps/desktop/src-tauri/src/controller.rs:417-433 | likewise, and a secret found nowhere is an error |
| SecretMigration.Vault.RestoreOrMigrateSecrets | apps/desktop/src-tauri/src/controller.rs:402-415 | the four secrets are moved or fetched in order, stopping at the first failure |
| SecretMigration.Vault.Save | src/config.rs:243-263 | a desktop profile is written without its four secrets |
| SecretMigration.Vault.LoadProfile | apps/desktop/src-tauri/src/controller.rs:370-400 | a load reads the profile, derives a missing public key, migrates, saves and opens the session, in this order |
| SecretMigration.Vault.CreateDesktopProfile | apps/desktop/src-tauri/src/controller.rs:117-139 | a reconfiguration writes the profile with the new public key, stores the new private key, deletes the other three secrets, and stops at the first failure |
| SecretMigration.MigrationStore | apps/desktop/src-tauri/src/controller.rs:402-415 | a migration, also an unfinished one, changes the store only by copying the profile's values into it, and a finished one has copied them all |
| SecretMigration.MigrationValues | apps/desktop/src-tauri/src/controller.rs:402-415 | the session gets, for each of the four names, the profile's value or else the store's |
| SecretMigration.LoadKeepsSecrets | apps/desktop/src-tauri/src/controller.rs:379-400 | wherever a load is cut, also while the profile is being written, every secret keeps its value in the profile or the store |
| SecretMigration.CompletedLoad | apps/desktop/src-tauri/src/controller.rs:402-415 | a completed load leaves no secret in the profile and hands the session the effective values |
| SecretMigration.LaterLoadRestoresTheSame | apps/desktop/src-tauri/src/controller.rs:370-400 | after any series of interrupted and completed loads, a completed load restores the values of the first disk |
| SecretMigration.NothingToLoad | apps/desktop/src-tauri/src/controller.rs:370-382 | a load ends without a session iff there is no profile, whatever the faults; without a profile, or with a torn one, it leaves the disk alone |
| SecretMigration.FaultlessLoad | apps/desktop/src-tauri/src/controller.rs:370-433 | without faults a load succeeds iff there is no profile, or a readable one with a private key in it or in the store that, when the profile has it without a public key, is a key |
| SecretMigration.SavedSecrets | src/config.rs:243-263 | a saved profile has all its secrets, or none of the four if it is a desktop profile |
| DiskOutcomes.LoadVerdict | apps/desktop/src-tauri/src/controller.rs:370-433 | a load reports the failure of the first step that fails, and succeeds iff none does |
| DiskOutcomes.LoadedStore | apps/desktop/src-tauri/src/controller.rs:402-451 | wherever a load stops, the store has got exactly the profile's values of the steps that were reached and not refused |
| DiskOutcomes.LoadedFile | src/config.rs:243-263 | the profile is rewritten without secrets iff all four steps succeed, unless that write fails; a write that is cut short tears it |
| DiskOutcomes.CreateVerdict | apps/desktop/src-tauri/src/controller.rs:117-139 | a new profile reports the failure of the first step that fails |
| DiskOutcomes.CreatedStore | apps/desktop/src-tauri/src/controller.rs:124-137 | wherever it stops, the store has the new private key iff it was stored, and each other secret until it was deleted |
| DiskOutcomes.CreatedFile | src/config.rs:178 | the profile has the new public key and no secret, or is as it was, or torn |
| KeyPairs.SessionMatchesDisk | src/config.rs:216-236 | after any series of interrupted and completed loads, a session's keys belong together iff those of the first disk do |
| KeyPairs.CreatedKeys | apps/desktop/src-tauri/src/controller.rs:117-133 | wherever a reconfiguration is cut, the disk has both old keys, both new keys, or the new public key with the store's old private key |
| KeyPairs.MatchesAfterCut | apps/desktop/src-tauri/src/controller.rs:117-133 | after any cut and any loads, a session's keys belong together iff the profile was not written and they did before, or the new private key was stored, or the store already held one of the new public key |
| KeyPairs.RefusedKeyMismatches | apps/desktop/src-tauri/src/controller.rs:118-133 | from a matching disk, a profile that is written and a private key that the store refuses lead to a session with keys that do not belong together |
| KeyPairs.CompletedConfigure | apps/desktop/src-tauri/src/controller.rs:117-137 | a reconfiguration that finishes leaves the new pair and none of the old optional secrets |
| ConnectionLedger.AppController.LoadAuthIfNeeded | apps/desktop/src-tauri/src/controller.rs:370-400 | a loaded session is never replaced, and a failed load leaves the session as it was |
| ConnectionLedger.AppController.AuthRefreshNodes | apps/desktop/src-tauri/src/controller.rs:199-212 | a refresh replaces the list of nodes and nothing else |
| ConnectionLedger.AppController.Connect | apps/desktop/src-tauri/src/controller.rs:258-313 | the checks come in this order, a connection whose tunnel does not start is given back at once, and one whose preparation fails after the grant is not |
| ConnectionLedger.AppController.ReleaseServerConnection | apps/desktop/src-tauri/src/controller.rs:349-368 | a record of the same mode is taken and given back, also when the server objects; another mode's record is put back |
| ConnectionLedger.AppController.Stop | apps/desktop/src-tauri/src/controller.rs:315-343 | without interference, `stop` and `cleanup` are the helper's answer followed by the release; they report an error iff the helper does not answer, or a record of this mode was there and the server objects |
| ConnectionLedger.AppController.AuthReset | apps/desktop/src-tauri/src/controller.rs:214-241 | a reset is refused while a connection is on record, and otherwise ends the session once the secrets are deleted |
| ConnectionLedger.AppController.AuthConfigure | apps/desktop/src-tauri/src/controller.rs:83-155 | without interference, a reconfiguration checks the code, discovers the company and creates the profile, reports the first of these that fails with what it has written, and otherwise starts a new session, whatever the old one held |
| ConnectionLedger.EventKeepsBalance | apps/desktop/src-tauri/src/controller.rs:144-368 | every event keeps the account balanced: granted = given back + overwritten + stranded + on record, connection by connection |
| ConnectionLedger.RunIsBalanced | apps/desktop/src-tauri/src/controller.rs:144-368 | the account balances after every interleaving of events |
| ConnectionLedger.ConservedIffNothingLost | apps/desktop/src-tauri/src/controller.rs:83-368 | server connections are conserved iff no reconfiguration took effect with a connection on record and no connect failed between the server's grant and its tunnel configuration |
| ConnectionLedger.OverwrittenIffOverwrites | apps/desktop/src-tauri/src/controller.rs:144-154 | the account of overwritten records is empty iff no event of the run overwrote one |
| ConnectionLedger.StrandsIff | src/client.rs:1283-1348 | a connect strands a connection iff it passes all checks of the controller and the answer or the settings waste the grant |
| ConnectionLedger.StrandedIffStrands | src/client.rs:1283-1348 | the account of stranded connections is empty iff no connect of the run passed all checks, was granted a connection and failed to prepare it |
| ConnectionLedger.ConservedCount | apps/desktop/src-tauri/src/controller.rs:258-368 | when nothing was overwritten, the connections handed to the controller equal the release attempts, plus one exactly while a connection is on record |
| ConnectionLedger.ReconfiguringLosesAConnection | apps/desktop/src-tauri/src/controller.rs:144-154 | configuring, connecting and configuring again leaves a granted connection that is never given back |
| ConnectionLedger.FailedPreparationLosesAConnection | apps/desktop/src-tauri/src/controller.rs:288-294 | a connect in full mode to a server that lists no routes leaves a connection that is never given back, without any reconfiguration |
| ConnectionLedger.ConnectIsGuarded | apps/desktop/src-tauri/src/controller.rs:263-312 | a connection is requested only with a logged-in session that has none, for a listed node and a running helper, and is recorded iff the command succeeds |
| ControllerEvents.Loading | apps/desktop/src-tauri/src/controller.rs:370-400 | a load that succeeds marks the controller as loaded, with an empty session iff there was a profile; one that fails leaves it as it was, and a loaded controller does not load again |
| ControllerEvents.FirstStart | apps/desktop/src-tauri/src/controller.rs:374-377 | the first start of the program, without a profile, succeeds without a session, whatever the faults |
| ControllerEvents.Refreshing | apps/desktop/src-tauri/src/controller.rs:199-212 | a refresh puts the given list of nodes in place of the old one, or reports the first reason against it |
| ControllerEvents.ConnectVerdict | apps/desktop/src-tauri/src/controller.rs:258-313 | a connect reports the first thing that is missing, in this order: profile, session, login, a free record, the node, the helper, the grant, the tunnel |
| ControllerEvents.Connecting | apps/desktop/src-tauri/src/controller.rs:287-312 | a granted connection goes on record, or is given back when the helper refuses, or is stranded when the grant is wasted; exactly one of these |
| ControllerEvents.Releasing | apps/desktop/src-tauri/src/controller.rs:349-368 | an awaited release of the record's own mode takes it off record and asks the server, once, to end exactly this connection |
| ControllerEvents.ReleasingNothing | apps/desktop/src-tauri/src/controller.rs:349-361 | any other release leaves record and account |
| ControllerEvents.Resetting | apps/desktop/src-tauri/src/controller.rs:214-241 | a reset is refused with a connection on record, and otherwise ends the session once the secrets are deleted |
| ControllerEvents.Preparing | apps/desktop/src-tauri/src/controller.rs:83-139 | a reconfiguration reports the first of its steps before the lock that fails |
| ControllerEvents.Configuring | apps/desktop/src-tauri/src/controller.rs:144-154 | an awaited reconfiguration starts an empty session and books what was on record as overwritten |
| ControllerEvents.RecordSurvivesIff | apps/desktop/src-tauri/src/controller.rs:144-368 | a connection stays on record all through a run iff no awaited release of its own mode and no awaited reconfiguration occurs in it, and as long as it stays the account stays as it is |
| ControllerEvents.NoSessionUntilConfigured | apps/desktop/src-tauri/src/controller.rs:214-400 | after a reset there is no session, whatever happens, until a reconfiguration |
| ControllerEvents.StopGivesBack | apps/desktop/src-tauri/src/controller.rs:315-368 | a stop after any run that keeps the record asks the server to end exactly this connection, and the next connect is not refused as already connected |

## Left out

- Address and prefix text: parsing and printing of IP addresses is taken as given. The tunnel's own reading of a value is the parameter `read`, and its treatment of a configuration as a whole (refusing it, stopping at an empty line, NUL characters) is left open.
- Login flows, HTTP, cookies beyond those of the chosen probe, QR codes, the user interface, and DNS lookups: input and output. The host routes of additional domains enter as `resolved`.
- SHA-256, HMAC-SHA1, AES, X25519, base64, JSON and the libwg foreign calls: parameters with arbitrary outcomes.
- Sockets, named pipes, peer credentials and elevation: operating-system behaviour.
- The wording of error messages, which decides nothing, and the protocol version in replies, which is constant.
- A cut inside the libwg backend: its calls never yield, so the helper's ten-second limit (`apps/helper/src/unix.rs:58-67`, `apps/helper/src/windows.rs:150`) cannot drop a request there. `CutRequests` has the limit for every other backend.
- Commands of the desktop controller that are dropped halfway, and its crashes.
- Claims that tie the state of the two helpers to the controller's record: they hold only for commands that do not overlap.
- The fields of a profile other than its four secrets and its public key, and what `auth_reset` deletes, which leaves an arbitrary disk here.
- A load that runs between the writes of one `auth_configure`, or an `auth_configure` that writes in the middle of a load: in `KeyPairs` and `SecretMigration` the two follow each other.
- WindowsQuoting.JoinArguments: works on characters; the encoding to UTF-16 and the final NUL are not modelled, because every character with a meaning on the command line is ASCII.
- Session transitions of `src/session.rs`, the DNS manager, statistics parsing and the release scripts: they would only add easy members.
