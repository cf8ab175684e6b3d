# Bluetooth Mesh and NDN experiment firmwares — a Dafny model

This project models the application logic of two RIOT firmwares. Both are
used to measure 1-to-many traffic over Bluetooth Low Energy.

- **btmesh** (`btmesh/fw/main.c`) is a Bluetooth Mesh node. It has a root
  element, a server element (Generic OnOff and Generic Level servers) and a
  client element (their clients). It provisions itself from a random address
  and device key. Its shell commands configure it as source or sink and run
  the experiment: `run` publishes Generic OnOff Set Unacknowledged messages
  and `run_lvl` publishes Generic Level Set Unacknowledged messages. An
  8-bit transaction counter goes into every publication, into the "pub" and
  "status" stats, and into "pub_lvl" added to the node address.
- **ndn** (`ndn/fw/main.c`) is a CCN-lite node. Its local producer answers
  Interests for `/<own address>/<number>` with freshly built content. Its
  consumer sends one Interest per FIB entry per round, for 100 rounds, or
  one per round to a fixed single producer.

The model has five modules:

- `CRuntime` (cruntime.dfy) holds the C library behaviour both programs
  depend on:
  - 32-bit wrap-around;
  - `%02x`, `%04x`, `%u` and `%04d`;
  - `atoi` as a 32-bit `strtol`, saturating at `INT_MAX` and `INT_MIN`;
  - `snprintf` truncation.
- `MeshMessages` (mesh_messages.dfy) holds the mesh-side values:
  - opcodes, payload layouts and the 8-bit counter;
  - the trace each publish loop produces;
  - the op tables and handlers;
  - the unicast address mask;
  - the printed key format and its parser.
- `MeshNode` (mesh_node.dfy) holds the class `Node`, whose fields are the
  firmware's globals. Each callback and shell command is a method that
  updates them.
  - What the node hands to the mesh stack and to the stats module is
    appended to `events`.
  - What it prints is appended to `console`.
- `NdnNames` (ndn_names.dfy) holds the pure naming rules:
  - the producer's ownership test and the id it extracts;
  - the content it builds;
  - the consumer's request schedule.
- `NdnNode` (ndn_node.dfy) holds the imperative NDN node:
  - the FIB as a linked list of `FibEntry` objects;
  - the single-producer flag and the local-producer hook;
  - the counting loop, the producer, and the nested consumer loop.

Foreign calls that change what the code does next are inputs to the method:

- whether the encoded content decodes as a Data packet;
- whether the content store accepts the content.

Foreign calls that only receive data are recorded as events.

Where the code's behaviour is easy to misread, the model follows the code:

- **Content name.** The producer rebuilds the content name from its own
  address and `%04d` of the parsed number. It does not copy the request's
  name. A request for `/<addr>/7` is answered with `/<addr>/0007`
  (`NdnNames.SevenAndZeroSevenAgree`).
- **Ownership.** The owner test compares only as many bytes as the request's
  first component has. Any prefix of the address is accepted, including the
  empty component (`NdnNames.OwnerIsAddrPrefix`,
  `NdnNames.EmptyOwnerMatches`).
- **Request number.** A request's trailing number is the round index, shared
  by every destination of the round. It is not a per-send counter
  (`NdnNames.ConsumerUrisAt`).
- **Jitter check.** `run_lvl` checks `itvl - jttr < itvl + jttr` in
  `uint32_t`, not `jitter < interval`.
  - It accepts a jitter equal to the interval, for example 1000 and 1000.
  - It rejects a zero jitter.
  - Through wrap-around, it also accepts jitters above 2^31 larger than the
    interval.

  `MeshNode.JitterGateIff` characterises exactly which settings pass.
- **Failure handling.** A failed publish or configuration call, and a
  rejected jitter setting, stop the firmware through `assert`. Neither is
  reported as an error.

## Model

| member | source | states |
|---|---|---|
| CRuntime.Hex2 | btmesh/fw/main.c:276 | `%02x` of a byte is two lower-case hex digits |
| CRuntime.ParseHex2OfHex2 | btmesh/fw/main.c:276-278 | reading the two printed hex digits back gives the byte |
| CRuntime.Hex2OfParseHex2 | btmesh/fw/main.c:276-278 | every two-digit lower-case hex text is the `%02x` of the byte it reads as |
| CRuntime.Hex4 | btmesh/fw/main.c:290 | `%04x` of a 16-bit address is four characters: the high octet's two hex digits, then the low octet's |
| CRuntime.Dec | btmesh/fw/main.c:290 | `%u` prints a non-empty digit string with no leading zero |
| CRuntime.DecValue | btmesh/fw/main.c:290 | the digits `%u` prints read back as the number |
| CRuntime.DecBound | ndn/fw/main.c:245 | a value below 10^k prints in at most k digits |
| CRuntime.Pad04 | ndn/fw/main.c:245 | `%04d` is at least four characters: digits for n ≥ 0, a minus sign then digits for n < 0 |
| CRuntime.Pad04Width | ndn/fw/main.c:177-179 | `%04d` of 0..9999 is exactly four characters |
| CRuntime.Pad04Bound | ndn/fw/main.c:245 | `%04d` of any int takes at most eleven characters |
| CRuntime.SkipSpace | ndn/fw/main.c:284 | atoi's white-space skip returns a suffix of its input, drops only white space, and stops at a non-space character |
| CRuntime.Atoi | ndn/fw/main.c:284 | atoi is negative only after a minus sign, and 0 when no digit follows the white space and optional sign |
| CRuntime.DigitRun | ndn/fw/main.c:284 | atoi reads the longest run of decimal digits, a prefix of its input |
| CRuntime.AtoiDigits | ndn/fw/main.c:284 | atoi of a digit string is its value, saturated at INT_MAX |
| CRuntime.AtoiNegative | ndn/fw/main.c:284 | atoi of "-" followed by digits is the negated value, saturated at INT_MIN |
| CRuntime.AtoiPad04 | ndn/fw/main.c:284 | atoi inverts `%04d` on every 32-bit int |
| CRuntime.AtoiLeadingZeros | ndn/fw/main.c:284 | leading zeros do not change what atoi reads from digits |
| CRuntime.Snprintf | ndn/fw/main.c:177-179 | snprintf keeps at most size − 1 characters, a prefix of the text, all of it when it fits |
| MeshMessages.PublicationsAppend | btmesh/fw/main.c:441-448 | the messages published by two event runs in sequence are those of the first followed by those of the second |
| MeshMessages.Le16RoundTrip | btmesh/fw/main.c:503 | the little-endian 16-bit field a publisher appends is read back as the same value by pull_le16 |
| MeshMessages.Inc8 | btmesh/fw/main.c:447 | `_trans_id++` on a uint8_t is +1 modulo 256 |
| MeshMessages.RunTraceLength | btmesh/fw/main.c:441-448 | n iterations of `run` record 2n events |
| MeshMessages.RunTraceAt | btmesh/fw/main.c:441-448 | iteration k of `run` records stat "pub" with k mod 256 and publishes OP_SET_UNACK with [0, k mod 256] |
| MeshMessages.RunPublications | btmesh/fw/main.c:441-448 | `run` with count n publishes exactly n messages, the k-th being OP_SET_UNACK [0, k mod 256] |
| MeshMessages.LvlTraceLength | btmesh/fw/main.c:500-505 | n iterations of `run_lvl` record 2n events |
| MeshMessages.LvlTraceAt | btmesh/fw/main.c:500-505 | iteration k of `run_lvl` records "pub_lvl" with k mod 256 + addr and publishes OP_LVL_SET_UNACK with that sum as LE16 and then k mod 256; the sum fits 16 bits when addr < 0x8000 |
| MeshMessages.StatusOffByOne | btmesh/fw/main.c:149-158 | the status stat carries the counter before the increment and the message the counter after it; the two always differ, by exactly one modulo 256 |
| MeshMessages.FindOp | btmesh/fw/main.c:204-226 | the op-table lookup returns an entry of the table with the requested opcode, or none when no entry has it |
| MeshMessages.AdmittedReadsInBounds | btmesh/fw/main.c:204-226 | with a table whose minimum lengths cover its handlers' reads, an admitted message holds every octet the handler reads |
| MeshMessages.CorrectedTablesCoverReads | btmesh/fw/main.c:204-226 | with OP_LVL_STATUS at minimum length 2 and a Get handler that reads no parameter, all four op tables cover their handlers' reads, and a parameterless Get is still answered |
| MeshMessages.GetReadsPastMessage | btmesh/fw/main.c:165-221 | as declared, the OnOff server's table admits OP_GET with no parameters, and `_op_get` then records the second octet after the message |
| MeshMessages.LvlStatusReadsPastMessage | btmesh/fw/main.c:139-214 | as declared, the Level client's table admits OP_LVL_STATUS with no parameters, and its handler then pulls two octets the message does not hold; taking the pull to read on, the level recorded is made of the two octets after the message |
| MeshMessages.HandlerEvents | btmesh/fw/main.c:109-202 | every handler records one received stat; exactly the OP_GET and OP_SET handlers follow it with the status reply |
| MeshMessages.HandlerEventsWithinMessage | btmesh/fw/main.c:109-202 | when the message holds every octet its handler reads, the octets after it do not change what is recorded |
| MeshMessages.OnOffStatsCorrelate | btmesh/fw/main.c:173-182 | every `run` publication reaching an OnOff server is admitted, dispatched to `_op_set_unack`, and recorded under "set_unack" with the value the sender recorded under "pub" |
| MeshMessages.LevelStatsCorrelate | btmesh/fw/main.c:129-137 | every `run_lvl` publication reaching a Level server is admitted, dispatched to `_op_lvl_set_unack`, and recorded with the value the sender recorded under "pub_lvl" |
| MeshMessages.MaskUnicast | btmesh/fw/main.c:287 | clearing bit 15 gives an address below 0x8000, the input modulo 0x8000 |
| MeshMessages.MaskKeepsLowBits | btmesh/fw/main.c:287 | the mask is idempotent, keeps addresses below 0x8000 and subtracts 0x8000 from the others |
| MeshMessages.ElementsUnicastIff | btmesh/fw/main.c:78-79 | the root, server and client element addresses are all unicast exactly when the masked node address is in 1..0x7ffd; the mask admits the unassigned address 0 and lets the client element reach 0x8001 |
| MeshMessages.KeyGroupsLength | btmesh/fw/main.c:275-277 | the loop's "%02x:" groups take three characters per octet |
| MeshMessages.KeyGroupsAt | btmesh/fw/main.c:275-277 | group j holds octet j's hex digits then a colon |
| MeshMessages.KeyTextShape | btmesh/fw/main.c:273-279 | a printed 16-octet key is 47 characters, octet j's two lower-case hex digits at 3j, colons at 3j + 2 |
| MeshMessages.KeyTextRoundTrip | btmesh/fw/main.c:273-279 | parsing the printed key gives the key back |
| MeshMessages.ParsedKeyTextPrints | btmesh/fw/main.c:273-279 | every text the key parser accepts is exactly the printed form of the key it returns |
| MeshNode.JitterGate | btmesh/fw/main.c:494-496 | the uint32_t gate never passes a zero jitter and always passes a jitter up to the interval whose sum does not wrap |
| MeshNode.JitterGateIff | btmesh/fw/main.c:494-496 | `assert(min < max)` in uint32_t passes exactly when 0 < jttr ≤ itvl without overflow of the sum, or jttr > 2^31 with itvl ≥ jttr or no overflow |
| MeshNode.JitterGateCases | btmesh/fw/main.c:494-496 | the defaults pass, jitter 0 fails, jitter equal to the interval passes (1000 and 1000 give min 0), and itvl 0 with jttr 2^31 + 1 passes through wrap-around |
| MeshNode.DumpKey | btmesh/fw/main.c:273-279 | the printing loop emits exactly the key text, 47 characters |
| MeshNode.DeclaredTablesReadPastMessage | btmesh/fw/main.c:211-242 | on each application element, the declared tables admit a parameterless message (OP_GET on the server, OP_LVL_STATUS on the client) whose handler reads two octets, so they do not cover their reads; the corrected tables do |
| MeshNode.SourceConfig | btmesh/fw/main.c:313-345 | source configuration makes four mesh-stack requests, then clears and enables the stats |
| MeshNode.SinkConfig | btmesh/fw/main.c:347-372 | sink configuration makes four mesh-stack requests, then clears and enables the stats |
| MeshNode.SourceReachesSink | btmesh/fw/main.c:313-372 | every client model the source publishes from has the app key bound and publishes to a group its server model on the sink subscribes to; every subscribed sink model has the key bound; the source does publish both client models to group 0xc001 |
| MeshNode.Node.constructor | btmesh/fw/main.c:83-87 | the globals start zeroed: counter 0, unprovisioned, unassigned publication addresses |
| MeshNode.Node.OnProvComplete | btmesh/fw/main.c:256-262 | provisioning completion sets the provisioned flag and prints the notice |
| MeshNode.Node.ProvBase | btmesh/fw/main.c:281-311 | the node address becomes the masked raw address (so stays below 0x8000), the device key the raw key; the provisioning report is printed with the address in `%u` and `%04x` and the three keys; provisioning and app-key addition are issued for that address |
| MeshNode.Node.ProvSource | btmesh/fw/main.c:313-345 | both client models publish to group 0xc001 afterwards, and the source configuration is issued for the client element |
| MeshNode.Node.ProvSink | btmesh/fw/main.c:347-372 | the sink configuration is issued for the server element |
| MeshNode.Node.CmdClear | btmesh/fw/main.c:374-380 | `clr` clears the stats and returns 0 |
| MeshNode.Node.CmdStats | btmesh/fw/main.c:382-388 | `stats` dumps the stats and returns 0 |
| MeshNode.Node.CmdWl | btmesh/fw/main.c:406-418 | `wl` without an argument prints the error and aborts; with one it whitelists it, prints it and returns 0 |
| MeshNode.Node.SendStatus | btmesh/fw/main.c:149-163 | the status reply records the old counter, advances it by one modulo 256, and sends the new value |
| MeshNode.Node.Receive | btmesh/fw/main.c:109-242 | a message is handled exactly when the element's declared table has its opcode and it is at least the declared minimum length; the handler reads the message followed by the octets after it in memory, which matter only when the message is shorter than what the handler reads; OP_GET and OP_SET also send the status reply and only they advance the counter; a dropped message changes nothing |
| MeshNode.Node.CmdRun | btmesh/fw/main.c:420-470 | unprovisioned or without a publication address: prints the error and returns 1 with no stat, publication or counter change; otherwise publishes count (default 100) messages per RunTrace, leaves the counter at count mod 256 and prints "EXP DONE" |
| MeshNode.Node.PublishOnOff | btmesh/fw/main.c:439-465 | the loop of `run` resets the counter and appends RunTrace(cnt), ending with the counter at cnt mod 256 |
| MeshNode.Node.CmdRunLvl | btmesh/fw/main.c:472-515 | the same readiness check; a jitter setting failing the uint32_t gate aborts before the counter reset or any publication; otherwise publishes count messages per LvlTrace and leaves the counter at count mod 256 |
| MeshNode.Node.PublishLevels | btmesh/fw/main.c:498-510 | the loop of `run_lvl` resets the counter and appends LvlTrace(cnt, addr), ending with the counter at cnt mod 256 |
| NdnNames.OwnerIsAddrPrefix | ndn/fw/main.c:283 | for a component without NUL bytes, memcmp over the component's length succeeds exactly when the component is a prefix of the address text |
| NdnNames.ProducerId | ndn/fw/main.c:281-285 | an id is produced only for a two-component name, and then exactly when the first component (without NUL bytes) is a prefix of the address; the id is atoi of the second component |
| NdnNames.ContentUri | ndn/fw/main.c:245 | the rebuilt name is "/<addr>/" followed by four to eleven characters of number, all digits for a non-negative id |
| NdnNames.ProducedContent | ndn/fw/main.c:240-246 | produced content has the 6-byte payload "{DATA}", the static flag, and a name beginning "/<addr>/" |
| NdnNames.ContentUriFits | ndn/fw/main.c:237-246 | for any address text of at most 23 characters and any id, the rebuilt name fits the 40-byte buffer with its NUL |
| NdnNames.EmptyOwnerMatches | ndn/fw/main.c:281-285 | a two-component name with an empty first component is answered by every node |
| NdnNames.OnlyTwoComponents | ndn/fw/main.c:281-287 | names with other than two components are never answered |
| NdnNames.CanonicalRequestEchoed | ndn/fw/main.c:277-288 | a request "/<addr>/%04d(id)" is answered with id and content named exactly as requested |
| NdnNames.LeadingZerosSameContent | ndn/fw/main.c:281-285 | leading zeros in the request's number do not change the id, hence not the content |
| NdnNames.SevenAndZeroSevenAgree | ndn/fw/main.c:245-284 | "/<addr>/7" and "/<addr>/0007" both give id 7 and content named "/<addr>/0007" |
| NdnNames.RequestUri | ndn/fw/main.c:177-179 | a request name never exceeds the snprintf size less one |
| NdnNames.ConsumerUrisLength | ndn/fw/main.c:169-201 | n rounds send n × (number of FIB entries) names, or n in single-producer mode |
| NdnNames.ConsumerUrisAt | ndn/fw/main.c:169-184 | request j of round i names FIB prefix j (or the fixed producer) with the round index i |
| NdnNames.RequestUriUncut | ndn/fw/main.c:175-179 | with a short enough prefix, the name is "<prefix>/%04d(i)" uncut and its number reads back as i |
| NdnNames.RequestUriCut | ndn/fw/main.c:177-179 | with a longer prefix the name is cut to exactly size − 1 characters of "<prefix>/%04d(i)" |
| NdnNames.FixedProducerNamesExact | ndn/fw/main.c:193-197 | the single producer's names fill 11 (nRF52) or 29 (native) characters exactly and are never cut in the 100 rounds |
| NdnNames.SingleProducerServesConsumer | ndn/fw/main.c:189-199 | the fixed producer answers each single-producer request with content named exactly as requested |
| NdnNode.Node.constructor | ndn/fw/main.c:330-334 | the node starts with its address printed, the local producer installed and not single producer |
| NdnNode.Node.CountFibEntries | ndn/fw/main.c:74-81 | following `next` from the FIB head counts exactly the entries of the list |
| NdnNode.Node.ProduceContAndCache | ndn/fw/main.c:234-275 | a failed Data decode prints the error and returns −1 without content; otherwise the static content for the id is added to the cache, or freed if the cache refuses it, and 0 is returned |
| NdnNode.Node.ProducerFunc | ndn/fw/main.c:277-288 | without an owned two-component name nothing happens and 0 is returned; otherwise the outcome of producing content for atoi of the second component |
| NdnNode.Node.ConsumerEventLoop | ndn/fw/main.c:160-204 | the consumer sends exactly ConsumerUris(FIB prefixes, 100, build), in order |
| NdnNode.Node.SendRound | ndn/fw/main.c:170-200 | one round sends one name per FIB entry in list order, or the single producer's name |
| NdnNode.Node.ReqStart | ndn/fw/main.c:206-224 | a single producer only prints its notice; any other node removes its local producer and spawns the consumer |
| NdnNode.Node.SingleProducer | ndn/fw/main.c:226-232 | `sp` sets the single-producer flag and returns 0 |

## Left out

- **Timing and randomness.** `xtimer_*` and `random_uint32_range` are not modelled. The `run` interval argument is parsed but has no modelled effect. The float delay division in the consumer is not modelled either.
- **Node identity.** `luid_get` is a platform randomness source. Its results are the raw address and key parameters of `MeshNode.Node.ProvBase`.
- **Shell arguments.** Numeric shell arguments of `run` and `run_lvl` arrive already converted by atoi, as `i32` values. `CRuntime.Atoi` itself is modelled and applied to the NDN request component.
- **Mesh stack.** Provisioning, configuration, publish and send calls are trace events; each of them is assumed to return 0. A non-zero result stops the firmware through `assert`, which is not modelled. The same holds for `bt_mesh_init` and the mesh thread in `main`.
- **Access layer.** Opcode dispatch and the minimum-length check live in the mesh stack, not in these files. `MeshNode.Node.Receive` models them with the op tables as declared.
- MeshNode.Node.Receive: the access layer's other checks are not modelled: that the application key is bound to the model, and that the destination is the element's address or a group the model subscribes to. Every message given to `Receive` is taken to have passed them.
- MeshNode.Node.Receive: for an OP_LVL_STATUS shorter than two octets, the model assumes `net_buf_simple_pull_le16` returns the octets that follow the message. The pull belongs to the mesh glue, which is not part of this model, and the glue may refuse the pull and stop the firmware instead.
- MeshNode.Node.OnProvComplete: the stack calls it during `bt_mesh_provision`, inside `_prov_base`; the model makes it a separate call after `MeshNode.Node.ProvBase`, so its notice follows the whole report instead of sitting inside it.
- MeshNode.Node.ProvSource: it records the publication address locally, as the node's own configuration server would on receiving the request; the stack's handling is not modelled.
- **Debug printing.** The "REMOVE again" block in `run` prints transmit and relay state read from the stack. It is not modelled.
- **`cfg_source` and `cfg_sink`.** These commands only call `MeshNode.Node.ProvSource` or `MeshNode.Node.ProvSink` and return 0. They have no members of their own.
- **CCN-lite internals.** The following are not modelled: name parsing into components, TLV encoding and decoding, content objects, the content store, faces and `_ccnl_interest`. Whether decoding succeeds and whether the cache accepts are method inputs. The names handed to `_ccnl_interest` are recorded.
- **FIB.** The FIB list is built outside this code, and `setup_forwarding` takes its body from include files that are not part of this model. The list is a constructor argument whose entries carry the prefix text `ccnl_prefix_to_str` would produce. That function's own truncation at the maximum prefix size is not modelled.
- NdnNames.OwnerIsAddrPrefix: memcmp reading past the 24-byte `hwaddr_str` array, for a component longer than the array, is not modelled. Bytes after the address text are read as NUL.
- NdnNames.ProducerId: atoi reads only the component's own bytes. In the source the component need not be NUL-terminated, and atoi could read further.
- **Stats command.** The NDN `stats` command only calls `print_accumulated_stats`, which is not part of this model.
- MeshNode.Node.CmdRun, MeshNode.Node.CmdRunLvl: the mesh thread runs `_op_get` and `_op_set` while the shell runs these loops. Their replies advance the same counter through `_send_status`. The contracts assume that nothing interleaves with a loop.
- **Threads.** The consumer thread is recorded as spawned by `NdnNode.Node.ReqStart`. Its body is `NdnNode.Node.ConsumerEventLoop`, run as a plain call. Concurrency with the relay is not modelled.
- **Platform setup.** The shell, message queues, the TLSF heap and the network-interface queries in `main` are not modelled.

## Findings

| source | as written | input that shows it | evidently intended | confidence | as-written member | corrected member |
|---|---|---|---|---|---|---|
| btmesh/fw/main.c:217 | the OnOff server's OP_GET entry declares minimum length 0, yet `_op_get` reads `om_data[1]` (btmesh/fw/main.c:169) | an OP_GET message with no parameters is dispatched and the handler reads past the message | a Get carries no parameters, so `_op_get` should record a value it does not read from the message, as `_op_lvl_get` records 0 (btmesh/fw/main.c:116); the minimum length stays 0 | not executed | MeshMessages.GetReadsPastMessage | MeshMessages.CorrectedTablesCoverReads |
| btmesh/fw/main.c:212 | the Level client's OP_LVL_STATUS entry declares minimum length 0, yet `_op_lvl_status` pulls a 16-bit level (btmesh/fw/main.c:145) | an OP_LVL_STATUS message with no parameters is dispatched and the handler pulls two octets the message does not hold | minimum length 2 | not executed | MeshMessages.LvlStatusReadsPastMessage | MeshMessages.CorrectedTablesCoverReads |
