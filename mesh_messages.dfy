/** The application messages of the Bluetooth Mesh experiment firmware
    (btmesh/fw/main.c): opcodes, parameter layouts, the observable events of
    one node, the op tables that route received messages to handlers, and the
    per-iteration traces of the two publish loops. Parameter layouts follow
    sections 3.2.1 (Generic OnOff) and 3.2.2 (Generic Level) of the Bluetooth
    Mesh Model Specification 1.0; the unicast range follows section 3.4.2.2 of
    the Bluetooth Mesh Profile 1.0. */
module MeshMessages {
  import opened CRuntime

  /** BT_MESH_MODEL_OP_2(b0, b1): a two-octet opcode. */
  function Op2(b0: byte, b1: byte): int {
    b0 * 0x100 + b1
  }

  const OP_GET: int := Op2(0x82, 0x01)
  const OP_SET_ACKED: int := Op2(0x82, 0x02)
  const OP_SET_UNACK: int := Op2(0x82, 0x03)
  const OP_STATUS: int := Op2(0x82, 0x04)
  const OP_LVL_GET: int := Op2(0x82, 0x05)
  const OP_LVL_SET: int := Op2(0x82, 0x06)
  const OP_LVL_SET_UNACK: int := Op2(0x82, 0x07)
  const OP_LVL_STATUS: int := Op2(0x82, 0x08)

  /** An access message: its opcode and the parameter octets that follow it. */
  datatype Message = Message(opcode: int, params: seq<byte>)

  datatype ModelId = GenOnOffSrv | GenOnOffCli | GenLevelSrv | GenLevelCli

  /** What a node does that can be observed from outside: statistics
      recorded through the stats module, messages published or sent through
      the mesh stack, and the configuration calls it makes. */
  datatype Event =
    | TxApp(stat: string, value: int)
    | RxApp(stat: string, value: int)
    | Published(model: ModelId, msg: Message)
    | Sent(msg: Message)
    | StatsClear
    | StatsEnable
    | StatsDump
    | WhitelistAdd(entry: string)
    | Provisioned(addr: u16, devKey: seq<byte>)
    | AppKeyAdded(addr: u16)
    | ModelAppBound(elemAddr: int, model: ModelId)
    | ModelPubSet(elemAddr: int, model: ModelId, pubAddr: u16)
    | ModelSubAdded(elemAddr: int, model: ModelId, group: u16)

  /** The messages published, in order. */
  function Publications(trace: seq<Event>): (msgs: seq<Message>)
    ensures |msgs| <= |trace|
  {
    if trace == [] then []
    else
      var last := trace[|trace| - 1];
      Publications(trace[..|trace| - 1]) + (if last.Published? then [last.msg] else [])
  }

  lemma {:induction false} PublicationsAppend(a: seq<Event>, b: seq<Event>)
    ensures Publications(a + b) == Publications(a) + Publications(b)
    decreases |b|
  {
    if b == [] {
      assert a + b == a;
    } else {
      var init, last := b[..|b| - 1], b[|b| - 1];
      var tail := if last.Published? then [last.msg] else [];
      assert (a + b)[..|a + b| - 1] == a + init;
      assert (a + b)[|a + b| - 1] == last;
      PublicationsAppend(a, init);
      assert Publications(a + b) == Publications(a + init) + tail;
      assert Publications(b) == Publications(init) + tail;
    }
  }

  // ---------------------------------------------------------------------
  // Little-endian 16-bit fields (net_buf_simple_add_le16 / pull_le16)

  function Le16(v: u16): (s: seq<byte>)
    ensures |s| == 2
  {
    [v % 0x100, v / 0x100]
  }

  function Le16Value(s: seq<byte>): u16
    requires |s| >= 2
  {
    (s[0] as int) + (s[1] as int) * 0x100
  }

  lemma Le16RoundTrip(v: u16)
    ensures Le16Value(Le16(v)) == v
  {
  }

  // ---------------------------------------------------------------------
  // The 8-bit transaction counter and the publish loops

  /** `_trans_id++` on a uint8_t. */
  function Inc8(t: byte): (r: byte)
    ensures r == (t + 1) % 0x100
  {
    if t == 0xff then 0 else t + 1
  }

  /** One iteration of `run`: the stat, then Generic OnOff Set Unacknowledged
      with OnOff = 0 and TID = the counter. */
  function RunStep(tid: byte): seq<Event> {
    [TxApp("pub", tid), Published(GenOnOffCli, Message(OP_SET_UNACK, [0, tid]))]
  }

  /** The events of the first n iterations of `run`, the counter starting at 0. */
  function RunTrace(n: nat): seq<Event> {
    if n == 0 then [] else RunTrace(n - 1) + RunStep((n - 1) % 0x100)
  }

  /** The k-th publication of `run` (0-based). */
  function OnOffSetUnack(k: nat): Message {
    Message(OP_SET_UNACK, [0, k % 0x100])
  }

  /** Iteration k of `run` records "pub" with k mod 256 and publishes [0, k mod 256]. */
  lemma {:induction false} RunTraceAt(n: nat, k: nat)
    requires k < n
    ensures |RunTrace(n)| == 2 * n
    ensures RunTrace(n)[2 * k] == TxApp("pub", k % 0x100)
    ensures RunTrace(n)[2 * k + 1] == Published(GenOnOffCli, OnOffSetUnack(k))
  {
    RunTraceLength(n - 1);
    if k < n - 1 {
      RunTraceAt(n - 1, k);
    }
  }

  lemma {:induction false} RunTraceLength(n: nat)
    ensures |RunTrace(n)| == 2 * n
  {
    if n > 0 {
      RunTraceLength(n - 1);
    }
  }

  /** `run` publishes exactly n messages, the k-th being OnOffSetUnack(k). */
  lemma {:induction false} RunPublications(n: nat)
    ensures Publications(RunTrace(n)) == seq(n, k requires 0 <= k => OnOffSetUnack(k))
  {
    if n > 0 {
      var t := (n - 1) % 0x100;
      RunPublications(n - 1);
      PublicationsAppend(RunTrace(n - 1), RunStep(t));
      assert RunStep(t)[..1] == [TxApp("pub", t)];
      assert Publications(RunStep(t)) == [OnOffSetUnack(n - 1)];
    }
  }

  /** The Level value of `run_lvl`: `_trans_id + _addr_node`, computed in int. */
  function LevelValue(tid: byte, addr: u16): int {
    tid + addr
  }

  /** One iteration of `run_lvl`: the stat, then Generic Level Set
      Unacknowledged with Level = the sum truncated to the 16-bit parameter
      of net_buf_simple_add_le16, and TID = the counter. */
  function LvlStep(tid: byte, addr: u16): seq<Event> {
    [ TxApp("pub_lvl", LevelValue(tid, addr)),
      Published(GenLevelCli, Message(OP_LVL_SET_UNACK, Le16(LevelValue(tid, addr) % 0x1_0000) + [tid])) ]
  }

  function LvlTrace(n: nat, addr: u16): seq<Event> {
    if n == 0 then [] else LvlTrace(n - 1, addr) + LvlStep((n - 1) % 0x100, addr)
  }

  lemma {:induction false} LvlTraceLength(n: nat, addr: u16)
    ensures |LvlTrace(n, addr)| == 2 * n
  {
    if n > 0 {
      LvlTraceLength(n - 1, addr);
    }
  }

  /** Iteration k of `run_lvl`: with a unicast-masked node address the sum
      fits the 16-bit field, so the stat and the Level field carry the same
      number, k mod 256 + addr, followed by the TID k mod 256. */
  lemma {:induction false} LvlTraceAt(n: nat, addr: u16, k: nat)
    requires addr < 0x8000 && k < n
    ensures |LvlTrace(n, addr)| == 2 * n
    ensures LvlTrace(n, addr)[2 * k] == TxApp("pub_lvl", k % 0x100 + addr)
    ensures LvlTrace(n, addr)[2 * k + 1]
         == Published(GenLevelCli, Message(OP_LVL_SET_UNACK, Le16(k % 0x100 + addr) + [k % 0x100]))
  {
    var prev := LvlTrace(n - 1, addr);
    var step := LvlStep((n - 1) % 0x100, addr);
    assert LvlTrace(n, addr) == prev + step;
    LvlTraceLength(n - 1, addr);
    if k < n - 1 {
      LvlTraceAt(n - 1, addr, k);
      assert (prev + step)[2 * k] == prev[2 * k];
      assert (prev + step)[2 * k + 1] == prev[2 * k + 1];
    } else {
      var t := k % 0x100;
      assert LevelValue(t, addr) % 0x1_0000 == t + addr;
      assert (prev + step)[2 * k] == step[0];
      assert (prev + step)[2 * k + 1] == step[1];
    }
  }

  // ---------------------------------------------------------------------
  // The status reply

  /** `_send_status`: the stat gets the counter before the increment, the
      one-octet status message the counter after it. */
  function StatusTrace(tid: byte): seq<Event> {
    [TxApp("status", tid), Sent(Message(OP_STATUS, [Inc8(tid)]))]
  }

  /** The stat value and the message octet always differ by one, modulo 256. */
  lemma StatusOffByOne(tid: byte)
    ensures StatusTrace(tid)[1].msg.params[0] == (StatusTrace(tid)[0].value + 1) % 0x100
    ensures StatusTrace(tid)[1].msg.params[0] != StatusTrace(tid)[0].value
  {
  }

  // ---------------------------------------------------------------------
  // Op tables and handlers

  datatype Handler =
    | HLvlGet | HLvlSet | HLvlSetUnack | HLvlStatus
    | HGet | HSet | HSetUnack | HStatus
    | HGetNoParams  // `_op_get` as evidently intended: a Get carries no parameters

  /** { opcode, minimum parameter length, handler }: the access layer drops
      a message whose parameters are shorter than the minimum. */
  datatype OpEntry = OpEntry(opcode: int, minLen: nat, handler: Handler)

  const LVL_SVR_OPS: seq<OpEntry> := [
    OpEntry(OP_LVL_GET, 0, HLvlGet),
    OpEntry(OP_LVL_SET, 3, HLvlSet),
    OpEntry(OP_LVL_SET_UNACK, 3, HLvlSetUnack)
  ]

  const BTN_OPS: seq<OpEntry> := [OpEntry(Op2(0x82, 0x04), 1, HStatus)]

  /** The tables as declared, with a minimum length of 0 for OP_LVL_STATUS and OP_GET. */
  const LVL_CLI_OPS_AS_WRITTEN: seq<OpEntry> := [OpEntry(OP_LVL_STATUS, 0, HLvlStatus)]

  const LED_OPS_AS_WRITTEN: seq<OpEntry> := [
    OpEntry(Op2(0x82, 0x01), 0, HGet),
    OpEntry(Op2(0x82, 0x02), 2, HSet),
    OpEntry(Op2(0x82, 0x03), 2, HSetUnack)
  ]

  /** The corrected tables: each minimum length covers what its handler
      reads. A Level Status always carries the 2-octet level, so its minimum
      becomes 2; a Get has no parameters, so its handler stops reading one. */
  const LVL_CLI_OPS: seq<OpEntry> := [OpEntry(OP_LVL_STATUS, 2, HLvlStatus)]

  const LED_OPS: seq<OpEntry> := [
    OpEntry(Op2(0x82, 0x01), 0, HGetNoParams),
    OpEntry(Op2(0x82, 0x02), 2, HSet),
    OpEntry(Op2(0x82, 0x03), 2, HSetUnack)
  ]

  /** How many leading parameter octets a handler reads: om_data[1] is two,
      om_data[0] one, a pull_le16 two. */
  function ReadExtent(h: Handler): (n: nat)
    ensures n <= 2
  {
    match h
    case HLvlGet => 0
    case HLvlSet => 2
    case HLvlSetUnack => 2
    case HLvlStatus => 2
    case HGet => 2
    case HSet => 2
    case HSetUnack => 2
    case HStatus => 1
    case HGetNoParams => 0
  }

  predicate CoversReads(table: seq<OpEntry>) {
    forall i :: 0 <= i < |table| ==> ReadExtent(table[i].handler) <= table[i].minLen
  }

  /** The first entry of the table for an opcode. */
  function FindOp(table: seq<OpEntry>, op: int): (r: Option<OpEntry>)
    ensures r.Some? ==> r.value in table && r.value.opcode == op
    ensures r.None? ==> forall i :: 0 <= i < |table| ==> table[i].opcode != op
  {
    if table == [] then None
    else if table[0].opcode == op then Some(table[0])
    else FindOp(table[1..], op)
  }

  /** The access layer hands the message to a handler. */
  predicate Admits(table: seq<OpEntry>, op: int, params: seq<byte>) {
    FindOp(table, op).Some? && |params| >= FindOp(table, op).value.minLen
  }

  /** Whenever a table that covers its handlers' reads admits a message,
      every octet the handler reads is part of the message. */
  lemma AdmittedReadsInBounds(table: seq<OpEntry>, op: int, params: seq<byte>)
    requires CoversReads(table) && Admits(table, op, params)
    ensures ReadExtent(FindOp(table, op).value.handler) <= |params|
  {
    var e := FindOp(table, op).value;
    var i :| 0 <= i < |table| && table[i] == e;
  }

  /** With the corrected tables every handler stays inside the message, and
      a parameterless Get is still answered. */
  lemma CorrectedTablesCoverReads()
    ensures CoversReads(LED_OPS) && CoversReads(LVL_SVR_OPS)
    ensures CoversReads(BTN_OPS) && CoversReads(LVL_CLI_OPS)
    ensures Admits(LED_OPS, OP_GET, []) && FindOp(LED_OPS, OP_GET).value.handler == HGetNoParams
  {
    assert LED_OPS[0].opcode == OP_GET;
  }

  /** As declared, OP_GET is admitted with no parameters while its handler
      reads octet 1: what it records is the second octet after the message. */
  lemma GetReadsPastMessage(past: seq<byte>, tid: byte)
    requires |past| >= 2
    ensures Admits(LED_OPS_AS_WRITTEN, OP_GET, [])
    ensures FindOp(LED_OPS_AS_WRITTEN, OP_GET).value.handler == HGet
    ensures ReadExtent(HGet) > 0 && !CoversReads(LED_OPS_AS_WRITTEN)
    ensures HandlerEvents(HGet, [] + past, tid)[0] == RxApp("get", past[1])
  {
    assert LED_OPS_AS_WRITTEN[0].opcode == OP_GET;
  }

  /** As declared, OP_LVL_STATUS is admitted with no parameters while its
      handler pulls two octets the message does not hold. Taking the pull to
      read on past the end of the message, the level it records is made of
      the octets after it. */
  lemma LvlStatusReadsPastMessage(past: seq<byte>, tid: byte)
    requires |past| >= 2
    ensures Admits(LVL_CLI_OPS_AS_WRITTEN, OP_LVL_STATUS, [])
    ensures FindOp(LVL_CLI_OPS_AS_WRITTEN, OP_LVL_STATUS).value.handler == HLvlStatus
    ensures ReadExtent(HLvlStatus) > 0 && !CoversReads(LVL_CLI_OPS_AS_WRITTEN)
    ensures HandlerEvents(HLvlStatus, [] + past, tid) == [RxApp("lvl_status", Le16Value(past))]
  {
  }

  /** What a handler records, given the octets it reads from (the message's
      parameters, then whatever follows them) and the counter before it
      runs. Every handler records one received stat; OP_GET and OP_SET also
      send the status reply. */
  function HandlerEvents(h: Handler, params: seq<byte>, tid: byte): (r: seq<Event>)
    requires ReadExtent(h) <= |params|
    ensures |r| >= 1 && r[0].RxApp?
    ensures (h == HGet || h == HSet || h == HGetNoParams) ==> r[1..] == StatusTrace(tid)
    ensures !(h == HGet || h == HSet || h == HGetNoParams) ==> |r| == 1
  {
    match h
    case HLvlGet => [RxApp("lvl_get", 0)]
    case HLvlSet => [RxApp("lvl_set", Le16Value(params))]
    case HLvlSetUnack => [RxApp("lvl_set_unack", Le16Value(params))]
    case HLvlStatus => [RxApp("lvl_status", Le16Value(params))]
    case HGet => [RxApp("get", params[1])] + StatusTrace(tid)
    case HSet => [RxApp("set", params[1])] + StatusTrace(tid)
    case HSetUnack => [RxApp("set_unack", params[1])]
    case HStatus => [RxApp("stats", params[0])]
    case HGetNoParams => [RxApp("get", 0)] + StatusTrace(tid)
  }

  /** The counter after a handler: only those that reply advance it. */
  function HandlerTid(h: Handler, tid: byte): byte {
    if h == HGet || h == HSet || h == HGetNoParams then Inc8(tid) else tid
  }

  /** Once the message is long enough for the handler, what follows it makes
      no difference to what is recorded. */
  lemma HandlerEventsWithinMessage(h: Handler, params: seq<byte>, past: seq<byte>, tid: byte)
    requires ReadExtent(h) <= |params|
    ensures HandlerEvents(h, params + past, tid) == HandlerEvents(h, params, tid)
  {
    if ReadExtent(h) == 2 {
      assert (params + past)[..2] == params[..2];
    }
  }

  /** A `run` publication reaching a Generic OnOff server is admitted, and the
      server records under "set_unack" the value the sender recorded under "pub". */
  lemma OnOffStatsCorrelate(n: nat, k: nat, tid: byte)
    requires k < n
    ensures |RunTrace(n)| == 2 * n && RunTrace(n)[2 * k].TxApp? && RunTrace(n)[2 * k + 1].Published?
    ensures var m := RunTrace(n)[2 * k + 1].msg;
      && Admits(LED_OPS_AS_WRITTEN, m.opcode, m.params)
      && FindOp(LED_OPS_AS_WRITTEN, m.opcode).value.handler == HSetUnack
      && HandlerEvents(HSetUnack, m.params, tid) == [RxApp("set_unack", RunTrace(n)[2 * k].value)]
  {
    RunTraceAt(n, k);
    assert LED_OPS_AS_WRITTEN[2].opcode == OP_SET_UNACK;
  }

  /** A `run_lvl` publication reaching a Generic Level server is admitted, and
      the server records under "lvl_set_unack" the value the sender recorded
      under "pub_lvl". */
  lemma LevelStatsCorrelate(n: nat, addr: u16, k: nat, tid: byte)
    requires addr < 0x8000 && k < n
    ensures |LvlTrace(n, addr)| == 2 * n
    ensures LvlTrace(n, addr)[2 * k].TxApp? && LvlTrace(n, addr)[2 * k + 1].Published?
    ensures var m := LvlTrace(n, addr)[2 * k + 1].msg;
      && Admits(LVL_SVR_OPS, m.opcode, m.params)
      && FindOp(LVL_SVR_OPS, m.opcode).value.handler == HLvlSetUnack
      && HandlerEvents(HLvlSetUnack, m.params, tid) == [RxApp("lvl_set_unack", LvlTrace(n, addr)[2 * k].value)]
  {
    LvlTraceAt(n, addr, k);
    Le16RoundTrip(k % 0x100 + addr);
    assert LVL_SVR_OPS[2].opcode == OP_LVL_SET_UNACK;
  }

  // ---------------------------------------------------------------------
  // Node and element addresses

  const ADDR_UNASSIGNED: u16 := 0x0000

  /** A unicast address: 0x0001 to 0x7fff. */
  predicate IsUnicast(a: int) {
    0x0001 <= a <= 0x7fff
  }

  /** `_addr_node &= ~0x8000`: clear bit 15 of the 16-bit address. */
  function MaskUnicast(raw: u16): (a: u16)
    ensures a < 0x8000
    ensures a == raw % 0x8000
  {
    if raw >= 0x8000 then raw - 0x8000 else raw
  }

  /** Element addresses: the root element at the node address, the server
      (ADDR_SERVER) one above it, the client (ADDR_CLIENT) two above. */
  function ElementAddr(node: u16, index: nat): int
    requires index < 3
  {
    node + index
  }

  /** The mask keeps the low 15 bits and is idempotent. */
  lemma MaskKeepsLowBits(raw: u16)
    ensures MaskUnicast(MaskUnicast(raw)) == MaskUnicast(raw)
    ensures raw < 0x8000 ==> MaskUnicast(raw) == raw
    ensures raw >= 0x8000 ==> MaskUnicast(raw) == raw - 0x8000
  {
  }

  /** The three element addresses are all unicast exactly when the masked
      address lies in 0x0001..0x7ffd; the mask alone admits 0x0000 (the
      unassigned address) and 0x7ffe..0x7fff, whose upper elements leave the
      unicast range. */
  lemma ElementsUnicastIff(raw: u16)
    ensures var a := MaskUnicast(raw);
      (IsUnicast(ElementAddr(a, 0)) && IsUnicast(ElementAddr(a, 1)) && IsUnicast(ElementAddr(a, 2)))
      <==> 1 <= a <= 0x7ffd
    ensures MaskUnicast(0x8000) == ADDR_UNASSIGNED
    ensures ElementAddr(MaskUnicast(0xffff), 2) == 0x8001
  {
  }

  // ---------------------------------------------------------------------
  // Key text: 16 octets as "%02x:" fifteen times, then "%02x"

  function KeyGroups(s: seq<byte>): string {
    if s == [] then [] else KeyGroups(s[..|s| - 1]) + Hex2(s[|s| - 1]) + ":"
  }

  function KeyText(key: seq<byte>): string
    requires |key| == 16
  {
    KeyGroups(key[..15]) + Hex2(key[15])
  }

  lemma {:induction false} KeyGroupsLength(s: seq<byte>)
    ensures |KeyGroups(s)| == 3 * |s|
    decreases |s|
  {
    if s != [] {
      KeyGroupsLength(s[..|s| - 1]);
    }
  }

  lemma {:induction false} KeyGroupsAt(s: seq<byte>, j: nat)
    requires j < |s|
    ensures |KeyGroups(s)| == 3 * |s|
    ensures KeyGroups(s)[3 * j..3 * j + 2] == Hex2(s[j])
    ensures KeyGroups(s)[3 * j + 2] == ':'
    decreases |s|
  {
    var init := s[..|s| - 1];
    KeyGroupsLength(init);
    KeyGroupsLength(s);
    if j < |s| - 1 {
      KeyGroupsAt(init, j);
      assert KeyGroups(s)[..3 * |init|] == KeyGroups(init);
      assert init[j] == s[j];
    }
  }

  /** The printed key is 47 characters: each octet's two lower-case hex
      digits at 3j, separated by colons at 3j + 2. */
  lemma {:induction false} KeyTextShape(key: seq<byte>)
    requires |key| == 16
    ensures |KeyText(key)| == 47
    ensures forall j :: 0 <= j < 16 ==> KeyText(key)[3 * j..3 * j + 2] == Hex2(key[j])
    ensures forall j :: 0 <= j < 15 ==> KeyText(key)[3 * j + 2] == ':'
  {
    var g := KeyGroups(key[..15]);
    KeyGroupsLength(key[..15]);
    forall j | 0 <= j < 16
      ensures KeyText(key)[3 * j..3 * j + 2] == Hex2(key[j])
    {
      if j < 15 {
        KeyGroupsAt(key[..15], j);
        assert KeyText(key)[3 * j..3 * j + 2] == g[3 * j..3 * j + 2];
      } else {
        assert KeyText(key)[45..47] == Hex2(key[15]);
      }
    }
    forall j | 0 <= j < 15
      ensures KeyText(key)[3 * j + 2] == ':'
    {
      KeyGroupsAt(key[..15], j);
    }
  }

  /** Reads a printed key back: 47 characters, colons in the separator
      positions, two lower-case hex digits in each group. */
  function ParseKeyText(s: string): Option<seq<byte>> {
    if |s| == 47
       && (forall j :: 0 <= j < 15 ==> s[3 * j + 2] == ':')
       && (forall j :: 0 <= j < 16 ==> ParseHex2(s[3 * j..3 * j + 2]).Some?)
    then Some(seq(16, j requires 0 <= j < 16 => ParseHex2(s[3 * j..3 * j + 2]).value))
    else None
  }

  /** Reading the printed key gives the key back. */
  lemma KeyTextRoundTrip(key: seq<byte>)
    requires |key| == 16
    ensures ParseKeyText(KeyText(key)) == Some(key)
  {
    var s := KeyText(key);
    KeyTextShape(key);
    forall j | 0 <= j < 16
      ensures ParseHex2(s[3 * j..3 * j + 2]).Some? && ParseHex2(s[3 * j..3 * j + 2]).value == key[j]
    {
      ParseHex2OfHex2(key[j]);
    }
    assert |s| == 47;
    assert forall j :: 0 <= j < 15 ==> s[3 * j + 2] == ':';
    assert forall j :: 0 <= j < 16 ==> ParseHex2(s[3 * j..3 * j + 2]).Some?;
    assert ParseKeyText(s).value == key;
  }

  /** Every text the parser accepts is the printed form of what it returns. */
  lemma ParsedKeyTextPrints(s: string)
    requires ParseKeyText(s).Some?
    ensures |ParseKeyText(s).value| == 16 && KeyText(ParseKeyText(s).value) == s
  {
    var key := ParseKeyText(s).value;
    var t := KeyText(key);
    KeyTextShape(key);
    forall i | 0 <= i < 47
      ensures t[i] == s[i]
    {
      var j := i / 3;
      if i % 3 == 2 {
        assert t[3 * j + 2] == ':';
      } else {
        Hex2OfParseHex2(s[3 * j..3 * j + 2]);
        assert t[3 * j..3 * j + 2] == Hex2(key[j]) == s[3 * j..3 * j + 2];
        assert t[i] == t[3 * j..3 * j + 2][i % 3];
        assert s[i] == s[3 * j..3 * j + 2][i % 3];
      }
    }
  }
}
