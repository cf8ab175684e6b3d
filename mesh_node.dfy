/** One node of the Bluetooth Mesh experiment (btmesh/fw/main.c): its global
    state (transaction counter, provisioning flag, node address, device key,
    the client models' publication addresses) and the shell commands and
    mesh callbacks that change it. What the node hands to the mesh stack and
    to the stats module is appended to `events`; what it prints is appended
    to `console`. */
module MeshNode {
  import opened CRuntime
  import opened MeshMessages

  const EXP_INTERVAL: u32 := 1_000_000   // 1 s, in microseconds
  const EXP_JITTER: u32 := 500_000       // 0.5 s
  const EXP_REPEAT: u32 := 100

  const PROV_ADDR_GROUP0: u16 := 0xc001

  const KEY_NET: seq<byte> := [0x23, 0x42, 0x17, 0xaf, 0x23, 0x42, 0x17, 0xaf,
                               0x23, 0x42, 0x17, 0xaf, 0x23, 0x42, 0x17, 0xaf]
  const KEY_APP: seq<byte> := [0x19, 0x28, 0x37, 0x46, 0x19, 0x28, 0x37, 0x46,
                               0x19, 0x28, 0x37, 0x46, 0x19, 0x28, 0x37, 0x46]

  const ERR_NOT_PROVISIONED: string := "err: node or element not provisioned\n"
  const EXP_DONE: string := "EXP DONE\n"

  /** How a shell command ends: it returns a code, or a C `assert` stops the firmware. */
  datatype CmdResult = Exit(code: int) | Abort

  /** The numeric shell argument k (atoi of argv[k + 1]) as uint32_t, or the
      default when the command line is shorter. */
  function ArgOr(args: seq<i32>, k: nat, default: u32): u32 {
    if k < |args| then ToU32(args[k]) else default
  }

  // ---------------------------------------------------------------------
  // The jitter bounds of run_lvl, in uint32_t arithmetic

  function JitterMin(itvl: u32, jttr: u32): u32 {
    ToU32(itvl as int - jttr as int)
  }

  function JitterMax(itvl: u32, jttr: u32): u32 {
    ToU32(itvl as int + jttr as int)
  }

  /** `assert(min < max)`: never passes a zero jitter, always passes a
      jitter up to the interval whose bounds do not wrap. */
  function JitterGate(itvl: u32, jttr: u32): (g: bool)
    ensures jttr == 0 ==> !g
    ensures 0 < jttr <= itvl && itvl as int + jttr as int < U32_MOD ==> g
  {
    JitterMin(itvl, jttr) < JitterMax(itvl, jttr)
  }

  /** Exactly which settings pass the gate: a non-zero jitter no larger than
      the interval with no overflow of the sum, and also every jitter above
      2^31 whose bounds wrap so that the wrapped minimum is still below the
      wrapped maximum. */
  lemma JitterGateIff(itvl: u32, jttr: u32)
    ensures JitterGate(itvl, jttr) <==>
      || (0 < jttr <= itvl && itvl + jttr < U32_MOD)
      || (jttr > 0x8000_0000 && (itvl >= jttr || itvl + jttr < U32_MOD))
  {
    var lo := if itvl >= jttr then itvl - jttr else itvl - jttr + U32_MOD;
    var hi := if itvl + jttr < U32_MOD then itvl + jttr else itvl + jttr - U32_MOD;
    assert JitterMin(itvl, jttr) == lo;
    assert JitterMax(itvl, jttr) == hi;
  }

  /** The defaults pass; a zero jitter fails; a jitter equal to the interval
      passes (the delay may then be 0); a jitter larger than the interval can
      pass through wrap-around. */
  lemma JitterGateCases(itvl: u32)
    ensures JitterGate(EXP_INTERVAL, EXP_JITTER)
    ensures !JitterGate(itvl, 0)
    ensures 0 < itvl < 0x8000_0000 ==> JitterGate(itvl, itvl)
    ensures JitterGate(0, 0x8000_0001) && JitterMin(0, 0x8000_0001) == 0x7fff_ffff
    ensures JitterGate(1000, 500) && JitterGate(1000, 1000) && JitterMin(1000, 1000) == 0
  {
    JitterGateIff(1000, 500);
    JitterGateIff(1000, 1000);
    JitterGateIff(EXP_INTERVAL, EXP_JITTER);
    JitterGateIff(itvl, 0);
    JitterGateIff(itvl, itvl);
    JitterGateIff(0, 0x8000_0001);
  }

  // ---------------------------------------------------------------------
  // Printing

  /** `_dump_key`: fifteen "%02x:" groups, then one "%02x". */
  method DumpKey(key: seq<byte>) returns (text: string)
    requires |key| == 16
    ensures text == KeyText(key)
    ensures |text| == 47
  {
    text := [];
    for i := 0 to 15
      invariant text == KeyGroups(key[..i])
    {
      assert key[..i + 1][..i] == key[..i];
      text := text + Hex2(key[i]) + ":";
    }
    text := text + Hex2(key[15]);
    KeyTextShape(key);
  }

  /** What `_prov_base` prints for a node address and device key. */
  function ProvReport(addr: u16, devKey: seq<byte>): string
    requires |devKey| == 16
  {
    "Provisioning the base device:\n"
    + "  node addr: " + Dec(addr) + " (0x" + Hex4(addr) + ")\n"
    + "  IV_INDEX: 0 NET_IDX: 0 APP_IDX: 0"
    + "\n  dev key: " + KeyText(devKey)
    + "\n  net key: " + KeyText(KEY_NET)
    + "\n  app key: " + KeyText(KEY_APP)
    + "\n"
    + "Base provisioning done\n\n"
  }

  // ---------------------------------------------------------------------
  // Receiving: the elements and the models' op tables

  /** The elements that carry application models: the server element
      (Generic OnOff and Level servers) and the client element (their clients). */
  datatype Element = ServerElement | ClientElement

  /** The op tables of an element's models, as the firmware declares them. */
  function ElementOps(e: Element): seq<OpEntry> {
    match e
    case ServerElement => LED_OPS_AS_WRITTEN + LVL_SVR_OPS
    case ClientElement => BTN_OPS + LVL_CLI_OPS_AS_WRITTEN
  }

  /** The same tables with the corrected OP_GET and OP_LVL_STATUS entries. */
  function CorrectedElementOps(e: Element): seq<OpEntry> {
    match e
    case ServerElement => LED_OPS + LVL_SVR_OPS
    case ClientElement => BTN_OPS + LVL_CLI_OPS
  }

  /** On both elements the declared tables let a handler read past a
      message with no parameters (OP_GET on the server, OP_LVL_STATUS on the
      client), while the corrected tables keep every handler inside the
      message; no handler reads more than two octets. */
  lemma DeclaredTablesReadPastMessage(e: Element)
    ensures var op := if e.ServerElement? then OP_GET else OP_LVL_STATUS;
      && Admits(ElementOps(e), op, [])
      && ReadExtent(FindOp(ElementOps(e), op).value.handler) == 2
    ensures !CoversReads(ElementOps(e))
    ensures CoversReads(CorrectedElementOps(e))
  {
    CorrectedTablesCoverReads();
    match e
    case ServerElement =>
      assert ElementOps(e)[0] == OpEntry(OP_GET, 0, HGet);
    case ClientElement =>
      assert ElementOps(e)[1] == OpEntry(OP_LVL_STATUS, 0, HLvlStatus);
      assert ElementOps(e)[0].opcode != OP_LVL_STATUS;
  }

  const SOURCE_REPORT: string := "Provisioning the SOURCE element:\nSOURCE element provisioned\n"
  const SINK_REPORT: string := "Provisioning the SINK element:\nSINK element provisioned\n"

  /** What `_prov_source` asks of the mesh stack and the stats module, the
      client element being at address elem. */
  function SourceConfig(elem: int): (r: seq<Event>)
    ensures |r| == 6 && r[4..] == [StatsClear, StatsEnable]
  {
    [ModelAppBound(elem, GenOnOffCli), ModelAppBound(elem, GenLevelCli),
     ModelPubSet(elem, GenOnOffCli, PROV_ADDR_GROUP0), ModelPubSet(elem, GenLevelCli, PROV_ADDR_GROUP0),
     StatsClear, StatsEnable]
  }

  /** What `_prov_sink` asks of the mesh stack and the stats module, the
      server element being at address elem. */
  function SinkConfig(elem: int): (r: seq<Event>)
    ensures |r| == 6 && r[4..] == [StatsClear, StatsEnable]
  {
    [ModelAppBound(elem, GenOnOffSrv), ModelAppBound(elem, GenLevelSrv),
     ModelSubAdded(elem, GenOnOffSrv, PROV_ADDR_GROUP0), ModelSubAdded(elem, GenLevelSrv, PROV_ADDR_GROUP0),
     StatsClear, StatsEnable]
  }

  /** The server model a client model talks to. */
  function ServerOf(m: ModelId): ModelId {
    match m
    case GenOnOffCli => GenOnOffSrv
    case GenLevelCli => GenLevelSrv
    case _ => m
  }

  /** Provisioning one node as source and another as sink connects them:
      every model the source publishes from has the application key bound
      and publishes to a group its server counterpart on the sink is
      subscribed to, and every subscribed sink model has the key bound. */
  lemma SourceReachesSink(src: int, snk: int)
    ensures forall e :: e in SourceConfig(src) && e.ModelPubSet? ==>
      && ModelAppBound(src, e.model) in SourceConfig(src)
      && ModelSubAdded(snk, ServerOf(e.model), e.pubAddr) in SinkConfig(snk)
    ensures forall e :: e in SinkConfig(snk) && e.ModelSubAdded? ==>
      ModelAppBound(snk, e.model) in SinkConfig(snk)
    ensures ModelPubSet(src, GenOnOffCli, PROV_ADDR_GROUP0) in SourceConfig(src)
    ensures ModelPubSet(src, GenLevelCli, PROV_ADDR_GROUP0) in SourceConfig(src)
  {
  }

  /** The 8-bit counter incremented once per iteration stays the iteration count modulo 256. */
  lemma CounterStep(i: nat)
    ensures Inc8(i % 0x100) == (i + 1) % 0x100
  {
  }

  class Node {
    var transId: byte
    var isProvisioned: bool
    var addrNode: u16
    var keyDev: seq<byte>
    var onOffCliPub: u16    // publication address of the Generic OnOff client
    var lvlCliPub: u16      // publication address of the Generic Level client
    var events: seq<Event>
    var console: string

    ghost predicate Valid()
      reads this
    {
      addrNode < 0x8000 && |keyDev| == 16
    }

    /** The zero-initialised static state before `main` runs. */
    constructor ()
      ensures Valid()
      ensures transId == 0 && !isProvisioned && addrNode == 0 && keyDev == seq(16, _ => 0)
      ensures onOffCliPub == ADDR_UNASSIGNED && lvlCliPub == ADDR_UNASSIGNED
      ensures events == [] && console == []
    {
      transId := 0;
      isProvisioned := false;
      addrNode := 0;
      keyDev := seq(16, _ => 0);
      onOffCliPub := ADDR_UNASSIGNED;
      lvlCliPub := ADDR_UNASSIGNED;
      events := [];
      console := [];
    }

    function ServerAddr(): int
      reads this
    {
      ElementAddr(addrNode, 1)
    }

    function ClientAddr(): int
      reads this
    {
      ElementAddr(addrNode, 2)
    }

    /** The readiness gate of both run commands. */
    predicate Ready(pubAddr: u16)
      reads this
    {
      isProvisioned && pubAddr != ADDR_UNASSIGNED
    }

    /** `_on_prov_complete`, called back by the mesh stack. */
    method OnProvComplete()
      modifies this`isProvisioned, this`console
      ensures isProvisioned
      ensures console == old(console) + "Node provisioning complete!\n"
    {
      isProvisioned := true;
      console := console + "Node provisioning complete!\n";
    }

    /** `_prov_base`: take the identity source's address and key, clear bit
        15 of the address, print the provisioning data and provision the
        node with it. */
    method ProvBase(rawAddr: u16, rawKey: seq<byte>)
      requires Valid() && |rawKey| == 16
      modifies this`addrNode, this`keyDev, this`events, this`console
      ensures Valid()
      ensures addrNode == MaskUnicast(rawAddr) && keyDev == rawKey
      ensures console == old(console) + ProvReport(addrNode, keyDev)
      ensures events == old(events) + [Provisioned(addrNode, keyDev), AppKeyAdded(addrNode)]
    {
      keyDev := rawKey;
      addrNode := MaskUnicast(rawAddr);
      var dev := DumpKey(keyDev);
      var net := DumpKey(KEY_NET);
      var app := DumpKey(KEY_APP);
      var report := "Provisioning the base device:\n"
        + "  node addr: " + Dec(addrNode) + " (0x" + Hex4(addrNode) + ")\n"
        + "  IV_INDEX: 0 NET_IDX: 0 APP_IDX: 0"
        + "\n  dev key: " + dev
        + "\n  net key: " + net
        + "\n  app key: " + app
        + "\n"
        + "Base provisioning done\n\n";
      assert report == ProvReport(addrNode, keyDev);
      console := console + report;
      events := events + [Provisioned(addrNode, keyDev), AppKeyAdded(addrNode)];
    }

    /** `_prov_source` (shell command `cfg_source`): bind the application key
        to both client models, point their publications at the group, then
        clear and enable the stats. */
    method ProvSource()
      requires Valid()
      modifies this`onOffCliPub, this`lvlCliPub, this`events, this`console
      ensures Valid()
      ensures onOffCliPub == PROV_ADDR_GROUP0 && lvlCliPub == PROV_ADDR_GROUP0
      ensures events == old(events) + SourceConfig(ClientAddr())
      ensures console == old(console) + SOURCE_REPORT
    {
      events := events + SourceConfig(ClientAddr());
      onOffCliPub := PROV_ADDR_GROUP0;
      lvlCliPub := PROV_ADDR_GROUP0;
      console := console + SOURCE_REPORT;
    }

    /** `_prov_sink` (shell command `cfg_sink`): bind the application key to
        both server models, subscribe them to the group, then clear and
        enable the stats. */
    method ProvSink()
      requires Valid()
      modifies this`events, this`console
      ensures events == old(events) + SinkConfig(ServerAddr())
      ensures console == old(console) + SINK_REPORT
    {
      events := events + SinkConfig(ServerAddr());
      console := console + SINK_REPORT;
    }

    /** Shell command `clr`. */
    method CmdClear() returns (r: int)
      modifies this`events
      ensures r == 0 && events == old(events) + [StatsClear]
    {
      events := events + [StatsClear];
      r := 0;
    }

    /** Shell command `stats`. */
    method CmdStats() returns (r: int)
      modifies this`events
      ensures r == 0 && events == old(events) + [StatsDump]
    {
      events := events + [StatsDump];
      r := 0;
    }

    /** Shell command `wl <addr>`: without the argument the C assert stops the firmware. */
    method CmdWl(args: seq<string>) returns (r: CmdResult)
      modifies this`events, this`console
      ensures |args| == 0 ==>
        r == Abort && events == old(events)
        && console == old(console) + "err: whitelist command missing parameter\n"
      ensures |args| > 0 ==>
        r == Exit(0) && events == old(events) + [WhitelistAdd(args[0])]
        && console == old(console) + "whitelist: added " + args[0] + "\n"
    {
      if |args| < 1 {
        console := console + "err: whitelist command missing parameter\n";
        return Abort;
      }
      events := events + [WhitelistAdd(args[0])];
      console := console + "whitelist: added " + args[0] + "\n";
      r := Exit(0);
    }

    /** `_send_status`: record the counter, increment it, send the new value. */
    method SendStatus()
      modifies this`events, this`transId
      ensures events == old(events) + StatusTrace(old(transId))
      ensures transId == Inc8(old(transId))
    {
      events := events + [TxApp("status", transId)];
      transId := Inc8(transId);
      events := events + [Sent(Message(OP_STATUS, [transId]))];
    }

    /** A message for one of this node's elements: the access layer finds the
        opcode in the element's declared op tables, drops the message if its
        parameters are shorter than the entry's minimum, and otherwise runs
        the handler. A handler reads from the buffer, so a message shorter
        than what it reads makes it read the octets that follow the message
        in memory, given as past. */
    method Receive(elem: Element, op: int, params: seq<byte>, past: seq<byte>) returns (handled: bool)
      requires Valid() && |past| >= 2
      modifies this`events, this`transId
      ensures Valid()
      ensures handled == Admits(ElementOps(elem), op, params)
      ensures handled ==>
        var h := FindOp(ElementOps(elem), op).value.handler;
        && events == old(events) + HandlerEvents(h, params + past, old(transId))
        && transId == HandlerTid(h, old(transId))
        && (ReadExtent(h) <= |params| ==> events == old(events) + HandlerEvents(h, params, old(transId)))
      ensures !handled ==> events == old(events) && transId == old(transId)
    {
      var entry := FindOp(ElementOps(elem), op);
      if entry.None? || |params| < entry.value.minLen {
        return false;
      }
      var data := params + past;
      var h := entry.value.handler;
      if ReadExtent(h) <= |params| {
        HandlerEventsWithinMessage(h, params, past, transId);
      }
      handled := true;
      match h
      case HLvlGet =>
        events := events + [RxApp("lvl_get", 0)];
      case HLvlSet =>
        events := events + [RxApp("lvl_set", Le16Value(data))];
      case HLvlSetUnack =>
        events := events + [RxApp("lvl_set_unack", Le16Value(data))];
      case HLvlStatus =>
        events := events + [RxApp("lvl_status", Le16Value(data))];
      case HGet =>
        events := events + [RxApp("get", data[1])];
        SendStatus();
      case HSet =>
        events := events + [RxApp("set", data[1])];
        SendStatus();
      case HSetUnack =>
        events := events + [RxApp("set_unack", data[1])];
      case HStatus =>
        events := events + [RxApp("stats", data[0])];
      case HGetNoParams =>
        events := events + [RxApp("get", 0)];
        SendStatus();
    }

    /** Shell command `run [cnt [itvl]]`: publish cnt Generic OnOff Set
        Unacknowledged messages, the counter reset to 0 first. */
    method CmdRun(args: seq<i32>) returns (r: int)
      requires Valid()
      modifies this`events, this`transId, this`console
      ensures Valid()
      ensures !Ready(onOffCliPub) ==>
        r == 1 && events == old(events) && transId == old(transId)
        && console == old(console) + ERR_NOT_PROVISIONED
      ensures Ready(onOffCliPub) ==>
        var cnt := ArgOr(args, 0, EXP_REPEAT);
        && r == 0
        && events == old(events) + RunTrace(cnt)
        && transId == cnt % 0x100
        && console == old(console) + EXP_DONE
    {
      var itvl := EXP_INTERVAL;
      var cnt := EXP_REPEAT;
      if !isProvisioned || onOffCliPub == ADDR_UNASSIGNED {
        console := console + ERR_NOT_PROVISIONED;
        return 1;
      }
      if |args| >= 1 {
        cnt := ToU32(args[0]);
      }
      if |args| >= 2 {
        itvl := ToU32(args[1]);
      }
      PublishOnOff(cnt);
      console := console + EXP_DONE;
      r := 0;
    }

    /** The loop of `run`: reset the counter, then per iteration record the
        stat and publish the OnOff message; the periodic wake-up between
        publications is not modelled. */
    method PublishOnOff(cnt: u32)
      modifies this`events, this`transId
      ensures events == old(events) + RunTrace(cnt)
      ensures transId == cnt % 0x100
    {
      transId := 0;
      var i: nat := 0;
      while i < cnt
        invariant i <= cnt
        invariant transId == i % 0x100
        invariant events == old(events) + RunTrace(i)
      {
        assert RunTrace(i + 1) == RunTrace(i) + RunStep(transId);
        events := events + RunStep(transId);
        CounterStep(i);
        transId := Inc8(transId);
        i := i + 1;
      }
    }

    /** Shell command `run_lvl [cnt [itvl [jttr]]]`: check the jitter bounds,
        then publish cnt Generic Level Set Unacknowledged messages, the
        counter reset to 0 first. */
    method CmdRunLvl(args: seq<i32>) returns (r: CmdResult)
      requires Valid()
      modifies this`events, this`transId, this`console
      ensures Valid()
      ensures !Ready(lvlCliPub) ==>
        r == Exit(1) && events == old(events) && transId == old(transId)
        && console == old(console) + ERR_NOT_PROVISIONED
      ensures Ready(lvlCliPub) && !JitterGate(ArgOr(args, 1, EXP_INTERVAL), ArgOr(args, 2, EXP_JITTER)) ==>
        r == Abort && events == old(events) && transId == old(transId) && console == old(console)
      ensures Ready(lvlCliPub) && JitterGate(ArgOr(args, 1, EXP_INTERVAL), ArgOr(args, 2, EXP_JITTER)) ==>
        var cnt := ArgOr(args, 0, EXP_REPEAT);
        && r == Exit(0)
        && events == old(events) + LvlTrace(cnt, addrNode)
        && transId == cnt % 0x100
        && console == old(console) + EXP_DONE
    {
      var itvl := EXP_INTERVAL;
      var jttr := EXP_JITTER;
      var cnt := EXP_REPEAT;
      if !isProvisioned || lvlCliPub == ADDR_UNASSIGNED {
        console := console + ERR_NOT_PROVISIONED;
        return Exit(1);
      }
      if |args| >= 1 {
        cnt := ToU32(args[0]);
      }
      if |args| >= 2 {
        itvl := ToU32(args[1]);
      }
      if |args| >= 3 {
        jttr := ToU32(args[2]);
      }
      var min := JitterMin(itvl, jttr);
      var max := JitterMax(itvl, jttr);
      if !(min < max) {
        return Abort;
      }
      PublishLevels(cnt);
      console := console + EXP_DONE;
      r := Exit(0);
    }

    /** The loop of `run_lvl`: reset the counter, then per iteration record
        the stat and publish the level message; the random sleep between
        publications is not modelled. */
    method PublishLevels(cnt: u32)
      modifies this`events, this`transId
      ensures events == old(events) + LvlTrace(cnt, addrNode)
      ensures transId == cnt % 0x100
    {
      transId := 0;
      var i: nat := 0;
      while i < cnt
        invariant i <= cnt
        invariant transId == i % 0x100
        invariant events == old(events) + LvlTrace(i, addrNode)
      {
        assert LvlTrace(i + 1, addrNode) == LvlTrace(i, addrNode) + LvlStep(transId, addrNode);
        events := events + LvlStep(transId, addrNode);
        CounterStep(i);
        transId := Inc8(transId);
        i := i + 1;
      }
    }
  }
}
