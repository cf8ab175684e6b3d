/** One node of the NDN experiment (ndn/fw/main.c): the relay's FIB as a
    singly linked list, the single-producer flag, the local producer hook,
    and what the node hands to ccn-lite (Interests, content for the cache)
    and prints. */
module NdnNode {
  import opened CRuntime
  import opened NdnNames

  /** One FIB entry (`struct ccnl_forward_s`): its prefix, as the URI text
      `ccnl_prefix_to_str` makes of it, and the next entry. The list is
      built by code outside this model and not changed by it. */
  class FibEntry {
    const prefix: string
    const next: FibEntry?
    /** The prefixes from this entry to the end of the list. */
    ghost const prefixes: seq<string>

    ghost predicate Valid()
      decreases |prefixes|
    {
      && |prefixes| >= 1
      && prefixes[0] == prefix
      && (next == null ==> |prefixes| == 1)
      && (next != null ==> next.prefixes == prefixes[1..] && next.Valid())
    }

    constructor (p: string, rest: FibEntry?)
      requires rest == null || rest.Valid()
      ensures Valid()
      ensures prefixes == [p] + Prefixes(rest)
    {
      prefix := p;
      next := rest;
      prefixes := [p] + Prefixes(rest);
    }
  }

  /** The prefixes of the list starting at f, in order. */
  ghost function Prefixes(f: FibEntry?): seq<string> {
    if f == null then [] else f.prefixes
  }

  /** What the node hands to ccn-lite or prints. */
  datatype NdnEvent =
    | CacheAdded(content: Content)   // `ccnl_content_add2cache` accepted it
    | ContentFreed(content: Content) // the cache refused it, `ccnl_content_free`
    | ConsumerSpawned                // `thread_create` of the consumer loop
    | Puts(line: string)             // a line on the console

  class Node {
    const hwaddrStr: string
    const fib: FibEntry?
    const build: Build
    var singleProducer: bool
    /** Whether `producer_func` is installed as the relay's local producer. */
    var localProducer: bool
    var log: seq<NdnEvent>
    /** The names handed to `_ccnl_interest`, in order. */
    var interests: seq<string>

    ghost predicate Valid() {
      (fib == null || fib.Valid()) && '\0' !in hwaddrStr
    }

    /** The FIB prefixes in list order. */
    ghost function FibPrefixes(): seq<string> {
      Prefixes(fib)
    }

    /** The tail of `main`: the address is known, printed, and
        `producer_func` is installed. */
    constructor (hw: string, fibHead: FibEntry?, b: Build)
      requires fibHead == null || fibHead.Valid()
      requires '\0' !in hw
      ensures Valid()
      ensures hwaddrStr == hw && fib == fibHead && build == b
      ensures !singleProducer && localProducer
      ensures log == [Puts("My address is: " + hw)] && interests == []
    {
      interests := [];
      hwaddrStr := hw;
      fib := fibHead;
      build := b;
      singleProducer := false;
      log := [Puts("My address is: " + hw)];
      localProducer := true;
    }

    /** `_count_fib_entries`: follow `next` from the head until null. */
    method CountFibEntries() returns (n: nat)
      requires Valid()
      ensures n == |FibPrefixes()|
    {
      n := 0;
      var fwd := fib;
      while fwd != null
        invariant fwd == null || fwd.Valid()
        invariant n + |Prefixes(fwd)| == |FibPrefixes()|
        decreases |Prefixes(fwd)|
      {
        n := n + 1;
        fwd := fwd.next;
      }
    }

    /** `produce_cont_and_cache`: build the content "/<addr>/%04d(id)" with
        payload "{DATA}", and, if the encoding reads back as a Data packet,
        flag it static and offer it to the cache. The outcome of the TLV
        round trip and the cache's answer are inputs. */
    method ProduceContAndCache(id: i32, decodesAsData: bool, cacheAccepts: bool) returns (r: int)
      modifies this`log
      ensures !decodesAsData ==>
        r == -1 && log == old(log) + [Puts("ERROR in producer function")]
      ensures decodesAsData && cacheAccepts ==>
        r == 0 && log == old(log) + [CacheAdded(ProducedContent(hwaddrStr, id))]
      ensures decodesAsData && !cacheAccepts ==>
        r == 0 && log == old(log) + [ContentFreed(ProducedContent(hwaddrStr, id))]
    {
      var buffer := PAYLOAD;
      var name := "/" + hwaddrStr + "/" + Pad04(id);
      if !decodesAsData {
        log := log + [Puts("ERROR in producer function")];
        return -1;
      }
      var c := Content(name, buffer, false);
      c := c.(isStatic := true);
      if cacheAccepts {
        log := log + [CacheAdded(c)];
      } else {
        log := log + [ContentFreed(c)];
      }
      r := 0;
    }

    /** `producer_func`: answer a two-component name whose first component
        matches the node's address over its own length; do nothing
        otherwise. */
    method ProducerFunc(req: Name, decodesAsData: bool, cacheAccepts: bool) returns (r: int)
      modifies this`log
      ensures ProducerId(hwaddrStr, req).None? ==> r == 0 && log == old(log)
      ensures ProducerId(hwaddrStr, req).Some? ==>
        var c := ProducedContent(hwaddrStr, ProducerId(hwaddrStr, req).value);
        && (!decodesAsData ==> r == -1 && log == old(log) + [Puts("ERROR in producer function")])
        && (decodesAsData && cacheAccepts ==> r == 0 && log == old(log) + [CacheAdded(c)])
        && (decodesAsData && !cacheAccepts ==> r == 0 && log == old(log) + [ContentFreed(c)])
    {
      if |req| == 2 && OwnsComponent(req[0], hwaddrStr) {
        r := ProduceContAndCache(Atoi(req[1]), decodesAsData, cacheAccepts);
      } else {
        r := 0;
      }
    }

    /** `_consumer_event_loop`: NUM_REQUESTS_NODE rounds; in round i one
        Interest per FIB entry in list order named "<prefix>/%04d(i)", or,
        in single-producer mode, one for the fixed producer; names cut by
        snprintf. The delays between Interests are not modelled. */
    method ConsumerEventLoop()
      requires Valid()
      modifies this`interests
      ensures interests == old(interests) + ConsumerUris(FibPrefixes(), NUM_REQUESTS_NODE, build)
    {
      var nodesNum := CountFibEntries();
      var i := 0;
      while i < NUM_REQUESTS_NODE
        invariant i <= NUM_REQUESTS_NODE
        invariant interests == old(interests) + ConsumerUris(FibPrefixes(), i, build)
      {
        SendRound(i);
        i := i + 1;
      }
    }

    /** The body of round i of `_consumer_event_loop`. */
    method SendRound(i: nat)
      requires Valid()
      modifies this`interests
      ensures interests == old(interests) + Round(FibPrefixes(), i, build)
    {
      var size := NameSize(build);
      if !build.singleProducerMode {
        var fwd := fib;
        ghost var k := 0;
        while fwd != null
          invariant fwd == null || fwd.Valid()
          invariant 0 <= k <= |FibPrefixes()|
          invariant Prefixes(fwd) == FibPrefixes()[k..]
          invariant interests == old(interests) + Round(FibPrefixes()[..k], i, build)
          decreases |Prefixes(fwd)|
        {
          var reqUri := Snprintf(fwd.prefix + "/" + Pad04(i), size);
          assert fwd.prefix == FibPrefixes()[k];
          RoundSnoc(FibPrefixes(), k, i, build);
          interests := interests + [reqUri];
          fwd := fwd.next;
          k := k + 1;
        }
        assert FibPrefixes()[..k] == FibPrefixes();
      } else {
        var reqUri := Snprintf(FixedProducerUri(build) + "/" + Pad04(i), size);
        interests := interests + [reqUri];
      }
    }

    /** `_req_start`: a node that is not the single producer stops producing
        locally and starts the consumer; the single producer only says so. */
    method ReqStart() returns (r: int)
      modifies this`localProducer, this`log
      ensures r == 0
      ensures singleProducer ==>
        log == old(log) + [Puts("I am single producer")] && localProducer == old(localProducer)
      ensures !singleProducer ==> log == old(log) + [ConsumerSpawned] && !localProducer
    {
      if !singleProducer {
        localProducer := false;
        log := log + [ConsumerSpawned];
      } else {
        log := log + [Puts("I am single producer")];
      }
      r := 0;
    }

    /** `_single_producer` (shell command `sp`). */
    method SingleProducer() returns (r: int)
      modifies this`singleProducer
      ensures r == 0 && singleProducer
    {
      singleProducer := true;
      r := 0;
    }
  }

  /** Visiting one more FIB entry adds its name to the round. */
  lemma RoundSnoc(prefixes: seq<string>, k: nat, i: nat, b: Build)
    requires k < |prefixes| && !b.singleProducerMode
    ensures Round(prefixes[..k + 1], i, b) ==
      Round(prefixes[..k], i, b) + [Snprintf(prefixes[k] + "/" + Pad04(i), NameSize(b))]
  {
  }
}
