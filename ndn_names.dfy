/** The naming rules of the NDN firmware (ndn/fw/main.c): which Interests
    the local producer answers, the name and payload of the content it makes,
    and the sequence of names the consumer requests. */
module NdnNames {
  import opened CRuntime

  /** A name as ccn-lite splits it: its components, without the slashes. */
  type Name = seq<string>

  /** The build configuration: the nRF52 boards or RIOT's native port, and
      whether MULTI_HOP_SINGLEPRODUCER_MODE is defined (the consumer tests
      only that, whatever its value). */
  datatype Build = Build(onNrf: bool, singleProducerMode: bool)

  /** A content object as the producer makes it. */
  datatype Content = Content(uri: string, payload: string, isStatic: bool)

  const PAYLOAD: string := "{DATA}"
  const NUM_REQUESTS_NODE: nat := 100
  /** Size of the producer's `name` buffer. */
  const NAME_BUF: nat := 40
  /** Longest address text: GNRC_NETIF_L2ADDR_MAXLEN (8) groups "xx:" less the last colon. */
  const HWADDR_MAX: nat := 23

  /** The URI text of a name: "/" before every component. */
  function NameUri(n: Name): (u: string)
    ensures |n| == 0 ==> u == []
  {
    if n == [] then [] else NameUri(n[..|n| - 1]) + "/" + n[|n| - 1]
  }

  lemma NameUri2(a: string, b: string)
    ensures NameUri([a, b]) == "/" + a + "/" + b
  {
    assert [a, b][..1] == [a];
    assert [a][..0] == [];
  }

  // ---------------------------------------------------------------------
  // The producer

  /** Character j of the `hwaddr_str` array: the address text, then NUL
      (the array is static, so it is zero past the text). */
  function AddrChar(hw: string, j: nat): char {
    if j < |hw| then hw[j] else '\0'
  }

  /** `memcmp(comp[0], hwaddr_str, complen[0]) == 0`. */
  predicate OwnsComponent(c0: string, hw: string) {
    forall j :: 0 <= j < |c0| ==> c0[j] == AddrChar(hw, j)
  }

  /** For a first component without NUL bytes, ownership is exactly being a
      prefix of the address text: the whole address, any shorter piece of
      it, or the empty component. */
  lemma OwnerIsAddrPrefix(c0: string, hw: string)
    requires '\0' !in c0
    ensures OwnsComponent(c0, hw) <==> c0 <= hw
  {
    if OwnsComponent(c0, hw) {
      if |c0| > 0 {
        var last := |c0| - 1;
        assert c0[last] in c0 && c0[last] == AddrChar(hw, last);
      }
      assert c0 == hw[..|c0|];
    }
    if c0 <= hw {
      forall j | 0 <= j < |c0|
        ensures c0[j] == AddrChar(hw, j)
      {
        assert c0[j] == hw[j];
      }
    }
  }

  /** The id `producer_func` hands to `produce_cont_and_cache`: present
      exactly for a two-component name whose first component (free of NUL
      bytes) is a prefix of the node's address; atoi of the second
      component. */
  function ProducerId(hw: string, req: Name): (r: Option<i32>)
    ensures |req| != 2 ==> r.None?
    ensures |req| == 2 && '\0' !in req[0] ==> (r.Some? <==> req[0] <= hw)
    ensures r.Some? ==> |req| == 2 && r.value == Atoi(req[1])
  {
    if |req| != 2 then None
    else
      var answer := if OwnsComponent(req[0], hw) then Some(Atoi(req[1])) else None;
      if '\0' in req[0] then answer
      else
        OwnerIsAddrPrefix(req[0], hw);
        answer
  }

  /** The name `produce_cont_and_cache` builds, "/%s/%04d": the address
      between slashes, then four to eleven characters of number, all digits
      for a non-negative id. */
  function ContentUri(hw: string, id: i32): (u: string)
    ensures |hw| + 6 <= |u| <= |hw| + 13 && u[..|hw| + 2] == "/" + hw + "/"
    ensures id >= 0 ==> AllDigits(u[|hw| + 2..])
  {
    Pad04Bound(id);
    var u := "/" + hw + "/" + Pad04(id);
    assert u[|hw| + 2..] == Pad04(id);
    u
  }

  /** The content made for an id: the rebuilt name, the fixed payload, the static flag. */
  function ProducedContent(hw: string, id: i32): (c: Content)
    ensures c.payload == PAYLOAD && |c.payload| == 6 && c.isStatic
    ensures |c.uri| > |hw| + 2 && c.uri[..|hw| + 2] == "/" + hw + "/"
  {
    Content(ContentUri(hw, id), PAYLOAD, true)
  }

  /** The rebuilt name always fits the producer's 40-byte buffer with its NUL. */
  lemma ContentUriFits(hw: string, id: i32)
    requires |hw| <= HWADDR_MAX
    ensures |ContentUri(hw, id)| < NAME_BUF
  {
    Pad04Bound(id);
  }

  /** The empty first component is owned by every node: a two-component
      name whose first component is empty is answered by whichever node
      receives it. */
  lemma EmptyOwnerMatches(hw: string, v: string)
    ensures ProducerId(hw, ["", v]) == Some(Atoi(v))
  {
  }

  /** Names of any other length are never answered. */
  lemma OnlyTwoComponents(hw: string, req: Name)
    requires |req| != 2
    ensures ProducerId(hw, req).None?
  {
  }

  /** A request in the form the producer writes, "/<addr>/%04d(id)", is
      answered with content of exactly the requested name. */
  lemma CanonicalRequestEchoed(hw: string, id: i32)
    ensures ProducerId(hw, [hw, Pad04(id)]) == Some(id)
    ensures ProducedContent(hw, id).uri == NameUri([hw, Pad04(id)])
  {
    assert OwnsComponent(hw, hw);
    AtoiPad04(id);
    NameUri2(hw, Pad04(id));
  }

  /** The name is rebuilt, not copied: leading zeros in the request's
      number do not change the content, so "/<addr>/7" and "/<addr>/0007"
      are answered with the same content, named "/<addr>/0007". */
  lemma LeadingZerosSameContent(hw: string, k: nat, digits: string)
    requires |digits| > 0 && AllDigits(digits)
    ensures ProducerId(hw, [hw, Zeros(k) + digits]) == ProducerId(hw, [hw, digits])
  {
    assert OwnsComponent(hw, hw);
    AtoiLeadingZeros(k, digits);
  }

  /** The number-7 example written out. */
  lemma SevenAndZeroSevenAgree(hw: string)
    ensures ProducerId(hw, [hw, "7"]) == ProducerId(hw, [hw, "0007"]) == Some(7)
    ensures ContentUri(hw, 7) == "/" + hw + "/0007"
  {
    assert "0007" == Zeros(3) + "7";
    LeadingZerosSameContent(hw, 3, "7");
    AtoiDigits("7");
    assert DigitsValue("7") == 7 by {
      assert "7"[..0] == [];
    }
    SevenContentUri(hw);
  }

  lemma SevenContentUri(hw: string)
    ensures ContentUri(hw, 7) == "/" + hw + "/0007"
  {
    Pad04Seven();
  }

  lemma Pad04Seven()
    ensures Pad04(7) == "0007"
  {
    assert Dec(7) == "7";
    assert Pad04(7) == Zeros(3) + "7";
  }

  // ---------------------------------------------------------------------
  // The consumer

  /** The size passed to snprintf for request names. */
  function NameSize(b: Build): nat {
    if b.onNrf then 12 else 30
  }

  /** The hard-coded name prefix of the single producer. */
  function FixedProducerUri(b: Build): string {
    if b.onNrf then "/EA:5B" else "/15:11:6B:10:65:F7:8F:32"
  }

  /** snprintf(req_uri, size, "%s/%04d", prefix, i). */
  function RequestUri(prefix: string, i: nat, size: nat): (u: string)
    requires size >= 1
    ensures |u| <= size - 1
  {
    Snprintf(prefix + "/" + Pad04(i), size)
  }

  /** The names of round i: one per FIB prefix in list order, or the single
      producer's name. */
  function Round(prefixes: seq<string>, i: nat, b: Build): seq<string> {
    if b.singleProducerMode then [RequestUri(FixedProducerUri(b), i, NameSize(b))]
    else seq(|prefixes|, j requires 0 <= j < |prefixes| => RequestUri(prefixes[j], i, NameSize(b)))
  }

  /** The names requested in rounds 0 .. n - 1, in order. */
  function ConsumerUris(prefixes: seq<string>, n: nat, b: Build): seq<string> {
    if n == 0 then [] else ConsumerUris(prefixes, n - 1, b) + Round(prefixes, n - 1, b)
  }

  function PerRound(prefixes: seq<string>, b: Build): nat {
    if b.singleProducerMode then 1 else |prefixes|
  }

  lemma {:induction false} ConsumerUrisLength(prefixes: seq<string>, n: nat, b: Build)
    ensures |ConsumerUris(prefixes, n, b)| == n * PerRound(prefixes, b)
  {
    if n > 0 {
      var m := PerRound(prefixes, b);
      ConsumerUrisLength(prefixes, n - 1, b);
      assert |Round(prefixes, n - 1, b)| == m;
      assert (n - 1) * m + m == n * m;
    }
  }

  /** Request j of round i names FIB prefix j with the round index: the
      number is the same for every destination of a round. */
  lemma {:induction false} ConsumerUrisAt(prefixes: seq<string>, n: nat, b: Build, i: nat, j: nat)
    requires i < n && j < PerRound(prefixes, b)
    ensures i * PerRound(prefixes, b) + j < |ConsumerUris(prefixes, n, b)|
    ensures ConsumerUris(prefixes, n, b)[i * PerRound(prefixes, b) + j] ==
      if b.singleProducerMode then RequestUri(FixedProducerUri(b), i, NameSize(b))
      else RequestUri(prefixes[j], i, NameSize(b))
  {
    var m := PerRound(prefixes, b);
    var earlier := ConsumerUris(prefixes, n - 1, b);
    ConsumerUrisLength(prefixes, n - 1, b);
    var base := (n - 1) * m;
    assert |earlier| == base;
    assert ConsumerUris(prefixes, n, b) == earlier + Round(prefixes, n - 1, b);
    if i < n - 1 {
      ConsumerUrisAt(prefixes, n - 1, b, i, j);
      MulBelow(i, n - 1, m, j);
    } else {
      assert i * m + j == base + j;
    }
  }

  /** i * m + j stays below k * m for i < k and j < m. */
  lemma MulBelow(i: nat, k: nat, m: nat, j: nat)
    requires i < k && j < m
    ensures i * m + j < k * m
  {
    assert (i + 1) * m <= k * m by {
      assert k * m == (i + 1) * m + (k - i - 1) * m;
    }
  }

  /** A request name never exceeds size - 1 characters; when the prefix is
      short enough, nothing is cut and the name ends in the round index. */
  lemma RequestUriUncut(prefix: string, i: nat, size: nat)
    requires size >= 1 && i < 10000 && |prefix| + 6 <= size
    ensures RequestUri(prefix, i, size) == prefix + "/" + Pad04(i)
    ensures Atoi(Pad04(i)) == i
  {
    Pad04Width(i);
    AtoiPad04(i);
  }

  /** The single producer's names fill the buffer exactly: 11 characters on
      nRF52, 29 on native, never cut for the 100 rounds. */
  lemma FixedProducerNamesExact(b: Build, i: nat)
    requires i < NUM_REQUESTS_NODE
    ensures |RequestUri(FixedProducerUri(b), i, NameSize(b))| == NameSize(b) - 1
    ensures RequestUri(FixedProducerUri(b), i, NameSize(b)) == FixedProducerUri(b) + "/" + Pad04(i)
  {
    RequestUriUncut(FixedProducerUri(b), i, NameSize(b));
  }

  /** A longer prefix is cut: only its first size - 7 characters survive
      with the slash and the four digits, or fewer of the name's tail. */
  lemma RequestUriCut(prefix: string, i: nat, size: nat)
    requires size >= 1 && |prefix| + 6 > size
    ensures |RequestUri(prefix, i, size)| == size - 1
    ensures RequestUri(prefix, i, size) <= prefix + "/" + Pad04(i)
  {
  }

  /** The single producer answers every request of the consumer in
      single-producer mode with content of the requested name, its address
      being the fixed prefix without the leading slash. */
  lemma SingleProducerServesConsumer(b: Build, i: nat)
    requires b.singleProducerMode && i < NUM_REQUESTS_NODE
    ensures var hw := FixedProducerUri(b)[1..];
      && ProducerId(hw, [hw, Pad04(i)]) == Some(i)
      && ProducedContent(hw, i).uri == Round([], i, b)[0]
  {
    var hw := FixedProducerUri(b)[1..];
    assert FixedProducerUri(b) == "/" + hw;
    CanonicalRequestEchoed(hw, i);
    FixedProducerNamesExact(b, i);
    NameUri2(hw, Pad04(i));
  }
}
