// Spans, candidates and the tunables of the splitter.

module Policies {
  import opened Blocks

  datatype Span = Span(start: nat, end: nat)

  // A span that lies in `buf`.
  predicate InBounds(s: Span, buf: Bytes) {
    s.start <= s.end <= |buf|
  }

  function SpanLen(s: Span): nat
    requires s.start <= s.end
  {
    s.end - s.start
  }

  function Slice(s: Span, buf: Bytes): Bytes
    requires InBounds(s, buf)
  {
    buf[s.start..s.end]
  }

  datatype Cand = Cand(span: Span, kind: BlockKind, floor: nat)

  datatype Group = Group(cand: Cand, children: seq<Cand>)

  datatype Policy = Policy(
    enabled: bool,
    minBodyBytes: nat,
    minBlockBytes: nat,
    minHistoryBlockBytes: nat,
    minPayloadBytes: nat,
    maxBodyBytes: nat,
    maxInstrs: nat,
    maxDepth: nat,
    cdcMin: nat,
    cdcMax: nat,
    cdcBits: nat,
    cdcFallback: bool
  )

  const DEFAULT_POLICY: Policy :=
    Policy(true, 4096, 384, 128, 4096, 512 * 1024 * 1024, 200_000, 6, 8 * 1024, 128 * 1024, 15, true)

  datatype SplitStats = SplitStats(
    bodyLen: nat,
    litBytes: nat,
    instrs: nat,
    refs: nat,
    refsHit: nat,
    refsNew: nat,
    refCovered: nat,
    blocksCreated: nat,
    pushBlocks: nat,
    pushBytes: nat,
    instrOverhead: nat,
    structural: bool,
    cdcUsed: bool
  ) {
    function WireBytes(): nat { litBytes + pushBytes + instrOverhead }

    function Slack(): nat { if bodyLen / 16 > 1024 then bodyLen / 16 else 1024 }

    predicate Inflates() { WireBytes() > bodyLen + Slack() }
  }

  datatype Skip = Disabled | TooSmall(len: nat) | TooLarge(len: nat) | Unrecognised | LimitsHit
}
