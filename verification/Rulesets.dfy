/** What the engine sees of a ruleset (ruleset/interface.go:13-105) and of a packet verdict. */
module Rulesets {
  import opened Bytes
  import opened Entries

  // The addresses and ports of a stream, or of a packet.
  datatype Flow = Flow(srcIp: bytes, dstIp: bytes, srcPort: nat, dstPort: nat)

  function Reversed(f: Flow): (r: Flow) {
    Flow(f.dstIp, f.srcIp, f.dstPort, f.srcPort)
  }

  // Other is any number outside the five declared actions.
  datatype Action = Maybe | Allow | Block | Drop | Modify | Other

  // What a modifier makes of a payload; it may fail.
  datatype Processed = Processed(packet: Option<bytes>, ok: bool)

  datatype MatchResult = MatchResult(action: Action, modifier: Option<bytes -> Processed>)

  // A ruleset picks analyzers for a stream, and answers each match in any way that depends on the
  // stream and on the properties it has been shown, now and before.
  datatype Ruleset = Ruleset(analyzers: Flow -> seq<Plan>, decide: (Flow, seq<CombinedProps>) -> MatchResult)

  datatype Verdict = Accept | AcceptModify | AcceptStream | DropPacket | DropStream

  // The verdict repeated, one for each packet.
  function Repeat(v: Verdict, n: nat): (r: seq<Verdict>)
    ensures |r| == n
  {
    seq(n, _ => v)
  }
}
