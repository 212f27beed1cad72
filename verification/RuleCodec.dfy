/** The 54-byte encoding of a routing rule, its accessors, in-place setters and summaries. */
module RuleCodec {
  import opened Base
  import opened Bytes

  const HEADER_SIZE := 13
  const RULE_SIZE := 54
  const TYPE_APP: Byte := 0
  const TYPE_FORWARD: Byte := 1
  const MAX_INT64 := 0x7FFF_FFFF_FFFF_FFFF

  function Zeros(n: nat): (s: seq<Byte>)
    ensures |s| == n && forall i :: 0 <= i < n ==> s[i] == 0
  {
    seq(n, _ => 0)
  }

  /** The layout: keep-alive (8), type (1), route ID (4), body (37), request route ID (4). */
  function Encode(r: Rule): (b: seq<Byte>)
    ensures |b| == RULE_SIZE
  {
    match r
    case App(keepAlive, reqID, respID, remotePK, localPort, remotePort) =>
      BE(keepAlive, 8) + [TYPE_APP] + BE(respID, 4) + remotePK.bytes
      + BE(remotePort, 2) + BE(localPort, 2) + BE(reqID, 4)
    case Forward(keepAlive, reqID, nextID, transport) =>
      BE(keepAlive, 8) + [TYPE_FORWARD] + BE(nextID, 4) + transport.bytes + Zeros(21) + BE(reqID, 4)
  }

  /** A keep-alive is a non-negative int64. */
  predicate Fits(r: Rule) {
    r.keepAlive <= MAX_INT64
  }

  // Accessors. Each reads the slice of the rule the source reads.

  /** The eight bytes read as uint64 and converted to the signed Duration. */
  function KeepAlive(b: seq<Byte>): int
    requires |b| >= 8
  {
    var u := Value(b[..8]);
    if u > MAX_INT64 then u - UINT64 else u
  }

  /** The conversion wraps: whatever the eight bytes, the result is the one int64 that agrees with them modulo 2^64. */
  lemma KeepAliveWraps(b: seq<Byte>)
    requires |b| >= 8
    ensures -MAX_INT64 - 1 <= KeepAlive(b) <= MAX_INT64 && (KeepAlive(b) - Value(b[..8])) % UINT64 == 0
  {
    Pow256Values();
    ValueBound(b[..8]);
  }

  function RouteIDOf(b: seq<Byte>): nat
    requires |b| >= HEADER_SIZE
  {
    Value(b[9..13])
  }

  function TransportID(b: seq<Byte>): UUID
    requires |b| >= 29 && b[8] == TYPE_FORWARD
  {
    UUID(b[13..29])
  }

  function RemotePK(b: seq<Byte>): PubKey
    requires |b| >= 46 && b[8] == TYPE_APP
  {
    PubKey(b[13..46])
  }

  function RemotePort(b: seq<Byte>): nat
    requires |b| >= 48 && b[8] == TYPE_APP
  {
    Value(b[46..48])
  }

  function LocalPort(b: seq<Byte>): nat
    requires |b| >= 50 && b[8] == TYPE_APP
  {
    Value(b[48..50])
  }

  function RequestRouteID(b: seq<Byte>): nat
    requires |b| >= RULE_SIZE
  {
    Value(b[50..54])
  }

  /** The last part of a concatenation, and the slices of what comes before it. */
  lemma LastPart(front: seq<Byte>, part: seq<Byte>, at: nat, to: nat)
    requires at <= to <= |front|
    ensures (front + part)[|front|..|front| + |part|] == part
    ensures (front + part)[at..to] == front[at..to]
  {
  }

  lemma AppSlices(r: Rule)
    requires r.App?
    ensures var b := Encode(r);
            && b[..8] == BE(r.keepAlive, 8) && b[8] == TYPE_APP && b[9..13] == BE(r.respID, 4)
            && b[13..46] == r.remotePK.bytes && b[46..48] == BE(r.remotePort, 2)
            && b[48..50] == BE(r.localPort, 2) && b[50..54] == BE(r.reqID, 4)
  {
    hide BE;
    var header := BE(r.keepAlive, 8) + [TYPE_APP] + BE(r.respID, 4);
    var withKey := header + r.remotePK.bytes;
    var withRemote := withKey + BE(r.remotePort, 2);
    var withLocal := withRemote + BE(r.localPort, 2);
    assert Encode(r) == withLocal + BE(r.reqID, 4);
    hide Encode;
    LastPart(withLocal, BE(r.reqID, 4), 48, 50);
    LastPart(withLocal, BE(r.reqID, 4), 46, 48);
    LastPart(withLocal, BE(r.reqID, 4), 13, 46);
    LastPart(withLocal, BE(r.reqID, 4), 0, 13);
    LastPart(withRemote, BE(r.localPort, 2), 46, 48);
    LastPart(withRemote, BE(r.localPort, 2), 13, 46);
    LastPart(withRemote, BE(r.localPort, 2), 0, 13);
    LastPart(withKey, BE(r.remotePort, 2), 13, 46);
    LastPart(withKey, BE(r.remotePort, 2), 0, 13);
    LastPart(header, r.remotePK.bytes, 0, 13);
    HeaderSlices(Encode(r), r.keepAlive, TYPE_APP, r.respID);
  }

  lemma HeaderSlices(b: seq<Byte>, keepAlive: nat, ruleType: Byte, id: RouteID)
    requires |b| >= HEADER_SIZE && b[0..13] == BE(keepAlive, 8) + [ruleType] + BE(id, 4)
    ensures b[..8] == BE(keepAlive, 8) && b[8] == ruleType && b[9..13] == BE(id, 4)
  {
    hide BE;
    var header := b[0..13];
    assert b[8] == header[8];
    assert b[..8] == header[..8] && b[9..13] == header[9..13];
  }

  lemma ForwardSlices(r: Rule)
    requires r.Forward?
    ensures var b := Encode(r);
            && b[..8] == BE(r.keepAlive, 8) && b[8] == TYPE_FORWARD && b[9..13] == BE(r.nextID, 4)
            && b[13..29] == r.transport.bytes && b[29..50] == Zeros(21) && b[50..54] == BE(r.reqID, 4)
  {
    hide BE;
    var header := BE(r.keepAlive, 8) + [TYPE_FORWARD] + BE(r.nextID, 4);
    var withTransport := header + r.transport.bytes;
    var padded := withTransport + Zeros(21);
    assert Encode(r) == padded + BE(r.reqID, 4);
    hide Encode;
    LastPart(padded, BE(r.reqID, 4), 29, 50);
    LastPart(padded, BE(r.reqID, 4), 13, 29);
    LastPart(padded, BE(r.reqID, 4), 0, 13);
    LastPart(withTransport, Zeros(21), 13, 29);
    LastPart(withTransport, Zeros(21), 0, 13);
    LastPart(header, r.transport.bytes, 0, 13);
    HeaderSlices(Encode(r), r.keepAlive, TYPE_FORWARD, r.nextID);
  }

  /** What an accessor sees is what the constructor was given, for application rules. */
  lemma AppAccessors(r: Rule)
    requires r.App? && Fits(r)
    ensures var b := Encode(r);
            && KeepAlive(b) == r.keepAlive && b[8] == TYPE_APP && RouteIDOf(b) == r.respID
            && RemotePK(b) == r.remotePK && RemotePort(b) == r.remotePort
            && LocalPort(b) == r.localPort && RequestRouteID(b) == r.reqID
  {
    hide BE, Value, Pow256, Encode;
    AppSlices(r);
    Pow256Values();
    ValueOfBE(r.keepAlive, 8);
    ValueOfBE(r.respID, 4);
    ValueOfBE(r.remotePort, 2);
    ValueOfBE(r.localPort, 2);
    ValueOfBE(r.reqID, 4);
  }

  /** The same for forwarding rules. */
  lemma ForwardAccessors(r: Rule)
    requires r.Forward? && Fits(r)
    ensures var b := Encode(r);
            && KeepAlive(b) == r.keepAlive && b[8] == TYPE_FORWARD && RouteIDOf(b) == r.nextID
            && TransportID(b) == r.transport && RequestRouteID(b) == r.reqID
  {
    hide BE, Value, Pow256, Encode;
    ForwardSlices(r);
    Pow256Values();
    ValueOfBE(r.keepAlive, 8);
    ValueOfBE(r.nextID, 4);
    ValueOfBE(r.reqID, 4);
  }

  /** A rule on the wire denotes one rule only. */
  lemma EncodeInjective(r: Rule, s: Rule)
    requires Fits(r) && Fits(s) && Encode(r) == Encode(s)
    ensures r == s
  {
    hide BE, Value;
    if r.App? { AppAccessors(r); } else { ForwardAccessors(r); }
    if s.App? { AppAccessors(s); } else { ForwardAccessors(s); }
  }

  // Construction: a 13-byte header is filled, the body appended, and the tail fields written in place.

  method AppRule(keepAlive: int, reqRoute: RouteID, respRoute: RouteID, remotePK: PubKey,
                 localPort: Port, remotePort: Port)
    returns (rule: array<Byte>)
    ensures fresh(rule)
    ensures rule[..] == Encode(App(Clamp(keepAlive), reqRoute, respRoute, remotePK, localPort, remotePort))
  {
    hide BE, Value;
    var k := if keepAlive < 0 then 0 else keepAlive;
    var header := new Byte[HEADER_SIZE](_ => 0);
    PutUint(header, 0, k, 8);
    header[8] := TYPE_APP;
    PutUint(header, 9, respRoute, 4);
    assert header[..] == BE(k, 8) + [TYPE_APP] + BE(respRoute, 4);
    var whole := header[..] + remotePK.bytes + Zeros(8);
    rule := new Byte[RULE_SIZE](i requires 0 <= i < RULE_SIZE => whole[i]);
    assert rule[..] == whole;
    PutUint(rule, 46, remotePort, 2);
    PutUint(rule, 48, localPort, 2);
    PutUint(rule, 50, reqRoute, 4);
  }

  method ForwardRule(keepAlive: int, nextRoute: RouteID, nextTransport: UUID, reqRoute: RouteID)
    returns (rule: array<Byte>)
    ensures fresh(rule)
    ensures rule[..] == Encode(Forward(Clamp(keepAlive), reqRoute, nextRoute, nextTransport))
  {
    hide BE, Value;
    var k := if keepAlive < 0 then 0 else keepAlive;
    var header := new Byte[HEADER_SIZE](_ => 0);
    PutUint(header, 0, k, 8);
    header[8] := TYPE_FORWARD;
    PutUint(header, 9, nextRoute, 4);
    assert header[..] == BE(k, 8) + [TYPE_FORWARD] + BE(nextRoute, 4);
    var whole := header[..] + nextTransport.bytes + Zeros(25);
    rule := new Byte[RULE_SIZE](i requires 0 <= i < RULE_SIZE => whole[i]);
    assert rule[..] == whole;
    PutUint(rule, 50, reqRoute, 4);
  }

  /** SetRouteID in place: the rule then denotes the same rule with that one field replaced. */
  method SetRouteID(rule: array<Byte>, id: RouteID, ghost r: Rule)
    requires rule[..] == Encode(r)
    modifies rule
    ensures rule[..] == Encode(if r.App? then r.(respID := id) else r.(nextID := id))
  {
    hide BE, Value, Encode;
    PutUint(rule, 9, id, 4);
    PutRouteID(r, id);
  }

  lemma PutRouteID(r: Rule, id: RouteID)
    ensures Put(Encode(r), 9, id, 4) == Encode(if r.App? then r.(respID := id) else r.(nextID := id))
  {
    hide BE, Value;
    match r {
      case App(_, _, _, _, _, _) => assert Put(Encode(r), 9, id, 4) == Encode(r.(respID := id));
      case Forward(_, _, _, _) => assert Put(Encode(r), 9, id, 4) == Encode(r.(nextID := id));
    }
  }

  method SetRequestRouteID(rule: array<Byte>, id: RouteID, ghost r: Rule)
    requires rule[..] == Encode(r)
    modifies rule
    ensures rule[..] == Encode(r.(reqID := id))
  {
    hide BE, Value;
    PutUint(rule, 50, id, 4);
  }

  // Summaries.

  datatype AppFields = AppFields(respRID: RouteID, remotePK: PubKey, remotePort: Port, localPort: Port)

  datatype ForwardFields = ForwardFields(nextRID: RouteID, nextTID: UUID)

  datatype RuleSummary = RuleSummary(keepAlive: int, ruleType: Byte, appFields: Option<AppFields>,
                                     forwardFields: Option<ForwardFields>, requestRouteID: RouteID)

  function ToRule(s: RuleSummary): Result<seq<Byte>> {
    if s.ruleType == TYPE_APP && s.appFields.Some? && s.forwardFields.None? then
      var f := s.appFields.value;
      Ok(Encode(App(Clamp(s.keepAlive), s.requestRouteID, f.respRID, f.remotePK, f.localPort, f.remotePort)))
    else if s.ruleType == TYPE_FORWARD && s.appFields.None? && s.forwardFields.Some? then
      var f := s.forwardFields.value;
      Ok(Encode(Forward(Clamp(s.keepAlive), s.requestRouteID, f.nextRID, f.nextTID)))
    else
      Err("invalid routing rule summary")
  }

  /** The four bytes of an identifier, and the two of a port, are always in range. */
  lemma FieldRanges(b: seq<Byte>)
    requires |b| == RULE_SIZE
    ensures RouteIDOf(b) < UINT32 && RequestRouteID(b) < UINT32
    ensures Value(b[46..48]) < UINT16 && Value(b[48..50]) < UINT16
  {
    Pow256Values();
    ValueBound(b[9..13]);
    ValueBound(b[50..54]);
    ValueBound(b[46..48]);
    ValueBound(b[48..50]);
  }

  function Summary(b: seq<Byte>): RuleSummary
    requires |b| == RULE_SIZE && (b[8] == TYPE_APP || b[8] == TYPE_FORWARD)
  {
    FieldRanges(b);
    if b[8] == TYPE_APP then
      RuleSummary(KeepAlive(b), b[8],
                  Some(AppFields(RouteIDOf(b), RemotePK(b), RemotePort(b), LocalPort(b))), None, RequestRouteID(b))
    else
      RuleSummary(KeepAlive(b), b[8],
                  None, Some(ForwardFields(RouteIDOf(b), TransportID(b))), RequestRouteID(b))
  }

  /** A built rule survives the trip through its summary. */
  lemma SummaryThenToRule(r: Rule)
    requires Fits(r)
    ensures ToRule(Summary(Encode(r))) == Ok(Encode(r))
  {
    hide BE, Value;
    if r.App? { AppAccessors(r); } else { ForwardAccessors(r); }
  }

  /**
   * A summary survives the trip through the rule exactly when it is accepted and its
   * keep-alive is non-negative: a negative one comes back as zero.
   */
  lemma ToRuleThenSummary(s: RuleSummary)
    requires s.keepAlive <= MAX_INT64
    ensures (exists b :: && ToRule(s) == Ok(b) && |b| == RULE_SIZE && (b[8] == TYPE_APP || b[8] == TYPE_FORWARD)
                         && Summary(b) == s)
       <==> (ToRule(s).Ok? && s.keepAlive >= 0)
  {
    hide BE, Value;
    if ToRule(s).Ok? {
      var b := ToRule(s).value;
      if s.ruleType == TYPE_APP {
        var f := s.appFields.value;
        AppAccessors(App(Clamp(s.keepAlive), s.requestRouteID, f.respRID, f.remotePK, f.localPort, f.remotePort));
      } else {
        var f := s.forwardFields.value;
        ForwardAccessors(Forward(Clamp(s.keepAlive), s.requestRouteID, f.nextRID, f.nextTID));
      }
    }
  }
}
