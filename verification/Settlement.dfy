/**
 * Transport entries and the settlement handshake that signs and registers them (pkg/transport/transport.go,
 * entry.go, handshake.go). Signatures are ideal: one value per key and payload, made only with that key.
 */
module Settlement {
  import opened Base
  import opened Bytes

  /** The less significant key first, as big-endian numbers. */
  function SortEdges(a: PubKey, b: PubKey): (PubKey, PubKey) {
    if Value(a.bytes) < Value(b.bytes) then (a, b) else (b, a)
  }

  /** Two keys give the same edges exactly when they are the same two keys, in either order. */
  lemma SortEdgesIff(a: PubKey, b: PubKey, c: PubKey, d: PubKey)
    ensures SortEdges(a, b) == SortEdges(c, d) <==> (a == c && b == d) || (a == d && b == c)
    ensures var (x, y) := SortEdges(a, b); Value(x.bytes) <= Value(y.bytes)
  {
    if Value(a.bytes) == Value(b.bytes) {
      ValueInjective(a.bytes, b.bytes);
    }
  }

  /** The bytes the transport ID is a hash of. */
  function IDPreimage(a: PubKey, b: PubKey, tpType: seq<Byte>): seq<Byte> {
    var (x, y) := SortEdges(a, b);
    x.bytes + y.bytes + tpType
  }

  /**
   * The ID does not depend on the order of the keys, and without a hash collision on nothing less than all it names.
   */
  lemma TransportIDIff(hash: seq<Byte> -> UUID, a: PubKey, b: PubKey, t: seq<Byte>, c: PubKey, d: PubKey, u: seq<Byte>)
    requires hash(IDPreimage(a, b, t)) == hash(IDPreimage(c, d, u)) ==> IDPreimage(a, b, t) == IDPreimage(c, d, u)
    ensures hash(IDPreimage(a, b, t)) == hash(IDPreimage(c, d, u))
      <==> t == u && ((a == c && b == d) || (a == d && b == c))
  {
    SortEdgesIff(a, b, c, d);
    var p, q := IDPreimage(a, b, t), IDPreimage(c, d, u);
    assert p[..33] == SortEdges(a, b).0.bytes && p[33..66] == SortEdges(a, b).1.bytes && p[66..] == t;
    assert q[..33] == SortEdges(c, d).0.bytes && q[33..66] == SortEdges(c, d).1.bytes && q[66..] == u;
  }

  /** Copies as much of `from` as fits behind `at`, and says how much that was. */
  method Copy(b: array<Byte>, at: nat, from: seq<Byte>) returns (n: nat)
    requires at + |from| <= b.Length
    modifies b
    ensures n == |from|
    ensures b[..at + n] == old(b[..at]) + from && b[at + n..] == old(b[at + n..])
  {
    for i := 0 to |from|
      invariant b[..at + i] == old(b[..at]) + from[..i]
      invariant b[at + i..] == old(b[at + i..])
    {
      b[at + i] := from[i];
    }
    assert from[..|from|] == from;
    return |from|;
  }

  method MakeTransportID(hash: seq<Byte> -> UUID, keyA: PubKey, keyB: PubKey, tpType: seq<Byte>) returns (id: UUID)
    ensures id == hash(IDPreimage(keyA, keyB, tpType)) == MakeEntry(hash, keyA, keyB, tpType).id
  {
    var keys := SortEdges(keyA, keyB);
    var b := new Byte[33 * 2 + |tpType|](_ => 0);
    var i := 0;
    var n := Copy(b, i, keys.0.bytes);
    i := i + n;
    n := Copy(b, i, keys.1.bytes);
    i := i + n;
    n := Copy(b, i, tpType);
    assert b[..] == b[..i + n] == IDPreimage(keyA, keyB, tpType);
    return hash(b[..]);
  }

  datatype Entry = Entry(id: UUID, edges: (PubKey, PubKey), tpType: seq<Byte>, isPublic: bool) {
    function EdgeIndex(pk: PubKey): Option<nat> {
      if edges.0 == pk then Some(0) else if edges.1 == pk then Some(1) else None
    }

    function RemoteEdge(local: PubKey): PubKey {
      if edges.0 != local then edges.0 else if edges.1 != local then edges.1 else local
    }

    function ToBinary(): seq<Byte> {
      id.bytes + edges.0.bytes + edges.1.bytes + tpType
    }
  }

  /** What is signed, byte by byte: the ID, the two edges in order, the type. */
  lemma ToBinaryBytes(e: Entry)
    ensures var b := e.ToBinary();
      && |b| == 82 + |e.tpType| && b[..16] == e.id.bytes && b[16..49] == e.edges.0.bytes
      && b[49..82] == e.edges.1.bytes && b[82..] == e.tpType
  {
  }

  /** A signed payload fixes the whole entry but its `public` flag. */
  lemma ToBinaryIff(e: Entry, f: Entry)
    ensures e.ToBinary() == f.ToBinary() <==> e == f.(isPublic := e.isPublic)
  {
    ToBinaryBytes(e);
    ToBinaryBytes(f);
  }

  function MakeEntry(hash: seq<Byte> -> UUID, pk1: PubKey, pk2: PubKey, tpType: seq<Byte>): Entry {
    Entry(hash(IDPreimage(pk1, pk2, tpType)), SortEdges(pk1, pk2), tpType, true)
  }

  /** Whichever way round the two keys are named, the entry lists them and hashes them the less significant first. */
  lemma EntryOfSorted(hash: seq<Byte> -> UUID, a: PubKey, b: PubKey, tpType: seq<Byte>)
    requires Value(a.bytes) <= Value(b.bytes)
    ensures MakeEntry(hash, a, b, tpType) == MakeEntry(hash, b, a, tpType)
         == Entry(hash(a.bytes + b.bytes + tpType), (a, b), tpType, true)
  {
    SortEdgesIff(a, b, b, a);
    if Value(a.bytes) == Value(b.bytes) {
      ValueInjective(a.bytes, b.bytes);
    }
  }

  /** Without a hash collision two entries have one ID exactly when they are for the same two keys and the same type. */
  lemma EntryIDIff(hash: seq<Byte> -> UUID, a: PubKey, b: PubKey, t: seq<Byte>, c: PubKey, d: PubKey, u: seq<Byte>)
    requires hash(IDPreimage(a, b, t)) == hash(IDPreimage(c, d, u)) ==> IDPreimage(a, b, t) == IDPreimage(c, d, u)
    ensures var e, f := MakeEntry(hash, a, b, t), MakeEntry(hash, c, d, u);
      && (e.id == f.id <==> t == u && ((a == c && b == d) || (a == d && b == c)))
      && (e.id == f.id <==> e == f)
  {
    TransportIDIff(hash, a, b, t, c, d, u);
    SortEdgesIff(a, b, c, d);
  }

  method NewEntry(hash: seq<Byte> -> UUID, pk1: PubKey, pk2: PubKey, tpType: seq<Byte>) returns (entry: Entry)
    ensures entry == MakeEntry(hash, pk1, pk2, tpType) && entry.isPublic
  {
    var id := MakeTransportID(hash, pk1, pk2, tpType);
    return Entry(id, SortEdges(pk1, pk2), tpType, true);
  }

  /** Both ends of a connection expect the same entry, and each finds the other on it. */
  lemma EndsAgree(hash: seq<Byte> -> UUID, a: PubKey, b: PubKey, tpType: seq<Byte>)
    ensures var e := MakeEntry(hash, a, b, tpType);
      && e == MakeEntry(hash, b, a, tpType)
      && e.RemoteEdge(a) == b && e.RemoteEdge(b) == a
      && (forall pk :: e.EdgeIndex(pk).Some? <==> pk == a || pk == b)
      && (e.EdgeIndex(a) == e.EdgeIndex(b) <==> a == b)
  {
    SortEdgesIff(a, b, b, a);
  }

  /** A secret key, by the public key it belongs to. */
  datatype SecKey = SecKey(pk: PubKey)

  datatype Sig = NoSig | Sig(signer: PubKey, payload: seq<Byte>)

  function SignPayload(payload: seq<Byte>, sk: SecKey): Sig {
    Sig(sk.pk, payload)
  }

  predicate Verifies(pk: PubKey, sig: Sig, payload: seq<Byte>) {
    sig == Sig(pk, payload)
  }

  /** What a signed entry says when it is sent or registered. */
  datatype Signed = Signed(entry: Entry, signatures: (Sig, Sig)) {
    function At(i: nat): Sig {
      if i == 0 then signatures.0 else signatures.1
    }

    function With(i: nat, sig: Sig): Signed {
      this.(signatures := if i == 0 then (sig, signatures.1) else (signatures.0, sig))
    }

    /** Each edge has signed this entry, in the slot of that edge. */
    predicate FullySigned() {
      && Verifies(entry.edges.0, signatures.0, entry.ToBinary())
      && Verifies(entry.edges.1, signatures.1, entry.ToBinary())
    }
  }

  class SignedEntry {
    const entry: Entry
    var signatures: (Sig, Sig)

    function Value(): Signed
      reads this
    {
      Signed(entry, signatures)
    }

    constructor Decode(s: Signed)
      ensures Value() == s
    {
      entry := s.entry;
      signatures := s.signatures;
    }

    /** Puts the signature in the slot of the given key; a key that is no edge signs nothing. */
    method Sign(pk: PubKey, sk: SecKey) returns (ok: bool)
      modifies this
      ensures ok <==> pk == entry.edges.0 || pk == entry.edges.1
      ensures match entry.EdgeIndex(pk)
        case None => Value() == old(Value())
        case Some(i) => Value() == old(Value()).With(i, Sig(sk.pk, entry.ToBinary()))
    {
      var idx := entry.EdgeIndex(pk);
      if idx.None? {
        return false;
      }
      var sig := SignPayload(entry.ToBinary(), sk);
      if idx.value == 0 {
        signatures := (sig, signatures.1);
      } else {
        signatures := (signatures.0, sig);
      }
      return true;
    }

    method Signature(pk: PubKey) returns (sig: Option<Sig>)
      ensures sig == match entry.EdgeIndex(pk) case None => None case Some(i) => Some(Value().At(i))
    {
      match entry.EdgeIndex(pk) {
        case None => return None;
        case Some(i) => return Some(if i == 0 then signatures.0 else signatures.1);
      }
    }
  }

  /** One end's view of a connection: the two keys and the network it runs over. */
  datatype Conn = Conn(local: PubKey, remote: PubKey, network: seq<Byte>) {
    function Flip(): Conn {
      Conn(remote, local, network)
    }

    function Expected(hash: seq<Byte> -> UUID): Entry {
      MakeEntry(hash, local, remote, network)
    }
  }

  /** The message an honest initiator sends: the entry both ends expect, with its own signature in its own slot. */
  ghost function Proposal(hash: seq<Byte> -> UUID, conn: Conn, sk: SecKey): Signed
    requires conn.Expected(hash).EdgeIndex(conn.local).Some?
  {
    var e := conn.Expected(hash);
    Signed(e, (NoSig, NoSig)).With(e.EdgeIndex(conn.local).value, Sig(sk.pk, e.ToBinary()))
  }

  /** The initiating end up to its message; signing never fails, as its own key is always an edge. */
  method Propose(hash: seq<Byte> -> UUID, conn: Conn, sk: SecKey) returns (message: Result<Signed>)
    ensures conn.Expected(hash).EdgeIndex(conn.local).Some?
    ensures message == Ok(Proposal(hash, conn, sk))
  {
    var entry := NewEntry(hash, conn.local, conn.remote, conn.network);
    EndsAgree(hash, conn.local, conn.remote, conn.network);
    var se := new SignedEntry.Decode(Signed(entry, (NoSig, NoSig)));
    var ok := se.Sign(conn.local, sk);
    if !ok {
      return Err("failed to sign entry");
    }
    return Ok(se.Value());
  }

  /** The initiating end after its message: the error it returns, and the status it reports. */
  method Await(accepted: Option<Byte>) returns (err: Option<string>, isUp: bool)
    ensures err.None? <==> accepted.Some? && accepted.value != 0
    ensures isUp <==> err.None?
  {
    if accepted.None? {
      err := Some("failed to read response");
    } else if accepted.value == 0 {
      err := Some("transport settlement rejected by remote");
    } else {
      err := None;
    }
    isUp := err.None?;
  }

  method CompareEntries(expected: Entry, received: Entry) returns (err: Option<string>)
    ensures err.None? <==> expected == received
  {
    if expected.id != received.id {
      return Some("received entry's 'tp_id' is not of expected");
    }
    if expected.edges != received.edges {
      return Some("received entry's 'edges' is not of expected");
    }
    if expected.tpType != received.tpType {
      return Some("received entry's 'type' is not of expected");
    }
    if expected.isPublic != received.isPublic {
      return Some("received entry's 'public' is not of expected");
    }
    return None;
  }

  /** The messages a responder accepts: the entry it expects itself, signed by the key at the other end. */
  ghost predicate Acceptable(hash: seq<Byte> -> UUID, conn: Conn, s: Signed) {
    && s.entry == conn.Expected(hash)
    && var i := s.entry.EdgeIndex(conn.remote);
    && i.Some? && Verifies(conn.remote, s.At(i.value), s.entry.ToBinary())
  }

  /** What a responder registers for a message it accepts: the message with its own signature in its own slot. */
  ghost function Countersigned(hash: seq<Byte> -> UUID, conn: Conn, sk: SecKey, s: Signed): Signed {
    var i := conn.Expected(hash).EdgeIndex(conn.local);
    if i.None? then s else s.With(i.value, Sig(sk.pk, s.entry.ToBinary()))
  }

  /** The responding end: whatever message arrives, what it registers and what it answers. */
  method Respond(hash: seq<Byte> -> UUID, conn: Conn, sk: SecKey, message: Signed)
    returns (registered: Option<Signed>, answer: Option<Byte>)
    ensures if Acceptable(hash, conn, message)
      then registered == Some(Countersigned(hash, conn, sk, message)) && answer == Some(1)
      else registered == None && answer == None
  {
    var entry := NewEntry(hash, conn.local, conn.remote, conn.network);
    EndsAgree(hash, conn.local, conn.remote, conn.network);
    var recvSE := new SignedEntry.Decode(message);
    var err := CompareEntries(entry, recvSE.entry);
    if err.Some? {
      return None, None;
    }
    var sig := recvSE.Signature(conn.remote);
    if sig.None? || !Verifies(conn.remote, sig.value, recvSE.entry.ToBinary()) {
      return None, None;
    }
    var ok := recvSE.Sign(conn.local, sk);
    if !ok {
      return None, None;
    }
    return Some(recvSE.Value()), Some(1);
  }

  /**
   * Whatever message a responder accepts, the entry it registers is the one both ends expect. For two distinct keys
   * each has then signed it, in its own slot. A visor connected to itself finds both keys in slot 0 and leaves slot 1
   * as the message had it.
   */
  lemma RegisteredEntry(hash: seq<Byte> -> UUID, conn: Conn, sk: SecKey, message: Signed)
    requires Acceptable(hash, conn, message) && sk.pk == conn.local
    ensures var reg := Countersigned(hash, conn, sk, message);
      && reg.entry == conn.Expected(hash) == conn.Flip().Expected(hash)
      && (conn.local != conn.remote ==> reg.FullySigned())
      && (conn.local == conn.remote ==> (reg.FullySigned() <==> message.FullySigned()))
  {
    EndsAgree(hash, conn.local, conn.remote, conn.network);
  }

  /** Two connections share a transport: the same two visors, whichever of them dialled, over the same network. */
  predicate SameTransport(c: Conn, d: Conn) {
    c.network == d.network && (d == c || d == c.Flip())
  }

  /**
   * What two responders register, whatever messages they accepted: one ID exactly for one transport, without a hash
   * collision, and then one entry. All entries registered are public.
   */
  lemma RegisteredIDIff(hash: seq<Byte> -> UUID, c: Conn, sk: SecKey, m: Signed, d: Conn, tk: SecKey, n: Signed)
    requires Acceptable(hash, c, m) && Acceptable(hash, d, n)
    requires var p, q := IDPreimage(c.local, c.remote, c.network), IDPreimage(d.local, d.remote, d.network);
             hash(p) == hash(q) ==> p == q
    ensures var e, f := Countersigned(hash, c, sk, m).entry, Countersigned(hash, d, tk, n).entry;
      && (e.id == f.id <==> SameTransport(c, d)) && (e == f <==> SameTransport(c, d))
      && e.isPublic && f.isPublic
  {
    EntryIDIff(hash, c.local, c.remote, c.network, d.local, d.remote, d.network);
  }

  /** An honest run is always accepted; the registered entry carries both signatures exactly when the keys differ. */
  lemma HonestRun(hash: seq<Byte> -> UUID, conn: Conn, sk1: SecKey, sk2: SecKey)
    requires sk1.pk == conn.local && sk2.pk == conn.remote
    ensures conn.Expected(hash).EdgeIndex(conn.local).Some?
    ensures var message := Proposal(hash, conn, sk1);
      && Acceptable(hash, conn.Flip(), message)
      && (Countersigned(hash, conn.Flip(), sk2, message).FullySigned() <==> conn.local != conn.remote)
  {
    EndsAgree(hash, conn.local, conn.remote, conn.network);
  }

  /** The whole handshake between two honest ends. */
  method Settle(hash: seq<Byte> -> UUID, conn: Conn, sk1: SecKey, sk2: SecKey)
    returns (registered: Option<Signed>, err: Option<string>)
    requires sk1.pk == conn.local && sk2.pk == conn.remote
    ensures err == None && registered.Some?
    ensures registered.value.entry == conn.Expected(hash)
    ensures registered.value.entry.id == hash(IDPreimage(conn.local, conn.remote, conn.network))
    ensures registered.value.entry.isPublic && registered.value.entry.tpType == conn.network
    ensures registered.value.FullySigned() <==> conn.local != conn.remote
  {
    HonestRun(hash, conn, sk1, sk2);
    var message := Propose(hash, conn, sk1);
    var answer;
    registered, answer := Respond(hash, conn.Flip(), sk2, message.value);
    var isUp;
    err, isUp := Await(answer);
  }
}
