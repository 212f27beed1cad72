/**
 * The three length-prefixed framings: the 6-byte packet header (pkg/routing/packet.go), the 3-byte setup header
 * (pkg/setup/protocol.go) and the 2-byte app header (pkg/app/protocol.go), on a byte stream; and the byte counters
 * the two ends of a transport keep (pkg/transport/managed_transport.go, pkg/transport/log.go).
 */
module Framing {
  import opened Base
  import opened Bytes

  /** A frame: the header bytes beside the length, and the body. */
  datatype Frame = Frame(tag: seq<Byte>, body: seq<Byte>)

  /** A header of `header` bytes with the 16-bit length of the body at offset `at`. */
  datatype Format = Format(header: nat, at: nat, emptyOk: bool) {
    predicate Valid() {
      at + 2 <= header
    }

    predicate Has(f: Frame) {
      |f.tag| + 2 == header
    }

    /** The frames this format carries: the rest have their length cut to 16 bits, or are refused when read. */
    predicate Carries(f: Frame) {
      Has(f) && |f.body| < UINT16 && (emptyOk || f.body != [])
    }

    /** The bytes written for a frame; only the low 16 bits of the length fit the header. */
    function Lay(f: Frame): (s: seq<Byte>)
      requires Valid() && Has(f)
      ensures |s| == header + |f.body|
    {
      f.tag[..at] + BE(|f.body|, 2) + f.tag[at..] + f.body
    }

    function LayAll(fs: seq<Frame>): seq<Byte>
      requires Valid() && forall f :: f in fs ==> Has(f)
    {
      if fs == [] then [] else Lay(fs[0]) + LayAll(fs[1..])
    }

    /** The length a header announces. */
    function Size(s: seq<Byte>): (n: nat)
      requires Valid() && header <= |s|
      ensures n < UINT16
    {
      ValueBound(s[at..at + 2]);
      Pow256Values();
      Value(s[at..at + 2])
    }

    /** One read: the frame and the bytes after it, or the reason there is none. */
    function Unlay(s: seq<Byte>): (r: Result<(Frame, seq<Byte>)>)
      requires Valid()
      ensures r.Ok? ==> Has(r.value.0) && |r.value.1| < |s|
    {
      if |s| < header || |s| < header + Size(s) then Err("EOF")
      else if Size(s) == 0 && !emptyOk then Err("empty packet")
      else
        var end := header + Size(s);
        Ok((Frame(s[..at] + s[at + 2..header], s[header..end]), s[end..]))
    }

    /** Reading until a read fails: the frames, and the bytes no frame was made of. */
    function UnlayAll(s: seq<Byte>): (seq<Frame>, seq<Byte>)
      requires Valid()
      decreases |s|
    {
      match Unlay(s)
      case Err(_) => ([], s)
      case Ok((f, rest)) => var (fs, left) := UnlayAll(rest); ([f] + fs, left)
    }

    /** A body over 16 bits of length is cut short, and what was cut is read as the next frame. */
    lemma UnlayLay(f: Frame, rest: seq<Byte>)
      requires Valid() && Has(f)
      ensures Size(Lay(f) + rest) == |f.body| % UINT16
      ensures |f.body| % UINT16 != 0 || emptyOk ==>
        var cut := |f.body| % UINT16;
        Unlay(Lay(f) + rest) == Ok((Frame(f.tag, f.body[..cut]), f.body[cut..] + rest))
      ensures |f.body| % UINT16 == 0 && !emptyOk ==> Unlay(Lay(f) + rest) == Err("empty packet")
    {
      var s, n := Lay(f) + rest, |f.body|;
      assert s[at..at + 2] == BE(n, 2);
      LowTwo(n);
      var cut := n % UINT16;
      assert s[..at] == f.tag[..at];
      assert s[at + 2..header] == f.tag[at..];
      assert f.tag == f.tag[..at] + f.tag[at..];
      assert s[header..] == f.body + rest;
      assert s[header..header + cut] == s[header..][..cut] == f.body[..cut];
      assert s[header + cut..] == s[header..][cut..] == f.body[cut..] + rest;
    }

    /** A frame comes back whole, and the stream stays in step, exactly when the format carries it. */
    lemma RoundTripIff(f: Frame, rest: seq<Byte>)
      requires Valid() && Has(f)
      ensures Unlay(Lay(f) + rest) == Ok((f, rest)) <==> Carries(f)
    {
      UnlayLay(f, rest);
      if |f.body| < UINT16 {
        assert f.body[..|f.body|] == f.body && f.body[|f.body|..] + rest == rest;
      }
    }

    /** A list of frames is read back as it was written, with nothing left over, exactly when each one is carried. */
    lemma {:induction false} StreamRoundTripIff(fs: seq<Frame>)
      requires Valid() && forall f :: f in fs ==> Has(f)
      ensures UnlayAll(LayAll(fs)) == (fs, []) <==> forall f :: f in fs ==> Carries(f)
    {
      if fs == [] {
        assert Unlay([]).Err?;
      } else {
        var f, rest := fs[0], LayAll(fs[1..]);
        RoundTripIff(f, rest);
        StreamRoundTripIff(fs[1..]);
        assert fs == [f] + fs[1..];
        UnlayLay(f, rest);
        if Carries(f) {
          assert forall g :: g in fs <==> g == f || g in fs[1..];
          if UnlayAll(LayAll(fs)) == (fs, []) {
            assert ([f] + UnlayAll(rest).0)[1..] == UnlayAll(rest).0;
          }
        } else if Unlay(LayAll(fs)).Ok? {
          var got := UnlayAll(LayAll(fs)).0;
          assert got[0].body != f.body;
        }
      }
    }

    lemma NothingToRead()
      requires Valid()
      ensures Unlay([]) == Err("EOF")
    {
    }

    /** A frame of which only a part has arrived is not read. */
    lemma PartialFrame(f: Frame, k: nat)
      requires Valid() && Has(f) && Carries(f) && k < |Lay(f)|
      ensures Unlay(Lay(f)[..k]).Err?
    {
      if header <= k {
        UnlayLay(f, []);
        assert Lay(f) + [] == Lay(f);
        assert Lay(f)[..k][at..at + 2] == Lay(f)[at..at + 2];
      }
    }

    /** How many of the frames lie wholly within the first `k` bytes of their stream. */
    function Whole(fs: seq<Frame>, k: nat): (n: nat)
      requires Valid() && forall f :: f in fs ==> Has(f)
      ensures n <= |fs|
    {
      if fs == [] || k < |Lay(fs[0])| then 0 else 1 + Whole(fs[1..], k - |Lay(fs[0])|)
    }

    /** However much of the stream has arrived, exactly the frames that have arrived whole are read. */
    lemma {:induction false} PartialStream(fs: seq<Frame>, k: nat)
      requires Valid() && (forall f :: f in fs ==> Has(f) && Carries(f)) && k <= |LayAll(fs)|
      ensures UnlayAll(LayAll(fs)[..k]).0 == fs[..Whole(fs, k)]
    {
      hide Unlay, Lay, Carries;
      if fs == [] {
        NothingToRead();
      } else {
        var f, rest := fs[0], LayAll(fs[1..]);
        var n, s := |Lay(f)|, LayAll(fs)[..k];
        if n <= k {
          assert s == Lay(f) + rest[..k - n];
          RoundTripIff(f, rest[..k - n]);
          PartialStream(fs[1..], k - n);
          assert fs[..Whole(fs, k)] == [f] + fs[1..][..Whole(fs[1..], k - n)];
        } else {
          assert s == Lay(f)[..k];
          PartialFrame(f, k);
        }
      }
    }

    /** What a read takes off the stream is what writing the frame would have put there. */
    lemma LayUnlay(s: seq<Byte>)
      requires Valid() && Unlay(s).Ok?
      ensures var (f, rest) := Unlay(s).value; Lay(f) + rest == s && Carries(f)
    {
      var (f, rest) := Unlay(s).value;
      BEOfValue(s[at..at + 2]);
      assert s == s[..at] + s[at..at + 2] + s[at + 2..header] + f.body + rest;
      assert f.tag[..at] == s[..at] && f.tag[at..] == s[at + 2..header];
    }
  }

  lemma LowTwo(n: nat)
    ensures Value(BE(n, 2)) == n % UINT16
  {
    assert BE(n, 2) == [n / 256 % 256, n % 256];
    assert Value([n / 256 % 256]) == n / 256 % 256;
    assert [n / 256 % 256, n % 256][..1] == [n / 256 % 256];
  }

  const PACKETS := Format(6, 0, true)
  const SETUP := Format(3, 1, false)
  const APP := Format(2, 0, true)

  /** One direction of a connection: what was written and not yet read. */
  class Pipe {
    var bytes: seq<Byte>

    method Write(p: seq<Byte>)
      modifies this
      ensures bytes == old(bytes) + p
    {
      bytes := bytes + p;
    }

    /** Fills the buffer, or uses up a stream that is too short for it. */
    method ReadFull(buf: array<Byte>) returns (ok: bool)
      modifies this, buf
      ensures ok <==> buf.Length <= |old(bytes)|
      ensures ok ==> buf[..] == old(bytes)[..buf.Length] && bytes == old(bytes)[buf.Length..]
      ensures !ok ==> bytes == []
    {
      var i := 0;
      while i < buf.Length
        invariant 0 <= i <= buf.Length && i <= |old(bytes)|
        invariant buf[..i] == old(bytes)[..i] && bytes == old(bytes)[i..]
      {
        if bytes == [] {
          return false;
        }
        buf[i] := bytes[0];
        bytes := bytes[1..];
        i := i + 1;
      }
      return true;
    }
  }

  /** Reads a header and then a body of the length it announces, as all three readers do. */
  method ReadFrame(format: Format, pipe: Pipe) returns (r: Result<(seq<Byte>, seq<Byte>)>)
    requires format.Valid()
    modifies pipe
    ensures match format.(emptyOk := true).Unlay(old(pipe.bytes))
      case Ok((f, rest)) =>
        r == Ok((old(pipe.bytes)[..format.header], f.body)) && pipe.bytes == rest
      case Err(_) => r == Err("EOF") && pipe.bytes == []
  {
    ghost var s := pipe.bytes;
    var h := new Byte[format.header];
    var ok := pipe.ReadFull(h);
    if !ok {
      return Err("EOF");
    }
    assert h[format.at..format.at + 2] == s[format.at..format.at + 2];
    var body := new Byte[format.Size(h[..])];
    ok := pipe.ReadFull(body);
    if !ok {
      return Err("EOF");
    }
    ghost var end := format.header + body.Length;
    assert s[format.header..][..body.Length] == s[format.header..end] && s[format.header..][body.Length..] == s[end..];
    return Ok((h[..], body[..]));
  }

  function PacketFrame(p: Packet): (f: Frame)
    ensures PACKETS.Has(f)
  {
    Frame(BE(p.id, 4), p.payload)
  }

  /** The accessors RouteID and Payload. */
  function PacketOf(raw: seq<Byte>): Packet
    requires |raw| >= PACKETS.header
  {
    ValueBound(raw[2..6]);
    Pow256Values();
    Packet(Value(raw[2..6]), raw[PACKETS.header..])
  }

  /** The accessors return what MakePacket was given. */
  lemma PacketAccessors(p: Packet)
    requires |p.payload| < UINT16
    ensures PacketOf(PACKETS.Lay(PacketFrame(p))) == p && PACKETS.Size(PACKETS.Lay(PacketFrame(p))) == |p.payload|
  {
    var raw := PACKETS.Lay(PacketFrame(p));
    assert PACKETS.Size(raw) == |p.payload| by {
      hide Format.Lay, PacketOf;
      PACKETS.UnlayLay(PacketFrame(p), []);
      assert raw + [] == raw;
    }
    assert raw[2..6] == BE(p.id, 4) && raw[6..] == p.payload;
    hide Format.Lay, BE;
    Pow256Values();
    ValueOfBE(p.id, 4);
  }

  lemma FourBytes(n: nat)
    requires n < UINT32
    ensures BE(n, 4) == [n / 0x100_0000, n / 0x1_0000 % 256, n / 256 % 256, n % 256]
  {
    assert BE(n, 4) == BE(n / 256, 3) + [n % 256];
    assert BE(n / 256, 3) == BE(n / 0x1_0000, 2) + [n / 256 % 256];
    assert BE(n / 0x1_0000, 2) == BE(n / 0x100_0000, 1) + [n / 0x1_0000 % 256];
    assert BE(n / 0x100_0000, 1) == [n / 0x100_0000];
  }

  /** Byte by byte: the payload's length in bytes 0 and 1, the route ID in bytes 2 to 5, then the payload. */
  lemma PacketBytes(p: Packet)
    ensures var raw, n := PACKETS.Lay(PacketFrame(p)), |p.payload|;
      && |raw| == 6 + n && raw[0] == n / 256 % 256 && raw[1] == n % 256
      && raw[2] == p.id / 0x100_0000 && raw[3] == p.id / 0x1_0000 % 256
      && raw[4] == p.id / 256 % 256 && raw[5] == p.id % 256
      && raw[6..] == p.payload
  {
    FourBytes(p.id);
    assert BE(|p.payload|, 2) == [|p.payload| / 256 % 256, |p.payload| % 256];
    assert PACKETS.Lay(PacketFrame(p)) == BE(|p.payload|, 2) + BE(p.id, 4) + p.payload;
  }

  /** A payload over 16 bits of length is refused (the source panics). */
  method MakePacket(id: RouteID, payload: seq<Byte>) returns (r: Result<seq<Byte>>)
    ensures r.Ok? <==> |payload| < UINT16
    ensures r.Ok? ==> r.value == PACKETS.Lay(PacketFrame(Packet(id, payload)))
  {
    if |payload| >= UINT16 {
      return Err("packet size exceeded");
    }
    var packet := new Byte[PACKETS.header](_ => 0);
    PutUint(packet, 0, |payload|, 2);
    PutUint(packet, 2, id, 4);
    assert packet[..] == BE(|payload|, 2) + BE(id, 4);
    return Ok(packet[..] + payload);
  }

  /** The read of a managed transport: the whole packet, header included. */
  method ReadPacket(pipe: Pipe, log: LogEntry) returns (r: Result<seq<Byte>>)
    modifies pipe, log
    ensures match PACKETS.Unlay(old(pipe.bytes))
      case Ok((f, rest)) =>
        && r == Ok(PACKETS.Lay(f)) && pipe.bytes == rest
        && log.recv == (old(log.recv) + |f.body|) % UINT64 && log.sent == old(log.sent)
      case Err(_) => r.Err? && log.recv == old(log.recv) && log.sent == old(log.sent)
  {
    ghost var s := pipe.bytes;
    var got := ReadFrame(PACKETS, pipe);
    if got.Err? {
      return Err(got.error);
    }
    var (h, p) := got.value;
    PACKETS.LayUnlay(s);
    ghost var (f, rest) := PACKETS.Unlay(s).value;
    assert PACKETS.Lay(f) == (PACKETS.Lay(f) + rest)[..|PACKETS.Lay(f)|];
    assert h + p == PACKETS.Lay(f);
    var packet := h + p;
    if |packet| > PACKETS.header {
      log.AddRecv(|packet| - PACKETS.header);
    }
    return Ok(packet);
  }

  /** The write of a managed transport on a connection that takes every byte. */
  method WritePacket(pipe: Pipe, log: LogEntry, id: RouteID, payload: seq<Byte>) returns (ok: bool)
    modifies pipe, log
    ensures ok <==> |payload| < UINT16
    ensures pipe.bytes == old(pipe.bytes) + if ok then PACKETS.Lay(PacketFrame(Packet(id, payload))) else []
    ensures log.sent == (if ok then (old(log.sent) + |payload|) % UINT64 else old(log.sent))
    ensures log.recv == old(log.recv)
  {
    var packet := MakePacket(id, payload);
    if packet.Err? {
      return false;
    }
    pipe.Write(packet.value);
    if |packet.value| > PACKETS.header {
      log.AddSent(|packet.value| - PACKETS.header);
    }
    return true;
  }

  type Uint64 = x: int | 0 <= x < UINT64

  /** The byte counters of one end of a transport. */
  class LogEntry {
    var recv: Uint64
    var sent: Uint64

    method AddRecv(n: nat)
      modifies this`recv
      ensures recv == (old(recv) + n) % UINT64
    {
      recv := (recv + n) % UINT64;
    }

    method AddSent(n: nat)
      modifies this`sent
      ensures sent == (old(sent) + n) % UINT64
    {
      sent := (sent + n) % UINT64;
    }
  }

  // Setup messages.

  method WriteSetup(pipe: Pipe, t: Byte, body: seq<Byte>)
    modifies pipe
    ensures pipe.bytes == old(pipe.bytes) + SETUP.Lay(Frame([t], body))
  {
    var raw := new Byte[3 + |body|](_ => 0);
    raw[0] := t;
    PutUint(raw, 1, |body|, 2);
    forall i | 0 <= i < |body| {
      raw[3 + i] := body[i];
    }
    assert raw[1..3] == BE(|body|, 2);
    assert raw[..] == [t] + BE(|body|, 2) + body;
    pipe.Write(raw[..]);
  }

  method ReadSetup(pipe: Pipe) returns (r: Result<(Byte, seq<Byte>)>)
    modifies pipe
    ensures match SETUP.Unlay(old(pipe.bytes))
      case Ok((f, rest)) => r == Ok((f.tag[0], f.body)) && pipe.bytes == rest
      case Err(e) => r == Err(e) && pipe.bytes == if e == "EOF" then [] else old(pipe.bytes)[3..]
  {
    ghost var s := pipe.bytes;
    var got := ReadFrame(SETUP, pipe);
    if got.Err? {
      return Err(got.error);
    }
    var (h, pay) := got.value;
    if |pay| == 0 {
      return Err("empty packet");
    }
    return Ok((h[0], pay));
  }

  /** Byte by byte: the type in byte 0, the body's length in bytes 1 and 2, then the body. */
  lemma SetupBytes(t: Byte, body: seq<Byte>)
    ensures var raw, n := SETUP.Lay(Frame([t], body)), |body|;
      && |raw| == 3 + n && raw[0] == t && raw[1] == n / 256 % 256 && raw[2] == n % 256 && raw[3..] == body
  {
    assert BE(|body|, 2) == [|body| / 256 % 256, |body| % 256];
    assert SETUP.Lay(Frame([t], body)) == [t] + BE(|body|, 2) + body;
  }

  /** A setup message comes back exactly with a body of 1 to 65535 bytes; one without a body is refused when read. */
  lemma SetupBodyLimit(t: Byte, body: seq<Byte>, rest: seq<Byte>)
    ensures SETUP.Unlay(SETUP.Lay(Frame([t], body)) + rest) == Ok((Frame([t], body), rest)) <==> 0 < |body| < UINT16
  {
    SETUP.RoundTripIff(Frame([t], body), rest);
  }

  // App messages.

  /** The body of an app frame: its type, the request ID and the data. */
  function AppFrame(frame: Byte, id: Byte, data: seq<Byte>): (f: Frame)
    ensures APP.Has(f)
  {
    Frame([], [frame, id] + data)
  }

  method WriteApp(pipe: Pipe, frame: Byte, id: Byte, data: seq<Byte>)
    modifies pipe
    ensures pipe.bytes == old(pipe.bytes) + APP.Lay(AppFrame(frame, id, data))
  {
    var packet := [frame, id] + data;
    var buf := new Byte[2](_ => 0);
    PutUint(buf, 0, |packet|, 2);
    assert buf[..] == BE(|packet|, 2);
    pipe.Write(buf[..] + packet);
  }

  method ReadApp(pipe: Pipe) returns (r: Result<seq<Byte>>)
    modifies pipe
    ensures match APP.Unlay(old(pipe.bytes))
      case Ok((f, rest)) => r == Ok(f.body) && pipe.bytes == rest
      case Err(_) => r == Err("EOF") && pipe.bytes == []
  {
    var got := ReadFrame(APP, pipe);
    if got.Err? {
      return Err(got.error);
    }
    return Ok(got.value.1);
  }

  /** The two bytes of type and ID count towards the length: data of up to 65533 bytes comes back, longer data never. */
  lemma AppDataLimit(frame: Byte, id: Byte, data: seq<Byte>, rest: seq<Byte>)
    ensures APP.Unlay(APP.Lay(AppFrame(frame, id, data)) + rest) == Ok((AppFrame(frame, id, data), rest))
      <==> |data| <= UINT16 - 3
  {
    APP.RoundTripIff(AppFrame(frame, id, data), rest);
  }

  /** Byte by byte: the length of what follows in bytes 0 and 1, the type in 2, the request ID in 3, then the data. */
  lemma AppBytes(frame: Byte, id: Byte, data: seq<Byte>)
    ensures var raw, n := APP.Lay(AppFrame(frame, id, data)), |data| + 2;
      && |raw| == 2 + n && raw[0] == n / 256 % 256 && raw[1] == n % 256
      && raw[2] == frame && raw[3] == id && raw[4..] == data
  {
    var n := |data| + 2;
    assert BE(n, 2) == [n / 256 % 256, n % 256];
    assert APP.Lay(AppFrame(frame, id, data)) == BE(n, 2) + ([frame, id] + data);
  }

  // Conservation: what one end counts as sent, the other counts as received.

  function Total(ps: seq<Packet>): nat {
    if ps == [] then 0 else Total(ps[..|ps| - 1]) + |ps[|ps| - 1].payload|
  }

  function Frames(ps: seq<Packet>): (fs: seq<Frame>)
    ensures |fs| == |ps| && forall f :: f in fs ==> PACKETS.Has(f)
    ensures forall i :: 0 <= i < |ps| ==> fs[i] == PacketFrame(ps[i])
  {
    if ps == [] then [] else [PacketFrame(ps[0])] + Frames(ps[1..])
  }

  /** A direction of a transport: the bytes under way, both counters, and what was written and read so far. */
  datatype Direction = Direction(wire: seq<Byte>, sent: Uint64, recv: Uint64, wrote: seq<Packet>, got: seq<Packet>) {
    /** WritePacket at the sending end; a payload that is too long writes nothing. */
    function Write(p: Packet): Direction {
      if |p.payload| >= UINT16 then this
      else this.(
        wire := wire + PACKETS.Lay(PacketFrame(p)), sent := (sent + |p.payload|) % UINT64, wrote := wrote + [p])
    }

    /** ReadPacket at the receiving end; it waits while no whole packet has arrived. */
    function Read(): Direction {
      match PACKETS.Unlay(wire)
      case Err(_) => this
      case Ok((f, rest)) =>
        this.(wire := rest, recv := (recv + |f.body|) % UINT64, got := got + [PacketOf(PACKETS.Lay(f))])
    }

    function Run(es: seq<Option<Packet>>): Direction {
      if es == [] then this
      else
        var d := Run(es[..|es| - 1]);
        match es[|es| - 1] case Some(p) => d.Write(p) case None => d.Read()
    }

    /** The wire holds the packets written and not yet read. */
    ghost predicate InOrder() {
      && (forall p :: p in wrote ==> |p.payload| < UINT16)
      && |got| <= |wrote| && got == wrote[..|got|]
      && wire == PACKETS.LayAll(Frames(wrote[|got|..]))
    }

    /** Each counter has advanced by what passed its end. */
    predicate Counted(sent0: Uint64, recv0: Uint64) {
      && sent == (sent0 + Total(wrote)) % UINT64
      && recv == (recv0 + Total(got)) % UINT64
    }
  }

  lemma {:induction false} LayAllAppend(fs: seq<Frame>, f: Frame)
    requires PACKETS.Has(f) && forall g :: g in fs ==> PACKETS.Has(g)
    ensures forall g :: g in fs + [f] ==> PACKETS.Has(g)
    ensures PACKETS.LayAll(fs + [f]) == PACKETS.LayAll(fs) + PACKETS.Lay(f)
  {
    hide Format.Lay;
    if fs == [] {
      assert PACKETS.LayAll([f]) == PACKETS.Lay(f) + PACKETS.LayAll([]);
    } else {
      assert (fs + [f])[1..] == fs[1..] + [f];
      LayAllAppend(fs[1..], f);
    }
  }

  lemma FramesAppend(w: seq<Packet>, p: Packet)
    ensures Frames(w + [p]) == Frames(w) + [PacketFrame(p)]
  {
    hide PacketFrame;
  }

  lemma WriteInOrder(d: Direction, p: Packet)
    requires d.InOrder()
    ensures d.Write(p).InOrder()
  {
    hide Format.Lay, Format.LayAll, PacketFrame, BE, Frames;
    if |p.payload| < UINT16 {
      var w, d' := d.wrote[|d.got|..], d.Write(p);
      assert d'.wrote[|d'.got|..] == w + [p];
      assert d'.wire == PACKETS.LayAll(Frames(w + [p])) by {
        FramesAppend(w, p);
        LayAllAppend(Frames(w), PacketFrame(p));
      }
      assert d'.wrote[..|d.got|] == d.wrote[..|d.got|];
    }
  }

  lemma ReadTakes(p: Packet, rest: seq<Byte>)
    requires |p.payload| < UINT16
    ensures PACKETS.Unlay(PACKETS.Lay(PacketFrame(p)) + rest) == Ok((PacketFrame(p), rest))
    ensures PacketOf(PACKETS.Lay(PacketFrame(p))) == p
  {
    PACKETS.RoundTripIff(PacketFrame(p), rest);
    PacketAccessors(p);
  }

  /** A read takes the oldest packet under way. */
  lemma ReadInOrder(d: Direction)
    requires d.InOrder()
    ensures d.Read().InOrder()
    ensures if d.got == d.wrote then d.Read() == d
      else var p := d.wrote[|d.got|];
        d.Read().got == d.got + [p] && d.Read().recv == (d.recv + |p.payload|) % UINT64
  {
    hide Format.Lay, Format.Unlay, PacketOf, BE;
    var w := d.wrote[|d.got|..];
    if w == [] {
      PACKETS.NothingToRead();
      assert d.got == d.wrote;
    } else {
      var p := w[0];
      assert Frames(w)[1..] == Frames(w[1..]);
      ReadTakes(p, PACKETS.LayAll(Frames(w[1..])));
      assert d.wrote[..|d.got| + 1] == d.got + [p];
      assert d.wrote[|d.got| + 1..] == w[1..];
    }
  }

  lemma TotalAppend(ps: seq<Packet>, p: Packet)
    ensures Total(ps + [p]) == Total(ps) + |p.payload|
  {
    assert (ps + [p])[..|ps|] == ps;
  }

  lemma WrapsAdd(start: Uint64, n: nat, m: nat)
    ensures ((start + n) % UINT64 + m) % UINT64 == (start + (n + m)) % UINT64
  {
  }

  lemma WriteCounted(d: Direction, p: Packet, sent0: Uint64, recv0: Uint64)
    requires d.Counted(sent0, recv0)
    ensures d.Write(p).Counted(sent0, recv0)
  {
    hide PACKETS, Format.Lay, PacketFrame;
    TotalAppend(d.wrote, p);
    WrapsAdd(sent0, Total(d.wrote), |p.payload|);
  }

  lemma ReadCounted(d: Direction, sent0: Uint64, recv0: Uint64)
    requires d.InOrder() && d.Counted(sent0, recv0)
    ensures d.Read().Counted(sent0, recv0)
  {
    hide Direction.InOrder, Direction.Read;
    ReadInOrder(d);
    ReadKeeps(d);
    if d.got != d.wrote {
      var p := d.wrote[|d.got|];
      TotalAppend(d.got, p);
      WrapsAdd(recv0, Total(d.got), |p.payload|);
    }
  }

  lemma ReadKeeps(d: Direction)
    requires d.InOrder()
    ensures d.got != d.wrote ==> |d.got| < |d.wrote|
    ensures d.Read().wrote == d.wrote && d.Read().sent == d.sent
  {
  }

  lemma DrainedIff(d: Direction)
    requires d.InOrder()
    ensures d.wire == [] <==> d.got == d.wrote
  {
    var w := d.wrote[|d.got|..];
    assert d.got == d.wrote <==> w == [];
    if w != [] {
      assert PACKETS.LayAll(Frames(w)) == PACKETS.Lay(Frames(w)[0]) + PACKETS.LayAll(Frames(w)[1..]);
    }
  }

  /**
   * However writes and reads interleave on a connection that loses nothing, the packets read are the first ones
   * written, in order, and each counter has advanced by the payload bytes that passed its end, modulo 2^64. Nothing
   * is under way exactly when everything written has been read; then both counters have advanced by the same amount.
   */
  lemma {:induction false} BytesConserved(d0: Direction, es: seq<Option<Packet>>)
    requires d0.wire == [] && d0.wrote == [] && d0.got == []
    ensures var d := d0.Run(es);
      && d.InOrder()
      && d.Counted(d0.sent, d0.recv)
      && (d.wire == [] <==> d.got == d.wrote)
      && (d.wire == [] ==> (d.sent - d0.sent) % UINT64 == (d.recv - d0.recv) % UINT64)
  {
    hide Direction.Write, Direction.Read, Direction.InOrder, Direction.Counted;
    if es == [] {
      StartsInOrder(d0);
    } else {
      BytesConserved(d0, es[..|es| - 1]);
      var before := d0.Run(es[..|es| - 1]);
      match es[|es| - 1] {
        case Some(p) =>
          WriteInOrder(before, p);
          WriteCounted(before, p, d0.sent, d0.recv);
        case None =>
          ReadInOrder(before);
          ReadCounted(before, d0.sent, d0.recv);
      }
    }
    DrainedIff(d0.Run(es));
    if d0.Run(es).got == d0.Run(es).wrote {
      SameAdvance(d0.Run(es), d0.sent, d0.recv);
    }
  }

  lemma StartsInOrder(d: Direction)
    requires d.wire == [] && d.wrote == [] && d.got == []
    ensures d.InOrder() && d.Counted(d.sent, d.recv)
  {
    assert d.wrote[|d.got|..] == [];
  }

  lemma SameAdvance(d: Direction, sent0: Uint64, recv0: Uint64)
    requires d.Counted(sent0, recv0) && d.got == d.wrote
    ensures (d.sent - sent0) % UINT64 == (d.recv - recv0) % UINT64
  {
    Wraps(sent0, Total(d.wrote));
    Wraps(recv0, Total(d.wrote));
  }

  lemma Wraps(start: Uint64, n: nat)
    ensures ((start + n) % UINT64 - start) % UINT64 == n % UINT64
  {
  }
}
