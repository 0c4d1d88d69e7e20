/** The bytes of the handshake: the send and recv methods of AbstractConnection.cs, what survives
    the trip, and the handshake of module Handshake run over byte channels. */
module HandshakeWire {
  import opened Bytes
  import opened Erlang
  import opened ExternalFormat
  import opened ExternalRoundTrip
  import H = Handshake

  const NTYPE_R6: Byte := 110      // 'n'
  const CHALLENGE_REPLY: Byte := 114
  const CHALLENGE_ACK: Byte := 97
  const CHALLENGE_STATUS: Byte := 115
  const DIGEST: nat := 16

  /** The five messages; those that carry a node name carry the sender's. */
  type Msg = H.Msg<seq<Byte>>

  function Body(m: Msg, node: string): (b: seq<Byte>)
    ensures b != []
  {
    match m
    case Name(dist, flags) => [NTYPE_R6] + (BE2(dist) + (BE4(flags) + CharBytes(node)))
    case Status(text) => [CHALLENGE_STATUS] + CharBytes(text)
    case Challenge(dist, flags, challenge) => [NTYPE_R6] + (BE2(dist) + (BE4(flags) + (BE4(challenge) + CharBytes(node))))
    case Reply(challenge, digest) => [CHALLENGE_REPLY] + (BE4(challenge) + digest)
    case Ack(digest) => [CHALLENGE_ACK] + digest
  }

  /** The length field is computed from the name, not from what is written. */
  function LengthField(m: Msg, node: string): nat {
    match m
    case Name(_, _) => |node| + 7
    case Status(text) => |text| + 1
    case Challenge(_, _, _) => |node| + 11
    case Reply(_, _) => 21
    case Ack(_) => 17
  }

  function Package(m: Msg, node: string): seq<Byte> {
    BE2(LengthField(m, node)) + Body(m, node)
  }

  /** read2BytePackage: Fail for the IOException at the end of the stream. */
  function ReadPackage(bs: seq<Byte>): (r: Read<seq<Byte>>) {
    if |bs| < 2 then Fail
    else
      var len := Read2BE(bs).value;
      if |bs| - 2 < len then Fail else Ok(bs[2..2 + len], bs[2 + len..])
  }

  // ---- Receiving: None stands for every exception ----

  datatype Named = Named(dist: nat, flags: int, node: string)
  datatype Challenged = Challenged(dist: nat, flags: int, challenge: int, node: string)
  datatype Replied = Replied(challenge: int, digest: seq<Byte>)

  function RecvName(body: seq<Byte>): Option<Named> {
    if body == [] || body[0] != NTYPE_R6 then None else NamedIn(body[1..], |body|)
  }

  /** The fields after the tag of a name package of len bytes. */
  function NamedIn(bs: seq<Byte>, len: nat): Option<Named> {
    var dist := Read2BE(bs);
    var flags := Read4BE(dist.rest);
    if dist.value < 5 || len < 7 then None
    else NamedIfFit(dist.value, flags.value, ByteText(ReadN(len - 7, flags.rest).value))
  }

  function NamedIfFit(dist: nat, flags: int, node: string): Option<Named> {
    if H.HasFlag(flags, H.EXTENDED_REFERENCES) && H.HasFlag(flags, H.EXTENDED_PIDS_PORTS) && '@' in node
    then Some(Named(dist, flags, node))
    else None
  }

  function RecvStatus(body: seq<Byte>): Option<string> {
    if body == [] || body[0] != CHALLENGE_STATUS then None
    else
      var status := ByteText(ReadN(|body| - 1, body[1..]).value);
      if status == "ok" then Some(status) else None
  }

  function RecvChallenge(body: seq<Byte>): Option<Challenged> {
    if body == [] || body[0] != NTYPE_R6 then None
    else
      var dist := Read2BE(body[1..]);
      var flags := Read4BE(dist.rest);
      var challenge := Read4BE(flags.rest);
      if |body| < 11 then None
      else
        var node := ByteText(ReadN(|body| - 11, challenge.rest).value);
        if '@' !in node then None else Some(Challenged(dist.value, flags.value, challenge.value, node))
  }

  function RecvReply(body: seq<Byte>): Option<Replied> {
    if body == [] || body[0] != CHALLENGE_REPLY then None
    else
      var challenge := Read4BE(body[1..]);
      Some(Replied(challenge.value, ReadN(DIGEST, challenge.rest).value))
  }

  function RecvAck(body: seq<Byte>): Option<seq<Byte>> {
    if body == [] || body[0] != CHALLENGE_ACK then None
    else Some(ReadN(DIGEST, body[1..]).value)
  }

  // ---- Round trips ----

  predicate Int32(n: int) {
    -0x8000_0000 <= n < 0x8000_0000
  }

  /** What the callers of the send methods pass. */
  predicate Sendable(m: Msg) {
    match m
    case Name(dist, flags) => dist < 0x1_0000 && Int32(flags)
    case Status(text) => true
    case Challenge(dist, flags, challenge) => dist < 0x1_0000 && Int32(flags) && Int32(challenge)
    case Reply(challenge, digest) => Int32(challenge) && |digest| == DIGEST
    case Ack(digest) => |digest| == DIGEST
  }

  lemma PackageCut(b: seq<Byte>, rest: seq<Byte>)
    ensures var r := ReadPackage(BE2(|b|) + (b + rest));
            if |b| < 0x1_0000 then r == Ok(b, rest) else r.Ok? ==> r.value != b
  {
    var bs := BE2(|b|) + (b + rest);
    BE2RoundTrip(|b|, b + rest);
    hide BE2, Read2BE;
    if |b| < 0x1_0000 {
      assert bs[2..2 + |b|] == b && bs[2 + |b|..] == rest;
    }
  }

  /** A package is cut out of the stream exactly if its length fits the length field. */
  lemma PackageRoundTripIff(m: Msg, node: string, rest: seq<Byte>)
    requires Sendable(m)
    ensures ReadPackage(Package(m, node) + rest) == Ok(Body(m, node), rest) <==> LengthField(m, node) < 0x1_0000
  {
    BodyLength(m, node);
    PackageCut(Body(m, node), rest);
    hide BE2, Body, LengthField, ReadPackage;
    assert Package(m, node) + rest == BE2(LengthField(m, node)) + (Body(m, node) + rest);
  }

  lemma BodyLength(m: Msg, node: string)
    requires Sendable(m)
    ensures |Body(m, node)| == LengthField(m, node)
  {
  }

  lemma NodeRead(node: string)
    ensures ReadN(|node|, CharBytes(node)).value == CharBytes(node)
    ensures ByteText(ReadN(|node|, CharBytes(node)).value) == node <==> Latin(node)
    ensures Latin(node) ==> ByteText(CharBytes(node)) == node
  {
    ReadExactly(CharBytes(node), []);
    assert CharBytes(node) + [] == CharBytes(node);
    LatinBack(node);
  }

  /** Unsigned numbers of two and four bytes in a body. */
  function Two(b: seq<Byte>, at: nat): int
    requires at + 2 <= |b|
  {
    FromBE2(b[at], b[at + 1])
  }

  function Four(b: seq<Byte>, at: nat): int
    requires at + 4 <= |b|
  {
    FromBE4(b[at], b[at + 1], b[at + 2], b[at + 3])
  }

  /** The first byte of a body tells its kind; the fields follow at fixed places. */
  lemma Layout(m: Msg, node: string)
    requires Sendable(m)
    ensures var b := Body(m, node);
            match m
            case Name(dist, flags) =>
              |b| >= 7 && b[0] as char == 'n' && Two(b, 1) == dist && Four(b, 3) == flags % 0x1_0000_0000 && b[7..] == CharBytes(node)
            case Status(text) => b[0] as char == 's' && b[1..] == CharBytes(text)
            case Challenge(dist, flags, challenge) =>
              |b| >= 11 && b[0] as char == 'n' && Two(b, 1) == dist && Four(b, 3) == flags % 0x1_0000_0000
              && Four(b, 7) == challenge % 0x1_0000_0000 && b[11..] == CharBytes(node)
            case Reply(challenge, digest) =>
              |b| >= 5 && b[0] as char == 'r' && Four(b, 1) == challenge % 0x1_0000_0000 && b[5..] == digest
            case Ack(digest) => b[0] as char == 'a' && b[1..] == digest
  {
    match m {
      case Name(dist, flags) => FourBack(flags);
      case Challenge(dist, flags, challenge) =>
        FourBack(flags);
        FourBack(challenge);
      case Reply(challenge, digest) => FourBack(challenge);
      case _ =>
    }
    hide BE4, FromBE4, CharBytes;
  }

  lemma FourBack(n: int)
    ensures var b := BE4(n); FromBE4(b[0], b[1], b[2], b[3]) == n % 0x1_0000_0000
  {
    Digits(n);
  }

  lemma SignedBack(n: int)
    requires Int32(n)
    ensures Signed32(n) == n
  {
  }

  /** recvName gives back what sendName wrote exactly if the version and flags are acceptable and
      the name has an '@' and only characters that fit a byte. */
  lemma NameRoundTripIff(dist: nat, flags: int, node: string)
    requires dist < 0x1_0000 && Int32(flags)
    ensures RecvName(Body(H.Name(dist, flags), node)) == Some(Named(dist, flags, node)) <==>
            && dist >= 5 && flags / 4 % 2 == 1 && flags / 256 % 2 == 1 && '@' in node && Latin(node)
    ensures Latin(node) && '@' in node ==>
            RecvName(Body(H.Name(dist, flags), node)) in {None, Some(Named(dist, flags, node))}
  {
    hide BE2, BE4, Read2BE, Read4BE, CharBytes, ByteText, ReadN, Signed32, Latin;
    var tail2 := BE4(flags) + CharBytes(node);
    var body := Body(H.Name(dist, flags), node);
    assert body[1..] == BE2(dist) + tail2;
    BE2RoundTrip(dist, tail2);
    BE4RoundTrip(flags, CharBytes(node));
    SignedBack(flags);
    NodeRead(node);
  }

  lemma ChallengeRoundTripIff(dist: nat, flags: int, challenge: int, node: string)
    requires dist < 0x1_0000 && Int32(flags) && Int32(challenge)
    ensures RecvChallenge(Body(H.Challenge(dist, flags, challenge), node)) == Some(Challenged(dist, flags, challenge, node))
            <==> '@' in node && Latin(node)
  {
    hide BE2, BE4, Read2BE, Read4BE, CharBytes, ByteText, ReadN, Signed32, Latin;
    var tail3 := BE4(challenge) + CharBytes(node);
    var tail2 := BE4(flags) + tail3;
    var body := Body(H.Challenge(dist, flags, challenge), node);
    assert body[1..] == BE2(dist) + tail2;
    BE2RoundTrip(dist, tail2);
    BE4RoundTrip(flags, tail3);
    BE4RoundTrip(challenge, CharBytes(node));
    SignedBack(flags);
    SignedBack(challenge);
    NodeRead(node);
  }

  lemma StatusRoundTrip(text: string)
    requires Latin(text)
    ensures RecvStatus(Body(H.Status(text), "")) == if text == "ok" then Some("ok") else None
  {
    hide CharBytes, ByteText, ReadN, Latin;
    assert Body(H.Status(text), "")[1..] == CharBytes(text);
    NodeRead(text);
  }

  lemma DigestRoundTrips(challenge: int, digest: seq<Byte>)
    requires Int32(challenge) && |digest| == DIGEST
    ensures RecvReply(Body(H.Reply(challenge, digest), "")) == Some(Replied(challenge, digest))
    ensures RecvAck(Body(H.Ack(digest), "")) == Some(digest)
  {
    hide BE4, Read4BE, ReadN, Signed32;
    ReadExactly(digest, []);
    assert digest + [] == digest;
    assert Body(H.Ack(digest), "")[1..] == digest;
    assert Body(H.Reply(challenge, digest), "")[1..] == BE4(challenge) + digest;
    BE4RoundTrip(challenge, digest);
    SignedBack(challenge);
  }

  // ---- The handshake over bytes ----

  type Config = H.Config<seq<Byte>>

  datatype State = State(i: H.Initiator, a: H.Acceptor, toA: seq<Byte>, toI: seq<Byte>)

  /** Node names and the digest have the form the messages need, and numbers have their widths. */
  ghost predicate OnWire(c: Config, iName: string, aName: string) {
    && '@' in iName && Latin(iName) && |iName| < 0xfff9
    && '@' in aName && Latin(aName) && |aName| < 0xfff5
    && (forall t :: |c.md5(t)| == DIGEST)
    && c.i.high < 0x1_0000 && c.a.high < 0x1_0000
    && Int32(c.i.flags) && Int32(c.a.flags) && Int32(c.iChallenge) && Int32(c.aChallenge)
  }

  /** The initiator's steps, as in Handshake.StepI, on the bytes of its channel. */
  function StepI(c: Config, iName: string, s: State): Option<State> {
    match s.i
    case Idle =>
      if c.a.proto != c.i.proto || c.i.high < c.a.low || c.i.low > c.a.high then Some(s.(i := H.IFailed))
      else
        var choose := H.Min(c.a.high, c.i.high);
        Some(s.(i := H.AwaitStatus(choose), toA := s.toA + Package(H.Name(choose, c.i.flags), iName)))
    case AwaitStatus(choose) =>
      if s.toI == [] then (if s.a.AFailed? then Some(s.(i := H.IFailed)) else None)
      else
        var p := ReadPackage(s.toI);
        if p.Ok? && RecvStatus(p.value).Some? then Some(s.(i := H.AwaitChallenge(choose), toI := p.rest))
        else Some(s.(i := H.IFailed))
    case AwaitChallenge(choose) =>
      if s.toI == [] then (if s.a.AFailed? then Some(s.(i := H.IFailed)) else None)
      else
        var p := ReadPackage(s.toI);
        if p.Ok? && RecvChallenge(p.value).Some? then
          var digest := H.GenDigest(c.md5, RecvChallenge(p.value).value.challenge, c.iCookie);
          Some(s.(i := H.AwaitAck(choose), toI := p.rest, toA := s.toA + Package(H.Reply(c.iChallenge, digest), iName)))
        else Some(s.(i := H.IFailed))
    case AwaitAck(choose) =>
      if s.toI == [] then (if s.a.AFailed? then Some(s.(i := H.IFailed)) else None)
      else
        var p := ReadPackage(s.toI);
        if p.Ok? && RecvAck(p.value) == Some(H.GenDigest(c.md5, c.iChallenge, c.iCookie))
        then Some(s.(i := H.IConnected(choose), toI := p.rest))
        else Some(s.(i := H.IFailed))
    case _ => None
  }

  function StepA(c: Config, aName: string, s: State): Option<State> {
    match s.a
    case AwaitName =>
      if s.toA == [] then None
      else
        var p := ReadPackage(s.toA);
        var named := if p.Ok? then RecvName(p.value) else None;
        if named.Some? && c.a.proto == 0 && c.a.low <= named.value.dist <= c.a.high
        then Some(s.(a := H.Accepting(H.Min(named.value.dist, c.a.high)), toA := p.rest))
        else Some(s.(a := H.AFailed))
    case Accepting(choose) => Some(s.(a := H.Challenging(choose), toI := s.toI + Package(H.Status("ok"), aName)))
    case Challenging(choose) =>
      Some(s.(a := H.AwaitReply(choose), toI := s.toI + Package(H.Challenge(choose, c.a.flags, c.aChallenge), aName)))
    case AwaitReply(choose) =>
      if s.toA == [] then (if s.i.IFailed? then Some(s.(a := H.AFailed)) else None)
      else
        var p := ReadPackage(s.toA);
        var replied := if p.Ok? then RecvReply(p.value) else None;
        if replied.Some? && replied.value.digest == H.GenDigest(c.md5, c.aChallenge, Some(c.aCookie))
        then
          var ack := H.Ack(H.GenDigest(c.md5, replied.value.challenge, Some(c.aCookie)));
          Some(s.(a := H.AConnected(choose), toA := p.rest, toI := s.toI + Package(ack, aName)))
        else Some(s.(a := H.AFailed))
    case _ => None
  }

  function Run(c: Config, iName: string, aName: string, schedule: seq<bool>): State {
    if schedule == [] then State(H.Idle, H.AwaitName, [], [])
    else
      var s := Run(c, iName, aName, schedule[..|schedule| - 1]);
      var next := if schedule[|schedule| - 1] then StepI(c, iName, s) else StepA(c, aName, s);
      if next == None then s else next.value
  }

  /** The bytes of a channel. */
  function Stream(ms: seq<Msg>, node: string): seq<Byte> {
    if ms == [] then [] else Package(ms[0], node) + Stream(ms[1..], node)
  }

  function Image(s: H.State<seq<Byte>>, iName: string, aName: string): State {
    State(s.i, s.a, Stream(s.toA, iName), Stream(s.toI, aName))
  }

  function ImageOf(s: Option<H.State<seq<Byte>>>, iName: string, aName: string): Option<State> {
    if s == None then None else Some(Image(s.value, iName, aName))
  }

  lemma {:induction false} StreamAppend(ms: seq<Msg>, m: Msg, node: string)
    ensures Stream(ms + [m], node) == Stream(ms, node) + Package(m, node)
  {
    if ms == [] {
      assert [m][1..] == [];
      assert Stream([m], node) == Package(m, node);
    } else {
      assert (ms + [m])[1..] == ms[1..] + [m];
      StreamAppend(ms[1..], m, node);
    }
  }

  /** What the other side finds at the head of a channel. */
  lemma StreamHead(ms: seq<Msg>, node: string)
    requires ms != [] && Sendable(ms[0]) && LengthField(ms[0], node) < 0x1_0000
    ensures Stream(ms, node) != []
    ensures ReadPackage(Stream(ms, node)) == Ok(Body(ms[0], node), Stream(ms[1..], node))
  {
    PackageRoundTripIff(ms[0], node, Stream(ms[1..], node));
  }

  /** In the states a handshake can be in, every message fits the wire. */
  ghost predicate AllFit(ms: seq<Msg>, node: string) {
    forall m :: m in ms ==> Sendable(m) && LengthField(m, node) < 0x1_0000
  }

  lemma InvFits(c: Config, iName: string, aName: string, s: H.State<seq<Byte>>)
    requires OnWire(c, iName, aName) && H.Inv(c, s)
    ensures AllFit(s.toA, iName) && AllFit(s.toI, aName)
  {
    hide H.Compatible, H.SameCookie, H.VersionsOverlap, H.GenDigest;
    var name := H.Name(H.Min(c.a.high, c.i.high), c.i.flags);
    var reply := H.Reply(c.iChallenge, H.GenDigest(c.md5, c.aChallenge, c.iCookie));
    Digests(c, c.aChallenge, c.iCookie);
    Digests(c, c.iChallenge, Some(c.aCookie));
    assert s.toA == [] || s.toA == [name] || s.toA == [reply];
    assert Sendable(name) && Sendable(reply);
  }

  lemma Digests(c: Config, challenge: int, cookie: Option<string>)
    requires forall t :: |c.md5(t)| == DIGEST
    ensures |H.GenDigest(c.md5, challenge, cookie)| == DIGEST
  {
  }

  /** What a side that waits can find in its channel. */
  lemma InvHead(c: Config, s: H.State<seq<Byte>>)
    requires H.Inv(c, s)
    ensures s.i.AwaitStatus? && s.toI != [] ==> s.toI[0] == H.Status("ok")
    ensures s.i.AwaitChallenge? && s.toI != [] ==> s.toI[0].Challenge?
    ensures s.i.AwaitAck? && s.toI != [] ==> s.toI[0].Ack?
    ensures s.a.AwaitName? && s.toA != [] ==> s.toA[0].Name?
    ensures s.a.AwaitReply? && s.toA != [] ==> s.toA[0].Reply?
  {
    hide H.Compatible, H.SameCookie, H.VersionsOverlap, H.GenDigest;
  }

  lemma StatusStep(c: Config, iName: string, aName: string, s: H.State<seq<Byte>>)
    requires OnWire(c, iName, aName) && H.Inv(c, s) && s.i.AwaitStatus? && s.toI != []
    ensures StepI(c, iName, Image(s, iName, aName)) == ImageOf(H.StepI(c, s), iName, aName)
  {
    InvFits(c, iName, aName, s);
    InvHead(c, s);
    hide Package, ReadPackage, Body, RecvName, RecvStatus, RecvChallenge, RecvAck, RecvReply, H.GenDigest, H.HasFlag, H.Inv, H.NameAccepted;
    StreamHead(s.toI, aName);
    StatusHead(s.toI[0].text, aName);
  }

  lemma ChallengeStep(c: Config, iName: string, aName: string, s: H.State<seq<Byte>>)
    requires OnWire(c, iName, aName) && H.Inv(c, s) && s.i.AwaitChallenge? && s.toI != []
    ensures StepI(c, iName, Image(s, iName, aName)) == ImageOf(H.StepI(c, s), iName, aName)
  {
    InvFits(c, iName, aName, s);
    InvHead(c, s);
    hide Package, ReadPackage, Body, RecvName, RecvStatus, RecvChallenge, RecvAck, RecvReply, H.GenDigest, H.HasFlag, H.Inv, H.NameAccepted;
    StreamHead(s.toI, aName);
    var m := s.toI[0];
    ChallengeRoundTripIff(m.dist, m.flags, m.challenge, aName);
    StreamAppend(s.toA, H.Reply(c.iChallenge, H.GenDigest(c.md5, m.challenge, c.iCookie)), iName);
  }

  lemma AckStep(c: Config, iName: string, aName: string, s: H.State<seq<Byte>>)
    requires OnWire(c, iName, aName) && H.Inv(c, s) && s.i.AwaitAck? && s.toI != []
    ensures StepI(c, iName, Image(s, iName, aName)) == ImageOf(H.StepI(c, s), iName, aName)
  {
    InvFits(c, iName, aName, s);
    InvHead(c, s);
    hide Package, ReadPackage, Body, RecvName, RecvStatus, RecvChallenge, RecvAck, RecvReply, H.GenDigest, H.HasFlag, H.Inv, H.NameAccepted;
    StreamHead(s.toI, aName);
    DigestHead(0, s.toI[0].digest, aName);
  }

  /** One step over bytes is the image of one step over messages. */
  lemma StepIImage(c: Config, iName: string, aName: string, s: H.State<seq<Byte>>)
    requires OnWire(c, iName, aName) && H.Inv(c, s)
    ensures StepI(c, iName, Image(s, iName, aName)) == ImageOf(H.StepI(c, s), iName, aName)
  {
    if s.toI != [] && s.i.AwaitStatus? {
      StatusStep(c, iName, aName, s);
    } else if s.toI != [] && s.i.AwaitChallenge? {
      ChallengeStep(c, iName, aName, s);
    } else if s.toI != [] && s.i.AwaitAck? {
      AckStep(c, iName, aName, s);
    } else {
      hide Package, H.Inv;
      StreamAppend(s.toA, H.Name(H.Min(c.a.high, c.i.high), c.i.flags), iName);
    }
  }

  lemma StatusHead(text: string, node: string)
    requires text == "ok"
    ensures RecvStatus(Body(H.Status(text), node)) == Some("ok")
  {
    StatusRoundTrip(text);
  }

  lemma DigestHead(challenge: int, digest: seq<Byte>, node: string)
    requires Int32(challenge) && |digest| == DIGEST
    ensures RecvReply(Body(H.Reply(challenge, digest), node)) == Some(Replied(challenge, digest))
    ensures RecvAck(Body(H.Ack(digest), node)) == Some(digest)
  {
    DigestRoundTrips(challenge, digest);
  }

  lemma NameStep(c: Config, iName: string, aName: string, s: H.State<seq<Byte>>)
    requires OnWire(c, iName, aName) && H.Inv(c, s) && s.a.AwaitName? && s.toA != []
    ensures StepA(c, aName, Image(s, iName, aName)) == ImageOf(H.StepA(c, s), iName, aName)
  {
    InvFits(c, iName, aName, s);
    InvHead(c, s);
    hide Package, ReadPackage, Body, RecvName, RecvStatus, RecvChallenge, RecvAck, RecvReply, H.GenDigest, H.HasFlag, H.Inv, H.NameAccepted;
    StreamHead(s.toA, iName);
    var m := s.toA[0];
    NameRoundTripIff(m.dist, m.flags, iName);
    NameAcceptedIff(c.a, m.dist, m.flags);
  }

  lemma ReplyStep(c: Config, iName: string, aName: string, s: H.State<seq<Byte>>)
    requires OnWire(c, iName, aName) && H.Inv(c, s) && s.a.AwaitReply? && s.toA != []
    ensures StepA(c, aName, Image(s, iName, aName)) == ImageOf(H.StepA(c, s), iName, aName)
  {
    InvFits(c, iName, aName, s);
    InvHead(c, s);
    hide Package, ReadPackage, Body, RecvName, RecvStatus, RecvChallenge, RecvAck, RecvReply, H.GenDigest, H.HasFlag, H.Inv, H.NameAccepted;
    StreamHead(s.toA, iName);
    var m := s.toA[0];
    DigestHead(m.challenge, m.digest, iName);
    StreamAppend(s.toI, H.Ack(H.GenDigest(c.md5, m.challenge, Some(c.aCookie))), aName);
  }

  lemma NameAcceptedIff(a: H.Node, dist: nat, flags: int)
    ensures H.NameAccepted(a, dist, flags) <==>
            && dist >= 5 && flags / 4 % 2 == 1 && flags / 256 % 2 == 1 && a.proto == 0 && a.low <= dist <= a.high
  {
  }

  lemma StepAImage(c: Config, iName: string, aName: string, s: H.State<seq<Byte>>)
    requires OnWire(c, iName, aName) && H.Inv(c, s)
    ensures StepA(c, aName, Image(s, iName, aName)) == ImageOf(H.StepA(c, s), iName, aName)
  {
    if s.toA != [] && s.a.AwaitName? {
      NameStep(c, iName, aName, s);
    } else if s.toA != [] && s.a.AwaitReply? {
      ReplyStep(c, iName, aName, s);
    } else {
      hide Package, H.Inv;
      if s.a.Accepting? {
        StreamAppend(s.toI, H.Status("ok"), aName);
      } else if s.a.Challenging? {
        StreamAppend(s.toI, H.Challenge(s.a.choose, c.a.flags, c.aChallenge), aName);
      }
    }
  }

  /** A run over bytes is the image of the run over messages. */
  lemma {:induction false} RunImage(c: Config, iName: string, aName: string, schedule: seq<bool>)
    requires OnWire(c, iName, aName) && H.NoCollision(c) && H.WellFormed(c)
    ensures Run(c, iName, aName, schedule) == Image(H.Run(c, schedule), iName, aName)
  {
    if schedule != [] {
      var before := schedule[..|schedule| - 1];
      RunImage(c, iName, aName, before);
      H.RunInv(c, before);
      StepIImage(c, iName, aName, H.Run(c, before));
      StepAImage(c, iName, aName, H.Run(c, before));
    }
  }

  /** So it has the same outcome: over bytes, once no thread can go on, both sides are connected
      exactly when nodes and cookies fit, with the smaller of the two highest versions. */
  lemma WireOutcome(c: Config, iName: string, aName: string, schedule: seq<bool>)
    requires OnWire(c, iName, aName) && H.NoCollision(c) && H.WellFormed(c)
    ensures var s := Run(c, iName, aName, schedule);
            && (s.i.IConnected? ==> s.a.AConnected? && s.i.choose == s.a.choose == if c.i.high < c.a.high then c.i.high else c.a.high)
            && (StepI(c, iName, s) == None && StepA(c, aName, s) == None ==>
                  if H.Compatible(c) && H.SameCookie(c) then s.i.IConnected? && s.a.AConnected?
                  else !s.i.IConnected? && !s.a.AConnected?)
  {
    hide H.Compatible, H.SameCookie;
    var s := H.Run(c, schedule);
    RunImage(c, iName, aName, schedule);
    H.RunInv(c, schedule);
    H.HandshakeOutcome(c, schedule);
    StepIImage(c, iName, aName, s);
    StepAImage(c, iName, aName, s);
  }
}
