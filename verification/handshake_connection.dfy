/** The send and recv methods of the handshake (AbstractConnection.cs) on a socket, verified
    against module HandshakeWire. */
module HandshakeConnection {
  import opened Bytes
  import opened Erlang
  import opened ExternalFormat
  import opened OtpStreams
  import opened DistConnection
  import opened HandshakeWire
  import H = Handshake

  /** A package of the socket's input was received as f says, or an exception ended the attempt. */
  ghost predicate Got<T>(inp: seq<Byte>, f: seq<Byte> -> Option<T>, r: Option<T>, rest: seq<Byte>) {
    match ReadPackage(inp)
    case Ok(body, after) => r == f(body) && rest == after
    case Fail => r == None
  }

  lemma Join(s: seq<Byte>, a: seq<Byte>, b: seq<Byte>, c: seq<Byte>, d: seq<Byte>)
    ensures s + a + b + c + d == s + (a + (b + (c + d)))
  {
  }

  /** sendName, sendStatus, sendChallenge, sendChallengeReply and sendChallengeAck. */
  method Send(con: AbstractConnection, m: Msg, node: string)
    modifies con.socket
    ensures con.socket.out == old(con.socket.out) + Package(m, node) && con.socket.inp == old(con.socket.inp)
  {
    hide BE2, Body, LengthField;
    var obuf := new OtpOutputStream(2048);
    obuf.Write2BE(LengthField(m, node));
    assert [] + BE2(LengthField(m, node)) == BE2(LengthField(m, node));
    WriteBody(obuf, m, node);
    con.socket.Write(obuf.buf[..obuf.count]);
  }

  method WriteBody(obuf: OtpOutputStream, m: Msg, node: string)
    requires obuf.Valid()
    modifies obuf, obuf.buf
    ensures obuf.Valid() && obuf.Contents() == old(obuf.Contents()) + Body(m, node)
    ensures obuf.buf == old(obuf.buf) || fresh(obuf.buf)
  {
    match m {
      case Name(dist, flags) =>
        WriteNamed(obuf, dist, flags, [], node);
        assert [] + CharBytes(node) == CharBytes(node);
      case Status(text) =>
        WriteTagged(obuf, CHALLENGE_STATUS, [], CharBytes(text));
        assert [] + CharBytes(text) == CharBytes(text);
      case Challenge(dist, flags, challenge) =>
        WriteNamed(obuf, dist, flags, BE4(challenge), node);
      case Reply(challenge, digest) =>
        WriteTagged(obuf, CHALLENGE_REPLY, BE4(challenge), digest);
      case Ack(digest) =>
        WriteTagged(obuf, CHALLENGE_ACK, [], digest);
        assert [] + digest == digest;
    }
  }

  method WriteNamed(obuf: OtpOutputStream, dist: nat, flags: int, more: seq<Byte>, node: string)
    requires obuf.Valid()
    modifies obuf, obuf.buf
    ensures obuf.Valid()
    ensures obuf.Contents() == old(obuf.Contents()) + ([NTYPE_R6] + (BE2(dist) + (BE4(flags) + (more + CharBytes(node)))))
    ensures obuf.buf == old(obuf.buf) || fresh(obuf.buf)
  {
    hide BE2, BE4, CharBytes;
    ghost var before := obuf.Contents();
    obuf.Write(NTYPE_R6);
    obuf.Write2BE(dist);
    obuf.Write4BE(flags);
    WriteTail(obuf, more, CharBytes(node));
    Join(before, [NTYPE_R6], BE2(dist), BE4(flags), more + CharBytes(node));
  }

  method WriteTagged(obuf: OtpOutputStream, tag: Byte, more: seq<Byte>, last: seq<Byte>)
    requires obuf.Valid()
    modifies obuf, obuf.buf
    ensures obuf.Valid() && obuf.Contents() == old(obuf.Contents()) + ([tag] + (more + last))
    ensures obuf.buf == old(obuf.buf) || fresh(obuf.buf)
  {
    ghost var before := obuf.Contents();
    obuf.Write(tag);
    WriteTail(obuf, more, last);
    assert before + [tag] + (more + last) == before + ([tag] + (more + last));
  }

  method WriteTail(obuf: OtpOutputStream, more: seq<Byte>, last: seq<Byte>)
    requires obuf.Valid()
    modifies obuf, obuf.buf
    ensures obuf.Valid() && obuf.Contents() == old(obuf.Contents()) + (more + last)
    ensures obuf.buf == old(obuf.buf) || fresh(obuf.buf)
  {
    ghost var before := obuf.Contents();
    obuf.WriteN(more);
    obuf.WriteN(last);
    assert before + more + last == before + (more + last);
  }

  lemma PackageRead(inp: seq<Byte>, len: nat)
    requires 2 <= |inp| && Read2BE(inp[..2]).value == len
    ensures ReadPackage(inp) == if |inp| - 2 < len then Fail else Ok(inp[2..][..len], inp[2..][len..])
  {
    assert Read2BE(inp).value == Read2BE(inp[..2]).value;
    hide Read2BE;
    if len <= |inp| - 2 {
      assert inp[2..][..len] == inp[2..2 + len] && inp[2..][len..] == inp[2 + len..];
    }
  }

  method Read2BytePackage(con: AbstractConnection) returns (b: Option<seq<Byte>>)
    modifies con.socket
    ensures Did(ReadPackage(old(con.socket.inp)), b, con.socket.inp)
    ensures con.socket.out == old(con.socket.out)
  {
    ghost var inp := con.socket.inp;
    var lbuf := con.ReadSock(2);
    if lbuf == None {
      return None;
    }
    hide Read2BE, ReadPackage;
    var ibuf := new OtpInputStream(lbuf.value);
    var len := ibuf.Read2BE();
    PackageRead(inp, len);
    b := con.ReadSock(len);
  }

  method ReceiveName(con: AbstractConnection) returns (r: Option<Named>)
    modifies con.socket
    ensures Got(old(con.socket.inp), RecvName, r, con.socket.inp)
  {
    var tmpbuf := Read2BytePackage(con);
    if tmpbuf == None {
      return None;
    }
    r := NameIn(tmpbuf.value);
  }

  method NameIn(tmpbuf: seq<Byte>) returns (r: Option<Named>)
    ensures r == RecvName(tmpbuf)
  {
    hide NamedIn;
    var ibuf := new OtpInputStream(tmpbuf);
    var ntype := ibuf.Read1();
    if ntype != Some(NTYPE_R6) {
      return None;
    }
    assert ibuf.Rest() == tmpbuf[1..];
    r := NameFields(ibuf, |tmpbuf|);
  }

  method NameFields(ibuf: OtpInputStream, len: nat) returns (r: Option<Named>)
    requires ibuf.Valid()
    modifies ibuf
    ensures r == NamedIn(old(ibuf.Rest()), len)
  {
    hide Read2BE, Read4BE, ReadN, ByteText, NamedIfFit;
    var dist := ibuf.Read2BE();
    if dist < 5 {
      return None;
    }
    var flags := ibuf.Read4BE();
    if len < 7 {
      return None;
    }
    var tmpname := ibuf.ReadN(len - 7);
    r := CheckName(dist, flags, ByteText(tmpname));
  }

  method CheckName(dist: nat, flags: int, hisname: string) returns (r: Option<Named>)
    ensures r == NamedIfFit(dist, flags, hisname)
  {
    hide H.HasFlag;
    if !H.HasFlag(flags, H.EXTENDED_REFERENCES) || !H.HasFlag(flags, H.EXTENDED_PIDS_PORTS) {
      return None;
    }
    if '@' !in hisname {
      return None;
    }
    r := Some(Named(dist, flags, hisname));
  }

  method ReceiveStatus(con: AbstractConnection) returns (r: Option<string>)
    modifies con.socket
    ensures Got(old(con.socket.inp), RecvStatus, r, con.socket.inp)
  {
    hide ReadN, ByteText;
    var buf := Read2BytePackage(con);
    if buf == None {
      return None;
    }
    var ibuf := new OtpInputStream(buf.value);
    var tag := ibuf.Read1();
    if tag != Some(CHALLENGE_STATUS) {
      return None;
    }
    var tmpbuf := ibuf.ReadN(|buf.value| - 1);
    var status := ByteText(tmpbuf);
    r := if status == "ok" then Some(status) else None;
  }

  method ReceiveChallenge(con: AbstractConnection) returns (r: Option<Challenged>)
    modifies con.socket
    ensures Got(old(con.socket.inp), RecvChallenge, r, con.socket.inp)
  {
    var buf := Read2BytePackage(con);
    if buf == None {
      return None;
    }
    r := ChallengeIn(buf.value);
  }

  method ChallengeIn(buf: seq<Byte>) returns (r: Option<Challenged>)
    ensures r == RecvChallenge(buf)
  {
    hide Read2BE, Read4BE, ReadN, ByteText;
    var ibuf := new OtpInputStream(buf);
    var ntype := ibuf.Read1();
    if ntype != Some(NTYPE_R6) {
      return None;
    }
    var dist := ibuf.Read2BE();
    var flags := ibuf.Read4BE();
    var challenge := ibuf.Read4BE();
    if |buf| < 11 {
      return None;
    }
    var tmpname := ibuf.ReadN(|buf| - 11);
    var hisname := ByteText(tmpname);
    r := if '@' in hisname then Some(Challenged(dist, flags, challenge, hisname)) else None;
  }

  /** recvChallengeReply up to the comparison of the digests. */
  method ReceiveReply(con: AbstractConnection) returns (r: Option<Replied>)
    modifies con.socket
    ensures Got(old(con.socket.inp), RecvReply, r, con.socket.inp)
  {
    hide Read4BE, ReadN;
    var buf := Read2BytePackage(con);
    if buf == None {
      return None;
    }
    var ibuf := new OtpInputStream(buf.value);
    var tag := ibuf.Read1();
    if tag != Some(CHALLENGE_REPLY) {
      return None;
    }
    var challenge := ibuf.Read4BE();
    var digest := ibuf.ReadN(DIGEST);
    r := Some(Replied(challenge, digest));
  }

  /** recvChallengeAck up to the comparison of the digests. */
  method ReceiveAck(con: AbstractConnection) returns (r: Option<seq<Byte>>)
    modifies con.socket
    ensures Got(old(con.socket.inp), RecvAck, r, con.socket.inp)
  {
    hide ReadN;
    var buf := Read2BytePackage(con);
    if buf == None {
      return None;
    }
    var ibuf := new OtpInputStream(buf.value);
    var tag := ibuf.Read1();
    if tag != Some(CHALLENGE_ACK) {
      return None;
    }
    var digest := ibuf.ReadN(DIGEST);
    r := Some(digest);
  }
}
