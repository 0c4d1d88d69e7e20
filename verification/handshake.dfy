/** The connection handshake of AbstractConnection.cs: initiator (doConnect) and acceptor
    (doAccept) as two threads that take their steps in any order over two FIFO channels. */
module Handshake {
  import opened Erlang

  /** What a node brings to a handshake. Versions are two bytes on the wire and in epmd. */
  datatype Node = Node(proto: int, low: nat, high: nat, flags: int)

  /** Both nodes with their cookies and the challenges they will pick. OtpNode.connection passes
      a null cookie (None) to the initiator. `md5` is the digest. */
  datatype Config<!D(==)> = Config(md5: string -> D, i: Node, a: Node, iCookie: Option<string>, aCookie: string,
                                   iChallenge: int, aChallenge: int)

  datatype Msg<D> =
    | Name(dist: nat, flags: int)
    | Status(text: string)
    | Challenge(dist: nat, flags: int, challenge: int)
    | Reply(challenge: int, digest: D)
    | Ack(digest: D)

  /** Where each thread is. `choose` is peer.distChoose. */
  datatype Initiator =
    | Idle
    | AwaitStatus(choose: nat)
    | AwaitChallenge(choose: nat)
    | AwaitAck(choose: nat)
    | IConnected(choose: nat)
    | IFailed

  datatype Acceptor =
    | AwaitName
    | Accepting(choose: nat)
    | Challenging(choose: nat)
    | AwaitReply(choose: nat)
    | AConnected(choose: nat)
    | AFailed

  datatype State<D> = State(i: Initiator, a: Acceptor, toA: seq<Msg<D>>, toI: seq<Msg<D>>)

  function Start<D>(): State<D> {
    State(Idle, AwaitName, [], [])
  }

  // ---- The pieces both sides use ----

  function Min(x: nat, y: nat): nat {
    if x < y then x else y
  }

  /** The decimal digits of a number. */
  function Decimal(n: nat): string {
    (if n < 10 then "" else Decimal(n / 10)) + [(n % 10 + '0' as int) as char]
  }

  /** What genDigest hashes: the challenge is taken as an unsigned number, and a null cookie adds
      nothing. */
  function DigestText(challenge: int, cookie: Option<string>): string {
    (if cookie == None then "" else cookie.value) + Decimal(challenge % 0x1_0000_0000)
  }

  function GenDigest<D>(md5: string -> D, challenge: int, cookie: Option<string>): D {
    md5(DigestText(challenge, cookie))
  }

  predicate HasFlag(flags: int, bit: nat)
    requires bit > 0
  {
    flags / bit % 2 == 1
  }

  const EXTENDED_REFERENCES: nat := 4
  const EXTENDED_PIDS_PORTS: nat := 256

  // ---- Steps ----

  /** The next step of the initiator, or None if it is finished or has to wait. A read fails when
      the acceptor has given up and nothing is left in the channel. */
  function StepI<D>(c: Config<D>, s: State<D>): Option<State<D>> {
    match s.i
    case Idle =>
      // epmd has told protocol and versions of the acceptor
      if c.a.proto != c.i.proto || c.i.high < c.a.low || c.i.low > c.a.high then Some(s.(i := IFailed))
      else
        var choose := Min(c.a.high, c.i.high);
        Some(s.(i := AwaitStatus(choose), toA := s.toA + [Name(choose, c.i.flags)]))
    case AwaitStatus(choose) =>
      if s.toI == [] then (if s.a.AFailed? then Some(s.(i := IFailed)) else None)
      else if s.toI[0] == Status("ok") then Some(s.(i := AwaitChallenge(choose), toI := s.toI[1..]))
      else Some(s.(i := IFailed))
    case AwaitChallenge(choose) =>
      if s.toI == [] then (if s.a.AFailed? then Some(s.(i := IFailed)) else None)
      else if s.toI[0].Challenge? then
        var digest := GenDigest(c.md5, s.toI[0].challenge, c.iCookie);
        Some(s.(i := AwaitAck(choose), toI := s.toI[1..], toA := s.toA + [Reply(c.iChallenge, digest)]))
      else Some(s.(i := IFailed))
    case AwaitAck(choose) =>
      if s.toI == [] then (if s.a.AFailed? then Some(s.(i := IFailed)) else None)
      else if s.toI[0].Ack? && s.toI[0].digest == GenDigest(c.md5, c.iChallenge, c.iCookie)
      then Some(s.(i := IConnected(choose), toI := s.toI[1..]))
      else Some(s.(i := IFailed))
    case _ => None
  }

  /** The checks of recvName and of the accepting constructor on a received name. The peer object
      of an acceptor keeps protocol 0. */
  predicate NameAccepted(a: Node, dist: nat, flags: int) {
    && dist >= 5
    && HasFlag(flags, EXTENDED_REFERENCES) && HasFlag(flags, EXTENDED_PIDS_PORTS)
    && a.proto == 0 && a.low <= dist <= a.high
  }

  function StepA<D>(c: Config<D>, s: State<D>): Option<State<D>> {
    match s.a
    case AwaitName =>
      if s.toA == [] then None
      else if s.toA[0].Name? && NameAccepted(c.a, s.toA[0].dist, s.toA[0].flags)
      then Some(s.(a := Accepting(Min(s.toA[0].dist, c.a.high)), toA := s.toA[1..]))
      else Some(s.(a := AFailed))
    case Accepting(choose) => Some(s.(a := Challenging(choose), toI := s.toI + [Status("ok")]))
    case Challenging(choose) =>
      Some(s.(a := AwaitReply(choose), toI := s.toI + [Challenge(choose, c.a.flags, c.aChallenge)]))
    case AwaitReply(choose) =>
      if s.toA == [] then (if s.i.IFailed? then Some(s.(a := AFailed)) else None)
      else if s.toA[0].Reply? && s.toA[0].digest == GenDigest(c.md5, c.aChallenge, Some(c.aCookie))
      then
        var ack := Ack(GenDigest(c.md5, s.toA[0].challenge, Some(c.aCookie)));
        Some(s.(a := AConnected(choose), toA := s.toA[1..], toI := s.toI + [ack]))
      else Some(s.(a := AFailed))
    case _ => None
  }

  /** A schedule says whose turn it is; a thread that has to wait does nothing with its turn. */
  function Run<D>(c: Config<D>, schedule: seq<bool>): State<D> {
    if schedule == [] then Start()
    else
      var s := Run(c, schedule[..|schedule| - 1]);
      var next := if schedule[|schedule| - 1] then StepI(c, s) else StepA(c, s);
      if next == None then s else next.value
  }

  predicate Stuck<D>(c: Config<D>, s: State<D>) {
    StepI(c, s) == None && StepA(c, s) == None
  }

  // ---- When a handshake succeeds ----

  predicate SameCookie<D>(c: Config<D>) {
    (if c.iCookie == None then "" else c.iCookie.value) == c.aCookie
  }

  predicate VersionsOverlap<D>(c: Config<D>) {
    c.i.low <= c.a.high && c.a.low <= c.i.high
  }

  /** Protocol, version and flags that either side can work with: extended references, bit 2, and
      extended pids and ports, bit 8. */
  predicate Compatible<D>(c: Config<D>) {
    && c.i.proto == c.a.proto == 0 && VersionsOverlap(c) && Min(c.a.high, c.i.high) >= 5
    && c.i.flags / 4 % 2 == 1 && c.i.flags / 256 % 2 == 1
  }

  predicate WellFormed<D>(c: Config<D>) {
    c.i.low <= c.i.high && c.a.low <= c.a.high
  }

  /** The digest tells apart the texts that the two sides hash for one challenge. */
  predicate Distinguishes<D(==)>(c: Config<D>, challenge: int) {
    var x := DigestText(challenge, c.iCookie);
    var y := DigestText(challenge, Some(c.aCookie));
    c.md5(x) == c.md5(y) ==> x == y
  }

  predicate NoCollision<D(==)>(c: Config<D>) {
    Distinguishes(c, c.iChallenge) && Distinguishes(c, c.aChallenge)
  }

  /** For one and the same challenge, equal digests mean equal cookies. */
  lemma DigestsTellCookies<D>(c: Config<D>, challenge: int)
    requires Distinguishes(c, challenge)
    ensures GenDigest(c.md5, challenge, c.iCookie) == GenDigest(c.md5, challenge, Some(c.aCookie)) <==> SameCookie(c)
  {
    var x := if c.iCookie == None then "" else c.iCookie.value;
    var t := Decimal(challenge % 0x1_0000_0000);
    if x + t == c.aCookie + t {
      assert |x| == |c.aCookie|;
      assert (x + t)[..|x|] == x && (c.aCookie + t)[..|x|] == c.aCookie;
    }
  }

  function FromDecimal(s: string): int {
    if s == "" then 0 else 10 * FromDecimal(s[..|s| - 1]) + (s[|s| - 1] as int - '0' as int)
  }

  predicate Digits(s: string) {
    && (forall i :: 0 <= i < |s| ==> '0' <= s[i] <= '9')
    && s != "" && (|s| > 1 ==> s[0] != '0')
  }

  lemma {:induction false} DecimalBack(n: nat)
    ensures Digits(Decimal(n)) && FromDecimal(Decimal(n)) == n
    ensures n > 0 ==> Decimal(n)[0] != '0'
  {
    if n < 10 {
      assert Decimal(n)[..0] == "";
    } else {
      DecimalBack(n / 10);
      OneMoreDigit(n, Decimal(n / 10));
    }
  }

  lemma OneMoreDigit(n: nat, s: string)
    requires n >= 10 && s == Decimal(n / 10) && Digits(s) && FromDecimal(s) == n / 10 && s[0] != '0'
    ensures Digits(Decimal(n)) && FromDecimal(Decimal(n)) == n && Decimal(n)[0] != '0'
  {
    var last := (n % 10 + '0' as int) as char;
    assert Decimal(n) == s + [last];
    DigitBack(n % 10);
    hide Decimal;
    Appended(s, last);
  }

  lemma DigitBack(d: nat)
    requires d < 10
    ensures var c := (d + '0' as int) as char; '0' <= c <= '9' && c as int - '0' as int == d
  {
  }

  lemma Appended(s: string, c: char)
    requires Digits(s) && '0' <= c <= '9' && s[0] != '0'
    ensures Digits(s + [c]) && FromDecimal(s + [c]) == 10 * FromDecimal(s) + (c as int - '0' as int)
  {
    assert (s + [c])[..|s|] == s;
  }

  /** The hashed text is the cookie and then the digits of the unsigned challenge. */
  lemma TextRead(challenge: int, cookie: Option<string>)
    ensures var x := if cookie == None then "" else cookie.value;
            var text := DigestText(challenge, cookie);
            x <= text && Digits(text[|x|..]) && FromDecimal(text[|x|..]) == challenge % 0x1_0000_0000
  {
    var x := if cookie == None then "" else cookie.value;
    var t := Decimal(challenge % 0x1_0000_0000);
    DecimalBack(challenge % 0x1_0000_0000);
    assert (x + t)[|x|..] == t;
  }

  /** For one cookie, two challenges give the same text exactly if they agree in their 32 bits. */
  lemma ChallengesTold(cookie: Option<string>, c1: int, c2: int)
    ensures DigestText(c1, cookie) == DigestText(c2, cookie) <==> c1 % 0x1_0000_0000 == c2 % 0x1_0000_0000
  {
    hide DigestText, FromDecimal, Digits;
    TextRead(c1, cookie);
    TextRead(c2, cookie);
    if c1 % 0x1_0000_0000 == c2 % 0x1_0000_0000 {
      SameText(cookie, c1, c2);
    }
  }

  lemma SameText(cookie: Option<string>, c1: int, c2: int)
    requires c1 % 0x1_0000_0000 == c2 % 0x1_0000_0000
    ensures DigestText(c1, cookie) == DigestText(c2, cookie)
  {
  }

  /** The digest tells two texts apart. */
  predicate Apart<D(==)>(md5: string -> D, x: string, y: string) {
    md5(x) == md5(y) ==> x == y
  }

  /** A reply made with the right cookie, but for another challenge, such as one recorded from an
      earlier handshake, does not make the acceptor connect. */
  lemma ReplyForThisChallenge<D>(c: Config<D>, s: State<D>, x: int, challenge: int)
    requires s.a.AwaitReply? && s.toA != [] && s.toA[0] == Reply(x, GenDigest(c.md5, challenge, Some(c.aCookie)))
    requires Apart(c.md5, DigestText(challenge, Some(c.aCookie)), DigestText(c.aChallenge, Some(c.aCookie)))
    ensures StepA(c, s).Some?
    ensures StepA(c, s).value.a.AConnected? <==> challenge % 0x1_0000_0000 == c.aChallenge % 0x1_0000_0000
  {
    ChallengesTold(Some(c.aCookie), challenge, c.aChallenge);
    hide DigestText;
  }

  /** Nor does an acknowledgement of another challenge make the initiator connect. */
  lemma AckForThisChallenge<D>(c: Config<D>, s: State<D>, challenge: int)
    requires s.i.AwaitAck? && s.toI != [] && s.toI[0] == Ack(GenDigest(c.md5, challenge, c.iCookie))
    requires Apart(c.md5, DigestText(challenge, c.iCookie), DigestText(c.iChallenge, c.iCookie))
    ensures StepI(c, s).Some?
    ensures StepI(c, s).value.i.IConnected? <==> challenge % 0x1_0000_0000 == c.iChallenge % 0x1_0000_0000
  {
    ChallengesTold(c.iCookie, challenge, c.iChallenge);
    hide DigestText;
  }

  /** The states a handshake can be in. */
  ghost predicate Inv<D>(c: Config<D>, s: State<D>) {
    var m := Min(c.a.high, c.i.high);
    var name := [Name(m, c.i.flags)];
    var ok := [Status("ok")];
    var chal := [Challenge(m, c.a.flags, c.aChallenge)];
    var reply := [Reply(c.iChallenge, GenDigest(c.md5, c.aChallenge, c.iCookie))];
    var ack := [Ack(GenDigest(c.md5, c.iChallenge, Some(c.aCookie)))];
    match s.a
    case AwaitName =>
      s.toI == [] && ((s.i == Idle && s.toA == []) || (s.i == AwaitStatus(m) && s.toA == name && c.i.proto == c.a.proto && VersionsOverlap(c))
                      || (s.i == IFailed && s.toA == [] && !Compatible(c)))
    case Accepting(n) => n == m && Compatible(c) && s.i == AwaitStatus(m) && s.toA == [] && s.toI == []
    case Challenging(n) =>
      n == m && Compatible(c) && s.toA == []
      && ((s.i == AwaitStatus(m) && s.toI == ok) || (s.i == AwaitChallenge(m) && s.toI == []))
    case AwaitReply(n) =>
      n == m && Compatible(c)
      && ((s.i == AwaitStatus(m) && s.toI == ok + chal && s.toA == [])
          || (s.i == AwaitChallenge(m) && s.toI == chal && s.toA == [])
          || (s.i == AwaitAck(m) && s.toI == [] && s.toA == reply))
    case AConnected(n) =>
      n == m && Compatible(c) && SameCookie(c) && s.toA == []
      && ((s.i == AwaitAck(m) && s.toI == ack) || (s.i == IConnected(m) && s.toI == []))
    case AFailed =>
      s.toI == [] && (s.toA == name || s.toA == reply)
      && ((s.i == AwaitStatus(m) && !Compatible(c)) || (s.i == AwaitAck(m) && !SameCookie(c))
          || (s.i == IFailed && !(Compatible(c) && SameCookie(c))))
  }

  lemma StepKeepsInv<D>(c: Config<D>, s: State<D>)
    requires NoCollision(c) && WellFormed(c) && Inv(c, s)
    ensures StepI(c, s).Some? ==> Inv(c, StepI(c, s).value)
    ensures StepA(c, s).Some? ==> Inv(c, StepA(c, s).value)
  {
    DigestsTellCookies(c, c.iChallenge);
    DigestsTellCookies(c, c.aChallenge);
  }

  lemma {:induction false} RunInv<D>(c: Config<D>, schedule: seq<bool>)
    requires NoCollision(c) && WellFormed(c)
    ensures Inv(c, Run(c, schedule))
  {
    if schedule != [] {
      RunInv(c, schedule[..|schedule| - 1]);
      StepKeepsInv(c, Run(c, schedule[..|schedule| - 1]));
    }
  }

  // ---- What a handshake achieves ----

  /** In every schedule: nobody is ever connected unless nodes and cookies fit; the initiator is
      connected only after the acceptor; both then hold the smaller of the two highest versions.
      And once no thread can go on, both are connected exactly when nodes and cookies fit. */
  lemma HandshakeOutcome<D>(c: Config<D>, schedule: seq<bool>)
    requires NoCollision(c) && WellFormed(c)
    ensures var s := Run(c, schedule);
            && (s.a.AConnected? ==> Compatible(c) && SameCookie(c) && s.a.choose == if c.i.high < c.a.high then c.i.high else c.a.high)
            && (s.i.IConnected? ==> s.a.AConnected? && s.i.choose == s.a.choose)
            && (Stuck(c, s) ==>
                  if Compatible(c) && SameCookie(c) then s.i.IConnected? && s.a.AConnected?
                  else !s.i.IConnected? && !s.a.AConnected?)
  {
    RunInv(c, schedule);
    DigestsTellCookies(c, c.iChallenge);
    DigestsTellCookies(c, c.aChallenge);
  }

  /** How many steps a state still allows at most. */
  function Rank<D>(s: State<D>): nat {
    (match s.i case Idle => 4 case AwaitStatus(_) => 3 case AwaitChallenge(_) => 2 case AwaitAck(_) => 1 case _ => 0)
    + (match s.a case AwaitName => 4 case Accepting(_) => 3 case Challenging(_) => 2 case AwaitReply(_) => 1 case _ => 0)
  }

  /** Every step brings the end nearer, so at most eight steps are taken and no schedule goes on
      for ever. */
  lemma StepsDecrease<D>(c: Config<D>, s: State<D>)
    ensures Rank<D>(Start()) == 8
    ensures StepI(c, s).Some? ==> Rank(StepI(c, s).value) < Rank(s)
    ensures StepA(c, s).Some? ==> Rank(StepA(c, s).value) < Rank(s)
  {
  }

  /** A connection that OtpNode.connection sets up by itself, without a cookie, is accepted exactly
      by a node whose cookie is empty. */
  lemma NullCookie<D>(c: Config<D>, schedule: seq<bool>)
    requires NoCollision(c) && WellFormed(c) && Compatible(c) && c.iCookie == None
    requires Stuck(c, Run(c, schedule))
    ensures Run(c, schedule).i.IConnected? <==> c.aCookie == ""
  {
    HandshakeOutcome(c, schedule);
  }
}
