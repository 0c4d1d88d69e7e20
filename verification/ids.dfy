/** The pid, port and reference generators of a node (OtpLocalNode.cs). */
module OtpIds {
  import opened Bytes
  import opened Erlang

  const PIDS: nat := 0x4_0000
  const PORTS: nat := 0x4_0000
  const REF0: nat := 0x4_0000
  const WORD: nat := 0x1_0000_0000

  /** The k-th identifier of each kind is k + 1 written in the mixed radix of its fields. */
  function PidAt(node: string, creation: int, k: nat): Pid {
    Pid(node, (k + 1) % 0x8000, (k + 1) / 0x8000 % 8, creation % 4)
  }

  function PortAt(node: string, creation: int, k: nat): Port {
    Port(node, (k + 1) % 0x4_0000, creation % 4)
  }

  function RefAt(node: string, creation: int, k: nat): Ref {
    Ref(node, [(k + 1) % REF0, Signed32((k + 1) / REF0), Signed32((k + 1) / REF0 / WORD)], creation % 4)
  }

  /** A C# int increment wraps at 2^31. */
  function Increment32(i: int): int {
    if i == 0x7fff_ffff then -0x8000_0000 else i + 1
  }

  lemma IncrementIsSigned(u: nat)
    ensures Increment32(Signed32(u)) == Signed32(u + 1)
  {
  }

  lemma DivStep(n: nat, m: nat)
    requires m > 0
    ensures (n + 1) % m == (if n % m == m - 1 then 0 else n % m + 1)
    ensures (n + 1) / m == (if n % m == m - 1 then n / m + 1 else n / m)
  {
    var q, r := n / m, n % m;
    assert n == q * m + r;
    if r == m - 1 {
      assert n + 1 == (q + 1) * m;
      DivUnique(n + 1, m, q + 1, 0);
    } else {
      DivUnique(n + 1, m, q, r + 1);
    }
  }

  lemma MulBounds(d: int, m: int, k: int)
    requires m > 0
    ensures d >= k ==> d * m >= k * m
    ensures d <= -k ==> d * m <= -(k * m)
  {
  }

  lemma DivUnique(n: nat, m: int, q: nat, r: nat)
    requires m > 0 && r < m && n == q * m + r
    ensures n / m == q && n % m == r
  {
    var d := n / m - q;
    assert n == (n / m) * m + n % m;
    assert d * m == r - n % m;
    MulBounds(d, m, 1);
  }

  class OtpLocalNode {
    const node: string
    const creation: int
    var pidCount: int
    var serial: int
    var portCount: int
    var refId: array<int>

    // How many identifiers of each kind have been made.
    ghost var pids: nat
    ghost var ports: nat
    ghost var refs: nat

    ghost predicate Valid()
      reads this, refId
    {
      && refId.Length == 3
      && pidCount == (pids + 1) % 0x8000 && serial == (pids + 1) / 0x8000 % 8
      && portCount == (ports + 1) % 0x4_0000
      && refId[0] == (refs + 1) % REF0
      && refId[1] == Signed32((refs + 1) / REF0)
      && refId[2] == Signed32((refs + 1) / REF0 / WORD)
    }

    constructor (node: string, creation: int)
      ensures Valid() && fresh(refId)
      ensures pids == ports == refs == 0
      ensures this.node == node && this.creation == creation
    {
      this.node, this.creation := node, creation;
      serial, pidCount, portCount := 0, 1, 1;
      refId := new int[3](i => if i == 0 then 1 else 0);
      pids, ports, refs := 0, 0, 0;
    }

    method CreatePid() returns (p: Pid)
      requires Valid()
      modifies this
      ensures Valid() && refId == old(refId)
      ensures p == PidAt(node, creation, old(pids))
      ensures pids == old(pids) + 1 && ports == old(ports) && refs == old(refs)
    {
      p := MakePid(node, pidCount, serial, creation);
      DivStep(pids + 1, 0x8000);
      DivStep((pids + 1) / 0x8000, 8);
      pidCount := pidCount + 1;
      if pidCount > 0x7fff {
        pidCount := 0;
        serial := serial + 1;
        if serial > 0x07 {
          serial := 0;
        }
      }
      pids := pids + 1;
    }

    method CreatePort() returns (p: Port)
      requires Valid()
      modifies this
      ensures Valid() && refId == old(refId)
      ensures p == PortAt(node, creation, old(ports))
      ensures ports == old(ports) + 1 && pids == old(pids) && refs == old(refs)
    {
      p := MakePort(node, portCount, creation);
      portCount := portCount + 1;
      if portCount > 0x3ffff {
        portCount := 0;
      }
      ports := ports + 1;
    }

    method CreateRef() returns (r: Ref)
      requires Valid()
      modifies this, refId
      ensures Valid() && refId == old(refId)
      ensures r == RefAt(node, creation, old(refs))
      ensures refs == old(refs) + 1 && pids == old(pids) && ports == old(ports)
    {
      r := MakeRef(node, refId[..], creation);
      NextRef(refs + 1);
      hide Signed32, Increment32;
      refId[0] := refId[0] + 1;
      if refId[0] > 0x3ffff {
        refId[0] := 0;
        refId[1] := Increment32(refId[1]);
        if refId[1] == 0 {
          refId[2] := Increment32(refId[2]);
        }
      }
      refs := refs + 1;
    }
  }

  /** The digits of n + 1 from those of n: a word moves on exactly when the one below it wraps. */
  lemma NextRef(n: nat)
    ensures var carry0 := n % REF0 == REF0 - 1;
            var carry1 := carry0 && Increment32(Signed32(n / REF0)) == 0;
            && (n + 1) % REF0 == (if carry0 then 0 else n % REF0 + 1)
            && Signed32((n + 1) / REF0) == (if carry0 then Increment32(Signed32(n / REF0)) else Signed32(n / REF0))
            && Signed32((n + 1) / REF0 / WORD) ==
                 (if carry1 then Increment32(Signed32(n / REF0 / WORD)) else Signed32(n / REF0 / WORD))
  {
    var w := n / REF0;
    DivStep(n, REF0);
    DivStep(w, WORD);
    IncrementIsSigned(w);
    IncrementIsSigned(w / WORD);
    WrapsToZero(w);
    hide Signed32, Increment32;
  }

  lemma WrapsToZero(w: nat)
    ensures Increment32(Signed32(w)) == 0 <==> w % WORD == WORD - 1
  {
  }

  /** A number in two mixed radix digits above its lowest part. */
  lemma Split(a: nat, m: int, n: int)
    requires m > 0 && n > 0
    ensures m * n > 0
    ensures 0 <= a % m + m * (a / m % n) < m * n
    ensures a == a / m / n * (m * n) + (a % m + m * (a / m % n))
  {
    var q, r := a / m, a % m;
    var u, d := q / n, q % n;
    MulBounds(n - 1 - d, m, 0);
    calc {
      a;
      q * m + r;
      { assert q == u * n + d; }
      (u * n + d) * m + r;
      u * n * m + d * m + r;
      u * (m * n) + (r + m * d);
    }
  }

  /** Two digits of a mixed radix number are one digit of the combined radix. */
  lemma TwoDigits(a: nat, m: int, n: int)
    requires m > 0 && n > 0
    ensures m * n > 0
    ensures a % (m * n) == a % m + m * (a / m % n)
    ensures a / m / n == a / (m * n)
  {
    Split(a, m, n);
    DivUnique(a, m * n, a / m / n, a % m + m * (a / m % n));
  }

  /** Digits agree exactly when the numbers they make up agree. */
  lemma SameDigits(a: nat, b: nat, m: int, n: int)
    requires m > 0 && n > 0
    ensures m * n > 0
    ensures a % (m * n) == b % (m * n) <==> a % m == b % m && a / m % n == b / m % n
  {
    TwoDigits(a, m, n);
    TwoDigits(b, m, n);
    if a % (m * n) == b % (m * n) {
      var x, y := a / m % n, b / m % n;
      assert m * (x - y) == b % m - a % m;
      MulBounds(x - y, m, 1);
    }
  }

  lemma SignedInjective(u: nat, v: nat)
    ensures Signed32(u) == Signed32(v) <==> u % WORD == v % WORD
  {
  }

  /** Two pids made by one node are equal exactly when a multiple of 2^18 pids lies between
      them; so any 2^18 consecutive ones are distinct. The same holds for ports. */
  lemma PidsRepeat(node: string, creation: int, j: nat, k: nat)
    ensures PidAt(node, creation, j) == PidAt(node, creation, k) <==> (j + 1) % PIDS == (k + 1) % PIDS
    ensures PortAt(node, creation, j) == PortAt(node, creation, k) <==> (j + 1) % PORTS == (k + 1) % PORTS
    ensures j < k < j + PIDS ==> PidAt(node, creation, j) != PidAt(node, creation, k)
    ensures j < k < j + PORTS ==> PortAt(node, creation, j) != PortAt(node, creation, k)
  {
    SameDigits(j + 1, k + 1, 0x8000, 8);
    if j < k {
      NotNear(j + 1, k + 1, PIDS);
    }
  }

  lemma NotNear(a: nat, b: nat, m: nat)
    requires m > 0 && a < b
    ensures b < a + m ==> a % m != b % m
  {
    var q, p := a / m, b / m;
    assert a == q * m + a % m && b == p * m + b % m;
    MulBounds(p - q, m, 1);
  }

  /** Identifiers of two nodes, or of one before and after its creation changed, are equal only if the
      name and the two bits of the creation are. */
  lemma MakersApart(n1: string, c1: int, j: nat, n2: string, c2: int, k: nat)
    ensures PidAt(n1, c1, j) == PidAt(n2, c2, k) <==> n1 == n2 && c1 % 4 == c2 % 4 && (j + 1) % PIDS == (k + 1) % PIDS
    ensures PortAt(n1, c1, j) == PortAt(n2, c2, k) <==> n1 == n2 && c1 % 4 == c2 % 4 && (j + 1) % PORTS == (k + 1) % PORTS
    ensures RefAt(n1, c1, j) == RefAt(n2, c2, k) <==>
            n1 == n2 && c1 % 4 == c2 % 4 && (j + 1) % (REF0 * WORD * WORD) == (k + 1) % (REF0 * WORD * WORD)
  {
    PidsRepeat(n1, c1, j, k);
    RefsRepeat(n1, c1, j, k);
    hide Signed32;
  }

  /** Two references made by one node are equal exactly when a multiple of 2^82 lies between
      them; so any 2^82 consecutive ones are distinct. */
  lemma RefsRepeat(node: string, creation: int, j: nat, k: nat)
    ensures RefAt(node, creation, j) == RefAt(node, creation, k) <==>
            (j + 1) % (REF0 * WORD * WORD) == (k + 1) % (REF0 * WORD * WORD)
    ensures j < k < j + REF0 * WORD * WORD ==> RefAt(node, creation, j) != RefAt(node, creation, k)
  {
    var a, b := j + 1, k + 1;
    SameRefDigits(node, creation, j, k);
    SameThreeDigits(a, b, REF0, WORD, WORD);
    if j < k {
      NotNear(a, b, REF0 * WORD * WORD);
    }
  }

  lemma SameRefDigits(node: string, creation: int, j: nat, k: nat)
    ensures RefAt(node, creation, j) == RefAt(node, creation, k) <==>
            && (j + 1) % REF0 == (k + 1) % REF0 && (j + 1) / REF0 % WORD == (k + 1) / REF0 % WORD
            && (j + 1) / REF0 / WORD % WORD == (k + 1) / REF0 / WORD % WORD
  {
    var a, b := j + 1, k + 1;
    SignedInjective(a / REF0, b / REF0);
    SignedInjective(a / REF0 / WORD, b / REF0 / WORD);
    hide Signed32;
    var x, y := RefAt(node, creation, j), RefAt(node, creation, k);
    assert x == y <==> x.ids[0] == y.ids[0] && x.ids[1] == y.ids[1] && x.ids[2] == y.ids[2];
  }

  lemma SameThreeDigits(a: nat, b: nat, l: int, m: int, n: int)
    requires l > 0 && m > 0 && n > 0
    ensures l * m * n > 0
    ensures a % (l * m * n) == b % (l * m * n) <==>
            a % l == b % l && a / l % m == b / l % m && a / l / m % n == b / l / m % n
  {
    TwoDigits(a, l, m);
    TwoDigits(b, l, m);
    SameDigits(a, b, l, m);
    SameDigits(a, b, l * m, n);
  }
}
