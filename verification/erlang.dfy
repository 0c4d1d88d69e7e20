/** Values shared by the otp.net modules: identifiers as the Erlang.* classes hold them,
    and the usual optional value. */
module Erlang {

  datatype Option<+T> = None | Some(value: T)

  /** Erlang.Pid. Two pids are Equals exactly when all four fields agree. */
  datatype Pid = Pid(node: string, id: int, serial: int, creation: int)

  /** Erlang.Port. */
  datatype Port = Port(node: string, id: int, creation: int)

  /** Erlang.Ref; one word is an old style reference, three words a new style one. */
  datatype Ref = Ref(node: string, ids: seq<int>, creation: int)

  // The public constructors keep only the low bits of their numbers. On two's complement
  // integers `x & (2^n - 1)` is the Euclidean remainder, also for negative x.

  function MakePid(node: string, id: int, serial: int, creation: int): Pid {
    Pid(node, id % 0x8000, serial % 8, creation % 4)
  }

  function MakePort(node: string, id: int, creation: int): Port {
    Port(node, id % 0x4_0000, creation % 4)
  }

  function MakeOldRef(node: string, id: int, creation: int): Ref {
    Ref(node, [id % 0x4_0000], creation % 4)
  }

  /** At most three words are used, missing ones are zero. */
  function MakeRef(node: string, ids: seq<int>, creation: int): Ref {
    var word := (i: nat) => if i < |ids| then ids[i] else 0;
    Ref(node, [word(0) % 0x4_0000, word(1), word(2)], creation % 4)
  }
}
