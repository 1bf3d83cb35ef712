/**
  POSIX shared memory as the package uses it: one name space for all processes, and segments
  of bytes. Removing a name does not touch the segment, which lives on for those who hold it.
 */
module OperatingSystem {
  type Byte = b: int | 0 <= b < 256
  type SegId = nat
  type Addr = nat

  /** `Counter` is the segment that holds the last id; `Data(id)` is the segment of an
      automatically numbered object; `Named` is one whose id the user spelled out. */
  datatype Key = Counter | Data(id: nat) | Named(name: string)

  /** How the operating system answers a request for a new segment whose name is free. */
  datatype Fate = Granted | NoObject | NoSpace

  datatype Os = Os(names: map<Key, SegId>, segments: map<SegId, seq<Byte>>, next: SegId) {

    ghost predicate Valid() {
      && (forall s :: s in segments ==> s < next)
      && (forall k :: k in names ==> names[k] in segments)
    }

    /** create_only followed by truncate: a new segment of zero bytes under a new name. */
    function Create(key: Key, n: nat): Os {
      Os(names[key := next], segments[next := Zeros(n)], next + 1)
    }

    function Remove(key: Key): Os {
      this.(names := names - {key})
    }

    function SizeOf(s: SegId): nat {
      if s in segments then |segments[s]| else 0
    }

    function Write(s: SegId, at: nat, b: Byte): Os
      requires s in segments && at < |segments[s]|
    {
      var bytes: seq<Byte> := segments[s];
      this.(segments := segments[s := bytes[..at] + [b] + bytes[at + 1..]])
    }
  }

  function Zeros(n: nat): (z: seq<Byte>)
    ensures |z| == n && forall i :: 0 <= i < n ==> z[i] == 0
  {
    seq(n, _ => 0)
  }

  /** `after` keeps every segment of `before`, at its size. Names may have come and gone. */
  ghost predicate Extends(before: Os, after: Os) {
    && before.next <= after.next
    && forall s :: s in before.segments ==>
         s in after.segments && |after.segments[s]| == |before.segments[s]|
  }

  /** The operating system's state, shared by all processes. */
  class SystemTable {
    var state: Os

    constructor ()
      ensures state == Os(map[], map[], 0)
    {
      state := Os(map[], map[], 0);
    }
  }
}
