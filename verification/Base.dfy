/** Machine integers, byte strings and the small vocabulary the other modules share. */
module Base {

  const TWO_16: nat := 0x1_0000
  const TWO_32: nat := 0x1_0000_0000
  const TWO_64: nat := 0x1_0000_0000_0000_0000

  type byte = b: int | 0 <= b < 256
  type uint32 = n: int | 0 <= n < TWO_32
  type uint64 = n: int | 0 <= n < TWO_64

  type Bytes = seq<byte>

  datatype Option<+T> = None | Some(value: T)

  datatype Result<+T, +E> = Ok(value: T) | Err(error: E)

  /** What reading, packing and registering can report. HashCollision stands for the panic of a registration. */
  datatype Error =
    | ConnectClosed
    | InvalidHeader
    | ReadFailed
    | CommonMalformed
    | PayloadMalformed
    | NotRegistered(id: uint32)
    | MarshalFailed
    | NilMessage
    | HashCollision

  /** At most the first n bytes, which is what a limited reader can hand out. */
  function Take(s: Bytes, n: nat): Bytes {
    if |s| <= n then s else s[..n]
  }

  function Drop(s: Bytes, n: nat): Bytes {
    if |s| <= n then [] else s[n..]
  }

  function Flatten<T>(parts: seq<seq<T>>): seq<T> {
    if parts == [] then [] else parts[0] + Flatten(parts[1..])
  }

  lemma {:induction false} SubsetSize<T>(a: set<T>, b: set<T>)
    requires a <= b
    ensures |a| <= |b|
  {
    if a == {} {
    } else {
      var x :| x in a;
      SubsetSize(a - {x}, b - {x});
    }
  }
}
