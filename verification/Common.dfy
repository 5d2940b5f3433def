/** Types shared by the models of the individual components. */
module Common {
  datatype Option<+T> = None | Some(value: T)

  /** One octet of a message, a file or a frame. */
  type Byte = x: int | 0 <= x < 256

  /** Replaces the part of `buffer` that starts at `offset` by `data`. */
  function Overwrite(buffer: seq<Byte>, offset: nat, data: seq<Byte>): (r: seq<Byte>)
    requires offset + |data| <= |buffer|
    ensures |r| == |buffer|
    ensures forall i :: 0 <= i < |r| ==>
      r[i] == if offset <= i < offset + |data| then data[i - offset] else buffer[i]
  {
    buffer[..offset] + data + buffer[offset + |data|..]
  }
}
