/** Types shared by the client and the server model. */
module Common {

  /** One octet, Go's `byte`. */
  type byte = b: int | 0 <= b < 256

  datatype Option<+T> = None | Some(value: T)

  /** The byte stream a sequence of whole messages amounts to, in order. */
  function Flatten(msgs: seq<seq<byte>>): (r: seq<byte>)
  {
    if msgs == [] then [] else msgs[0] + Flatten(msgs[1..])
  }

}
