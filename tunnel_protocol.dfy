/**
  The tunnel control protocol carried at the start of every multiplexed stream:
  the client sends `[len: u8][addr: len bytes]`, the server answers with one
  status byte, 0x00 for "connected" and 0x01 for "dial failed".
 */
module TunnelProtocol {
  import opened Common

  const STATUS_OK: byte := 0x00
  const STATUS_DIAL_FAILED: byte := 0x01
  /** The largest address length the one-byte length field can carry. */
  const MAX_ADDRESS_LENGTH := 255

  /** Go's conversion `byte(n)` keeps the low eight bits of `n`. */
  function LengthByte(n: nat): (b: byte)
    ensures n <= MAX_ADDRESS_LENGTH ==> b == n
  {
    n % 256
  }

  /** The request header the client writes: the length byte, then the address bytes. */
  function EncodeRequest(addr: seq<byte>): (header: seq<byte>)
    ensures |header| == 1 + |addr|
    ensures header[1..] == addr
    ensures |addr| <= MAX_ADDRESS_LENGTH ==> header[0] == |addr|
  {
    [LengthByte(|addr|)] + addr
  }

  datatype DecodeError =
    | ShortLength   // the stream ended before the length byte
    | ShortAddress  // the stream ended before `len` address bytes arrived

  /** A decoded request: the target address and how many stream bytes it used. */
  datatype Request = Request(target: seq<byte>, consumed: nat)

  datatype DecodeResult = Decoded(request: Request) | Malformed(error: DecodeError)

  /**
    What the server parses from the bytes `input` the peer sends before its side
    of the stream ends: one length byte, then exactly that many address bytes.
   */
  function DecodeRequest(input: seq<byte>): (r: DecodeResult)
    ensures r == Malformed(ShortLength) <==> input == []
    ensures r.Decoded? ==> r.request.consumed == 1 + |r.request.target| <= |input|
  {
    if |input| < 1 then Malformed(ShortLength)
    else
      var len: nat := input[0];
      if |input| - 1 < len then Malformed(ShortAddress)
      else Decoded(Request(input[1..1 + len], 1 + len))
  }

  /** Decoding only looks at the bytes it consumes: a decoded request is exactly an encoded header. */
  lemma DecodedIsEncoding(input: seq<byte>)
    requires DecodeRequest(input).Decoded?
    ensures var req := DecodeRequest(input).request;
      req.consumed <= |input| && req.consumed == 1 + |req.target| &&
      |req.target| <= MAX_ADDRESS_LENGTH &&
      input[..req.consumed] == EncodeRequest(req.target)
  {
  }

  /** Round trip: an address of at most 255 bytes is decoded back intact, whatever follows it. */
  lemma DecodeEncode(addr: seq<byte>, rest: seq<byte>)
    requires |addr| <= MAX_ADDRESS_LENGTH
    ensures DecodeRequest(EncodeRequest(addr) + rest) == Decoded(Request(addr, 1 + |addr|))
  {
  }

  /**
    A longer address is not rejected: the server reads only `|addr| mod 256`
    address bytes, so it sees a truncated target.
   */
  lemma DecodeLongAddress(addr: seq<byte>, rest: seq<byte>)
    requires |addr| > MAX_ADDRESS_LENGTH
    ensures var n := |addr| % 256;
      EncodeRequest(addr)[0] == n && n < |addr| &&
      DecodeRequest(EncodeRequest(addr) + rest) == Decoded(Request(addr[..n], 1 + n)) &&
      addr[..n] != addr
  {
  }

  /** The concrete case: a 256-byte address arrives at the server as the empty target. */
  lemma Address256DecodesEmpty()
    ensures var addr := seq(256, i => 97);
      DecodeRequest(EncodeRequest(addr)) == Decoded(Request([], 1))
  {
  }
}
