/** The connect-time handshake: the client sends one byte holding the length
    of its username followed by the username bytes (cmd/client/client.go,
    setup_connection); the server reads that byte, refuses a declared length
    above MAX_USERNAME_LENGTH and reads that many bytes as the name
    (cmd/server/server.go, receive_connection). */
module Handshake {
  import opened Common

  /** What the server's handshake read produces. `TooLong` closes the socket
      without writing anything to the peer; `ReadFailed` is a read error
      (the stream ended before the length byte or before the name). */
  datatype Handshake =
    | Accepted(name: Bytes, rest: Bytes)
    | TooLong(declared: Byte)
    | ReadFailed

  /** The frame the client writes: `uint8(len(username))`, which keeps only
      the low eight bits of the length, then the username bytes. */
  function Frame(username: Bytes): (f: Bytes)
    ensures |f| == |username| + 1 && f[1..] == username
    ensures f[0] == |username| % 256
    ensures |username| <= MAX_USERNAME_LENGTH ==> ParseHandshake(f) == Accepted(username, [])
  {
    [(|username| % 256) as Byte] + username
  }

  /** The server's handshake read over what the peer sent; `rest` is what
      follows the name on the stream. */
  function ParseHandshake(stream: Bytes): (h: Handshake)
    ensures h.TooLong? <==> |stream| > 0 && stream[0] > MAX_USERNAME_LENGTH
    ensures h.TooLong? ==> h.declared == stream[0]
    ensures h.ReadFailed? <==>
      |stream| == 0 || (stream[0] <= MAX_USERNAME_LENGTH && |stream| < 1 + stream[0])
    ensures h.Accepted? ==>
      |h.name| <= MAX_USERNAME_LENGTH && stream == [|h.name| as Byte] + h.name + h.rest
  {
    if |stream| == 0 then ReadFailed
    else if stream[0] > MAX_USERNAME_LENGTH then TooLong(stream[0])
    else if |stream| < 1 + stream[0] then ReadFailed
    else
      var n := stream[0];
      assert stream == [stream[0]] + stream[1..1 + n] + stream[1 + n..];
      Accepted(stream[1..1 + n], stream[1 + n..])
  }

  /** A frame of at most MAX_USERNAME_LENGTH bytes, followed by anything,
      gives the server back exactly that name and leaves the rest of the
      stream unread. */
  lemma HandshakeRoundTrip(username: Bytes, tail: Bytes)
    requires |username| <= MAX_USERNAME_LENGTH
    ensures ParseHandshake(Frame(username) + tail) == Accepted(username, tail)
  {
  }

  /** Every accepted handshake came from a frame: the parse is the inverse
      of Frame on the accepted streams. */
  lemma ParseInvertsFrame(stream: Bytes)
    requires ParseHandshake(stream).Accepted?
    ensures stream == Frame(ParseHandshake(stream).name) + ParseHandshake(stream).rest
  {
  }

  /** Without the guard the length byte wraps: a 256-byte name is announced
      as length 0, and the server reads an empty name. */
  lemma UnguardedLengthWraps(username: Bytes)
    requires |username| == 256
    ensures ParseHandshake(Frame(username)) == Accepted([], username)
  {
  }
}
