/** Definitions shared by the chat server and client: bytes, the two size
    limits of internal/common/common.go, and the message envelope that
    both programs exchange. */
module Common {

  /** Go strings are byte strings and `len` counts bytes, so names and
      message bodies are sequences of bytes here. */
  type Byte = b: int | 0 <= b < 256
  type Bytes = seq<Byte>

  /** A connection handle; every accepted socket gets a distinct one. */
  type ConnId = nat

  const MAX_USERNAME_LENGTH: nat := 32
  const MAX_MESSAGE_LENGTH: nat := 2048

  datatype Option<T> = None | Some(value: T)

  /** The `Message` record of both programs: recipient, sender, body and the
      flag that marks a diagnostic generated by the server. */
  datatype Message = Message(To: Bytes, From: Bytes, Content: Bytes, Error: bool)

  /** The envelope invariant: recipient and body within their limits. */
  predicate WithinLimits(m: Message)
  {
    |m.To| <= MAX_USERNAME_LENGTH && |m.Content| <= MAX_MESSAGE_LENGTH
  }
}
