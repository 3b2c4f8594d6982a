/** The byte transport every widget talks through. The model keeps the bytes
    still waiting to be read and every string written so far; the timeout,
    ASCII encoding and the device itself are outside the model. */
module Serial {
  import opened Common

  class Console {
    /** Bytes received and not yet read (`in_waiting` of them). */
    var pending: seq<Byte>
    /** Every `write` so far, in order. */
    var written: seq<string>

    constructor (input: seq<Byte>)
      ensures pending == input && written == []
    {
      pending := input;
      written := [];
    }

    /** `in_waiting` read as a truth value. */
    predicate InWaiting()
      reads this
    {
      pending != []
    }

    /** `SerialIO.write`. */
    method Write(text: string)
      modifies this
      ensures written == old(written) + [text]
      ensures pending == old(pending)
    {
      written := written + [text];
    }

    /** `SerialIO.write_line`: the text followed by CR LF. */
    method WriteLine(text: string)
      modifies this
      ensures written == old(written) + [text + "\r\n"]
      ensures pending == old(pending)
    {
      written := written + [text + "\r\n"];
    }

    /** `read(1)` when a byte is waiting. */
    method Read() returns (b: Byte)
      requires pending != []
      modifies this
      ensures b == old(pending)[0] && pending == old(pending)[1..]
      ensures written == old(written)
    {
      b := pending[0];
      pending := pending[1..];
    }
  }
}
