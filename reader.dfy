/** The character cursor over the text being parsed, and the errors it
    raises. */
module Reader {
  import opened Results

  /** A parse failure with the position it reports. A syntax error reports a
      1-based position; the end-of-input error reports the raw offset. */
  datatype ParseError =
    | ParseError(message: string, position: nat)
    | ParseEOFError(position: nat)
  {
    function Message(): string {
      match this
      case ParseError(m, _) => m
      case ParseEOFError(_) => "Unexpected end of file"
    }
  }

  /** An offset into a fixed text. The only state is `offset`. */
  class Reader {
    const data: string
    var offset: nat

    /** The offset never passes the end of the text. */
    ghost predicate Valid()
      reads this
    {
      offset <= |data|
    }

    constructor (data: string)
      ensures Valid()
      ensures this.data == data && offset == 0
    {
      this.data := data;
      offset := 0;
    }

    /** Moves by `n` characters. Moving past the end clamps the offset to the
        end of the text and then raises the end-of-input error. */
    method Forward(n: int) returns (r: Outcome<ParseError>)
      requires Valid()
      requires 0 <= offset + n
      modifies this
      ensures Valid()
      ensures old(offset) + n <= |data| ==> offset == old(offset) + n && r == Pass
      ensures old(offset) + n > |data| ==> offset == |data| && r == Fail(ParseEOFError(|data|))
    {
      offset := offset + n;
      if offset > |data| {
        offset := |data|;
        return Fail(EofError());
      }
      return Pass;
    }

    /** `Forward(-n)`: moving back within the text restores an earlier offset
        and never raises. */
    method Back(n: int) returns (r: Outcome<ParseError>)
      requires Valid()
      requires n <= offset
      modifies this
      ensures Valid()
      ensures old(offset) - n <= |data| ==> offset == old(offset) - n && r == Pass
      ensures old(offset) - n > |data| ==> offset == |data| && r == Fail(ParseEOFError(|data|))
      ensures 0 <= n ==> offset == old(offset) - n && r == Pass
    {
      r := Forward(-n);
    }

    /** True at the end of the text, where the offset is clamped to the end. */
    method IsEof() returns (eof: bool)
      requires Valid()
      modifies this
      ensures Valid()
      ensures eof <==> old(offset) >= |data|
      ensures offset == if eof then |data| else old(offset)
      ensures offset == old(offset)
    {
      if offset >= |data| {
        offset := |data|;
        return true;
      }
      return false;
    }

    /** The character at the offset, without moving; the end-of-input error
        at the end. */
    method Read() returns (r: Result<char, ParseError>)
      requires Valid()
      modifies this
      ensures Valid() && offset == old(offset)
      ensures offset < |data| ==> r == Ok(data[offset])
      ensures offset == |data| ==> r == Err(ParseEOFError(offset))
    {
      var eof := IsEof();
      if eof {
        return Err(EofError());
      }
      return Ok(data[offset]);
    }

    /** The end-of-input error carries the 0-based offset as it is. */
    function EofError(): (e: ParseError)
      reads this
      ensures e.ParseEOFError? && e.position == offset
    {
      ParseEOFError(offset)
    }

    /** A syntax error carries the 1-based position of the offset. */
    function SyntaxError(message: string): (e: ParseError)
      reads this
      ensures e.ParseError? && e.message == message && e.position == offset + 1
    {
      ParseError(message, offset + 1)
    }
  }
}
