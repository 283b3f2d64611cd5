/** What a message is once its header block has been read (message.c). */
module Messages {
  import opened Text
  import opened Headers
  import opened Recipients

  datatype MessageState = LoadingFailed | LoadingHeaders | HeadersLoaded | LoadingBody | BodyLoaded

  datatype Parsed = Parsed(state: MessageState, envelope: Envelope)

  /**
   * The two parsers run one after the other on a header block. The second one also runs when
   * the first has failed, on the headers found so far; the message has failed all the same.
   */
  function Parse(block: string): Parsed {
    var list := ParseBlock(block);
    var e := EnvelopeOf(list.headers);
    Parsed(if list.ok && e.ok then HeadersLoaded else LoadingFailed, e)
  }

  /** The addresses a header block names, in order. */
  function NamedAddresses(block: string): seq<Address> {
    Addresses(ParseBlock(block).headers)
  }

  method ParseMessage(block: string) returns (parsed: Parsed)
    requires NoNul(block)
    ensures parsed == Parse(block)
  {
    var failed, headers := ParseHeaders(block);
    NoNulParsed(block, 0);
    var e := ParseSenderAndDestinations(headers);
    parsed := Parsed(if !failed && e.ok then HeadersLoaded else LoadingFailed, e);
  }

  /** A block is accepted exactly when every unfolded line has a ':' and every recipient an '@'. */
  lemma ParseAccepts(block: string)
    ensures Parse(block).state.HeadersLoaded? <==>
              && (forall i :: 0 <= i < |Pieces(block)| ==> ':' in Pieces(block)[i])
              && WellAddressed(ParseBlock(block).headers)
    ensures Parse(block).state.HeadersLoaded? ==>
              && Groups(Parse(block).envelope.destinations, NamedAddresses(block))
              && WellGrouped(Parse(block).envelope.destinations)
              && Parse(block).envelope.headers == Remaining(ParseBlock(block).headers)
              && Parse(block).envelope.sender == LastSender(ParseBlock(block).headers, "")
  {
    HeadersOfOk(Pieces(block));
    EnvelopeIsGrouped(ParseBlock(block).headers);
    if Parse(block).state.HeadersLoaded? {
      GroupsAreDistinct(Parse(block).envelope.destinations, NamedAddresses(block));
    }
  }
}
