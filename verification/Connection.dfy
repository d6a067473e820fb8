/** From commands to commands: encode, frame, cut into reads of any size, reassemble, decode. */
module Connection {
  import opened Basics
  import opened Wire
  import opened Framing
  import opened StreamReader
  import opened Commands

  function Bodies(cs: seq<ClientCommand>): seq<seq<Byte>> {
    seq(|cs|, i requires 0 <= i < |cs| => EncodeClient(cs[i]))
  }

  function NormAll(cs: seq<ClientCommand>): seq<ClientCommand> {
    seq(|cs|, i requires 0 <= i < |cs| => NormClient(cs[i]))
  }

  lemma BodyDecodes(c: ClientCommand)
    requires ClientOk(c)
    ensures DecodeClient(EncodeClient(c)) == Got(NormClient(c), [])
  {
    ClientRoundTrip(c, []);
    assert EncodeClient(c) + [] == EncodeClient(c);
  }

  /**
   Well-formed client commands whose encodings fit a frame arrive complete and in order, up to the
   rounding of coordinates, however the network cuts the stream of their frames into reads.
   */
  lemma CommandsArrive(cs: seq<ClientCommand>, chunks: seq<seq<Byte>>, states: seq<(seq<ClientCommand>, Status)>)
    requires forall i :: 0 <= i < |cs| ==> ClientOk(cs[i]) && |EncodeClient(cs[i])| <= MAX_FRAME
    requires Join(chunks) == FrameAll(Bodies(cs)) && Fed(DecodeClient, states, chunks)
    ensures states[|chunks|] == (NormAll(cs), Waiting([]))
  {
    forall i | 0 <= i < |cs|
      ensures |Bodies(cs)[i]| <= MAX_FRAME && DecodeClient(Bodies(cs)[i]).Got? && DecodeClient(Bodies(cs)[i]).value == NormAll(cs)[i]
    {
      BodyDecodes(cs[i]);
    }
    FramesUnderstood(DecodeClient, Bodies(cs), NormAll(cs));
    ChunkingIrrelevant(DecodeClient, states, chunks, |chunks|);
    assert chunks[..|chunks|] == chunks;
  }
}
