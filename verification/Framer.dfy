/** Cutting a byte stream into frames: one-shot framing, the buffering framer, and their agreement on every chunking. */
module Framing {
  import opened Types
  import opened Codec
  import opened Inbound

  /** Whole frames, the bytes left over, and whether those start with a tag of unknown length. */
  datatype Framed = Framed(frames: seq<seq<Byte>>, pending: seq<Byte>, stuck: bool)

  function Flatten(parts: seq<seq<Byte>>): seq<Byte> {
    if parts == [] then [] else parts[0] + Flatten(parts[1..])
  }

  lemma {:induction false} FlattenConcat(xs: seq<seq<Byte>>, ys: seq<seq<Byte>>)
    ensures Flatten(xs + ys) == Flatten(xs) + Flatten(ys)
    decreases |xs|
  {
    if xs == [] {
      assert xs + ys == ys;
    } else {
      assert (xs + ys)[1..] == xs[1..] + ys;
      FlattenConcat(xs[1..], ys);
    }
  }

  lemma FlattenOne(part: seq<Byte>)
    ensures Flatten([part]) == part
  {
    assert [part][1..] == [];
  }

  lemma FlattenCons(part: seq<Byte>, parts: seq<seq<Byte>>)
    ensures Flatten([part] + parts) == part + Flatten(parts)
  {
    assert ([part] + parts)[1..] == parts;
  }

  lemma Assoc(a: seq<Byte>, b: seq<Byte>, c: seq<Byte>)
    ensures (a + b) + c == a + (b + c)
  {
  }

  /** Frame a whole stream at once. */
  function Frames(bytes: seq<Byte>): Framed
    decreases |bytes|
  {
    if bytes == [] then Framed([], [], false)
    else
      var len := MessageLen(bytes[0]);
      if len.None? then Framed([], bytes, true)
      else if |bytes| < len.value then Framed([], bytes, false)
      else
        var rest := Frames(bytes[len.value..]);
        Framed([bytes[..len.value]] + rest.frames, rest.pending, rest.stuck)
  }

  predicate UnknownTag(bytes: seq<Byte>) {
    bytes != [] && MessageLen(bytes[0]).None?
  }

  /** No whole frame can be cut off the front. */
  predicate Incomplete(bytes: seq<Byte>) {
    bytes == [] || MessageLen(bytes[0]).None? || |bytes| < MessageLen(bytes[0]).value
  }

  predicate AllFramed(frames: seq<seq<Byte>>) {
    forall i :: 0 <= i < |frames| ==> WellFramed(frames[i])
  }

  /** `cut` splits `bytes` into well-formed frames and a tail that holds none. */
  predicate Splits(cut: Framed, bytes: seq<Byte>) {
    && Flatten(cut.frames) + cut.pending == bytes
    && AllFramed(cut.frames)
    && Incomplete(cut.pending)
    && cut.stuck == UnknownTag(cut.pending)
  }

  lemma {:induction false} FramesSplit(bytes: seq<Byte>)
    ensures Splits(Frames(bytes), bytes)
    decreases |bytes|
  {
    hide MessageLen, Flatten;
    if Incomplete(bytes) {
      NothingSplits(bytes);
    } else {
      var n := MessageLen(bytes[0]).value;
      var frame, rest := bytes[..n], Frames(bytes[n..]);
      FramesSplit(bytes[n..]);
      SplitsCons(frame, rest, bytes[n..]);
      assert bytes == frame + bytes[n..];
    }
  }

  lemma NothingSplits(bytes: seq<Byte>)
    requires Incomplete(bytes)
    ensures Splits(Framed([], bytes, UnknownTag(bytes)), bytes)
  {
    assert Flatten([]) + bytes == bytes;
  }

  lemma SplitsCons(frame: seq<Byte>, cut: Framed, bytes: seq<Byte>)
    requires WellFramed(frame) && Splits(cut, bytes)
    ensures Splits(Framed([frame] + cut.frames, cut.pending, cut.stuck), frame + bytes)
  {
    hide MessageLen, Flatten, Incomplete, UnknownTag;
    FlattenCons(frame, cut.frames);
    Assoc(frame, Flatten(cut.frames), cut.pending);
  }

  /** There is only one way to split a stream, so any split is the one-shot framing. */
  lemma {:induction false} SplitUnique(cut: Framed, bytes: seq<Byte>)
    requires Splits(cut, bytes)
    ensures Frames(bytes) == cut
    decreases |cut.frames|
  {
    hide MessageLen;
    if cut.frames == [] {
      assert bytes == cut.pending;
    } else {
      var frame, rest := cut.frames[0], cut.frames[1..];
      assert bytes == frame + (Flatten(rest) + cut.pending);
      assert bytes[0] == frame[0] && bytes[..|frame|] == frame && bytes[|frame|..] == Flatten(rest) + cut.pending;
      SplitUnique(Framed(rest, cut.pending, cut.stuck), bytes[|frame|..]);
      assert cut.frames == [frame] + rest;
    }
  }

  /** One-shot framing is exactly the split into frames and an incomplete tail. */
  lemma FramesIff(cut: Framed, bytes: seq<Byte>)
    ensures Frames(bytes) == cut <==> Splits(cut, bytes)
  {
    hide Splits;
    FramesSplit(bytes);
    if Splits(cut, bytes) {
      SplitUnique(cut, bytes);
    }
  }

  // ---- The framer ----

  class Framer {
    var buf: seq<Byte>

    constructor ()
      ensures buf == []
    {
      buf := [];
    }

    method Feed(bytes: seq<Byte>)
      modifies this
      ensures buf == old(buf) + bytes
    {
      buf := buf + bytes;
    }

    /** Hand over every complete frame; keep the tail. The error is an unknown tag at its front. */
    method DrainFrames() returns (frames: seq<seq<Byte>>, error: Option<RejectReason>)
      modifies this
      ensures Framed(frames, buf, error.Some?) == Frames(old(buf))
      ensures error.Some? ==> error == Some(UnknownMessageType)
    {
      hide MessageLen;
      var consumed := 0;
      frames := [];
      while consumed < |buf|
        invariant consumed <= |buf| && buf == old(buf)
        invariant AllFramed(frames) && Flatten(frames) == buf[..consumed]
      {
        var len := MessageLen(buf[consumed]);
        if len.None? {
          Stop(frames, buf, consumed);
          buf := buf[consumed..];
          return frames, Some(UnknownMessageType);
        }
        if |buf| - consumed < len.value {
          break;
        }
        var frame := buf[consumed..consumed + len.value];
        FlattenConcat(frames, [frame]);
        FlattenOne(frame);
        frames, consumed := frames + [frame], consumed + len.value;
      }
      Stop(frames, buf, consumed);
      buf := buf[consumed..];
      return frames, None;
    }
  }

  /** Where the loop of `DrainFrames` may stop. */
  lemma Stop(frames: seq<seq<Byte>>, buf: seq<Byte>, consumed: nat)
    requires consumed <= |buf| && AllFramed(frames) && Flatten(frames) == buf[..consumed] && Incomplete(buf[consumed..])
    ensures Frames(buf) == Framed(frames, buf[consumed..], UnknownTag(buf[consumed..]))
  {
    hide AllFramed;
    var cut := Framed(frames, buf[consumed..], UnknownTag(buf[consumed..]));
    assert buf == buf[..consumed] + buf[consumed..];
    SplitUnique(cut, buf);
  }

  // ---- Chunks ----

  /** One read: the framer holds `f.pending`; feed a chunk, drain, and keep what came out so far. */
  function ReadChunk(f: Framed, chunk: seq<Byte>): Framed {
    var r := Frames(f.pending + chunk);
    Framed(f.frames + r.frames, r.pending, r.stuck)
  }

  function ReadChunks(f: Framed, chunks: seq<seq<Byte>>): Framed
    decreases |chunks|
  {
    if chunks == [] then f else ReadChunks(ReadChunk(f, chunks[0]), chunks[1..])
  }

  lemma ReadChunkSplits(f: Framed, bytes: seq<Byte>, chunk: seq<Byte>)
    requires Splits(f, bytes)
    ensures Splits(ReadChunk(f, chunk), bytes + chunk)
  {
    hide Incomplete, UnknownTag, WellFramed, Flatten, Frames;
    var r := Frames(f.pending + chunk);
    FramesSplit(f.pending + chunk);
    FlattenConcat(f.frames, r.frames);
    Assoc(Flatten(f.frames), Flatten(r.frames), r.pending);
    Assoc(Flatten(f.frames), f.pending, chunk);
  }

  lemma {:induction false} ReadChunksSplits(f: Framed, bytes: seq<Byte>, chunks: seq<seq<Byte>>)
    requires Splits(f, bytes)
    ensures Splits(ReadChunks(f, chunks), bytes + Flatten(chunks))
    decreases |chunks|
  {
    hide Splits, ReadChunk;
    if chunks == [] {
      assert bytes + Flatten(chunks) == bytes;
    } else {
      ReadChunkSplits(f, bytes, chunks[0]);
      ReadChunksSplits(ReadChunk(f, chunks[0]), bytes + chunks[0], chunks[1..]);
      assert (bytes + chunks[0]) + Flatten(chunks[1..]) == bytes + Flatten(chunks);
    }
  }

  const QUIET: Framed := Framed([], [], false)

  /**
   * However a stream is cut into reads, the frames, the pending bytes and the unknown-tag verdict are those of
   * framing the whole stream at once, and frames followed by pending bytes are the bytes read.
   */
  lemma ChunkIndependent(chunks: seq<seq<Byte>>)
    ensures var f := ReadChunks(QUIET, chunks);
            && f == Frames(Flatten(chunks))
            && Flatten(f.frames) + f.pending == Flatten(chunks)
  {
    assert Splits(QUIET, []);
    ReadChunksSplits(QUIET, [], chunks);
    assert [] + Flatten(chunks) == Flatten(chunks);
    SplitUnique(ReadChunks(QUIET, chunks), Flatten(chunks));
  }

  /** An unknown tag at the front is final: later bytes produce no frame and the same error. */
  lemma UnknownTagIsFinal(f: Framed, bytes: seq<Byte>, chunk: seq<Byte>)
    requires Splits(f, bytes) && f.stuck
    ensures ReadChunk(f, chunk) == Framed(f.frames, f.pending + chunk, true)
  {
    assert (f.pending + chunk)[0] == f.pending[0];
  }

  // ---- Streams of commands ----

  predicate AllWireValid(cs: seq<Command>) {
    forall i :: 0 <= i < |cs| ==> WireValid(cs[i])
  }

  /** The concatenated encodings of a sequence of commands. */
  function Recording(cs: seq<Command>): seq<Byte> {
    if cs == [] then [] else CommandBytes(cs[0]) + Recording(cs[1..])
  }

  function Encodings(cs: seq<Command>): (frames: seq<seq<Byte>>)
    ensures |frames| == |cs| && forall i :: 0 <= i < |cs| ==> frames[i] == CommandBytes(cs[i])
  {
    seq(|cs|, i requires 0 <= i < |cs| => CommandBytes(cs[i]))
  }

  lemma {:induction false} RecordingFlattens(cs: seq<Command>)
    ensures Recording(cs) == Flatten(Encodings(cs))
    decreases |cs|
  {
    hide CommandBytes;
    if cs != [] {
      RecordingFlattens(cs[1..]);
      assert Encodings(cs)[1..] == Encodings(cs[1..]);
    }
  }

  lemma RecordingFrames(cs: seq<Command>)
    ensures Frames(Recording(cs)) == Framed(Encodings(cs), [], false)
  {
    hide CommandBytes;
    RecordingFlattens(cs);
    var cut := Framed(Encodings(cs), [], false);
    assert Flatten(cut.frames) + [] == Recording(cs);
    SplitUnique(cut, Recording(cs));
  }

  /** Any chunking of the concatenated encodings of valid commands decodes back to those commands. */
  lemma AnyChunkingDecodes(cs: seq<Command>, chunks: seq<seq<Byte>>)
    requires AllWireValid(cs) && Flatten(chunks) == Recording(cs)
    ensures var f := ReadChunks(QUIET, chunks);
            && f.pending == [] && !f.stuck && |f.frames| == |cs|
            && forall i :: 0 <= i < |cs| ==> DecodeCommand(f.frames[i]) == Decoded(cs[i])
  {
    hide CommandBytes, DecodeCommand, WireValid;
    ChunkIndependent(chunks);
    RecordingFrames(cs);
    forall i | 0 <= i < |cs|
      ensures DecodeCommand(CommandBytes(cs[i])) == Decoded(cs[i])
    {
      DecodeEncoded(cs[i]);
    }
  }
}
