/** A connection's read side: frame, decode, forward what is valid and refuse the rest, until the stream is lost. */
module Readers {
  import opened Types
  import opened Codec
  import opened Inbound
  import opened Framing

  datatype Item = Forward(command: Command) | Refuse(reason: RejectReason)

  /** What a reader has passed on, and whether it died in the decoder's arm marked unreachable. */
  datatype Intake = Intake(items: seq<Item>, panicked: bool)

  function ItemOf(d: Decoded<Command>): Item
    requires !d.Panics?
  {
    match d
    case Decoded(c) => Forward(c)
    case Malformed(reason) => Refuse(reason)
  }

  function TakeIn(frames: seq<seq<Byte>>): Intake
    decreases |frames|
  {
    if frames == [] then Intake([], false)
    else
      var d := DecodeCommand(frames[0]);
      if d.Panics? then Intake([], true)
      else
        var rest := TakeIn(frames[1..]);
        Intake([ItemOf(d)] + rest.items, rest.panicked)
  }

  /** The whole stream read at once; an unknown tag is refused last, and ends the connection. */
  function ReadAll(bytes: seq<Byte>): Intake {
    var f := Frames(bytes);
    var t := TakeIn(f.frames);
    if f.stuck && !t.panicked then Intake(t.items + [Refuse(UnknownMessageType)], false) else t
  }

  lemma {:induction false} TakeInConcat(xs: seq<seq<Byte>>, ys: seq<seq<Byte>>)
    ensures var t := TakeIn(xs);
            var r := TakeIn(ys);
            TakeIn(xs + ys) == if t.panicked then t else Intake(t.items + r.items, r.panicked)
    decreases |xs|
  {
    hide DecodeCommand, ItemOf;
    if xs == [] {
      assert xs + ys == ys;
    } else {
      assert (xs + ys)[1..] == xs[1..] + ys;
      TakeInConcat(xs[1..], ys);
    }
  }

  /** The decoder run over a batch of frames, in order. */
  method DecodeFrames(frames: seq<seq<Byte>>) returns (t: Intake)
    ensures t == TakeIn(frames)
  {
    hide DecodeCommand, ItemOf;
    var items := [];
    for i := 0 to |frames|
      invariant TakeIn(frames[..i]) == Intake(items, false)
    {
      assert frames[..i + 1] == frames[..i] + [frames[i]];
      assert frames == frames[..i + 1] + frames[i + 1..];
      TakeInConcat(frames[..i], [frames[i]]);
      TakeInConcat(frames[..i + 1], frames[i + 1..]);
      var d := DecodeCommand(frames[i]);
      if d.Panics? {
        return Intake(items, true);
      }
      items := items + [ItemOf(d)];
    }
    assert frames[..|frames|] == frames;
    return Intake(items, false);
  }

  lemma FramesExtend(a: seq<Byte>, b: seq<Byte>)
    ensures Frames(a + b) == ReadChunk(Frames(a), b)
  {
    hide Splits, ReadChunk;
    FramesSplit(a);
    ReadChunkSplits(Frames(a), a, b);
    SplitUnique(ReadChunk(Frames(a), b), a + b);
  }

  /** Once a reader has died or met an unknown tag, no later byte changes what it passed on. */
  lemma ReadAllFinal(a: seq<Byte>, b: seq<Byte>)
    requires Frames(a).stuck || TakeIn(Frames(a).frames).panicked
    ensures ReadAll(a + b) == ReadAll(a)
  {
    hide Frames, TakeIn, Splits;
    var f := Frames(a);
    var r := Frames(f.pending + b);
    FramesExtend(a, b);
    TakeInConcat(f.frames, r.frames);
    if f.stuck {
      FramesSplit(a);
      UnknownTagIsFinal(f, a, b);
      assert f.frames + r.frames == f.frames;
    }
  }

  lemma FlattenPrefix(chunks: seq<seq<Byte>>, i: nat)
    requires i < |chunks|
    ensures Flatten(chunks[..i + 1]) == Flatten(chunks[..i]) + chunks[i]
    ensures Flatten(chunks) == Flatten(chunks[..i + 1]) + Flatten(chunks[i + 1..])
  {
    hide Flatten;
    assert chunks[..i + 1] == chunks[..i] + [chunks[i]] by { Prefix(chunks, i); }
    FlattenConcat(chunks[..i], [chunks[i]]);
    FlattenOne(chunks[i]);
    assert chunks == chunks[..i + 1] + chunks[i + 1..] by { Prefix(chunks, i); }
    FlattenConcat(chunks[..i + 1], chunks[i + 1..]);
  }

  lemma Prefix<T>(xs: seq<T>, i: nat)
    requires i < |xs|
    ensures xs[..i + 1] == xs[..i] + [xs[i]] && xs == xs[..i + 1] + xs[i + 1..]
  {
  }

  /** Reads arrive in chunks of any size; what is passed on depends on their concatenation alone. */
  method RunReader(chunks: seq<seq<Byte>>) returns (t: Intake)
    ensures t == ReadAll(Flatten(chunks))
  {
    hide Frames, TakeIn, Flatten;
    var framer := new Framer();
    var items := [];
    ghost var got := [];
    assert Flatten(chunks[..0]) == [] && Frames([]) == Framed([], [], false) && TakeIn([]) == Intake([], false) by {
      StartEmpty();
      assert chunks[..0] == [];
    }
    for i := 0 to |chunks|
      invariant Frames(Flatten(chunks[..i])) == Framed(got, framer.buf, false)
      invariant TakeIn(got) == Intake(items, false)
    {
      FlattenPrefix(chunks, i);
      FramesExtend(Flatten(chunks[..i]), chunks[i]);
      framer.Feed(chunks[i]);
      var frames, error := framer.DrainFrames();
      var batch := DecodeFrames(frames);
      TakeInConcat(got, frames);
      got := got + frames;
      items := items + batch.items;
      if batch.panicked {
        ReadAllFinal(Flatten(chunks[..i + 1]), Flatten(chunks[i + 1..]));
        return Intake(items, true);
      }
      if error.Some? {
        ReadAllFinal(Flatten(chunks[..i + 1]), Flatten(chunks[i + 1..]));
        return Intake(items + [Refuse(UnknownMessageType)], false);
      }
    }
    assert chunks[..|chunks|] == chunks;
    return Intake(items, false);
  }

  lemma StartEmpty()
    ensures Flatten([]) == [] && Frames([]) == Framed([], [], false) && TakeIn([]) == Intake([], false)
  {
  }

  /** A batch of frames kills the decoder exactly when one of them carries an outbound tag. */
  lemma {:induction false} TakeInPanicsIff(frames: seq<seq<Byte>>)
    requires AllFramed(frames)
    ensures TakeIn(frames).panicked <==> exists i :: 0 <= i < |frames| && frames[i][0] >= 10
    decreases |frames|
  {
    hide DecodeCommand, ItemOf, MessageLen;
    if frames != [] {
      CommandPanicsIff(frames[0]);
      TakeInPanicsIff(frames[1..]);
      if j :| 0 <= j < |frames[1..]| && frames[1..][j][0] >= 10 {
        assert frames[j + 1][0] >= 10;
      }
      if j :| 0 <= j < |frames| && frames[j][0] >= 10 {
        assert j > 0 ==> frames[1..][j - 1] == frames[j];
      }
    }
  }

  /** A reader dies exactly when its peer sends a whole frame with an outbound tag before any unknown tag. */
  lemma ReaderPanicsIff(bytes: seq<Byte>)
    ensures var frames := Frames(bytes).frames;
            AllFramed(frames) && (ReadAll(bytes).panicked <==> exists i :: 0 <= i < |frames| && frames[i][0] >= 10)
  {
    hide Frames, TakeIn, Flatten;
    FramesSplit(bytes);
    TakeInPanicsIff(Frames(bytes).frames);
  }

  function Forwards(cs: seq<Command>): (items: seq<Item>)
    ensures |items| == |cs| && forall i :: 0 <= i < |cs| ==> items[i] == Forward(cs[i])
  {
    seq(|cs|, i requires 0 <= i < |cs| => Forward(cs[i]))
  }

  lemma {:induction false} EncodingsTakenIn(cs: seq<Command>)
    requires AllWireValid(cs)
    ensures TakeIn(Encodings(cs)) == Intake(Forwards(cs), false)
    decreases |cs|
  {
    hide DecodeCommand, CommandBytes, WireValid;
    if cs != [] {
      DecodeEncoded(cs[0]);
      EncodingsTakenIn(cs[1..]);
      assert Encodings(cs)[1..] == Encodings(cs[1..]);
      assert Forwards(cs) == [Forward(cs[0])] + Forwards(cs[1..]);
    }
  }

  /** Everything a client sends as valid commands is forwarded as those commands, in order, and nothing else. */
  lemma ValidStreamForwarded(cs: seq<Command>)
    requires AllWireValid(cs)
    ensures ReadAll(Recording(cs)) == Intake(Forwards(cs), false)
  {
    hide DecodeCommand, CommandBytes, WireValid;
    RecordingFrames(cs);
    EncodingsTakenIn(cs);
  }

  /** Whatever a client sends, only valid commands are forwarded. */
  lemma {:induction false} ForwardsAreValid(frames: seq<seq<Byte>>)
    ensures forall i :: 0 <= i < |TakeIn(frames).items| && TakeIn(frames).items[i].Forward? ==> WireValid(TakeIn(frames).items[i].command)
    decreases |frames|
  {
    hide DecodeCommand, WireValid;
    if frames != [] && !DecodeCommand(frames[0]).Panics? {
      ForwardsAreValid(frames[1..]);
      if DecodeCommand(frames[0]).Decoded? {
        EncodeDecoded(frames[0]);
      }
    }
  }

  /** Frame by frame: what decodes is forwarded as what it decodes to, what does not is refused with the decoder's reason. */
  lemma {:induction false} ItemsFollowFrames(frames: seq<seq<Byte>>)
    requires !TakeIn(frames).panicked
    ensures |TakeIn(frames).items| == |frames|
    ensures forall i :: 0 <= i < |frames| ==>
              var d, item := DecodeCommand(frames[i]), TakeIn(frames).items[i];
              && (forall c :: d == Decoded(c) <==> item == Forward(c))
              && (forall reason :: d == Malformed(reason) <==> item == Refuse(reason))
    decreases |frames|
  {
    hide DecodeCommand;
    if frames != [] {
      ItemsFollowFrames(frames[1..]);
    }
  }
}
