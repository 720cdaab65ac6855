/**
 Frames over a byte stream: a byte channel used through frames behaves as a connection of whole frames, and a stream that
 ends anywhere is read as the frames that had arrived completely.
 */
module FramedChannels {
  import opened Base
  import opened Wire
  import opened Frames

  predicate AllSmall(frames: seq<Frame>) {
    forall i :: 0 <= i < |frames| ==> |frames[i].body| <= MAX_FRAME_BODY
  }

  function StreamOf(frames: seq<Frame>): Bytes {
    ManyBytes(FrameBytes, frames)
  }

  /** These bytes are these frames, and then something that is not the beginning of a stream with one more. */
  ghost predicate Carries(bytes: Bytes, frames: seq<Frame>, rest: Bytes) {
    AllSmall(frames) && bytes == StreamOf(frames) + rest && ParseFrame(rest).Bad?
  }

  /** Bytes are read as one list of frames only. */
  lemma {:induction false} CarriesOne(bytes: Bytes, frames: seq<Frame>, rest: Bytes, others: seq<Frame>, rest': Bytes)
    requires Carries(bytes, frames, rest) && Carries(bytes, others, rest')
    ensures frames == others && rest == rest'
    decreases |frames|
  {
    hide ParseFrame, FrameBytes;
    if frames != [] {
      FirstRead(bytes, frames, rest);
    }
    if others != [] {
      FirstRead(bytes, others, rest');
    }
    if frames == [] || others == [] {
      assert [] + rest == rest && [] + rest' == rest';
    } else {
      CarriesOne(StreamOf(frames[1..]) + rest, frames[1..], rest, others[1..], rest');
    }
  }

  /** The first frame is read and leaves the others. */
  lemma FirstRead(bytes: Bytes, frames: seq<Frame>, rest: Bytes)
    requires Carries(bytes, frames, rest) && frames != []
    ensures ParseFrame(bytes) == Got(frames[0], StreamOf(frames[1..]) + rest)
    ensures Carries(StreamOf(frames[1..]) + rest, frames[1..], rest)
  {
    hide ParseFrame, FrameBytes;
    ReadsFrame(frames[0], StreamOf(frames[1..]) + rest);
    JoinAssoc(FrameBytes(frames[0]), StreamOf(frames[1..]), rest);
  }

  lemma {:induction false} StreamAppend(frames: seq<Frame>, f: Frame)
    ensures StreamOf(frames + [f]) == StreamOf(frames) + FrameBytes(f)
  {
    hide FrameBytes;
    if frames == [] {
      assert ([] + [f])[1..] == [] && [] + [f] == [f];
      assert StreamOf([f]) == FrameBytes(f) + StreamOf([]);
    } else {
      assert (frames + [f])[1..] == frames[1..] + [f];
      StreamAppend(frames[1..], f);
    }
  }

  /** A stream of frames that is cut anywhere is read as the frames that lie before the cut. */
  lemma {:induction false} CutStream(frames: seq<Frame>, n: nat) returns (k: nat, rest: Bytes)
    requires AllSmall(frames) && n <= |StreamOf(frames)|
    ensures k <= |frames| && Carries(StreamOf(frames)[..n], frames[..k], rest)
    ensures n == |StreamOf(frames)| ==> k == |frames|
  {
    hide ParseFrame, FrameBytes;
    var bytes := StreamOf(frames);
    if frames == [] {
      k, rest := 0, [];
      NothingIsNoFrame();
      assert bytes[..n] == StreamOf([]) + [];
    } else {
      var first, others := FrameBytes(frames[0]), StreamOf(frames[1..]);
      if n < |first| {
        k, rest := 0, first[..n];
        TruncatedFrameRejected(frames[0], n);
        assert bytes[..n] == StreamOf([]) + rest;
      } else {
        k, rest := CutStream(frames[1..], n - |first|);
        assert bytes[..n] == first + others[..n - |first|];
        assert frames[..k + 1] == [frames[0]] + frames[1..][..k];
        assert frames[..k + 1][1..] == frames[1..][..k];
        JoinAssoc(first, StreamOf(frames[1..][..k]), rest);
        k := k + 1;
      }
    }
  }

  lemma NothingIsNoFrame()
    ensures ParseFrame([]).Bad?
  {
  }

  /**
   What one end has written as frames, cut off anywhere, is read at the other end as the first of those frames, and as all
   of them when nothing is cut off.
   */
  lemma ReadsWhatWasSent(sent: seq<Frame>, n: nat, received: seq<Frame>, rest: Bytes)
    requires AllSmall(sent) && n <= |StreamOf(sent)| && Carries(StreamOf(sent)[..n], received, rest)
    ensures received <= sent && (n == |StreamOf(sent)| ==> received == sent)
  {
    var k, rest' := CutStream(sent, n);
    CarriesOne(StreamOf(sent)[..n], received, rest, sent[..k], rest');
  }

  /**
   One end of a byte stream, used through frames. `rest` is what follows the last complete frame. The program reads no
   more after a read that failed, which may have used up a part of it.
   */
  class FramedChannel {
    const channel: ByteChannel
    ghost var incoming: seq<Frame>
    ghost var sent: seq<Frame>
    ghost const rest: Bytes
    ghost var ended: bool

    ghost predicate Valid()
      reads this, channel
    {
      && (!channel.faulty && !ended ==> Carries(channel.incoming, incoming, rest))
      && AllSmall(sent) && (!channel.faulty ==> channel.sent == StreamOf(sent))
    }

    constructor (channel: ByteChannel, ghost incoming: seq<Frame>, ghost rest: Bytes)
      requires Carries(channel.incoming, incoming, rest) && channel.sent == []
      ensures Valid() && this.channel == channel && this.incoming == incoming && sent == [] && !ended
    {
      this.channel, this.incoming, this.rest, sent, ended := channel, incoming, rest, [], false;
    }

    /** Writes one frame: the contract of a connection of whole frames. */
    method Write(f: Frame) returns (r: Result<bool>)
      requires Valid()
      modifies this`sent, channel`sent
      ensures Valid()
      ensures r.Ok? ==> sent == old(sent) + [f] && |f.body| <= MAX_FRAME_BODY
      ensures r.Err? ==> sent == old(sent) && (channel.faulty || |f.body| > MAX_FRAME_BODY)
      ensures |f.body| > MAX_FRAME_BODY ==> r == Err(ProtocolError)
    {
      hide FrameBytes, ParseFrame;
      r := WriteFrame(channel, f);
      if r.Ok? {
        StreamAppend(sent, f);
        sent := sent + [f];
      }
    }

    /** Reads one frame, likewise; it fails exactly when no complete frame is left. */
    method Read() returns (r: Result<Frame>)
      requires Valid() && !ended
      modifies this`incoming, this`ended, channel`incoming
      ensures Valid() && ended == r.Err?
      ensures r.Ok? && !channel.faulty ==> old(incoming) == [r.value] + incoming
      ensures r.Err? ==> incoming == old(incoming) && (channel.faulty || incoming == [])
    {
      hide FrameBytes, ParseFrame;
      if !channel.faulty {
        if incoming != [] {
          FirstRead(channel.incoming, incoming, rest);
        } else {
          assert [] + rest == rest;
        }
      }
      r := ReadFrame(channel);
      if r.Ok? && !channel.faulty {
        incoming := incoming[1..];
      }
      ended := r.Err?;
    }
  }
}
