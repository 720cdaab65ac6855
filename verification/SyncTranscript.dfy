/**
 Which frames a synchronisation puts on the wire, in which order: what either host has said follows from where it is and
 what it has heard, against any peer; so the transcript of a finished session is known frame by frame.
 */
module SyncTranscript {
  import opened Base
  import opened Frames
  import opened Network
  import opened SyncCodec
  import opened SyncCodecTheorems
  import opened Trees
  import opened FileStreams
  import opened FileReceiving
  import opened SyncSession
  import opened SyncSafety
  import opened SyncTheorems
  import opened SyncLiveness
  import opened SyncOutcome

  // ----- What the sender has said -----

  /** The plan among the frames a sender has read: the second frame, if it holds one. */
  function PlanTaken(heard: seq<Frame>): Option<SyncPlan> {
    if |heard| < 2 || heard[1].kind != PlanMessage then None else
      var plan := Whole(ParsePlan(heard[1].body));
      if plan.Ok? then Some(plan.value) else None
  }

  /** The frames of the first n entries. */
  function Streams(host: SenderHost, plan: SyncPlan, n: nat): seq<Frame>
    requires n <= |plan.entries|
  {
    if n == 0 then [] else
      Streams(host, plan, n - 1)
      + if plan.entries[n - 1].action == Skip then [] else Transmit(host, plan.entries[n - 1], plan.blockSize).frames
  }

  /** Hello, manifest, the acknowledgement of the plan, and the frames of the first n entries. */
  function SaidFor(host: SenderHost, plan: SyncPlan, n: nat): seq<Frame>
    requires n <= |plan.entries|
  {
    [Message(Hello, host.hello), Message(ManifestMessage, ManifestBytes(host.manifest)), Message(Ack, [])] + Streams(host, plan, n)
  }

  ghost predicate SenderSays(host: SenderHost, s: Sender, heard: seq<Frame>, said: seq<Frame>) {
    var hello, manifest := Message(Hello, host.hello), Message(ManifestMessage, ManifestBytes(host.manifest));
    match s
    case SayHello => heard == [] && said == []
    case SendManifest => heard == [] && said == [hello]
    case AwaitManifestAck => heard == [] && said == [hello, manifest]
    case AwaitPlan => |heard| == 1 && said == [hello, manifest]
    case AckPlan(plan) => PlanTaken(heard) == Some(plan) && said == [hello, manifest]
    case SenderAt(plan, i, report) =>
      && PlanTaken(heard) == Some(plan) && i <= |plan.entries| && said == SaidFor(host, plan, i)
      && report.payload == PayloadOf(Streams(host, plan, i))
    case Streaming(plan, i, pending, failure, report) =>
      && PlanTaken(heard) == Some(plan) && i < |plan.entries| && plan.entries[i].action != Skip
      && var t := Transmit(host, plan.entries[i], plan.blockSize);
      && failure == t.failure && |pending| <= |t.frames| && pending == t.frames[|t.frames| - |pending|..]
      && said == SaidFor(host, plan, i) + t.frames[..|t.frames| - |pending|]
      && report.payload == PayloadOf(Streams(host, plan, i)) + PayloadOf(t.frames[..|t.frames| - |pending|])
    case AwaitFileAck(plan, i, report) =>
      && PlanTaken(heard) == Some(plan) && i < |plan.entries| && plan.entries[i].action != Skip
      && said == SaidFor(host, plan, i + 1) && report.payload == PayloadOf(Streams(host, plan, i + 1))
    case SayDone(report) =>
      && PlanTaken(heard).Some?
      && var plan := PlanTaken(heard).value;
      && said == SaidFor(host, plan, |plan.entries|) && report.payload == PayloadOf(Streams(host, plan, |plan.entries|))
    case SenderDone(report) =>
      && PlanTaken(heard).Some?
      && report.payload == PayloadOf(Streams(host, PlanTaken(heard).value, |PlanTaken(heard).value.entries|))
      && said == SaidFor(host, PlanTaken(heard).value, |PlanTaken(heard).value.entries|)
                 + [Message(Ack, [115, 121, 110, 99, 32, 100, 111, 110, 101])]
    case SenderFailed(_) => true
  }

  lemma PlanStaysTaken(heard: seq<Frame>, f: Frame)
    ensures |heard| >= 2 ==> PlanTaken(heard + [f]) == PlanTaken(heard)
    ensures |heard| < 2 ==> PlanTaken(heard).None?
    ensures |heard| == 1 ==>
              var plan := Whole(ParsePlan(f.body));
              PlanTaken(heard + [f]) == if f.kind == PlanMessage && plan.Ok? then Some(plan.value) else None
  {
    hide ParsePlan;
  }

  lemma SenderNextSays(host: SenderHost, s: Sender, heard: seq<Frame>, said: seq<Frame>)
    requires SenderSays(host, s, heard, said) && !SenderAct(host, s).Await? && !SenderAct(host, s).Halt?
    ensures var act := SenderAct(host, s);
            SenderSays(host, SenderNext(host, s), heard, said + if act.Emit? then [act.frame] else [])
  {
    hide PlanTaken, Transmit, ManifestBytes, Fits, PayloadOf, SaidFor;
    assert said + [] == said;
    if s.SenderAt? {
      EntrySays(host, s, heard, said);
    } else if s.Streaming? {
      StreamSays(host, s, heard, said);
    } else if s.AckPlan? {
      NothingSent(host, s.plan);
    }
  }

  lemma NothingSent(host: SenderHost, plan: SyncPlan)
    ensures SaidFor(host, plan, 0)
         == [Message(Hello, host.hello), Message(ManifestMessage, ManifestBytes(host.manifest))] + [Message(Ack, [])]
    ensures PayloadOf(Streams(host, plan, 0)) == 0
  {
    hide ManifestBytes;
  }

  lemma EntrySays(host: SenderHost, s: Sender, heard: seq<Frame>, said: seq<Frame>)
    requires s.SenderAt? && SenderSays(host, s, heard, said)
    ensures SenderSays(host, SenderNext(host, s), heard, said)
  {
    hide PlanTaken, Transmit, ManifestBytes, PayloadOf, SaidFor, Streams;
    if s.i < |s.plan.entries| {
      EntryBegins(host, s.plan, s.i);
    }
  }

  lemma StreamSays(host: SenderHost, s: Sender, heard: seq<Frame>, said: seq<Frame>)
    requires s.Streaming? && SenderSays(host, s, heard, said)
    ensures var act := SenderAct(host, s);
            SenderSays(host, SenderNext(host, s), heard, said + if act.Emit? then [act.frame] else [])
  {
    hide PlanTaken, Transmit, ManifestBytes, Fits, PayloadOf, SaidFor, Streams;
    assert said + [] == said;
    StreamGoesOn(host, s.plan, s.i, s.pending);
  }

  lemma NoPayload()
    ensures PayloadOf([]) == 0
  {
  }

  lemma {:induction false} PayloadJoin(xs: seq<Frame>, ys: seq<Frame>)
    ensures PayloadOf(xs + ys) == PayloadOf(xs) + PayloadOf(ys)
  {
    if ys == [] {
      assert xs + ys == xs;
    } else {
      var n := |ys| - 1;
      PayloadJoin(xs, ys[..n]);
      assert (xs + ys)[..|xs + ys| - 1] == xs + ys[..n];
    }
  }

  lemma EntryBegins(host: SenderHost, plan: SyncPlan, i: nat)
    requires i < |plan.entries|
    ensures plan.entries[i].action == Skip ==> SaidFor(host, plan, i + 1) == SaidFor(host, plan, i)
    ensures plan.entries[i].action != Skip ==>
              SaidFor(host, plan, i + 1) == SaidFor(host, plan, i) + Transmit(host, plan.entries[i], plan.blockSize).frames
    ensures var frames := Transmit(host, plan.entries[i], plan.blockSize).frames;
            && frames[|frames| - |frames|..] == frames
            && SaidFor(host, plan, i) + frames[..|frames| - |frames|] == SaidFor(host, plan, i)
            && PayloadOf(frames[..|frames| - |frames|]) == 0
            && PayloadOf(Streams(host, plan, i + 1))
               == PayloadOf(Streams(host, plan, i)) + if plan.entries[i].action == Skip then 0 else PayloadOf(frames)
  {
    hide Transmit, ManifestBytes, PayloadOf;
    var frames := Transmit(host, plan.entries[i], plan.blockSize).frames;
    NoPayload();
    assert frames[..|frames| - |frames|] == [];
    PayloadJoin(Streams(host, plan, i), frames);
    PayloadJoin(Streams(host, plan, i), []);
  }

  lemma StreamGoesOn(host: SenderHost, plan: SyncPlan, i: nat, pending: seq<Frame>)
    requires i < |plan.entries| && plan.entries[i].action != Skip
    requires var frames := Transmit(host, plan.entries[i], plan.blockSize).frames;
             |pending| <= |frames| && pending == frames[|frames| - |pending|..]
    ensures var frames, said := Transmit(host, plan.entries[i], plan.blockSize).frames, SaidFor(host, plan, i);
            && (pending != [] ==>
                  && pending[1..] == frames[|frames| - |pending[1..]|..]
                  && (said + frames[..|frames| - |pending|]) + [pending[0]] == said + frames[..|frames| - |pending[1..]|]
                  && PayloadOf(frames[..|frames| - |pending[1..]|]) == PayloadOf(frames[..|frames| - |pending|]) + |pending[0].body|)
            && (pending == [] ==>
                  && said + frames[..|frames| - |pending|] == SaidFor(host, plan, i + 1)
                  && PayloadOf(Streams(host, plan, i)) + PayloadOf(frames[..|frames| - |pending|])
                     == PayloadOf(Streams(host, plan, i + 1)))
  {
    hide Transmit, ManifestBytes, SaidFor, PayloadOf;
    var frames := Transmit(host, plan.entries[i], plan.blockSize).frames;
    var k := |frames| - |pending|;
    EntryBegins(host, plan, i);
    if pending == [] {
      assert frames[..|frames|] == frames;
    } else {
      assert pending[0] == frames[k] && frames[..k + 1] == frames[..k] + [frames[k]];
      PayloadAppend(frames[..k], frames[k]);
    }
  }

  lemma SenderGotSays(host: SenderHost, s: Sender, heard: seq<Frame>, said: seq<Frame>, f: Frame)
    requires SenderSays(host, s, heard, said) && SenderAct(host, s).Await?
    ensures SenderSays(host, SenderGot(host, s, Some(f)), heard + [f], said)
  {
    hide PlanTaken, Transmit, ManifestBytes, SaidFor, ParsePlan;
    PlanStaysTaken(heard, f);
  }

  lemma SenderMoveSays(host: SenderHost, s: Sender, heard: seq<Frame>, said: seq<Frame>, inbox: seq<Frame>, outbox: seq<Frame>,
                       capacity: nat, peerStopped: bool)
    requires SenderSays(host, s, heard, said)
    requires Advance(SenderMachine(host), s, inbox, outbox, capacity, peerStopped).Some?
    ensures SenderSays(host, Advance(SenderMachine(host), s, inbox, outbox, capacity, peerStopped).value.state,
                       heard + Taken(SenderMachine(host), s, inbox), said + Given(SenderMachine(host), s, outbox, capacity))
  {
    SilenceFails(host, s);
    BrokenSays(host, heard, said);
    hide SenderSays, SenderAct, SenderNext, SenderGot;
    assert heard + [] == heard && said + [] == said;
    if SenderAct(host, s).Await? {
      if inbox != [] {
        SenderGotSays(host, s, heard, said, inbox[0]);
      } else {
        AnyFailureSays(host, SenderGot(host, s, None), heard, said);
      }
    } else {
      SenderNextSays(host, s, heard, said);
      AnyFailureSays(host, SenderFailed(NetworkError), heard + [], said + []);
    }
  }

  lemma SilenceFails(host: SenderHost, s: Sender)
    ensures SenderAct(host, s).Await? ==> SenderGot(host, s, None).SenderFailed?
  {
  }

  lemma BrokenSays(host: SenderHost, heard: seq<Frame>, said: seq<Frame>)
    ensures SenderSays(host, SenderFailed(NetworkError), heard, said)
  {
  }

  lemma AnyFailureSays(host: SenderHost, s: Sender, heard: seq<Frame>, said: seq<Frame>)
    requires s.SenderFailed?
    ensures SenderSays(host, s, heard, said)
  {
  }

  /** Against any peer, under every schedule. */
  lemma {:induction false} SenderAlwaysSays<R>(host: SenderHost, peer: Machine<R>, capacity: nat, c: Config<Sender, R>,
                                               moves: seq<Side>, heard: seq<Frame>, said: seq<Frame>)
    requires SenderSays(host, c.left, heard, said) && Run(System(SenderMachine(host), peer, capacity), c, moves).Some?
    ensures var sys := System(SenderMachine(host), peer, capacity);
            SenderSays(host, Run(sys, c, moves).value.left, heard + Heard(sys, c, moves, Left), said + Said(sys, c, moves, Left))
    decreases |moves|
  {
    hide SenderSays, Advance, SenderMachine, Taken, Given;
    var sys := System(SenderMachine(host), peer, capacity);
    if moves == [] {
      assert heard + [] == heard && said + [] == said;
    } else {
      var c1 := Step(sys, c, moves[0]).value;
      var taken := if moves[0] == Left then Taken(sys.left, c.left, c.down) else [];
      var given := if moves[0] == Left then Given(sys.left, c.left, c.up, sys.capacity) else [];
      if moves[0] == Left {
        SenderMoveSays(host, c.left, heard, said, c.down, c.up, capacity, peer.act(c.right).Halt?);
      } else {
        assert heard + [] == heard && said + [] == said;
      }
      SenderAlwaysSays(host, peer, capacity, c1, moves[1..], heard + taken, said + given);
      JoinAssoc(heard, taken, Heard(sys, c1, moves[1..], Left));
      JoinAssoc(said, given, Said(sys, c1, moves[1..], Left));
    }
  }

  // ----- What the receiver has said -----

  /** The plan a receiver has made from the manifest among the frames it has read. */
  function PlanMade(host: ReceiverHost, was: Tree, heard: seq<Frame>): Option<SyncPlan> {
    if Offered(heard).None? then None else
      var plan := PlanOf(host, was, Offered(heard).value);
      if plan.Ok? then Some(plan.value) else None
  }

  /** One acknowledgement for each transferred file among the first n entries. */
  function Acks(plan: SyncPlan, n: nat): seq<Frame>
    requires n <= |plan.entries|
  {
    if n == 0 then [] else Acks(plan, n - 1) + if plan.entries[n - 1].action == Skip then [] else [Message(Ack, [])]
  }

  /** The acknowledgement of the manifest, the plan, and the acknowledgements of the first n entries. */
  function AnsweredFor(plan: SyncPlan, n: nat): seq<Frame>
    requires n <= |plan.entries|
  {
    [Message(Ack, []), Message(PlanMessage, PlanBytes(plan))] + Acks(plan, n)
  }

  ghost predicate ReceiverSays(host: ReceiverHost, was: Tree, r: ReceiverState, heard: seq<Frame>, said: seq<Frame>) {
    match r.at
    case AwaitHello => heard == [] && said == [] && r.tree == was
    case AwaitManifest => |heard| == 1 && said == [] && r.tree == was
    case AckManifest(m) => Offered(heard) == Some(m) && said == [] && r.tree == was
    case SendPlan(m) => Offered(heard) == Some(m) && said == [Message(Ack, [])] && r.tree == was
    case AwaitPlanAck(plan, _) => PlanMade(host, was, heard) == Some(plan) && said == AnsweredFor(plan, 0)
    case ReceiverAt(plan, i, _) => PlanMade(host, was, heard) == Some(plan) && i <= |plan.entries| && said == AnsweredFor(plan, i)
    case ReceivingFile(plan, i, _, _) =>
      && PlanMade(host, was, heard) == Some(plan) && i < |plan.entries| && plan.entries[i].action != Skip
      && said == AnsweredFor(plan, i)
    case AckFile(plan, i, _) =>
      && PlanMade(host, was, heard) == Some(plan) && i < |plan.entries| && plan.entries[i].action != Skip
      && said == AnsweredFor(plan, i)
    case AwaitDone(_) => AnsweredAll(host, was, heard, said)
    case ReceiverDone(_) => AnsweredAll(host, was, heard, said)
    case Complain(_) => true
    case ReceiverFailed(_) => true
  }

  ghost predicate AnsweredAll(host: ReceiverHost, was: Tree, heard: seq<Frame>, said: seq<Frame>) {
    var plan := PlanMade(host, was, heard);
    plan.Some? && said == AnsweredFor(plan.value, |plan.value.entries|)
  }

  lemma PlanStaysMade(host: ReceiverHost, was: Tree, heard: seq<Frame>, f: Frame)
    ensures |heard| >= 2 ==> PlanMade(host, was, heard + [f]) == PlanMade(host, was, heard)
    ensures |heard| < 2 ==> PlanMade(host, was, heard).None?
  {
    hide PlanOf, Offered;
    OfferedStays(heard, f);
    TwoHeard(heard);
  }

  lemma OneAckMore(plan: SyncPlan, i: nat)
    requires i < |plan.entries|
    ensures AnsweredFor(plan, i + 1) == AnsweredFor(plan, i) + if plan.entries[i].action == Skip then [] else [Message(Ack, [])]
  {
    hide PlanBytes;
  }

  lemma NoAckYet(plan: SyncPlan)
    ensures AnsweredFor(plan, 0) == [Message(Ack, [])] + [Message(PlanMessage, PlanBytes(plan))]
  {
    hide PlanBytes;
  }

  lemma ReceiverNextSays(host: ReceiverHost, was: Tree, r: ReceiverState, heard: seq<Frame>, said: seq<Frame>)
    requires ReceiverSays(host, was, r, heard, said) && !ReceiverAct(host, r).Await? && !ReceiverAct(host, r).Halt?
    ensures var act := ReceiverAct(host, r);
            ReceiverSays(host, was, ReceiverNext(host, r), heard, said + if act.Emit? then [act.frame] else [])
  {
    hide Offered, PlanOf, AnsweredFor, PlanBytes, Fits, Trees.Committed, PartPath;
    assert said + [] == said;
    match r.at {
      case AckManifest(_) =>
        assert [] + [AckFrame([])] == [AckFrame([])];
      case SendPlan(m) =>
        if PlanOf(host, was, m).Ok? {
          NoAckYet(PlanOf(host, was, m).value);
        }
      case ReceiverAt(plan, i, _) =>
        if i < |plan.entries| {
          OneAckMore(plan, i);
        }
      case AckFile(plan, i, _) =>
        OneAckMore(plan, i);
      case _ =>
    }
  }

  lemma ReceiverGotSays(host: ReceiverHost, was: Tree, r: ReceiverState, heard: seq<Frame>, said: seq<Frame>, f: Frame)
    requires ReceiverSays(host, was, r, heard, said) && ReceiverAct(host, r).Await?
    ensures ReceiverSays(host, was, ReceiverGot(host, r, Some(f)), heard + [f], said)
  {
    hide Offered, PlanMade, PlanOf, AnsweredFor, ParseManifest, OnFrame, PartPath;
    PlanStaysMade(host, was, heard, f);
    OfferedStays(heard, f);
  }

  lemma ReceiverSilenceSays(host: ReceiverHost, was: Tree, r: ReceiverState, heard: seq<Frame>, said: seq<Frame>)
    ensures ReceiverAct(host, r).Await? ==> ReceiverSays(host, was, ReceiverGot(host, r, None), heard, said)
    ensures ReceiverSays(host, was, r.(at := ReceiverFailed(NetworkError)), heard, said)
  {
    hide Offered, PlanMade, PlanOf, AnsweredFor, ParseManifest, OnFrame, PartPath;
  }

  lemma ReceiverMoveSays(host: ReceiverHost, was: Tree, r: ReceiverState, heard: seq<Frame>, said: seq<Frame>, inbox: seq<Frame>,
                         outbox: seq<Frame>, capacity: nat, peerStopped: bool)
    requires ReceiverSays(host, was, r, heard, said)
    requires Advance(ReceiverMachine(host), r, inbox, outbox, capacity, peerStopped).Some?
    ensures ReceiverSays(host, was, Advance(ReceiverMachine(host), r, inbox, outbox, capacity, peerStopped).value.state,
                         heard + Taken(ReceiverMachine(host), r, inbox), said + Given(ReceiverMachine(host), r, outbox, capacity))
  {
    ReceiverSilenceSays(host, was, r, heard, said);
    hide ReceiverSays, ReceiverAct, ReceiverNext, ReceiverGot;
    assert heard + [] == heard && said + [] == said;
    if ReceiverAct(host, r).Await? {
      if inbox != [] {
        ReceiverGotSays(host, was, r, heard, said, inbox[0]);
      }
    } else {
      ReceiverNextSays(host, was, r, heard, said);
    }
  }

  /** Against any peer, under every schedule. */
  lemma {:induction false} ReceiverAlwaysSays<S>(host: ReceiverHost, peer: Machine<S>, capacity: nat, c: Config<S, ReceiverState>,
                                                 moves: seq<Side>, was: Tree, heard: seq<Frame>, said: seq<Frame>)
    requires ReceiverSays(host, was, c.right, heard, said) && Run(System(peer, ReceiverMachine(host), capacity), c, moves).Some?
    ensures var sys := System(peer, ReceiverMachine(host), capacity);
            ReceiverSays(host, was, Run(sys, c, moves).value.right, heard + Heard(sys, c, moves, Right),
                         said + Said(sys, c, moves, Right))
    decreases |moves|
  {
    hide ReceiverSays, Advance, ReceiverMachine, Taken, Given;
    var sys := System(peer, ReceiverMachine(host), capacity);
    if moves == [] {
      assert heard + [] == heard && said + [] == said;
    } else {
      var c1 := Step(sys, c, moves[0]).value;
      var taken := if moves[0] == Right then Taken(sys.right, c.right, c.up) else [];
      var given := if moves[0] == Right then Given(sys.right, c.right, c.down, sys.capacity) else [];
      if moves[0] == Right {
        ReceiverMoveSays(host, was, c.right, heard, said, c.up, c.down, capacity, peer.act(c.left).Halt?);
      } else {
        assert heard + [] == heard && said + [] == said;
      }
      ReceiverAlwaysSays(host, peer, capacity, c1, moves[1..], was, heard + taken, said + given);
      JoinAssoc(heard, taken, Heard(sys, c1, moves[1..], Right));
      JoinAssoc(said, given, Said(sys, c1, moves[1..], Right));
    }
  }

  // ----- The transcript of a finished session -----

  /** The streams of an honest sender's entries, operation by operation. */
  ghost function HonestStreams(snd: SenderHost, plan: SyncPlan, n: nat): seq<Frame>
    requires n <= |plan.entries|
  {
    if n == 0 then [] else
      var p := plan.entries[n - 1];
      HonestStreams(snd, plan, n - 1)
      + if p.action == Skip || PathOf(p) !in snd.source || plan.blockSize == 0 || |EntryOps(snd, plan.blockSize, p)| >= U32_LIMIT
        then []
        else [Message(DeltaBegin, HeaderBytes(p.manifestEntry.size, p.manifestEntry.sha256))]
             + OpFrames(EntryOps(snd, plan.blockSize, p))
             + [Message(DeltaEnd, EndBytes(|EntryOps(snd, plan.blockSize, p)|))]
  }

  lemma {:induction false} StreamsAreHonest(snd: SenderHost, tree: Tree, plan: SyncPlan, n: nat)
    requires n <= |plan.entries|
    requires forall i :: 0 <= i < n ==> EntryReady(snd, plan.blockSize, tree, plan.entries[i])
    ensures Streams(snd, plan, n) == HonestStreams(snd, plan, n)
  {
    hide EntryReady, EntryOps, OpFrames, Transmit, HeaderBytes, EndBytes;
    if n > 0 {
      var p := plan.entries[n - 1];
      StreamsAreHonest(snd, tree, plan, n - 1);
      if p.action != Skip {
        HasSource(snd, plan.blockSize, tree, p);
        EntryTransmission(snd, plan.blockSize, tree, p);
      }
    }
  }

  lemma HasSource(snd: SenderHost, blockSize: U32, tree: Tree, p: SyncPlanEntry)
    requires EntryReady(snd, blockSize, tree, p)
    ensures PathOf(p) in snd.source
  {
  }

  /**
   However it was scheduled and whatever the channels hold, in a finished session the sender has said: its hello, its
   manifest, an acknowledgement, for each file to be sent the begin frame, the operations and the end frame, and that it is
   done; and the receiver: an acknowledgement, the plan, and an acknowledgement for each file.
   */
  lemma Transcript(snd: SenderHost, rcv: ReceiverHost, capacity: nat, tree: Tree, schedule: seq<Side>, end: State)
    requires FinishedSession(snd, rcv, capacity, tree, schedule, end)
    ensures var sys, plan := Session(snd, rcv, capacity), AgreedPlan(snd, rcv, tree);
            && Said(sys, Start(tree), schedule, Left)
               == [Message(Hello, snd.hello), Message(ManifestMessage, ManifestBytes(snd.manifest)), Message(Ack, [])]
                  + HonestStreams(snd, plan, |plan.entries|) + [Message(Ack, [115, 121, 110, 99, 32, 100, 111, 110, 101])]
            && Said(sys, Start(tree), schedule, Right)
               == [Message(Ack, []), Message(PlanMessage, PlanBytes(plan))] + Acks(plan, |plan.entries|)
    ensures end.left.SenderDone? && end.right.at.ReceiverDone?
    ensures end.left.report.payload == end.right.at.report.payload
         == PayloadOf(HonestStreams(snd, AgreedPlan(snd, rcv, tree), |AgreedPlan(snd, rcv, tree).entries|))
  {
    hide PayloadOf, Ready, PlanOf, Quiet, BasesServe, ReportsAgree, Run, Said, Heard, Offered, PlanMade, PlanTaken,
         HonestStreams, Streams, Acks, ManifestBytes, PlanBytes, EntryReady;
    var sys, start := Session(snd, rcv, capacity), Start(tree);
    var _, _, _ := EveryScheduleSucceeds(snd, rcv, capacity, tree, schedule);
    ReportsAddUp(snd, rcv, capacity, tree, schedule, end);
    var up, down := Said(sys, start, schedule, Left), Said(sys, start, schedule, Right);
    SenderAlwaysSays(snd, ReceiverMachine(rcv), capacity, start, schedule, [], []);
    ReceiverAlwaysSays(rcv, SenderMachine(snd), capacity, start, schedule, tree, [], []);
    FirstInFirstOut(sys, start, schedule);
    Nothing(up);
    Nothing(down);
    Nothing(Heard(sys, start, schedule, Left));
    Nothing(Heard(sys, start, schedule, Right));
    assert up[1] == ManifestFrame(snd.manifest);
    OwnManifest(snd, rcv, tree, up);
    assert down[1] == PlanFrame(AgreedPlan(snd, rcv, tree));
    OwnPlan(snd, rcv, tree, down);
    PlanIsTurns(snd, rcv, tree);
    var plan := AgreedPlan(snd, rcv, tree);
    forall i | 0 <= i < |plan.entries| ensures EntryReady(snd, plan.blockSize, tree, plan.entries[i]) {
      assert Turn(snd, rcv, tree, plan, i);
    }
    StreamsAreHonest(snd, tree, plan, |plan.entries|);
  }

  lemma Nothing(frames: seq<Frame>)
    ensures [] + frames == frames && frames + [] == frames
  {
  }

  lemma OwnManifest(snd: SenderHost, rcv: ReceiverHost, tree: Tree, up: seq<Frame>)
    requires Ready(snd, rcv, tree) && |up| >= 2 && up[1] == ManifestFrame(snd.manifest)
    ensures PlanMade(rcv, tree, up) == Some(PlanOf(rcv, tree, snd.manifest).value)
  {
    hide PlanOf, EncodablePlan, EntryReady, ManifestBytes, ParseManifest, DistinctPaths;
    ManifestRoundTrip(snd.manifest);
  }

  lemma OwnPlan(snd: SenderHost, rcv: ReceiverHost, tree: Tree, down: seq<Frame>)
    requires Ready(snd, rcv, tree) && PlanOf(rcv, tree, snd.manifest).Ok?
    requires |down| >= 2 && down[1] == PlanFrame(PlanOf(rcv, tree, snd.manifest).value)
    ensures PlanTaken(down) == Some(PlanOf(rcv, tree, snd.manifest).value)
  {
    hide PlanOf, EncodableManifest, EntryReady, PlanBytes, ParsePlan, DistinctPaths;
    PlanRoundTrip(PlanOf(rcv, tree, snd.manifest).value);
  }
}
