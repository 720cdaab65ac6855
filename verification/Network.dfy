/**
 Two hosts joined by a pair of bounded FIFO frame channels. Each host is a deterministic machine that does one
 thing at a time: think, write a frame, or wait for a frame. Which host moves next is arbitrary, so a property of
 every run is a property of every interleaving.
 */
module Network {
  import opened Base
  import opened Frames

  /** What a host does next. */
  datatype Act = Halt | Think | Emit(frame: Frame) | Await

  /**
   `next` is the state after thinking or writing, `got` the state after a frame arrives (None: the peer has
   stopped and nothing is left to read), `broken` the state after a write to a stopped peer.
   */
  datatype Machine<!S> = Machine(act: S -> Act, next: S -> S, got: (S, Option<Frame>) -> S, broken: S -> S)

  datatype Config<S, R> = Config(left: S, right: R, up: seq<Frame>, down: seq<Frame>)

  datatype Side = Left | Right

  datatype Move<S> = Move(state: S, inbox: seq<Frame>, outbox: seq<Frame>)

  /** One move of a host in state s with the given inbox, outbox capacity and peer; None when it cannot move. */
  function Advance<S>(m: Machine<S>, s: S, inbox: seq<Frame>, outbox: seq<Frame>, capacity: nat, peerStopped: bool)
    : Option<Move<S>>
  {
    match m.act(s)
    case Halt => None
    case Think => Some(Move(m.next(s), inbox, outbox))
    case Emit(frame) =>
      if |outbox| < capacity then Some(Move(m.next(s), inbox, outbox + [frame]))
      else if peerStopped then Some(Move(m.broken(s), inbox, outbox))
      else None
    case Await =>
      if inbox != [] then Some(Move(m.got(s, Some(inbox[0])), inbox[1..], outbox))
      else if peerStopped then Some(Move(m.got(s, None), inbox, outbox))
      else None
  }

  /** The two hosts and the number of frames each channel can hold. */
  datatype System<!S, !R> = System(left: Machine<S>, right: Machine<R>, capacity: nat)

  function Step<S, R>(sys: System<S, R>, c: Config<S, R>, side: Side): Option<Config<S, R>> {
    match side
    case Left =>
      var m := Advance(sys.left, c.left, c.down, c.up, sys.capacity, sys.right.act(c.right).Halt?);
      if m.None? then None else Some(Config(m.value.state, c.right, m.value.outbox, m.value.inbox))
    case Right =>
      var m := Advance(sys.right, c.right, c.up, c.down, sys.capacity, sys.left.act(c.left).Halt?);
      if m.None? then None else Some(Config(c.left, m.value.state, m.value.inbox, m.value.outbox))
  }

  function Run<S, R>(sys: System<S, R>, c: Config<S, R>, moves: seq<Side>): Option<Config<S, R>>
    decreases |moves|
  {
    if moves == [] then Some(c) else
      var c' := Step(sys, c, moves[0]);
      if c'.None? then None else Run(sys, c'.value, moves[1..])
  }

  /** Neither host can move. */
  predicate Quiet<S, R>(sys: System<S, R>, c: Config<S, R>) {
    Step(sys, c, Left).None? && Step(sys, c, Right).None?
  }

  lemma {:induction false} RunAppend<S, R>(sys: System<S, R>, c: Config<S, R>, xs: seq<Side>, ys: seq<Side>)
    requires Run(sys, c, xs).Some?
    ensures Run(sys, c, xs + ys) == Run(sys, Run(sys, c, xs).value, ys)
    decreases |xs|
  {
    if xs == [] {
      assert [] + ys == ys;
    } else {
      assert (xs + ys)[0] == xs[0] && (xs + ys)[1..] == xs[1..] + ys;
      RunAppend(sys, Step(sys, c, xs[0]).value, xs[1..], ys);
    }
  }

  /** Two runs end to end. */
  lemma RunChain<S, R>(sys: System<S, R>, c: Config<S, R>, xs: seq<Side>, d: Config<S, R>, ys: seq<Side>, e: Config<S, R>)
    requires Run(sys, c, xs) == Some(d) && Run(sys, d, ys) == Some(e)
    ensures Run(sys, c, xs + ys) == Some(e)
  {
    RunAppend(sys, c, xs, ys);
  }

  /** One more move at the end of a run. */
  lemma RunOneMore<S, R>(sys: System<S, R>, c: Config<S, R>, moves: seq<Side>, d: Config<S, R>, side: Side)
    requires Run(sys, c, moves) == Some(d) && Step(sys, d, side).Some?
    ensures Run(sys, c, moves + [side]) == Step(sys, d, side)
  {
    RunAppend(sys, c, moves, [side]);
    assert Run(sys, Step(sys, d, side).value, [side][1..]) == Step(sys, d, side);
  }

  /** When both hosts can move, the order of the two moves does not matter. */
  lemma Diamond<S, R>(sys: System<S, R>, c: Config<S, R>)
    requires Step(sys, c, Left).Some? && Step(sys, c, Right).Some?
    ensures Step(sys, Step(sys, c, Left).value, Right).Some?
    ensures Step(sys, Step(sys, c, Left).value, Right) == Step(sys, Step(sys, c, Right).value, Left)
  {
    var l, r := Step(sys, c, Left).value, Step(sys, c, Right).value;
    if sys.left.act(c.left).Emit? && sys.right.act(c.right).Await? {
      assert l.up[1..] == c.up[1..] + [sys.left.act(c.left).frame];
    }
    if sys.right.act(c.right).Emit? && sys.left.act(c.left).Await? {
      assert r.down[1..] == c.down[1..] + [sys.right.act(c.right).frame];
    }
  }

  /** A run to a quiet configuration still leads there, one move shorter, after any first move. */
  lemma {:induction false} FirstMoveFree<S, R>(sys: System<S, R>, c: Config<S, R>, moves: seq<Side>, d: Config<S, R>, side: Side)
    returns (rest: seq<Side>)
    requires Run(sys, c, moves) == Some(d) && Quiet(sys, d) && Step(sys, c, side).Some?
    ensures |rest| + 1 == |moves| && Run(sys, Step(sys, c, side).value, rest) == Some(d)
    decreases |moves|
  {
    assert moves != [];
    if moves[0] == side {
      rest := moves[1..];
    } else {
      Diamond(sys, c);
      var c1 := Step(sys, c, moves[0]).value;
      var tail := FirstMoveFree(sys, c1, moves[1..], d, side);
      rest := [moves[0]] + tail;
      assert rest[1..] == tail;
    }
  }

  /**
   If one schedule leads to a quiet configuration, every schedule does: any run is no longer than that one and
   can be completed to it. So no interleaving deadlocks elsewhere, runs forever, or ends differently.
   */
  lemma {:induction false} AnySchedule<S, R>(sys: System<S, R>, c: Config<S, R>, moves: seq<Side>, d: Config<S, R>,
                                             other: seq<Side>)
    returns (rest: seq<Side>)
    requires Run(sys, c, moves) == Some(d) && Quiet(sys, d) && Run(sys, c, other).Some?
    ensures |other| + |rest| == |moves|
    ensures Run(sys, Run(sys, c, other).value, rest) == Some(d)
    decreases |other|
  {
    if other == [] {
      rest := moves;
    } else {
      var shorter := FirstMoveFree(sys, c, moves, d, other[0]);
      rest := AnySchedule(sys, Step(sys, c, other[0]).value, shorter, d, other[1..]);
    }
  }

  // ----- Pairs of moves that pass one frame -----

  lemma TwoMoves<S, R>(sys: System<S, R>, c: Config<S, R>, x: Side, y: Side)
    requires Step(sys, c, x).Some? && Step(sys, Step(sys, c, x).value, y).Some?
    ensures Run(sys, c, [x, y]) == Step(sys, Step(sys, c, x).value, y)
  {
    RunOneMore(sys, c, [], c, x);
    assert [] + [x] == [x];
    RunOneMore(sys, c, [x], Step(sys, c, x).value, y);
    assert [x] + [y] == [x, y];
  }

  /** The left host writes a frame and the right host reads it. */
  lemma FrameUp<S, R>(sys: System<S, R>, s: S, r: R, f: Frame)
    requires sys.capacity >= 1 && sys.left.act(s) == Emit(f) && sys.right.act(r) == Await
    ensures Run(sys, Config(s, r, [], []), [Left, Right])
         == Some(Config(sys.left.next(s), sys.right.got(r, Some(f)), [], []))
  {
    var c0, c1 := Config(s, r, [], []), Config(sys.left.next(s), r, [f], []);
    assert [] + [f] == [f] && [f][1..] == [];
    assert Step(sys, c0, Left) == Some(c1);
    assert Step(sys, c1, Right) == Some(Config(sys.left.next(s), sys.right.got(r, Some(f)), [], []));
    TwoMoves(sys, c0, Left, Right);
  }

  /** The right host writes a frame and the left host reads it. */
  lemma FrameDown<S, R>(sys: System<S, R>, s: S, r: R, f: Frame)
    requires sys.capacity >= 1 && sys.right.act(r) == Emit(f) && sys.left.act(s) == Await
    ensures Run(sys, Config(s, r, [], []), [Right, Left])
         == Some(Config(sys.left.got(s, Some(f)), sys.right.next(r), [], []))
  {
    var c0, c1 := Config(s, r, [], []), Config(s, sys.right.next(r), [], [f]);
    assert [] + [f] == [f] && [f][1..] == [];
    assert Step(sys, c0, Right) == Some(c1);
    assert Step(sys, c1, Left) == Some(Config(sys.left.got(s, Some(f)), sys.right.next(r), [], []));
    TwoMoves(sys, c0, Right, Left);
  }

  /** Each host decides something on its own. */
  lemma ThinkBoth<S, R>(sys: System<S, R>, s: S, r: R)
    requires sys.left.act(s) == Think && sys.right.act(r) == Think
    ensures Run(sys, Config(s, r, [], []), [Left, Right]) == Some(Config(sys.left.next(s), sys.right.next(r), [], []))
  {
    var c0, c1 := Config(s, r, [], []), Config(sys.left.next(s), r, [], []);
    assert Step(sys, c0, Left) == Some(c1);
    assert Step(sys, c1, Right) == Some(Config(sys.left.next(s), sys.right.next(r), [], []));
    TwoMoves(sys, c0, Left, Right);
  }

  // ----- One host on its own -----

  /** n moves of a host that already has everything it will ever read and is never blocked. */
  function Alone<S>(m: Machine<S>, from: Move<S>, n: nat): Move<S> {
    if n == 0 then from else
      var before := Alone(m, from, n - 1);
      var next := Advance(m, before.state, before.inbox, before.outbox, |before.outbox| + 1, true);
      if next.None? then before else next.value
  }

  ghost predicate Leads<S>(m: Machine<S>, from: Move<S>, to: Move<S>) {
    exists n: nat :: Alone(m, from, n) == to
  }

  lemma LeadsNowhere<S>(m: Machine<S>, from: Move<S>)
    ensures Leads(m, from, from)
  {
    assert Alone(m, from, 0) == from;
  }

  lemma {:induction false} AloneThen<S>(m: Machine<S>, from: Move<S>, i: nat, j: nat)
    ensures Alone(m, Alone(m, from, i), j) == Alone(m, from, i + j)
  {
    hide Advance;
    if j > 0 {
      AloneThen(m, from, i, j - 1);
    }
  }

  lemma LeadsOn<S>(m: Machine<S>, from: Move<S>, via: Move<S>, to: Move<S>)
    requires Leads(m, from, via) && Leads(m, via, to)
    ensures Leads(m, from, to)
  {
    hide Alone;
    var i: nat :| Alone(m, from, i) == via;
    var j: nat :| Alone(m, via, j) == to;
    AloneThen(m, from, i, j);
  }

  lemma OneMove<S>(m: Machine<S>, from: Move<S>, to: Move<S>)
    requires Advance(m, from.state, from.inbox, from.outbox, |from.outbox| + 1, true) == Some(to)
    ensures Leads(m, from, to)
  {
    hide Advance;
    assert Alone(m, from, 0) == from;
    assert Alone(m, from, 1) == to;
  }

  lemma {:induction false} HaltedStays<S>(m: Machine<S>, from: Move<S>, n: nat)
    requires m.act(from.state).Halt?
    ensures Alone(m, from, n) == from
  {
    if n > 0 {
      HaltedStays(m, from, n - 1);
    }
  }

  /** A host on its own stops in one place at most. */
  lemma OneEnd<S>(m: Machine<S>, from: Move<S>, one: Move<S>, other: Move<S>)
    requires Leads(m, from, one) && m.act(one.state).Halt?
    requires Leads(m, from, other) && m.act(other.state).Halt?
    ensures one == other
  {
    hide Advance, Alone;
    var i: nat :| Alone(m, from, i) == one;
    var j: nat :| Alone(m, from, j) == other;
    if i <= j {
      AloneThen(m, from, i, j - i);
      HaltedStays(m, one, j - i);
    } else {
      AloneThen(m, from, j, i - j);
      HaltedStays(m, other, i - j);
    }
  }

  // ----- What the hosts say and hear in a run -----

  /** The frame a host reads if it moves now. */
  function Taken<S>(m: Machine<S>, s: S, inbox: seq<Frame>): seq<Frame> {
    if m.act(s).Await? && inbox != [] then [inbox[0]] else []
  }

  /** The frame it writes. */
  function Given<S>(m: Machine<S>, s: S, outbox: seq<Frame>, capacity: nat): seq<Frame> {
    if m.act(s).Emit? && |outbox| < capacity then [m.act(s).frame] else []
  }

  /** The frames a host reads in a run. */
  function Heard<S, R>(sys: System<S, R>, c: Config<S, R>, moves: seq<Side>, who: Side): seq<Frame>
    requires Run(sys, c, moves).Some?
    decreases |moves|
  {
    if moves == [] then [] else
      var now := if moves[0] != who then []
                 else if who == Left then Taken(sys.left, c.left, c.down)
                 else Taken(sys.right, c.right, c.up);
      now + Heard(sys, Step(sys, c, moves[0]).value, moves[1..], who)
  }

  /** The frames it writes. */
  function Said<S, R>(sys: System<S, R>, c: Config<S, R>, moves: seq<Side>, who: Side): seq<Frame>
    requires Run(sys, c, moves).Some?
    decreases |moves|
  {
    if moves == [] then [] else
      var now := if moves[0] != who then []
                 else if who == Left then Given(sys.left, c.left, c.up, sys.capacity)
                 else Given(sys.right, c.right, c.down, sys.capacity);
      now + Said(sys, Step(sys, c, moves[0]).value, moves[1..], who)
  }

  /** Frames arrive in order: what has been said is what has been heard and what is still under way. */
  lemma {:induction false} FirstInFirstOut<S, R>(sys: System<S, R>, c: Config<S, R>, moves: seq<Side>)
    requires Run(sys, c, moves).Some?
    ensures c.up + Said(sys, c, moves, Left) == Heard(sys, c, moves, Right) + Run(sys, c, moves).value.up
    ensures c.down + Said(sys, c, moves, Right) == Heard(sys, c, moves, Left) + Run(sys, c, moves).value.down
    decreases |moves|
  {
    if moves == [] {
      assert c.up + [] == [] + c.up && c.down + [] == [] + c.down;
    } else {
      var c1 := Step(sys, c, moves[0]).value;
      FirstInFirstOut(sys, c1, moves[1..]);
      var d := Run(sys, c, moves).value;
      hide Run, Said, Heard;
      if moves[0] == Left {
        var given, taken := Given(sys.left, c.left, c.up, sys.capacity), Taken(sys.left, c.left, c.down);
        OneFlow(sys, c);
        SaidHeard(sys, c, moves);
        Flow(c.up, given, Said(sys, c1, moves[1..], Left), Heard(sys, c1, moves[1..], Right), d.up);
        FlowOut(taken, c1.down, Said(sys, c1, moves[1..], Right), Heard(sys, c1, moves[1..], Left), d.down);
      } else {
        var given, taken := Given(sys.right, c.right, c.down, sys.capacity), Taken(sys.right, c.right, c.up);
        OneFlow(sys, c);
        SaidHeard(sys, c, moves);
        Flow(c.down, given, Said(sys, c1, moves[1..], Right), Heard(sys, c1, moves[1..], Left), d.down);
        FlowOut(taken, c1.up, Said(sys, c1, moves[1..], Left), Heard(sys, c1, moves[1..], Right), d.up);
      }
    }
  }

  lemma Flow<T>(a: seq<T>, b: seq<T>, x: seq<T>, y: seq<T>, z: seq<T>)
    requires (a + b) + x == y + z
    ensures a + (b + x) == [] + y + z
  {
    JoinAssoc(a, b, x);
    assert [] + y == y;
  }

  lemma FlowOut<T>(a: seq<T>, b: seq<T>, x: seq<T>, y: seq<T>, z: seq<T>)
    requires b + x == y + z
    ensures (a + b) + ([] + x) == (a + y) + z
  {
    assert [] + x == x;
    JoinAssoc(a, b, x);
    JoinAssoc(a, y, z);
  }

  /** What one move does to the channels. */
  lemma OneFlow<S, R>(sys: System<S, R>, c: Config<S, R>)
    ensures Step(sys, c, Left).Some? ==>
              var d := Step(sys, c, Left).value;
              d.up == c.up + Given(sys.left, c.left, c.up, sys.capacity) && c.down == Taken(sys.left, c.left, c.down) + d.down
    ensures Step(sys, c, Right).Some? ==>
              var d := Step(sys, c, Right).value;
              d.down == c.down + Given(sys.right, c.right, c.down, sys.capacity) && c.up == Taken(sys.right, c.right, c.up) + d.up
  {
    hide Advance, Given, Taken;
    AdvanceFlow(sys.left, c.left, c.down, c.up, sys.capacity, sys.right.act(c.right).Halt?);
    AdvanceFlow(sys.right, c.right, c.up, c.down, sys.capacity, sys.left.act(c.left).Halt?);
  }

  lemma AdvanceFlow<S>(m: Machine<S>, s: S, inbox: seq<Frame>, outbox: seq<Frame>, capacity: nat, peerStopped: bool)
    ensures var move := Advance(m, s, inbox, outbox, capacity, peerStopped);
            move.Some? ==>
              move.value.outbox == outbox + Given(m, s, outbox, capacity) && inbox == Taken(m, s, inbox) + move.value.inbox
  {
    assert outbox + [] == outbox && [] + inbox == inbox;
  }

  lemma SaidHeard<S, R>(sys: System<S, R>, c: Config<S, R>, moves: seq<Side>)
    requires Run(sys, c, moves).Some? && moves != []
    ensures var c1 := Step(sys, c, moves[0]).value;
            && Said(sys, c, moves, Left)
               == (if moves[0] == Left then Given(sys.left, c.left, c.up, sys.capacity) else []) + Said(sys, c1, moves[1..], Left)
            && Said(sys, c, moves, Right)
               == (if moves[0] == Right then Given(sys.right, c.right, c.down, sys.capacity) else [])
                  + Said(sys, c1, moves[1..], Right)
            && Heard(sys, c, moves, Left)
               == (if moves[0] == Left then Taken(sys.left, c.left, c.down) else []) + Heard(sys, c1, moves[1..], Left)
            && Heard(sys, c, moves, Right)
               == (if moves[0] == Right then Taken(sys.right, c.right, c.up) else []) + Heard(sys, c1, moves[1..], Right)
  {
  }

  lemma {:induction false} HaltedSaysNothing<S, R>(sys: System<S, R>, c: Config<S, R>, moves: seq<Side>)
    requires Run(sys, c, moves).Some? && sys.right.act(c.right).Halt?
    ensures Said(sys, c, moves, Right) == [] && Run(sys, c, moves).value.right == c.right
    decreases |moves|
  {
    if moves != [] {
      HaltedSaysNothing(sys, Step(sys, c, moves[0]).value, moves[1..]);
    }
  }

  /** A host that a failed write to a stopped peer stops can be told by its state. */
  ghost predicate BreaksOff<S(!new)>(m: Machine<S>, s: S) {
    exists t :: s == m.broken(t)
  }

  ghost predicate BreakingStops<S(!new)>(m: Machine<S>) {
    forall t :: m.act(m.broken(t)).Halt?
  }

  /** One move of the left host, seen by a host that already has everything it will ever read. */
  lemma LeftMoveAlone<S, R>(sys: System<S, R>, c: Config<S, R>, later: seq<Frame>, out: seq<Frame>)
    requires Step(sys, c, Left).Some? && !(sys.left.act(c.left).Emit? && |c.up| >= sys.capacity)
    requires sys.right.act(c.right).Halt? ==> later == []
    ensures Leads(sys.left, Move(c.left, c.down + later, out),
                  Move(Step(sys, c, Left).value.left, Step(sys, c, Left).value.down + later,
                       out + Given(sys.left, c.left, c.up, sys.capacity)))
  {
    hide Leads;
    var d := Step(sys, c, Left).value;
    if sys.left.act(c.left).Await? && c.down != [] {
      assert (c.down + later)[0] == c.down[0] && (c.down + later)[1..] == c.down[1..] + later;
    }
    assert out + [] == out;
    OneMove(sys.left, Move(c.left, c.down + later, out),
            Move(d.left, d.down + later, out + Given(sys.left, c.left, c.up, sys.capacity)));
  }

  /**
   The left host's part in a run, unless a write to a stopped peer stopped it, is what it does on its own when all it
   will ever be sent is there from the start.
   */
  lemma {:induction false} LeftView<S(!new), R>(sys: System<S, R>, c: Config<S, R>, moves: seq<Side>, out: seq<Frame>)
    requires Run(sys, c, moves).Some? && BreakingStops(sys.left) && !BreaksOff(sys.left, Run(sys, c, moves).value.left)
    ensures var d := Run(sys, c, moves).value;
            Leads(sys.left, Move(c.left, c.down + Said(sys, c, moves, Right), out),
                  Move(d.left, d.down, out + Said(sys, c, moves, Left)))
    decreases |moves|
  {
    hide Leads, Advance;
    if moves == [] {
      assert c.down + [] == c.down && out + [] == out;
      LeadsNowhere(sys.left, Move(c.left, c.down, out));
    } else {
      var c1, d := Step(sys, c, moves[0]).value, Run(sys, c, moves).value;
      var later := Said(sys, c1, moves[1..], Right);
      if moves[0] == Left {
        var given := Given(sys.left, c.left, c.up, sys.capacity);
        NotBroken(sys, c, moves);
        LeftView(sys, c1, moves[1..], out + given);
        if sys.right.act(c.right).Halt? {
          HaltedSaysNothing(sys, c, moves);
        }
        LeftMoveAlone(sys, c, later, out);
        JoinAssoc(out, given, Said(sys, c1, moves[1..], Left));
        assert Said(sys, c, moves, Right) == later && d == Run(sys, c1, moves[1..]).value;
        assert (out + given) + Said(sys, c1, moves[1..], Left) == out + Said(sys, c, moves, Left);
        LeadsOn(sys.left, Move(c.left, c.down + later, out), Move(c1.left, c1.down + later, out + given),
                Move(d.left, d.down, out + Said(sys, c, moves, Left)));
      } else {
        LeftView(sys, c1, moves[1..], out);
        RightMoveSends(sys, c);
        JoinAssoc(c.down, Given(sys.right, c.right, c.down, sys.capacity), later);
        assert Said(sys, c, moves, Left) == Said(sys, c1, moves[1..], Left);
        assert c1.down + later == c.down + Said(sys, c, moves, Right);
        assert d == Run(sys, c1, moves[1..]).value;
        assert Move(c.left, c.down + Said(sys, c, moves, Right), out) == Move(c1.left, c1.down + later, out);
      }
    }
  }

  lemma RightMoveSends<S, R>(sys: System<S, R>, c: Config<S, R>)
    requires Step(sys, c, Right).Some?
    ensures var d := Step(sys, c, Right).value;
            d.left == c.left && d.down == c.down + Given(sys.right, c.right, c.down, sys.capacity)
  {
    assert c.down + [] == c.down;
  }

  /** The next move of the left host is not a write that stops it. */
  lemma NotBroken<S(!new), R>(sys: System<S, R>, c: Config<S, R>, moves: seq<Side>)
    requires Run(sys, c, moves).Some? && moves != [] && moves[0] == Left
    requires BreakingStops(sys.left) && !BreaksOff(sys.left, Run(sys, c, moves).value.left)
    ensures !(sys.left.act(c.left).Emit? && |c.up| >= sys.capacity)
  {
    if sys.left.act(c.left).Emit? && |c.up| >= sys.capacity {
      LeftHaltedStays(sys, Step(sys, c, Left).value, moves[1..]);
    }
  }

  lemma {:induction false} LeftHaltedStays<S, R>(sys: System<S, R>, c: Config<S, R>, moves: seq<Side>)
    requires Run(sys, c, moves).Some? && sys.left.act(c.left).Halt?
    ensures Run(sys, c, moves).value.left == c.left
    decreases |moves|
  {
    if moves != [] {
      LeftHaltedStays(sys, Step(sys, c, moves[0]).value, moves[1..]);
    }
  }

  // ----- The same seen from the other side -----

  function Turned<S, R>(sys: System<S, R>): System<R, S> {
    System(sys.right, sys.left, sys.capacity)
  }

  function TurnedConfig<S, R>(c: Config<S, R>): Config<R, S> {
    Config(c.right, c.left, c.down, c.up)
  }

  function Other(side: Side): Side {
    if side == Left then Right else Left
  }

  function TurnedMoves(moves: seq<Side>): (turned: seq<Side>)
    ensures |turned| == |moves|
  {
    if moves == [] then [] else [Other(moves[0])] + TurnedMoves(moves[1..])
  }

  lemma {:induction false} TurnedRun<S, R>(sys: System<S, R>, c: Config<S, R>, moves: seq<Side>)
    requires Run(sys, c, moves).Some?
    ensures Run(Turned(sys), TurnedConfig(c), TurnedMoves(moves)) == Some(TurnedConfig(Run(sys, c, moves).value))
    ensures forall who :: Said(Turned(sys), TurnedConfig(c), TurnedMoves(moves), who) == Said(sys, c, moves, Other(who))
    decreases |moves|
  {
    if moves != [] {
      var c1 := Step(sys, c, moves[0]).value;
      TurnedRun(sys, c1, moves[1..]);
      var turned := TurnedMoves(moves);
      assert turned[0] == Other(moves[0]) && turned[1..] == TurnedMoves(moves[1..]);
      assert Step(Turned(sys), TurnedConfig(c), turned[0]) == Some(TurnedConfig(c1));
    }
  }

  /** The right host's part in a run. */
  lemma RightView<S, R(!new)>(sys: System<S, R>, c: Config<S, R>, moves: seq<Side>)
    requires Run(sys, c, moves).Some? && BreakingStops(sys.right) && !BreaksOff(sys.right, Run(sys, c, moves).value.right)
    ensures var d := Run(sys, c, moves).value;
            Leads(sys.right, Move(c.right, c.up + Said(sys, c, moves, Left), []),
                  Move(d.right, d.up, Said(sys, c, moves, Right)))
  {
    hide Leads, Step;
    TurnedRun(sys, c, moves);
    LeftView(Turned(sys), TurnedConfig(c), TurnedMoves(moves), []);
    assert [] + Said(sys, c, moves, Right) == Said(sys, c, moves, Right);
  }

  // ----- A host that has run on its own and one that has taken part -----

  /**
   Two hosts start with empty channels. When a host comes to an end on its own on what the other says in a run, and the
   run has brought it to an end too, without a failed write, then both ends are the same.
   */
  lemma LeftEnds<S(!new), R>(sys: System<S, R>, c: Config<S, R>, moves: seq<Side>, alone: Move<S>)
    requires Run(sys, c, moves).Some? && c.down == []
    requires BreakingStops(sys.left) && !BreaksOff(sys.left, Run(sys, c, moves).value.left)
    requires sys.left.act(Run(sys, c, moves).value.left).Halt? && sys.left.act(alone.state).Halt?
    requires Leads(sys.left, Move(c.left, Said(sys, c, moves, Right), []), alone)
    ensures var d := Run(sys, c, moves).value;
            alone == Move(d.left, d.down, Said(sys, c, moves, Left))
  {
    hide Leads, Step, BreakingStops, BreaksOff, Said;
    var d := Run(sys, c, moves).value;
    LeftView(sys, c, moves, []);
    EmptyFront(Said(sys, c, moves, Left));
    EmptyFront(Said(sys, c, moves, Right));
    OneEnd(sys.left, Move(c.left, Said(sys, c, moves, Right), []), alone, Move(d.left, d.down, Said(sys, c, moves, Left)));
  }

  lemma RightEnds<S, R(!new)>(sys: System<S, R>, c: Config<S, R>, moves: seq<Side>, alone: Move<R>)
    requires Run(sys, c, moves).Some? && c.up == []
    requires BreakingStops(sys.right) && !BreaksOff(sys.right, Run(sys, c, moves).value.right)
    requires sys.right.act(Run(sys, c, moves).value.right).Halt? && sys.right.act(alone.state).Halt?
    requires Leads(sys.right, Move(c.right, Said(sys, c, moves, Left), []), alone)
    ensures var d := Run(sys, c, moves).value;
            alone == Move(d.right, d.up, Said(sys, c, moves, Right))
  {
    hide Leads, Step, BreakingStops, BreaksOff, Said;
    var d := Run(sys, c, moves).value;
    RightView(sys, c, moves);
    EmptyFront(Said(sys, c, moves, Left));
    OneEnd(sys.right, Move(c.right, Said(sys, c, moves, Left), []), alone, Move(d.right, d.up, Said(sys, c, moves, Right)));
  }

  lemma EmptyFront<T>(xs: seq<T>)
    ensures [] + xs == xs
  {
  }
}
