/**
 What the opening texts of a single-file transfer mean, without the order of reading: the last line of each key counts,
 keys that are not known and lines without a separator do not, and the optional keys have values when they are missing.
 */
module FileMetadataMeaning {
  import opened Base
  import opened Numbers
  import opened FileMetadata

  /** What a line says, cut at its first separator; nothing if it has none. */
  function PairOf(line: Text): seq<(Text, Text)> {
    var k := Find(line, 61);
    if k == |line| then [] else [(line[..k], line[k + 1..])]
  }

  /** The keys and values of a text, line by line. */
  function Pairs(t: Text): seq<(Text, Text)>
    decreases |t|
  {
    if t == [] then [] else
      var end := Find(t, 10);
      PairOf(t[..end]) + if end == |t| then [] else Pairs(t[end + 1..])
  }

  function LastOf(pairs: seq<(Text, Text)>, key: Text): Option<Text> {
    if pairs == [] then None else
      var (k, v) := pairs[|pairs| - 1];
      if k == key then Some(v) else LastOf(pairs[..|pairs| - 1], key)
  }

  /** Field after field. */
  function AllFields<F>(onField: (F, Text, Text) -> Result<F>, start: F, pairs: seq<(Text, Text)>): Result<F> {
    if pairs == [] then Ok(start) else
      var fs := AllFields(onField, start, pairs[..|pairs| - 1]);
      var (k, v) := pairs[|pairs| - 1];
      if fs.Err? then fs else onField(fs.value, k, v)
  }

  lemma {:induction false} ErrorsStay<F>(onField: (F, Text, Text) -> Result<F>, start: F, first: seq<(Text, Text)>,
                                         more: seq<(Text, Text)>)
    requires AllFields(onField, start, first).Err?
    ensures AllFields(onField, start, first + more) == AllFields(onField, start, first)
  {
    if more == [] {
      assert first + more == first;
    } else {
      var n := |more| - 1;
      ErrorsStay(onField, start, first, more[..n]);
      assert (first + more)[..|first + more| - 1] == first + more[..n];
    }
  }

  lemma OneField<F>(onField: (F, Text, Text) -> Result<F>, start: F, done: seq<(Text, Text)>, p: (Text, Text))
    requires AllFields(onField, start, done).Ok?
    ensures AllFields(onField, start, done + [p]) == onField(AllFields(onField, start, done).value, p.0, p.1)
  {
    assert (done + [p])[..|done|] == done;
  }

  lemma LineIsPair<F>(onField: (F, Text, Text) -> Result<F>, start: F, done: seq<(Text, Text)>, line: Text)
    requires AllFields(onField, start, done).Ok?
    ensures OnLine(onField, AllFields(onField, start, done).value, line) == AllFields(onField, start, done + PairOf(line))
  {
    hide AllFields;
    var k := Find(line, 61);
    if k < |line| {
      OneField(onField, start, done, (line[..k], line[k + 1..]));
    } else {
      assert done + [] == done;
    }
  }

  lemma {:induction false} LinesArePairs<F>(onField: (F, Text, Text) -> Result<F>, start: F, done: seq<(Text, Text)>, t: Text)
    requires AllFields(onField, start, done).Ok?
    ensures OnLines(onField, AllFields(onField, start, done).value, t) == AllFields(onField, start, done + Pairs(t))
    decreases |t|
  {
    hide AllFields, OnLine, PairOf;
    if t == [] {
      assert done + [] == done;
    } else {
      var end := Find(t, 10);
      var mine := PairOf(t[..end]);
      var rest := if end == |t| then [] else Pairs(t[end + 1..]);
      LineIsPair(onField, start, done, t[..end]);
      JoinAssoc(done, mine, rest);
      if AllFields(onField, start, done + mine).Err? {
        ErrorsStay(onField, start, done + mine, rest);
      } else if end == |t| {
        assert (done + mine) + [] == done + mine;
      } else {
        LinesArePairs(onField, start, done + mine, t[end + 1..]);
      }
    }
  }

  // ----- The announcement -----

  /** A value that its key allows. */
  predicate Allowed(p: (Text, Text)) {
    && (p.0 == [115, 105, 122, 101] ==> SizeOf(p.1).Ok?)
    && (p.0 == [114, 101, 115, 117, 109, 101] ==> p.1 in {[49], [48], [116, 114, 117, 101], [102, 97, 108, 115, 101]})
    && (p.0 == [115, 111, 117, 114, 99, 101] ==>
          p.1 in {[102, 105, 108, 101], [99, 108, 105, 112, 98, 111, 97, 114, 100, 95, 105, 109, 97, 103, 101]})
  }

  ghost predicate AllAllowed(pairs: seq<(Text, Text)>) {
    forall i :: 0 <= i < |pairs| ==> Allowed(pairs[i])
  }

  /** The fields hold what the last lines of name, size, sha256, resume and source say. */
  ghost predicate HoldsLast(fs: Fields, pairs: seq<(Text, Text)>) {
    var name, size := LastOf(pairs, [110, 97, 109, 101]), LastOf(pairs, [115, 105, 122, 101]);
    var sha256, resume := LastOf(pairs, [115, 104, 97, 50, 53, 54]), LastOf(pairs, [114, 101, 115, 117, 109, 101]);
    var source := LastOf(pairs, [115, 111, 117, 114, 99, 101]);
    && fs.hasName == name.Some? && (name.Some? ==> fs.meta.name == name.value)
    && fs.hasSize == size.Some? && (size.Some? ==> SizeOf(size.value) == Ok(fs.meta.size))
    && fs.hasSha256 == sha256.Some? && (sha256.Some? ==> fs.meta.sha256 == sha256.value)
    && fs.meta.resume == (resume.None? || resume.value == [49] || resume.value == [116, 114, 117, 101])
    && (fs.meta.source == ClipboardImage <==>
          source == Some([99, 108, 105, 112, 98, 111, 97, 114, 100, 95, 105, 109, 97, 103, 101]))
  }

  lemma FieldHolds(fs: Fields, front: seq<(Text, Text)>, p: (Text, Text))
    requires HoldsLast(fs, front)
    ensures OnField(fs, p.0, p.1).Ok? <==> Allowed(p)
    ensures OnField(fs, p.0, p.1).Ok? ==> HoldsLast(OnField(fs, p.0, p.1).value, front + [p])
  {
    hide SizeOf, LastOf;
    LastOfMore(front, p, NAME);
    LastOfMore(front, p, SIZE);
    LastOfMore(front, p, SHA256);
    LastOfMore(front, p, RESUME);
    LastOfMore(front, p, SOURCE);
  }

  lemma LastOfMore(front: seq<(Text, Text)>, p: (Text, Text), key: Text)
    ensures LastOf(front + [p], key) == if p.0 == key then Some(p.1) else LastOf(front, key)
  {
    assert (front + [p])[..|front|] == front;
  }

  lemma {:induction false} FieldsHold(pairs: seq<(Text, Text)>)
    ensures AllFields(OnField, NO_FIELDS, pairs).Ok? <==> AllAllowed(pairs)
    ensures AllFields(OnField, NO_FIELDS, pairs).Ok? ==> HoldsLast(AllFields(OnField, NO_FIELDS, pairs).value, pairs)
  {
    hide Allowed, OnField, HoldsLast;
    if pairs == [] {
      NoneHeld();
    } else {
      var n := |pairs| - 1;
      FieldsHold(pairs[..n]);
      assert pairs == pairs[..n] + [pairs[n]];
      if AllFields(OnField, NO_FIELDS, pairs[..n]).Ok? {
        FieldHolds(AllFields(OnField, NO_FIELDS, pairs[..n]).value, pairs[..n], pairs[n]);
      }
      AllButLast(pairs);
    }
  }

  lemma NoneHeld()
    ensures HoldsLast(NO_FIELDS, [])
  {
  }

  lemma AllButLast(pairs: seq<(Text, Text)>)
    requires pairs != []
    ensures AllAllowed(pairs) <==> AllAllowed(pairs[..|pairs| - 1]) && Allowed(pairs[|pairs| - 1])
  {
    hide Allowed;
    forall i | 0 <= i < |pairs| - 1 ensures pairs[..|pairs| - 1][i] == pairs[i] {
    }
  }

  /**
   An announcement is read exactly when every size, resume and source line has an allowed value and the last lines of
   name, size and sha256 are there, the first and the third not empty. It then says what those lines say; it may be resumed
   unless the last resume line forbids it, and comes from a plain file unless the last source line names the clipboard.
   */
  lemma AnnouncementMeans(t: Text)
    ensures var r, pairs := FileBeginOf(t), Pairs(t);
            var name, size := LastOf(pairs, [110, 97, 109, 101]), LastOf(pairs, [115, 105, 122, 101]);
            var sha256, resume := LastOf(pairs, [115, 104, 97, 50, 53, 54]), LastOf(pairs, [114, 101, 115, 117, 109, 101]);
            var source := LastOf(pairs, [115, 111, 117, 114, 99, 101]);
            && (r.Ok? <==> AllAllowed(pairs) && name.Some? && name.value != [] && size.Some? && sha256.Some? && sha256.value != [])
            && (r.Ok? ==>
                  && r.value.name == name.value && Ok(r.value.size) == SizeOf(size.value) && r.value.sha256 == sha256.value
                  && r.value.resume == (resume.None? || resume.value == [49] || resume.value == [116, 114, 117, 101])
                  && (r.value.source == ClipboardImage <==>
                        source == Some([99, 108, 105, 112, 98, 111, 97, 114, 100, 95, 105, 109, 97, 103, 101])))
  {
    hide Pairs, OnField, AllAllowed, LastOf, SizeOf;
    LinesArePairs(OnField, NO_FIELDS, [], t);
    assert [] + Pairs(t) == Pairs(t);
    FieldsHold(Pairs(t));
  }

  // ----- The acknowledgement -----

  predicate AllowedAck(p: (Text, Text)) {
    && (p.0 == [111, 102, 102, 115, 101, 116] ==> SizeOf(p.1).Ok?)
    && (p.0 == [99, 111, 109, 112, 108, 101, 116, 101] ==> p.1 in {[49], [48], [116, 114, 117, 101], [102, 97, 108, 115, 101]})
  }

  ghost predicate AllAllowedAck(pairs: seq<(Text, Text)>) {
    forall i :: 0 <= i < |pairs| ==> AllowedAck(pairs[i])
  }

  ghost predicate HoldsLastAck(fs: AckFields, pairs: seq<(Text, Text)>) {
    var offset, complete := LastOf(pairs, [111, 102, 102, 115, 101, 116]), LastOf(pairs, [99, 111, 109, 112, 108, 101, 116, 101]);
    && fs.hasOffset == offset.Some? && (offset.Some? ==> SizeOf(offset.value) == Ok(fs.meta.offset))
    && fs.meta.complete == (complete == Some([49]) || complete == Some([116, 114, 117, 101]))
  }

  lemma AckFieldHolds(fs: AckFields, front: seq<(Text, Text)>, p: (Text, Text))
    requires HoldsLastAck(fs, front)
    ensures OnAckField(fs, p.0, p.1).Ok? <==> AllowedAck(p)
    ensures OnAckField(fs, p.0, p.1).Ok? ==> HoldsLastAck(OnAckField(fs, p.0, p.1).value, front + [p])
  {
    hide SizeOf, LastOf;
    LastOfMore(front, p, OFFSET);
    LastOfMore(front, p, COMPLETE);
  }

  lemma {:induction false} AckFieldsHold(pairs: seq<(Text, Text)>)
    ensures AllFields(OnAckField, NO_ACK_FIELDS, pairs).Ok? <==> AllAllowedAck(pairs)
    ensures AllFields(OnAckField, NO_ACK_FIELDS, pairs).Ok? ==> HoldsLastAck(AllFields(OnAckField, NO_ACK_FIELDS, pairs).value, pairs)
  {
    hide AllowedAck, OnAckField, HoldsLastAck;
    if pairs == [] {
      NoAckHeld();
    } else {
      var n := |pairs| - 1;
      AckFieldsHold(pairs[..n]);
      assert pairs == pairs[..n] + [pairs[n]];
      if AllFields(OnAckField, NO_ACK_FIELDS, pairs[..n]).Ok? {
        AckFieldHolds(AllFields(OnAckField, NO_ACK_FIELDS, pairs[..n]).value, pairs[..n], pairs[n]);
      }
      AllButLastAck(pairs);
    }
  }

  lemma NoAckHeld()
    ensures HoldsLastAck(NO_ACK_FIELDS, [])
  {
  }

  lemma AllButLastAck(pairs: seq<(Text, Text)>)
    requires pairs != []
    ensures AllAllowedAck(pairs) <==> AllAllowedAck(pairs[..|pairs| - 1]) && AllowedAck(pairs[|pairs| - 1])
  {
    hide AllowedAck;
    forall i | 0 <= i < |pairs| - 1 ensures pairs[..|pairs| - 1][i] == pairs[i] {
    }
  }

  /** The empty text and "ready" mean the start; any other needs an offset, and is complete only if its last such line says so. */
  lemma AckMeans(t: Text)
    ensures t == [] || t == [114, 101, 97, 100, 121] ==> BeginAckOf(t) == Ok(BeginAck(0, false))
    ensures t != [] && t != [114, 101, 97, 100, 121] ==>
              var r, pairs := BeginAckOf(t), Pairs(t);
              var offset := LastOf(pairs, [111, 102, 102, 115, 101, 116]);
              var complete := LastOf(pairs, [99, 111, 109, 112, 108, 101, 116, 101]);
              && (r.Ok? <==> AllAllowedAck(pairs) && offset.Some?)
              && (r.Ok? ==> Ok(r.value.offset) == SizeOf(offset.value)
                            && r.value.complete == (complete == Some([49]) || complete == Some([116, 114, 117, 101])))
  {
    hide Pairs, OnAckField, AllAllowedAck, LastOf, SizeOf;
    LinesArePairs(OnAckField, NO_ACK_FIELDS, [], t);
    assert [] + Pairs(t) == Pairs(t);
    AckFieldsHold(Pairs(t));
  }

  // ----- How they are written -----

  /** name=, size=, sha256=, resume= and source= lines, in this order. */
  lemma AnnouncementIsWritten(m: FileBegin)
    ensures FileBeginText(m)
         == ([110, 97, 109, 101, 61] + m.name + [10]) + (([115, 105, 122, 101, 61] + Decimal(m.size) + [10])
            + (([115, 104, 97, 50, 53, 54, 61] + m.sha256 + [10])
            + (([114, 101, 115, 117, 109, 101, 61] + (if m.resume then [49] else [48]) + [10])
            + ([115, 111, 117, 114, 99, 101, 61]
               + (if m.source == PlainFile then [102, 105, 108, 101]
                  else [99, 108, 105, 112, 98, 111, 97, 114, 100, 95, 105, 109, 97, 103, 101]) + [10]))))
  {
    hide Decimal;
  }

  lemma AckIsWritten(ack: BeginAck)
    ensures BeginAckText(ack)
         == ([111, 102, 102, 115, 101, 116, 61] + Decimal(ack.offset) + [10])
            + ([99, 111, 109, 112, 108, 101, 116, 101, 61] + (if ack.complete then [49] else [48]) + [10])
  {
    hide Decimal;
  }
}
