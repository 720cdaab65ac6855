/**
 The key=value texts that open a single-file transfer: what the sender announces and where the receiver wants it to
 start (src/transfer/file_metadata.cpp).
 */
module FileMetadata {
  import opened Base
  import opened Numbers

  datatype TransferSource = PlainFile | ClipboardImage

  datatype FileBegin = FileBegin(name: Text, size: U64, sha256: Text, resume: bool, source: TransferSource)

  datatype BeginAck = BeginAck(offset: U64, complete: bool)

  const NEWLINE: Byte := 10
  const EQUALS: Byte := 61

  // name, size, sha256, resume, source, offset, complete
  const NAME: Text := [110, 97, 109, 101]
  const SIZE: Text := [115, 105, 122, 101]
  const SHA256: Text := [115, 104, 97, 50, 53, 54]
  const RESUME: Text := [114, 101, 115, 117, 109, 101]
  const SOURCE: Text := [115, 111, 117, 114, 99, 101]
  const OFFSET: Text := [111, 102, 102, 115, 101, 116]
  const COMPLETE: Text := [99, 111, 109, 112, 108, 101, 116, 101]
  // file, clipboard_image, ready, true, false
  const FILE: Text := [102, 105, 108, 101]
  const CLIPBOARD_IMAGE: Text := [99, 108, 105, 112, 98, 111, 97, 114, 100, 95, 105, 109, 97, 103, 101]
  const READY: Text := [114, 101, 97, 100, 121]
  const TRUE: Text := [116, 114, 117, 101]
  const FALSE: Text := [102, 97, 108, 115, 101]

  function SourceName(source: TransferSource): Text {
    match source
    case PlainFile => FILE
    case ClipboardImage => CLIPBOARD_IMAGE
  }

  function Flag(b: bool): Text {
    if b then [49] else [48]
  }

  function Line(key: Text, value: Text): Text {
    key + [EQUALS] + value + [NEWLINE]
  }

  function FileBeginText(m: FileBegin): Text {
    Line(NAME, m.name) + (Line(SIZE, Decimal(m.size)) + (Line(SHA256, m.sha256) + (Line(RESUME, Flag(m.resume)) +
    Line(SOURCE, SourceName(m.source)))))
  }

  function BeginAckText(m: BeginAck): Text {
    Line(OFFSET, Decimal(m.offset)) + Line(COMPLETE, Flag(m.complete))
  }

  // ----- Reading -----

  /** The position of the first byte b, or the length. */
  function Find(t: Text, b: Byte): (k: nat)
    ensures k <= |t| && b !in t[..k] && (k < |t| ==> t[k] == b)
  {
    if t == [] || t[0] == b then 0 else
      var k := Find(t[1..], b);
      assert t[..k + 1] == [t[0]] + t[1..][..k];
      k + 1
  }

  function ParseFlag(value: Text): Option<bool> {
    if value == [49] || value == TRUE then Some(true)
    else if value == [48] || value == FALSE then Some(false)
    else None
  }

  function ParseSource(value: Text): Option<TransferSource> {
    if value == FILE then Some(PlainFile) else if value == CLIPBOARD_IMAGE then Some(ClipboardImage) else None
  }

  /** What has been read of a text: the fields so far and which of the required ones were seen. */
  datatype Fields = Fields(meta: FileBegin, hasName: bool, hasSize: bool, hasSha256: bool)

  const NO_FIELDS: Fields := Fields(FileBegin([], 0, [], true, PlainFile), false, false, false)

  function OnField(fs: Fields, key: Text, value: Text): Result<Fields> {
    if key == NAME then Ok(fs.(meta := fs.meta.(name := value), hasName := true))
    else if key == SIZE then
      var size := SizeOf(value);
      if size.Err? then Err(size.error) else Ok(fs.(meta := fs.meta.(size := size.value), hasSize := true))
    else if key == SHA256 then Ok(fs.(meta := fs.meta.(sha256 := value), hasSha256 := true))
    else if key == RESUME then
      var flag := ParseFlag(value);
      if flag.None? then Err(ProtocolError) else Ok(fs.(meta := fs.meta.(resume := flag.value)))
    else if key == SOURCE then
      var source := ParseSource(value);
      if source.None? then Err(ProtocolError) else Ok(fs.(meta := fs.meta.(source := source.value)))
    else Ok(fs)
  }

  datatype AckFields = AckFields(meta: BeginAck, hasOffset: bool)

  const NO_ACK_FIELDS: AckFields := AckFields(BeginAck(0, false), false)

  function OnAckField(fs: AckFields, key: Text, value: Text): Result<AckFields> {
    if key == OFFSET then
      var offset := SizeOf(value);
      if offset.Err? then Err(offset.error) else Ok(AckFields(fs.meta.(offset := offset.value), true))
    else if key == COMPLETE then
      var flag := ParseFlag(value);
      if flag.None? then Err(ProtocolError) else Ok(fs.(meta := fs.meta.(complete := flag.value)))
    else Ok(fs)
  }

  /** A line without a separator is skipped; otherwise the first separator divides key and value. */
  function OnLine<F>(onField: (F, Text, Text) -> Result<F>, fs: F, line: Text): Result<F> {
    var k := Find(line, EQUALS);
    if k == |line| then Ok(fs) else onField(fs, line[..k], line[k + 1..])
  }

  /** Line by line; a last line needs no newline, and nothing follows a final one. */
  function OnLines<F>(onField: (F, Text, Text) -> Result<F>, fs: F, t: Text): Result<F>
    decreases |t|
  {
    if t == [] then Ok(fs) else
      var end := Find(t, NEWLINE);
      var next := OnLine(onField, fs, t[..end]);
      if next.Err? || end == |t| then next else OnLines(onField, next.value, t[end + 1..])
  }

  function Finished(fs: Fields): Result<FileBegin> {
    if fs.hasName && fs.meta.name != [] && fs.hasSize && fs.hasSha256 && fs.meta.sha256 != [] then Ok(fs.meta)
    else Err(ProtocolError)
  }

  function FileBeginOf(t: Text): Result<FileBegin> {
    var fs := OnLines(OnField, NO_FIELDS, t);
    if fs.Err? then Err(fs.error) else Finished(fs.value)
  }

  function BeginAckOf(t: Text): Result<BeginAck> {
    if t == READY || t == [] then Ok(BeginAck(0, false)) else
      var fs := OnLines(OnAckField, NO_ACK_FIELDS, t);
      if fs.Err? then Err(fs.error) else if fs.value.hasOffset then Ok(fs.value.meta) else Err(ProtocolError)
  }

  // ----- The decoders as the program runs them -----

  method FindFrom(t: Text, b: Byte, start: nat) returns (end: nat)
    requires start <= |t|
    ensures end == start + Find(t[start..], b)
  {
    end := start;
    while end < |t| && t[end] != b
      invariant start <= end <= |t|
      invariant start + Find(t[start..], b) == end + Find(t[end..], b)
    {
      assert t[end..][1..] == t[end + 1..];
      end := end + 1;
    }
  }

  method ReadField(was: Fields, key: Text, value: Text) returns (r: Result<Fields>)
    ensures r == OnField(was, key, value)
  {
    hide SizeOf;
    var fs := was;
    if key == NAME {
      fs := fs.(meta := fs.meta.(name := value), hasName := true);
    } else if key == SIZE {
      var parsed := ParseSize(value);
      if parsed.Err? {
        return Err(parsed.error);
      }
      fs := fs.(meta := fs.meta.(size := parsed.value), hasSize := true);
    } else if key == SHA256 {
      fs := fs.(meta := fs.meta.(sha256 := value), hasSha256 := true);
    } else if key == RESUME {
      if value == [49] || value == TRUE {
        fs := fs.(meta := fs.meta.(resume := true));
      } else if value == [48] || value == FALSE {
        fs := fs.(meta := fs.meta.(resume := false));
      } else {
        return Err(ProtocolError);
      }
    } else if key == SOURCE {
      if value == FILE {
        fs := fs.(meta := fs.meta.(source := PlainFile));
      } else if value == CLIPBOARD_IMAGE {
        fs := fs.(meta := fs.meta.(source := ClipboardImage));
      } else {
        return Err(ProtocolError);
      }
    }
    r := Ok(fs);
  }

  method ReadAckField(was: AckFields, key: Text, value: Text) returns (r: Result<AckFields>)
    ensures r == OnAckField(was, key, value)
  {
    hide SizeOf;
    var fs := was;
    if key == OFFSET {
      var parsed := ParseSize(value);
      if parsed.Err? {
        return Err(parsed.error);
      }
      fs := AckFields(fs.meta.(offset := parsed.value), true);
    } else if key == COMPLETE {
      if value == [49] || value == TRUE {
        fs := fs.(meta := fs.meta.(complete := true));
      } else if value == [48] || value == FALSE {
        fs := fs.(meta := fs.meta.(complete := false));
      } else {
        return Err(ProtocolError);
      }
    }
    r := Ok(fs);
  }

  /** The line that starts at `start`, its end, and its key and value when it has a separator. */
  method NextLine(body: Text, start: nat) returns (end: nat, keyed: bool, key: Text, value: Text)
    requires start < |body|
    ensures end == start + Find(body[start..], NEWLINE)
    ensures var line := body[start..][..end - start];
            && keyed == (Find(line, EQUALS) < |line|)
            && (keyed ==> key == line[..Find(line, EQUALS)] && value == line[Find(line, EQUALS) + 1..])
  {
    end := FindFrom(body, NEWLINE, start);
    var line := body[start..end];
    assert line == body[start..][..end - start];
    var separator := FindFrom(line, EQUALS, 0);
    assert line[0..] == line;
    keyed, key, value := separator < |line|, [], [];
    if keyed {
      key, value := line[..separator], line[separator + 1..];
    }
  }

  /** What one more line does to a reading in progress. */
  lemma LinesStep<F>(onField: (F, Text, Text) -> Result<F>, fs: F, body: Text, start: nat)
    requires start < |body|
    ensures var end := start + Find(body[start..], NEWLINE);
            var next := OnLine(onField, fs, body[start..][..end - start]);
            OnLines(onField, fs, body[start..])
            == if next.Err? || end == |body| then next else OnLines(onField, next.value, body[end + 1..])
  {
    var end := start + Find(body[start..], NEWLINE);
    if end < |body| {
      assert body[start..][end - start + 1..] == body[end + 1..];
    }
  }

  lemma NoLines<F>(onField: (F, Text, Text) -> Result<F>, fs: F, t: Text)
    requires t == []
    ensures OnLines(onField, fs, t) == Ok(fs)
  {
  }

  method DecodeFileBegin(body: Text) returns (r: Result<FileBegin>)
    ensures r == FileBeginOf(body)
  {
    hide OnField, OnLines, Find;
    var fs := NO_FIELDS;
    var start := 0;
    assert body[0..] == body;
    while start < |body|
      invariant start <= |body|
      invariant OnLines(OnField, NO_FIELDS, body) == OnLines(OnField, fs, body[start..])
      decreases |body| - start
    {
      LinesStep(OnField, fs, body, start);
      var end, keyed, key, value := NextLine(body, start);
      if keyed {
        var next := ReadField(fs, key, value);
        if next.Err? {
          return Err(next.error);
        }
        fs := next.value;
      }
      if end == |body| {
        break;
      }
      start := end + 1;
    }
    NoLines(OnField, fs, body[|body|..]);
    if !fs.hasName || fs.meta.name == [] {
      return Err(ProtocolError);
    }
    if !fs.hasSize {
      return Err(ProtocolError);
    }
    if !fs.hasSha256 || fs.meta.sha256 == [] {
      return Err(ProtocolError);
    }
    r := Ok(fs.meta);
  }

  method DecodeBeginAck(body: Text) returns (r: Result<BeginAck>)
    ensures r == BeginAckOf(body)
  {
    hide OnAckField, OnLines, Find;
    if body == READY || body == [] {
      return Ok(BeginAck(0, false));
    }
    var fs := NO_ACK_FIELDS;
    var start := 0;
    assert body[0..] == body;
    while start < |body|
      invariant start <= |body|
      invariant OnLines(OnAckField, NO_ACK_FIELDS, body) == OnLines(OnAckField, fs, body[start..])
      decreases |body| - start
    {
      LinesStep(OnAckField, fs, body, start);
      var end, keyed, key, value := NextLine(body, start);
      if keyed {
        var next := ReadAckField(fs, key, value);
        if next.Err? {
          return Err(next.error);
        }
        fs := next.value;
      }
      if end == |body| {
        break;
      }
      start := end + 1;
    }
    NoLines(OnAckField, fs, body[|body|..]);
    if !fs.hasOffset {
      return Err(ProtocolError);
    }
    r := Ok(fs.meta);
  }

  // ----- Printing and reading undo each other -----

  lemma {:induction false} FindFirst(key: Text, b: Byte, rest: Text)
    requires b !in key
    ensures Find(key + [b] + rest, b) == |key|
  {
    var t := key + [b] + rest;
    if key == [] {
      assert t[0] == b;
    } else {
      assert t[1..] == key[1..] + [b] + rest;
      FindFirst(key[1..], b, rest);
    }
  }

  /** A printed line is read as the field it was printed from. */
  lemma ReadsLine<F>(onField: (F, Text, Text) -> Result<F>, fs: F, key: Text, value: Text, rest: Text)
    requires EQUALS !in key && NEWLINE !in key && NEWLINE !in value
    ensures var next := onField(fs, key, value);
            OnLines(onField, fs, Line(key, value) + rest) == if next.Err? then next else OnLines(onField, next.value, rest)
  {
    var t, line := Line(key, value) + rest, key + [EQUALS] + value;
    assert t == line + [NEWLINE] + rest;
    FindFirst(line, NEWLINE, rest);
    assert t[..|line|] == line && t[|line| + 1..] == rest;
    FindFirst(key, EQUALS, value);
    assert line[..|key|] == key && line[|key| + 1..] == value;
    if |line| == |t| - 1 {
      assert rest == [];
    }
  }

  ghost predicate Plain(t: Text) {
    t != [] && NEWLINE !in t
  }

  lemma {:induction false} DecimalIsPlain(n: nat)
    ensures Plain(Decimal(n))
  {
  }

  lemma ReadsFields(m: FileBegin)
    requires NEWLINE !in m.name && NEWLINE !in m.sha256
    ensures OnLines(OnField, NO_FIELDS, FileBeginText(m)) == Ok(Fields(m, true, true, true))
  {
    hide OnLines, Line, SizeOf;
    var fs0 := NO_FIELDS;
    var fs1 := fs0.(meta := fs0.meta.(name := m.name), hasName := true);
    var fs2 := fs1.(meta := fs1.meta.(size := m.size), hasSize := true);
    var fs3 := fs2.(meta := fs2.meta.(sha256 := m.sha256), hasSha256 := true);
    var fs4 := fs3.(meta := fs3.meta.(resume := m.resume));
    var last := Line(SOURCE, SourceName(m.source));
    var four := Line(RESUME, Flag(m.resume)) + last;
    var three := Line(SHA256, m.sha256) + four;
    var two := Line(SIZE, Decimal(m.size)) + three;
    ReadsLine(OnField, fs0, NAME, m.name, two);
    SizeRoundTrip(m.size);
    ReadsLine(OnField, fs1, SIZE, Decimal(m.size), three);
    ReadsLine(OnField, fs2, SHA256, m.sha256, four);
    ReadsLine(OnField, fs3, RESUME, Flag(m.resume), last);
    ReadsLine(OnField, fs4, SOURCE, SourceName(m.source), []);
    assert last + [] == last;
    NoLines(OnField, Fields(m, true, true, true), []);
  }

  // Names and hashes that are read come from one line.

  ghost predicate OneLiners(fs: Fields) {
    NEWLINE !in fs.meta.name && NEWLINE !in fs.meta.sha256
  }

  lemma {:induction false} ReadsOneLiners(fs: Fields, t: Text)
    requires OneLiners(fs) && OnLines(OnField, fs, t).Ok?
    ensures OneLiners(OnLines(OnField, fs, t).value)
    decreases |t|
  {
    hide SizeOf;
    if t != [] {
      var end := Find(t, NEWLINE);
      FieldOneLiner(fs, t[..end]);
      var next := OnLine(OnField, fs, t[..end]);
      if next.Ok? && end < |t| {
        ReadsOneLiners(next.value, t[end + 1..]);
      }
    }
  }

  lemma FieldOneLiner(fs: Fields, line: Text)
    requires OneLiners(fs) && NEWLINE !in line && OnLine(OnField, fs, line).Ok?
    ensures OneLiners(OnLine(OnField, fs, line).value)
  {
    hide SizeOf, Find;
  }

  /**
   What the sender announces is what the receiver reads, for every 64-bit size, exactly when name and hash are not
   empty and hold no newline. A name may hold any other character, the separator included.
   */
  lemma FileBeginRoundTrip(m: FileBegin)
    ensures FileBeginOf(FileBeginText(m)) == Ok(m) <==> Plain(m.name) && Plain(m.sha256)
  {
    hide OnLines, FileBeginText;
    if NEWLINE !in m.name && NEWLINE !in m.sha256 {
      ReadsFields(m);
    } else if OnLines(OnField, NO_FIELDS, FileBeginText(m)).Ok? {
      ReadsOneLiners(NO_FIELDS, FileBeginText(m));
    }
  }

  /** A file name may hold a newline; the receiver then reads, and stores under, a different name. */
  lemma NewlineCutsName(sha256: Text, size: U64)
    requires Plain(sha256)
    ensures var m := FileBegin([97, NEWLINE, 98], size, sha256, true, PlainFile);
            FileBeginOf(FileBeginText(m)) == Ok(m.(name := [97]))
  {
    hide OnLines, SizeOf;
    var m := FileBegin([97, NEWLINE, 98], size, sha256, true, PlainFile);
    var cut := FileBegin([97], size, sha256, true, PlainFile);
    var rest := Line(SIZE, Decimal(size)) + (Line(SHA256, sha256) + (Line(RESUME, Flag(true)) + Line(SOURCE, FILE)));
    var named := NO_FIELDS.(meta := NO_FIELDS.meta.(name := [97]), hasName := true);
    assert FileBeginText(m) == Line(NAME, [97]) + ([98] + [NEWLINE] + rest);
    ReadsLine(OnField, NO_FIELDS, NAME, [97], [98] + [NEWLINE] + rest);
    SkipsLine(OnField, named, [98], rest);
    ReadsLine(OnField, NO_FIELDS, NAME, [97], rest);
    assert FileBeginText(cut) == Line(NAME, [97]) + rest;
    ReadsFields(cut);
    assert OnLines(OnField, NO_FIELDS, FileBeginText(m)) == Ok(Fields(cut, true, true, true));
  }

  /** A line without a separator is passed over. */
  lemma SkipsLine<F>(onField: (F, Text, Text) -> Result<F>, fs: F, line: Text, rest: Text)
    requires EQUALS !in line && NEWLINE !in line
    ensures OnLines(onField, fs, line + [NEWLINE] + rest) == OnLines(onField, fs, rest)
  {
    var t := line + [NEWLINE] + rest;
    FindFirst(line, NEWLINE, rest);
    assert t[..|line|] == line && t[|line| + 1..] == rest;
    if rest == [] {
      assert OnLines(onField, fs, rest) == Ok(fs);
    }
  }

  lemma BeginAckRoundTrip(m: BeginAck)
    ensures BeginAckOf(BeginAckText(m)) == Ok(m)
  {
    hide OnLines, SizeOf, Line;
    var t, last := BeginAckText(m), Line(COMPLETE, Flag(m.complete));
    LongerThanReady(m);
    var fs := AckFields(BeginAck(m.offset, false), true);
    SizeRoundTrip(m.offset);
    DecimalIsPlain(m.offset);
    ReadsLine(OnAckField, NO_ACK_FIELDS, OFFSET, Decimal(m.offset), last);
    assert OnAckField(NO_ACK_FIELDS, OFFSET, Decimal(m.offset)) == Ok(fs);
    ReadsLine(OnAckField, fs, COMPLETE, Flag(m.complete), []);
    assert OnAckField(fs, COMPLETE, Flag(m.complete)) == Ok(AckFields(m, true));
    assert last + [] == last;
    NoLines(OnAckField, AckFields(m, true), []);
    AckFinished(t, AckFields(m, true));
  }

  lemma AckFinished(t: Text, fs: AckFields)
    requires t != READY && t != [] && OnLines(OnAckField, NO_ACK_FIELDS, t) == Ok(fs) && fs.hasOffset
    ensures BeginAckOf(t) == Ok(fs.meta)
  {
    hide OnLines, OnAckField;
  }

  lemma LongerThanReady(m: BeginAck)
    ensures |BeginAckText(m)| > |READY|
  {
  }
}
