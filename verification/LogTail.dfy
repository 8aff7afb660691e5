/** The incremental log reader of `log_viewer.py` and its backward block scan. */
module LogTail {
  import opened Common

  newtype Byte = b: int | 0 <= b < 256
  type Line = seq<Byte>

  const LF: Byte := 10
  const CR: Byte := 13
  const BLOCK_SIZE: nat := 65_536

  // ---------------------------------------------------------------------------
  // Lines
  // ---------------------------------------------------------------------------

  /** Length of the first line of `s`, its terminator (LF, CR or CR LF) included. */
  function LineEnd(s: seq<Byte>): (n: nat)
    requires s != []
    ensures 1 <= n <= |s|
  {
    if s[0] == LF then 1
    else if s[0] == CR then (if |s| > 1 && s[1] == LF then 2 else 1)
    else if |s| == 1 then 1
    else 1 + LineEnd(s[1..])
  }

  /** `bytes.splitlines(keepends=True)`. */
  function SplitLines(s: seq<Byte>): (lines: seq<Line>)
  {
    if s == [] then [] else [s[..LineEnd(s)]] + SplitLines(s[LineEnd(s)..])
  }

  function TotalLength(lines: seq<Line>): nat {
    if lines == [] then 0 else |lines[0]| + TotalLength(lines[1..])
  }

  function CountLF(s: seq<Byte>): nat {
    if s == [] then 0 else (if s[0] == LF then 1 else 0) + CountLF(s[1..])
  }

  /** `p` does not cut a line of `s` in two. */
  predicate IsLineBoundary(s: seq<Byte>, p: nat)
    requires p <= |s|
  {
    || p == 0
    || p == |s|
    || s[p - 1] == LF
    || (s[p - 1] == CR && s[p] != LF)
  }

  /** Only whole lines, the last one ended by LF. */
  predicate IsWholeLines(s: seq<Byte>) {
    s == [] || s[|s| - 1] == LF
  }

  lemma {:induction false} LineEndIsBoundary(s: seq<Byte>)
    requires s != []
    ensures IsLineBoundary(s, LineEnd(s))
  {
    if s[0] != LF && s[0] != CR && |s| > 1 {
      LineEndIsBoundary(s[1..]);
    }
  }

  lemma {:induction false} FirstLineOfPrefix(s: seq<Byte>, p: nat)
    requires 0 < p <= |s| && IsLineBoundary(s, p)
    ensures LineEnd(s) <= p && LineEnd(s[..p]) == LineEnd(s)
  {
    if s[0] != LF && s[0] != CR && |s| > 1 {
      if p > 1 {
        assert s[1..][..p - 1] == s[..p][1..];
        FirstLineOfPrefix(s[1..], p - 1);
      }
    }
  }

  lemma SplitFirstLine(s: seq<Byte>, n: nat, line: Line, rest: seq<Byte>)
    requires s != [] && n == LineEnd(s) && line == s[..n] && rest == s[n..]
    ensures SplitLines(s) == [line] + SplitLines(rest)
  {
  }

  /** Cutting at a line boundary cuts the list of lines. */
  lemma {:induction false} SplitAtBoundary(s: seq<Byte>, p: nat, a: seq<Byte>, b: seq<Byte>)
    requires p <= |s| && IsLineBoundary(s, p) && a == s[..p] && b == s[p..]
    ensures SplitLines(s) == SplitLines(a) + SplitLines(b)
    decreases |s|
  {
    if p == 0 {
      assert b == s;
    } else {
      var n := LineEnd(s);
      var rest := s[n..];
      FirstLineOfPrefix(s, p);
      assert IsLineBoundary(rest, p - n) by {
        LineEndIsBoundary(s);
      }
      SplitAtBoundary(rest, p - n, a[n..], b);
      SplitFirstLine(s, n, s[..n], rest);
      SplitFirstLine(a, n, s[..n], a[n..]);
      ConcatIsAssociative([s[..n]], SplitLines(a[n..]), SplitLines(b));
    }
  }

  lemma SplitWholeLines(a: seq<Byte>, b: seq<Byte>)
    requires IsWholeLines(a)
    ensures SplitLines(a + b) == SplitLines(a) + SplitLines(b)
  {
    DropPrefixOfConcat(a, b);
    SplitAtBoundary(a + b, |a|, a, b);
  }

  /** Dropping the first `k` lines drops exactly their bytes, at a line boundary. */
  lemma {:induction false} DropLines(s: seq<Byte>, k: nat)
    requires k <= |SplitLines(s)|
    ensures TotalLength(SplitLines(s)[..k]) <= |s|
    ensures k > 0 ==> TotalLength(SplitLines(s)[..k]) > 0
    ensures IsLineBoundary(s, TotalLength(SplitLines(s)[..k]))
    ensures SplitLines(s[TotalLength(SplitLines(s)[..k])..]) == SplitLines(s)[k..]
    decreases k
  {
    if k == 0 {
      assert s[0..] == s;
    } else {
      var rest := s[LineEnd(s)..];
      LineEndIsBoundary(s);
      DropLines(rest, k - 1);
      DropOneMore(s, LineEnd(s), rest, SplitLines(rest), k);
    }
  }

  lemma DropOneMore(s: seq<Byte>, n: nat, rest: seq<Byte>, restLines: seq<Line>, k: nat)
    requires 0 < n <= |s| && rest == s[n..] && IsLineBoundary(s, n) && 0 < k <= |restLines| + 1
    requires TotalLength(restLines[..k - 1]) <= |rest| && IsLineBoundary(rest, TotalLength(restLines[..k - 1]))
    requires SplitLines(rest[TotalLength(restLines[..k - 1])..]) == restLines[k - 1..]
    ensures var lines := [s[..n]] + restLines; var p := TotalLength(lines[..k]);
      0 < p <= |s| && IsLineBoundary(s, p) && SplitLines(s[p..]) == lines[k..]
  {
    var p := TotalLength(restLines[..k - 1]);
    var lines := [s[..n]] + restLines;
    assert lines[..k] == [s[..n]] + restLines[..k - 1];
    assert TotalLength(lines[..k]) == n + p;
    assert rest[p..] == s[n + p..];
    assert lines[k..] == restLines[k - 1..];
  }

  lemma {:induction false} TotalLengthOfSplit(s: seq<Byte>, k: nat)
    requires k <= |SplitLines(s)|
    ensures TotalLength(SplitLines(s)[..k]) + TotalLength(SplitLines(s)[k..]) == |s|
    decreases |s|
  {
    var lines := SplitLines(s);
    if s != [] {
      var rest := s[LineEnd(s)..];
      if k == 0 {
        TotalLengthOfSplit(rest, 0);
        assert SplitLines(rest)[0..] == SplitLines(rest);
        assert lines[0..] == lines && lines[1..] == SplitLines(rest);
      } else {
        TotalLengthOfSplit(rest, k - 1);
        assert lines[..k][1..] == SplitLines(rest)[..k - 1];
        assert lines[k..] == SplitLines(rest)[k - 1..];
      }
    }
  }

  lemma {:induction false} CountLFOfConcat(a: seq<Byte>, b: seq<Byte>)
    ensures CountLF(a + b) == CountLF(a) + CountLF(b)
  {
    if a == [] {
      assert a + b == b;
    } else {
      assert (a + b)[1..] == a[1..] + b;
      CountLFOfConcat(a[1..], b);
    }
  }

  lemma {:induction false} FirstLineHasOneLF(s: seq<Byte>)
    requires s != []
    ensures CountLF(s[..LineEnd(s)]) <= 1
  {
    var line := s[..LineEnd(s)];
    if s[0] == LF || s[0] == CR || |s| == 1 {
      if |line| == 2 {
        assert line == [CR, LF];
        assert CountLF([LF]) == 1;
        assert line[1..] == [LF];
      } else {
        assert line[1..] == [];
      }
    } else {
      FirstLineHasOneLF(s[1..]);
      assert line[1..] == s[1..][..LineEnd(s[1..])];
    }
  }

  /** The scan counts only LF, so it never over-counts the lines it holds. */
  lemma {:induction false} EveryLFEndsALine(s: seq<Byte>)
    ensures CountLF(s) <= |SplitLines(s)|
    decreases |s|
  {
    if s != [] {
      var n := LineEnd(s);
      FirstLineHasOneLF(s);
      CountLFOfConcat(s[..n], s[n..]);
      assert s == s[..n] + s[n..];
      EveryLFEndsALine(s[n..]);
    }
  }

  // ---------------------------------------------------------------------------
  // Backward block scan
  // ---------------------------------------------------------------------------

  /** Where the last `n` lines of `content` start, read off the whole file. */
  function TailOffset(content: seq<Byte>, n: nat): (offset: nat)
    ensures offset <= |content|
  {
    TotalLengthOfSplit(content, |SplitLines(content)| - |LastN(SplitLines(content), n)|);
    |content| - TotalLength(LastN(SplitLines(content), n))
  }

  /** The offset is a line boundary and the suffix it starts is the last `n` lines. */
  lemma TailOffsetIsExact(content: seq<Byte>, n: nat)
    ensures IsLineBoundary(content, TailOffset(content, n))
    ensures SplitLines(content[TailOffset(content, n)..]) == LastN(SplitLines(content), n)
    ensures |SplitLines(content)| <= n ==> TailOffset(content, n) == 0
  {
    var lines := SplitLines(content);
    var k := |lines| - |LastN(lines, n)|;
    assert LastN(lines, n) == lines[k..];
    OffsetOfDropped(content, k);
  }

  lemma OffsetOfDropped(content: seq<Byte>, k: nat)
    requires k <= |SplitLines(content)|
    ensures var lines := SplitLines(content);
      var offset := |content| - TotalLength(lines[k..]);
      && 0 <= offset <= |content| && IsLineBoundary(content, offset)
      && SplitLines(content[offset..]) == lines[k..] && (k == 0 ==> offset == 0)
  {
    TotalLengthOfSplit(content, k);
    DropLines(content, k);
  }

  /** A block suffix that holds more than `n` lines ends in the same `n` lines as the whole file. */
  lemma LinesOfBlockSuffix(content: seq<Byte>, cursor: nat, n: nat)
    requires cursor <= |content| && |SplitLines(content[cursor..])| > n
    ensures LastN(SplitLines(content), n) == LastN(SplitLines(content[cursor..]), n)
  {
    var suffix := content[cursor..];
    var lines := SplitLines(suffix);
    var k := |lines| - n;
    DropLines(suffix, k);
    var p := TotalLength(lines[..k]);
    assert suffix[p..] == content[cursor + p..];
    SplitAtBoundary(content, cursor + p, content[..cursor + p], suffix[p..]);
    assert SplitLines(content) == SplitLines(content[..cursor + p]) + lines[k..];
    LastNOfConcat(SplitLines(content[..cursor + p]), lines[k..], n);
  }

  lemma BlockSuffixSuffices(content: seq<Byte>, cursor: nat, n: nat)
    requires cursor <= |content|
    requires |SplitLines(content[cursor..])| > n || cursor == 0
    ensures cursor + TailOffset(content[cursor..], n) == TailOffset(content, n)
  {
    if cursor == 0 {
      assert content[0..] == content;
    } else {
      LinesOfBlockSuffix(content, cursor, n);
    }
  }

  /** `_bounded_tail_offset`: read blocks backwards until more than `n` LF are buffered. */
  method BoundedTailOffset(content: seq<Byte>, n: nat, blockSize: nat) returns (offset: nat)
    requires blockSize >= 1
    ensures offset == TailOffset(content, n)
    ensures offset <= |content| && IsLineBoundary(content, offset)
    ensures SplitLines(content[offset..]) == LastN(SplitLines(content), n)
  {
    TailOffsetIsExact(content, n);
    if |content| == 0 {
      return 0;
    }
    var cursor := |content|;
    var buffered: seq<Byte> := [];
    while cursor > 0 && CountLF(buffered) <= n
      invariant 0 <= cursor <= |content|
      invariant buffered == content[cursor..]
    {
      var block := if blockSize < cursor then blockSize else cursor;
      cursor := cursor - block;
      buffered := content[cursor..cursor + block] + buffered;
    }
    var lines := SplitLines(buffered);
    BufferedTail(content, cursor, n, buffered);
    if |lines| <= n {
      return cursor;
    }
    offset := |content| - TotalLength(LastN(lines, n));
  }

  /** Once the buffer holds more than `n` LF, or the whole file, the offset can be read off it. */
  lemma BufferedTail(content: seq<Byte>, cursor: nat, n: nat, buffered: seq<Byte>)
    requires cursor <= |content| && buffered == content[cursor..] && (cursor == 0 || CountLF(buffered) > n)
    ensures var lines := SplitLines(buffered);
      TailOffset(content, n) == if |lines| <= n then cursor else |content| - TotalLength(LastN(lines, n))
  {
    EveryLFEndsALine(buffered);
    BlockSuffixSuffices(content, cursor, n);
    TailOffsetIsExact(buffered, n);
  }

  // ---------------------------------------------------------------------------
  // Records
  // ---------------------------------------------------------------------------

  /** `json.loads` of each line, keeping only the lines that hold an object. */
  function Decode<R>(decode: Line -> Option<R>, lines: seq<Line>): seq<R> {
    if lines == [] then []
    else (match decode(lines[0]) case Some(r) => [r] case None => []) + Decode(decode, lines[1..])
  }

  /** The simple form: parse the whole file. */
  function Parse<R>(decode: Line -> Option<R>, content: seq<Byte>): seq<R> {
    Decode(decode, SplitLines(content))
  }

  predicate AllDecode<R>(decode: Line -> Option<R>, lines: seq<Line>) {
    forall i :: 0 <= i < |lines| ==> decode(lines[i]).Some?
  }

  predicate NoneDecode<R>(decode: Line -> Option<R>, lines: seq<Line>) {
    forall i :: 0 <= i < |lines| ==> decode(lines[i]).None?
  }

  lemma {:induction false} DecodeOfConcat<R>(decode: Line -> Option<R>, a: seq<Line>, b: seq<Line>)
    ensures Decode(decode, a + b) == Decode(decode, a) + Decode(decode, b)
  {
    if a == [] {
      assert a + b == b;
    } else {
      assert (a + b)[1..] == a[1..] + b;
      DecodeOfConcat(decode, a[1..], b);
    }
  }

  lemma {:induction false} DecodeLength<R>(decode: Line -> Option<R>, lines: seq<Line>)
    ensures |Decode(decode, lines)| <= |lines|
    ensures |Decode(decode, lines)| == |lines| <==> AllDecode(decode, lines)
    ensures |Decode(decode, lines)| == 0 <==> NoneDecode(decode, lines)
  {
    if lines != [] {
      DecodeLength(decode, lines[1..]);
      assert AllDecode(decode, lines) <==> decode(lines[0]).Some? && AllDecode(decode, lines[1..]) by {
        assert lines == [lines[0]] + lines[1..];
      }
      assert NoneDecode(decode, lines) <==> decode(lines[0]).None? && NoneDecode(decode, lines[1..]) by {
        assert lines == [lines[0]] + lines[1..];
      }
    }
  }

  lemma ParseWholeLines<R>(decode: Line -> Option<R>, a: seq<Byte>, b: seq<Byte>)
    requires IsWholeLines(a)
    ensures Parse(decode, a + b) == Parse(decode, a) + Parse(decode, b)
  {
    SplitWholeLines(a, b);
    DecodeOfConcat(decode, SplitLines(a), SplitLines(b));
  }

  lemma EndIsTail<R>(x: seq<R>, y: seq<R>, n: nat)
    requires |y| <= n
    ensures LastN(x + y, n) == y <==> x == [] || |y| == n
  {
    if x == [] {
      assert x + y == y;
    } else if |y| == n {
      assert LastN(x + y, n) == y;
    } else {
      assert |LastN(x + y, n)| > |y|;
    }
  }

  lemma TailDecodes<R>(decode: Line -> Option<R>, skipped: seq<Line>, tail: seq<Line>, n: nat)
    requires |tail| <= n && (skipped == [] || |tail| == n)
    ensures LastN(Decode(decode, skipped + tail), n) == Decode(decode, tail)
      <==> NoneDecode(decode, skipped) || AllDecode(decode, tail)
  {
    DecodeOfConcat(decode, skipped, tail);
    DecodeLength(decode, tail);
    DecodeLength(decode, skipped);
    EndIsTail(Decode(decode, skipped), Decode(decode, tail), n);
  }

  lemma ParseOfTail<R>(decode: Line -> Option<R>, content: seq<Byte>, n: nat)
    ensures Parse(decode, content[TailOffset(content, n)..]) == Decode(decode, LastN(SplitLines(content), n))
  {
    TailOffsetIsExact(content, n);
  }

  /** Exactly when parsing the tail of an arbitrary file gives the last `n` objects of the whole file. */
  lemma TailParseExact<R>(decode: Line -> Option<R>, content: seq<Byte>, n: nat)
    ensures
      var tail := LastN(SplitLines(content), n);
      var skipped := SplitLines(content)[..|SplitLines(content)| - |tail|];
      LastN(Parse(decode, content), n) == Parse(decode, content[TailOffset(content, n)..])
      <==> (NoneDecode(decode, skipped) || AllDecode(decode, tail))
  {
    ParseOfTail(decode, content, n);
    var lines := SplitLines(content);
    var tail := LastN(lines, n);
    var skipped := lines[..|lines| - |tail|];
    assert lines == skipped + tail;
    TailDecodes(decode, skipped, tail, n);
  }

  // ---------------------------------------------------------------------------
  // The reader
  // ---------------------------------------------------------------------------

  const UNAVAILABLE := "Log file is unavailable."
  const UNREADABLE := "Log file is temporarily unreadable."

  datatype FileId = FileId(device: nat, inode: nat)

  /** How an attempt to open the file ends. */
  datatype Access = Opened | Vanished | Failed

  /**
   * What one call sees of the file system.  `Stat` carries the bytes the file had at `stat` and the
   * (possibly longer) bytes it has when it is read.
   */
  datatype View =
    | Absent
    | StatFailed
    | Stat(id: FileId, atStat: seq<Byte>, tailScan: Access, open: Access, atRead: seq<Byte>)

  datatype Reader<R> = Reader(records: seq<R>, position: nat, identity: Option<FileId>, lastError: Option<string>)

  function NewReader<R>(): Reader<R> {
    Reader([], 0, None, None)
  }

  function Gone<R>(s: Reader<R>): Reader<R> {
    s.(lastError := Some(UNAVAILABLE), identity := None, position := 0)
  }

  function Busy<R>(s: Reader<R>): Reader<R> {
    s.(lastError := Some(UNREADABLE))
  }

  function StartPosition<R>(s: Reader<R>, n: nat, id: FileId, atStat: seq<Byte>): nat {
    if s.identity != Some(id) then TailOffset(atStat, n)
    else if |atStat| < s.position then 0
    else s.position
  }

  /** The new objects a read from `position` meets, and where it ends. */
  function ReadFrom<R>(decode: Line -> Option<R>, atRead: seq<Byte>, position: nat): (seq<R>, nat) {
    if position <= |atRead| then (Parse(decode, atRead[position..]), |atRead|) else ([], position)
  }

  /** One `read_new_records` call as a function of the reader's state. */
  function ReadNew<R>(s: Reader<R>, n: nat, decode: Line -> Option<R>, v: View): (Reader<R>, seq<R>) {
    match v
    case Absent => (Gone(s), [])
    case StatFailed => (Busy(s), [])
    case Stat(id, atStat, tailScan, open, atRead) =>
      if s.identity != Some(id) && atStat != [] && tailScan.Vanished? then (Gone(s), [])
      else if s.identity != Some(id) && atStat != [] && tailScan.Failed? then (Busy(s), [])
      else
        var position := StartPosition(s, n, id, atStat);
        var placed := s.(position := position, identity := Some(id));
        if |atStat| == position then (placed.(lastError := None), [])
        else if open.Vanished? then (Gone(placed), [])
        else if open.Failed? then (Busy(placed), [])
        else
          var (found, end) := ReadFrom(decode, atRead, position);
          (Reader(LastN(s.records + found, n), end, Some(id), None), found)
  }

  class IncrementalLogSource<R> {
    const maxRecords: nat
    const decode: Line -> Option<R>
    var records: seq<R>
    var position: nat
    var fileIdentity: Option<FileId>
    var lastError: Option<string>

    constructor (maxRecords: int, decode: Line -> Option<R>)
      ensures State() == NewReader()
      ensures this.decode == decode
      ensures this.maxRecords == if maxRecords < 1 then 1 else maxRecords
    {
      this.maxRecords := if maxRecords < 1 then 1 else maxRecords;
      this.decode := decode;
      records, position, fileIdentity, lastError := [], 0, None, None;
    }

    ghost function State(): Reader<R>
      reads this
    {
      Reader(records, position, fileIdentity, lastError)
    }

    /** `read_new_records`. */
    method ReadNewRecords(v: View) returns (newRecords: seq<R>)
      requires maxRecords >= 1
      modifies this
      ensures (State(), newRecords) == ReadNew(old(State()), maxRecords, decode, v)
    {
      newRecords := [];
      if v.Absent? {
        NoteMissing();
        return;
      }
      if v.StatFailed? {
        lastError := Some(UNREADABLE);
        return;
      }
      if fileIdentity == None || fileIdentity != Some(v.id) {
        if v.atStat != [] && v.tailScan.Vanished? {
          NoteMissing();
          return;
        }
        if v.atStat != [] && v.tailScan.Failed? {
          lastError := Some(UNREADABLE);
          return;
        }
        position := BoundedTailOffset(v.atStat, maxRecords, BLOCK_SIZE);
      } else if |v.atStat| < position {
        position := 0;
      }
      fileIdentity := Some(v.id);
      if |v.atStat| == position {
        lastError := None;
        return;
      }
      if v.open.Vanished? {
        NoteMissing();
        return;
      }
      if v.open.Failed? {
        lastError := Some(UNREADABLE);
        return;
      }
      newRecords := ReadOpened(v.atRead);
    }

    /** The part under the open file. */
    method ReadOpened(atRead: seq<Byte>) returns (newRecords: seq<R>)
      requires maxRecords >= 1
      modifies this`records, this`position, this`lastError
      ensures var (found, end) := ReadFrom(decode, atRead, old(position));
        newRecords == found && State() == Reader(LastN(old(records) + found, maxRecords), end, fileIdentity, None)
    {
      newRecords := ReadLines(if position <= |atRead| then atRead[position..] else []);
      position := if position <= |atRead| then |atRead| else position;
      lastError := None;
      records := records + newRecords;
      if |records| > maxRecords {
        records := records[|records| - maxRecords..];
      }
    }

    method NoteMissing()
      modifies this
      ensures State() == Gone(old(State()))
    {
      lastError := Some(UNAVAILABLE);
      fileIdentity := None;
      position := 0;
    }

    /** The loop over the lines of the opened file. */
    method ReadLines(bytes: seq<Byte>) returns (found: seq<R>)
      ensures found == Parse(decode, bytes)
    {
      found := [];
      var lines := SplitLines(bytes);
      for i := 0 to |lines|
        invariant found == Decode(decode, lines[..i])
      {
        DecodeOfConcat(decode, lines[..i], [lines[i]]);
        assert lines[..i + 1] == lines[..i] + [lines[i]];
        match decode(lines[i]) {
          case None =>
          case Some(r) => found := found + [r];
        }
      }
      assert lines[..|lines|] == lines;
    }
  }

  // ---------------------------------------------------------------------------
  // Runs: a writer, a log rotator and the reader
  // ---------------------------------------------------------------------------

  /** What happens to the file, and what the reader does, in any order. */
  datatype Event =
    | Append(chunk: seq<Byte>)                                   // the writer adds whole lines
    | Rotate(newId: FileId, newContent: seq<Byte>)               // the path names another file
    | Truncate(shorter: seq<Byte>)                               // the same file, cut below the position
    | ReadCall(tailScan: Access, open: Access, growth: seq<Byte>) // a read; the file may grow meanwhile
    | ReadWhileAbsent
    | ReadWhileStatFails

  /**
   * The file, the reader, and what the reader owes: `closed` holds the objects of the files it has
   * lost track of, `seen` the bytes of the current one as of the last read that got through.
   */
  datatype World<R> = World(reader: Reader<R>, id: FileId, content: seq<Byte>, seen: seq<Byte>, closed: seq<R>)

  function Close<R>(w: World<R>, decode: Line -> Option<R>): World<R> {
    w.(closed := w.closed + Parse(decode, w.seen), seen := [])
  }

  /** All the objects read so far, by whole-file parsing. */
  function History<R>(w: World<R>, decode: Line -> Option<R>): seq<R> {
    w.closed + Parse(decode, w.seen)
  }

  function AfterRead<R>(w: World<R>, decode: Line -> Option<R>, reader: Reader<R>): World<R> {
    var w' := w.(reader := reader);
    if reader.lastError.None? && reader.position <= |w.content| then w'.(seen := w.content[..reader.position])
    else if reader.identity.None? then Close(w', decode)
    else w'
  }

  function Apply<R>(w: World<R>, n: nat, decode: Line -> Option<R>, e: Event): World<R> {
    match e
    case Append(chunk) => w.(content := w.content + chunk)
    case Rotate(newId, newContent) => Close(w, decode).(id := newId, content := newContent)
    case Truncate(shorter) => Close(w, decode).(content := shorter)
    case ReadCall(tailScan, open, growth) =>
      var grown := w.(content := w.content + growth);
      AfterRead(grown, decode, ReadNew(w.reader, n, decode, Stat(w.id, w.content, tailScan, open, grown.content)).0)
    case ReadWhileAbsent => AfterRead(w, decode, ReadNew(w.reader, n, decode, Absent).0)
    case ReadWhileStatFails => AfterRead(w, decode, ReadNew(w.reader, n, decode, StatFailed).0)
  }

  /** A truncation the reader has not noticed yet. */
  predicate CutBelowPosition<R>(w: World<R>) {
    w.reader.identity == Some(w.id) && |w.content| < w.reader.position
  }

  predicate GoodBytes<R>(decode: Line -> Option<R>, bytes: seq<Byte>) {
    IsWholeLines(bytes) && AllDecode(decode, SplitLines(bytes))
  }

  /** The environment: whole decodable lines, identities that change, truncations noticed before regrowth. */
  predicate Allowed<R>(w: World<R>, decode: Line -> Option<R>, e: Event) {
    match e
    case Append(chunk) => GoodBytes(decode, chunk) && !CutBelowPosition(w)
    case Rotate(newId, newContent) => GoodBytes(decode, newContent) && w.reader.identity != Some(newId)
    case Truncate(shorter) =>
      GoodBytes(decode, shorter) && w.reader.identity == Some(w.id) && |shorter| < w.reader.position
    case ReadCall(_, _, growth) => GoodBytes(decode, growth)
    case ReadWhileAbsent => true
    case ReadWhileStatFails => true
  }

  predicate AllowedRun<R>(w: World<R>, n: nat, decode: Line -> Option<R>, events: seq<Event>)
    decreases |events|
  {
    events == []
    || (Allowed(w, decode, events[0]) && AllowedRun(Apply(w, n, decode, events[0]), n, decode, events[1..]))
  }

  function Run<R>(w: World<R>, n: nat, decode: Line -> Option<R>, events: seq<Event>): World<R>
    decreases |events|
  {
    if events == [] then w else Run(Apply(w, n, decode, events[0]), n, decode, events[1..])
  }

  /** Reading from the position loses nothing that the last `n` objects need. */
  predicate CaughtUp<R>(w: World<R>, n: nat, decode: Line -> Option<R>) {
    && w.reader.position <= |w.content|
    && IsLineBoundary(w.content, w.reader.position)
    && if w.seen == w.content[..w.reader.position] then IsWholeLines(w.seen)
       else w.seen == [] && |Parse(decode, w.content[w.reader.position..])| >= n
  }

  ghost predicate Inv<R>(w: World<R>, n: nat, decode: Line -> Option<R>) {
    && w.reader.records == LastN(History(w, decode), n)
    && GoodBytes(decode, w.content)
    && if w.reader.identity == Some(w.id) && !CutBelowPosition(w) then CaughtUp(w, n, decode) else w.seen == []
  }

  lemma CloseKeepsHistory<R>(w: World<R>, decode: Line -> Option<R>)
    ensures History(Close(w, decode), decode) == History(w, decode)
  {
  }

  lemma GrowthStaysGood<R>(decode: Line -> Option<R>, a: seq<Byte>, b: seq<Byte>)
    requires GoodBytes(decode, a) && GoodBytes(decode, b)
    ensures GoodBytes(decode, a + b)
  {
    SplitWholeLines(a, b);
  }

  lemma BoundarySurvivesGrowth(a: seq<Byte>, b: seq<Byte>, p: nat)
    requires IsWholeLines(a) && p <= |a| && IsLineBoundary(a, p)
    ensures IsLineBoundary(a + b, p)
  {
  }

  /** Growth keeps a reader caught up. */
  lemma GrowthKeepsCaughtUp<R>(w: World<R>, n: nat, decode: Line -> Option<R>, chunk: seq<Byte>)
    requires CaughtUp(w, n, decode) && GoodBytes(decode, w.content) && GoodBytes(decode, chunk)
    ensures CaughtUp(w.(content := w.content + chunk), n, decode)
  {
    var p := w.reader.position;
    var grown := w.content + chunk;
    BoundarySurvivesGrowth(w.content, chunk, p);
    assert grown[..p] == w.content[..p];
    if w.seen != w.content[..p] {
      var tail := w.content[p..];
      assert grown[p..] == tail + chunk;
      assert IsWholeLines(tail);
      ParseWholeLines(decode, tail, chunk);
    }
  }

  /** What a caught-up reader gets by reading to the end of the file. */
  lemma ReadToEnd<R>(w: World<R>, n: nat, decode: Line -> Option<R>)
    requires CaughtUp(w, n, decode) && w.reader.records == LastN(History(w, decode), n)
    ensures LastN(w.reader.records + Parse(decode, w.content[w.reader.position..]), n)
         == LastN(w.closed + Parse(decode, w.content), n)
  {
    var p := w.reader.position;
    var head, tail := w.content[..p], w.content[p..];
    assert w.content == head + tail;
    LastNOfConcat(History(w, decode), Parse(decode, tail), n);
    SplitAtBoundary(w.content, p, head, tail);
    DecodeOfConcat(decode, SplitLines(head), SplitLines(tail));
    ConcatIsAssociative(w.closed, Parse(decode, head), Parse(decode, tail));
    if w.seen != head {
      LastNOfConcat(w.closed + Parse(decode, head), Parse(decode, tail), n);
    }
  }

  /** Taking up a file: the tail offset leaves the reader caught up with nothing seen. */
  lemma TakeUpFile<R>(w: World<R>, n: nat, decode: Line -> Option<R>)
    requires GoodBytes(decode, w.content) && w.seen == [] && n >= 1
    requires w.reader.position == TailOffset(w.content, n)
    ensures CaughtUp(w, n, decode)
    ensures w.reader.position == |w.content| ==> w.content == []
  {
    var lines := SplitLines(w.content);
    TailOffsetIsExact(w.content, n);
    if w.seen != w.content[..w.reader.position] {
      assert |lines| > n;
      DecodeLength(decode, LastN(lines, n));
    }
    if w.reader.position == |w.content| {
      assert w.content[w.reader.position..] == [];
      assert LastN(lines, n) == [];
    }
  }

  /** Where a reader stands once it has chosen its start position. */
  function Placed<R>(w: World<R>, n: nat): World<R> {
    w.(reader := w.reader.(position := StartPosition(w.reader, n, w.id, w.content), identity := Some(w.id)))
  }

  lemma PlacingCatchesUp<R>(w: World<R>, n: nat, decode: Line -> Option<R>)
    requires Inv(w, n, decode) && n >= 1
    ensures Placed(w, n).reader.records == LastN(History(Placed(w, n), decode), n)
    ensures CaughtUp(Placed(w, n), n, decode)
    ensures !CutBelowPosition(Placed(w, n))
    ensures Placed(w, n).reader.position == |w.content| ==> w.seen == w.content
  {
    var w' := Placed(w, n);
    if w.reader.identity != Some(w.id) {
      TakeUpFile(w', n, decode);
    }
    if w'.reader.position == |w.content| {
      assert w.content[|w.content|..] == [] && w.content[..|w.content|] == w.content;
    }
  }

  /** The part of a read after the start position is chosen, from a caught-up world that may grow. */
  lemma PlacedReadKeepsInv<R>(w: World<R>, n: nat, decode: Line -> Option<R>, growth: seq<Byte>)
    requires CaughtUp(w, n, decode) && w.reader.records == LastN(History(w, decode), n)
    requires GoodBytes(decode, w.content) && GoodBytes(decode, growth) && n >= 1
    requires w.reader.identity == Some(w.id)
    ensures var grown := w.(content := w.content + growth);
      var (found, end) := ReadFrom(decode, grown.content, w.reader.position);
      Inv(grown.(reader := Reader(LastN(w.reader.records + found, n), end, Some(w.id), None), seen := grown.content),
          n, decode)
  {
    var grown := w.(content := w.content + growth);
    GrowthStaysGood(decode, w.content, growth);
    GrowthKeepsCaughtUp(w, n, decode, growth);
    ReadToEnd(grown, n, decode);
    assert grown.content[..|grown.content|] == grown.content;
  }

  lemma EarlyReturnKeepsInv<R>(w: World<R>, n: nat, decode: Line -> Option<R>, growth: seq<Byte>)
    requires CaughtUp(w, n, decode) && w.reader.records == LastN(History(w, decode), n)
    requires GoodBytes(decode, w.content) && GoodBytes(decode, growth)
    requires w.reader.identity == Some(w.id) && w.reader.position == |w.content| && w.seen == w.content
    ensures Inv(w.(content := w.content + growth, reader := w.reader.(lastError := None)), n, decode)
    ensures (w.content + growth)[..|w.content|] == w.content
  {
    GrowthStaysGood(decode, w.content, growth);
    GrowthKeepsCaughtUp(w, n, decode, growth);
  }

  lemma FailedReadKeepsInv<R>(w: World<R>, n: nat, decode: Line -> Option<R>, growth: seq<Byte>)
    requires CaughtUp(w, n, decode) && w.reader.records == LastN(History(w, decode), n)
    requires GoodBytes(decode, w.content) && GoodBytes(decode, growth)
    requires w.reader.identity == Some(w.id)
    ensures Inv(w.(content := w.content + growth, reader := Busy(w.reader)), n, decode)
    ensures Inv(Close(w.(content := w.content + growth, reader := Gone(w.reader)), decode), n, decode)
  {
    GrowthStaysGood(decode, w.content, growth);
    GrowthKeepsCaughtUp(w, n, decode, growth);
    CloseKeepsHistory(w.(content := w.content + growth, reader := Gone(w.reader)), decode);
  }

  predicate Refused<R>(w: World<R>, tailScan: Access) {
    w.reader.identity != Some(w.id) && w.content != [] && !tailScan.Opened?
  }

  /** The result of a read that gets past the tail scan, by where it stops. */
  lemma PlacedReadResult<R>(w: World<R>, n: nat, decode: Line -> Option<R>, tailScan: Access, open: Access,
                            growth: seq<Byte>)
    requires !Refused(w, tailScan) && Placed(w, n).reader.position <= |w.content|
    ensures
      var w' := Apply(w, n, decode, ReadCall(tailScan, open, growth));
      var placed := Placed(w, n);
      var grown := placed.(content := w.content + growth);
      var (found, end) := ReadFrom(decode, grown.content, placed.reader.position);
      w' == if placed.reader.position == |w.content| then
              grown.(reader := placed.reader.(lastError := None), seen := grown.content[..|w.content|])
            else if open.Vanished? then Close(grown.(reader := Gone(placed.reader)), decode)
            else if open.Failed? then grown.(reader := Busy(placed.reader))
            else grown.(reader := Reader(LastN(w.reader.records + found, n), end, Some(w.id), None),
                        seen := grown.content[..end])
  {
  }

  lemma RefusedReadResult<R>(w: World<R>, n: nat, decode: Line -> Option<R>, tailScan: Access, open: Access,
                             growth: seq<Byte>)
    requires Refused(w, tailScan)
    ensures var grown := w.(content := w.content + growth);
      Apply(w, n, decode, ReadCall(tailScan, open, growth)) ==
        if tailScan.Vanished? then Close(grown.(reader := Gone(w.reader)), decode)
        else if w.reader.identity.None? then Close(grown.(reader := Busy(w.reader)), decode)
        else grown.(reader := Busy(w.reader))
  {
  }

  lemma RefusedReadKeepsInv<R>(w: World<R>, n: nat, decode: Line -> Option<R>, tailScan: Access, open: Access,
                               growth: seq<Byte>)
    requires Inv(w, n, decode) && GoodBytes(decode, growth) && Refused(w, tailScan)
    ensures Inv(Apply(w, n, decode, ReadCall(tailScan, open, growth)), n, decode)
    ensures Apply(w, n, decode, ReadCall(tailScan, open, growth)).reader.lastError.Some?
  {
    var grown := w.(content := w.content + growth);
    GrowthStaysGood(decode, w.content, growth);
    RefusedReadResult(w, n, decode, tailScan, open, growth);
    assert w.seen == [];
    if tailScan.Vanished? {
      CloseKeepsHistory(grown.(reader := Gone(w.reader)), decode);
    } else if w.reader.identity.None? {
      CloseKeepsHistory(grown.(reader := Busy(w.reader)), decode);
    }
  }

  lemma ReadCallKeepsInv<R>(w: World<R>, n: nat, decode: Line -> Option<R>, tailScan: Access, open: Access,
                            growth: seq<Byte>)
    requires Inv(w, n, decode) && n >= 1 && GoodBytes(decode, growth)
    ensures Inv(Apply(w, n, decode, ReadCall(tailScan, open, growth)), n, decode)
    ensures var w' := Apply(w, n, decode, ReadCall(tailScan, open, growth));
      w'.reader.lastError.None? ==> w'.seen == w.content || w'.seen == w.content + growth
  {
    if Refused(w, tailScan) {
      RefusedReadKeepsInv(w, n, decode, tailScan, open, growth);
    } else {
      PlacingCatchesUp(w, n, decode);
      PlacedReadResult(w, n, decode, tailScan, open, growth);
      var all := w.content + growth;
      assert all[..|all|] == all;
      if Placed(w, n).reader.position == |w.content| {
        EarlyReturnKeepsInv(Placed(w, n), n, decode, growth);
      } else if open.Opened? {
        PlacedReadKeepsInv(Placed(w, n), n, decode, growth);
      } else {
        FailedReadKeepsInv(Placed(w, n), n, decode, growth);
      }
    }
  }

  lemma ApplyKeepsInv<R>(w: World<R>, n: nat, decode: Line -> Option<R>, e: Event)
    requires Inv(w, n, decode) && n >= 1 && Allowed(w, decode, e)
    ensures Inv(Apply(w, n, decode, e), n, decode)
  {
    match e
    case Append(chunk) =>
      GrowthStaysGood(decode, w.content, chunk);
      if w.reader.identity == Some(w.id) {
        GrowthKeepsCaughtUp(w, n, decode, chunk);
      }
    case Rotate(newId, newContent) => CloseKeepsHistory(w, decode);
    case Truncate(shorter) => CloseKeepsHistory(w, decode);
    case ReadCall(tailScan, open, growth) => ReadCallKeepsInv(w, n, decode, tailScan, open, growth);
    case ReadWhileAbsent => CloseKeepsHistory(w, decode);
    case ReadWhileStatFails => CloseKeepsHistory(w, decode);
  }

  /**
   * Incremental tailing refines whole-file tailing: however appends, rotations, truncations, failed
   * and successful reads interleave, `records` is the last `n` objects of everything read so far.
   */
  lemma {:induction false} TailingRefinesParsing<R>(w: World<R>, n: nat, decode: Line -> Option<R>, events: seq<Event>)
    requires Inv(w, n, decode) && n >= 1 && AllowedRun(w, n, decode, events)
    ensures Inv(Run(w, n, decode, events), n, decode)
    ensures Run(w, n, decode, events).reader.records == LastN(History(Run(w, n, decode, events), decode), n)
    decreases |events|
  {
    if events != [] {
      ApplyKeepsInv(w, n, decode, events[0]);
      TailingRefinesParsing(Apply(w, n, decode, events[0]), n, decode, events[1..]);
    }
  }

  // ---------------------------------------------------------------------------
  // One growing file
  // ---------------------------------------------------------------------------

  function Fresh<R>(id: FileId, content: seq<Byte>): World<R> {
    World(NewReader(), id, content, [], [])
  }

  /** No rotation, truncation or disappearance: the file only grows. */
  predicate Steady(e: Event) {
    match e
    case Append(_) => true
    case Rotate(_, _) => false
    case Truncate(_) => false
    case ReadCall(tailScan, open, _) => !tailScan.Vanished? && !open.Vanished?
    case ReadWhileAbsent => false
    case ReadWhileStatFails => true
  }

  /** Events after which the reader no longer knows where it was: the file changes, or is gone when it is looked for. */
  predicate LosesTrack<R>(w: World<R>, n: nat, e: Event) {
    match e
    case Append(_) => false
    case Rotate(_, _) => true
    case Truncate(_) => true
    case ReadCall(tailScan, open, _) =>
      if Refused(w, tailScan) then tailScan.Vanished? else Placed(w, n).reader.position != |w.content| && open.Vanished?
    case ReadWhileAbsent => true
    case ReadWhileStatFails => false
  }

  /** `closed` grows by what had been seen of the file, and only when the reader loses track. */
  lemma LosingTrackCloses<R>(w: World<R>, n: nat, decode: Line -> Option<R>, e: Event)
    requires Inv(w, n, decode) && n >= 1 && Allowed(w, decode, e)
    ensures Apply(w, n, decode, e).closed == w.closed + if LosesTrack(w, n, e) then Parse(decode, w.seen) else []
  {
    assert w.closed + [] == w.closed;
    if w.reader.identity.None? {
      assert w.seen == [] && Parse(decode, w.seen) == [];
    }
    if e.ReadCall? {
      if Refused(w, e.tailScan) {
        RefusedReadResult(w, n, decode, e.tailScan, e.open, e.growth);
      } else {
        PlacingCatchesUp(w, n, decode);
        PlacedReadResult(w, n, decode, e.tailScan, e.open, e.growth);
      }
    }
  }

  lemma SteadyStepClosesNothing<R>(w: World<R>, n: nat, decode: Line -> Option<R>, e: Event)
    requires Inv(w, n, decode) && n >= 1 && Allowed(w, decode, e) && Steady(e)
    ensures Apply(w, n, decode, e).closed == w.closed
  {
    LosingTrackCloses(w, n, decode, e);
    assert w.closed + [] == w.closed;
  }

  lemma {:induction false} SteadyRunClosesNothing<R>(w: World<R>, n: nat, decode: Line -> Option<R>, events: seq<Event>)
    requires Inv(w, n, decode) && n >= 1 && AllowedRun(w, n, decode, events)
    requires forall e :: e in events ==> Steady(e)
    requires w.closed == []
    ensures Run(w, n, decode, events).closed == []
    decreases |events|
  {
    if events != [] {
      ApplyKeepsInv(w, n, decode, events[0]);
      SteadyStepClosesNothing(w, n, decode, events[0]);
      SteadyRunClosesNothing(Apply(w, n, decode, events[0]), n, decode, events[1..]);
    }
  }

  lemma ReadCatchesUp<R>(w: World<R>, n: nat, decode: Line -> Option<R>)
    requires Inv(w, n, decode) && n >= 1 && w.closed == []
    ensures w.reader.records == LastN(Parse(decode, w.seen), n)
    ensures Apply(w, n, decode, ReadCall(Opened, Opened, [])).reader.records == LastN(Parse(decode, w.content), n)
  {
    ReadKeepsClosed(w, n, decode);
    assert [] + Parse(decode, w.seen) == Parse(decode, w.seen);
    assert [] + Parse(decode, w.content) == Parse(decode, w.content);
  }

  /** The reader never loses track of a file it has read an object of. */
  predicate KeepsTrack<R>(w: World<R>, n: nat, decode: Line -> Option<R>, events: seq<Event>)
    decreases |events|
  {
    events == []
    || (&& !(LosesTrack(w, n, events[0]) && Parse(decode, w.seen) != [])
        && KeepsTrack(Apply(w, n, decode, events[0]), n, decode, events[1..]))
  }

  lemma {:induction false} ClosedOnlyGrows<R>(w: World<R>, n: nat, decode: Line -> Option<R>, events: seq<Event>)
    requires Inv(w, n, decode) && n >= 1 && AllowedRun(w, n, decode, events)
    ensures |w.closed| <= |Run(w, n, decode, events).closed|
    ensures w.closed == [] ==> (Run(w, n, decode, events).closed == [] <==> KeepsTrack(w, n, decode, events))
    decreases |events|
  {
    if events != [] {
      LosingTrackCloses(w, n, decode, events[0]);
      ApplyKeepsInv(w, n, decode, events[0]);
      ClosedOnlyGrows(Apply(w, n, decode, events[0]), n, decode, events[1..]);
    }
  }

  /** Earlier objects are shown exactly when the current file does not fill the list by itself. */
  lemma EarlierObjectsShowIff<R>(closed: seq<R>, current: seq<R>, n: nat)
    ensures LastN(closed + current, n) == LastN(current, n) <==> |current| >= n || closed == []
  {
    LastNOfConcat(closed, current, n);
    if closed == [] {
      assert closed + current == current;
    } else if |current| < n {
      assert |LastN(closed + current, n)| > |LastN(current, n)|;
    }
  }

  /**
   * After any allowed run from a new reader, `records` is the last `n` objects of the file as it was last read if
   * and only if these are `n`, or the reader never lost track of a file it had read an object of.
   */
  lemma RecordsAreCurrentIff<R>(id: FileId, content: seq<Byte>, n: nat, decode: Line -> Option<R>, events: seq<Event>)
    requires n >= 1 && GoodBytes(decode, content)
    requires AllowedRun(Fresh(id, content), n, decode, events)
    ensures var w := Run(Fresh(id, content), n, decode, events);
      w.reader.records == LastN(Parse(decode, w.seen), n)
      <==> |Parse(decode, w.seen)| >= n || KeepsTrack(Fresh(id, content), n, decode, events)
  {
    var w0: World<R> := Fresh(id, content);
    var w := Run(w0, n, decode, events);
    TailingRefinesParsing(w0, n, decode, events);
    ClosedOnlyGrows(w0, n, decode, events);
    EarlierObjectsShowIff(w.closed, Parse(decode, w.seen), n);
  }

  /** The same of the whole file, once a read gets through. */
  lemma ReadShowsFileIff<R>(id: FileId, content: seq<Byte>, n: nat, decode: Line -> Option<R>, events: seq<Event>)
    requires n >= 1 && GoodBytes(decode, content)
    requires AllowedRun(Fresh(id, content), n, decode, events)
    ensures var w := Run(Fresh(id, content), n, decode, events);
      Apply(w, n, decode, ReadCall(Opened, Opened, [])).reader.records == LastN(Parse(decode, w.content), n)
      <==> |Parse(decode, w.content)| >= n || KeepsTrack(Fresh(id, content), n, decode, events)
  {
    var w0: World<R> := Fresh(id, content);
    var w := Run(w0, n, decode, events);
    TailingRefinesParsing(w0, n, decode, events);
    ClosedOnlyGrows(w0, n, decode, events);
    ReadKeepsClosed(w, n, decode);
    EarlierObjectsShowIff(w.closed, Parse(decode, w.content), n);
  }

  lemma ReadKeepsClosed<R>(w: World<R>, n: nat, decode: Line -> Option<R>)
    requires Inv(w, n, decode) && n >= 1
    ensures Apply(w, n, decode, ReadCall(Opened, Opened, [])).reader.records
         == LastN(w.closed + Parse(decode, w.content), n)
  {
    var read := ReadCall(Opened, Opened, []);
    ReadCallKeepsInv(w, n, decode, Opened, Opened, []);
    SteadyStepClosesNothing(w, n, decode, read);
    assert w.content + [] == w.content;
    assert Apply(w, n, decode, read).reader.lastError.None?;
  }

  /** A file that only grows: after any run, a read leaves the last `n` objects of the whole file. */
  lemma GrowingFileTailing<R>(id: FileId, content: seq<Byte>, n: nat, decode: Line -> Option<R>, events: seq<Event>)
    requires n >= 1 && GoodBytes(decode, content)
    requires AllowedRun(Fresh(id, content), n, decode, events)
    requires forall e :: e in events ==> Steady(e)
    ensures var w := Run(Fresh(id, content), n, decode, events);
      && w.reader.records == LastN(Parse(decode, w.seen), n)
      && Apply(w, n, decode, ReadCall(Opened, Opened, [])).reader.records == LastN(Parse(decode, w.content), n)
  {
    var w0: World<R> := Fresh(id, content);
    TailingRefinesParsing(w0, n, decode, events);
    SteadyRunClosesNothing(w0, n, decode, events);
    ReadCatchesUp(Run(w0, n, decode, events), n, decode);
  }

  /** Re-chunking the appends and the reads never changes the records. */
  lemma RechunkingIsInvisible<R>(id: FileId, n: nat, decode: Line -> Option<R>,
                                 contentA: seq<Byte>, eventsA: seq<Event>, contentB: seq<Byte>, eventsB: seq<Event>)
    requires n >= 1 && GoodBytes(decode, contentA) && GoodBytes(decode, contentB)
    requires AllowedRun(Fresh(id, contentA), n, decode, eventsA) && AllowedRun(Fresh(id, contentB), n, decode, eventsB)
    requires forall e :: e in eventsA || e in eventsB ==> Steady(e)
    requires Run(Fresh<R>(id, contentA), n, decode, eventsA).content
      == Run(Fresh<R>(id, contentB), n, decode, eventsB).content
    ensures Apply(Run(Fresh(id, contentA), n, decode, eventsA), n, decode, ReadCall(Opened, Opened, [])).reader.records
         == Apply(Run(Fresh(id, contentB), n, decode, eventsB), n, decode, ReadCall(Opened, Opened, [])).reader.records
  {
    GrowingFileTailing(id, contentA, n, decode, eventsA);
    GrowingFileTailing(id, contentB, n, decode, eventsB);
  }

  // ---------------------------------------------------------------------------
  // What the calls return
  // ---------------------------------------------------------------------------

  /** Where a call that gets to the file starts to read. */
  function ReadsFrom<R>(s: Reader<R>, n: nat, v: View): nat
    requires v.Stat?
  {
    if s.identity != Some(v.id) then TailOffset(v.atStat, n) else if |v.atStat| < s.position then 0 else s.position
  }

  /** The call reads the file, or finds that there is nothing new in it. */
  predicate GetsThrough<R>(s: Reader<R>, n: nat, v: View) {
    && v.Stat?
    && (s.identity == Some(v.id) || v.atStat == [] || v.tailScan.Opened?)
    && (|v.atStat| == ReadsFrom(s, n, v) || v.open.Opened?)
  }

  lemma NotThrough<R>(s: Reader<R>, n: nat, decode: Line -> Option<R>, v: View)
    requires !GetsThrough(s, n, v)
    ensures var (s', returned) := ReadNew(s, n, decode, v);
      returned == [] && s'.records == s.records && s'.lastError.Some?
  {
  }

  lemma Through<R>(s: Reader<R>, n: nat, decode: Line -> Option<R>, v: View)
    requires GetsThrough(s, n, v)
    ensures var from := ReadsFrom(s, n, v);
      var found := if |v.atStat| != from && from <= |v.atRead| then Parse(decode, v.atRead[from..]) else [];
      var end := if |v.atStat| == from || |v.atRead| < from then from else |v.atRead|;
      ReadNew(s, n, decode, v) ==
        (Reader(if |v.atStat| == from then s.records else LastN(s.records + found, n), end, Some(v.id), None), found)
  {
  }

  /**
   * One call, on any reader and any file, returns exactly the objects between the place it starts from and the
   * position it leaves, so nothing is returned only if no line in between holds an object.
   */
  lemma ReadReturnsObjects<R>(s: Reader<R>, n: nat, decode: Line -> Option<R>, v: View)
    requires GetsThrough(s, n, v)
    ensures
      var (s', returned) := ReadNew(s, n, decode, v);
      var from := ReadsFrom(s, n, v);
      && s'.identity == Some(v.id)
      && s'.position == (if |v.atStat| == from || |v.atRead| < from then from else |v.atRead|)
      && returned == (if s'.position <= |v.atRead| then Parse(decode, v.atRead[from..s'.position]) else [])
      && (s'.position <= |v.atRead| ==>
            (returned == [] <==> NoneDecode(decode, SplitLines(v.atRead[from..s'.position]))))
  {
    var from := ReadsFrom(s, n, v);
    Through(s, n, decode, v);
    if from <= |v.atRead| {
      assert v.atRead[from..from] == [] && v.atRead[from..|v.atRead|] == v.atRead[from..];
      DecodeLength(decode, SplitLines(v.atRead[from..from]));
      DecodeLength(decode, SplitLines(v.atRead[from..]));
    }
  }

  /**
   * `records` changes only by what is returned; a call reports no error exactly when it gets through, and otherwise
   * returns nothing.
   */
  lemma ReadKeepsTail<R>(s: Reader<R>, n: nat, decode: Line -> Option<R>, v: View)
    requires n >= 1 && |s.records| <= n
    ensures var (s', returned) := ReadNew(s, n, decode, v);
      && s'.records == LastN(s.records + returned, n)
      && (s'.lastError.None? <==> GetsThrough(s, n, v))
      && (!GetsThrough(s, n, v) ==> returned == [])
  {
    assert s.records + [] == s.records;
    if GetsThrough(s, n, v) {
      Through(s, n, decode, v);
    } else {
      NotThrough(s, n, decode, v);
    }
  }

  /** The error says whether the file was missing, at `stat` or when it was opened, or could not be read. */
  lemma ErrorSaysWhy<R>(s: Reader<R>, n: nat, decode: Line -> Option<R>, v: View)
    ensures var error := ReadNew(s, n, decode, v).0.lastError;
      var scans := v.Stat? && s.identity != Some(v.id) && v.atStat != [];
      && (error == Some("Log file is unavailable.") <==>
            v.Absent? || (scans && v.tailScan.Vanished?)
            || (v.Stat? && !(scans && !v.tailScan.Opened?) && |v.atStat| != ReadsFrom(s, n, v) && v.open.Vanished?))
      && (error.None? || error == Some("Log file is unavailable.")
          || error == Some("Log file is temporarily unreadable."))
  {
    assert |UNAVAILABLE| != |UNREADABLE|;
  }

  /** What an event makes the reader return. */
  function ReturnedBy<R>(w: World<R>, n: nat, decode: Line -> Option<R>, e: Event): seq<R> {
    match e
    case ReadCall(tailScan, open, growth) =>
      ReadNew(w.reader, n, decode, Stat(w.id, w.content, tailScan, open, w.content + growth)).1
    case ReadWhileAbsent => ReadNew(w.reader, n, decode, Absent).1
    case ReadWhileStatFails => ReadNew(w.reader, n, decode, StatFailed).1
    case _ => []
  }

  /** All that the calls of a run return, in order. */
  function AllReturned<R>(w: World<R>, n: nat, decode: Line -> Option<R>, events: seq<Event>): seq<R>
    decreases |events|
  {
    if events == [] then []
    else ReturnedBy(w, n, decode, events[0]) + AllReturned(Apply(w, n, decode, events[0]), n, decode, events[1..])
  }

  lemma OtherEventKeepsRecords<R>(w: World<R>, n: nat, decode: Line -> Option<R>, e: Event)
    requires !e.ReadCall?
    ensures Apply(w, n, decode, e).reader.records == w.reader.records && ReturnedBy(w, n, decode, e) == []
  {
  }

  lemma EventReturnsRecords<R>(w: World<R>, n: nat, decode: Line -> Option<R>, e: Event)
    requires n >= 1 && |w.reader.records| <= n
    ensures Apply(w, n, decode, e).reader.records == LastN(w.reader.records + ReturnedBy(w, n, decode, e), n)
  {
    match e
    case ReadCall(tailScan, open, growth) =>
      var v := Stat(w.id, w.content, tailScan, open, w.content + growth);
      ReadKeepsTail(w.reader, n, decode, v);
      assert Apply(w, n, decode, e).reader == ReadNew(w.reader, n, decode, v).0;
    case _ =>
      OtherEventKeepsRecords(w, n, decode, e);
      assert w.reader.records + [] == w.reader.records;
  }

  /** Whatever happens to the file, `records` is the tail of what has been returned. */
  lemma {:induction false} RecordsAreReturned<R>(w: World<R>, n: nat, decode: Line -> Option<R>, events: seq<Event>)
    requires n >= 1 && |w.reader.records| <= n
    ensures Run(w, n, decode, events).reader.records == LastN(w.reader.records + AllReturned(w, n, decode, events), n)
    decreases |events|
  {
    if events == [] {
      assert w.reader.records + [] == w.reader.records;
    } else {
      var next := Apply(w, n, decode, events[0]);
      var first, rest := ReturnedBy(w, n, decode, events[0]), AllReturned(next, n, decode, events[1..]);
      EventReturnsRecords(w, n, decode, events[0]);
      RecordsAreReturned(next, n, decode, events[1..]);
      LastNOfConcat(w.reader.records + first, rest, n);
      ConcatIsAssociative(w.reader.records, first, rest);
    }
  }

  /** From a new reader, the lists returned end in the last `n` objects of everything read. */
  lemma ReturnedTailIsHistoryTail<R>(id: FileId, content: seq<Byte>, n: nat, decode: Line -> Option<R>,
                                     events: seq<Event>)
    requires n >= 1 && GoodBytes(decode, content)
    requires AllowedRun(Fresh(id, content), n, decode, events)
    ensures var w := Run(Fresh(id, content), n, decode, events);
      var returned := AllReturned(Fresh(id, content), n, decode, events);
      w.reader.records == LastN(returned, n) == LastN(History(w, decode), n)
  {
    var w0: World<R> := Fresh(id, content);
    RecordsAreReturned(w0, n, decode, events);
    TailingRefinesParsing(w0, n, decode, events);
    var returned := AllReturned(w0, n, decode, events);
    assert w0.reader.records + returned == returned;
  }

  ghost predicate IsEndOf<R>(end: seq<R>, s: seq<R>) {
    |end| <= |s| && s[|s| - |end|..] == end
  }

  /** `returned` is what comes after `before` in `after`, or the end of `after`, long enough to fill the list. */
  ghost predicate Continues<R>(before: seq<R>, returned: seq<R>, after: seq<R>, n: nat) {
    after == before + returned || (before == [] && |returned| >= n && IsEndOf(returned, after))
  }

  lemma ContinuesTwice<R>(a: seq<R>, x: seq<R>, b: seq<R>, y: seq<R>, c: seq<R>, n: nat)
    requires n >= 1 && Continues(a, x, b, n) && Continues(b, y, c, n)
    ensures Continues(a, x + y, c, n)
  {
    if c == b + y {
      if b == a + x {
        ConcatIsAssociative(a, x, y);
      } else {
        var skipped := b[..|b| - |x|];
        assert b == skipped + x;
        ConcatIsAssociative(skipped, x, y);
        assert c == skipped + (x + y);
      }
    } else if b == a + x {
      assert a == [] && x == [] && x + y == y;
    }
  }

  /** What a read that gets past the tail scan returns, and what has been seen afterwards. */
  lemma ReadReturned<R>(w: World<R>, n: nat, decode: Line -> Option<R>, tailScan: Access, open: Access,
                        growth: seq<Byte>)
    requires !Refused(w, tailScan) && !open.Vanished? && Placed(w, n).reader.position <= |w.content|
    ensures var e := ReadCall(tailScan, open, growth);
      var p, all := Placed(w, n).reader.position, w.content + growth;
      var idle := p == |w.content| || !open.Opened?;
      && ReturnedBy(w, n, decode, e) == (if idle then [] else Parse(decode, all[p..]))
      && Apply(w, n, decode, e).seen ==
           if p == |w.content| then all[..|w.content|] else if idle then w.seen else all[..|all|]
  {
    PlacedReadResult(w, n, decode, tailScan, open, growth);
  }

  /** A caught-up reader reads on from its position. */
  lemma CaughtUpContinues<R>(w: World<R>, n: nat, decode: Line -> Option<R>, growth: seq<Byte>)
    requires CaughtUp(w, n, decode) && GoodBytes(decode, w.content) && GoodBytes(decode, growth)
    ensures var all := w.content + growth;
      Continues(Parse(decode, w.seen), Parse(decode, all[w.reader.position..]), Parse(decode, all[..|all|]), n)
  {
    GrowthKeepsCaughtUp(w, n, decode, growth);
    ContinuedParse(decode, w.seen, w.content + growth, w.reader.position, n);
  }

  lemma ContinuedParse<R>(decode: Line -> Option<R>, seen: seq<Byte>, all: seq<Byte>, p: nat, n: nat)
    requires p <= |all| && IsLineBoundary(all, p)
    requires if seen == all[..p] then true else seen == [] && |Parse(decode, all[p..])| >= n
    ensures Continues(Parse(decode, seen), Parse(decode, all[p..]), Parse(decode, all[..|all|]), n)
  {
    var head, tail := all[..p], all[p..];
    assert all == head + tail == all[..|all|];
    SplitAtBoundary(all, p, head, tail);
    DecodeOfConcat(decode, SplitLines(head), SplitLines(tail));
    assert Parse(decode, all) == Parse(decode, head) + Parse(decode, tail);
  }

  lemma SteadyStepContinues<R>(w: World<R>, n: nat, decode: Line -> Option<R>, e: Event)
    requires Inv(w, n, decode) && n >= 1 && Allowed(w, decode, e) && Steady(e)
    ensures Continues(Parse(decode, w.seen), ReturnedBy(w, n, decode, e), Parse(decode, Apply(w, n, decode, e).seen), n)
  {
    assert Parse(decode, w.seen) + [] == Parse(decode, w.seen);
    if e.ReadCall? {
      if Refused(w, e.tailScan) {
        RefusedReadResult(w, n, decode, e.tailScan, e.open, e.growth);
      } else {
        PlacedStepContinues(w, n, decode, e.tailScan, e.open, e.growth);
      }
    }
  }

  lemma PlacedStepContinues<R>(w: World<R>, n: nat, decode: Line -> Option<R>, tailScan: Access, open: Access,
                               growth: seq<Byte>)
    requires Inv(w, n, decode) && n >= 1 && GoodBytes(decode, growth) && !Refused(w, tailScan) && !open.Vanished?
    ensures var e := ReadCall(tailScan, open, growth);
      Continues(Parse(decode, w.seen), ReturnedBy(w, n, decode, e), Parse(decode, Apply(w, n, decode, e).seen), n)
  {
    PlacingCatchesUp(w, n, decode);
    ReadReturned(w, n, decode, tailScan, open, growth);
    assert Parse(decode, w.seen) + [] == Parse(decode, w.seen);
    if Placed(w, n).reader.position == |w.content| {
      assert (w.content + growth)[..|w.content|] == w.content;
    } else if open.Opened? {
      CaughtUpContinues(Placed(w, n), n, decode, growth);
    }
  }

  lemma {:induction false} SteadyRunContinues<R>(w: World<R>, n: nat, decode: Line -> Option<R>, events: seq<Event>)
    requires Inv(w, n, decode) && n >= 1 && AllowedRun(w, n, decode, events)
    requires forall e :: e in events ==> Steady(e)
    ensures Continues(Parse(decode, w.seen), AllReturned(w, n, decode, events),
                      Parse(decode, Run(w, n, decode, events).seen), n)
    decreases |events|
  {
    if events == [] {
      assert Parse(decode, w.seen) + [] == Parse(decode, w.seen);
    } else {
      var next := Apply(w, n, decode, events[0]);
      ApplyKeepsInv(w, n, decode, events[0]);
      SteadyStepContinues(w, n, decode, events[0]);
      SteadyRunContinues(next, n, decode, events[1..]);
      ContinuesTwice(Parse(decode, w.seen), ReturnedBy(w, n, decode, events[0]), Parse(decode, next.seen),
                     AllReturned(next, n, decode, events[1..]), Parse(decode, Run(w, n, decode, events).seen), n);
    }
  }

  /**
   * Of a file that only grows, the calls return every object once and in order, from the first one on, or from some
   * later one on if what they return fills the list.
   */
  lemma GrowingFileReturnsOnce<R>(id: FileId, content: seq<Byte>, n: nat, decode: Line -> Option<R>,
                                  events: seq<Event>)
    requires n >= 1 && GoodBytes(decode, content)
    requires AllowedRun(Fresh(id, content), n, decode, events)
    requires forall e :: e in events ==> Steady(e)
    ensures var objects := Parse(decode, Run(Fresh(id, content), n, decode, events).seen);
      var returned := AllReturned(Fresh(id, content), n, decode, events);
      objects == returned || (|returned| >= n && IsEndOf(returned, objects))
  {
    var w0: World<R> := Fresh(id, content);
    SteadyRunContinues(w0, n, decode, events);
    var returned := AllReturned(w0, n, decode, events);
    assert Parse(decode, w0.seen) == [] && [] + returned == returned;
  }

  // ---------------------------------------------------------------------------
  // Where the refinement stops
  // ---------------------------------------------------------------------------

  /**
   * On an arbitrary file the first read gives the last `n` objects exactly when no object lies before
   * the last `n` lines, or each of those lines is an object.
   */
  lemma FirstReadExact<R>(id: FileId, content: seq<Byte>, n: nat, decode: Line -> Option<R>)
    requires n >= 1
    ensures
      var tail := LastN(SplitLines(content), n);
      var skipped := SplitLines(content)[..|SplitLines(content)| - |tail|];
      ReadNew(NewReader(), n, decode, Stat(id, content, Opened, Opened, content)).0.records
        == LastN(Parse(decode, content), n)
      <==> (NoneDecode(decode, skipped) || AllDecode(decode, tail))
  {
    FirstReadParsesTail(id, content, n, decode);
    TailParseExact(decode, content, n);
  }

  lemma FirstReadParsesTail<R>(id: FileId, content: seq<Byte>, n: nat, decode: Line -> Option<R>)
    requires n >= 1
    ensures ReadNew(NewReader(), n, decode, Stat(id, content, Opened, Opened, content)).0.records
         == Parse(decode, content[TailOffset(content, n)..])
  {
    var offset := TailOffset(content, n);
    var found := Parse(decode, content[offset..]);
    TailOffsetIsExact(content, n);
    DecodeLength(decode, SplitLines(content[offset..]));
    FirstReadIs(id, content, n, decode, offset);
    assert [] + found == found;
    if offset == |content| {
      assert content[offset..] == [];
    }
  }

  lemma FirstReadIs<R>(id: FileId, content: seq<Byte>, n: nat, decode: Line -> Option<R>, offset: nat)
    requires offset == TailOffset(content, n)
    ensures ReadNew(NewReader(), n, decode, Stat(id, content, Opened, Opened, content)).0.records
         == if offset == |content| then [] else LastN([] + Parse(decode, content[offset..]), n)
  {
  }

  /** A junk line in the tail makes the first read miss an object that whole-file parsing keeps. */
  lemma JunkLineHidesObject()
    ensures
      var decode := (line: Line) => if line == [123, LF] then Some(0) else None;
      var content: seq<Byte> := [123, LF, LF];
      && ReadNew(NewReader(), 1, decode, Stat(FileId(0, 0), content, Opened, Opened, content)).0.records == []
      && LastN(Parse(decode, content), 1) == [0]
  {
    var decode := (line: Line) => if line == [123, LF] then Some(0) else None;
    var content: seq<Byte> := [123, LF, LF];
    TwoLines();
    FirstReadExact(FileId(0, 0), content, 1, decode);
    TailOffsetIsExact(content, 1);
    assert Decode(decode, [[LF]]) == [];
    assert Decode(decode, [[123, LF], [LF]]) == [0] + Decode(decode, [[123, LF], [LF]][1..]);
  }

  lemma TwoLines()
    ensures SplitLines([123, LF, LF]) == [[123, LF], [LF]]
  {
    var s: seq<Byte> := [123, LF, LF];
    assert s[1..][0] == LF && LineEnd(s[1..]) == 1 && LineEnd(s) == 2;
    assert s[..2] == [123, LF] && s[2..] == [LF];
    OneLine(LF);
  }

  lemma OneLine(b: Byte)
    ensures SplitLines([b]) == [[b]]
  {
    var s: seq<Byte> := [b];
    assert LineEnd(s) == 1 && s[..1] == s && s[1..] == [];
  }

  /** A file that is briefly missing is taken up afresh, so a short file is read twice. */
  lemma TransientAbsenceDuplicates()
    ensures
      var decode := (line: Line) => Some(0);
      var w := Run(Fresh(FileId(0, 0), [LF]), 2, decode,
                   [ReadCall(Opened, Opened, []), ReadWhileAbsent, ReadCall(Opened, Opened, [])]);
      w.reader.records == [0, 0] && Parse(decode, w.content) == [0]
  {
    var decode := (line: Line) => Some(0);
    var read := ReadCall(Opened, Opened, []);
    OneLine(LF);
    var lf: seq<Byte> := [LF];
    assert lf + [] == lf && lf[0..] == lf && lf[..1] == lf;
    assert Parse(decode, lf) == [0] + Decode(decode, [lf][1..]) == [0];
    TailOffsetIsExact(lf, 2);
    var w0: World<int> := Fresh(FileId(0, 0), lf);
    var w1 := Apply(w0, 2, decode, read);
    assert w1.reader == Reader([0], 1, Some(FileId(0, 0)), None) && w1.content == lf;
    var w2 := Apply(w1, 2, decode, ReadWhileAbsent);
    assert w2.reader.records == [0] && w2.reader.identity == None && w2.content == lf;
    var w3 := Apply(w2, 2, decode, read);
    assert w3.reader.records == LastN([0] + [0], 2);
    assert [read, ReadWhileAbsent, read][1..] == [ReadWhileAbsent, read];
    assert [ReadWhileAbsent, read][1..] == [read] && [read][1..] == [];
    assert Run(w3, 2, decode, []) == w3;
    assert Run(w2, 2, decode, [read]) == w3;
    assert Run(w1, 2, decode, [ReadWhileAbsent, read]) == w3;
  }
}
