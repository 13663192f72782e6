/**
 * What the scan worker of `ScannerControl._scan` computes from the
 * `scanimage` process: the pipe readers `read_file_by_lines` and
 * `read_file_raw`, the classification of its debug output, and the verdict
 * on the scanned data.
 */
module ScanWorker {
  import opened Bytes

  // ---- Reading a pipe -----------------------------------------------------

  /** The position of the first empty read (end of file), or `|pieces|` if there is none. */
  function FirstEmpty(pieces: seq<seq<byte>>): (n: nat)
    ensures n <= |pieces|
    ensures forall k :: 0 <= k < n ==> pieces[k] != []
    ensures n < |pieces| ==> pieces[n] == []
  {
    if pieces == [] || pieces[0] == [] then 0 else 1 + FirstEmpty(pieces[1..])
  }

  /** Everything the pipe delivered before end of file. */
  function Received(pieces: seq<seq<byte>>): seq<byte> {
    Concat(pieces[..FirstEmpty(pieces)])
  }

  /**
   * `read_file_by_lines`: the complete lines of what was read before end of
   * file, without their newlines; a last fragment with no newline is dropped.
   */
  method ReadFileByLines(pieces: seq<seq<byte>>) returns (lines: seq<seq<byte>>)
    ensures lines == CompleteLines(Received(pieces))
  {
    var buf: seq<seq<byte>> := [];
    lines := [];
    var i := 0;
    while i < |pieces|
      invariant Consumed(pieces, i, lines, buf)
      invariant forall k :: 0 <= k < i ==> pieces[k] != []
    {
      var r := pieces[i];
      if r == [] {
        break;
      }
      Advance(pieces, i, lines, buf);
      buf := buf + [r];
      if NL in r {
        var parts := Split(Concat(buf), NL);
        buf := [parts[|parts| - 1]];
        lines := lines + parts[..|parts| - 1];
      }
      i := i + 1;
    }
    assert FirstEmpty(pieces) == i;
    CompleteLinesOf(lines, Concat(buf));
  }

  /**
   * The state of `read_file_by_lines` after `i` reads: the lines yielded,
   * each newline-terminated, followed by the buffered fragment spell what was
   * read, and the fragment holds no newline.
   */
  predicate Consumed(pieces: seq<seq<byte>>, i: nat, lines: seq<seq<byte>>, buf: seq<seq<byte>>) {
    i <= |pieces| && FreeOf(lines, NL) && NL !in Concat(buf) &&
    Concat(pieces[..i]) == Terminated(lines, NL) + Concat(buf)
  }

  /** One more read keeps `Consumed`, whether or not it holds a newline. */
  lemma Advance(pieces: seq<seq<byte>>, i: nat, lines: seq<seq<byte>>, buf: seq<seq<byte>>)
    requires i < |pieces| && Consumed(pieces, i, lines, buf)
    ensures var buf' := buf + [pieces[i]];
            (NL !in pieces[i] ==> Consumed(pieces, i + 1, lines, buf')) &&
            (NL in pieces[i] ==>
               var parts := Split(Concat(buf'), NL);
               Consumed(pieces, i + 1, lines + parts[..|parts| - 1], [parts[|parts| - 1]]))
  {
    ReadMore(pieces, i, buf);
    if NL in pieces[i] {
      CutLines(Concat(pieces[..i + 1]), lines, Concat(buf + [pieces[i]]));
    }
  }

  /** One more read extends both what was read and the buffer by the same bytes. */
  lemma ReadMore(pieces: seq<seq<byte>>, i: nat, buf: seq<seq<byte>>)
    requires i < |pieces|
    ensures Concat(pieces[..i + 1]) == Concat(pieces[..i]) + pieces[i]
    ensures Concat(buf + [pieces[i]]) == Concat(buf) + pieces[i]
  {
    assert pieces[..i + 1] == pieces[..i] + [pieces[i]];
    ConcatAppend(pieces[..i], [pieces[i]]);
    ConcatAppend(buf, [pieces[i]]);
    ConcatOne(pieces[i]);
  }

  /** Splitting the buffer at its newlines moves every complete line out of it. */
  lemma CutLines(done: seq<byte>, lines: seq<seq<byte>>, joined: seq<byte>)
    requires FreeOf(lines, NL) && done == Terminated(lines, NL) + joined
    ensures var parts := Split(joined, NL);
            var last := parts[|parts| - 1];
            FreeOf(lines + parts[..|parts| - 1], NL) && NL !in last && Concat([last]) == last &&
            done == Terminated(lines + parts[..|parts| - 1], NL) + last
  {
    var parts := Split(joined, NL);
    var init, last := parts[..|parts| - 1], parts[|parts| - 1];
    assert init + [last] == parts;
    JoinLast(init, last, NL);
    TerminatedAppend(lines, init, NL);
    ConcatOne(last);
  }

  /** `read_file_raw`: every byte read before end of file, in order. */
  method ReadFileRaw(pieces: seq<seq<byte>>) returns (data: seq<byte>)
    ensures data == Received(pieces)
  {
    var buf: seq<seq<byte>> := [];
    var i := 0;
    while i < |pieces|
      invariant i <= |pieces| && forall k :: 0 <= k < i ==> pieces[k] != []
      invariant buf == pieces[..i]
    {
      if pieces[i] == [] {
        break;
      }
      buf := buf + [pieces[i]];
      i := i + 1;
    }
    assert FirstEmpty(pieces) == i;
    data := Concat(buf);
  }

  /** The lines `read_file_by_lines` yields are newline-free and, newline-terminated, start the input. */
  lemma LinesStartInput(pieces: seq<seq<byte>>)
    ensures var lines := CompleteLines(Received(pieces));
            FreeOf(lines, NL) && Terminated(lines, NL) <= Received(pieces)
  {
    var s := Received(pieces);
    var lines := CompleteLines(s);
    var tail := CompleteLinesSplit(s);
    assert Terminated(lines, NL) == s[..|Terminated(lines, NL)|];
  }

  // ---- The debug output of `scanimage` --------------------------------------

  /** How `read_info_fn` classifies one line: the first marker the line contains wins. */
  datatype InfoLine = SaneStart | SaneClose | OutOfDocuments | Jammed | Other

  function Marker(c: InfoLine): seq<byte> {
    match c
    case SaneStart => Ascii("sane_start(")
    case SaneClose => Ascii("sane_close(")
    case OutOfDocuments => Ascii("Document feeder out of documents")
    case Jammed => Ascii("Document feeder jammed")
    case Other => []
  }

  function Classify(line: seq<byte>): InfoLine {
    if Contains(line, Marker(SaneStart)) then SaneStart
    else if Contains(line, Marker(SaneClose)) then SaneClose
    else if Contains(line, Marker(OutOfDocuments)) then OutOfDocuments
    else if Contains(line, Marker(Jammed)) then Jammed
    else Other
  }

  /**
   * A line is classified by a marker it contains; `Other` exactly when it
   * contains none; a jam report counts only when no `sane_start(` or
   * `sane_close(` marker precedes it in the order of the tests.
   */
  lemma ClassifyMarkers(line: seq<byte>)
    ensures var c := Classify(line);
            var start, close := Contains(line, Marker(SaneStart)), Contains(line, Marker(SaneClose));
            var out, jam := Contains(line, Marker(OutOfDocuments)), Contains(line, Marker(Jammed));
            (c != Other ==> Contains(line, Marker(c))) &&
            (c == SaneStart <==> start) &&
            (c == SaneClose <==> !start && close) &&
            (c == OutOfDocuments <==> !start && !close && out) &&
            (c == Jammed <==> !start && !close && !out && jam) &&
            (c == Other <==> !start && !close && !out && !jam) &&
            (close ==> c == SaneStart || c == SaneClose)
  {
  }

  /** How many of the lines are classified as `c`. */
  function CountOf(lines: seq<seq<byte>>, c: InfoLine): nat {
    if lines == [] then 0
    else CountOf(lines[..|lines| - 1], c) + (if Classify(lines[|lines| - 1]) == c then 1 else 0)
  }

  /** At most one count per line, and none exactly when no line is classified as `c`. */
  lemma {:induction false} CountOfBounds(lines: seq<seq<byte>>, c: InfoLine)
    ensures CountOf(lines, c) <= |lines|
    ensures CountOf(lines, c) == 0 <==> forall k :: 0 <= k < |lines| ==> Classify(lines[k]) != c
  {
    if lines != [] {
      var init, last := lines[..|lines| - 1], lines[|lines| - 1];
      CountOfBounds(init, c);
      var here := Classify(last) == c;
      assert CountOf(lines, c) == CountOf(init, c) + if here then 1 else 0;
      if CountOf(lines, c) == 0 {
        assert CountOf(init, c) == 0 && !here;
        forall k | 0 <= k < |lines|
          ensures Classify(lines[k]) != c
        {
          if k < |init| {
            assert lines[k] == init[k];
          } else {
            assert lines[k] == last;
          }
        }
      } else if !here {
        var k :| 0 <= k < |init| && Classify(init[k]) == c;
        assert lines[k] == init[k];
      }
    }
  }

  /** Some line reports that the feeder ran out of documents (see `CountOfBounds`). */
  predicate NoPaperSeen(lines: seq<seq<byte>>) {
    CountOf(lines, OutOfDocuments) > 0
  }

  /** Some line reports a paper jam (see `CountOfBounds`). */
  predicate JamSeen(lines: seq<seq<byte>>) {
    CountOf(lines, Jammed) > 0
  }

  /**
   * `read_info_fn`: counts the `sane_start(` lines (each one moves the state
   * to `ScanRunning`) and raises the no-paper and jam flags.
   */
  method ReadInfo(lines: seq<seq<byte>>) returns (starts: nat, noPaper: bool, jam: bool)
    ensures starts == CountOf(lines, SaneStart)
    ensures noPaper == NoPaperSeen(lines) && jam == JamSeen(lines)
  {
    starts, noPaper, jam := 0, false, false;
    var i := 0;
    while i < |lines|
      invariant i <= |lines|
      invariant starts == CountOf(lines[..i], SaneStart)
      invariant noPaper == NoPaperSeen(lines[..i]) && jam == JamSeen(lines[..i])
    {
      assert lines[..i + 1][..i] == lines[..i];
      var c := Classify(lines[i]);
      if c == SaneStart {
        starts := starts + 1;
      } else if c == OutOfDocuments {
        noPaper := true;
      } else if c == Jammed {
        jam := true;
      }
      i := i + 1;
    }
    assert lines[..i] == lines;
  }

  /**
   * The two reader threads of `_scan` together: the debug output is read line
   * by line and classified, the image is read whole.
   */
  method Observe(info: seq<seq<byte>>, data: seq<seq<byte>>) returns (starts: nat, noPaper: bool, jam: bool, bytes: seq<byte>)
    ensures starts == Starts(info) && bytes == Received(data)
    ensures Verdict(jam, noPaper, bytes) == ScanOutcome(info, data)
  {
    var lines := ReadFileByLines(info);
    bytes := ReadFileRaw(data);
    starts, noPaper, jam := ReadInfo(lines);
  }

  // ---- The verdict ----------------------------------------------------------

  /** The signature every PNG file starts with. */
  function PngMagic(): seq<byte> {
    [0x89] + Ascii("PNG")
  }

  /** `data[:n]`: Python slices stop at the end of the data. */
  function Head(data: seq<byte>, n: nat): (r: seq<byte>)
    ensures r <= data && |r| == if |data| < n then |data| else n
  {
    if |data| < n then data else data[..n]
  }

  predicate IsPng(data: seq<byte>) {
    |data| >= 4 && data[..4] == PngMagic()
  }

  /** How a scan ends: `scanner_success`, `scanner_jam`, `scanner_no_paper`, or a failed assertion. */
  datatype Outcome = Success(data: seq<byte>) | Jam | NoPaper | BadData

  /** A jam wins over no paper; otherwise the data must be a PNG file. */
  function Verdict(jam: bool, noPaper: bool, data: seq<byte>): (o: Outcome)
    ensures jam <==> o == Jam
    ensures o == NoPaper <==> !jam && noPaper
    ensures o.Success? <==> !jam && !noPaper && IsPng(data)
    ensures o.Success? ==> o.data == data && |data| > 0
  {
    if !jam && !noPaper then
      if |data| > 0 && Head(data, 4) == PngMagic() then Success(data) else BadData
    else if jam then Jam
    else NoPaper
  }

  /** How many `sane_start(` lines the debug output holds. */
  function Starts(info: seq<seq<byte>>): nat {
    CountOf(CompleteLines(Received(info)), SaneStart)
  }

  /** The outcome of a scan, given what the two pipes delivered. */
  function ScanOutcome(info: seq<seq<byte>>, data: seq<seq<byte>>): Outcome {
    var lines := CompleteLines(Received(info));
    Verdict(JamSeen(lines), NoPaperSeen(lines), Received(data))
  }
}
