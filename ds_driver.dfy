/**
 * The USB wire protocol of the document scanner: command frames and their
 * acknowledgements, the 12-byte image chunk header, and the packet-dispatch
 * loop of `DSDriver.scan` that assembles pages out of image chunks.
 */
module DsDriver {
  import opened Wrappers
  import opened Bytes
  import opened ScanParams

  // ---- Little-endian unsigned fields -----------------------------------

  function Pow256(w: nat): (r: nat)
    ensures r >= 1
  {
    if w == 0 then 1 else 256 * Pow256(w - 1)
  }

  /** The unsigned little-endian number the bytes spell. */
  function FromLE(b: seq<byte>): nat {
    if b == [] then 0 else b[0] + 256 * FromLE(b[1..])
  }

  /** The `w` little-endian bytes of `n`. */
  function ToLE(n: nat, w: nat): (b: seq<byte>)
    requires n < Pow256(w)
    ensures |b| == w
  {
    if w == 0 then [] else [n % 256] + ToLE(n / 256, w - 1)
  }

  /** A little-endian field of `w` bytes holds a number below 256^w. */
  lemma {:induction false} FromLEBound(b: seq<byte>)
    ensures FromLE(b) < Pow256(|b|)
  {
    if b != [] {
      FromLEBound(b[1..]);
      assert FromLE(b[1..]) + 1 <= Pow256(|b| - 1);
      assert 256 * (FromLE(b[1..]) + 1) <= 256 * Pow256(|b| - 1);
    }
  }

  lemma {:induction false} FromToLE(n: nat, w: nat)
    requires n < Pow256(w)
    ensures FromLE(ToLE(n, w)) == n
  {
    if w > 0 {
      FromToLE(n / 256, w - 1);
    }
  }

  lemma {:induction false} ToFromLE(b: seq<byte>)
    ensures FromLE(b) < Pow256(|b|) && ToLE(FromLE(b), |b|) == b
  {
    FromLEBound(b);
    if b != [] {
      ToFromLE(b[1..]);
      SplitByte(b[0], FromLE(b[1..]));
      assert [b[0]] + b[1..] == b;
    }
  }

  lemma SplitByte(low: byte, high: nat)
    ensures (low + 256 * high) % 256 == low && (low + 256 * high) / 256 == high
  {
  }

  // ---- The image chunk header -------------------------------------------

  /** What `decode_imghdr` returns; the reserved byte is dropped. */
  datatype ImgHdr = ImgHdr(pagenum: nat, compression: nat, chunkSize: nat, height: nat)

  /** The header fits the `<HBBII` layout: uint16, uint8, (uint8), uint32, uint32. */
  predicate Fits(h: ImgHdr) {
    h.pagenum < Pow256(2) && h.compression < 256 && h.chunkSize < Pow256(4) && h.height < Pow256(4)
  }

  /** `decode_imghdr`: unpacking fails unless there are exactly 12 bytes. */
  function DecodeImgHdr(data: seq<byte>): (r: Option<ImgHdr>)
    ensures r.Some? <==> |data| == 12
    ensures r.Some? ==> Fits(r.value)
  {
    if |data| != 12 then None
    else
      FromLEBound(data[0..2]);
      FromLEBound(data[4..8]);
      FromLEBound(data[8..12]);
      Some(ImgHdr(FromLE(data[0..2]), data[2], FromLE(data[4..8]), FromLE(data[8..12])))
  }

  /** The header as the device lays it out, with the given reserved byte. */
  function EncodeImgHdr(h: ImgHdr, reserved: byte): (r: seq<byte>)
    requires Fits(h)
    ensures |r| == 12
  {
    ToLE(h.pagenum, 2) + [h.compression, reserved] + ToLE(h.chunkSize, 4) + ToLE(h.height, 4)
  }

  lemma DecodeEncodeImgHdr(h: ImgHdr, reserved: byte)
    requires Fits(h)
    ensures DecodeImgHdr(EncodeImgHdr(h, reserved)) == Some(h)
  {
    var data := EncodeImgHdr(h, reserved);
    assert data[0..2] == ToLE(h.pagenum, 2);
    assert data[4..8] == ToLE(h.chunkSize, 4);
    assert data[8..12] == ToLE(h.height, 4);
    FromToLE(h.pagenum, 2);
    FromToLE(h.chunkSize, 4);
    FromToLE(h.height, 4);
  }

  /** Decoding loses nothing but the reserved byte at offset 3. */
  lemma EncodeDecodeImgHdr(data: seq<byte>)
    requires |data| == 12
    ensures EncodeImgHdr(DecodeImgHdr(data).value, data[3]) == data
  {
    ToFromLE(data[0..2]);
    ToFromLE(data[4..8]);
    ToFromLE(data[8..12]);
    assert data == data[0..2] + [data[2], data[3]] + data[4..8] + data[8..12];
  }

  // ---- Command frames and acknowledgements --------------------------------

  /** The byte that closes every command frame. */
  const FRAME_END: byte := 0x80

  /** ESC, the command name, a newline, the parameters, a newline, 0x80. */
  function Frame(name: seq<byte>, params: seq<byte>): seq<byte> {
    [ESC] + name + [NL] + params + [NL, FRAME_END]
  }

  /** Reads a frame back: the name runs up to the first newline. */
  function ParseFrame(f: seq<byte>): Option<(seq<byte>, seq<byte>)> {
    if |f| < 3 || f[0] != ESC || f[|f| - 2] != NL || f[|f| - 1] != FRAME_END then None
    else
      var parts := Split(f[1..|f| - 2], NL);
      if |parts| < 2 then None else Some((parts[0], Join(parts[1..], NL)))
  }

  lemma ParseFrameOf(name: seq<byte>, params: seq<byte>)
    requires NL !in name
    ensures ParseFrame(Frame(name, params)) == Some((name, params))
  {
    var f := Frame(name, params);
    assert f[1..|f| - 2] == name + [NL] + params;
    SplitAfter(name, NL, params);
    var parts := Split(f[1..|f| - 2], NL);
    assert parts[1..] == Split(params, NL);
  }

  /** Every frame that parses is the frame of what it parses to. */
  lemma FrameOfParse(f: seq<byte>)
    requires ParseFrame(f).Some?
    ensures NL !in ParseFrame(f).value.0
    ensures Frame(ParseFrame(f).value.0, ParseFrame(f).value.1) == f
  {
    var body := f[1..|f| - 2];
    var parts := Split(body, NL);
    assert Join(parts, NL) == parts[0] + [NL] + Join(parts[1..], NL);
    assert f == [f[0]] + body + [f[|f| - 2], f[|f| - 1]];
  }

  /** `set_source_d` */
  function SourceDFrame(source: seq<byte>): seq<byte> {
    Frame(Ascii("D"), source)
  }

  /** `set_source` */
  function SourceFrame(source: seq<byte>): seq<byte> {
    Frame(Ascii("S"), source)
  }

  /** `abort`: eject the current sheet or keep it. */
  function AbortFrame(eject: bool): seq<byte> {
    Frame(Ascii("ABT"), if eject then Ascii("EJCT=ONE") else Ascii("EJCT=NO"))
  }

  /** `scan` starts by sending the job parameters. */
  function XscFrame(req: XscRequest): seq<byte> {
    Frame(Ascii("XSC"), ToBytes(XscFields(req)))
  }

  /** `set_parameters` */
  function SspFrame(req: SspRequest): seq<byte> {
    Frame(Ascii("SSP"), ToBytes(SspFields(req)))
  }

  /** The abort frame names the command `ABT` and says whether to eject. */
  lemma AbortFrameParses(eject: bool)
    ensures ParseFrame(AbortFrame(eject)) ==
            Some((Ascii("ABT"), Ascii(if eject then "EJCT=ONE" else "EJCT=NO")))
    ensures AbortFrame(true) != AbortFrame(false)
  {
    assert Ascii("ABT") == [65, 66, 84];
    ParseFrameOf(Ascii("ABT"), Ascii("EJCT=ONE"));
    ParseFrameOf(Ascii("ABT"), Ascii("EJCT=NO"));
    assert Ascii("EJCT=ONE") != Ascii("EJCT=NO") by {
      assert |Ascii("EJCT=ONE")| != |Ascii("EJCT=NO")|;
    }
  }

  /** The bytes the source parameter of `set_source_d` and `set_source` defaults to. */
  function Adf(): seq<byte> {
    Ascii("ADF")
  }

  /**
   * With the default source, `set_source_d` and `set_source` send the
   * frames `D` and `S` carrying `ADF`; the two frames differ.
   */
  lemma DefaultSourceFrames()
    ensures ParseFrame(SourceDFrame(Adf())) == Some((Ascii("D"), Ascii("ADF")))
    ensures ParseFrame(SourceFrame(Adf())) == Some((Ascii("S"), Ascii("ADF")))
    ensures SourceDFrame(Adf()) != SourceFrame(Adf())
  {
    assert Ascii("D") == [68] && Ascii("S") == [83];
    ParseFrameOf(Ascii("D"), Adf());
    ParseFrameOf(Ascii("S"), Adf());
  }

  /** One USB read: the device either answers or the read times out. */
  datatype Reply = TimedOut | Data(bytes: seq<byte>)

  /** `set_source` and `set_source_d` accept only the single byte 0x80. */
  predicate SourceAcked(reply: Reply) {
    reply == Data([FRAME_END])
  }

  /** `abort` accepts only the two bytes 00 81. */
  predicate AbortAcked(reply: Reply) {
    reply == Data([0x00, 0x81])
  }

  /** `set_parameters` accepts a 0x26-byte reply that starts with 0x00. */
  predicate ParametersAccepted(reply: Reply) {
    reply.Data? && |reply.bytes| == 0x26 && reply.bytes[0] == 0x00
  }

  // ---- The scan loop ------------------------------------------------------

  /** A yielded page: the joined chunk bytes, cropped to `crop` rows when given. */
  datatype Page = Page(data: seq<byte>, crop: Option<nat>)

  /**
   * How a scan ends: the done code 0x20, the aborted code 0x40, a failed
   * assertion or exception, or (only in this model) the end of the recorded replies.
   */
  datatype End = Done | Aborted | Fault | Exhausted

  /**
   * The loop state: the chunks gathered since the last page, the pages
   * yielded, the frames written during the loop, the `aborting` flag, and
   * every chunk read so far.
   */
  datatype Loop = Loop(chunks: seq<seq<byte>>, pages: seq<Page>, writes: seq<seq<byte>>,
                       aborting: bool, received: seq<seq<byte>>)

  /** The state right after the XSC frame is written: `aborting` is cleared. */
  function Start(): Loop {
    Loop([], [], [], false, [])
  }

  datatype Move = Next(next: nat, st: Loop) | Halt(end: End, st: Loop)

  datatype Trace = Trace(end: End, last: Loop)

  /** Before read `i` the other thread may have set `aborting`. */
  function Raise(st: Loop, abortAt: set<nat>, i: nat): Loop {
    st.(aborting := st.aborting || i in abortAt)
  }

  /** A chunk arrives; a nonzero header height closes the page. */
  function Chunk(st: Loop, chunk: seq<byte>, height: nat): Loop {
    var chunks := st.chunks + [chunk];
    if height > 0 then
      st.(chunks := [], pages := st.pages + [Page(Concat(chunks), Some(height))], received := st.received + [chunk])
    else
      st.(chunks := chunks, received := st.received + [chunk])
  }

  /** After the loop: leftover chunks become one uncropped page. */
  function Flush(st: Loop): Loop {
    if |st.chunks| > 0 then st.(chunks := [], pages := st.pages + [Page(Concat(st.chunks), None)])
    else st
  }

  /** A status packet (command byte 0x00), dispatched on its detail byte. */
  function Status(replies: seq<Reply>, abortAt: set<nat>, i: nat, st: Loop, p: seq<byte>): (m: Move)
    requires i < |replies| && |p| >= 1
    ensures m.Next? ==> i < m.next <= |replies|
  {
    if |p| < 2 then Halt(Fault, st)
    else if p[1] == 0x01 || p[1] == 0x02 then
      match DecodeImgHdr(p[2..])
      case None => Halt(Fault, st)
      case Some(h) =>
        if i + 1 == |replies| then Halt(Exhausted, st)
        else
          var st := Raise(st, abortAt, i + 1);
          match replies[i + 1]
          case TimedOut => Halt(Fault, st)
          case Data(chunk) => Next(i + 2, Chunk(st, chunk, h.height))
    else if p[1] == 0x21 || p[1] == 0x23 then
      if |p| == 4 then Next(i + 1, st) else Halt(Fault, st)
    else if p[1] == 0x00 then
      if |p| == 2 then Next(i + 1, st) else Halt(Fault, st)
    else if p[1] == 0x11 then
      if |p| == 12 then Next(i + 1, st) else Halt(Fault, st)
    else if p[1] == 0x20 then Halt(Done, Flush(st))
    else if p[1] == 0x41 then Next(i + 1, st)
    else if p[1] == 0x40 then
      if |p| == 2 then Halt(Aborted, st) else Halt(Fault, st)
    else Halt(Fault, st)
  }

  /** One pass of the loop, starting at read `i`. */
  function Step(replies: seq<Reply>, abortAt: set<nat>, i: nat, st: Loop): (m: Move)
    requires i < |replies|
    ensures m.Next? ==> i < m.next <= |replies|
  {
    var st := Raise(st, abortAt, i);
    match replies[i]
    case TimedOut =>
      if st.aborting then Next(i + 1, st.(writes := st.writes + [AbortFrame(false)], aborting := false))
      else Next(i + 1, st)
    case Data(p) =>
      if |p| == 0 then Halt(Fault, st)
      else if p[0] == 0x00 then Status(replies, abortAt, i, st, p)
      else if p[0] == 0x01 then
        if p == [0, 0, 0, 0] then Next(i + 1, st) else Halt(Fault, st)
      else Halt(Fault, st)
  }

  /** The loop from read `i` on, until it halts or the replies run out. */
  function Run(replies: seq<Reply>, abortAt: set<nat>, i: nat, st: Loop): Trace
    decreases |replies| - i
  {
    if i >= |replies| then Trace(Exhausted, st)
    else
      match Step(replies, abortAt, i, st)
      case Next(j, st') => Run(replies, abortAt, j, st')
      case Halt(e, st') => Trace(e, st')
  }

  // ---- What the loop guarantees -------------------------------------------

  /** A page closed by a header with a nonzero height. */
  predicate Cropped(p: Page) {
    p.crop.Some? && p.crop.value > 0
  }

  /** The bytes of each page, in order. */
  function Datas(pages: seq<Page>): (r: seq<seq<byte>>)
    ensures |r| == |pages| && forall k :: 0 <= k < |pages| ==> r[k] == pages[k].data
  {
    seq(|pages|, k requires 0 <= k < |pages| => pages[k].data)
  }

  /** No chunk byte is lost or invented: yielded pages then pending chunks spell every chunk read. */
  predicate Conserved(st: Loop) {
    Concat(Datas(st.pages)) + Concat(st.chunks) == Concat(st.received)
  }

  lemma ChunkConserves(st: Loop, chunk: seq<byte>, height: nat)
    requires Conserved(st)
    ensures Conserved(Chunk(st, chunk, height))
  {
    ConcatAppend(st.chunks, [chunk]);
    ConcatAppend(st.received, [chunk]);
    ConcatOne(chunk);
    if height > 0 {
      ClosePageConserves(st, st.chunks + [chunk], chunk, height);
    } else {
      PendConserves(st, chunk);
    }
  }

  /** A chunk without a page height joins the pending chunks. */
  lemma PendConserves(st: Loop, chunk: seq<byte>)
    requires Conserved(st)
    requires Concat(st.chunks + [chunk]) == Concat(st.chunks) + chunk
    requires Concat(st.received + [chunk]) == Concat(st.received) + chunk
    ensures Conserved(Chunk(st, chunk, 0))
  {
    var p, c := Concat(Datas(st.pages)), Concat(st.chunks);
    assert p + (c + chunk) == (p + c) + chunk;
  }

  /** A chunk with a page height closes the pending chunks into a page. */
  lemma ClosePageConserves(st: Loop, chunks: seq<seq<byte>>, chunk: seq<byte>, height: nat)
    requires Conserved(st) && height > 0 && chunks == st.chunks + [chunk]
    requires Concat(chunks) == Concat(st.chunks) + chunk
    requires Concat(st.received + [chunk]) == Concat(st.received) + chunk
    ensures Conserved(Chunk(st, chunk, height))
  {
    var st' := Chunk(st, chunk, height);
    assert Datas(st'.pages) == Datas(st.pages) + [Concat(chunks)];
    ConcatAppend(Datas(st.pages), [Concat(chunks)]);
    ConcatOne(Concat(chunks));
    assert Concat(st'.chunks) == [];
  }

  lemma FlushConserves(st: Loop)
    requires Conserved(st)
    ensures Conserved(Flush(st)) && Flush(st).chunks == []
    ensures |st.chunks| > 0 ==> Flush(st).pages == st.pages + [Page(Concat(st.chunks), None)]
    ensures |st.chunks| == 0 ==> Flush(st) == st
  {
    if |st.chunks| > 0 {
      var page := Page(Concat(st.chunks), None);
      assert Datas(st.pages + [page]) == Datas(st.pages) + [Concat(st.chunks)];
      ConcatAppend(Datas(st.pages), [Concat(st.chunks)]);
      ConcatOne(Concat(st.chunks));
    }
  }

  lemma StepConserves(replies: seq<Reply>, abortAt: set<nat>, i: nat, st: Loop)
    requires i < |replies| && Conserved(st)
    ensures Conserved(Step(replies, abortAt, i, st).st)
    ensures Step(replies, abortAt, i, st) == Halt(Done, Step(replies, abortAt, i, st).st) ==>
            Step(replies, abortAt, i, st).st.chunks == []
  {
    var st1 := Raise(st, abortAt, i);
    if replies[i].Data? && |replies[i].bytes| >= 2 && replies[i].bytes[0] == 0x00 {
      var p := replies[i].bytes;
      if (p[1] == 0x01 || p[1] == 0x02) && DecodeImgHdr(p[2..]).Some? && i + 1 < |replies| && replies[i + 1].Data? {
        ChunkConserves(Raise(st1, abortAt, i + 1), replies[i + 1].bytes, DecodeImgHdr(p[2..]).value.height);
      } else if p[1] == 0x20 {
        FlushConserves(st1);
      }
    }
  }

  /**
   * Whatever way the loop ends, the pages it yielded followed by the chunks
   * still pending are exactly the chunks it read; after the done code
   * nothing is pending.
   */
  lemma {:induction false} RunConserves(replies: seq<Reply>, abortAt: set<nat>, i: nat, st: Loop)
    requires Conserved(st)
    ensures Conserved(Run(replies, abortAt, i, st).last)
    ensures Run(replies, abortAt, i, st).end == Done ==> Run(replies, abortAt, i, st).last.chunks == []
    decreases |replies| - i
  {
    if i < |replies| {
      StepConserves(replies, abortAt, i, st);
      match Step(replies, abortAt, i, st)
      case Next(j, st') => RunConserves(replies, abortAt, j, st');
      case Halt(e, st') =>
    }
  }

  /**
   * A scan that ends with the done code yields every chunk byte it read,
   * in order; one that ends otherwise yields a prefix of them.
   */
  lemma ScanYieldsChunks(replies: seq<Reply>, abortAt: set<nat>)
    ensures var t := Run(replies, abortAt, 0, Start());
            Concat(Datas(t.last.pages)) <= Concat(t.last.received) &&
            (t.end == Done ==> Concat(Datas(t.last.pages)) == Concat(t.last.received))
  {
    assert Datas([]) == [];
    RunConserves(replies, abortAt, 0, Start());
  }

  /**
   * Pages are yielded, never taken back; every page but a final one after
   * the done code is cropped to the nonzero height its header declared.
   */
  lemma {:induction false} RunPages(replies: seq<Reply>, abortAt: set<nat>, i: nat, st: Loop)
    requires forall k :: 0 <= k < |st.pages| ==> Cropped(st.pages[k])
    ensures var t := Run(replies, abortAt, i, st);
            st.pages <= t.last.pages &&
            forall k :: 0 <= k < |t.last.pages| ==> Cropped(t.last.pages[k]) || (t.end == Done && k == |t.last.pages| - 1)
    decreases |replies| - i
  {
    if i < |replies| {
      match Step(replies, abortAt, i, st)
      case Next(j, st') => RunPages(replies, abortAt, j, st');
      case Halt(e, st') =>
    }
  }

  /** No request set before a read at `i` or later. */
  predicate QuietFrom(abortAt: set<nat>, i: nat) {
    forall k :: k in abortAt ==> k < i
  }

  /**
   * The loop writes nothing but soft aborts `ABT EJCT=NO`, and none at all
   * unless another thread asked for one.
   */
  lemma {:induction false} RunWrites(replies: seq<Reply>, abortAt: set<nat>, i: nat, st: Loop)
    ensures var t := Run(replies, abortAt, i, st);
            st.writes <= t.last.writes &&
            (forall k :: |st.writes| <= k < |t.last.writes| ==> t.last.writes[k] == AbortFrame(false)) &&
            (!st.aborting && QuietFrom(abortAt, i) ==> t.last.writes == st.writes)
    decreases |replies| - i
  {
    if i < |replies| {
      match Step(replies, abortAt, i, st)
      case Next(j, st') =>
        RunWrites(replies, abortAt, j, st');
      case Halt(e, st') =>
    }
  }

  /**
   * A timeout while `aborting` is set writes exactly one soft abort and
   * clears the flag, and the loop keeps polling: a second timeout with no
   * new request writes nothing.
   */
  lemma SoftAbortOnce(replies: seq<Reply>, abortAt: set<nat>, i: nat, st: Loop)
    requires i + 1 < |replies| && replies[i] == TimedOut && replies[i + 1] == TimedOut
    requires (st.aborting || i in abortAt) && i + 1 !in abortAt
    ensures Run(replies, abortAt, i, st) ==
            Run(replies, abortAt, i + 2, st.(writes := st.writes + [AbortFrame(false)], aborting := false))
  {
    var st1 := st.(writes := st.writes + [AbortFrame(false)], aborting := false);
    assert Step(replies, abortAt, i, st) == Next(i + 1, st1);
    assert Step(replies, abortAt, i + 1, st1) == Next(i + 2, st1);
  }

  /** Command byte 0x01 can never be followed by the four zero bytes the check wants. */
  lemma Cmd01Faults(replies: seq<Reply>, abortAt: set<nat>, i: nat, st: Loop)
    requires i < |replies| && replies[i].Data? && |replies[i].bytes| > 0 && replies[i].bytes[0] == 0x01
    ensures Step(replies, abortAt, i, st).Halt? && Step(replies, abortAt, i, st).end == Fault
  {
    assert replies[i].bytes != [0, 0, 0, 0] by {
      assert replies[i].bytes[0] != 0;
    }
  }

  /** The informational details 0x00, 0x11, 0x21, 0x23 and 0x41, at their lengths, leave pages and chunks as they are. */
  lemma InfoKeepsState(replies: seq<Reply>, abortAt: set<nat>, i: nat, st: Loop)
    requires i < |replies| && replies[i].Data? && |replies[i].bytes| >= 2
    requires var p := replies[i].bytes;
             p[0] == 0x00 &&
             ((p[1] == 0x00 && |p| == 2) || (p[1] == 0x11 && |p| == 12) ||
              ((p[1] == 0x21 || p[1] == 0x23) && |p| == 4) || p[1] == 0x41)
    ensures Step(replies, abortAt, i, st) == Next(i + 1, Raise(st, abortAt, i))
  {
  }

  /** An informational detail of the wrong length fails its assertion. */
  lemma InfoBadLengthFaults(replies: seq<Reply>, abortAt: set<nat>, i: nat, st: Loop)
    requires i < |replies| && replies[i].Data? && |replies[i].bytes| >= 2
    requires var p := replies[i].bytes;
             p[0] == 0x00 &&
             ((p[1] == 0x00 && |p| != 2) || (p[1] == 0x11 && |p| != 12) ||
              ((p[1] == 0x21 || p[1] == 0x23) && |p| != 4))
    ensures Step(replies, abortAt, i, st) == Halt(Fault, Raise(st, abortAt, i))
  {
  }

  /** Status details the loop does not know, 0x51 among them, are fatal; so are command bytes above 0x01. */
  lemma UnknownCodesFault(replies: seq<Reply>, abortAt: set<nat>, i: nat, st: Loop)
    requires i < |replies| && replies[i].Data? && |replies[i].bytes| >= 2
    requires var p := replies[i].bytes;
             p[0] > 0x01 || (p[0] == 0x00 && p[1] !in {0x00, 0x01, 0x02, 0x11, 0x20, 0x21, 0x23, 0x40, 0x41})
    ensures Step(replies, abortAt, i, st).Halt? && Step(replies, abortAt, i, st).end == Fault
  {
  }

  /** The aborted code ends the scan and discards the chunks gathered for an unfinished page. */
  lemma AbortDiscards(replies: seq<Reply>, abortAt: set<nat>, i: nat, st: Loop)
    requires i < |replies| && replies[i] == Data([0x00, 0x40])
    ensures Run(replies, abortAt, i, st) == Trace(Aborted, Raise(st, abortAt, i))
    ensures Run(replies, abortAt, i, st).last.pages == st.pages
  {
  }

  // ---- Chunk sequences --------------------------------------------------

  const U32_LIMIT: nat := 0x1_0000_0000

  lemma Pow256Four()
    ensures Pow256(2) == 0x1_0000 && Pow256(4) == U32_LIMIT
  {
  }

  /** A chunk header packet (detail 0x02) announcing `size` bytes and `height` rows. */
  function Header(size: nat, height: nat): seq<byte>
    requires size < U32_LIMIT && height < U32_LIMIT
  {
    Pow256Four();
    [0x00, 0x02] + EncodeImgHdr(ImgHdr(0, 0, size, height), 0)
  }

  /** A chunk header whose height is zero, then the chunk, for each chunk in turn. */
  function OpenChunks(chunks: seq<seq<byte>>): seq<Reply>
    requires forall k :: 0 <= k < |chunks| ==> |chunks[k]| < U32_LIMIT
  {
    if chunks == [] then [] else [Data(Header(|chunks[0]|, 0)), Data(chunks[0])] + OpenChunks(chunks[1..])
  }

  lemma OpenChunksLength(chunks: seq<seq<byte>>)
    requires forall k :: 0 <= k < |chunks| ==> |chunks[k]| < U32_LIMIT
    ensures |OpenChunks(chunks)| == 2 * |chunks|
  {
  }

  /** A header with its chunk: the chunk is gathered, and a nonzero height closes the page. */
  lemma HeaderThenChunk(replies: seq<Reply>, abortAt: set<nat>, i: nat, st: Loop, chunk: seq<byte>, height: nat)
    requires |chunk| < U32_LIMIT && height < U32_LIMIT
    requires i + 1 < |replies| && replies[i] == Data(Header(|chunk|, height)) && replies[i + 1] == Data(chunk)
    ensures Step(replies, abortAt, i, st) == Next(i + 2, Chunk(Raise(Raise(st, abortAt, i), abortAt, i + 1), chunk, height))
  {
    Pow256Four();
    var p := Header(|chunk|, height);
    assert p[2..] == EncodeImgHdr(ImgHdr(0, 0, |chunk|, height), 0);
    DecodeEncodeImgHdr(ImgHdr(0, 0, |chunk|, height), 0);
  }

  /** `Run` takes one move of the loop: it stops where `Step` halts, else goes on from where `Step` leads. */
  lemma StepRun(replies: seq<Reply>, abortAt: set<nat>, i: nat, st: Loop)
    requires i < |replies|
    ensures var m := Step(replies, abortAt, i, st);
            Run(replies, abortAt, i, st) == if m.Halt? then Trace(m.end, m.st) else Run(replies, abortAt, m.next, m.st)
  {
  }

  lemma RunNext(replies: seq<Reply>, abortAt: set<nat>, i: nat, st: Loop, j: nat, st': Loop)
    requires i < |replies| && Step(replies, abortAt, i, st) == Next(j, st')
    ensures Run(replies, abortAt, i, st) == Run(replies, abortAt, j, st')
  {
  }

  /** The state after the loop has gathered `chunks` under zero-height headers from read `i` on. */
  function Gathered(st: Loop, abortAt: set<nat>, i: nat, chunks: seq<seq<byte>>): Loop
    decreases |chunks|
  {
    if chunks == [] then st
    else Gathered(Chunk(Raise(Raise(st, abortAt, i), abortAt, i + 1), chunks[0], 0), abortAt, i + 2, chunks[1..])
  }

  /** Gathering adds the chunks to those pending; it yields no page and writes nothing. */
  lemma {:induction false} GatheredState(st: Loop, abortAt: set<nat>, i: nat, chunks: seq<seq<byte>>)
    ensures var g := Gathered(st, abortAt, i, chunks);
            g.chunks == st.chunks + chunks && g.pages == st.pages && g.writes == st.writes
    decreases |chunks|
  {
    if chunks == [] {
      assert st.chunks + chunks == st.chunks;
    } else {
      GatheredState(Chunk(Raise(Raise(st, abortAt, i), abortAt, i + 1), chunks[0], 0), abortAt, i + 2, chunks[1..]);
      assert st.chunks + [chunks[0]] + chunks[1..] == st.chunks + chunks;
    }
  }

  /** Chunks under zero-height headers pile up, one header and chunk at a time. */
  lemma {:induction false} GatherChunks(replies: seq<Reply>, abortAt: set<nat>, i: nat, st: Loop, chunks: seq<seq<byte>>)
    requires forall k :: 0 <= k < |chunks| ==> |chunks[k]| < U32_LIMIT
    requires i + 2 * |chunks| <= |replies| && replies[i..i + 2 * |chunks|] == OpenChunks(chunks)
    ensures Run(replies, abortAt, i, st) == Run(replies, abortAt, i + 2 * |chunks|, Gathered(st, abortAt, i, chunks))
    decreases |chunks|
  {
    if chunks != [] {
      var st1 := GatherFirst(replies, abortAt, i, st, chunks);
      assert i + 2 + 2 * |chunks[1..]| == i + 2 * |chunks|;
      GatherChunks(replies, abortAt, i + 2, st1, chunks[1..]);
    } else {
      assert Gathered(st, abortAt, i, chunks) == st && i + 2 * |chunks| == i;
    }
  }

  /** The first zero-height header and its chunk, as one move of the loop. */
  lemma GatherFirst(replies: seq<Reply>, abortAt: set<nat>, i: nat, st: Loop, chunks: seq<seq<byte>>) returns (st1: Loop)
    requires chunks != [] && forall k :: 0 <= k < |chunks| ==> |chunks[k]| < U32_LIMIT
    requires i + 2 * |chunks| <= |replies| && replies[i..i + 2 * |chunks|] == OpenChunks(chunks)
    ensures st1 == Chunk(Raise(Raise(st, abortAt, i), abortAt, i + 1), chunks[0], 0)
    ensures Gathered(st, abortAt, i, chunks) == Gathered(st1, abortAt, i + 2, chunks[1..])
    ensures Run(replies, abortAt, i, st) == Run(replies, abortAt, i + 2, st1)
    ensures replies[i + 2..i + 2 + 2 * |chunks[1..]|] == OpenChunks(chunks[1..])
  {
    OpenChunksFirst(replies, i, chunks);
    HeaderThenChunk(replies, abortAt, i, st, chunks[0], 0);
    st1 := Chunk(Raise(Raise(st, abortAt, i), abortAt, i + 1), chunks[0], 0);
    RunNext(replies, abortAt, i, st, i + 2, st1);
  }

  /** Where `OpenChunks` sits in the replies: the first header and chunk, then the rest. */
  lemma OpenChunksFirst(replies: seq<Reply>, i: nat, chunks: seq<seq<byte>>)
    requires chunks != [] && forall k :: 0 <= k < |chunks| ==> |chunks[k]| < U32_LIMIT
    requires i + 2 * |chunks| <= |replies| && replies[i..i + 2 * |chunks|] == OpenChunks(chunks)
    ensures replies[i] == Data(Header(|chunks[0]|, 0)) && replies[i + 1] == Data(chunks[0])
    ensures replies[i + 2..i + 2 + 2 * |chunks[1..]|] == OpenChunks(chunks[1..])
  {
    var window := replies[i..i + 2 * |chunks|];
    assert window[0] == replies[i] && window[1] == replies[i + 1];
    OpenChunksLength(chunks[1..]);
    assert replies[i + 2..i + 2 + 2 * |chunks[1..]|] == window[2..];
  }

  /**
   * A run of chunks under zero-height headers, closed by a chunk whose
   * header declares `height` > 0, yields one page of exactly their joined
   * bytes, cropped to that height.
   */
  lemma PageOfChunks(replies: seq<Reply>, abortAt: set<nat>, i: nat, st: Loop,
                     chunks: seq<seq<byte>>, last: seq<byte>, height: nat)
    requires forall k :: 0 <= k < |chunks| ==> |chunks[k]| < U32_LIMIT
    requires |last| < U32_LIMIT && 0 < height < U32_LIMIT
    requires st.chunks == []
    requires i + 2 * |chunks| + 2 <= |replies|
    requires replies[i..i + 2 * |chunks|] == OpenChunks(chunks)
    requires replies[i + 2 * |chunks|] == Data(Header(|last|, height))
    requires replies[i + 2 * |chunks| + 1] == Data(last)
    ensures var st' := Closed(st, abortAt, i, chunks, last, height);
            Run(replies, abortAt, i, st) == Run(replies, abortAt, i + 2 * |chunks| + 2, st') &&
            st'.pages == st.pages + [Page(Concat(chunks + [last]), Some(height))] &&
            st'.chunks == [] && st'.writes == st.writes
  {
    GatherChunks(replies, abortAt, i, st, chunks);
    var j := i + 2 * |chunks|;
    var st1 := Gathered(st, abortAt, i, chunks);
    GatheredState(st, abortAt, i, chunks);
    assert st1.chunks == chunks;
    HeaderThenChunk(replies, abortAt, j, st1, last, height);
    RunNext(replies, abortAt, j, st1, j + 2, Closed(st, abortAt, i, chunks, last, height));
  }

  /** The state after `PageOfChunks`: the gathered chunks and `last`, closed into a page. */
  function Closed(st: Loop, abortAt: set<nat>, i: nat, chunks: seq<seq<byte>>, last: seq<byte>, height: nat): Loop {
    var j := i + 2 * |chunks|;
    Chunk(Raise(Raise(Gathered(st, abortAt, i, chunks), abortAt, j), abortAt, j + 1), last, height)
  }

  /** The done code with nothing pending ends the scan with the pages as they are. */
  lemma DoneAt(replies: seq<Reply>, abortAt: set<nat>, i: nat, st: Loop)
    requires i < |replies| && replies[i] == Data([0x00, 0x20]) && st.chunks == []
    ensures Run(replies, abortAt, i, st) == Trace(Done, Raise(st, abortAt, i))
  {
  }

  /** The done code with chunks pending yields them as one last, uncropped page and ends the scan. */
  lemma DoneFlushes(replies: seq<Reply>, abortAt: set<nat>, i: nat, st: Loop)
    requires i < |replies| && replies[i].Data? && |replies[i].bytes| >= 2
    requires replies[i].bytes[0] == 0x00 && replies[i].bytes[1] == 0x20 && |st.chunks| > 0
    ensures var t := Run(replies, abortAt, i, st);
            t.end == Done && t.last.chunks == [] && t.last.writes == st.writes &&
            t.last.pages == st.pages + [Page(Concat(st.chunks), None)]
  {
  }

  /**
   * End to end: chunks, a closing chunk with height 100 and the done code
   * give exactly one page of those bytes, cropped to 100 rows.
   */
  lemma ScanOnePage(chunks: seq<seq<byte>>, last: seq<byte>, abortAt: set<nat>)
    requires forall k :: 0 <= k < |chunks| ==> |chunks[k]| < U32_LIMIT
    requires |last| < U32_LIMIT
    ensures var replies := OpenChunks(chunks) + [Data(Header(|last|, 100)), Data(last), Data([0x00, 0x20])];
            var t := Run(replies, abortAt, 0, Start());
            t.end == Done && t.last.pages == [Page(Concat(chunks + [last]), Some(100))]
  {
    var replies := OpenChunks(chunks) + [Data(Header(|last|, 100)), Data(last), Data([0x00, 0x20])];
    OpenChunksLength(chunks);
    var n := 2 * |chunks|;
    assert replies[0..n] == OpenChunks(chunks);
    PageOfChunks(replies, abortAt, 0, Start(), chunks, last, 100);
    var st' := Closed(Start(), abortAt, 0, chunks, last, 100);
    DoneAt(replies, abortAt, n + 2, st');
  }

  /** End to end: chunks that no header closed, then the aborted code, give no page at all. */
  lemma ScanAbortedNoPage(chunks: seq<seq<byte>>, abortAt: set<nat>)
    requires forall k :: 0 <= k < |chunks| ==> |chunks[k]| < U32_LIMIT
    ensures var t := Run(OpenChunks(chunks) + [Data([0x00, 0x40])], abortAt, 0, Start());
            t.end == Aborted && t.last.pages == []
  {
    var replies := OpenChunks(chunks) + [Data([0x00, 0x40])];
    OpenChunksLength(chunks);
    var n := 2 * |chunks|;
    assert replies[0..n] == OpenChunks(chunks);
    GatherChunks(replies, abortAt, 0, Start(), chunks);
    var st' := Gathered(Start(), abortAt, 0, chunks);
    GatheredState(Start(), abortAt, 0, chunks);
    AbortDiscards(replies, abortAt, n, st');
  }

  // ---- The driver object ------------------------------------------------

  /**
   * `DSDriver`: every frame written to the device is logged in `sent`;
   * each read the device answers is passed in as a `Reply`.
   */
  class DsDriver {
    var aborting: bool
    var sent: seq<seq<byte>>

    constructor ()
      ensures !aborting && sent == []
    {
      aborting := false;
      sent := [];
    }

    method SetSourceD(source: seq<byte>, reply: Reply) returns (ok: bool)
      modifies this
      ensures sent == old(sent) + [SourceDFrame(source)] && aborting == old(aborting)
      ensures ok <==> SourceAcked(reply)
    {
      sent := sent + [SourceDFrame(source)];
      ok := reply == Data([FRAME_END]);
    }

    method Abort(eject: bool, reply: Reply) returns (ok: bool)
      modifies this
      ensures sent == old(sent) + [AbortFrame(eject)] && aborting == old(aborting)
      ensures ok <==> AbortAcked(reply)
    {
      if eject {
        sent := sent + [Frame(Ascii("ABT"), Ascii("EJCT=ONE"))];
      } else {
        sent := sent + [Frame(Ascii("ABT"), Ascii("EJCT=NO"))];
      }
      ok := reply == Data([0x00, 0x81]);
    }

    method SetSource(source: seq<byte>, reply: Reply) returns (ok: bool)
      modifies this
      ensures sent == old(sent) + [SourceFrame(source)] && aborting == old(aborting)
      ensures ok <==> SourceAcked(reply)
    {
      sent := sent + [SourceFrame(source)];
      ok := reply == Data([FRAME_END]);
    }

    method SetParameters(req: SspRequest, reply: Reply) returns (ok: bool)
      modifies this
      ensures sent == old(sent) + [SspFrame(req)] && aborting == old(aborting)
      ensures ok <==> ParametersAccepted(reply)
    {
      sent := sent + [SspFrame(req)];
      match reply
      case TimedOut => ok := false;
      case Data(packet) => ok := |packet| > 0 && packet[0] == 0x00 && |packet| == 0x26;
    }

    /**
     * `scan`: sends the job, then dispatches packets until the done or
     * aborted code, a fault, or the end of `replies`. `abortAt` holds the
     * replies before which another thread sets `aborting`.
     */
    method Scan(req: XscRequest, replies: seq<Reply>, abortAt: set<nat>) returns (pages: seq<Page>, end: End)
      modifies this
      ensures var t := Run(replies, abortAt, 0, Start());
              pages == t.last.pages && end == t.end && aborting == t.last.aborting &&
              sent == old(sent) + [XscFrame(req)] + t.last.writes
    {
      sent := sent + [XscFrame(req)];
      pages, end := Dispatch(replies, abortAt);
    }

    /** The loop of `scan` after the job is sent: `aborting` is cleared, then the replies are dispatched. */
    method Dispatch(replies: seq<Reply>, abortAt: set<nat>) returns (pages: seq<Page>, end: End)
      modifies this
      ensures var t := Run(replies, abortAt, 0, Start());
              pages == t.last.pages && end == t.end && aborting == t.last.aborting &&
              sent == old(sent) + t.last.writes
    {
      aborting := false;
      var imgData: seq<seq<byte>> := [];
      pages := [];
      ghost var written: seq<seq<byte>> := [];
      ghost var received: seq<seq<byte>> := [];
      var i := 0;
      var halt: Option<End> := None;
      while i < |replies| && halt.None?
        invariant i <= |replies|
        invariant var st := Loop(imgData, pages, written, aborting, received);
                  Run(replies, abortAt, 0, Start()) == if halt.Some? then Trace(halt.value, st) else Run(replies, abortAt, i, st)
        invariant sent == old(sent) + written
        decreases |replies| - i, if halt.None? then 1 else 0
      {
        ghost var st := Loop(imgData, pages, written, aborting, received);
        StepRun(replies, abortAt, i, st);
        var next, w;
        next, imgData, pages, w, received, halt := Poll(replies, abortAt, i, imgData, pages, written, received);
        written := written + w;
        if halt.None? {
          i := next;
        }
      }
      end := if halt.Some? then halt.value else Exhausted;
    }

    /**
     * One pass of `scan`'s loop at read `i`: the frames `w` it writes, and
     * the end it stops with, if any.
     */
    method Poll(replies: seq<Reply>, abortAt: set<nat>, i: nat, imgData: seq<seq<byte>>, pages: seq<Page>,
                ghost written: seq<seq<byte>>, ghost received: seq<seq<byte>>)
      returns (next: nat, imgData': seq<seq<byte>>, pages': seq<Page>, w: seq<seq<byte>>,
               ghost received': seq<seq<byte>>, halt: Option<End>)
      requires i < |replies|
      modifies this
      ensures sent == old(sent) + w
      ensures var m := Step(replies, abortAt, i, Loop(imgData, pages, written, old(aborting), received));
              m.st == Loop(imgData', pages', written + w, aborting, received') &&
              (halt.None? <==> m.Next?) && (m.Next? ==> next == m.next) && (m.Halt? ==> halt == Some(m.end))
    {
      next, imgData', pages', w, received', halt := i + 1, imgData, pages, [], received, None;
      aborting := aborting || i in abortAt;
      match replies[i]
      case TimedOut =>
        if aborting {
          sent := sent + [AbortFrame(false)];
          w := [AbortFrame(false)];
          aborting := false;
        }
      case Data(packet) =>
        if |packet| == 0 {
          halt := Some(Fault);
        } else if packet[0] == 0x00 {
          next, imgData', pages', received', halt := PollStatus(replies, abortAt, i, packet, imgData, pages, written, received);
        } else if packet[0] == 0x01 {
          if packet != [0, 0, 0, 0] {
            halt := Some(Fault);
          }
        } else {
          halt := Some(Fault);
        }
    }

    /** A status packet (command byte 0x00), dispatched on its detail byte. */
    method PollStatus(replies: seq<Reply>, abortAt: set<nat>, i: nat, packet: seq<byte>, imgData: seq<seq<byte>>,
                      pages: seq<Page>, ghost written: seq<seq<byte>>, ghost received: seq<seq<byte>>)
      returns (next: nat, imgData': seq<seq<byte>>, pages': seq<Page>, ghost received': seq<seq<byte>>, halt: Option<End>)
      requires i < |replies| && |packet| >= 1
      modifies this
      ensures sent == old(sent)
      ensures var m := Status(replies, abortAt, i, Loop(imgData, pages, written, old(aborting), received), packet);
              m.st == Loop(imgData', pages', written, aborting, received') &&
              (halt.None? <==> m.Next?) && (m.Next? ==> next == m.next) && (m.Halt? ==> halt == Some(m.end))
    {
      next, imgData', pages', received', halt := i + 1, imgData, pages, received, None;
      if |packet| < 2 {
        halt := Some(Fault);
        return;
      }
      var detail := packet[1];
      if detail == 0x01 || detail == 0x02 {
        var hdr := DecodeImgHdr(packet[2..]);
        if hdr.None? {
          halt := Some(Fault);
        } else if i + 1 == |replies| {
          halt := Some(Exhausted);
        } else {
          aborting := aborting || i + 1 in abortAt;
          if replies[i + 1].TimedOut? {
            halt := Some(Fault);
            return;
          }
          var chunk := replies[i + 1].bytes;
          imgData' := imgData + [chunk];
          received' := received + [chunk];
          if hdr.value.height > 0 {
            pages' := pages + [Page(Concat(imgData'), Some(hdr.value.height))];
            imgData' := [];
          }
          next := i + 2;
        }
      } else if detail == 0x21 || detail == 0x23 {
        if |packet| != 4 {
          halt := Some(Fault);
        }
      } else if detail == 0x00 {
        if |packet| != 2 {
          halt := Some(Fault);
        }
      } else if detail == 0x11 {
        if |packet| != 12 {
          halt := Some(Fault);
        }
      } else if detail == 0x20 {
        if |imgData| > 0 {
          pages' := pages + [Page(Concat(imgData), None)];
          imgData' := [];
        }
        halt := Some(Done);
      } else if detail == 0x41 {
      } else if detail == 0x40 {
        halt := Some(if |packet| == 2 then Aborted else Fault);
      } else {
        halt := Some(Fault);
      }
    }
  }
}
