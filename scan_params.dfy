/**
 * The parameter records of the scanner's wire protocol and their
 * serialisation (`SerializableScanParam.to_bytes`): one `KEY=VALUE\n` line per
 * field, in declaration order, leaving out every field whose value is `None`.
 */
module ScanParams {
  import opened Bytes
  import opened Wrappers

  /** The Python values a parameter field can hold. */
  datatype Value =
    | Null                    // None
    | Raw(bytes: seq<byte>)   // bytes
    | Int(n: int)             // int
    | Text(s: AsciiString)    // str
    | Tuple(items: seq<Value>)

  /**
   * `_as_bytes`: bytes are copied, tuples joined with `b","` item by item,
   * anything else rendered with `str(v).encode()` (so a `None` inside a
   * tuple becomes `None`).
   */
  function Encode(v: Value): seq<byte>
    decreases v
  {
    match v
    case Null => Ascii("None")
    case Raw(b) => b
    case Int(n) => Decimal(n)
    case Text(s) => Ascii(s)
    case Tuple(items) => Join(EncodeItems(items), COMMA)
  }

  function EncodeItems(items: seq<Value>): (r: seq<seq<byte>>)
    decreases items
    ensures |r| == |items|
    ensures forall k :: 0 <= k < |items| ==> r[k] == Encode(items[k])
  {
    if items == [] then [] else [Encode(items[0])] + EncodeItems(items[1..])
  }

  /** A tuple of integers renders as the decimals joined by commas, and reads back item by item. */
  lemma IntTupleSplits(ns: seq<int>)
    requires |ns| >= 1
    ensures var items := seq(|ns|, k requires 0 <= k < |ns| => Int(ns[k]));
            var parts := Split(Encode(Tuple(items)), COMMA);
            |parts| == |ns| && forall k :: 0 <= k < |ns| ==> ParseDecimal(parts[k]) == ns[k]
  {
    var items := seq(|ns|, k requires 0 <= k < |ns| => Int(ns[k]));
    var enc := EncodeItems(items);
    forall k | 0 <= k < |ns| ensures COMMA !in enc[k] && ParseDecimal(enc[k]) == ns[k] {
      DecimalPlain(ns[k]);
      DecimalRoundTrip(ns[k]);
    }
    SplitJoin(enc, COMMA);
  }

  /** The default margin `(0, 0, 0, 0)` renders as `0,0,0,0`. */
  lemma ZeroMarginEncoding()
    ensures Encode(Tuple([Int(0), Int(0), Int(0), Int(0)])) == Ascii("0,0,0,0")
  {
    var e := EncodeItems([Int(0), Int(0), Int(0), Int(0)]);
    assert e == [[ZERO], [ZERO], [ZERO], [ZERO]];
  }

  datatype Field = Field(key: string, value: Value)

  /** The text of one field's line, without its newline. */
  function LineBody(f: Field): seq<byte> {
    Ascii(f.key) + [EQ] + Encode(f.value)
  }

  /** The fields that are not `None`, in declaration order. */
  function Present(fields: seq<Field>): (r: seq<Field>)
    ensures |r| <= |fields|
  {
    if fields == [] then []
    else if fields[0].value == Null then Present(fields[1..])
    else [fields[0]] + Present(fields[1..])
  }

  /** `to_bytes` keeps only fields of the input, and none whose value is `None`. */
  lemma {:induction false} PresentFrom(fields: seq<Field>)
    ensures forall f :: f in Present(fields) ==> f in fields && f.value != Null
  {
    if fields != [] {
      PresentFrom(fields[1..]);
    }
  }

  /** `to_bytes` */
  function ToBytes(fields: seq<Field>): seq<byte> {
    if fields == [] then []
    else if fields[0].value == Null then ToBytes(fields[1..])
    else LineBody(fields[0]) + [NL] + ToBytes(fields[1..])
  }

  function Bodies(fields: seq<Field>): (r: seq<seq<byte>>)
    ensures |r| == |fields|
    ensures forall k :: 0 <= k < |fields| ==> r[k] == LineBody(fields[k])
  {
    if fields == [] then [] else [LineBody(fields[0])] + Bodies(fields[1..])
  }

  /** The serialisation is exactly the present fields' lines, each ended by a newline. */
  lemma {:induction false} ToBytesLines(fields: seq<Field>)
    ensures ToBytes(fields) == Terminated(Bodies(Present(fields)), NL)
  {
    if fields != [] {
      ToBytesLines(fields[1..]);
    }
  }

  /** Keys and rendered values that keep the line format unambiguous. */
  predicate WellFormed(fields: seq<Field>) {
    forall f :: f in fields ==> |f.key| > 0 && EQ !in Ascii(f.key) && NL !in Ascii(f.key) && NL !in Encode(f.value)
  }

  /** One parsed line: the text before its first `=` and the text after it. */
  function ParseLine(line: seq<byte>): (seq<byte>, seq<byte>) {
    var parts := Split(line, EQ);
    (parts[0], Join(parts[1..], EQ))
  }

  /** Reads `KEY=VALUE\n` lines back into (key, value) pairs. */
  function ParseParams(s: seq<byte>): (r: seq<(seq<byte>, seq<byte>)>)
    ensures |r| == |CompleteLines(s)|
  {
    var lines := CompleteLines(s);
    seq(|lines|, k requires 0 <= k < |lines| => ParseLine(lines[k]))
  }

  /** What a present field contributes: its key and its rendered value. */
  function Entry(f: Field): (seq<byte>, seq<byte>) {
    (Ascii(f.key), Encode(f.value))
  }

  lemma ParseLineBody(f: Field)
    requires EQ !in Ascii(f.key)
    ensures ParseLine(LineBody(f)) == Entry(f)
  {
    SplitAfter(Ascii(f.key), EQ, Encode(f.value));
    var parts := Split(LineBody(f), EQ);
    assert parts[1..] == Split(Encode(f.value), EQ);
  }

  /**
   * Round trip: parsing the serialisation gives back, in declaration order,
   * exactly one (key, value) pair per field that is not `None`.
   */
  lemma ParseToBytes(fields: seq<Field>)
    requires WellFormed(fields)
    ensures var present := Present(fields);
            ParseParams(ToBytes(fields)) == seq(|present|, k requires 0 <= k < |present| => Entry(present[k]))
  {
    var present := Present(fields);
    var bodies := Bodies(present);
    PresentFrom(fields);
    ToBytesLines(fields);
    assert FreeOf(bodies, NL) by {
      forall k | 0 <= k < |bodies| ensures NL !in bodies[k] {
        assert present[k] in fields;
        assert bodies[k] == Ascii(present[k].key) + [EQ] + Encode(present[k].value);
      }
    }
    CompleteLinesOf(bodies, []);
    assert Terminated(bodies, NL) + [] == Terminated(bodies, NL);
    forall k | 0 <= k < |present| ensures ParseLine(bodies[k]) == Entry(present[k]) {
      assert present[k] in fields;
      ParseLineBody(present[k]);
    }
  }

  /** The keys that appear in a serialisation: those of the present fields. */
  function Keys(fields: seq<Field>): (r: seq<string>)
    ensures |r| == |fields| && forall k :: 0 <= k < |fields| ==> r[k] == fields[k].key
  {
    seq(|fields|, k requires 0 <= k < |fields| => fields[k].key)
  }

  // ---- The two requests the driver sends -------------------------------

  /** `XSCRequest`: starts a scan job. */
  datatype XscRequest = XscRequest(reso: (int, int), area: (int, int, int, int), mode: AsciiString)

  /** `XSCRequest(RESO=..., AREA=...)`: `MODE` defaults to `NORMAL`. */
  function DefaultXsc(reso: (int, int), area: (int, int, int, int)): XscRequest {
    XscRequest(reso, area, "NORMAL")
  }

  function XscFields(r: XscRequest): seq<Field> {
    [ Field("RESO", Tuple([Int(r.reso.0), Int(r.reso.1)])),
      Field("AREA", Tuple([Int(r.area.0), Int(r.area.1), Int(r.area.2), Int(r.area.3)])),
      Field("MODE", Text(r.mode)) ]
  }

  /** `SSPRequest`: sets the scan parameters; fields in declaration order. */
  datatype SspRequest = SspRequest(
    reso: (Value, Value),  // "AUTO" or a dpi value, per axis
    os: AsciiString,
    psrc: AsciiString,
    dplx: AsciiString,
    page: AsciiString,
    clr: AsciiString,
    area: Value,           // "NORMAL" | "OVER" | "AUTO" | int
    mrgn: (int, int, int, int),
    cont: int,
    brit: int,
    atcl: Option<int>,
    thrs: Value,           // "AUTO" | int | None
    comp: AsciiString,
    jsf: AsciiString,
    rate: int,
    long: AsciiString,
    dtdf: AsciiString,
    opdf: Option<AsciiString>,
    rmbp: Value,           // "ON" | "OFF" | int
    gmma: Value,           // "OFF" | int
    tone: AsciiString,
    atcn: AsciiString,
    atfd: Option<int>)

  /** `SSPRequest(RESO=reso)` with every other field at its declared default. */
  function DefaultSsp(reso: (Value, Value)): SspRequest {
    SspRequest(reso, "RPI", "AUTO", "OFF", "0", "C24BIT", Text("OVER"), (0, 0, 0, 0), 50, 50,
               None, Null, "JPEG", "420", 0, "OFF", "OFF", None, Text("OFF"), Text("OFF"), "OFF", "OFF", None)
  }

  function OptInt(o: Option<int>): Value {
    match o
    case None => Null
    case Some(n) => Int(n)
  }

  function OptText(o: Option<AsciiString>): Value {
    match o
    case None => Null
    case Some(s) => Text(s)
  }

  function SspFields(r: SspRequest): seq<Field> {
    [ Field("RESO", Tuple([r.reso.0, r.reso.1])),
      Field("OS", Text(r.os)),
      Field("PSRC", Text(r.psrc)),
      Field("DPLX", Text(r.dplx)),
      Field("PAGE", Text(r.page)),
      Field("CLR", Text(r.clr)),
      Field("AREA", r.area),
      Field("MRGN", Tuple([Int(r.mrgn.0), Int(r.mrgn.1), Int(r.mrgn.2), Int(r.mrgn.3)])),
      Field("CONT", Int(r.cont)),
      Field("BRIT", Int(r.brit)),
      Field("ATCL", OptInt(r.atcl)),
      Field("THRS", r.thrs),
      Field("COMP", Text(r.comp)),
      Field("JSF", Text(r.jsf)),
      Field("RATE", Int(r.rate)),
      Field("LONG", Text(r.long)),
      Field("DTDF", Text(r.dtdf)),
      Field("OPDF", OptText(r.opdf)),
      Field("RMBP", r.rmbp),
      Field("GMMA", r.gmma),
      Field("TONE", Text(r.tone)),
      Field("ATCN", Text(r.atcn)),
      Field("ATFD", OptInt(r.atfd)) ]
  }

  lemma {:induction false} PresentAppend(a: seq<Field>, b: seq<Field>)
    ensures Present(a + b) == Present(a) + Present(b)
  {
    if a == [] {
      assert a + b == b;
    } else {
      assert (a + b)[0] == a[0];
      assert (a + b)[1..] == a[1..] + b;
      PresentAppend(a[1..], b);
    }
  }

  lemma {:induction false} PresentNoneNull(fields: seq<Field>)
    requires forall k :: 0 <= k < |fields| ==> fields[k].value != Null
    ensures Present(fields) == fields
  {
    if fields != [] {
      PresentNoneNull(fields[1..]);
      assert [fields[0]] + fields[1..] == fields;
    }
  }

  /** The optional fields of `SSPRequest`, by position: `ATCL`, `THRS`, `OPDF`, `ATFD`. */
  predicate OptionalAt(k: int) {
    k == 10 || k == 11 || k == 17 || k == 22
  }

  lemma PresentSkipsOptional(fs: seq<Field>)
    requires |fs| == 23
    requires forall k :: 0 <= k < 23 ==> (fs[k].value == Null <==> OptionalAt(k))
    ensures Present(fs) == fs[..10] + fs[12..17] + fs[18..22]
  {
    var a, n1, b, n2, c, n3 := fs[..10], fs[10..12], fs[12..17], fs[17..18], fs[18..22], fs[22..];
    assert fs == a + n1 + b + n2 + c + n3;
    assert forall k :: 0 <= k < |a| ==> a[k] == fs[k];
    PresentNoneNull(a);
    assert forall k :: 0 <= k < |b| ==> b[k] == fs[12 + k];
    PresentNoneNull(b);
    assert forall k :: 0 <= k < |c| ==> c[k] == fs[18 + k];
    PresentNoneNull(c);
    assert Present(n1) == [] by { assert n1[0].value == Null && n1[1].value == Null; }
    assert Present(n2) == [] by { assert n2[0].value == Null; }
    assert Present(n3) == [] by { assert n3[0].value == Null; }
    PresentAppend(a, n1);
    assert Present(a + n1) == a;
    PresentAppend(a + n1, b);
    assert Present(a + n1 + b) == a + b;
    PresentAppend(a + n1 + b, n2);
    assert Present(a + n1 + b + n2) == a + b;
    PresentAppend(a + n1 + b + n2, c);
    assert Present(a + n1 + b + n2 + c) == a + b + c;
    PresentAppend(a + n1 + b + n2 + c, n3);
  }

  /** The fields `SSPRequest` declares optional are `None`, and no other field is. */
  predicate OnlyOptionalsUnset(r: SspRequest) {
    r.atcl.None? && r.thrs == Null && r.opdf.None? && r.atfd.None? &&
    r.reso.0 != Null && r.reso.1 != Null && r.area != Null && r.rmbp != Null && r.gmma != Null
  }

  /**
   * With `ATCL`, `THRS`, `OPDF` and `ATFD` at `None`, an `SSPRequest`
   * serialises exactly the keys below, in this order.
   */
  lemma SspKeys(r: SspRequest)
    requires OnlyOptionalsUnset(r)
    ensures Keys(Present(SspFields(r))) ==
      ["RESO", "OS", "PSRC", "DPLX", "PAGE", "CLR", "AREA", "MRGN", "CONT", "BRIT",
       "COMP", "JSF", "RATE", "LONG", "DTDF", "RMBP", "GMMA", "TONE", "ATCN"]
  {
    var fs := SspFields(r);
    SspNulls(r);
    PresentSkipsOptional(fs);
    var a, b, c := fs[..10], fs[12..17], fs[18..22];
    SspKeyRuns(r);
    KeysAppend(a, b);
    KeysAppend(a + b, c);
  }

  /** The keys of `SSPRequest` before `ATCL`, between `THRS` and `OPDF`, and between `OPDF` and `ATFD`. */
  lemma SspKeyRuns(r: SspRequest)
    ensures var fs := SspFields(r);
            Keys(fs[..10]) == ["RESO", "OS", "PSRC", "DPLX", "PAGE", "CLR", "AREA", "MRGN", "CONT", "BRIT"] &&
            Keys(fs[12..17]) == ["COMP", "JSF", "RATE", "LONG", "DTDF"] &&
            Keys(fs[18..22]) == ["RMBP", "GMMA", "TONE", "ATCN"]
  {
  }

  lemma SspNulls(r: SspRequest)
    requires OnlyOptionalsUnset(r)
    ensures var fs := SspFields(r);
            |fs| == 23 && forall k :: 0 <= k < 23 ==> (fs[k].value == Null <==> OptionalAt(k))
  {
  }

  lemma KeysAppend(a: seq<Field>, b: seq<Field>)
    ensures Keys(a + b) == Keys(a) + Keys(b)
  {
  }

  /** A default `SSPRequest` leaves exactly its optional fields unset, so they never appear. */
  lemma DefaultSspUnset(reso: (Value, Value))
    requires reso.0 != Null && reso.1 != Null
    ensures OnlyOptionalsUnset(DefaultSsp(reso))
  {
  }

  /** A default `XSCRequest` serialises as three lines, the last being `MODE=NORMAL`. */
  lemma DefaultXscEndsWithMode(reso: (int, int), area: (int, int, int, int))
    ensures var entries := ParseParams(ToBytes(XscFields(DefaultXsc(reso, area))));
            |entries| == 3 && entries[2] == (Ascii("MODE"), Ascii("NORMAL"))
  {
    var fields := XscFields(DefaultXsc(reso, area));
    DefaultXscWellFormed(reso, area);
    PresentNoneNull(fields);
    ParseToBytes(fields);
    assert Entry(fields[2]) == (Ascii("MODE"), Ascii("NORMAL"));
  }

  lemma DefaultXscWellFormed(reso: (int, int), area: (int, int, int, int))
    ensures WellFormed(XscFields(DefaultXsc(reso, area)))
  {
    XscWellFormed(DefaultXsc(reso, area));
  }

  /** Any `XSCRequest` whose mode has no newline serialises unambiguously. */
  lemma XscWellFormed(r: XscRequest)
    requires '\n' !in r.mode
    ensures WellFormed(XscFields(r))
  {
    var fields := XscFields(r);
    IntTupleNoNewline(fields[0].value.items);
    IntTupleNoNewline(fields[1].value.items);
    PlainText("RESO");
    PlainText("AREA");
    PlainText("MODE");
    assert NL !in Encode(fields[2].value);
    assert forall f :: f in fields ==> f == fields[0] || f == fields[1] || f == fields[2];
  }

  /** ASCII text without `=` or a newline renders without either byte. */
  lemma PlainText(s: string)
    requires IsAscii(s) && '=' !in s && '\n' !in s
    ensures EQ !in Ascii(s) && NL !in Ascii(s)
  {
  }

  /** A tuple of integers renders without a newline. */
  lemma IntTupleNoNewline(items: seq<Value>)
    requires forall k :: 0 <= k < |items| ==> items[k].Int?
    ensures NL !in Encode(Tuple(items))
  {
    var parts := EncodeItems(items);
    forall k | 0 <= k < |parts| ensures NL !in parts[k] {
      DecimalPlain(items[k].n);
    }
    JoinFree(parts, COMMA, NL);
  }

  /** Joining parts that avoid a byte other than the separator avoids that byte. */
  lemma {:induction false} JoinFree(parts: seq<seq<byte>>, sep: byte, b: byte)
    requires b != sep && FreeOf(parts, b)
    ensures b !in Join(parts, sep)
  {
    if |parts| > 1 {
      JoinFree(parts[1..], sep, b);
    }
  }
}
