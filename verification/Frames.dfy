/**
 The frames that carry a message (src/utils/index.ts, 258-381): its JSON header behind a length
 field, and its binary body, if it has one, as raw bytes after that.
 */
module Frames {
  import opened ByteStrings

  /** A JavaScript value in a message; a binary one is an `ArrayBuffer` or a view of one. */
  datatype Value = Text(text: string) | Number(number: real) | Flag(flag: bool) | Buffer(bytes: Bytes)
    | View(bytes: Bytes) | Other(id: nat)

  type Message = map<string, Value>

  /** How a header is written as UTF-8 JSON, and read back. */
  datatype Json = Json(write: Message -> Bytes, read: Bytes -> Result<Message>)

  const EMPTY: string := "__emptyBody"

  // --- The binary body of a message ---

  function TypeOf(m: Message): string {
    if "type" in m && m["type"].Text? then m["type"].text else ""
  }

  /** The field that may hold a binary body, by the type of the message; "" if there is none. */
  function BodyField(m: Message): string {
    var t := TypeOf(m);
    if t == "file-chunk-data" || t == "file-batch-binary" || t == "encrypted-frame" || t == "sync-control-binary"
      || t == "config-file" then "data"
    else if t == "file-update" then "content"
    else ""
  }

  predicate IsBinary(v: Value) {
    v.Buffer? || v.View?
  }

  predicate SaysBinary(m: Message) {
    "encoding" in m && (m["encoding"] == Text("binary") || m["encoding"] == Text("base64"))
  }

  predicate HasBody(m: Message) {
    var field := BodyField(m);
    && field != "" && field in m && IsBinary(m[field])
    && (TypeOf(m) == "file-update" ==> SaysBinary(m))
  }

  datatype Split = Split(header: Message, body: Body)
  datatype Body = NoBody | Bytes(bytes: Bytes)

  function SplitBinaryPayload(m: Message): Split {
    if !HasBody(m) then Split(m, NoBody)
    else
      var field := BodyField(m);
      var header := m - {field};
      var body := m[field].bytes;
      Split(if body == [] then header[EMPTY := Flag(true)] else header, Bytes(body))
  }

  /** Message types whose body may stay a view of the frame. */
  predicate ViewSafe(t: string) {
    t == "config-file" || t == "file-chunk-data" || t == "file-batch-binary" || t == "encrypted-frame"
      || t == "sync-control-binary"
  }

  predicate Truthy(v: Value) {
    match v
    case Text(t) => t != ""
    case Number(n) => n != 0.0
    case Flag(b) => b
    case _ => true
  }

  function JoinBinaryPayload(header: Message, body: Body): Message {
    var field := BodyField(header);
    if field == "" then header
    else if EMPTY in header && Truthy(header[EMPTY]) then (header - {EMPTY})[field := Buffer([])]
    else
      match body
      case NoBody => header
      case Bytes(bytes) => header[field := if ViewSafe(TypeOf(header)) then View(bytes) else Buffer(bytes)]
  }

  // --- Frames ---

  function PackFrame(json: Json, header: Message, body: Body): Bytes {
    var text := json.write(header);
    Uint32(|text|) + text + match body case NoBody => [] case Bytes(bytes) => bytes
  }

  function UnpackFrame(json: Json, frame: Bytes): Result<Split> {
    if |frame| < 4 then ProtocolError
    else
      var length := GetUint32(frame);
      if 4 + length > |frame| then ProtocolError
      else
        match json.read(frame[4..4 + length])
        case ProtocolError => ProtocolError
        case Ok(header) => Ok(Split(header, if 4 + length < |frame| then Bytes(frame[4 + length..]) else NoBody))
  }

  /** What a frame gives back: an empty body is no body. */
  function Framed(s: Split): Split {
    if s.body == Bytes([]) then s.(body := NoBody) else s
  }

  lemma FrameLayout(text: Bytes, body: Bytes)
    requires |text| < 0x1_0000_0000
    ensures var frame := Uint32(|text|) + text + body;
      && |frame| == 4 + |text| + |body| && GetUint32(frame) == |text|
      && frame[4..4 + |text|] == text && frame[4 + |text|..] == body
  {
    hide GetUint32, Uint32;
    var frame := Uint32(|text|) + text + body;
    assert frame == Uint32(|text|) + (text + body);
    Uint32RoundTrip(|text|, text + body);
  }

  /** A frame is the length of its header, the header, and the bytes of the body, if there is one. */
  lemma FrameIs(json: Json, header: Message, body: Body)
    requires |json.write(header)| < 0x1_0000_0000
    ensures var frame, n := PackFrame(json, header, body), |json.write(header)|;
      && |frame| >= 4 + n && GetUint32(frame) == n && frame[4..4 + n] == json.write(header)
      && frame[4 + n..] == if body.Bytes? then body.bytes else []
  {
    hide GetUint32, Uint32;
    FrameLayout(json.write(header), match body case NoBody => [] case Bytes(bytes) => bytes);
  }

  lemma FrameRoundTrip(json: Json, s: Split)
    requires json.read(json.write(s.header)) == Ok(s.header) && |json.write(s.header)| < 0x1_0000_0000
    ensures UnpackFrame(json, PackFrame(json, s.header, s.body)) == Ok(Framed(s))
  {
    hide GetUint32, Uint32;
    var body: Bytes := match s.body case NoBody => [] case Bytes(bytes) => bytes;
    FrameLayout(json.write(s.header), body);
  }

  /** The length field of a header too long for it cuts the header short: part of it comes out as body. */
  lemma LongHeaderIsCut(json: Json, s: Split)
    requires |json.write(s.header)| >= 0x1_0000_0000
    ensures UnpackFrame(json, PackFrame(json, s.header, s.body)) != Ok(Framed(s))
  {
    hide GetUint32, Uint32;
    var text := json.write(s.header);
    var body: Bytes := match s.body case NoBody => [] case Bytes(bytes) => bytes;
    var frame := PackFrame(json, s.header, s.body);
    assert frame == Uint32(|text|) + (text + body);
    Uint32RoundTrip(|text|, text + body);
    assert |frame[4 + GetUint32(frame)..]| > |body|;
  }

  /** A frame is unpacked as it was packed exactly if the length of its header fits. */
  lemma FrameRoundTripIffFits(json: Json, s: Split)
    requires json.read(json.write(s.header)) == Ok(s.header)
    ensures UnpackFrame(json, PackFrame(json, s.header, s.body)) == Ok(Framed(s))
      <==> |json.write(s.header)| < 0x1_0000_0000
  {
    if |json.write(s.header)| < 0x1_0000_0000 { FrameRoundTrip(json, s); } else { LongHeaderIsCut(json, s); }
  }

  /** A frame that is too short for its own length field, or for the header it announces, is refused. */
  lemma ShortFrameRefused(json: Json, frame: Bytes, cut: nat)
    requires cut < |frame| && |frame| >= 4 && 4 + GetUint32(frame) == |frame|
    ensures UnpackFrame(json, frame[..cut]).ProtocolError?
  {
    if cut >= 4 {
      assert frame[..cut][2..][..2] == frame[2..][..2];
      assert GetUint32(frame[..cut]) == GetUint32(frame);
    }
  }

  // --- Messages ---

  /** The body as the receiver gets it: empty ones and those of file updates as buffers of their own, others
      as views. */
  function Received(m: Message): Message {
    if !HasBody(m) then m
    else
      var field := BodyField(m);
      var bytes := m[field].bytes;
      m[field := if bytes != [] && ViewSafe(TypeOf(m)) then View(bytes) else Buffer(bytes)]
  }

  lemma BodyFieldOfHeader(m: Message, header: Message)
    requires HasBody(m) && "type" in header && header["type"] == m["type"]
    ensures TypeOf(header) == TypeOf(m) && BodyField(header) == BodyField(m)
  {}

  lemma SplitHeader(m: Message)
    requires HasBody(m) && EMPTY !in m
    ensures var h, field := SplitBinaryPayload(m).header, BodyField(m);
      && TypeOf(h) == TypeOf(m) && BodyField(h) == field && field != EMPTY && field != "type" && EMPTY != "type"
      && h == if m[field].bytes == [] then (m - {field})[EMPTY := Flag(true)] else m - {field}
  {
    var h, field := SplitBinaryPayload(m).header, BodyField(m);
    assert field == "data" || field == "content";
    assert |EMPTY| == 11;
    assert "type" in h && h["type"] == m["type"];
    BodyFieldOfHeader(m, h);
  }

  /** Split, framed, unframed and joined, every message is what it was; only the kind of its binary value may differ. */
  lemma JoinUndoesSplit(m: Message)
    requires EMPTY !in m
    ensures var s := Framed(SplitBinaryPayload(m)); JoinBinaryPayload(s.header, s.body) == Received(m)
  {
    if HasBody(m) {
      SplitHeader(m);
      hide BodyField, TypeOf, HasBody;
      var field := BodyField(m);
      if m[field].bytes == [] {
        assert ((m - {field})[EMPTY := Flag(true)] - {EMPTY})[field := Buffer([])] == m[field := Buffer([])];
      } else {
        var v := if ViewSafe(TypeOf(m)) then View(m[field].bytes) else Buffer(m[field].bytes);
        assert (m - {field})[field := v] == m[field := v];
      }
    }
  }

  // --- What is split off, by name ---

  ghost predicate HasType(m: Message, t: string) {
    "type" in m && m["type"] == Text(t)
  }

  /** A chunk, a packed batch, an encrypted or control frame or a settings file, with its bytes in `data`. */
  ghost predicate CarriesData(m: Message) {
    && (|| HasType(m, "file-chunk-data") || HasType(m, "file-batch-binary") || HasType(m, "encrypted-frame")
        || HasType(m, "sync-control-binary") || HasType(m, "config-file"))
    && "data" in m && (m["data"].Buffer? || m["data"].View?)
  }

  /** A file update that says its content is binary, with its bytes in `content`. */
  ghost predicate CarriesContent(m: Message) {
    && HasType(m, "file-update") && "content" in m && (m["content"].Buffer? || m["content"].View?)
    && "encoding" in m && m["encoding"] in {Text("binary"), Text("base64")}
  }

  lemma TypesDiffer(m: Message)
    ensures CarriesContent(m) ==> !CarriesData(m)
  {
    assert "file-update" != "file-chunk-data" && "file-update" != "file-batch-binary";
    assert "file-update" != "encrypted-frame" && "file-update" != "sync-control-binary";
    assert |"file-update"| == |"config-file"| && "file-update"[0] != "config-file"[0];
  }

  /** Exactly the bytes of these leave the header, and nothing else changes in it but the mark of an empty body. */
  lemma BodyIsSplitOff(m: Message)
    ensures CarriesData(m) ==>
      SplitBinaryPayload(m) == Split(Marked(m - {"data"}, m["data"].bytes), Bytes(m["data"].bytes))
    ensures CarriesContent(m) ==>
      SplitBinaryPayload(m) == Split(Marked(m - {"content"}, m["content"].bytes), Bytes(m["content"].bytes))
    ensures !CarriesData(m) && !CarriesContent(m) ==> SplitBinaryPayload(m) == Split(m, NoBody)
  {
    TypesDiffer(m);
  }

  function Marked(header: Message, body: Bytes): Message {
    if body == [] then header["__emptyBody" := Flag(true)] else header
  }

  /** The body comes back in its field: a file update's as a buffer, the others' as a view, an empty one as a buffer. */
  lemma BodyComesBack(m: Message)
    ensures CarriesData(m) ==>
      Received(m) == m["data" := if m["data"].bytes == [] then Buffer([]) else View(m["data"].bytes)]
    ensures CarriesContent(m) ==> Received(m) == m["content" := Buffer(m["content"].bytes)]
    ensures !CarriesData(m) && !CarriesContent(m) ==> Received(m) == m
  {
    TypesDiffer(m);
  }

  /** The one binary value of the message, if there is any, is its body. */
  ghost predicate OnlyBodyIsBinary(m: Message) {
    forall field | field in m && (m[field].Buffer? || m[field].View?) ::
      (CarriesData(m) && field == "data") || (CarriesContent(m) && field == "content")
  }

  /** What JSON makes of a header: everything but a binary value comes back, and of that some object without
      its bytes. */
  ghost predicate ComesBackAs(h: Message, read: Message) {
    && read.Keys == h.Keys
    && forall field | field in h :: if IsBinary(h[field]) then read[field].Other? else read[field] == h[field]
  }

  /** What is unpacked, if JSON reads the header back as `read`. */
  lemma FrameReturns(json: Json, s: Split, read: Message)
    requires json.read(json.write(s.header)) == Ok(read) && |json.write(s.header)| < 0x1_0000_0000
    ensures UnpackFrame(json, PackFrame(json, s.header, s.body)) == Ok(Framed(s).(header := read))
  {
    hide GetUint32, Uint32;
    var body: Bytes := match s.body case NoBody => [] case Bytes(bytes) => bytes;
    FrameLayout(json.write(s.header), body);
  }

  lemma HeaderIsPlain(m: Message)
    requires EMPTY !in m
    ensures OnlyBodyIsBinary(m) <==> forall field | field in SplitBinaryPayload(m).header ::
      !IsBinary(SplitBinaryPayload(m).header[field])
  {
    hide SplitBinaryPayload, CarriesData, CarriesContent;
    BodyIsSplitOff(m);
    TypesDiffer(m);
    var h := SplitBinaryPayload(m).header;
    forall field
      ensures field in h && IsBinary(h[field]) <==>
        (field in m && IsBinary(m[field]) && !(CarriesData(m) && field == "data")
         && !(CarriesContent(m) && field == "content"))
    {}
  }

  /** A mark of an empty body counts only if it is true, not empty and not zero. */
  lemma MarkMustBeTrue(header: Message, bytes: Bytes)
    requires EMPTY in header && header[EMPTY] in {Flag(false), Text(""), Number(0.0)}
    ensures JoinBinaryPayload(header, NoBody) == header
    ensures HasType(header, "file-update") ==>
      JoinBinaryPayload(header, Body.Bytes(bytes)) == header["content" := Buffer(bytes)]
  {
    assert !ViewSafe("file-update") by { TypesDiffer(map["type" := Text("file-update")]); }
  }

  /** A binary value left in the header does not come back. */
  lemma LeftInHeader(m: Message, field: string, read: Message, body: Body)
    requires EMPTY !in m && field in m && IsBinary(m[field])
    requires var h := SplitBinaryPayload(m).header;
      ComesBackAs(h, read) && field in h && body == Framed(SplitBinaryPayload(m)).body
    ensures JoinBinaryPayload(read, body) != Received(m)
  {
    var h := SplitBinaryPayload(m).header;
    if HasBody(m) {
      SplitHeader(m);
      assert "type" in read && read["type"] == m["type"];
      BodyFieldOfHeader(m, read);
      hide BodyField, TypeOf, HasBody, SplitBinaryPayload;
      assert field != BodyField(m) && field != EMPTY;
      assert field in JoinBinaryPayload(read, body) ==> JoinBinaryPayload(read, body)[field] == read[field];
    } else {
      hide BodyField, TypeOf, HasBody;
      assert h == m && body == NoBody && EMPTY !in read;
      assert JoinBinaryPayload(read, body) == read;
    }
  }

  /** The whole way over the wire gives a message back exactly if no binary value of it is left to JSON. */
  lemma MessageRoundTripIff(json: Json, m: Message)
    requires EMPTY !in m
    requires var h := SplitBinaryPayload(m).header;
      && |json.write(h)| < 0x1_0000_0000
      && json.read(json.write(h)).Ok? && ComesBackAs(h, json.read(json.write(h)).value)
    ensures var s := SplitBinaryPayload(m);
      UnpackFrame(json, PackFrame(json, s.header, s.body)).Ok?
    ensures var s := SplitBinaryPayload(m);
      var u := UnpackFrame(json, PackFrame(json, s.header, s.body)).value;
      JoinBinaryPayload(u.header, u.body) == Received(m) <==> OnlyBodyIsBinary(m)
  {
    hide SplitBinaryPayload, JoinBinaryPayload, PackFrame, UnpackFrame, Received, OnlyBodyIsBinary;
    var s := SplitBinaryPayload(m);
    var read := json.read(json.write(s.header)).value;
    FrameReturns(json, s, read);
    HeaderIsPlain(m);
    if OnlyBodyIsBinary(m) {
      assert read == s.header;
      JoinUndoesSplit(m);
    } else {
      var field :| field in s.header && IsBinary(s.header[field]);
      HeaderOfMessage(m, field);
      LeftInHeader(m, field, read, Framed(s).body);
    }
  }

  lemma HeaderOfMessage(m: Message, field: string)
    requires EMPTY !in m && field in SplitBinaryPayload(m).header && IsBinary(SplitBinaryPayload(m).header[field])
    ensures field in m && IsBinary(m[field])
  {}

  // --- Writing the buffer ---

  method PackFrameBuffer(json: Json, header: Message, body: Body) returns (out: array<Byte>)
    ensures fresh(out) && out[..] == PackFrame(json, header, body)
  {
    var headerBytes := json.write(header);
    var bodyLen := if body.Bytes? then |body.bytes| else 0;
    out := new Byte[4 + |headerBytes| + bodyLen];
    var next := Put(out, 0, Uint32(|headerBytes|));
    next := Put(out, next, headerBytes);
    if body.Bytes? {
      next := Put(out, next, body.bytes);
    }
    assert out[..next] == out[..];
  }
}
