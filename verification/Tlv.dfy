/**
 The packed file batches (src/utils/index.ts, 428-572): the byte format, its parser, and when a
 batch comes out as it went in.
 */
module Tlv {
  import opened Names
  import opened ByteStrings

  type Eight = t: Bytes | |t| == 8 witness [0, 0, 0, 0, 0, 0, 0, 0]

  /** One file as it is on the wire. */
  datatype Entry = Entry(path: Bytes, time: Eight, compressed: Byte, encoding: Byte, content: Bytes)

  function Encode(e: Entry): Bytes {
    Uint16(|e.path|) + e.path + e.time + [e.compressed, e.encoding] + Uint32(|e.content|) + e.content
  }

  function EncodeAll(entries: seq<Entry>): Bytes {
    if entries == [] then [] else Encode(entries[0]) + EncodeAll(entries[1..])
  }

  /** The length fields can hold the lengths. */
  predicate Fits(e: Entry) {
    |e.path| < 0x1_0000 && |e.content| < 0x1_0000_0000
  }

  ghost predicate AllFit(entries: seq<Entry>) {
    forall i | 0 <= i < |entries| :: Fits(entries[i])
  }

  /** The first file of the batch and how many bytes it took, or an error if the batch ends before it does. */
  function ParseOne(b: Bytes): (r: Result<(Entry, nat)>)
    ensures r.Ok? ==> 16 <= r.value.1 <= |b|
  {
    if 2 > |b| then ProtocolError
    else
      var p := GetUint16(b);
      if 2 + p > |b| then ProtocolError
      else if 2 + p + 14 > |b| then ProtocolError
      else
        var m := 2 + p;
        var c := GetUint32(b[m + 10..]);
        if m + 14 + c > |b| then ProtocolError
        else Ok((Entry(b[2..m], b[m..m + 8], b[m + 8], b[m + 9], b[m + 14..m + 14 + c]), m + 14 + c))
  }

  function ParseAll(b: Bytes): Result<seq<Entry>>
    decreases |b|
  {
    if b == [] then Ok([])
    else
      match ParseOne(b)
      case ProtocolError => ProtocolError
      case Ok(pair) =>
        match ParseAll(b[pair.1..])
        case ProtocolError => ProtocolError
        case Ok(rest) => Ok([pair.0] + rest)
  }

  // --- Parsing is the inverse of encoding ---

  lemma EncodeLayout(e: Entry, rest: Bytes)
    ensures var b, m := Encode(e) + rest, 2 + |e.path|;
      && |b| == m + 14 + |e.content| + |rest|
      && b[..2] == Uint16(|e.path|) && b[2..m] == e.path && b[m..m + 8] == e.time && b[m + 8] == e.compressed
      && b[m + 9] == e.encoding
      && b[m + 10..m + 14] == Uint32(|e.content|) && b[m + 14..m + 14 + |e.content|] == e.content
      && b[m + 14 + |e.content|..] == rest
  {}

  lemma ParseEncoded(e: Entry, rest: Bytes)
    requires Fits(e)
    ensures ParseOne(Encode(e) + rest) == Ok((e, |Encode(e)|)) && (Encode(e) + rest)[|Encode(e)|..] == rest
  {
    hide Uint16, Uint32, GetUint16, GetUint32, Encode;
    EncodeLayout(e, []);
    EncodeLayout(e, rest);
    assert Encode(e) + [] == Encode(e);
    var b, m := Encode(e) + rest, 2 + |e.path|;
    assert b == Uint16(|e.path|) + b[2..];
    Uint16RoundTrip(|e.path|, b[2..]);
    assert b[m + 10..] == Uint32(|e.content|) + b[m + 14..];
    Uint32RoundTrip(|e.content|, b[m + 14..]);
  }

  lemma EncodeParsed(b: Bytes)
    requires ParseOne(b).Ok?
    ensures var (e, n) := ParseOne(b).value; Fits(e) && Encode(e) == b[..n]
  {
    var (e, n) := ParseOne(b).value;
    Uint16Restored(b);
    var m := 2 + |e.path|;
    Uint32Restored(b[m + 10..]);
    assert b[m + 10..][..4] == b[m + 10..m + 14];
    hide Uint16, Uint32, GetUint16, GetUint32;
    assert b[..n] == b[..2] + b[2..m] + b[m..m + 8] + [b[m + 8], b[m + 9]] + b[m + 10..m + 14] + b[m + 14..n];
  }

  lemma {:induction false} ParseEncodedAll(entries: seq<Entry>)
    requires AllFit(entries)
    ensures ParseAll(EncodeAll(entries)) == Ok(entries)
    decreases entries
  {
    hide Encode, ParseOne;
    if entries != [] {
      var rest := entries[1..];
      assert AllFit(rest) && Fits(entries[0]);
      ParseEncodedAll(rest);
      ParseEncoded(entries[0], EncodeAll(rest));
      assert entries == [entries[0]] + rest;
      EncodedSize(entries[0]);
    }
  }

  lemma {:induction false} EncodeParsedAll(b: Bytes)
    requires ParseAll(b).Ok?
    ensures AllFit(ParseAll(b).value) && EncodeAll(ParseAll(b).value) == b
    decreases |b|
  {
    hide Encode, ParseOne;
    if b != [] {
      EncodeParsed(b);
      var (e, n) := ParseOne(b).value;
      EncodeParsedAll(b[n..]);
      var rest := ParseAll(b[n..]).value;
      assert ParseAll(b).value == [e] + rest;
      assert ([e] + rest)[1..] == rest;
      assert b == b[..n] + b[n..];
    }
  }

  /** A byte string parses exactly if it is, whole, the encoding of a batch whose lengths fit; and then as
      that batch. */
  lemma ParseIffEncoding(b: Bytes, entries: seq<Entry>)
    ensures ParseAll(b) == Ok(entries) <==> AllFit(entries) && EncodeAll(entries) == b
  {
    if AllFit(entries) && EncodeAll(entries) == b { ParseEncodedAll(entries); }
    if ParseAll(b) == Ok(entries) { EncodeParsedAll(b); }
  }

  /** Packing and unpacking gives the batch back exactly if every length fits its field. */
  lemma RoundTripIffFits(entries: seq<Entry>)
    ensures ParseAll(EncodeAll(entries)) == Ok(entries) <==> AllFit(entries)
  {
    ParseIffEncoding(EncodeAll(entries), entries);
  }

  // --- Files ---

  datatype Encoding = Utf8 | Binary | Base64

  datatype File = File(path: Name, mtime: real, isCompressed: bool, encoding: Encoding, content: Bytes)

  /** How text and times are written as bytes (`TextEncoder`, `setFloat64`) and read back. */
  datatype Coding = Coding(
    encodeText: Name -> Bytes, decodeText: Bytes -> Name,
    encodeTime: real -> Eight, decodeTime: Eight -> real)

  function ToEntry(c: Coding, f: File): Entry {
    Entry(c.encodeText(f.path), c.encodeTime(f.mtime), if f.isCompressed then 1 else 0,
          match f.encoding case Utf8 => 0 case Binary => 1 case Base64 => 2, f.content)
  }

  function ToFile(c: Coding, e: Entry): File {
    File(c.decodeText(e.path), c.decodeTime(e.time), e.compressed == 1,
         if e.encoding == 1 then Binary else if e.encoding == 2 then Base64 else Utf8, e.content)
  }

  function ToEntries(c: Coding, files: seq<File>): (entries: seq<Entry>)
    ensures |entries| == |files|
  {
    seq(|files|, i requires 0 <= i < |files| => ToEntry(c, files[i]))
  }

  function ToFiles(c: Coding, entries: seq<Entry>): (files: seq<File>)
    ensures |files| == |entries|
  {
    seq(|entries|, i requires 0 <= i < |entries| => ToFile(c, entries[i]))
  }

  function Unpacked(c: Coding, b: Bytes): Result<seq<File>> {
    match ParseAll(b) case ProtocolError => ProtocolError case Ok(entries) => Ok(ToFiles(c, entries))
  }

  /** The file's path and time are read back as they were written, and its lengths fit. */
  ghost predicate Writable(c: Coding, f: File) {
    && c.decodeText(c.encodeText(f.path)) == f.path && c.decodeTime(c.encodeTime(f.mtime)) == f.mtime
    && |c.encodeText(f.path)| < 0x1_0000 && |f.content| < 0x1_0000_0000
  }

  /** A batch of files is unpacked as it was packed. */
  lemma FilesRoundTrip(c: Coding, files: seq<File>)
    requires forall i | 0 <= i < |files| :: Writable(c, files[i])
    ensures Unpacked(c, EncodeAll(ToEntries(c, files))) == Ok(files)
  {
    hide Encode, EncodeAll, ParseAll;
    var entries := ToEntries(c, files);
    forall i | 0 <= i < |files|
      ensures Fits(entries[i]) && ToFile(c, entries[i]) == files[i]
    {
      assert Writable(c, files[i]);
    }
    RoundTripIffFits(entries);
    assert ToFiles(c, entries) == files;
  }

  // --- The loops ---

  lemma EncodeOneMore(entries: seq<Entry>, e: Entry)
    ensures EncodeAll(entries + [e]) == EncodeAll(entries) + Encode(e)
  {
    if entries == [] {
      assert [e][1..] == [];
      assert EncodeAll([e]) == Encode(e) + [];
    } else {
      var rest := entries[1..];
      EncodeOneMore(rest, e);
      assert (entries + [e])[1..] == rest + [e];
      assert Encode(entries[0]) + (EncodeAll(rest) + Encode(e)) == (Encode(entries[0]) + EncodeAll(rest)) + Encode(e);
    }
  }

  /** Pack the files into one buffer of exactly the size they need. */
  method PackFilesToTLV(c: Coding, files: seq<File>) returns (buffer: array<Byte>)
    ensures fresh(buffer) && buffer[..] == EncodeAll(ToEntries(c, files))
  {
    hide Encode, EncodeAll, ToEntries;
    var entries := ToEntries(c, files);
    var totalSize: nat := 0;
    NothingEncoded();
    assert entries[..0] == [] && entries[..|entries|] == entries;
    for i := 0 to |entries|
      invariant totalSize == |EncodeAll(entries[..i])|
    {
      assert entries[..i + 1] == entries[..i] + [entries[i]];
      EncodeOneMore(entries[..i], entries[i]);
      EncodedSize(entries[i]);
      totalSize := totalSize + 2 + |entries[i].path| + 8 + 1 + 1 + 4 + |entries[i].content|;
    }
    buffer := new Byte[totalSize];
    var offset: nat := 0;
    for i := 0 to |entries|
      invariant offset <= buffer.Length && buffer[..offset] == EncodeAll(entries[..i])
      invariant totalSize == |EncodeAll(entries)| == buffer.Length
    {
      assert entries[..i + 1] == entries[..i] + [entries[i]];
      EncodeOneMore(entries[..i], entries[i]);
      EncodedPrefix(entries, i + 1);
      offset := PackFile(buffer, offset, entries[i]);
    }
  }

  lemma NothingEncoded()
    ensures EncodeAll([]) == []
  {}

  lemma EncodedSize(e: Entry)
    ensures |Encode(e)| == 2 + |e.path| + 8 + 1 + 1 + 4 + |e.content|
  {}

  lemma {:induction false} EncodedPrefix(entries: seq<Entry>, i: nat)
    requires i <= |entries|
    ensures |EncodeAll(entries[..i])| <= |EncodeAll(entries)|
    decreases |entries| - i
  {
    if i < |entries| {
      assert entries[..i + 1] == entries[..i] + [entries[i]];
      EncodeOneMore(entries[..i], entries[i]);
      EncodedPrefix(entries, i + 1);
    } else {
      assert entries[..i] == entries;
    }
  }

  method PackFile(buffer: array<Byte>, start: nat, e: Entry) returns (offset: nat)
    requires start + |Encode(e)| <= buffer.Length
    modifies buffer
    ensures offset == start + |Encode(e)| && buffer[..offset] == old(buffer[..start]) + Encode(e)
  {
    hide Uint16, Uint32;
    offset := Put(buffer, start, Uint16(|e.path|));
    offset := Put(buffer, offset, e.path);
    offset := Put(buffer, offset, e.time);
    offset := Put(buffer, offset, [e.compressed]);
    offset := Put(buffer, offset, [e.encoding]);
    offset := Put(buffer, offset, Uint32(|e.content|));
    offset := Put(buffer, offset, e.content);
    PartsJoin(old(buffer[..start]), Uint16(|e.path|), e.path, e.time, e.compressed, e.encoding,
      Uint32(|e.content|), e.content);
  }

  lemma PartsJoin(before: Bytes, p: Bytes, path: Bytes, time: Bytes, x: Byte, y: Byte, n: Bytes, content: Bytes)
    ensures before + p + path + time + [x] + [y] + n + content == before + (p + path + time + [x, y] + n + content)
  {}

  /** The file at `start`, and where the next one starts; each field is checked to be there before it is read. */
  method UnpackOne(c: Coding, bytes: Bytes, start: nat) returns (r: Result<(File, nat)>)
    requires start < |bytes|
    ensures r == match ParseOne(bytes[start..]) case ProtocolError => ProtocolError
      case Ok(pair) => Ok((ToFile(c, pair.0), start + pair.1))
  {
    hide GetUint16, GetUint32;
    var offset := start;
    if offset + 2 > |bytes| { return ProtocolError; }
    var pathLen := GetUint16(bytes[offset..]);
    offset := offset + 2;
    if offset + pathLen > |bytes| { return ProtocolError; }
    var path := c.decodeText(bytes[offset..offset + pathLen]);
    offset := offset + pathLen;
    if offset + 14 > |bytes| { return ProtocolError; }
    var mtime := c.decodeTime(bytes[offset..offset + 8]);
    var isCompressed := bytes[offset + 8] == 1;
    var flag := bytes[offset + 9];
    var encoding := if flag == 1 then Binary else if flag == 2 then Base64 else Utf8;
    var contentLen := GetUint32(bytes[offset + 10..]);
    offset := offset + 14;
    assert bytes[start..][2 + pathLen + 10..] == bytes[start + 2 + pathLen + 10..];
    if offset + contentLen > |bytes| { return ProtocolError; }
    var content := bytes[offset..offset + contentLen];
    ghost var b, m := bytes[start..], 2 + pathLen;
    assert b[2..m] == bytes[start + 2..start + m] && b[m..m + 8] == bytes[start + m..start + m + 8];
    assert b[m + 14..m + 14 + contentLen] == content;
    return Ok((File(path, mtime, isCompressed, encoding, content), offset + contentLen));
  }

  lemma ParseStep(c: Coding, b: Bytes, entries: seq<Entry>)
    requires b != []
    ensures ParseOne(b).ProtocolError? ==> ParseAll(b).ProtocolError?
    ensures ParseOne(b).Ok? ==> var (e, n) := ParseOne(b).value;
      && Continued(ParseAll(b), entries) == Continued(ParseAll(b[n..]), entries + [e])
      && ToFiles(c, entries + [e]) == ToFiles(c, entries) + [ToFile(c, e)]
  {
    if ParseOne(b).Ok? {
      var (e, n) := ParseOne(b).value;
      if ParseAll(b[n..]).Ok? {
        assert entries + ([e] + ParseAll(b[n..]).value) == (entries + [e]) + ParseAll(b[n..]).value;
      }
    }
  }

  ghost function Continued(r: Result<seq<Entry>>, before: seq<Entry>): Result<seq<Entry>> {
    match r case ProtocolError => ProtocolError case Ok(rest) => Ok(before + rest)
  }

  /** Parse a batch with a moving offset, to its end or the first error. */
  method UnpackTLVToFiles(c: Coding, bytes: Bytes) returns (r: Result<seq<File>>)
    ensures r == Unpacked(c, bytes)
  {
    hide ParseOne, ParseAll, ToFile, ToFiles;
    var files: seq<File> := [];
    ghost var entries: seq<Entry> := [];
    var offset: nat := 0;
    StartUnpacking(c, bytes);
    while offset < |bytes|
      invariant offset <= |bytes|
      invariant files == ToFiles(c, entries)
      invariant ParseAll(bytes) == Continued(ParseAll(bytes[offset..]), entries)
    {
      ParseStep(c, bytes[offset..], entries);
      var one := UnpackOne(c, bytes, offset);
      if one.ProtocolError? { return ProtocolError; }
      ghost var (e, n) := ParseOne(bytes[offset..]).value;
      assert bytes[offset..][n..] == bytes[offset + n..];
      files := files + [one.value.0];
      entries := entries + [e];
      offset := one.value.1;
    }
    StartUnpacking(c, []);
    assert bytes[offset..] == [] && entries + [] == entries;
    return Ok(files);
  }

  lemma StartUnpacking(c: Coding, b: Bytes)
    ensures ToFiles(c, []) == [] && ParseAll([]) == Ok([]) && b[0..] == b
    ensures Continued(ParseAll(b), []) == ParseAll(b)
  {
    if ParseAll(b).Ok? { assert [] + ParseAll(b).value == ParseAll(b).value; }
  }
}
