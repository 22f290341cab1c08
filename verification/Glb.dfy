/** The GLB writer, against a reader that follows section 4.4 of the glTF 2.0
    specification. */
module Glb {
  import opened Wrappers

  type byte = x: int | 0 <= x < 256
  type Bytes = seq<byte>

  const WORDS := 0x1_0000_0000

  type Word = x: int | 0 <= x < WORDS

  // ---------------------------------------------------------------- words

  /** Four bytes, least significant first. */
  function Le32(n: Word): (r: Bytes)
    ensures |r| == 4
  {
    [n % 256, n / 256 % 256, n / 65536 % 256, n / 16777216]
  }

  function Un32(b: Bytes): Word
    requires |b| == 4
  {
    b[0] as int + 256 * b[1] as int + 65536 * b[2] as int + 16777216 * b[3] as int
  }

  lemma WordRoundTrip(n: Word)
    ensures Un32(Le32(n)) == n
  {
    assert n == n % 256 + 256 * (n / 256);
    assert n / 256 == n / 256 % 256 + 256 * (n / 65536);
    assert n / 65536 == n / 65536 % 256 + 256 * (n / 16777216);
  }

  function Pack(words: seq<Word>): (r: Bytes)
    ensures |r| == 4 * |words|
  {
    if words == [] then [] else Pack(words[..|words| - 1]) + Le32(words[|words| - 1])
  }

  /** The first `n` words of some bytes. */
  function Unpack(b: Bytes, n: nat): (r: seq<Word>)
    requires 4 * n <= |b|
    ensures |r| == n
  {
    if n == 0 then [] else Unpack(b, n - 1) + [Un32(b[4 * n - 4..4 * n])]
  }

  lemma {:induction false} UnpackPrefix(a: Bytes, b: Bytes, n: nat)
    requires 4 * n <= |a|
    ensures Unpack(a + b, n) == Unpack(a, n)
  {
    if n > 0 {
      UnpackPrefix(a, b, n - 1);
      assert (a + b)[4 * n - 4..4 * n] == a[4 * n - 4..4 * n];
    }
  }

  lemma {:induction false} PackRoundTrip(words: seq<Word>, n: nat)
    requires n <= |words|
    ensures Unpack(Pack(words), n) == words[..n]
  {
    if words != [] {
      var front, last := words[..|words| - 1], words[|words| - 1];
      if n < |words| {
        PackRoundTrip(front, n);
        UnpackPrefix(Pack(front), Le32(last), n);
      } else {
        PackRoundTrip(front, n - 1);
        UnpackPrefix(Pack(front), Le32(last), n - 1);
        assert Pack(words)[4 * n - 4..4 * n] == Le32(last);
        WordRoundTrip(last);
        assert words[..n] == front + [last];
      }
    }
  }

  // ---------------------------------------------------------------- the document

  datatype View = View(offset: nat, length: nat)

  /** What the JSON chunk says about the buffer: its length, the view of the vertices and
      that of the indices, and how many of each there are. */
  datatype Document = Document(name: string, bufferLength: nat, vertexView: View, indexView: View, vertexCount: nat, indexCount: nat)

  type Printer = Document -> Bytes
  type Parser = Bytes -> Document

  function Filled(n: nat, fill: byte): (r: Bytes)
    ensures |r| == n
  {
    seq(n, _ => fill)
  }

  /** The parser reads what the printer wrote, whatever spaces follow. */
  ghost predicate Readable(text: Printer, parse: Parser) {
    forall d, n: nat :: parse(text(d) + Filled(n, 32)) == d
  }

  function Padding(n: nat): nat { if n % 4 == 0 then 0 else 4 - n % 4 }

  function Pad4(data: Bytes, fill: byte): (r: Bytes)
    ensures |r| % 4 == 0 && |r| - |data| < 4 && data <= r
  {
    data + Filled(Padding(|data|), fill)
  }

  // ---------------------------------------------------------------- writing

  const MAGIC: Bytes := [0x67, 0x6C, 0x54, 0x46]
  const JSON: Bytes := [0x4A, 0x53, 0x4F, 0x4E]
  const BIN: Bytes := [0x42, 0x49, 0x4E, 0x00]

  predicate AreWords(indices: seq<int>) { forall i :: 0 <= i < |indices| ==> 0 <= indices[i] < WORDS }

  function AsWords(indices: seq<int>): (r: seq<Word>)
    requires AreWords(indices)
    ensures r == indices
  {
    seq(|indices|, i requires 0 <= i < |indices| => indices[i])
  }

  function Describe(name: string, vertices: seq<Word>, indices: seq<Word>): Document {
    var vertexBin := Pad4(Pack(vertices), 0);
    var indexBin := Pad4(Pack(indices), 0);
    Document(name, |vertexBin + indexBin|, View(0, |vertexBin|), View(|vertexBin|, |indexBin|), |vertices| / 3, |indices|)
  }

  function Blob(vertices: seq<Word>, indices: seq<Word>): (r: Bytes)
    ensures |r| % 4 == 0
  {
    var vertexBin, indexBin := Pad4(Pack(vertices), 0), Pad4(Pack(indices), 0);
    FoursAdd(|vertexBin|, |indexBin|);
    vertexBin + indexBin
  }

  lemma FoursAdd(a: nat, b: nat)
    requires a % 4 == 0 && b % 4 == 0
    ensures (a + b) % 4 == 0
  {}

  function TotalLength(json: Bytes, bin: Bytes): nat { 12 + 8 + |json| + 8 + |bin| }

  function Container(json: Bytes, bin: Bytes): Bytes
    requires TotalLength(json, bin) < WORDS
  {
    MAGIC + Le32(2) + Le32(TotalLength(json, bin)) + Le32(|json|) + JSON + json + Le32(|bin|) + BIN + bin
  }

  /** Some coordinate axis has no value, though there are coordinates: there is no box
      around them. */
  predicate HasNoBox(vertices: seq<Word>) { 0 < |vertices| < 3 }

  /** The file for a mesh. Vertices are given as the words of their coordinates. Coordinates
      without a box, and an index or a length that does not fit in a word, are errors. */
  function Write(text: Printer, name: string, vertices: seq<Word>, indices: seq<int>): Result<Bytes, string> {
    if !AreWords(indices) then Err("index out of range")
    else if HasNoBox(vertices) then Err("no coordinates on some axis")
    else
      var words := AsWords(indices);
      var json := Pad4(text(Describe(name, vertices, words)), 32);
      if TotalLength(json, Blob(vertices, words)) >= WORDS then Err("length out of range")
      else Ok(Container(json, Blob(vertices, words)))
  }

  // ---------------------------------------------------------------- reading

  datatype Chunks = Chunks(json: Bytes, bin: Bytes)

  /** A container of one JSON and one binary chunk, as section 4.4 lays it out. */
  function ReadChunks(file: Bytes): Option<Chunks> {
    if |file| < 20 || file[..4] != MAGIC || Un32(file[4..8]) != 2 || Un32(file[8..12]) != |file| then None
    else
      var at := 20 + Un32(file[12..16]);
      if file[16..20] != JSON || at % 4 != 0 || at + 8 > |file| then None
      else
        var end := at + 8 + Un32(file[at..at + 4]);
        if file[at + 4..at + 8] != BIN || end % 4 != 0 || end != |file| then None
        else Some(Chunks(file[20..at], file[at + 8..]))
  }

  datatype Mesh = Mesh(name: string, vertices: seq<Word>, indices: seq<Word>)

  predicate InBuffer(v: View, words: nat, bin: Bytes) { v.offset + v.length <= |bin| && 4 * words <= v.length }

  function ViewBytes(v: View, bin: Bytes): Bytes
    requires v.offset + v.length <= |bin|
  {
    bin[v.offset..v.offset + v.length]
  }

  function ReadMesh(parse: Parser, file: Bytes): Option<Mesh> {
    match ReadChunks(file)
    case None => None
    case Some(chunks) =>
      var d := parse(chunks.json);
      if d.bufferLength != |chunks.bin| || !InBuffer(d.vertexView, 3 * d.vertexCount, chunks.bin)
         || !InBuffer(d.indexView, d.indexCount, chunks.bin)
      then None
      else Some(Mesh(d.name, Unpack(ViewBytes(d.vertexView, chunks.bin), 3 * d.vertexCount),
                     Unpack(ViewBytes(d.indexView, chunks.bin), d.indexCount)))
  }

  // ---------------------------------------------------------------- round trip

  lemma ContainerParts(json: Bytes, bin: Bytes)
    requires TotalLength(json, bin) < WORDS
    ensures var file := Container(json, bin);
            var at := 20 + |json|;
            && |file| == TotalLength(json, bin) && file[..4] == MAGIC && file[4..8] == Le32(2)
            && file[8..12] == Le32(|file|) && file[12..16] == Le32(|json|) && file[16..20] == JSON
            && file[20..at] == json && file[at..at + 4] == Le32(|bin|) && file[at + 4..at + 8] == BIN && file[at + 8..] == bin
  {
    hide Le32;
    var file, at := Container(json, bin), 20 + |json|;
    var head, middle := MAGIC + Le32(2) + Le32(TotalLength(json, bin)) + Le32(|json|) + JSON, Le32(|bin|) + BIN;
    assert file == head + json + middle + bin && |head| == 20 && |middle| == 8;
    assert file[..20] == head && file[20..at] == json && file[at..at + 8] == middle && file[at + 8..] == bin;
    assert file[..4] == head[..4] && file[4..8] == head[4..8] && file[8..12] == head[8..12];
    assert file[12..16] == head[12..16] && file[16..20] == head[16..20];
    assert file[at..at + 4] == middle[..4] && file[at + 4..at + 8] == middle[4..];
  }

  lemma PartsRead(file: Bytes, json: Bytes, bin: Bytes)
    requires TotalLength(json, bin) < WORDS && |json| % 4 == 0 && |bin| % 4 == 0 && |file| == TotalLength(json, bin)
    requires file[..4] == MAGIC && Un32(file[4..8]) == 2 && Un32(file[8..12]) == |file|
    requires Un32(file[12..16]) == |json| && file[16..20] == JSON && file[20..20 + |json|] == json
    requires Un32(file[20 + |json|..24 + |json|]) == |bin| && file[24 + |json|..28 + |json|] == BIN && file[28 + |json|..] == bin
    ensures ReadChunks(file) == Some(Chunks(json, bin))
  {
    hide Un32, Container, Pad4;
    var at := 20 + |json|;
    assert at % 4 == 0 && at + 8 + |bin| == |file| && (at + 8 + |bin|) % 4 == 0;
    assert file[at..at + 4] == file[20 + |json|..24 + |json|] && file[at + 4..at + 8] == file[24 + |json|..28 + |json|];
  }

  /** The header length is the file length, both chunks are aligned and are read back. */
  lemma ContainerRoundTrip(json: Bytes, bin: Bytes)
    requires TotalLength(json, bin) < WORDS && |json| % 4 == 0 && |bin| % 4 == 0
    ensures ReadChunks(Container(json, bin)) == Some(Chunks(json, bin))
    ensures |Container(json, bin)| == TotalLength(json, bin) && |Container(json, bin)| % 4 == 0
  {
    hide Container, Un32, Le32, ReadChunks;
    ContainerParts(json, bin);
    WordRoundTrip(2);
    WordRoundTrip(TotalLength(json, bin));
    WordRoundTrip(|json|);
    WordRoundTrip(|bin|);
    PartsRead(Container(json, bin), json, bin);
    FoursAdd(|json|, |bin|);
    FoursAdd(28, |json| + |bin|);
  }

  lemma Unpadded(words: seq<Word>)
    ensures Pad4(Pack(words), 0) == Pack(words)
  {}

  /** The two views tile the buffer: the vertices first, the indices right after them to
      the end, with nothing added to either. */
  lemma ViewsTile(name: string, vertices: seq<Word>, indices: seq<Word>)
    ensures var d := Describe(name, vertices, indices);
            var bin := Blob(vertices, indices);
            && d.bufferLength == |bin| && d.vertexView.offset == 0 && d.indexView.offset == d.vertexView.length
            && d.indexView.offset + d.indexView.length == |bin|
            && ViewBytes(d.vertexView, bin) == Pack(vertices) && ViewBytes(d.indexView, bin) == Pack(indices)
  {
    hide Pad4, Pack;
    Unpadded(vertices);
    Unpadded(indices);
  }

  /** What a reader makes of the document and the buffer. */
  lemma MeshReadBack(parse: Parser, file: Bytes, json: Bytes, name: string, vertices: seq<Word>, indices: seq<Word>)
    requires ReadChunks(file) == Some(Chunks(json, Blob(vertices, indices)))
    requires parse(json) == Describe(name, vertices, indices)
    ensures ReadMesh(parse, file) == Some(Mesh(name, vertices[..|vertices| / 3 * 3], indices))
  {
    hide ReadChunks, Blob, Pack, Unpack, ViewBytes, Pad4;
    ViewsTile(name, vertices, indices);
    var n := 3 * (|vertices| / 3);
    PackRoundTrip(vertices, n);
    PackRoundTrip(indices, |indices|);
    assert indices[..|indices|] == indices;
  }

  lemma JsonReadBack(text: Printer, parse: Parser, d: Document)
    requires Readable(text, parse)
    ensures parse(Pad4(text(d), 32)) == d
  {}

  /** Writing succeeds exactly when there is a whole vertex or no coordinate at all and the
      indices and the file length fit in a word, and a reader then recovers the name, every
      index, and the coordinates of every whole vertex. */
  lemma RoundTrip(text: Printer, parse: Parser, name: string, vertices: seq<Word>, indices: seq<int>)
    requires Readable(text, parse)
    ensures Write(text, name, vertices, indices).Ok? <==>
              (|vertices| == 0 || |vertices| >= 3) && AreWords(indices)
              && TotalLength(Pad4(text(Describe(name, vertices, AsWords(indices))), 32), Blob(vertices, AsWords(indices))) < WORDS
    ensures Write(text, name, vertices, indices).Ok? ==>
              ReadMesh(parse, Write(text, name, vertices, indices).value)
              == Some(Mesh(name, vertices[..|vertices| / 3 * 3], indices))
  {
    hide Container, ReadChunks, ReadMesh, Pad4, Blob, Readable, Describe, Filled;
    if Write(text, name, vertices, indices).Ok? {
      var words := AsWords(indices);
      var json := Pad4(text(Describe(name, vertices, words)), 32);
      JsonReadBack(text, parse, Describe(name, vertices, words));
      ContainerRoundTrip(json, Blob(vertices, words));
      MeshReadBack(parse, Container(json, Blob(vertices, words)), json, name, vertices, words);
    }
  }

  /** Two meshes of whole vertices with the same file are the same mesh. */
  lemma FilesAreDistinct(text: Printer, parse: Parser, a: Mesh, b: Mesh)
    requires Readable(text, parse) && |a.vertices| % 3 == 0 && |b.vertices| % 3 == 0
    requires Write(text, a.name, a.vertices, a.indices).Ok?
    requires Write(text, a.name, a.vertices, a.indices) == Write(text, b.name, b.vertices, b.indices)
    ensures a == b
  {
    hide Write, ReadMesh, Readable, Pad4, Describe, Blob;
    RoundTrip(text, parse, a.name, a.vertices, a.indices);
    RoundTrip(text, parse, b.name, b.vertices, b.indices);
    assert a.vertices[..|a.vertices|] == a.vertices && b.vertices[..|b.vertices|] == b.vertices;
  }

  // ---------------------------------------------------------------- the bytes

  /** `b` holds `n`, least significant byte first. */
  ghost predicate HoldsWord(b: Bytes, n: int) {
    |b| == 4 && n == b[0] as int + 256 * b[1] as int + 65536 * b[2] as int + 16777216 * b[3] as int
  }

  /** The words of some bytes, one after the other. */
  ghost predicate HoldsWords(b: Bytes, words: seq<int>) {
    |b| == 4 * |words| && forall i :: 0 <= i < |words| ==> HoldsWord(b[4 * i..4 * i + 4], words[i])
  }

  /** A file as section 4.4 lays it out: "glTF", version 2 and its length, then the length of
      each chunk, its type and its bytes. */
  ghost predicate LaidOut(file: Bytes, json: Bytes, bin: Bytes) {
    && |file| == 28 + |json| + |bin|
    && file[..4] == [0x67, 0x6C, 0x54, 0x46] && HoldsWord(file[4..8], 2) && HoldsWord(file[8..12], |file|)
    && HoldsWord(file[12..16], |json|) && file[16..20] == [0x4A, 0x53, 0x4F, 0x4E] && file[20..20 + |json|] == json
    && HoldsWord(file[20 + |json|..24 + |json|], |bin|) && file[24 + |json|..28 + |json|] == [0x42, 0x49, 0x4E, 0x00]
    && file[28 + |json|..] == bin
  }

  lemma WordIsHeld(n: Word)
    ensures HoldsWord(Le32(n), n)
  {
    WordRoundTrip(n);
  }

  lemma {:induction false} PackHolds(words: seq<Word>)
    ensures HoldsWords(Pack(words), words)
  {
    if words != [] {
      var front, last := words[..|words| - 1], words[|words| - 1];
      PackHolds(front);
      WordIsHeld(last);
      forall i | 0 <= i < |words| ensures HoldsWord(Pack(words)[4 * i..4 * i + 4], words[i]) {
        if i < |front| {
          assert Pack(words)[4 * i..4 * i + 4] == Pack(front)[4 * i..4 * i + 4];
        } else {
          assert Pack(words)[4 * i..4 * i + 4] == Le32(last);
        }
      }
    }
  }

  lemma ContainerIsLaidOut(json: Bytes, bin: Bytes)
    requires TotalLength(json, bin) < WORDS
    ensures LaidOut(Container(json, bin), json, bin)
  {
    hide Container, Le32, HoldsWord;
    ContainerParts(json, bin);
    WordIsHeld(2);
    WordIsHeld(TotalLength(json, bin));
    WordIsHeld(|json|);
    WordIsHeld(|bin|);
    var file, at := Container(json, bin), 20 + |json|;
    assert file[at..at + 4] == file[20 + |json|..24 + |json|] && file[at + 4..at + 8] == file[24 + |json|..28 + |json|];
  }

  lemma BlobHolds(vertices: seq<Word>, indices: seq<Word>)
    ensures Blob(vertices, indices) == Pack(vertices) + Pack(indices)
  {
    hide Pad4;
    Unpadded(vertices);
    Unpadded(indices);
  }

  /** A written file is laid out that way, whole words long: the document, filled up with
      spaces, describes the buffer, and the buffer holds the coordinates and then the indices. */
  lemma WrittenFile(text: Printer, name: string, vertices: seq<Word>, indices: seq<int>)
    returns (d: Document, spaces: nat, coordinates: Bytes, numbers: Bytes)
    requires Write(text, name, vertices, indices).Ok?
    ensures d == Document(name, 4 * |vertices| + 4 * |indices|, View(0, 4 * |vertices|), View(4 * |vertices|, 4 * |indices|),
                          |vertices| / 3, |indices|)
    ensures spaces < 4 && (|text(d)| + spaces) % 4 == 0
    ensures LaidOut(Write(text, name, vertices, indices).value, text(d) + seq(spaces, _ => 32), coordinates + numbers)
    ensures HoldsWords(coordinates, vertices) && HoldsWords(numbers, indices)
  {
    hide Container, LaidOut, HoldsWord, Pack;
    var words := AsWords(indices);
    d := Describe(name, vertices, words);
    spaces := Padding(|text(d)|);
    coordinates, numbers := Pack(vertices), Pack(words);
    Unpadded(vertices);
    Unpadded(words);
    BlobHolds(vertices, words);
    PackHolds(vertices);
    PackHolds(words);
    ContainerIsLaidOut(Pad4(text(d), 32), Blob(vertices, words));
    assert Filled(spaces, 32) == seq(spaces, _ => 32);
  }
}
