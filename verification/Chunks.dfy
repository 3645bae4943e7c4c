/**
  Chunked storage of the data-sharing layer (peer/impl/mod.go): Upload reads a blob piece by piece,
  cuts it into chunks, and stores the chunks and a metafile under their hashes; Download puts it
  together again.

  Strings are byte strings. The hash is a parameter; where it matters it is assumed to be free of
  collisions on the contents at hand.
 */
module Chunks {
  import opened Wrappers

  type Byte = x: int | 0 <= x < 256
  type Bytes = seq<Byte>
  type Blob = map<Bytes, Bytes>
  type Sha = Bytes -> Bytes

  /** The separator of the metafile, a line feed. */
  const SEP: Byte := 10

  const HASH_SIZE: nat := 32

  datatype Error = NotLocal | ReadFailed

  // ---------------------------------------------------------------- hexadecimal keys

  function HexDigit(d: nat): (b: Byte)
    requires d < 16
    ensures b != SEP
  {
    if d < 10 then 48 + d else 87 + d
  }

  function Hex(s: Bytes): (h: Bytes)
    ensures |h| == 2 * |s| && SEP !in h
  {
    if s == [] then []
    else [HexDigit(s[0] / 16), HexDigit(s[0] % 16)] + Hex(s[1..])
  }

  lemma {:induction false} HexInjective(s: Bytes, t: Bytes)
    requires Hex(s) == Hex(t)
    ensures s == t
    decreases |s|
  {
    if s != [] {
      assert Hex(s)[..2] == [HexDigit(s[0] / 16), HexDigit(s[0] % 16)];
      assert Hex(t)[..2] == [HexDigit(t[0] / 16), HexDigit(t[0] % 16)];
      assert s[0] / 16 == t[0] / 16 && s[0] % 16 == t[0] % 16;
      assert Hex(s)[2..] == Hex(s[1..]) && Hex(t)[2..] == Hex(t[1..]);
      HexInjective(s[1..], t[1..]);
    }
  }

  // -------------------------------------------------------------------- specification

  function Concat(cs: seq<Bytes>): (s: Bytes) {
    if cs == [] then [] else Concat(cs[..|cs| - 1]) + cs[|cs| - 1]
  }

  /** The chunks of a blob: full ones, and what is left. */
  function Cut(data: Bytes, size: nat): (cs: seq<Bytes>)
    requires size > 0
    decreases |data|
  {
    if data == [] then []
    else if |data| <= size then [data]
    else [data[..size]] + Cut(data[size..], size)
  }

  function Shas(sha: Sha, cs: seq<Bytes>): (r: seq<Bytes>) {
    seq(|cs|, i requires 0 <= i < |cs| => sha(cs[i]))
  }

  function Keys(sha: Sha, cs: seq<Bytes>): (r: seq<Bytes>) {
    seq(|cs|, i requires 0 <= i < |cs| => Hex(sha(cs[i])))
  }

  function ChunkMap(sha: Sha, cs: seq<Bytes>): (m: Blob) {
    if cs == [] then map[]
    else
      var n := |cs| - 1;
      ChunkMap(sha, cs[..n])[Hex(sha(cs[n])) := cs[n]]
  }

  /** Names joined with the separator between them. */
  function Join(names: seq<Bytes>): (s: Bytes) {
    if names == [] then []
    else if |names| == 1 then names[0]
    else names[0] + [SEP] + Join(names[1..])
  }

  /** Cuts at every separator; the empty string has one empty part. */
  function Split(s: Bytes): (names: seq<Bytes>)
    ensures |names| > 0
  {
    if s == [] then [[]]
    else
      var rest := Split(s[1..]);
      if s[0] == SEP then [[]] + rest else [[s[0]] + rest[0]] + rest[1..]
  }

  function MetaKey(sha: Sha, cs: seq<Bytes>): (k: Bytes) {
    Hex(sha(Concat(Shas(sha, cs))))
  }

  /** The store after an upload of these chunks. */
  function Stored(sha: Sha, blob: Blob, cs: seq<Bytes>): (b: Blob) {
    (blob + ChunkMap(sha, cs))[MetaKey(sha, cs) := Join(Keys(sha, cs))]
  }

  function FetchAll(blob: Blob, names: seq<Bytes>): (r: Result<Bytes, Error>) {
    if names == [] then Ok([])
    else
      var n := |names| - 1;
      var r := FetchAll(blob, names[..n]);
      if r.Err? || names[n] !in blob then Err(NotLocal) else Ok(r.value + blob[names[n]])
  }

  function DownloadLocal(blob: Blob, key: Bytes): (r: Result<Bytes, Error>) {
    if key !in blob then Err(NotLocal) else FetchAll(blob, Split(blob[key]))
  }

  // ---------------------------------------------------------------------- laws of Cut

  lemma ConcatSnoc(cs: seq<Bytes>, c: Bytes)
    ensures Concat(cs + [c]) == Concat(cs) + c
  {
    assert (cs + [c])[..|cs|] == cs;
  }

  lemma {:induction false} ConcatCons(c: Bytes, cs: seq<Bytes>)
    ensures Concat([c] + cs) == c + Concat(cs)
    decreases |cs|
  {
    if cs == [] {
      assert [c] + cs == [c];
      assert [c][..0] == [];
    } else {
      var n := |cs| - 1;
      assert ([c] + cs)[..n + 1] == [c] + cs[..n];
      ConcatCons(c, cs[..n]);
    }
  }

  /** The chunks put together are the blob; all are full but the last, which is not empty. */
  lemma {:induction false} CutIsExact(data: Bytes, size: nat)
    requires size > 0
    ensures Concat(Cut(data, size)) == data
    ensures forall i :: 0 <= i < |Cut(data, size)| - 1 ==> |Cut(data, size)[i]| == size
    ensures data != [] ==> 0 < |Cut(data, size)[|Cut(data, size)| - 1]| <= size
    ensures data != [] <==> Cut(data, size) != []
    decreases |data|
  {
    if |data| > size {
      CutIsExact(data[size..], size);
      ConcatCons(data[..size], Cut(data[size..], size));
    } else if data != [] {
      assert [data][..0] == [];
    }
  }

  /** Full chunks followed by a shorter rest are the only way to cut a blob. */
  lemma {:induction false} CutIsUnique(cs: seq<Bytes>, rest: Bytes, size: nat)
    requires size > 0 && |rest| < size && forall i :: 0 <= i < |cs| ==> |cs[i]| == size
    ensures Cut(Concat(cs) + rest, size) == if rest == [] then cs else cs + [rest]
    decreases |cs|
  {
    if cs == [] {
      assert Concat(cs) + rest == rest && cs + [rest] == [rest];
    } else {
      var data := Concat(cs) + rest;
      ConcatCons(cs[0], cs[1..]);
      assert [cs[0]] + cs[1..] == cs;
      var more := Concat(cs[1..]) + rest;
      assert data == cs[0] + more;
      CutIsUnique(cs[1..], rest, size);
      if |data| > size {
        assert data[..size] == cs[0] && data[size..] == more;
      } else {
        assert more == [] && data == cs[0];
      }
    }
  }

  // ------------------------------------------------------------------- the metafile

  lemma {:induction false} SplitFirst(name: Bytes, s: Bytes)
    requires SEP !in name
    ensures Split(name + [SEP] + s) == [name] + Split(s)
    decreases |name|
  {
    var whole := name + [SEP] + s;
    if name == [] {
      assert whole[1..] == s;
    } else {
      assert whole[1..] == name[1..] + [SEP] + s;
      SplitFirst(name[1..], s);
      assert [name[0]] + name[1..] == name;
    }
  }

  lemma {:induction false} SplitOne(name: Bytes)
    requires SEP !in name
    ensures Split(name) == [name]
    decreases |name|
  {
    if name != [] {
      SplitOne(name[1..]);
      assert [name[0]] + name[1..] == name;
    }
  }

  /** Splitting undoes joining, except that no names at all come back as one empty name. */
  lemma {:induction false} SplitJoin(names: seq<Bytes>)
    requires forall i :: 0 <= i < |names| ==> SEP !in names[i]
    ensures Split(Join(names)) == if names == [] then [[]] else names
    decreases |names|
  {
    if |names| == 1 {
      SplitOne(names[0]);
    } else if |names| > 1 {
      SplitJoin(names[1..]);
      SplitFirst(names[0], Join(names[1..]));
      assert [names[0]] + names[1..] == names;
    }
  }

  // ---------------------------------------------------------------------- round trip

  ghost predicate CollisionFree(sha: Sha, contents: seq<Bytes>) {
    forall i, j :: 0 <= i < |contents| && 0 <= j < |contents| && sha(contents[i]) == sha(contents[j]) ==>
      contents[i] == contents[j]
  }

  /** Different contents have different hashes among the chunks and the joined chunk hashes. */
  ghost predicate Collisionless(sha: Sha, cs: seq<Bytes>) {
    CollisionFree(sha, cs + [Concat(Shas(sha, cs))])
  }

  /** No chunk is the concatenation of the hashes of the chunks. */
  ghost predicate NoChunkIsMeta(sha: Sha, cs: seq<Bytes>) {
    forall i :: 0 <= i < |cs| ==> cs[i] != Concat(Shas(sha, cs))
  }

  lemma {:induction false} ChunkMapHolds(sha: Sha, cs: seq<Bytes>, i: nat)
    requires CollisionFree(sha, cs) && i < |cs|
    ensures var k := Hex(sha(cs[i])); k in ChunkMap(sha, cs) && ChunkMap(sha, cs)[k] == cs[i]
    decreases |cs|
  {
    var n := |cs| - 1;
    if Hex(sha(cs[i])) == Hex(sha(cs[n])) {
      HexInjective(sha(cs[i]), sha(cs[n]));
    } else {
      ChunkMapHolds(sha, cs[..n], i);
    }
  }

  /** What an upload leaves under the key of a chunk: the chunk, unless the metafile has the same key. */
  lemma StoredChunk(sha: Sha, blob: Blob, cs: seq<Bytes>, i: nat)
    requires Collisionless(sha, cs) && i < |cs|
    ensures var k, meta := Hex(sha(cs[i])), Concat(Shas(sha, cs));
            && k in Stored(sha, blob, cs)
            && Stored(sha, blob, cs)[k] == if cs[i] == meta then Join(Keys(sha, cs)) else cs[i]
  {
    var all := cs + [Concat(Shas(sha, cs))];
    assert CollisionFree(sha, cs) by {
      assert forall j :: 0 <= j < |cs| ==> cs[j] == all[j];
    }
    ChunkMapHolds(sha, cs, i);
    if Hex(sha(cs[i])) == MetaKey(sha, cs) {
      HexInjective(sha(cs[i]), sha(all[|cs|]));
      assert all[i] == all[|cs|];
    }
  }

  /** Fetching pieces that are all present gives them in order. */
  lemma {:induction false} FetchPieces(blob: Blob, names: seq<Bytes>, pieces: seq<Bytes>)
    requires |names| == |pieces| && forall i :: 0 <= i < |names| ==> names[i] in blob && blob[names[i]] == pieces[i]
    ensures FetchAll(blob, names) == Ok(Concat(pieces))
    decreases |names|
  {
    if names != [] {
      FetchPieces(blob, names[..|names| - 1], pieces[..|names| - 1]);
    }
  }

  function Pieces(sha: Sha, cs: seq<Bytes>): (ps: seq<Bytes>) {
    seq(|cs|, i requires 0 <= i < |cs| => if cs[i] == Concat(Shas(sha, cs)) then Join(Keys(sha, cs)) else cs[i])
  }

  /** What a local download of an upload gives, whatever the chunks are. */
  lemma DownloadOfUpload(sha: Sha, blob: Blob, cs: seq<Bytes>)
    requires Collisionless(sha, cs) && cs != []
    ensures DownloadLocal(Stored(sha, blob, cs), MetaKey(sha, cs)) == Ok(Concat(Pieces(sha, cs)))
  {
    var b := Stored(sha, blob, cs);
    SplitJoin(Keys(sha, cs));
    forall i | 0 <= i < |cs| ensures Keys(sha, cs)[i] in b && b[Keys(sha, cs)[i]] == Pieces(sha, cs)[i] {
      StoredChunk(sha, blob, cs, i);
    }
    FetchPieces(b, Keys(sha, cs), Pieces(sha, cs));
  }

  lemma {:induction false} ConcatLength(a: seq<Bytes>, b: seq<Bytes>)
    requires |a| == |b| && forall i :: 0 <= i < |a| ==> |a[i]| <= |b[i]|
    ensures |Concat(a)| <= |Concat(b)|
    ensures (exists i :: 0 <= i < |a| && |a[i]| < |b[i]|) ==> |Concat(a)| < |Concat(b)|
    decreases |a|
  {
    if a != [] {
      var n := |a| - 1;
      ConcatLength(a[..n], b[..n]);
      if i :| 0 <= i < |a| && |a[i]| < |b[i]| && i != n {
        assert |a[..n][i]| < |b[..n][i]|;
      }
    }
  }

  lemma {:induction false} JoinLength(names: seq<Bytes>, k: nat)
    requires names != [] && forall i :: 0 <= i < |names| ==> |names[i]| == k
    ensures |Join(names)| == |names| * k + |names| - 1
    decreases |names|
  {
    if |names| > 1 {
      JoinLength(names[1..], k);
      assert |names| * k == (|names| - 1) * k + k;
    }
  }

  lemma {:induction false} ConcatOfEqual(cs: seq<Bytes>, k: nat)
    requires forall i :: 0 <= i < |cs| ==> |cs[i]| == k
    ensures |Concat(cs)| == |cs| * k
    decreases |cs|
  {
    if cs != [] {
      ConcatOfEqual(cs[..|cs| - 1], k);
      assert |cs| * k == (|cs| - 1) * k + k;
    }
  }

  /** The metafile is longer than the joined hashes it lists in hexadecimal. */
  lemma MetafileIsLonger(sha: Sha, cs: seq<Bytes>)
    requires cs != [] && forall i :: 0 <= i < |cs| ==> |sha(cs[i])| == HASH_SIZE
    ensures |Concat(Shas(sha, cs))| < |Join(Keys(sha, cs))|
  {
    ConcatOfEqual(Shas(sha, cs), HASH_SIZE);
    JoinLength(Keys(sha, cs), 2 * HASH_SIZE);
  }

  /** A local download of an upload gives the blob back exactly if no chunk is the joined chunk hashes. */
  lemma ChunksComeBack(sha: Sha, blob: Blob, cs: seq<Bytes>)
    requires Collisionless(sha, cs) && cs != [] && forall i :: 0 <= i < |cs| ==> |sha(cs[i])| == HASH_SIZE
    ensures DownloadLocal(Stored(sha, blob, cs), MetaKey(sha, cs)) == Ok(Concat(cs)) <==> NoChunkIsMeta(sha, cs)
  {
    DownloadOfUpload(sha, blob, cs);
    var pieces := Pieces(sha, cs);
    if NoChunkIsMeta(sha, cs) {
      assert pieces == cs;
    } else {
      MetafileIsLonger(sha, cs);
      var i :| 0 <= i < |cs| && cs[i] == Concat(Shas(sha, cs));
      assert |cs[i]| < |pieces[i]|;
      ConcatLength(cs, pieces);
    }
  }

  /** An empty blob has a metafile without keys, which is read as one empty key that no store holds. */
  lemma EmptyDoesNotComeBack(sha: Sha, blob: Blob)
    requires [] !in blob && |sha([])| == HASH_SIZE
    ensures DownloadLocal(Stored(sha, blob, []), MetaKey(sha, [])) == Err(NotLocal)
  {
    var b := Stored(sha, blob, []);
    assert Keys(sha, []) == [] && Shas(sha, []) == [];
    assert [] !in b;
    var names: seq<Bytes> := [[]];
    assert names[..0] == [];
    assert FetchAll(b, names) == Err(NotLocal);
  }

  /**
    Upload and local download: the data come back exactly if there are any and no chunk of them
    happens to be the concatenation of the chunk hashes.
   */
  lemma RoundTrip(sha: Sha, blob: Blob, data: Bytes, size: nat)
    requires size > 0 && [] !in blob && Collisionless(sha, Cut(data, size))
    requires |sha([])| == HASH_SIZE && forall i :: 0 <= i < |Cut(data, size)| ==> |sha(Cut(data, size)[i])| == HASH_SIZE
    ensures var cs := Cut(data, size);
            DownloadLocal(Stored(sha, blob, cs), MetaKey(sha, cs)) == Ok(data) <==> data != [] && NoChunkIsMeta(sha, cs)
  {
    CutIsExact(data, size);
    if data == [] {
      EmptyDoesNotComeBack(sha, blob);
    } else {
      ChunksComeBack(sha, blob, Cut(data, size));
    }
  }

  // --------------------------------------------------------------- the code in place

  /** One call of Read: at most `max` bytes, and whether the end is reported as soon as it is reached. */
  datatype ReadStep = ReadUpTo(max: nat, tell: bool) | ReadFails

  datatype Status = More | Eof | Failed

  /** A source of bytes with any pattern of partial reads; without a plan it delivers what it is asked for. */
  class Reader {
    var rest: Bytes
    var plan: seq<ReadStep>

    constructor (data: Bytes, plan: seq<ReadStep>)
      ensures rest == data && this.plan == plan
    {
      rest, this.plan := data, plan;
    }

    method Read(k: nat) returns (got: Bytes, status: Status)
      modifies this
      ensures old(rest) == got + rest && |got| <= k
      ensures status == Eof ==> rest == []
      ensures status == Failed <==> old(plan) != [] && old(plan)[0] == ReadFails
      ensures plan == if old(plan) == [] then [] else old(plan)[1..]
      ensures old(plan) == [] && k > 0 && status == More ==> got != []
    {
      var n := if plan != [] && plan[0].ReadUpTo? && plan[0].max < k then plan[0].max else k;
      if |rest| < n {
        n := |rest|;
      }
      var step := if plan == [] then ReadUpTo(k, n == 0) else plan[0];
      if step.ReadFails? {
        got, status := [], Failed;
      } else {
        got, rest := rest[..n], rest[n..];
        status := if step.tell && rest == [] then Eof else More;
      }
      plan := if plan == [] then [] else plan[1..];
    }
  }

  lemma Regroup(a: Bytes, b: Bytes, c: Bytes)
    ensures a + (b + c) == (a + b) + c
  {
  }

  /** The data are the chunks cut so far, the bytes in the buffer and what is still to be read. */
  ghost predicate IsCutUp(all: Bytes, chunks: seq<Bytes>, buf: Bytes, rest: Bytes) {
    all == Concat(chunks) + buf + rest
  }

  lemma BufferGrows(all: Bytes, chunks: seq<Bytes>, buf: Bytes, got: Bytes, rest: Bytes)
    requires IsCutUp(all, chunks, buf, got + rest)
    ensures IsCutUp(all, chunks, buf + got, rest)
  {
    Regroup(Concat(chunks) + buf, got, rest);
    Regroup(Concat(chunks), buf, got);
  }

  lemma BufferIsChunk(all: Bytes, chunks: seq<Bytes>, buf: Bytes, rest: Bytes)
    requires IsCutUp(all, chunks, buf, rest)
    ensures IsCutUp(all, chunks + [buf], [], rest)
  {
    ConcatSnoc(chunks, buf);
  }

  /** The store of a node and its part of the upload and download code. */
  class DataNode {
    const sha: Sha
    const chunkSize: nat
    var blob: Blob

    constructor (sha: Sha, chunkSize: nat)
      ensures this.sha == sha && this.chunkSize == chunkSize && blob == map[]
    {
      this.sha, this.chunkSize, blob := sha, chunkSize, map[];
    }

    /** Reads everything and cuts it into chunks; a failed read gives nothing. */
    method ReadChunks(data: Reader) returns (r: Result<seq<Bytes>, Error>)
      requires chunkSize > 0
      modifies data
      ensures r.Ok? ==> r.value == Cut(old(data.rest), chunkSize)
      ensures ReadFails !in old(data.plan) ==> r.Ok?
    {
      ghost var all := data.rest;
      var chunks: seq<Bytes> := [];
      var chunkBuf: Bytes := [];
      var budget := chunkSize;
      var reachEOF := false;
      while !reachEOF
        invariant |chunkBuf| + budget == chunkSize && budget > 0
        invariant forall i :: 0 <= i < |chunks| ==> |chunks[i]| == chunkSize
        invariant IsCutUp(all, chunks, chunkBuf, data.rest)
        invariant reachEOF ==> data.rest == []
        invariant ReadFails !in old(data.plan) ==> ReadFails !in data.plan
        decreases |data.plan| + |data.rest|, !reachEOF
      {
        ghost var plan := data.plan;
        var got, status := data.Read(budget);
        BufferGrows(all, chunks, chunkBuf, got, data.rest);
        chunkBuf := chunkBuf + got;
        if |chunkBuf| == chunkSize {
          BufferIsChunk(all, chunks, chunkBuf, data.rest);
          chunks := chunks + [chunkBuf];
          budget := chunkSize;
          chunkBuf := [];
        } else {
          budget := budget - |got|;
        }
        if status == Eof {
          reachEOF := true;
        } else if status == Failed {
          assert plan[0] in plan;
          return Err(ReadFailed);
        }
      }
      assert all == Concat(chunks) + chunkBuf;
      CutIsUnique(chunks, chunkBuf, chunkSize);
      if |chunkBuf| > 0 {
        chunks := chunks + [chunkBuf];
      }
      r := Ok(chunks);
    }

    /** Stores the chunks of the data and their metafile; returns the key of the metafile. */
    method Upload(data: Reader) returns (r: Result<Bytes, Error>)
      requires chunkSize > 0
      modifies data, this`blob
      ensures r.Err? ==> blob == old(blob)
      ensures r.Ok? ==> r.value == MetaKey(sha, Cut(old(data.rest), chunkSize))
                        && blob == Stored(sha, old(blob), Cut(old(data.rest), chunkSize))
      ensures ReadFails !in old(data.plan) ==> r.Ok?
    {
      var cut := ReadChunks(data);
      if cut.Err? {
        return Err(cut.error);
      }
      var cs := cut.value;
      var chunks: Blob := map[];
      for i := 0 to |cs|
        invariant chunks == ChunkMap(sha, cs[..i])
      {
        chunks := chunks[Hex(sha(cs[i])) := cs[i]];
        assert cs[..i + 1][..i] == cs[..i];
      }
      assert cs[..|cs|] == cs;
      SetAll(chunks);
      blob := blob[MetaKey(sha, cs) := Join(Keys(sha, cs))];
      r := Ok(MetaKey(sha, cs));
    }

    method SetAll(chunks: Blob)
      modifies this`blob
      ensures blob == old(blob) + chunks
    {
      var todo := chunks.Keys;
      while todo != {}
        invariant todo <= chunks.Keys
        invariant blob == old(blob) + (map k | k in chunks && k !in todo :: chunks[k])
        decreases |todo|
      {
        var k :| k in todo;
        todo := todo - {k};
        blob := blob[k := chunks[k]];
      }
    }

    /** Puts a blob together from the store; other peers are asked elsewhere. */
    method Download(key: Bytes) returns (r: Result<Bytes, Error>)
      ensures r == DownloadLocal(blob, key)
    {
      if key !in blob {
        return Err(NotLocal);
      }
      var names := Split(blob[key]);
      var joined: Bytes := [];
      for i := 0 to |names|
        invariant FetchAll(blob, names[..i]) == Ok(joined)
      {
        assert names[..i + 1][..i] == names[..i];
        if names[i] !in blob {
          FetchFails(blob, names, i);
          return Err(NotLocal);
        }
        joined := joined + blob[names[i]];
      }
      assert names[..|names|] == names;
      r := Ok(joined);
    }
  }

  lemma {:induction false} FetchFails(blob: Blob, names: seq<Bytes>, i: nat)
    requires i < |names| && names[i] !in blob
    ensures FetchAll(blob, names) == Err(NotLocal)
    decreases |names|
  {
    if i < |names| - 1 {
      FetchFails(blob, names[..|names| - 1], i);
    }
  }
}
