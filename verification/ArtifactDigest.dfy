/**
 The byte stream fed to the model digest: for each artifact its path length, path, size and bytes.  Paths
 are given as encoded bytes; the size is the one `stat` reported, the bytes those that were read.
 */
module ArtifactDigest {
  import opened Sequences
  import opened Wrappers

  type Byte = b: int | 0 <= b < 256

  datatype File = File(path: seq<Byte>, content: seq<Byte>)

  datatype Artifact = Artifact(file: File, statSize: nat)

  datatype DigestError = LengthOverflow

  const CHUNK: nat := 1024 * 1024

  function Power256(w: nat): nat {
    if w == 0 then 1 else 256 * Power256(w - 1)
  }

  /** `n.to_bytes(w, "big")`; it raises when `n` does not fit. */
  function BigEndian(n: nat, w: nat): (s: seq<Byte>)
    ensures |s| == w
  {
    if w == 0 then [] else BigEndian(n / 256, w - 1) + [n % 256]
  }

  predicate Fits(a: Artifact) {
    |a.file.path| < Power256(4) && a.statSize < Power256(8)
  }

  function Header(a: Artifact): seq<Byte> {
    BigEndian(|a.file.path|, 4) + a.file.path + BigEndian(a.statSize, 8)
  }

  function Encode(artifacts: seq<Artifact>): seq<Byte> {
    if artifacts == [] then [] else Header(artifacts[0]) + artifacts[0].file.content + Encode(artifacts[1..])
  }

  // ---- the hashing loop ----

  /** A digest object remembers what it was fed; its value is a function of that. */
  class Digest {
    var fed: seq<Byte>

    constructor ()
      ensures fed == []
    {
      fed := [];
    }

    method Update(chunk: seq<Byte>)
      modifies this
      ensures fed == old(fed) + chunk
    {
      fed := fed + chunk;
    }
  }

  /** Read a file to its end, a chunk at a time. */
  method FeedContent(digest: Digest, content: seq<Byte>)
    modifies digest
    ensures digest.fed == old(digest.fed) + content
  {
    var offset := 0;
    while offset < |content|
      invariant 0 <= offset <= |content| && digest.fed == old(digest.fed) + content[..offset]
    {
      var end := if offset + CHUNK < |content| then offset + CHUNK else |content|;
      digest.Update(content[offset..end]);
      assert content[..offset] + content[offset..end] == content[..end];
      offset := end;
    }
    assert content[..offset] == content;
  }

  lemma Regroup(x: seq<Byte>, a: seq<Byte>, b: seq<Byte>, c: seq<Byte>, d: seq<Byte>)
    ensures x + a + b + c + d == x + (a + b + c + d)
  {
  }

  /** One artifact: path length, path, reported size, bytes. */
  method FeedArtifact(digest: Digest, a: Artifact) returns (r: Option<DigestError>)
    modifies digest
    ensures r.None? <==> Fits(a)
    ensures r.None? ==> digest.fed == old(digest.fed) + (Header(a) + a.file.content)
  {
    if |a.file.path| >= Power256(4) {
      return Some(LengthOverflow);
    }
    digest.Update(BigEndian(|a.file.path|, 4));
    digest.Update(a.file.path);
    if a.statSize >= Power256(8) {
      return Some(LengthOverflow);
    }
    digest.Update(BigEndian(a.statSize, 8));
    FeedContent(digest, a.file.content);
    Regroup(old(digest.fed), BigEndian(|a.file.path|, 4), a.file.path, BigEndian(a.statSize, 8), a.file.content);
    r := None;
  }

  /** `model_artifact_sha256`, up to the final digest of the bytes fed. */
  method FeedArtifacts(digest: Digest, artifacts: seq<Artifact>) returns (r: Option<DigestError>)
    requires digest.fed == []
    modifies digest
    ensures r.None? <==> forall i :: 0 <= i < |artifacts| ==> Fits(artifacts[i])
    ensures r.None? ==> digest.fed == Encode(artifacts)
  {
    EncodeTaken(artifacts);
    for i := 0 to |artifacts|
      invariant forall k :: 0 <= k < i ==> Fits(artifacts[k])
      invariant digest.fed == Encode(artifacts[..i])
    {
      r := FeedArtifact(digest, artifacts[i]);
      if r.Some? {
        return;
      }
      EncodeNext(artifacts, i);
    }
    r := None;
  }

  lemma EncodeTaken(artifacts: seq<Artifact>)
    ensures Encode(artifacts[..0]) == [] && Encode(artifacts[..|artifacts|]) == Encode(artifacts)
  {
    TakeAll(artifacts);
  }

  lemma EncodeNext(artifacts: seq<Artifact>, i: nat)
    requires i < |artifacts|
    ensures Encode(artifacts[..i + 1]) == Encode(artifacts[..i]) + (Header(artifacts[i]) + artifacts[i].file.content)
  {
    EncodeAppend(artifacts[..i], artifacts[i]);
    TakeNext(artifacts, i);
  }

  lemma {:induction false} EncodeAppend(artifacts: seq<Artifact>, a: Artifact)
    ensures Encode(artifacts + [a]) == Encode(artifacts) + (Header(a) + a.file.content)
  {
    if artifacts == [] {
      assert artifacts + [a] == [a] && [a][1..] == [];
    } else {
      assert (artifacts + [a])[1..] == artifacts[1..] + [a];
      EncodeAppend(artifacts[1..], a);
    }
  }

  // ---- decoding ----

  function Value(s: seq<Byte>): nat {
    if s == [] then 0 else 256 * Value(s[..|s| - 1]) + s[|s| - 1]
  }

  /** Read one artifact off the stream: its file and what follows. */
  function Take(s: seq<Byte>): (r: Option<(File, seq<Byte>)>)
    ensures r.Some? ==> |r.value.1| < |s|
  {
    if |s| < 4 then None
    else
      var length := Value(s[..4]);
      if |s| < 4 + length + 8 then None
      else
        var size := Value(s[4 + length..4 + length + 8]);
        var rest := s[4 + length + 8..];
        if |rest| < size then None else Some((File(s[4..4 + length], rest[..size]), rest[size..]))
  }

  function Decode(s: seq<Byte>): Option<seq<File>>
    decreases |s|
  {
    if s == [] then Some([])
    else
      match Take(s)
      case None => None
      case Some((file, rest)) =>
        match Decode(rest)
        case None => None
        case Some(files) => Some([file] + files)
  }

  function Files(artifacts: seq<Artifact>): (r: seq<File>)
    ensures |r| == |artifacts| && forall i :: 0 <= i < |r| ==> r[i] == artifacts[i].file
  {
    seq(|artifacts|, i requires 0 <= i < |artifacts| => artifacts[i].file)
  }

  /** The reported size is the number of bytes read. */
  predicate Measured(a: Artifact) {
    a.statSize == |a.file.content|
  }

  lemma {:induction false} ValueOfBigEndian(n: nat, w: nat)
    requires n < Power256(w)
    ensures Value(BigEndian(n, w)) == n
  {
    if w > 0 {
      ValueOfBigEndian(n / 256, w - 1);
      assert BigEndian(n, w)[..w - 1] == BigEndian(n / 256, w - 1);
    }
  }

  /** A stream cut as `Take` cuts it. */
  lemma HeaderPieces(length: seq<Byte>, path: seq<Byte>, size: seq<Byte>, after: seq<Byte>)
    requires |length| == 4 && |size| == 8
    ensures var s := (length + path + size) + after;
            && |s| == 4 + |path| + 8 + |after| && s[..4] == length && s[4..4 + |path|] == path
            && s[4 + |path|..4 + |path| + 8] == size && s[4 + |path| + 8..] == after
  {
  }

  /** Reading behind a written header gives the path back, and as many bytes as the size says. */
  lemma TakeHeader(a: Artifact, after: seq<Byte>)
    requires Fits(a)
    ensures Take(Header(a) + after) ==
            if |after| < a.statSize then None else Some((File(a.file.path, after[..a.statSize]), after[a.statSize..]))
  {
    ValueOfBigEndian(|a.file.path|, 4);
    ValueOfBigEndian(a.statSize, 8);
    HeaderPieces(BigEndian(|a.file.path|, 4), a.file.path, BigEndian(a.statSize, 8), after);
  }

  lemma TakeMeasured(a: Artifact, rest: seq<Byte>)
    requires Fits(a) && Measured(a)
    ensures Take(Header(a) + a.file.content + rest) == Some((a.file, rest))
  {
    TakeHeader(a, a.file.content + rest);
    assert Header(a) + a.file.content + rest == Header(a) + (a.file.content + rest);
    assert (a.file.content + rest)[..a.statSize] == a.file.content;
    assert (a.file.content + rest)[a.statSize..] == rest;
  }

  lemma TakeUnmeasured(a: Artifact, rest: seq<Byte>)
    requires Fits(a) && !Measured(a)
    ensures var r := Take(Header(a) + a.file.content + rest);
            r.Some? ==> r.value.0 != a.file
  {
    TakeHeader(a, a.file.content + rest);
    assert Header(a) + a.file.content + rest == Header(a) + (a.file.content + rest);
  }

  predicate AllMeasured(artifacts: seq<Artifact>) {
    forall i :: 0 <= i < |artifacts| ==> Measured(artifacts[i])
  }

  lemma MeasuredTail(artifacts: seq<Artifact>)
    requires artifacts != []
    ensures AllMeasured(artifacts) <==> Measured(artifacts[0]) && AllMeasured(artifacts[1..])
  {
    assert forall i :: 0 < i < |artifacts| ==> artifacts[i] == artifacts[1..][i - 1];
  }

  lemma FilesTail(artifacts: seq<Artifact>)
    requires artifacts != []
    ensures Files(artifacts) == [artifacts[0].file] + Files(artifacts[1..])
  {
  }

  /** Decoding a stream that begins with one artifact. */
  lemma DecodeFirst(a: Artifact, rest: seq<Byte>, files: seq<File>)
    requires Fits(a)
    ensures Decode(Header(a) + a.file.content + rest) == Some([a.file] + files) <==> Measured(a) && Decode(rest) == Some(files)
  {
    var s := Header(a) + a.file.content + rest;
    if Measured(a) {
      TakeMeasured(a, rest);
      if Decode(rest).Some? {
        SameTails(a.file, Decode(rest).value, files);
      }
    } else {
      TakeUnmeasured(a, rest);
      if Decode(s).Some? {
        assert Decode(s).value[0] != a.file;
      }
    }
  }

  lemma SameTails(f: File, xs: seq<File>, ys: seq<File>)
    ensures [f] + xs == [f] + ys <==> xs == ys
  {
    assert ([f] + xs)[1..] == xs && ([f] + ys)[1..] == ys;
  }

  /**
   The decoder recovers exactly the files that were hashed if and only if every reported size is the
   number of bytes read.
   */
  lemma {:induction false} DecodeEncode(artifacts: seq<Artifact>)
    requires forall i :: 0 <= i < |artifacts| ==> Fits(artifacts[i])
    ensures Decode(Encode(artifacts)) == Some(Files(artifacts)) <==> AllMeasured(artifacts)
  {
    if artifacts != [] {
      var a, rest := artifacts[0], artifacts[1..];
      DecodeEncode(rest);
      FilesTail(artifacts);
      MeasuredTail(artifacts);
      DecodeFirst(a, Encode(rest), Files(rest));
    }
  }

  /** Different lists of files give different streams. */
  lemma EncodeInjective(xs: seq<Artifact>, ys: seq<Artifact>)
    requires forall i :: 0 <= i < |xs| ==> Fits(xs[i]) && Measured(xs[i])
    requires forall i :: 0 <= i < |ys| ==> Fits(ys[i]) && Measured(ys[i])
    requires Encode(xs) == Encode(ys)
    ensures Files(xs) == Files(ys)
  {
    DecodeEncode(xs);
    DecodeEncode(ys);
  }

  lemma EncodeFirst(a: Artifact, rest: seq<Artifact>)
    ensures Encode([a] + rest) == Header(a) + a.file.content + Encode(rest)
  {
    Pieces([a], rest);
  }

  /** What a file grows by after it was measured is hashed like more artifacts. */
  lemma GrownCollides(a: Artifact, grown: Artifact, rest: seq<Artifact>)
    requires grown == Artifact(File(a.file.path, a.file.content + Encode(rest)), a.statSize) && rest != []
    ensures Encode([grown]) == Encode([a] + rest) && Files([grown]) != Files([a] + rest)
  {
    EncodeFirst(grown, []);
    EncodeFirst(a, rest);
    AppendNothing([grown]);
    AppendNothing(Header(grown) + grown.file.content);
    Associative(Header(a), a.file.content, Encode(rest));
    assert |Files([grown])| != |Files([a] + rest)|;
  }

  lemma GrownByItself(a: Artifact)
    requires Fits(a)
    ensures Collision()
  {
    var grown := Artifact(File(a.file.path, a.file.content + Encode([a])), a.statSize);
    GrownCollides(a, grown, [a]);
    assert forall i :: 0 <= i < |[grown]| ==> Fits([grown][i]);
    assert forall i :: 0 <= i < |[a] + [a]| ==> Fits(([a] + [a])[i]);
  }

  ghost predicate Collision() {
    exists xs, ys ::
      && (forall i :: 0 <= i < |xs| ==> Fits(xs[i])) && (forall i :: 0 <= i < |ys| ==> Fits(ys[i]))
      && Encode(xs) == Encode(ys) && Files(xs) != Files(ys)
  }

  /** So without that condition different lists of files can give one stream. */
  lemma UnmeasuredCollision()
    ensures Collision()
  {
    GrownByItself(Artifact(File([], []), 0));
  }
}
