/** What splitting, storing and fetching an object promise together. */
module ObjectTheorems {
  import opened Basics
  import opened ObjectStore

  // ---- splitting ----

  /** The chunks are the object, cut up. */
  lemma {:induction false} ChunksMakeObject(bytes: Bytes, size: nat)
    requires size > 0
    ensures Concat(Chunks(bytes, size)) == bytes
    decreases |bytes|
  {
    if bytes == [] {
    } else {
      var n := if |bytes| <= size then |bytes| else size;
      FirstChunk(bytes, size, n);
      ConcatFront(bytes[..n], Chunks(bytes[n..], size));
      ChunksMakeObject(bytes[n..], size);
    }
  }

  lemma {:induction false} ChunkCount(bytes: Bytes, size: nat)
    requires size > 0
    ensures |bytes| <= |Chunks(bytes, size)| * size < |bytes| + size
    decreases |bytes|
  {
    if bytes == [] {
    } else {
      var n := if |bytes| <= size then |bytes| else size;
      FirstChunk(bytes, size, n);
      ChunkCount(bytes[n..], size);
      var others := |Chunks(bytes[n..], size)|;
      assert |bytes| <= size ==> others == 0;
      hide Chunks;
      assert (others + 1) * size == others * size + size;
    }
  }

  lemma {:induction false} ChunksAreFull(bytes: Bytes, size: nat)
    requires size > 0
    ensures var c := Chunks(bytes, size);
            && (forall i :: 0 <= i < |c| - 1 ==> |c[i]| == size)
            && (c != [] ==> 0 < |c[|c| - 1]| <= size)
    decreases |bytes|
  {
    if bytes == [] {
    } else {
      var n := if |bytes| <= size then |bytes| else size;
      FirstChunk(bytes, size, n);
      ChunksAreFull(bytes[n..], size);
      assert |bytes| <= size <==> Chunks(bytes[n..], size) == [];
      hide Chunks;
    }
  }

  /** All chunks are full but the last, which is not empty; their number is the size divided, rounded up. */
  lemma ChunkSizes(bytes: Bytes, size: nat)
    requires size > 0
    ensures var c := Chunks(bytes, size);
            && (forall i :: 0 <= i < |c| - 1 ==> |c[i]| == size)
            && (c != [] ==> 0 < |c[|c| - 1]| <= size)
            && |bytes| <= |c| * size < |bytes| + size
  {
    ChunkCount(bytes, size);
    ChunksAreFull(bytes, size);
    hide Chunks;
  }

  // ---- fetching ----

  /** Every chunk came back with the hash it was asked for by. */
  ghost predicate AllVerified(cid: Bytes -> string, ids: seq<string>, answers: seq<Result<Bytes, string>>)
    requires |answers| == |ids|
  {
    forall i :: 0 <= i < |ids| ==> answers[i].Ok? && cid(answers[i].value) == ids[i]
  }

  function Values(answers: seq<Result<Bytes, string>>): (r: seq<Bytes>)
    requires forall i :: 0 <= i < |answers| ==> answers[i].Ok?
    ensures |r| == |answers|
  {
    seq(|answers|, i requires 0 <= i < |answers| => answers[i].value)
  }

  /** A download gets all chunks, in order, or none. */
  lemma {:induction false} JoinedIff(cid: Bytes -> string, ids: seq<string>, answers: seq<Result<Bytes, string>>)
    requires |answers| == |ids|
    ensures Joined(cid, ids, answers, |ids|).Ok? <==> AllVerified(cid, ids, answers)
    ensures AllVerified(cid, ids, answers) ==> Joined(cid, ids, answers, |ids|) == Ok(Concat(Values(answers)))
    decreases |ids|
  {
    if ids == [] {
    } else {
      var n := |ids| - 1;
      JoinedIff(cid, ids[..n], answers[..n]);
      JoinedPrefix(cid, ids, answers, n);
      assert AllVerified(cid, ids, answers)
             <==> AllVerified(cid, ids[..n], answers[..n]) && Verified(cid, ids[n], answers[n]).Ok?;
      if AllVerified(cid, ids, answers) {
        assert Values(answers)[..n] == Values(answers[..n]);
      }
    }
  }

  lemma {:induction false} JoinedPrefix(cid: Bytes -> string, ids: seq<string>, answers: seq<Result<Bytes, string>>,
                                        n: nat)
    requires n < |ids| == |answers|
    ensures Joined(cid, ids[..n], answers[..n], n) == Joined(cid, ids, answers, n)
  {
    JoinedPrefixUpTo(cid, ids, answers, n, n);
  }

  lemma {:induction false} JoinedPrefixUpTo(cid: Bytes -> string, ids: seq<string>,
                                            answers: seq<Result<Bytes, string>>, n: nat, m: nat)
    requires m <= n < |ids| == |answers|
    ensures Joined(cid, ids[..n], answers[..n], m) == Joined(cid, ids, answers, m)
  {
    if m == 0 {
    } else {
      JoinedPrefixUpTo(cid, ids, answers, n, m - 1);
    }
  }

  /** A download succeeds if and only if the node answered the manifest, that decodes to one of the known kind,
      every chunk came back with the hash it was asked for by, and together they have the size the manifest says;
      and it gives the chunks in order. */
  lemma DownloadIff(codec: Codec, blob: Result<Bytes, string>, fetch: Manifest -> seq<Result<Bytes, string>>)
    requires forall m: Manifest :: |fetch(m)| == |m.chunks|
    ensures var r := Got(codec, blob, fetch);
            && (r.Ok? <==>
                  && blob.Ok? && codec.decode(blob.value).Some?
                  && var m := codec.decode(blob.value).value;
                     && m.kind == "ce-object-v1" && AllVerified(codec.cid, m.chunks, fetch(m))
                     && |Concat(Values(fetch(m)))| == m.totalSize)
            && (r.Ok? ==> r.value == Concat(Values(fetch(codec.decode(blob.value).value))))
  {
    if blob.Ok? && codec.decode(blob.value).Some? {
      var m := codec.decode(blob.value).value;
      JoinedIff(codec.cid, m.chunks, fetch(m));
      hide Joined;
    }
  }

  /** What is wrong with the answer for a chunk: it was not answered, or has another hash. */
  predicate WrongWith(cid: Bytes -> string, id: string, answer: Result<Bytes, string>, error: Error) {
    || (answer.Err? && error == Unanswered(answer.error))
    || (answer.Ok? && cid(answer.value) != id && error == WrongHash(id, cid(answer.value)))
  }

  /** The first refused chunk in order decides the error. */
  lemma {:induction false} FirstWrong(cid: Bytes -> string, ids: seq<string>, answers: seq<Result<Bytes, string>>,
                                      n: nat)
    requires n <= |ids| == |answers| && Joined(cid, ids, answers, n).Err?
    ensures exists i :: 0 <= i < n && WrongWith(cid, ids[i], answers[i], Joined(cid, ids, answers, n).error)
                        && forall j :: 0 <= j < i ==> answers[j].Ok? && cid(answers[j].value) == ids[j]
  {
    if Joined(cid, ids, answers, n - 1).Err? {
      FirstWrong(cid, ids, answers, n - 1);
    } else {
      JoinedIff(cid, ids[..n - 1], answers[..n - 1]);
      JoinedPrefix(cid, ids, answers, n - 1);
      assert forall j :: 0 <= j < n - 1 ==> answers[..n - 1][j] == answers[j] && ids[..n - 1][j] == ids[j];
      assert WrongWith(cid, ids[n - 1], answers[n - 1], Joined(cid, ids, answers, n).error);
    }
  }

  /** And if it fails, the error is the first thing that is wrong: with the manifest, its kind, a chunk in order,
      or the size. */
  lemma {:induction false} DownloadFails(
    codec: Codec, blob: Result<Bytes, string>, fetch: Manifest -> seq<Result<Bytes, string>>)
    requires (forall m: Manifest :: |fetch(m)| == |m.chunks|) && Got(codec, blob, fetch).Err?
    ensures var e := Got(codec, blob, fetch).error;
            if blob.Err? then e == Unanswered(blob.error)
            else if codec.decode(blob.value).None? then e == NotAManifest
            else
              var m := codec.decode(blob.value).value;
              if m.kind != "ce-object-v1" then e == UnsupportedKind
              else if AllVerified(codec.cid, m.chunks, fetch(m)) then
                e == WrongSize(m.totalSize, |Concat(Values(fetch(m)))|)
              else
                exists i :: 0 <= i < |m.chunks| && WrongWith(codec.cid, m.chunks[i], fetch(m)[i], e)
                            && forall j :: 0 <= j < i ==> fetch(m)[j].Ok? && codec.cid(fetch(m)[j].value) == m.chunks[j]
  {
    if blob.Ok? && codec.decode(blob.value).Some? {
      var m := codec.decode(blob.value).value;
      JoinedIff(codec.cid, m.chunks, fetch(m));
      if m.kind == "ce-object-v1" && !AllVerified(codec.cid, m.chunks, fetch(m)) {
        FirstWrong(codec.cid, m.chunks, fetch(m), |m.chunks|);
      }
      hide Joined, AllVerified, WrongWith;
    }
  }

  /** What a manifest says of an object: its kind, how it was cut, its size, and the hash of each chunk. */
  lemma ManifestSays(cid: Bytes -> string, bytes: Bytes)
    ensures var m, chunks := ManifestOf(cid, bytes, CHUNK_SIZE), Chunks(bytes, 1_048_576);
            && m.kind == "ce-object-v1" && m.chunkSize == 1_048_576 && m.totalSize == |bytes|
            && |m.chunks| == |chunks| && forall i :: 0 <= i < |chunks| ==> m.chunks[i] == cid(chunks[i])
  {
    hide Chunks;
  }

  /** No two different byte strings of a set have the same hash. */
  ghost predicate NoCollision(cid: Bytes -> string, blobs: set<Bytes>) {
    forall x, y :: x in blobs && y in blobs && cid(x) == cid(y) ==> x == y
  }

  function Answered(answers: seq<Result<Bytes, string>>): set<Bytes> {
    set i | 0 <= i < |answers| && answers[i].Ok? :: answers[i].value
  }

  function Parts(chunks: seq<Bytes>): set<Bytes> {
    set i | 0 <= i < |chunks| :: chunks[i]
  }

  /** With an object's own manifest, whatever the answers to the fetches are, the outcome is the object or
      an error; and the object exactly when every answer is the chunk it should be. */
  lemma Trustless(cid: Bytes -> string, bytes: Bytes, size: nat, answers: seq<Result<Bytes, string>>)
    requires size > 0 && |answers| == |Chunks(bytes, size)|
    requires NoCollision(cid, Parts(Chunks(bytes, size)) + Answered(answers))
    ensures var r, chunks := Reassembled(cid, ManifestOf(cid, bytes, size), answers), Chunks(bytes, size);
            && (r.Ok? ==> r == Ok(bytes))
            && (r.Ok? <==> forall i :: 0 <= i < |chunks| ==> answers[i] == Ok(chunks[i]))
  {
    var chunks, ids := Chunks(bytes, size), ManifestOf(cid, bytes, size).chunks;
    hide Chunks;
    JoinedIff(cid, ids, answers);
    hide Joined;
    assert AllVerified(cid, ids, answers) <==> forall i :: 0 <= i < |chunks| ==> answers[i] == Ok(chunks[i]) by {
      if AllVerified(cid, ids, answers) {
        forall i | 0 <= i < |chunks| ensures answers[i] == Ok(chunks[i]) {
          assert chunks[i] in Parts(chunks) && answers[i].value in Answered(answers);
        }
      }
    }
    if AllVerified(cid, ids, answers) {
      assert Values(answers) == chunks;
      ChunksMakeObject(bytes, size);
    }
  }

  // ---- storing, then fetching ----

  ghost predicate RoundTrips(codec: Codec) {
    forall m: Manifest :: codec.decode(codec.encode(m)) == Some(m)
  }

  /** The node files every blob under its hash. */
  ghost predicate Honest(cid: Bytes -> string, blobs: Blobs) {
    forall h :: h in blobs ==> cid(blobs[h]) == h
  }

  function Fetch(blobs: Blobs, id: string): Result<Bytes, string> {
    if id in blobs then Ok(blobs[id]) else Err("blob not found")
  }

  function FetchChunks(blobs: Blobs, m: Manifest): (answers: seq<Result<Bytes, string>>)
    ensures |answers| == |m.chunks|
  {
    seq(|m.chunks|, i requires 0 <= i < |m.chunks| => Fetch(blobs, m.chunks[i]))
  }

  function FetchesFrom(blobs: Blobs): Manifest -> seq<Result<Bytes, string>> {
    m => FetchChunks(blobs, m)
  }

  lemma StoredIsHonest(cid: Bytes -> string, chunks: seq<Bytes>, finished: set<nat>, before: Blobs, stored: Blobs)
    requires Honest(cid, before) && (forall i :: i in finished ==> i < |chunks|)
             && Filed(cid, chunks, finished, before, stored)
    ensures Honest(cid, stored)
  {
  }

  /** After a put to an honest node, every chunk and the manifest can be fetched by its hash. */
  lemma PutIsHonest(codec: Codec, bytes: Bytes, before: Blobs, blobs: Blobs)
    requires Honest(codec.cid, before)
    requires var m := codec.encode(ManifestOf(codec.cid, bytes, CHUNK_SIZE));
             PutDone(codec, bytes, codec.cid(m), before, blobs)
    ensures Honest(codec.cid, blobs) && codec.cid(codec.encode(ManifestOf(codec.cid, bytes, CHUNK_SIZE))) in blobs
    ensures forall i :: 0 <= i < |Chunks(bytes, CHUNK_SIZE)| ==> codec.cid(Chunks(bytes, CHUNK_SIZE)[i]) in blobs
  {
    var chunks, m := Chunks(bytes, CHUNK_SIZE), codec.encode(ManifestOf(codec.cid, bytes, CHUNK_SIZE));
    hide Chunks, ManifestOf;
    var hash := codec.cid(m);
    var stored: Blobs :| Filed(codec.cid, chunks, Below(|chunks|), before, stored) && blobs == stored[hash := m];
    hide Honest, Filed;
    StoredIsHonest(codec.cid, chunks, Below(|chunks|), before, stored);
    AllFiled(codec.cid, chunks, before, stored);
    OneMoreHonest(codec.cid, stored, m);
  }

  lemma AllFiled(cid: Bytes -> string, chunks: seq<Bytes>, before: Blobs, stored: Blobs)
    requires Filed(cid, chunks, Below(|chunks|), before, stored)
    ensures forall i :: 0 <= i < |chunks| ==> cid(chunks[i]) in stored
  {
    forall i | 0 <= i < |chunks| ensures cid(chunks[i]) in stored {
      assert i in Below(|chunks|);
    }
  }

  lemma OneMoreHonest(cid: Bytes -> string, blobs: Blobs, blob: Bytes)
    requires Honest(cid, blobs)
    ensures Honest(cid, blobs[cid(blob) := blob])
  {
  }

  /** Storing an object at an honest node and fetching it by the hash returned gives the object back, as
      long as no two of the blobs involved have the same hash. */
  lemma PutThenGet(codec: Codec, bytes: Bytes, before: Blobs, blobs: Blobs)
    requires RoundTrips(codec) && Honest(codec.cid, before)
    requires var m := codec.encode(ManifestOf(codec.cid, bytes, CHUNK_SIZE));
             && PutDone(codec, bytes, codec.cid(m), before, blobs)
             && NoCollision(codec.cid, blobs.Values + Parts(Chunks(bytes, CHUNK_SIZE)) + {m})
    ensures var hash := codec.cid(codec.encode(ManifestOf(codec.cid, bytes, CHUNK_SIZE)));
            Got(codec, Fetch(blobs, hash), FetchesFrom(blobs)) == Ok(bytes)
  {
    var manifest := ManifestOf(codec.cid, bytes, CHUNK_SIZE);
    var m, chunks := codec.encode(manifest), Chunks(bytes, CHUNK_SIZE);
    assert |manifest.chunks| == |chunks|;
    assert forall i :: 0 <= i < |chunks| ==> manifest.chunks[i] == codec.cid(chunks[i]);
    hide Chunks, PutDone, ManifestOf, Honest;
    PutIsHonest(codec, bytes, before, blobs);
    FiledIsItself(codec.cid, blobs, m, blobs.Values + Parts(chunks) + {m});
    ComeBack(codec.cid, blobs, manifest, chunks, blobs.Values + Parts(chunks) + {m});
    assert Fetch(blobs, codec.cid(m)) == Ok(m);
    hide Answered, Parts, FetchChunks, Fetch, Reassembled;
    Trustless(codec.cid, bytes, CHUNK_SIZE, FetchChunks(blobs, manifest));
  }

  /** The chunks that were filed are the answers to their fetches. */
  lemma ComeBack(cid: Bytes -> string, blobs: Blobs, manifest: Manifest, chunks: seq<Bytes>, involved: set<Bytes>)
    requires Honest(cid, blobs) && NoCollision(cid, involved) && blobs.Values + Parts(chunks) <= involved
    requires |manifest.chunks| == |chunks| && forall i :: 0 <= i < |chunks| ==> manifest.chunks[i] == cid(chunks[i])
    requires forall i :: 0 <= i < |chunks| ==> cid(chunks[i]) in blobs
    ensures var answers := FetchChunks(blobs, manifest);
            && (forall i :: 0 <= i < |chunks| ==> answers[i] == Ok(chunks[i]))
            && Parts(chunks) + Answered(answers) <= involved
  {
    forall i | 0 <= i < |chunks| ensures FetchChunks(blobs, manifest)[i] == Ok(chunks[i]) {
      assert chunks[i] in Parts(chunks);
      FiledIsItself(cid, blobs, chunks[i], involved);
    }
  }

  /** What is filed under a blob's hash is that blob. */
  lemma FiledIsItself(cid: Bytes -> string, blobs: Blobs, blob: Bytes, involved: set<Bytes>)
    requires Honest(cid, blobs) && NoCollision(cid, involved) && blobs.Values <= involved && blob in involved
    requires cid(blob) in blobs
    ensures blobs[cid(blob)] == blob
  {
    assert blobs[cid(blob)] in blobs.Values;
  }

  // ---- the manifest ----

  /** The answers that make up the object whose manifest is given. */
  lemma {:induction false} ItsOwnChunks(codec: Codec, other: Bytes)
    returns (fetch: Manifest -> seq<Result<Bytes, string>>)
    requires RoundTrips(codec)
    ensures forall m: Manifest :: |fetch(m)| == |m.chunks|
    ensures var manifest := ManifestOf(codec.cid, other, CHUNK_SIZE);
            && Answered(fetch(manifest)) == Parts(Chunks(other, CHUNK_SIZE))
            && Got(codec, Ok(codec.encode(manifest)), fetch) == Ok(other)
  {
    var manifest, chunks := ManifestOf(codec.cid, other, CHUNK_SIZE), Chunks(other, CHUNK_SIZE);
    hide Chunks;
    var answers := seq(|chunks|, i requires 0 <= i < |chunks| => Result<Bytes, string>.Ok(chunks[i]));
    fetch := (m: Manifest) => if |m.chunks| == |answers| then answers
      else seq(|m.chunks|, i => Result<Bytes, string>.Err(""));
    JoinedIff(codec.cid, manifest.chunks, answers);
    assert Values(answers) == chunks;
    ChunksMakeObject(other, CHUNK_SIZE);
    assert Answered(answers) == Parts(chunks);
  }

  /** The download does not compare the manifest with the hash it was asked for by: whatever that was, a
      node that answers with another object's manifest and chunks has that object accepted. */
  lemma AnyObjectIsAccepted(codec: Codec, asked: string, other: Bytes)
    requires RoundTrips(codec)
    ensures exists node: string -> Result<Bytes, string>, fetch: Manifest -> seq<Result<Bytes, string>> ::
              (forall m: Manifest :: |fetch(m)| == |m.chunks|) && Got(codec, node(asked), fetch) == Ok(other)
  {
    var fetch := ItsOwnChunks(codec, other);
    var blob := codec.encode(ManifestOf(codec.cid, other, CHUNK_SIZE));
    var node: string -> Result<Bytes, string> := (h: string) => Ok(blob);
    assert Got(codec, node(asked), fetch) == Ok(other);
  }

  /** With that comparison made, a download by an object's hash gives the object or an error, whatever the
      node answers. */
  lemma TrustlessIfManifestMatches(codec: Codec, bytes: Bytes, blob: Bytes,
                                   fetch: Manifest -> seq<Result<Bytes, string>>)
    requires RoundTrips(codec) && forall m: Manifest :: |fetch(m)| == |m.chunks|
    requires var manifest := ManifestOf(codec.cid, bytes, CHUNK_SIZE);
             && codec.cid(blob) == codec.cid(codec.encode(manifest))
             && NoCollision(codec.cid, {blob, codec.encode(manifest)})
             && NoCollision(codec.cid, Parts(Chunks(bytes, CHUNK_SIZE)) + Answered(fetch(manifest)))
    ensures var r := Got(codec, Ok(blob), fetch); r.Ok? ==> r == Ok(bytes)
  {
    var manifest := ManifestOf(codec.cid, bytes, CHUNK_SIZE);
    hide Chunks;
    assert blob == codec.encode(manifest);
    Trustless(codec.cid, bytes, CHUNK_SIZE, fetch(manifest));
  }

  /** Answers to the fetches for a manifest, one each, that collide with no chunk of either object. */
  ghost predicate Answers(codec: Codec, bytes: Bytes, other: Bytes, fetch: Manifest -> seq<Result<Bytes, string>>) {
    && (forall m: Manifest :: |fetch(m)| == |m.chunks|)
    && NoCollision(codec.cid,
                   Parts(Chunks(bytes, CHUNK_SIZE)) + Answered(fetch(ManifestOf(codec.cid, other, CHUNK_SIZE))))
  }

  /** Whatever is fetched then, the download is of one object or fails. */
  ghost predicate Trusts(codec: Codec, bytes: Bytes, other: Bytes) {
    var blob := codec.encode(ManifestOf(codec.cid, other, CHUNK_SIZE));
    forall fetch: Manifest -> seq<Result<Bytes, string>> :: Answers(codec, bytes, other, fetch) ==>
      var r := Got(codec, Ok(blob), fetch); r.Ok? ==> r == Ok(bytes)
  }

  /** When a download by an object's hash is answered with some object's manifest, no answers to its fetches
      can pass off another object if and only if that manifest has the hash that was asked for. */
  lemma {:induction false} TrustlessIff(codec: Codec, bytes: Bytes, other: Bytes)
    requires RoundTrips(codec)
    requires NoCollision(codec.cid, Parts(Chunks(bytes, CHUNK_SIZE)) + Parts(Chunks(other, CHUNK_SIZE)))
    requires var asked := codec.encode(ManifestOf(codec.cid, bytes, CHUNK_SIZE));
             NoCollision(codec.cid, {asked, codec.encode(ManifestOf(codec.cid, other, CHUNK_SIZE))})
    ensures Trusts(codec, bytes, other)
       <==> codec.cid(codec.encode(ManifestOf(codec.cid, other, CHUNK_SIZE)))
            == codec.cid(codec.encode(ManifestOf(codec.cid, bytes, CHUNK_SIZE)))
  {
    var manifest, given := ManifestOf(codec.cid, bytes, CHUNK_SIZE), ManifestOf(codec.cid, other, CHUNK_SIZE);
    hide ManifestOf, Got, Chunks;
    if codec.cid(codec.encode(given)) == codec.cid(codec.encode(manifest)) {
      assert codec.decode(codec.encode(given)) == codec.decode(codec.encode(manifest));
      assert given == manifest;
      forall fetch: Manifest -> seq<Result<Bytes, string>> | Answers(codec, bytes, other, fetch)
        ensures var r := Got(codec, Ok(codec.encode(given)), fetch); r.Ok? ==> r == Ok(bytes)
      {
        TrustlessIfManifestMatches(codec, bytes, codec.encode(given), fetch);
      }
    }
    if Trusts(codec, bytes, other) {
      var fetch := ItsOwnChunks(codec, other);
      assert Answers(codec, bytes, other, fetch);
      assert bytes == other;
    }
  }
}
