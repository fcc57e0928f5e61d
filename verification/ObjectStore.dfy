/**
 Chunked objects: `chunk_object` and `reassemble` of `src/data.rs`, and the uploads and downloads of
 `src/lib.rs`, which keep several chunks in flight. The hash and the manifest's encoding are parameters.
 */
module ObjectStore {
  import opened Basics

  type Bytes = seq<bv8>

  datatype Manifest = Manifest(kind: string, chunkSize: nat, totalSize: nat, chunks: seq<string>)

  datatype Error =
    | UnsupportedKind
    | NotAManifest
    | Unanswered(what: string)
    | WrongHash(expected: string, got: string)
    | WrongSize(total: nat, size: nat)

  /** The content hash, and how a manifest is written and read. */
  datatype Codec = Codec(cid: Bytes -> string, encode: Manifest -> Bytes, decode: Bytes -> Option<Manifest>)

  const KIND: string := "ce-object-v1"
  const CHUNK_SIZE: nat := 1024 * 1024
  const IN_FLIGHT: nat := 8

  // ---- splitting ----

  function Chunks(bytes: Bytes, size: nat): seq<Bytes>
    requires size > 0
    decreases |bytes|
  {
    if bytes == [] then []
    else if |bytes| <= size then [bytes]
    else [bytes[..size]] + Chunks(bytes[size..], size)
  }

  lemma FirstChunk(bytes: Bytes, size: nat, n: nat)
    requires size > 0 && bytes != [] && n == if |bytes| <= size then |bytes| else size
    ensures Chunks(bytes, size) == [bytes[..n]] + Chunks(bytes[n..], size)
  {
    if |bytes| <= size {
      assert bytes[..n] == bytes && bytes[n..] == [];
    }
  }

  function ManifestOf(cid: Bytes -> string, bytes: Bytes, size: nat): Manifest
    requires size > 0
  {
    Manifest(KIND, size, |bytes|, Map(cid, Chunks(bytes, size)))
  }

  /** Splits an object into its manifest and its chunks. */
  method ChunkObject(cid: Bytes -> string, bytes: Bytes, size: nat) returns (manifest: Manifest, chunks: seq<Bytes>)
    requires size > 0
    ensures chunks == Chunks(bytes, size) && manifest == ManifestOf(cid, bytes, size)
  {
    chunks := [];
    var cids := [];
    var at := 0;
    while at < |bytes|
      invariant at <= |bytes|
      invariant chunks + Chunks(bytes[at..], size) == Chunks(bytes, size)
      invariant cids == Map(cid, chunks)
    {
      var rest := bytes[at..];
      var end := if |bytes| - at <= size then |bytes| else at + size;
      var slice := bytes[at..end];
      assert bytes[end..] == rest[end - at..] && slice == rest[..end - at];
      FirstChunk(rest, size, end - at);
      AppendAssociates(chunks, [slice], Chunks(bytes[end..], size));
      cids := cids + [cid(slice)];
      chunks := chunks + [slice];
      at := end;
    }
    assert bytes[at..] == [];
    manifest := Manifest(KIND, size, |bytes|, cids);
  }

  // ---- joining ----

  /** A fetched chunk is taken only when it has the hash it was asked for by. */
  function Verified(cid: Bytes -> string, id: string, answer: Result<Bytes, string>): Result<Bytes, Error> {
    match answer
    case Err(e) => Err(Unanswered(e))
    case Ok(bytes) => if cid(bytes) != id then Err(WrongHash(id, cid(bytes))) else Ok(bytes)
  }

  /** The first `n` chunks of a manifest, or the error of the first of them in order to be refused. */
  function Joined(
    cid: Bytes -> string,
    ids: seq<string>,
    answers: seq<Result<Bytes, string>>,
    n: nat): Result<Bytes, Error>
    requires n <= |ids| == |answers|
  {
    if n == 0 then Ok([])
    else
      match Joined(cid, ids, answers, n - 1)
      case Err(e) => Err(e)
      case Ok(out) =>
        match Verified(cid, ids[n - 1], answers[n - 1])
        case Err(e) => Err(e)
        case Ok(bytes) => Ok(out + bytes)
  }

  function Sized(manifest: Manifest, joined: Result<Bytes, Error>): Result<Bytes, Error> {
    match joined
    case Err(e) => Err(e)
    case Ok(out) => if |out| != manifest.totalSize then Err(WrongSize(manifest.totalSize, |out|)) else Ok(out)
  }

  /** The object a manifest and the answers to its fetches make; `answers` has one for each chunk. */
  function Reassembled(
    cid: Bytes -> string,
    manifest: Manifest,
    answers: seq<Result<Bytes, string>>): Result<Bytes, Error>
    requires |answers| == |manifest.chunks|
  {
    if manifest.kind != KIND then Err(UnsupportedKind)
    else Sized(manifest, Joined(cid, manifest.chunks, answers, |manifest.chunks|))
  }

  lemma {:induction false} ErrorStays(cid: Bytes -> string, ids: seq<string>, answers: seq<Result<Bytes, string>>,
                                      m: nat, n: nat)
    requires m <= n <= |ids| == |answers| && Joined(cid, ids, answers, m).Err?
    ensures Joined(cid, ids, answers, n) == Joined(cid, ids, answers, m)
  {
    if m == n {
    } else {
      ErrorStays(cid, ids, answers, m, n - 1);
    }
  }

  /** One chunk at a time. */
  method Reassemble(cid: Bytes -> string, manifest: Manifest, answers: seq<Result<Bytes, string>>)
    returns (r: Result<Bytes, Error>)
    requires |answers| == |manifest.chunks|
    ensures r == Reassembled(cid, manifest, answers)
  {
    if manifest.kind != KIND {
      return Err(UnsupportedKind);
    }
    var ids := manifest.chunks;
    var out := [];
    for i := 0 to |ids|
      invariant Joined(cid, ids, answers, i) == Ok(out)
    {
      if answers[i].Err? {
        ErrorStays(cid, ids, answers, i + 1, |ids|);
        return Err(Unanswered(answers[i].error));
      }
      var bytes := answers[i].value;
      var got := cid(bytes);
      if got != ids[i] {
        ErrorStays(cid, ids, answers, i + 1, |ids|);
        return Err(WrongHash(ids[i], got));
      }
      out := out + bytes;
    }
    if |out| != manifest.totalSize {
      return Err(WrongSize(manifest.totalSize, |out|));
    }
    return Ok(out);
  }

  // ---- downloading ----

  /** The fetches started and not yet handed on, in manifest order; a finished one holds its outcome. */
  type Queue = seq<Option<Result<Bytes, Error>>>

  ghost predicate Faithful(cid: Bytes -> string, ids: seq<string>, answers: seq<Result<Bytes, string>>, handed: nat,
                           queue: Queue) {
    && |answers| == |ids|
    && handed + |queue| <= |ids|
    && forall j :: 0 <= j < |queue| && queue[j].Some? ==>
         queue[j].value == Verified(cid, ids[handed + j], answers[handed + j])
  }

  function Unfinished(queue: Queue): nat {
    if queue == [] then 0 else (if queue[0].None? then 1 else 0) + Unfinished(queue[1..])
  }

  lemma {:induction false} OneLessUnfinished(queue: Queue, j: nat, outcome: Result<Bytes, Error>)
    requires j < |queue| && queue[j].None?
    ensures Unfinished(queue[j := Some(outcome)]) == Unfinished(queue) - 1
  {
    if j > 0 {
      assert queue[j := Some(outcome)][1..] == queue[1..][j - 1 := Some(outcome)];
      OneLessUnfinished(queue[1..], j - 1, outcome);
    } else {
      assert queue[0 := Some(outcome)][1..] == queue[1..];
    }
  }

  /** Handing on one more chunk. */
  lemma JoinOneMore(cid: Bytes -> string, ids: seq<string>, answers: seq<Result<Bytes, string>>, chunks: seq<Bytes>,
                    n: nat, bytes: Bytes)
    requires n < |ids| == |answers| && Joined(cid, ids, answers, n) == Ok(Concat(chunks))
    requires Verified(cid, ids[n], answers[n]) == Ok(bytes)
    ensures Joined(cid, ids, answers, n + 1) == Ok(Concat(chunks + [bytes]))
  {
    assert (chunks + [bytes])[..|chunks|] == chunks;
  }

  /** Several chunks at a time: fetches are started in manifest order while fewer than eight are started
      and not yet handed on, finish in any order, and are handed on in manifest order. The guarded loop
      leaves open which of its steps comes next. */
  method FetchAll(cid: Bytes -> string, ids: seq<string>, answers: seq<Result<Bytes, string>>)
    returns (r: Result<Bytes, Error>, started: nat, ghost handed: nat)
    requires |answers| == |ids|
    ensures r == Joined(cid, ids, answers, |ids|)
    ensures handed <= started <= handed + 8 && started <= |ids|
    ensures if r.Ok? then handed == |ids|
            else handed < |ids| && Joined(cid, ids, answers, handed).Ok? && Joined(cid, ids, answers, handed + 1).Err?
  {
    started, handed := 0, 0;
    var queue: Queue := [];
    var chunks: seq<Bytes> := [];
    while
      invariant started == handed + |queue| && |queue| <= IN_FLIGHT
      invariant Faithful(cid, ids, answers, handed, queue)
      invariant Joined(cid, ids, answers, handed) == Ok(Concat(chunks))
      decreases |ids| - started, |queue|, Unfinished(queue)
    {
      case started < |ids| && |queue| < IN_FLIGHT =>
        queue := queue + [None];
        started := started + 1;
      case exists j :: 0 <= j < |queue| && queue[j].None? =>
        var j: nat :| j < |queue| && queue[j].None?;
        var outcome := Verified(cid, ids[started - |queue| + j], answers[started - |queue| + j]);
        OneLessUnfinished(queue, j, outcome);
        queue := queue[j := Some(outcome)];
      case queue != [] && queue[0].Some? =>
        match queue[0].value {
          case Err(e) =>
            ErrorStays(cid, ids, answers, handed + 1, |ids|);
            return Err(e), started, handed;
          case Ok(bytes) =>
            JoinOneMore(cid, ids, answers, chunks, handed, bytes);
            chunks, queue, handed := chunks + [bytes], queue[1..], handed + 1;
        }
    }
    r := Ok(Concat(chunks));
  }

  /** What a download comes to: `blob` is the answer for the manifest, `fetch` those for its chunks. */
  function Got(
    codec: Codec,
    blob: Result<Bytes, string>,
    fetch: Manifest -> seq<Result<Bytes, string>>): Result<Bytes, Error>
    requires forall m: Manifest :: |fetch(m)| == |m.chunks|
  {
    match blob
    case Err(e) => Err(Unanswered(e))
    case Ok(bytes) =>
      match codec.decode(bytes)
      case None => Err(NotAManifest)
      case Some(manifest) => Reassembled(codec.cid, manifest, fetch(manifest))
  }

  /** Downloads an object, asking `node` for the blob filed under its hash: whatever order the chunks
      arrive in, the outcome is that of `Reassemble`. */
  method GetObject(codec: Codec, objectCid: string, node: string -> Result<Bytes, string>,
                   fetch: Manifest -> seq<Result<Bytes, string>>)
    returns (r: Result<Bytes, Error>)
    requires forall m: Manifest :: |fetch(m)| == |m.chunks|
    ensures r == Got(codec, node(objectCid), fetch)
  {
    var blob := node(objectCid);
    if blob.Err? {
      return Err(Unanswered(blob.error));
    }
    var decoded := codec.decode(blob.value);
    if decoded.None? {
      return Err(NotAManifest);
    }
    var manifest := decoded.value;
    if manifest.kind != KIND {
      return Err(UnsupportedKind);
    }
    var joined, started, handed := FetchAll(codec.cid, manifest.chunks, fetch(manifest));
    if joined.Err? {
      return joined;
    }
    var out := joined.value;
    if |out| != manifest.totalSize {
      return Err(WrongSize(manifest.totalSize, |out|));
    }
    return Ok(out);
  }

  // ---- uploading ----

  /** The node's answer to an upload: the hash it filed the blob under, or an error. */
  type PutAnswer = Result<string, string>

  /** The node took the chunk and named it as the client does. */
  predicate Accepted(cid: Bytes -> string, chunk: Bytes, answer: PutAnswer) {
    answer == Ok(cid(chunk))
  }

  function Refusal(cid: Bytes -> string, chunk: Bytes, answer: PutAnswer): Error
    requires !Accepted(cid, chunk, answer)
  {
    match answer
    case Err(e) => Unanswered(e)
    case Ok(hash) => WrongHash(cid(chunk), hash)
  }

  /** What a node has filed. */
  type Blobs = map<string, Bytes>

  /** `blobs` is `before` with some chunks filed, each under its hash. */
  ghost predicate Filed(cid: Bytes -> string, chunks: seq<Bytes>, finished: set<nat>, before: Blobs, blobs: Blobs)
    requires forall i :: i in finished ==> i < |chunks|
  {
    && (forall i :: i in finished ==> cid(chunks[i]) in blobs)
    && (forall h :: h in before ==> h in blobs)
    && (forall h :: h in blobs ==> (h in before && blobs[h] == before[h])
                                   || exists i :: i in finished && h == cid(chunks[i]) && blobs[h] == chunks[i])
  }

  function Below(n: nat): (r: set<nat>)
    ensures forall k: nat :: k in r <==> k < n
  {
    if n == 0 then {} else Below(n - 1) + {n - 1}
  }

  /** An upload under way: every one started has finished or is flying, and none is both; what has finished was
      accepted, and filed; and what was filed has finished or is flying. */
  ghost predicate Uploading(cid: Bytes -> string, chunks: seq<Bytes>, answers: seq<PutAnswer>, started: nat,
                            flying: set<nat>, finished: set<nat>, filed: set<nat>)
    requires |answers| == |chunks|
  {
    && started <= |chunks| && |flying| <= IN_FLIGHT && |finished| + |flying| == started
    && finished !! flying
    && (forall i: nat :: i < started <==> i in finished || i in flying)
    && finished <= filed <= finished + flying
    && (forall i :: i in finished ==> Accepted(cid, chunks[i], answers[i]))
  }

  /** How much is left to do: to start, to file and to finish every chunk. */
  function StepsLeft(total: nat, started: nat, flying: set<nat>, filed: set<nat>): nat {
    (if started <= total then 3 * (total - started) else 0) + |flying| + |flying - filed|
  }

  lemma Starts(cid: Bytes -> string, chunks: seq<Bytes>, answers: seq<PutAnswer>, started: nat,
               flying: set<nat>, finished: set<nat>, filed: set<nat>)
    requires |answers| == |chunks| && Uploading(cid, chunks, answers, started, flying, finished, filed)
    requires started < |chunks| && |flying| < IN_FLIGHT
    ensures Uploading(cid, chunks, answers, started + 1, flying + {started}, finished, filed)
    ensures StepsLeft(|chunks|, started + 1, flying + {started}, filed) < StepsLeft(|chunks|, started, flying, filed)
  {
    assert |flying + {started}| <= |flying| + 1;
    assert (flying + {started}) - filed == (flying - filed) + {started};
  }

  lemma Lands(cid: Bytes -> string, chunks: seq<Bytes>, answers: seq<PutAnswer>, started: nat,
              flying: set<nat>, finished: set<nat>, filed: set<nat>, i: nat)
    requires |answers| == |chunks| && Uploading(cid, chunks, answers, started, flying, finished, filed)
    requires i in flying - filed
    ensures Uploading(cid, chunks, answers, started, flying, finished, filed + {i})
    ensures StepsLeft(|chunks|, started, flying, filed + {i}) < StepsLeft(|chunks|, started, flying, filed)
  {
    assert flying - (filed + {i}) == (flying - filed) - {i};
  }

  lemma Finishes(cid: Bytes -> string, chunks: seq<Bytes>, answers: seq<PutAnswer>, started: nat,
                 flying: set<nat>, finished: set<nat>, filed: set<nat>, i: nat)
    requires |answers| == |chunks| && Uploading(cid, chunks, answers, started, flying, finished, filed)
    requires i in flying && i < |chunks| && Accepted(cid, chunks[i], answers[i])
    ensures Uploading(cid, chunks, answers, started, flying - {i}, finished + {i}, filed + {i})
    ensures StepsLeft(|chunks|, started, flying - {i}, filed + {i}) < StepsLeft(|chunks|, started, flying, filed)
  {
    assert |flying - {i}| < |flying|;
    FewerLeft((flying - {i}) - (filed + {i}), flying - filed);
  }

  lemma {:induction false} FewerLeft(a: set<nat>, b: set<nat>)
    requires a <= b
    ensures |a| <= |b|
  {
    assert b == a + (b - a);
  }

  /** What is known of it at any moment. */
  lemma Underway(cid: Bytes -> string, chunks: seq<Bytes>, answers: seq<PutAnswer>, started: nat,
                 flying: set<nat>, finished: set<nat>, filed: set<nat>)
    requires |answers| == |chunks| && Uploading(cid, chunks, answers, started, flying, finished, filed)
    ensures |finished| <= started <= |finished| + IN_FLIGHT && started <= |chunks| && finished <= filed
    ensures forall i :: i in flying ==> i < started && i !in finished
    ensures forall i :: i in filed ==> i < started
    ensures AllAccepted(cid, chunks, answers, finished)
    ensures flying == {} ==> finished == filed == Below(started)
  {
  }

  lemma Flies(cid: Bytes -> string, chunks: seq<Bytes>, answers: seq<PutAnswer>, started: nat,
              flying: set<nat>, finished: set<nat>, filed: set<nat>, i: nat)
    requires |answers| == |chunks| && Uploading(cid, chunks, answers, started, flying, finished, filed) && i in flying
    ensures i < started <= |chunks| && i !in finished
  {
  }

  ghost predicate AllAccepted(cid: Bytes -> string, chunks: seq<Bytes>, answers: seq<PutAnswer>, finished: set<nat>)
    requires |answers| == |chunks|
  {
    forall i :: i in finished ==> i < |chunks| && Accepted(cid, chunks[i], answers[i])
  }

  /** The chunks filed so far. */
  ghost predicate Keeps(cid: Bytes -> string, chunks: seq<Bytes>, filed: set<nat>, before: Blobs, blobs: Blobs) {
    (forall i :: i in filed ==> i < |chunks|) && Filed(cid, chunks, filed, before, blobs)
  }

  lemma NothingStarted(cid: Bytes -> string, chunks: seq<Bytes>, answers: seq<PutAnswer>, before: Blobs)
    requires |answers| == |chunks|
    ensures Uploading(cid, chunks, answers, 0, {}, {}, {}) && Keeps(cid, chunks, {}, before, before)
  {
  }

  lemma KeepsOneMore(cid: Bytes -> string, chunks: seq<Bytes>, filed: set<nat>, before: Blobs, blobs: Blobs, i: nat)
    requires i < |chunks| && Keeps(cid, chunks, filed, before, blobs)
    ensures Keeps(cid, chunks, filed + {i}, before, blobs[cid(chunks[i]) := chunks[i]])
  {
    FiledOneMore(cid, chunks, filed, before, blobs, i);
  }

  /** One uploaded chunk is filed, its answer still to come. */
  method LandOne(cid: Bytes -> string, chunks: seq<Bytes>, answers: seq<PutAnswer>, before: Blobs, blobs: Blobs,
                 started: nat, flying: set<nat>, ghost finished: set<nat>, filed: set<nat>)
    returns (now: Blobs, landed: set<nat>)
    requires |answers| == |chunks| && Uploading(cid, chunks, answers, started, flying, finished, filed)
    requires flying - filed != {} && Keeps(cid, chunks, filed, before, blobs)
    ensures Uploading(cid, chunks, answers, started, flying, finished, landed)
            && Keeps(cid, chunks, landed, before, now)
    ensures StepsLeft(|chunks|, started, flying, landed) < StepsLeft(|chunks|, started, flying, filed)
  {
    var i :| i in flying - filed;
    Flies(cid, chunks, answers, started, flying, finished, filed, i);
    hide *;
    Lands(cid, chunks, answers, started, flying, finished, filed, i);
    KeepsOneMore(cid, chunks, filed, before, blobs, i);
    return blobs[cid(chunks[i]) := chunks[i]], filed + {i};
  }

  /** One upload has finished. */
  method FinishOne(cid: Bytes -> string, chunks: seq<Bytes>, answers: seq<PutAnswer>, before: Blobs, blobs: Blobs,
                   started: nat, flying: set<nat>, ghost finished: set<nat>, filed: set<nat>, i: nat)
    returns (now: Blobs, still: set<nat>, ghost done: set<nat>, landed: set<nat>)
    requires |answers| == |chunks| && Uploading(cid, chunks, answers, started, flying, finished, filed)
    requires i in flying && i < |chunks| && Accepted(cid, chunks[i], answers[i])
             && Keeps(cid, chunks, filed, before, blobs)
    ensures Uploading(cid, chunks, answers, started, still, done, landed) && Keeps(cid, chunks, landed, before, now)
    ensures StepsLeft(|chunks|, started, still, landed) < StepsLeft(|chunks|, started, flying, filed)
  {
    hide *;
    Finishes(cid, chunks, answers, started, flying, finished, filed, i);
    KeepsOneMore(cid, chunks, filed, before, blobs, i);
    return blobs[cid(chunks[i]) := chunks[i]], flying - {i}, finished + {i}, filed + {i};
  }

  /** The error is that of an upload that was started and not accepted. */
  ghost predicate RefusedFor(cid: Bytes -> string, chunks: seq<Bytes>, answers: seq<PutAnswer>, started: nat,
                             finished: set<nat>, error: Error)
    requires |answers| == |chunks| && started <= |chunks|
  {
    exists i ::
      && 0 <= i < started && i !in finished
      && (|| (answers[i].Err? && error == Unanswered(answers[i].error))
          || (answers[i].Ok? && answers[i].value != cid(chunks[i])
              && error == WrongHash(cid(chunks[i]), answers[i].value)))
  }

  lemma Refuses(cid: Bytes -> string, chunks: seq<Bytes>, answers: seq<PutAnswer>, started: nat,
                finished: set<nat>, i: nat)
    requires |answers| == |chunks| && i < started <= |chunks| && i !in finished
    requires !Accepted(cid, chunks[i], answers[i])
    ensures RefusedFor(cid, chunks, answers, started, finished, Refusal(cid, chunks[i], answers[i]))
  {
  }

  /** Uploads chunks, at most eight at a time, finishing in any order; stops at the first refusal seen. A
      chunk may be filed before its answer comes: at a refusal `filed` has the chunks that were accepted and
      any of those still under way. The guarded loop leaves open which of its steps comes next. */
  method StoreAll(cid: Bytes -> string, chunks: seq<Bytes>, answers: seq<PutAnswer>, before: Blobs)
    returns (refused: Option<Error>, blobs: Blobs, started: nat, ghost finished: set<nat>, filed: set<nat>)
    requires |answers| == |chunks|
    ensures |finished| <= started <= |finished| + 8 && started <= |chunks|
    ensures AllAccepted(cid, chunks, answers, finished)
    ensures finished <= filed && (forall i :: i in filed ==> i < started) && Keeps(cid, chunks, filed, before, blobs)
    ensures refused.None? ==> finished == filed == Below(|chunks|)
    ensures refused.Some? ==> RefusedFor(cid, chunks, answers, started, finished, refused.value)
  {
    started, finished, filed, blobs, refused := 0, {}, {}, before, None;
    var flying: set<nat> := {};
    NothingStarted(cid, chunks, answers, before);
    hide Uploading, Keeps, Filed, Below, RefusedFor, Refusal, AllAccepted, Accepted, StepsLeft;
    while
      invariant Uploading(cid, chunks, answers, started, flying, finished, filed)
      invariant refused.None? && started <= |chunks| && Keeps(cid, chunks, filed, before, blobs)
      decreases StepsLeft(|chunks|, started, flying, filed)
    {
      case started < |chunks| && |flying| < IN_FLIGHT =>
        Starts(cid, chunks, answers, started, flying, finished, filed);
        flying := flying + {started};
        started := started + 1;
      case flying - filed != {} =>
        blobs, filed := LandOne(cid, chunks, answers, before, blobs, started, flying, finished, filed);
      case flying != {} =>
        var i :| i in flying;
        Flies(cid, chunks, answers, started, flying, finished, filed, i);
        if !Accepted(cid, chunks[i], answers[i]) {
          Underway(cid, chunks, answers, started, flying, finished, filed);
          Refuses(cid, chunks, answers, started, finished, i);
          refused := Some(Refusal(cid, chunks[i], answers[i]));
          return;
        }
        blobs, flying, finished, filed := FinishOne(cid, chunks, answers, before, blobs, started, flying, finished,
                                                    filed, i);
    }
    Underway(cid, chunks, answers, started, flying, finished, filed);
  }

  lemma FiledOneMore(cid: Bytes -> string, chunks: seq<Bytes>, finished: set<nat>, before: Blobs, blobs: Blobs, i: nat)
    requires i < |chunks| && (forall i :: i in finished ==> i < |chunks|) && Filed(cid, chunks, finished, before, blobs)
    ensures Filed(cid, chunks, finished + {i}, before, blobs[cid(chunks[i]) := chunks[i]])
  {
  }

  /** Uploads an object: its chunks, and then the manifest, which is sent exactly when every chunk was
      accepted. The hash returned is the one the node gives the manifest. When the answer to the manifest is an
      error the node may have filed it all the same, under `lost`. */
  method PutObject(codec: Codec, bytes: Bytes, answers: seq<PutAnswer>, manifestAnswer: PutAnswer,
                   lost: Option<string>, before: Blobs)
    returns (r: Result<string, Error>, manifestSent: bool, blobs: Blobs, filed: set<nat>)
    requires |answers| == |Chunks(bytes, CHUNK_SIZE)|
    ensures var chunks := Chunks(bytes, CHUNK_SIZE);
            manifestSent <==> forall i :: 0 <= i < |chunks| ==> answers[i] == Ok(codec.cid(chunks[i]))
    ensures r.Ok? <==> manifestSent && manifestAnswer.Ok?
    ensures r.Err? && manifestSent ==> manifestAnswer.Err? && r.error == Unanswered(manifestAnswer.error)
    ensures r.Err? && !manifestSent ==>
              RefusedFor(codec.cid, Chunks(bytes, CHUNK_SIZE), answers, |answers|, {}, r.error)
    ensures r.Ok? ==> PutDone(codec, bytes, manifestAnswer.value, before, blobs) && r.value == manifestAnswer.value
    ensures r.Err? && manifestSent && lost.Some? ==> PutDone(codec, bytes, lost.value, before, blobs)
    ensures r.Err? && !(manifestSent && lost.Some?) ==>
              Keeps(codec.cid, Chunks(bytes, CHUNK_SIZE), filed, before, blobs)
    ensures manifestSent ==> filed == Below(|answers|)
  {
    var manifest, chunks := ChunkObject(codec.cid, bytes, CHUNK_SIZE);
    hide Keeps, Filed, Below, RefusedFor, AllAccepted, Chunks, ManifestOf;
    var refused, started;
    ghost var finished;
    refused, blobs, started, finished, filed := StoreAll(codec.cid, chunks, answers, before);
    if refused.Some? {
      NotAllAccepted(codec.cid, chunks, answers, started, finished, refused.value);
      return Err(refused.value), false, blobs, filed;
    }
    EachAccepted(codec.cid, chunks, answers);
    KeepsAll(codec.cid, chunks, before, blobs);
    if manifestAnswer.Err? {
      if lost.Some? {
        blobs := blobs[lost.value := codec.encode(manifest)];
      }
      return Err(Unanswered(manifestAnswer.error)), true, blobs, filed;
    }
    return Ok(manifestAnswer.value), true, blobs[manifestAnswer.value := codec.encode(manifest)], filed;
  }

  lemma NotAllAccepted(cid: Bytes -> string, chunks: seq<Bytes>, answers: seq<PutAnswer>, started: nat,
                       finished: set<nat>, error: Error)
    requires |answers| == |chunks| && started <= |chunks|
    requires RefusedFor(cid, chunks, answers, started, finished, error)
    ensures RefusedFor(cid, chunks, answers, |chunks|, {}, error)
    ensures exists i :: 0 <= i < |chunks| && answers[i] != Ok(cid(chunks[i]))
  {
  }

  lemma EachAccepted(cid: Bytes -> string, chunks: seq<Bytes>, answers: seq<PutAnswer>)
    requires |answers| == |chunks| && AllAccepted(cid, chunks, answers, Below(|chunks|))
    ensures forall i :: 0 <= i < |chunks| ==> answers[i] == Ok(cid(chunks[i]))
  {
    assert forall i :: 0 <= i < |chunks| ==> i in Below(|chunks|);
  }

  lemma KeepsAll(cid: Bytes -> string, chunks: seq<Bytes>, before: Blobs, blobs: Blobs)
    requires Keeps(cid, chunks, Below(|chunks|), before, blobs)
    ensures (forall i :: i in Below(|chunks|) ==> i < |chunks|) && Filed(cid, chunks, Below(|chunks|), before, blobs)
  {
  }

  /** The object is stored: all its chunks were filed, and then its manifest under `hash`. */
  ghost predicate PutDone(codec: Codec, bytes: Bytes, hash: string, before: Blobs, blobs: Blobs) {
    var chunks := Chunks(bytes, CHUNK_SIZE);
    exists stored: Blobs :: Filed(codec.cid, chunks, Below(|chunks|), before, stored)
                            && blobs == stored[hash := codec.encode(ManifestOf(codec.cid, bytes, CHUNK_SIZE))]
  }
}
