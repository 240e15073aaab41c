/** The client's on-disk chunk cache and the download built on it. */
module Caches {
  import opened Content
  import opened Manifests
  import opened Downloads

  /** The length and digest test every chunk passes before it is used. */
  predicate ValidChunk(h: Hashes, bytes: Bytes, d: Descriptor) {
    |bytes| == d.length && h.blake3(bytes) == d.id
  }

  /** One HTTP attempt: success with a readable or broken body, a status worth retrying, any other
      status, or no answer at all. */
  datatype Reply = Answered(body: Option<Bytes>) | RetryLater | StatusError | TransportError

  const ATTEMPTS: nat := 3

  /** The attempt that decides a fetch: the first that is not retried; `ATTEMPTS` if all are. */
  function Deciding(reply: nat -> Reply, n: nat): (k: nat)
    requires n <= ATTEMPTS
    ensures n <= k <= ATTEMPTS
    ensures forall i :: n <= i < k ==> reply(i).RetryLater? || reply(i).TransportError?
    ensures k < ATTEMPTS ==> reply(k).Answered? || reply(k).StatusError?
    decreases ATTEMPTS - n
  {
    if n == ATTEMPTS || reply(n).Answered? || reply(n).StatusError? then n else Deciding(reply, n + 1)
  }

  /** What the network yields for one chunk. */
  function Network(reply: nat -> Reply): (r: Option<Bytes>) {
    var k := Deciding(reply, 0);
    if k < ATTEMPTS && reply(k).Answered? then reply(k).body else None
  }

  predicate Retried(r: Reply) {
    r.RetryLater? || r.TransportError?
  }

  lemma {:induction false} DecidingIs(reply: nat -> Reply, n: nat, k: nat)
    requires n <= k < ATTEMPTS && !Retried(reply(k)) && forall j: nat :: n <= j < k ==> Retried(reply(j))
    ensures Deciding(reply, n) == k
    decreases k - n
  {
    if n < k {
      DecidingIs(reply, n + 1, k);
    }
  }

  /** A fetch sees at most three attempts, and the first that is not retried decides. */
  lemma NetworkExactly(reply: nat -> Reply, bytes: Bytes)
    ensures Network(reply) == Some(bytes) <==>
      exists k: nat :: k < 3 && reply(k) == Answered(Some(bytes)) && forall i: nat :: i < k ==> Retried(reply(i))
  {
    if k: nat :| k < 3 && reply(k) == Answered(Some(bytes)) && forall i: nat :: i < k ==> Retried(reply(i)) {
      DecidingIs(reply, 0, k);
    }
    if Network(reply) == Some(bytes) {
      assert reply(Deciding(reply, 0)) == Answered(Some(bytes));
    }
  }

  /** `upload_chunk_with_retry`: a put counts as acknowledged exactly when one of its attempts is answered with
      success and every earlier one was worth retrying. */
  method UploadChunkWithRetry(reply: nat -> Reply) returns (acked: bool)
    ensures acked <==>
      exists k: nat :: k < 3 && reply(k).Answered? && forall i: nat :: i < k ==> Retried(reply(i))
  {
    for attempt := 0 to ATTEMPTS
      invariant forall i: nat :: i < attempt ==> Retried(reply(i))
    {
      match reply(attempt) {
        case Answered(_) => return true;
        case StatusError => return false;
        case _ =>
      }
    }
    return false;
  }

  /** The file system and everyone else who uses the cache, as one call meets them. A removal also fails when someone
      else has removed the file meanwhile. */
  datatype Disk = Disk(canRemove: bool, canWrite: bool, rival: Option<Bytes>)

  ghost predicate Hit(h: Hashes, d: Descriptor, entries: map<ChunkId, Bytes>) {
    d.id in entries && ValidChunk(h, entries[d.id], d)
  }

  /** What one chunk read answers, and what it does to the cache. */
  ghost predicate Answers(h: Hashes, d: Descriptor, reply: nat -> Reply, disk: Disk,
                          before: map<ChunkId, Bytes>, after: map<ChunkId, Bytes>, r: Option<Bytes>)
  {
    var stuck := d.id in before && !disk.canRemove;
    var cleared := match disk.rival case Some(bytes) => before[d.id := bytes] case None => before - {d.id};
    && (r.Some? ==> ValidChunk(h, r.value, d))
    && (Hit(h, d, before) ==> r == Some(before[d.id]) && after == before)
    && (!Hit(h, d, before) ==>
          && (r.Some? <==> !stuck && Serves(h, d, reply) && disk.canWrite)
          && (r.Some? ==> r == Network(reply))
          && (after == if stuck then before
                       else if r.Some? && disk.rival.None? then cleared[d.id := r.value]
                       else cleared))
  }

  class ChunkCache {
    const h: Hashes
    /** Cache files by digest, whatever they contain. */
    var entries: map<ChunkId, Bytes>

    constructor (h: Hashes, found: map<ChunkId, Bytes>)
      ensures this.h == h && entries == found
    {
      this.h, entries := h, found;
    }

    /** `read_or_fetch_chunk`. A valid entry answers without the network and leaves the cache alone. Otherwise
        a corrupt entry is removed, and the answer is the network's, if it is valid and can be published. No
        other entry is touched, and whatever this call publishes is the chunk. `disk.rival` is a file another
        client published at the same path after the first look; it is never overwritten. */
    method ReadOrFetchChunk(d: Descriptor, reply: nat -> Reply, disk: Disk) returns (r: Option<Bytes>)
      modifies this`entries
      ensures Answers(h, d, reply, disk, old(entries), entries, r)
      ensures Sound(h, old(entries)) && (disk.rival.Some? ==> h.blake3(disk.rival.value) == d.id) ==> Sound(h, entries)
    {
      if d.id in entries {
        if ValidChunk(h, entries[d.id], d) {
          return Some(entries[d.id]);
        }
        if !disk.canRemove {
          return None;
        }
        entries := entries - {d.id};
      }
      if disk.rival.Some? {
        entries := entries[d.id := disk.rival.value];
      }
      var downloaded: Option<Bytes> := None;
      var attempt := 0;
      while attempt < ATTEMPTS
        invariant attempt <= ATTEMPTS && downloaded == None
        invariant Deciding(reply, attempt) == Deciding(reply, 0)
      {
        match reply(attempt) {
          case Answered(body) =>
            if body.None? {
              return None;
            }
            downloaded := body;
            break;
          case StatusError => return None;
          case _ => attempt := attempt + 1;
        }
      }
      if downloaded.None? || !ValidChunk(h, downloaded.value, d) {
        return None;
      }
      if !disk.canWrite {
        return None;
      }
      if d.id !in entries {
        entries := entries[d.id := downloaded.value];
      }
      return downloaded;
    }

    /** The chunk reads of one download, one after another in any order; an index they never
        get to counts as failed. Whatever the cache held, corrupt entries included: every success is a valid
        chunk; where the servers serve and the disk works every read succeeds; no entry of another chunk is
        touched, and an entry is what it was, what a rival put there, or the bytes its name promises. A cache
        that holds the manifest's chunks answers everything and stays as it is, and a cache through which every
        read succeeded holds them. */
    method ReadChunks(m: Manifest, order: seq<nat>, env: Environment) returns (got: seq<Fetch>)
      requires Orders(order, |m.chunks|)
      modifies this`entries
      ensures |got| == |m.chunks| && Honest(h, m, got)
      ensures forall i: nat :: i < |got| && i !in order ==> got[i].FetchFailed?
      ensures Kind(h, m, env) ==> forall i :: i in order ==> got[i].Fetched?
      ensures Traced(h, m, env, old(entries), entries)
      ensures Warm(h, m, old(entries)) ==>
        entries == old(entries) && forall i :: i in order ==> got[i] == Fetched(entries[m.chunks[i].id])
      ensures FairRivals(h, m, env) && InjectiveBlake3(h) && AllRead(got) ==> Warm(h, m, entries)
    {
      hide Answers, Healed, Kind, Traced, Warm, FairRivals, InjectiveBlake3, Honest;
      ghost var before := entries;
      got := seq(|m.chunks|, _ => FetchFailed);
      TracedNothing(h, m, env, entries);
      NothingRead(h, m, got);
      HealedNothing(m, got, entries);
      for k := 0 to |order|
        invariant |got| == |m.chunks| && Honest(h, m, got)
        invariant forall i: nat :: i < |got| && i !in order[..k] ==> got[i].FetchFailed?
        invariant Kind(h, m, env) ==> forall j :: 0 <= j < k ==> got[order[j]].Fetched?
        invariant Traced(h, m, env, before, entries)
        invariant Warm(h, m, before) ==>
          && entries == before
          && forall j :: 0 <= j < k ==>
               m.chunks[order[j]].id in before && got[order[j]] == Fetched(before[m.chunks[order[j]].id])
        invariant FairRivals(h, m, env) && InjectiveBlake3(h) ==> Healed(m, order[..k], got, entries)
      {
        var i := order[k];
        ghost var held, had := entries, got;
        var answer := ReadOrFetchChunk(m.chunks[i], env.net(i), env.disk(i));
        ReadIsTraced(h, m, env, i, before, held, entries, answer);
        ReadIsHonest(h, m, i, got, AsFetch(answer));
        KindAnswers(h, m, env, i, held, entries, answer);
        WarmAnswers(h, m, env, i, held, entries, answer);
        if FairRivals(h, m, env) && InjectiveBlake3(h) {
          ReadHeals(h, m, env, order[..k], i, held, entries, got, answer);
        }
        got := got[i := AsFetch(answer)];
        assert order[..k + 1] == order[..k] + [i];
      }
      assert order[..|order|] == order;
      HealedIsWarm(h, m, order, got, entries);
    }
  }

  /** Every file holds the bytes its name promises. */
  ghost predicate Sound(h: Hashes, entries: map<ChunkId, Bytes>) {
    forall c :: c in entries ==> h.blake3(entries[c]) == c
  }

  // ------------------------------------------------------------------ reading a whole manifest

  /** How the network answers each attempt for each chunk, and what the disk does at each read. */
  datatype Environment = Environment(net: nat -> nat -> Reply, disk: nat -> Disk)

  /** Each index is scheduled at most once. */
  ghost predicate Orders(order: seq<nat>, n: nat) {
    && (forall k :: 0 <= k < |order| ==> order[k] < n)
    && (forall j, k :: 0 <= j < k < |order| ==> order[j] != order[k])
  }

  predicate Serves(h: Hashes, d: Descriptor, reply: nat -> Reply) {
    Network(reply).Some? && ValidChunk(h, Network(reply).value, d)
  }

  /** Every chunk is served within the attempts, and the disk works. */
  ghost predicate Kind(h: Hashes, m: Manifest, env: Environment) {
    forall i: nat :: i < |m.chunks| ==>
      Serves(h, m.chunks[i], env.net(i)) && env.disk(i).canRemove && env.disk(i).canWrite
  }

  /** Other clients publish only chunks under their own digest. */
  ghost predicate FairRivals(h: Hashes, m: Manifest, env: Environment) {
    forall i: nat :: i < |m.chunks| ==>
      (env.disk(i).rival.Some? ==> h.blake3(env.disk(i).rival.value) == m.chunks[i].id)
  }

  /** Every successful read is a valid chunk. */
  ghost predicate Honest(h: Hashes, m: Manifest, got: seq<Fetch>) {
    && |got| == |m.chunks|
    && forall i: nat :: i < |m.chunks| && got[i].Fetched? ==> ValidChunk(h, got[i].bytes, m.chunks[i])
  }

  predicate AllRead(got: seq<Fetch>) {
    forall i: nat :: i < |got| ==> got[i].Fetched?
  }

  /** The cache holds every chunk of the manifest. */
  ghost predicate Warm(h: Hashes, m: Manifest, entries: map<ChunkId, Bytes>) {
    forall i: nat :: i < |m.chunks| ==>
      m.chunks[i].id in entries && ValidChunk(h, entries[m.chunks[i].id], m.chunks[i])
  }

  ghost predicate Rival(m: Manifest, env: Environment, c: ChunkId, bytes: Bytes) {
    exists i: nat :: i < |m.chunks| && m.chunks[i].id == c && env.disk(i).rival == Some(bytes)
  }

  ghost predicate Describes(m: Manifest, c: ChunkId) {
    exists i: nat :: i < |m.chunks| && m.chunks[i].id == c
  }

  /** Where the entries of a cache come from after reading a manifest through it. */
  ghost predicate Traced(h: Hashes, m: Manifest, env: Environment,
                         before: map<ChunkId, Bytes>, after: map<ChunkId, Bytes>)
  {
    && (forall c :: c in after ==>
          (c in before && after[c] == before[c]) || h.blake3(after[c]) == c || Rival(m, env, c, after[c]))
    && (forall c :: !Describes(m, c) ==> (c in after <==> c in before))
    && (forall c :: !Describes(m, c) && c in after ==> after[c] == before[c])
  }

  lemma TracedNothing(h: Hashes, m: Manifest, env: Environment, entries: map<ChunkId, Bytes>)
    ensures Traced(h, m, env, entries, entries)
  {
  }

  lemma NothingRead(h: Hashes, m: Manifest, got: seq<Fetch>)
    requires |got| == |m.chunks| && forall i: nat :: i < |got| ==> got[i].FetchFailed?
    ensures Honest(h, m, got)
  {
  }

  /** If every read so far succeeded, its entry holds its bytes. */
  ghost predicate Healed(m: Manifest, done: seq<nat>, got: seq<Fetch>, entries: map<ChunkId, Bytes>)
  {
    && |got| == |m.chunks| && (forall k :: 0 <= k < |done| ==> done[k] < |got|)
    && ((forall k :: 0 <= k < |done| ==> got[done[k]].Fetched?) ==>
          forall k :: 0 <= k < |done| ==>
            m.chunks[done[k]].id in entries && entries[m.chunks[done[k]].id] == got[done[k]].bytes)
  }

  lemma ReadIsHonest(h: Hashes, m: Manifest, i: nat, got: seq<Fetch>, r: Fetch)
    requires Honest(h, m, got) && i < |m.chunks| && (r.Fetched? ==> ValidChunk(h, r.bytes, m.chunks[i]))
    ensures Honest(h, m, got[i := r])
  {
  }

  lemma ReadIsTraced(h: Hashes, m: Manifest, env: Environment, i: nat, before: map<ChunkId, Bytes>,
                     held: map<ChunkId, Bytes>, after: map<ChunkId, Bytes>, r: Option<Bytes>)
    requires Traced(h, m, env, before, held) && i < |m.chunks|
    requires Answers(h, m.chunks[i], env.net(i), env.disk(i), held, after, r)
    ensures Traced(h, m, env, before, after)
  {
    var d := m.chunks[i];
    assert Describes(m, d.id);
    forall c | c != d.id ensures (c in after <==> c in held) && (c in after ==> after[c] == held[c]) {
      assert c in after - {d.id} <==> c in held - {d.id};
      assert c in after ==> (after - {d.id})[c] == (held - {d.id})[c];
    }
    if d.id in after && env.disk(i).rival == Some(after[d.id]) {
      assert Rival(m, env, d.id, after[d.id]);
    }
  }

  lemma ReadHeals(h: Hashes, m: Manifest, env: Environment, done: seq<nat>, i: nat, held: map<ChunkId, Bytes>,
                  after: map<ChunkId, Bytes>, got: seq<Fetch>, r: Option<Bytes>)
    requires InjectiveBlake3(h) && FairRivals(h, m, env) && Honest(h, m, got) && i < |m.chunks| && i !in done
    requires Healed(m, done, got, held)
    requires Answers(h, m.chunks[i], env.net(i), env.disk(i), held, after, r)
    ensures Healed(m, done + [i], got[i := AsFetch(r)], after)
  {
    var d, now := m.chunks[i], got[i := AsFetch(r)];
    assert forall k :: 0 <= k < |done| ==> done[k] != i && now[done[k]] == got[done[k]];
    if r.Some? && (forall k :: 0 <= k < |done| ==> got[done[k]].Fetched?) {
      assert after[d.id] == r.value;
      forall k | 0 <= k < |done|
        ensures m.chunks[done[k]].id in after && after[m.chunks[done[k]].id] == got[done[k]].bytes
      {
        var c := m.chunks[done[k]].id;
        assert ValidChunk(h, got[done[k]].bytes, m.chunks[done[k]]);
        if c != d.id {
          assert c in held - {d.id} && (after - {d.id})[c] == (held - {d.id})[c];
        }
      }
    } else if r.None? {
      assert now[(done + [i])[|done|]].FetchFailed?;
    } else {
      var k :| 0 <= k < |done| && !got[done[k]].Fetched?;
      assert !now[(done + [i])[k]].Fetched?;
    }
  }

  lemma HealedNothing(m: Manifest, got: seq<Fetch>, entries: map<ChunkId, Bytes>)
    requires |got| == |m.chunks|
    ensures Healed(m, [], got, entries)
  {
  }

  lemma KindAnswers(h: Hashes, m: Manifest, env: Environment, i: nat,
                    held: map<ChunkId, Bytes>, after: map<ChunkId, Bytes>, r: Option<Bytes>)
    requires i < |m.chunks| && Answers(h, m.chunks[i], env.net(i), env.disk(i), held, after, r)
    ensures r.Some? ==> ValidChunk(h, r.value, m.chunks[i])
    ensures Kind(h, m, env) ==> r.Some?
  {
  }

  lemma WarmAnswers(h: Hashes, m: Manifest, env: Environment, i: nat,
                    held: map<ChunkId, Bytes>, after: map<ChunkId, Bytes>, r: Option<Bytes>)
    requires i < |m.chunks| && Answers(h, m.chunks[i], env.net(i), env.disk(i), held, after, r)
    ensures Warm(h, m, held) ==> after == held && m.chunks[i].id in held && r == Some(held[m.chunks[i].id])
  {
  }

  lemma HealedIsWarm(h: Hashes, m: Manifest, order: seq<nat>, got: seq<Fetch>, entries: map<ChunkId, Bytes>)
    requires Honest(h, m, got) && forall i: nat :: i < |got| && i !in order ==> got[i].FetchFailed?
    ensures Healed(m, order, got, entries) && AllRead(got) ==> Warm(h, m, entries)
  {
    if Healed(m, order, got, entries) && AllRead(got) {
      forall i: nat | i < |m.chunks|
        ensures m.chunks[i].id in entries && ValidChunk(h, entries[m.chunks[i].id], m.chunks[i])
      {
        assert i in order;
      }
    }
  }

  function AsFetch(r: Option<Bytes>): (f: Fetch) {
    match r case Some(bytes) => Fetched(bytes) case None => FetchFailed
  }

  /** The reads as the workers' results. */
  function FetchOf(got: seq<Fetch>): (f: nat -> Fetch) {
    (i: nat) => if i < |got| then got[i] else FetchFailed
  }

  /** The bytes read, in manifest order. */
  function Joined(got: seq<Fetch>): (bytes: Bytes) {
    Sequential(FetchOf(got), |got|)
  }

  /** A chunk answer is the same from every cache and every server: nothing but the descriptor decides it. */
  lemma {:induction false} ReadsAgree(h: Hashes, m: Manifest, one: seq<Fetch>, other: seq<Fetch>, n: nat)
    requires InjectiveBlake3(h) && Honest(h, m, one) && Honest(h, m, other) && n <= |m.chunks|
    requires AllRead(one) && AllRead(other)
    ensures Sequential(FetchOf(one), n) == Sequential(FetchOf(other), n)
  {
    if n > 0 {
      ReadsAgree(h, m, one, other, n - 1);
      assert h.blake3(one[n - 1].bytes) == h.blake3(other[n - 1].bytes);
    }
  }

  /** Chunks of the described lengths add up to the described extent. */
  lemma {:induction false} HonestLength(h: Hashes, m: Manifest, got: seq<Fetch>, n: nat)
    requires Honest(h, m, got) && n <= |m.chunks| && AllRead(got)
    ensures |Sequential(FetchOf(got), n)| == Extent(m.chunks[..n])
  {
    if n > 0 {
      HonestLength(h, m, got, n - 1);
      ExtentSnoc(m.chunks, n - 1);
    }
  }

  lemma SizeIsExtent(m: Manifest)
    requires WellFormed(m)
    ensures Extent(m.chunks) == m.size && m.chunks[..|m.chunks|] == m.chunks
  {
  }

  // ------------------------------------------------------------------ downloads through a cache

  /** When a download delivers: the manifest is well formed and describes the requested object, every chunk was
      read, and the whole hashes to the object id. */
  ghost predicate Delivers(h: Hashes, m: Manifest, oid: Oid, size: nat, got: seq<Fetch>) {
    WellFormed(m) && m.oid == oid && m.size == size && AllRead(got) && h.sha256(Joined(got)) == oid
  }

  /** `HttpBackend::download`, through any cache and with its chunks read in any order. `got` is what the chunk
      reads answered. It delivers exactly when it should, and then bytes of the requested size and hash, the
      chunks in manifest order, each of them valid; in a kind environment every scheduled read succeeds; what the
      cache holds afterwards is accounted for; a warm cache needs neither network nor disk, and a delivered
      object leaves a warm cache behind. */
  method DownloadObject(cache: ChunkCache, m: Manifest, oid: Oid, size: nat, window: nat, order: seq<nat>,
                        env: Environment)
    returns (r: Option<Bytes>, ghost got: seq<Fetch>)
    requires 1 <= window <= 8 && Orders(order, |m.chunks|)
    modifies cache`entries
    ensures Honest(cache.h, m, got)
    ensures r.Some? <==> Delivers(cache.h, m, oid, size, got)
    ensures r.Some? ==> r.value == Joined(got) && |r.value| == size && cache.h.sha256(r.value) == oid
    ensures WellFormed(m) && m.oid == oid && m.size == size && Kind(cache.h, m, env) ==>
      forall i :: i in order ==> got[i].Fetched?
    ensures Traced(cache.h, m, env, old(cache.entries), cache.entries)
    ensures Warm(cache.h, m, old(cache.entries)) ==> cache.entries == old(cache.entries)
    ensures WellFormed(m) && m.oid == oid && m.size == size && Warm(cache.h, m, old(cache.entries)) ==>
      forall i :: i in order ==> got[i].Fetched?
    ensures r.Some? && FairRivals(cache.h, m, env) && InjectiveBlake3(cache.h) ==> Warm(cache.h, m, cache.entries)
  {
    hide WellFormed, Kind, Traced, Warm, FairRivals, InjectiveBlake3, Honest;
    ghost var none := seq(|m.chunks|, (_: nat) => FetchFailed);
    NothingRead(cache.h, m, none);
    TracedNothing(cache.h, m, env, cache.entries);
    var verdict := Validate(m);
    if verdict.Rejected? || m.oid != oid || m.size != size {
      return None, none;
    }
    var answers := cache.ReadChunks(m, order, env);
    got := answers;
    r := Reassemble(|m.chunks|, window, FetchOf(answers));
    AllFetchedIsRead(answers);
    if r.Some? {
      HonestLength(cache.h, m, answers, |m.chunks|);
      SizeIsExtent(m);
      if cache.h.sha256(r.value) != oid {
        r := None;
      }
    }
  }

  lemma AllFetchedIsRead(got: seq<Fetch>)
    ensures AllFetched(FetchOf(got), |got|) <==> AllRead(got)
  {
    assert forall i: nat :: i < |got| ==> FetchOf(got)(i) == got[i];
  }

  /** Cache transparency: whatever the two caches hold, corrupt entries or nothing at all, whatever networks,
      disks, orders and windows the two downloads meet, if both deliver they deliver the same bytes; and if both
      get every chunk, either both deliver or neither does. */
  method CompareCaches(one: ChunkCache, other: ChunkCache, m: Manifest, oid: Oid, size: nat,
                       windows: (nat, nat), orders: (seq<nat>, seq<nat>), envs: (Environment, Environment))
    returns (a: Option<Bytes>, b: Option<Bytes>)
    requires one != other && one.h == other.h && InjectiveBlake3(one.h)
    requires 1 <= windows.0 <= 8 && 1 <= windows.1 <= 8
    requires Orders(orders.0, |m.chunks|) && Orders(orders.1, |m.chunks|)
    modifies one`entries, other`entries
    ensures a.Some? && b.Some? ==> a == b
    ensures (&& Reaching(one.h, m, old(one.entries), orders.0, envs.0)
             && Reaching(other.h, m, old(other.entries), orders.1, envs.1)) ==> a == b
    ensures Traced(one.h, m, envs.0, old(one.entries), one.entries)
    ensures Traced(other.h, m, envs.1, old(other.entries), other.entries)
  {
    hide WellFormed, Kind, Traced, Warm, InjectiveBlake3, Honest;
    ghost var oneReads, otherReads;
    a, oneReads := DownloadObject(one, m, oid, size, windows.0, orders.0, envs.0);
    b, otherReads := DownloadObject(other, m, oid, size, windows.1, orders.1, envs.1);
    HonestSize(one.h, m, oneReads);
    HonestSize(one.h, m, otherReads);
    if AllRead(oneReads) && AllRead(otherReads) {
      ReadsAgree(one.h, m, oneReads, otherReads, |m.chunks|);
    }
  }

  lemma HonestSize(h: Hashes, m: Manifest, got: seq<Fetch>)
    requires Honest(h, m, got)
    ensures |got| == |m.chunks|
  {
  }

  /** Every index gets read, and nothing can go wrong: the servers serve and the disk works, or the cache already
      holds everything. */
  ghost predicate Reaching(h: Hashes, m: Manifest, entries: map<ChunkId, Bytes>, order: seq<nat>, env: Environment) {
    (forall i: nat :: i < |m.chunks| ==> i in order) && (Kind(h, m, env) || Warm(h, m, entries))
  }

  /** A delivered object can be downloaded again without the network: the cache is left warm. */
  method DownloadTwice(cache: ChunkCache, m: Manifest, oid: Oid, size: nat, window: nat,
                       orders: (seq<nat>, seq<nat>), envs: (Environment, Environment))
    returns (first: Option<Bytes>, again: Option<Bytes>)
    requires InjectiveBlake3(cache.h) && FairRivals(cache.h, m, envs.0) && 1 <= window <= 8
    requires Orders(orders.0, |m.chunks|) && Orders(orders.1, |m.chunks|)
    requires forall i: nat :: i < |m.chunks| ==> i in orders.1
    modifies cache`entries
    ensures first.Some? ==> again == first && Warm(cache.h, m, cache.entries)
  {
    hide WellFormed, Kind, Traced, Warm, FairRivals, InjectiveBlake3, Honest;
    ghost var firstReads, moreReads;
    first, firstReads := DownloadObject(cache, m, oid, size, window, orders.0, envs.0);
    again, moreReads := DownloadObject(cache, m, oid, size, window, orders.1, envs.1);
    HonestSize(cache.h, m, firstReads);
    HonestSize(cache.h, m, moreReads);
    if first.Some? {
      ReadsAgree(cache.h, m, firstReads, moreReads, |m.chunks|);
    }
  }
}
