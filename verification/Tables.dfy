/** The server's shared state for one repository, and each transaction as a function on it.

    Every SQL statement of the server is scoped by `repository_id` and every provider key starts
    with it, so one repository's rows and bytes never meet another's. A transaction commits whole
    or, on an early error, leaves the tables as they were. */
module Tables {
  import opened Content
  import opened Manifests

  /** Upload sessions live 24 hours from their last begin, in seconds. */
  const SESSION_LIFETIME: nat := 86_400

  type SessionId = nat
  type EpochId = nat

  datatype SessionState = Open | Finalized | Expired

  datatype Session = Session(manifest: Manifest, state: SessionState, expiresAt: nat)

  datatype ChunkRow = ChunkRow(size: nat, refs: int)

  datatype Epoch = Epoch(completedAt: nat, reachable: set<Oid>)

  /** A provider write whose registration has committed. */
  datatype PendingPut = PendingPut(session: SessionId, chunk: ChunkId, data: Bytes)

  type SessionTable = map<SessionId, Session>
  type HoldTable = set<(SessionId, ChunkId)>
  type ChunkTable = map<ChunkId, ChunkRow>
  type ObjectTable = map<Oid, Manifest>
  type RowTable = map<(Oid, nat), Descriptor>

  datatype State = State(
    now: nat,
    // tables
    sessions: SessionTable,
    sessionChunks: HoldTable,
    chunks: ChunkTable,
    objects: ObjectTable,
    objectChunks: RowTable,
    tombstones: map<Oid, nat>,
    queue: set<ChunkId>,
    epochs: map<EpochId, Epoch>,
    // the provider, outside every transaction
    store: map<ChunkId, Bytes>,
    // where calls in flight stand; any number of calls may stand at the same point
    issued: set<SessionId>,       // session ids ever drawn
    puts: set<PendingPut>,        // registrations whose provider write may still happen
    acked: set<(SessionId, ChunkId)>,  // chunk uploads that returned success
    plans: set<set<Oid>>,         // candidate lists read by stage calls
    listed: set<ChunkId>,         // queue entries read by drain calls
    stale: set<ChunkId>,          // drain calls that read no chunk row, about to drop the entry
    draining: map<ChunkId, bool>  // chunk rows locked by a drain call that decided to delete,
                                  // and whether its provider delete has happened
  )

  const EMPTY := State(0, map[], {}, map[], map[], map[], map[], {}, map[], map[],
                       {}, {}, {}, {}, {}, {}, map[])

  // ------------------------------------------------------------------ queries

  function Ids(m: Manifest): (ids: set<ChunkId>) {
    set i | 0 <= i < |m.chunks| :: m.chunks[i].id
  }

  predicate IsOpen(sessions: SessionTable, s: SessionId) {
    s in sessions && sessions[s].state == Open
  }

  predicate IsOpenFor(sessions: SessionTable, s: SessionId, oid: Oid) {
    IsOpen(sessions, s) && sessions[s].manifest.oid == oid
  }

  /** The `EXISTS` test of the drain: some open session has the chunk registered. */
  ghost predicate HeldOpen(sessions: SessionTable, held: HoldTable, c: ChunkId) {
    exists s :: (s, c) in held && IsOpen(sessions, s)
  }

  /** Some session row of any state still names the chunk: the foreign key that guards its row. */
  ghost predicate Named(held: HoldTable, c: ChunkId) {
    exists s :: (s, c) in held
  }

  /** The object_chunks rows naming `c`. */
  function Naming(rows: RowTable, c: ChunkId): (keys: set<(Oid, nat)>) {
    set k | k in rows && rows[k].id == c
  }

  /** The object_chunks rows publication writes for one manifest. */
  function ObjectRows(oid: Oid, m: Manifest): (rows: RowTable) {
    map i: nat | 0 <= i < |m.chunks| :: (oid, i) := m.chunks[i]
  }

  /** The object_chunks rows of one object. */
  function RowsOf(rows: RowTable, oid: Oid): (owned: RowTable) {
    map k | k in rows && k.0 == oid :: rows[k]
  }

  // ------------------------------------------------------------------ sessions

  function ExpireStale(sessions: SessionTable, now: nat, oid: Oid): (r: SessionTable) {
    map s | s in sessions ::
      if IsOpenFor(sessions, s, oid) && sessions[s].expiresAt <= now
      then sessions[s].(state := Expired) else sessions[s]
  }

  datatype Begun = Started(id: SessionId) | Conflict | InvalidManifest

  /** The partial unique index: the open session an insert for `oid` would collide with. */
  ghost function OpenSessionOf(sessions: SessionTable, oid: Oid): (r: Option<SessionId>)
    ensures r.Some? ==> IsOpenFor(sessions, r.value, oid)
    ensures r.None? ==> forall s :: !IsOpenFor(sessions, s, oid)
  {
    if exists s :: IsOpenFor(sessions, s, oid)
    then var s :| IsOpenFor(sessions, s, oid); Some(s)
    else None
  }

  /** `begin_cdc` and `ensure_upload_session`: expire the stale session of this object, then insert
      or refresh; a stored manifest that differs rolls everything back. */
  ghost function BeginTx(st: State, drawn: SessionId, m: Manifest): (r: (State, Begun))
    ensures r.0 == st.(sessions := r.0.sessions, issued := r.0.issued)
  {
    if !WellFormed(m) then (st, InvalidManifest)
    else
      var live := ExpireStale(st.sessions, st.now, m.oid);
      match OpenSessionOf(live, m.oid)
      case None =>
        var inserted := live[drawn := Session(m, Open, st.now + SESSION_LIFETIME)];
        (st.(sessions := inserted, issued := st.issued + {drawn}), Started(drawn))
      case Some(s) =>
        if live[s].manifest != m then (st, Conflict)
        else
          var refreshed := live[s := live[s].(expiresAt := st.now + SESSION_LIFETIME)];
          (st.(sessions := refreshed), Started(s))
  }

  // ------------------------------------------------------------------ chunk upload

  /** Preconditions the chunk handlers establish before registering: the descriptor comes from the
      session's manifest and the body has the descriptor's length. */
  predicate Uploadable(st: State, s: SessionId, index: nat, data: Bytes) {
    && s in st.sessions
    && index < |st.sessions[s].manifest.chunks|
    && |data| == st.sessions[s].manifest.chunks[index].length
  }

  predicate SizeAgrees(st: State, d: Descriptor) {
    d.id in st.chunks ==> st.chunks[d.id].size == d.length
  }

  /** The transaction of `register_and_store_chunk`; a recorded size that differs rolls it back. */
  function RegisterTx(st: State, s: SessionId, index: nat, data: Bytes): (r: State)
    requires Uploadable(st, s, index, data)
    ensures r == st.(chunks := r.chunks, sessionChunks := r.sessionChunks, puts := r.puts)
  {
    var d := st.sessions[s].manifest.chunks[index];
    if !SizeAgrees(st, d) then st
    else st.(
      chunks := if d.id in st.chunks then st.chunks else st.chunks[d.id := ChunkRow(d.length, 0)],
      sessionChunks := st.sessionChunks + {(s, d.id)},
      puts := st.puts + {PendingPut(s, d.id, data)})
  }

  /** `put_verified`: the digest is checked first and the write only creates. */
  function PutVerified(h: Hashes, store: map<ChunkId, Bytes>, c: ChunkId, data: Bytes)
    : (r: map<ChunkId, Bytes>)
  {
    if h.blake3(data) != c || c in store then store else store[c := data]
  }

  function PutEffect(h: Hashes, st: State, p: PendingPut): (r: State)
    ensures r == st.(store := r.store, acked := r.acked)
  {
    if h.blake3(p.data) != p.chunk then st
    else st.(store := PutVerified(h, st.store, p.chunk, p.data),
             acked := st.acked + {(p.session, p.chunk)})
  }

  // ------------------------------------------------------------------ publication

  /** The session row `publish_manifest` selects: finalized, or open and not past its expiry. */
  predicate Finalizable(st: State, s: SessionId) {
    && s in st.sessions
    && (|| (st.sessions[s].state == Open && st.now < st.sessions[s].expiresAt)
        || st.sessions[s].state == Finalized)
  }

  function FirstLength(chunks: seq<Descriptor>, c: ChunkId): (n: nat)
    requires exists i :: 0 <= i < |chunks| && chunks[i].id == c
  {
    if chunks[0].id == c then chunks[0].length
    else
      assert forall i :: 1 <= i < |chunks| ==> chunks[i] == chunks[1..][i - 1];
      FirstLength(chunks[1..], c)
  }

  /** `INSERT … ON CONFLICT DO NOTHING` for every descriptor: existing rows are left alone. */
  function EnsureRows(chunks: ChunkTable, m: Manifest): (r: ChunkTable)
    ensures r.Keys == chunks.Keys + Ids(m)
  {
    map c | c in chunks.Keys + Ids(m) ::
      if c in chunks then chunks[c] else ChunkRow(FirstLength(m.chunks, c), 0)
  }

  /** One more reference per row. */
  function AddReferences(chunks: ChunkTable, rows: RowTable): (r: ChunkTable) {
    map c | c in chunks :: chunks[c].(refs := chunks[c].refs + |Naming(rows, c)|)
  }

  function DropReferences(chunks: ChunkTable, rows: RowTable): (r: ChunkTable) {
    map c | c in chunks :: chunks[c].(refs := chunks[c].refs - |Naming(rows, c)|)
  }

  function Finalize(sessions: SessionTable, s: SessionId): (r: SessionTable)
    requires s in sessions
  {
    sessions[s := sessions[s].(state := Finalized)]
  }

  datatype Published = Created | Existing | NotFound | Rejected

  /** `publish_manifest`. */
  function PublishTx(st: State, s: SessionId): (r: (State, Published))
    ensures r.0 == st.(sessions := r.0.sessions, chunks := r.0.chunks,
                       objects := r.0.objects, objectChunks := r.0.objectChunks)
  {
    if s in st.sessions && !WellFormed(st.sessions[s].manifest) then (st, Published.Rejected)
    else if !Finalizable(st, s) then (st, NotFound)
    else if st.sessions[s].state == Finalized then (st, Existing)
    else
      var m := st.sessions[s].manifest;
      var rows := EnsureRows(st.chunks, m);
      var closed := Finalize(st.sessions, s);
      if m.oid in st.objects then (st.(chunks := rows, sessions := closed), Existing)
      else
        var added := ObjectRows(m.oid, m);
        (st.(chunks := AddReferences(rows, added),
             objects := st.objects[m.oid := m],
             objectChunks := st.objectChunks + added,
             sessions := closed),
         Created)
  }

  // ------------------------------------------------------------------ collection

  /** `ORDER BY completed_at DESC, id DESC`. */
  predicate Newer(epochs: map<EpochId, Epoch>, a: EpochId, b: EpochId)
    requires a in epochs && b in epochs
  {
    || epochs[a].completedAt > epochs[b].completedAt
    || (epochs[a].completedAt == epochs[b].completedAt && a > b)
  }

  function NewerThan(epochs: map<EpochId, Epoch>, e: EpochId): (r: set<EpochId>)
    requires e in epochs
  {
    set f | f in epochs && Newer(epochs, f, e)
  }

  /** `LIMIT 2`: the epochs with fewer than two newer ones. */
  function Latest(epochs: map<EpochId, Epoch>): (r: set<EpochId>) {
    set e | e in epochs && |NewerThan(epochs, e)| < 2
  }

  /** `dry_run`: two complete snapshots, the object in neither, and no tombstone yet. */
  predicate Unreachable(epochs: map<EpochId, Epoch>, oid: Oid) {
    && |Latest(epochs)| == 2
    && forall e :: e in Latest(epochs) ==> oid !in epochs[e].reachable
  }

  function Candidates(st: State): (r: set<Oid>) {
    set oid | oid in st.objects && Unreachable(st.epochs, oid) && oid !in st.tombstones
  }

  /** `submit_snapshot`: a repeated object id violates the primary key and aborts. */
  function SubmitTx(st: State, id: EpochId, startedAt: nat, oids: seq<Oid>): (r: State)
    ensures r == st.(epochs := r.epochs)
  {
    if exists i, j :: 0 <= i < j < |oids| && oids[i] == oids[j] then st
    else st.(epochs := st.epochs[id := Epoch(startedAt, set oid | oid in oids)])
  }

  /** The transaction of `stage`: an object deleted since the dry run violates the foreign key. */
  function StageTx(st: State, plan: set<Oid>, grace: nat): (r: State)
    ensures r == st.(tombstones := r.tombstones)
  {
    if !(plan <= st.objects.Keys) then st
    else st.(tombstones := (map oid | oid in plan :: st.now + grace) + st.tombstones)
  }

  predicate Due(st: State, oid: Oid) {
    oid in st.tombstones && st.tombstones[oid] <= st.now
  }

  /** One pass of the `collect_due` loop: the object and everything that cascades from it go, each
      of its rows gives back one reference, and chunks left unreferenced are queued. A count below
      zero would violate the table's check and abort. */
  function CollectTx(st: State, oid: Oid): (r: State)
    ensures r == st.(objects := r.objects, objectChunks := r.objectChunks,
                     tombstones := r.tombstones, chunks := r.chunks, queue := r.queue)
  {
    var owned := RowsOf(st.objectChunks, oid);
    var counted := DropReferences(st.chunks, owned);
    if exists c :: c in counted && counted[c].refs < 0 then st
    else st.(
      objects := st.objects - {oid},
      objectChunks := st.objectChunks - owned.Keys,
      tombstones := st.tombstones - {oid},
      chunks := counted,
      queue := st.queue + (set k | k in owned && owned[k].id in counted
                                   && counted[owned[k].id].refs == 0 :: owned[k].id))
  }

  // ------------------------------------------------------------------ reclamation

  function ExpireAll(sessions: SessionTable, now: nat): (r: SessionTable) {
    map s | s in sessions ::
      if sessions[s].state == Open && sessions[s].expiresAt <= now
      then sessions[s].(state := Expired) else sessions[s]
  }

  predicate PastGrace(session: Session, now: nat, grace: nat) {
    session.state == Expired && session.expiresAt + grace <= now
  }

  function Removable(sessions: SessionTable, now: nat, grace: nat): (r: set<SessionId>) {
    set s | s in sessions && PastGrace(sessions[s], now, grace)
  }

  /** Unreferenced chunks of sessions about to be removed that no open session holds. */
  ghost function Abandoned(chunks: ChunkTable, sessions: SessionTable, held: HoldTable,
                           removed: set<SessionId>): (r: set<ChunkId>)
  {
    set c | c in chunks && chunks[c].refs == 0 && !HeldOpen(sessions, held, c)
            && exists s :: (s, c) in held && s in removed
  }

  /** The cascade from a removed session to its registrations. */
  function Released(held: HoldTable, removed: set<SessionId>): (r: HoldTable) {
    set hold | hold in held && hold.0 !in removed
  }

  /** `reclaim_expired_uploads`, before its drain. */
  ghost function ReclaimTx(st: State, grace: nat): (r: State)
    ensures r == st.(queue := r.queue, sessions := r.sessions, sessionChunks := r.sessionChunks)
  {
    var expired := ExpireAll(st.sessions, st.now);
    var removed := Removable(expired, st.now, grace);
    st.(queue := st.queue + Abandoned(st.chunks, expired, st.sessionChunks, removed),
        sessions := expired - removed,
        sessionChunks := Released(st.sessionChunks, removed))
  }

  // ------------------------------------------------------------------ finalization

  /** The stored bytes of a manifest's chunks, in order. */
  function Stored(store: map<ChunkId, Bytes>, m: Manifest): (pieces: seq<Bytes>)
    requires Ids(m) <= store.Keys
    ensures |pieces| == |m.chunks|
    ensures forall i :: 0 <= i < |m.chunks| ==> pieces[i] == store[m.chunks[i].id]
  {
    seq(|m.chunks|, i requires 0 <= i < |m.chunks| => 
      assert m.chunks[i].id in Ids(m); store[m.chunks[i].id])
  }

  /** What the finalize loop checks: every chunk present, of its recorded length, with a matching
      digest, and the whole hashing to the object id. */
  predicate Reconstructs(h: Hashes, store: map<ChunkId, Bytes>, m: Manifest) {
    && Ids(m) <= store.Keys
    && (forall i :: 0 <= i < |m.chunks| ==>
          && |Stored(store, m)[i]| == m.chunks[i].length
          && h.blake3(Stored(store, m)[i]) == m.chunks[i].id)
    && h.sha256(Concat(Stored(store, m))) == m.oid
  }
}
