/** The chunk reads of one download as the workers really perform them: each read looks at the cache file, may
    remove it, asks the network and publishes, and these steps of different workers interleave.

    Two workers that both find the same corrupt file both try to remove it, and the second one fails. Exactly
    when that can happen is proved here, for a disk and a network that work and a cache no other client uses. */
module CacheRaces {
  import opened Content
  import opened Manifests
  import opened Weights
  import opened Downloads
  import opened Caches

  /** How far the read of one chunk is. */
  datatype Stage =
    | Waiting
    | Looking                   // taken; the cache file is about to be read
    | Removing                  // the file was corrupt and is about to be removed
    | Fetching
    | Publishing(bytes: Bytes)  // valid bytes arrived and are about to be published
    | Resolved(answer: Fetch)

  /** Main thread, workers and the cache directory. */
  datatype Crew = Crew(pipe: Pipe, stages: seq<Stage>, entries: map<ChunkId, Bytes>)

  datatype Act =
    | Pipeline(move: Move)  // a move of the download pipeline; a result is sent once the read is resolved
    | Look(index: nat)
    | Remove(index: nat)
    | Ask(index: nat)
    | Publish(index: nat)

  /** One download: its manifest, how the network answers, and the number of workers. */
  datatype Job = Job(m: Manifest, net: nat -> nat -> Reply, window: nat)

  function StageAt(stages: seq<Stage>, i: nat): (s: Stage) {
    if i < |stages| then stages[i] else Waiting
  }

  /** What the reads have answered so far. */
  function AnswersOf(stages: seq<Stage>): (fetch: nat -> Fetch) {
    (i: nat) => if StageAt(stages, i).Resolved? then StageAt(stages, i).answer else FetchFailed
  }

  function Begin(job: Job, entries: map<ChunkId, Bytes>): (x: Crew) {
    Crew(Start(|job.m.chunks|), seq(|job.m.chunks|, _ => Waiting), entries)
  }

  predicate CanAct(job: Job, x: Crew, act: Act) {
    match act
    case Pipeline(move) =>
      CanMove(x.pipe, move, job.window) && (move.Complete? ==> StageAt(x.stages, move.index).Resolved?)
    case Look(i) => i < |job.m.chunks| && StageAt(x.stages, i) == Looking
    case Remove(i) => i < |job.m.chunks| && StageAt(x.stages, i) == Removing
    case Ask(i) => i < |job.m.chunks| && StageAt(x.stages, i) == Fetching
    case Publish(i) => i < |job.m.chunks| && StageAt(x.stages, i).Publishing?
  }

  function WithStage(x: Crew, i: nat, s: Stage): (r: Crew)
    ensures |r.stages| == |x.stages|
  {
    if i < |x.stages| then x.(stages := x.stages[i := s]) else x
  }

  ghost function Acted(h: Hashes, job: Job, x: Crew, act: Act): (r: Crew)
    requires CanAct(job, x, act)
  {
    match act
    case Pipeline(move) =>
      var moved := x.(pipe := Moved(x.pipe, move, AnswersOf(x.stages)));
      if move.Take? then WithStage(moved, move.index, Looking) else moved
    case Look(i) =>
      var d := job.m.chunks[i];
      if Hit(h, d, x.entries) then WithStage(x, i, Resolved(Fetched(x.entries[d.id])))
      else if d.id in x.entries then WithStage(x, i, Removing)
      else WithStage(x, i, Fetching)
    case Remove(i) =>
      var d := job.m.chunks[i];
      if d.id in x.entries then WithStage(x, i, Fetching).(entries := x.entries - {d.id})
      else WithStage(x, i, Resolved(FetchFailed))
    case Ask(i) =>
      if Serves(h, job.m.chunks[i], job.net(i)) then WithStage(x, i, Publishing(Network(job.net(i)).value))
      else WithStage(x, i, Resolved(FetchFailed))
    case Publish(i) =>
      var d, bytes := job.m.chunks[i], x.stages[i].bytes;
      WithStage(x, i, Resolved(Fetched(bytes))).(
        entries := if d.id in x.entries then x.entries else x.entries[d.id := bytes])
  }

  datatype Shift = Shift(states: seq<Crew>, acts: seq<Act>) {
    function Last(): (x: Crew)
      requires |states| == |acts| + 1
    {
      states[|acts|]
    }
  }

  ghost predicate IsShift(h: Hashes, job: Job, start: Crew, run: Shift) {
    && |run.states| == |run.acts| + 1 && run.states[0] == start
    && forall i :: 0 <= i < |run.acts| ==>
         CanAct(job, run.states[i], run.acts[i]) && run.states[i + 1] == Acted(h, job, run.states[i], run.acts[i])
  }

  /** Some interleaving of a download that starts with this cache leads there. */
  ghost predicate Reached(h: Hashes, job: Job, entries: map<ChunkId, Bytes>, x: Crew) {
    exists run: Shift :: IsShift(h, job, Begin(job, entries), run) && run.Last() == x
  }

  // ------------------------------------------------------------------ what every act keeps

  /** Places of the pipeline and stages of the reads fit together. */
  ghost predicate Staged(places: seq<Place>, stages: seq<Stage>) {
    && |stages| == |places|
    && (forall i: nat :: i < |places| ==> (places[i] in {Unscheduled, Queued} <==> stages[i] == Waiting))
    && (forall i: nat :: i < |places| && places[i] in {Done, Pending, Written, Failed} ==> stages[i].Resolved?)
  }

  /** Whatever is answered or about to be published is a valid chunk. */
  ghost predicate Genuine(h: Hashes, m: Manifest, stages: seq<Stage>) {
    && |stages| == |m.chunks|
    && (forall i: nat :: i < |stages| && stages[i].Publishing? ==> ValidChunk(h, stages[i].bytes, m.chunks[i]))
    && (forall i: nat :: i < |stages| && stages[i].Resolved? && stages[i].answer.Fetched? ==>
          ValidChunk(h, stages[i].answer.bytes, m.chunks[i]))
  }

  ghost predicate HasCause(p: Pipe) {
    p.phase == Aborted ==> exists i: nat :: i < |p.places| && p.places[i] == Failed
  }

  ghost predicate CrewInv(h: Hashes, job: Job, x: Crew) {
    && PipeInv(x.pipe, job.window, AnswersOf(x.stages))
    && Staged(x.pipe.places, x.stages) && Genuine(h, job.m, x.stages) && HasCause(x.pipe)
  }

  lemma {:induction false} SequentialAgrees(f: nat -> Fetch, g: nat -> Fetch, n: nat)
    requires forall i: nat :: i < n ==> f(i) == g(i)
    ensures Sequential(f, n) == Sequential(g, n) && (AllFetched(f, n) <==> AllFetched(g, n))
  {
    if n > 0 {
      SequentialAgrees(f, g, n - 1);
      assert f(n - 1) == g(n - 1);
    }
  }

  /** The pipeline does not notice what happens to reads that are still in work. */
  lemma PipeIgnoresWork(p: Pipe, window: nat, f: nat -> Fetch, g: nat -> Fetch)
    requires PipeInv(p, window, f) && HasCause(p)
    requires forall i: nat :: i < |p.places| && p.places[i] != Working ==> f(i) == g(i)
    ensures PipeInv(p, window, g)
  {
    SequentialAgrees(f, g, p.nextWrite);
    if p.phase == Aborted {
      var i: nat :| i < |p.places| && p.places[i] == Failed;
      assert g(i).FetchFailed?;
    }
    hide Sequential;
  }

  lemma MoveKeepsCause(p: Pipe, move: Move, window: nat, fetch: nat -> Fetch)
    requires HasCause(p) && CanMove(p, move, window)
    ensures HasCause(Moved(p, move, fetch))
  {
    hide Count;
    if p.phase == Aborted {
      var i: nat :| i < |p.places| && p.places[i] == Failed;
      assert Moved(p, move, fetch).places[i] == Failed;
    } else if move.Receive? && fetch(move.index).FetchFailed? {
      assert Moved(p, move, fetch).places[move.index] == Failed;
    }
  }

  lemma MoveKeepsStaged(job: Job, x: Crew, move: Move)
    requires CanAct(job, x, Pipeline(move)) && Staged(x.pipe.places, x.stages)
    requires PipeInv(x.pipe, job.window, AnswersOf(x.stages))
    ensures var moved := Moved(x.pipe, move, AnswersOf(x.stages));
      Staged(moved.places, if move.Take? then WithStage(x, move.index, Looking).stages else x.stages)
  {
    hide Count, Faithful, AllFetched;
  }

  lemma PipelineKeepsInv(h: Hashes, job: Job, x: Crew, move: Move)
    requires CrewInv(h, job, x) && 1 <= job.window && CanAct(job, x, Pipeline(move))
    ensures CrewInv(h, job, Acted(h, job, x, Pipeline(move)))
  {
    var fetch := AnswersOf(x.stages);
    var r := Acted(h, job, x, Pipeline(move));
    MoveKeepsInv(x.pipe, move, job.window, fetch);
    MoveKeepsCause(x.pipe, move, job.window, fetch);
    MoveKeepsStaged(job, x, move);
    forall i: nat ensures fetch(i) == AnswersOf(r.stages)(i) {
      TakeKeepsAnswers(job, x, move, i);
    }
    hide PipeInv, Moved, CanMove;
    PipeIgnoresWork(r.pipe, job.window, fetch, AnswersOf(r.stages));
  }

  lemma TakeKeepsAnswers(job: Job, x: Crew, move: Move, i: nat)
    requires CanAct(job, x, Pipeline(move)) && Staged(x.pipe.places, x.stages)
    ensures var stages := if move.Take? then WithStage(x, move.index, Looking).stages else x.stages;
      AnswersOf(stages)(i) == AnswersOf(x.stages)(i)
  {
    hide Count;
  }

  /** A step of a read concerns a chunk that a worker has in hand. */
  lemma ReadIsInWork(x: Crew, i: nat)
    requires Staged(x.pipe.places, x.stages) && i < |x.stages|
    requires x.stages[i] != Waiting && !x.stages[i].Resolved?
    ensures x.pipe.places[i] == Working
  {
  }

  lemma StageChangeKeepsInv(h: Hashes, job: Job, x: Crew, i: nat, s: Stage)
    requires CrewInv(h, job, x) && i < |job.m.chunks| && s != Waiting
    requires x.stages[i] != Waiting && !x.stages[i].Resolved?
    requires s.Publishing? ==> ValidChunk(h, s.bytes, job.m.chunks[i])
    requires s.Resolved? && s.answer.Fetched? ==> ValidChunk(h, s.answer.bytes, job.m.chunks[i])
    ensures CrewInv(h, job, WithStage(x, i, s))
  {
    ReadIsInWork(x, i);
    var r := WithStage(x, i, s);
    forall k: nat | k < |x.pipe.places| && x.pipe.places[k] != Working
      ensures AnswersOf(x.stages)(k) == AnswersOf(r.stages)(k)
    {
    }
    PipeIgnoresWork(x.pipe, job.window, AnswersOf(x.stages), AnswersOf(r.stages));
    hide PipeInv;
  }

  lemma ActKeepsInv(h: Hashes, job: Job, x: Crew, act: Act)
    requires CrewInv(h, job, x) && 1 <= job.window && CanAct(job, x, act)
    ensures CrewInv(h, job, Acted(h, job, x, act))
  {
    if act.Pipeline? {
      PipelineKeepsInv(h, job, x, act.move);
    } else {
      var r := Acted(h, job, x, act);
      assert Genuine(h, job.m, x.stages);
      hide PipeInv, Staged, Network;
      StageChangeKeepsInv(h, job, x, act.index, r.stages[act.index]);
    }
  }

  lemma BeginInv(h: Hashes, job: Job, entries: map<ChunkId, Bytes>)
    ensures CrewInv(h, job, Begin(job, entries))
  {
  }

  lemma {:induction false} ShiftKeepsInv(h: Hashes, job: Job, entries: map<ChunkId, Bytes>, run: Shift, n: nat)
    requires IsShift(h, job, Begin(job, entries), run) && 1 <= job.window && n <= |run.acts|
    ensures CrewInv(h, job, run.states[n])
  {
    hide CrewInv, CanAct, Acted;
    if n == 0 {
      BeginInv(h, job, entries);
    } else {
      ShiftKeepsInv(h, job, entries, run, n - 1);
      assert CanAct(job, run.states[n - 1], run.acts[n - 1]);
      ActKeepsInv(h, job, run.states[n - 1], run.acts[n - 1]);
    }
  }

  lemma ReachedInv(h: Hashes, job: Job, entries: map<ChunkId, Bytes>, x: Crew)
    requires Reached(h, job, entries, x) && 1 <= job.window
    ensures CrewInv(h, job, x)
  {
    hide CrewInv, CanAct, Acted;
    var run: Shift :| IsShift(h, job, Begin(job, entries), run) && run.Last() == x;
    ShiftKeepsInv(h, job, entries, run, |run.acts|);
  }

  // ------------------------------------------------------------------ spaced repeats are safe

  /** Descriptors of one chunk agree on its length. */
  ghost predicate Consistent(m: Manifest) {
    forall i: nat, j: nat :: i < |m.chunks| && j < |m.chunks| && m.chunks[i].id == m.chunks[j].id ==>
      m.chunks[i].length == m.chunks[j].length
  }

  /** No earlier index names the chunk. */
  ghost predicate First(m: Manifest, i: nat) {
    i < |m.chunks| && forall k: nat :: k < i ==> m.chunks[k].id != m.chunks[i].id
  }

  ghost predicate Corrupt(h: Hashes, d: Descriptor, entries: map<ChunkId, Bytes>) {
    d.id in entries && !ValidChunk(h, entries[d.id], d)
  }

  /** Indexes `i` and `j` are the first and a later one naming a chunk whose cache file is corrupt, close enough
      to be in work together. */
  ghost predicate Clash(h: Hashes, job: Job, entries: map<ChunkId, Bytes>, i: nat, j: nat) {
    && First(job.m, i) && i < j < |job.m.chunks| && job.m.chunks[j].id == job.m.chunks[i].id
    && j - i < job.window && Corrupt(h, job.m.chunks[i], entries)
  }

  /** Some corrupt cache file is named twice within the window. */
  ghost predicate Crowded(h: Hashes, job: Job, entries: map<ChunkId, Bytes>) {
    exists i: nat, j: nat :: Clash(h, job, entries, i, j)
  }

  /** Valid chunks of one digest have one length, if digests determine bytes. */
  lemma ServedIsConsistent(h: Hashes, job: Job)
    requires InjectiveBlake3(h) && Served(h, job)
    ensures Consistent(job.m)
  {
    hide Network;
    forall i: nat, j: nat | i < |job.m.chunks| && j < |job.m.chunks| && job.m.chunks[i].id == job.m.chunks[j].id
      ensures job.m.chunks[i].length == job.m.chunks[j].length
    {
      assert Serves(h, job.m.chunks[i], job.net(i)) && Serves(h, job.m.chunks[j], job.net(j));
    }
  }

  /** Every chunk is served within the attempts. */
  ghost predicate Served(h: Hashes, job: Job) {
    forall i: nat :: i < |job.m.chunks| ==> Serves(h, job.m.chunks[i], job.net(i))
  }

  /** Nobody is about to remove the file, and if it exists it is valid. */
  ghost predicate Clean(h: Hashes, m: Manifest, stages: seq<Stage>, entries: map<ChunkId, Bytes>, f: nat)
    requires f < |m.chunks|
  {
    && !Corrupt(h, m.chunks[f], entries)
    && forall k: nat :: k < |stages| && k < |m.chunks| && m.chunks[k].id == m.chunks[f].id ==> stages[k] != Removing
  }

  /** The corrupt file is still there, and of all that name it only the first index is in work. */
  ghost predicate Dirty(h: Hashes, m: Manifest, stages: seq<Stage>, entries: map<ChunkId, Bytes>,
                        before: map<ChunkId, Bytes>, f: nat)
    requires f < |m.chunks|
  {
    var c := m.chunks[f].id;
    && Corrupt(h, m.chunks[f], entries) && c in before && before[c] == entries[c]
    && StageAt(stages, f) in {Waiting, Looking, Removing}
    && forall k: nat :: k < |m.chunks| && k != f && m.chunks[k].id == c ==> StageAt(stages, k) == Waiting
  }

  ghost predicate Calm(h: Hashes, m: Manifest, stages: seq<Stage>, entries: map<ChunkId, Bytes>,
                       before: map<ChunkId, Bytes>)
  {
    forall f: nat :: First(m, f) ==> Clean(h, m, stages, entries, f) || Dirty(h, m, stages, entries, before, f)
  }

  ghost predicate NoFailure(stages: seq<Stage>) {
    forall i: nat :: i < |stages| && stages[i].Resolved? ==> stages[i].answer.Fetched?
  }

  lemma {:induction false} FirstOf(m: Manifest, i: nat) returns (f: nat)
    requires i < |m.chunks|
    ensures First(m, f) && f <= i && m.chunks[f].id == m.chunks[i].id
  {
    if First(m, i) {
      f := i;
    } else {
      var k: nat :| k < i && m.chunks[k].id == m.chunks[i].id;
      f := FirstOf(m, k);
    }
  }

  lemma BeginCalm(h: Hashes, job: Job, entries: map<ChunkId, Bytes>)
    ensures Calm(h, job.m, Begin(job, entries).stages, entries, entries)
    ensures NoFailure(Begin(job, entries).stages)
  {
  }

  /** Two reads that could be in work together are less than a window apart. */
  lemma TogetherIsClose(h: Hashes, job: Job, x: Crew, before: map<ChunkId, Bytes>, f: nat, i: nat)
    requires CrewInv(h, job, x) && First(job.m, f)
    requires f != i && i < |job.m.chunks| && job.m.chunks[i].id == job.m.chunks[f].id
    requires Dirty(h, job.m, x.stages, x.entries, before, f)
    ensures x.pipe.places[i] == Queued ==> Clash(h, job, before, f, i)
  {
    hide Faithful, AllFetched;
    if x.pipe.places[i] == Queued {
      assert i < x.pipe.nextScheduled && x.pipe.nextWrite <= f;
      assert f < i;
    }
  }

  lemma TakeKeepsCalm(h: Hashes, job: Job, x: Crew, before: map<ChunkId, Bytes>, i: nat)
    requires CrewInv(h, job, x) && !Crowded(h, job, before) && i < |job.m.chunks| && x.pipe.places[i] == Queued
    requires Calm(h, job.m, x.stages, x.entries, before)
    ensures Calm(h, job.m, x.stages[i := Looking], x.entries, before)
  {
    assert |x.stages| == |job.m.chunks| && x.stages[i] == Waiting;
    forall f: nat | First(job.m, f)
      ensures Clean(h, job.m, x.stages[i := Looking], x.entries, f)
           || Dirty(h, job.m, x.stages[i := Looking], x.entries, before, f)
    {
      if Dirty(h, job.m, x.stages, x.entries, before, f) && f != i && job.m.chunks[i].id == job.m.chunks[f].id {
        TogetherIsClose(h, job, x, before, f, i);
      }
      hide CrewInv, Crowded;
    }
  }

  /** What a step of a read does to the other chunks: nothing. */
  lemma OthersStayCalm(h: Hashes, m: Manifest, stages: seq<Stage>, entries: map<ChunkId, Bytes>,
                       after: map<ChunkId, Bytes>, before: map<ChunkId, Bytes>, i: nat, s: Stage, f: nat)
    requires i < |stages| == |m.chunks| && First(m, f) && m.chunks[f].id != m.chunks[i].id
    requires m.chunks[f].id in after <==> m.chunks[f].id in entries
    requires m.chunks[f].id in after ==> after[m.chunks[f].id] == entries[m.chunks[f].id]
    requires Clean(h, m, stages, entries, f) || Dirty(h, m, stages, entries, before, f)
    ensures Clean(h, m, stages[i := s], after, f) || Dirty(h, m, stages[i := s], after, before, f)
  {
  }

  /** A step of a read keeps its own chunk clean or dirty, and never fails. */
  lemma ReadKeepsOwn(h: Hashes, job: Job, x: Crew, before: map<ChunkId, Bytes>, act: Act, f: nat)
    requires !act.Pipeline? && CanAct(job, x, act) && |x.stages| == |job.m.chunks|
    requires Genuine(h, job.m, x.stages) && Served(h, job) && Consistent(job.m)
    requires First(job.m, f) && job.m.chunks[f].id == job.m.chunks[act.index].id
    requires Clean(h, job.m, x.stages, x.entries, f) || Dirty(h, job.m, x.stages, x.entries, before, f)
    ensures var r := Acted(h, job, x, act);
      && (Clean(h, job.m, r.stages, r.entries, f) || Dirty(h, job.m, r.stages, r.entries, before, f))
      && (r.stages[act.index].Resolved? ==> r.stages[act.index].answer.Fetched?)
  {
    hide Network;
    var i := act.index;
    assert job.m.chunks[i].length == job.m.chunks[f].length;
    assert Serves(h, job.m.chunks[i], job.net(i));
  }

  lemma ReadKeepsCalm(h: Hashes, job: Job, x: Crew, before: map<ChunkId, Bytes>, act: Act)
    requires !act.Pipeline? && CanAct(job, x, act) && Genuine(h, job.m, x.stages)
    requires Served(h, job) && Consistent(job.m)
    requires Calm(h, job.m, x.stages, x.entries, before) && NoFailure(x.stages)
    ensures var r := Acted(h, job, x, act); Calm(h, job.m, r.stages, r.entries, before) && NoFailure(r.stages)
  {
    var i, r := act.index, Acted(h, job, x, act);
    var own := FirstOf(job.m, i);
    ReadKeepsOwn(h, job, x, before, act, own);
    ReadTouchesOwn(h, job, x, act);
    hide Acted, CanAct, Genuine, Served, Consistent;
    forall f: nat | First(job.m, f)
      ensures Clean(h, job.m, r.stages, r.entries, f) || Dirty(h, job.m, r.stages, r.entries, before, f)
    {
      if job.m.chunks[f].id == job.m.chunks[i].id {
        FirstIsUnique(job.m, f, own);
      } else {
        OthersStayCalm(h, job.m, x.stages, x.entries, r.entries, before, i, r.stages[i], f);
      }
    }
  }

  lemma FirstIsUnique(m: Manifest, f: nat, g: nat)
    requires First(m, f) && First(m, g) && m.chunks[f].id == m.chunks[g].id
    ensures f == g
  {
  }

  lemma ReadTouchesOwn(h: Hashes, job: Job, x: Crew, act: Act)
    requires !act.Pipeline? && CanAct(job, x, act) && |x.stages| == |job.m.chunks|
    ensures var r := Acted(h, job, x, act);
      && act.index < |x.stages| && |r.stages| == |x.stages|
      && r.pipe == x.pipe && r.stages == x.stages[act.index := r.stages[act.index]]
      && forall c :: c != job.m.chunks[act.index].id ==>
           (c in r.entries <==> c in x.entries) && (c in r.entries ==> r.entries[c] == x.entries[c])
  {
    hide Network, ValidChunk;
  }

  /** Nothing published is ever overwritten: only a removal of its own file changes an entry. */
  lemma NeverOverwritten(h: Hashes, job: Job, x: Crew, act: Act, c: ChunkId)
    requires CanAct(job, x, act) && c in x.entries
    requires act.Remove? ==> job.m.chunks[act.index].id != c
    ensures var r := Acted(h, job, x, act); c in r.entries && r.entries[c] == x.entries[c]
  {
    hide Network, CanMove, Moved;
  }

  lemma ActKeepsCalm(h: Hashes, job: Job, x: Crew, before: map<ChunkId, Bytes>, act: Act)
    requires CrewInv(h, job, x) && CanAct(job, x, act) && !Crowded(h, job, before)
    requires Served(h, job) && Consistent(job.m)
    requires Calm(h, job.m, x.stages, x.entries, before) && NoFailure(x.stages)
    ensures var r := Acted(h, job, x, act); Calm(h, job.m, r.stages, r.entries, before) && NoFailure(r.stages)
  {
    if act.Pipeline? {
      if act.move.Take? {
        TakeKeepsCalm(h, job, x, before, act.move.index);
      }
      hide Calm, Crowded, Served, Consistent, PipeInv, Count, Moved;
    } else {
      assert Genuine(h, job.m, x.stages);
      hide CrewInv;
      ReadKeepsCalm(h, job, x, before, act);
    }
  }

  lemma {:induction false} ShiftStaysCalm(h: Hashes, job: Job, entries: map<ChunkId, Bytes>, run: Shift, n: nat)
    requires IsShift(h, job, Begin(job, entries), run) && 1 <= job.window && n <= |run.acts|
    requires Served(h, job) && Consistent(job.m) && !Crowded(h, job, entries)
    ensures CrewInv(h, job, run.states[n]) && NoFailure(run.states[n].stages)
    ensures Calm(h, job.m, run.states[n].stages, run.states[n].entries, entries)
  {
    hide CrewInv, CanAct, Acted, Calm, NoFailure, Served, Consistent, Crowded;
    ShiftKeepsInv(h, job, entries, run, n);
    if n == 0 {
      BeginCalm(h, job, entries);
    } else {
      ShiftStaysCalm(h, job, entries, run, n - 1);
      assert CanAct(job, run.states[n - 1], run.acts[n - 1]);
      ActKeepsCalm(h, job, run.states[n - 1], entries, run.acts[n - 1]);
    }
  }

  /** When no corrupt file is named twice within the window, no interleaving aborts. */
  lemma SpacedNeverAborts(h: Hashes, job: Job, entries: map<ChunkId, Bytes>, x: Crew)
    requires 1 <= job.window && Served(h, job) && Consistent(job.m) && !Crowded(h, job, entries)
    requires Reached(h, job, entries, x)
    ensures x.pipe.phase != Aborted
  {
    hide CrewInv, CanAct, Acted, Calm, Served, Consistent, Crowded;
    var run: Shift :| IsShift(h, job, Begin(job, entries), run) && run.Last() == x;
    ShiftStaysCalm(h, job, entries, run, |run.acts|);
    AbortHasFailedRead(h, job, x);
  }

  lemma AbortHasFailedRead(h: Hashes, job: Job, x: Crew)
    requires CrewInv(h, job, x)
    ensures x.pipe.phase == Aborted ==> exists i: nat :: i < |x.stages| && x.stages[i] == Resolved(FetchFailed)
  {
    hide Faithful, AllFetched, Genuine;
    if x.pipe.phase == Aborted {
      var i: nat :| i < |x.pipe.places| && x.pipe.places[i] == Failed;
      assert AnswersOf(x.stages)(i).FetchFailed?;
      assert x.stages[i] == Resolved(FetchFailed);
    }
  }

  // ------------------------------------------------------------------ crowded repeats can fail

  lemma Do(h: Hashes, job: Job, entries: map<ChunkId, Bytes>, x: Crew, act: Act) returns (r: Crew)
    requires Reached(h, job, entries, x) && CanAct(job, x, act)
    ensures Reached(h, job, entries, r) && r == Acted(h, job, x, act)
  {
    hide CanAct, Acted;
    var run: Shift :| IsShift(h, job, Begin(job, entries), run) && run.Last() == x;
    r := Acted(h, job, x, act);
    var longer := Shift(run.states + [r], run.acts + [act]);
    assert IsShift(h, job, Begin(job, entries), longer) && longer.Last() == r;
  }

  /** The first chunks are scheduled and the main thread starts to receive. */
  lemma {:induction false} ScheduleFirst(h: Hashes, job: Job, entries: map<ChunkId, Bytes>, x: Crew) returns (r: Crew)
    requires 1 <= job.window && Reached(h, job, entries, x) && job.m.chunks != []
    requires x.pipe.phase == Scheduling && x.entries == entries && (forall i: nat :: StageAt(x.stages, i) == Waiting)
    ensures Reached(h, job, entries, r) && r.pipe.phase == Receiving && r.pipe.nextWrite == 0
    ensures r.entries == entries && forall i: nat :: StageAt(r.stages, i) == Waiting
    decreases job.window - x.pipe.nextScheduled
  {
    hide Reached, AllFetched, Faithful, Count;
    ReachedInv(h, job, entries, x);
    NoSendBlocks(x.pipe, job.window, AnswersOf(x.stages));
    if WantsToSend(x.pipe, job.window) {
      var next := Do(h, job, entries, x, Pipeline(Schedule));
      r := ScheduleFirst(h, job, entries, next);
    } else {
      r := Do(h, job, entries, x, Pipeline(BeginReceiving));
    }
  }

  /** The main thread waits for chunk `k`; nothing from `k` on has been touched, nor has any file of a chunk that
      no earlier index names. */
  ghost predicate Ready(job: Job, entries: map<ChunkId, Bytes>, x: Crew, k: nat) {
    && k < |job.m.chunks| && x.pipe.phase == Receiving && x.pipe.nextWrite == k
    && (forall i: nat :: k <= i ==> StageAt(x.stages, i) == Waiting)
    && forall i: nat :: k <= i && First(job.m, i) ==> SameFile(entries, x.entries, job.m.chunks[i].id)
  }

  ghost predicate SameFile(before: map<ChunkId, Bytes>, after: map<ChunkId, Bytes>, c: ChunkId) {
    (c in after <==> c in before) && (c in after ==> after[c] == before[c])
  }

  /** A read whose worker is alone with it succeeds, and touches no other file. */
  lemma ReadAlone(h: Hashes, job: Job, entries: map<ChunkId, Bytes>, x: Crew, k: nat) returns (r: Crew)
    requires Reached(h, job, entries, x) && Served(h, job)
    requires k < |x.stages| == |job.m.chunks| && x.stages[k] == Looking
    ensures Reached(h, job, entries, r) && r.pipe == x.pipe
    ensures |r.stages| == |x.stages| && r.stages == x.stages[k := r.stages[k]]
    ensures r.stages[k].Resolved? && r.stages[k].answer.Fetched?
    ensures forall c :: c != job.m.chunks[k].id ==> SameFile(x.entries, r.entries, c)
  {
    hide Reached, Network, CanMove, Moved;
    assert Serves(h, job.m.chunks[k], job.net(k));
    r := Do(h, job, entries, x, Look(k));
    if r.stages[k] == Removing {
      r := Do(h, job, entries, r, Remove(k));
    }
    if r.stages[k] == Fetching {
      r := Do(h, job, entries, r, Ask(k));
      r := Do(h, job, entries, r, Publish(k));
    }
  }

  lemma TakeQueued(h: Hashes, job: Job, entries: map<ChunkId, Bytes>, x: Crew, i: nat) returns (r: Crew)
    requires Reached(h, job, entries, x) && 1 <= job.window
    requires i < |job.m.chunks| && StageAt(x.stages, i) == Waiting && i < x.pipe.nextScheduled
    ensures Reached(h, job, entries, r) && |r.stages| == |x.stages| == |job.m.chunks|
    ensures r == x.(pipe := r.pipe, stages := x.stages[i := Looking])
    ensures r.pipe == x.pipe.(places := r.pipe.places) && Downloads.At(r.pipe.places, i) == Working
  {
    hide Reached, AllFetched, Faithful, Count;
    ReachedInv(h, job, entries, x);
    NoSendBlocks(x.pipe, job.window, AnswersOf(x.stages));
    assert x.pipe.places[i] == Queued;
    r := Do(h, job, entries, x, Pipeline(Take(i)));
  }

  /** A resolved read is handed to the main thread. */
  lemma HandOver(h: Hashes, job: Job, entries: map<ChunkId, Bytes>, x: Crew, i: nat) returns (r: Crew)
    requires Reached(h, job, entries, x) && 1 <= job.window
    requires i < |x.stages| && x.stages[i].Resolved? && x.pipe.phase == Receiving
    requires Downloads.At(x.pipe.places, i) == Working
    ensures Reached(h, job, entries, r) && r == x.(pipe := r.pipe)
    ensures r.pipe == x.pipe.(phase := r.pipe.phase, places := r.pipe.places)
    ensures x.stages[i].answer.FetchFailed? ==> r.pipe.phase == Aborted
    ensures x.stages[i].answer.Fetched? ==> r.pipe.phase == Writing && Downloads.At(r.pipe.places, i) == Pending
  {
    hide Reached, AllFetched, Faithful, Count, Genuine;
    ReachedInv(h, job, entries, x);
    NoSendBlocks(x.pipe, job.window, AnswersOf(x.stages));
    var done := Do(h, job, entries, x, Pipeline(Complete(i)));
    r := Do(h, job, entries, done, Pipeline(Receive(i)));
  }

  /** The main thread writes chunk `k` and goes back to receive. */
  lemma WriteAndReceive(h: Hashes, job: Job, entries: map<ChunkId, Bytes>, x: Crew, k: nat) returns (r: Crew)
    requires Reached(h, job, entries, x) && 1 <= job.window && k + 1 < |job.m.chunks|
    requires x.pipe.phase == Writing && x.pipe.nextWrite == k && Downloads.At(x.pipe.places, k) == Pending
    requires forall i: nat :: k < i ==> StageAt(x.stages, i) == Waiting
    ensures Reached(h, job, entries, r) && r == x.(pipe := r.pipe)
    ensures r.pipe.phase == Receiving && r.pipe.nextWrite == k + 1
  {
    hide Reached, AllFetched, Faithful, Count;
    ReachedInv(h, job, entries, x);
    NoSendBlocks(x.pipe, job.window, AnswersOf(x.stages));
    var wrote := Do(h, job, entries, x, Pipeline(Write));
    ReachedInv(h, job, entries, wrote);
    assert StageAt(x.stages, k + 1) == Waiting;
    r := Do(h, job, entries, wrote, Pipeline(EndWriting));
  }

  lemma Advance(h: Hashes, job: Job, entries: map<ChunkId, Bytes>, x: Crew, k: nat) returns (r: Crew)
    requires Reached(h, job, entries, x) && Ready(job, entries, x, k) && k + 1 < |job.m.chunks|
    requires 1 <= job.window && Served(h, job)
    ensures Reached(h, job, entries, r) && Ready(job, entries, r, k + 1)
  {
    hide Reached, Served;
    NextIsScheduled(h, job, entries, x);
    var took := TakeQueued(h, job, entries, x, k);
    var done := ReadAlone(h, job, entries, took, k);
    var got := HandOver(h, job, entries, done, k);
    forall i: nat | k < i ensures StageAt(got.stages, i) == Waiting {
      assert StageAt(x.stages, i) == Waiting;
    }
    r := WriteAndReceive(h, job, entries, got, k);
    forall i: nat | k + 1 <= i && First(job.m, i) ensures SameFile(entries, r.entries, job.m.chunks[i].id) {
      assert job.m.chunks[k].id != job.m.chunks[i].id;
      assert SameFile(entries, x.entries, job.m.chunks[i].id) && SameFile(x.entries, done.entries, job.m.chunks[i].id);
    }
  }

  lemma NextIsScheduled(h: Hashes, job: Job, entries: map<ChunkId, Bytes>, x: Crew)
    requires Reached(h, job, entries, x) && 1 <= job.window && x.pipe.phase == Receiving
    ensures x.pipe.nextScheduled == Min(|job.m.chunks|, x.pipe.nextWrite + job.window)
    ensures x.pipe.nextWrite < |job.m.chunks|
  {
    hide Reached;
    ReachedInv(h, job, entries, x);
  }

  lemma {:induction false} AdvanceTo(h: Hashes, job: Job, entries: map<ChunkId, Bytes>, k: nat) returns (r: Crew)
    requires k < |job.m.chunks| && 1 <= job.window && Served(h, job)
    ensures Reached(h, job, entries, r) && Ready(job, entries, r, k)
  {
    hide Reached, Served;
    if k == 0 {
      AtBegin(h, job, entries);
      r := ScheduleFirst(h, job, entries, Begin(job, entries));
    } else {
      var x := AdvanceTo(h, job, entries, k - 1);
      r := Advance(h, job, entries, x, k - 1);
    }
  }

  lemma AtBegin(h: Hashes, job: Job, entries: map<ChunkId, Bytes>)
    ensures Reached(h, job, entries, Begin(job, entries))
  {
    assert IsShift(h, job, Begin(job, entries), Shift([Begin(job, entries)], []));
  }

  lemma LookCorrupt(h: Hashes, job: Job, entries: map<ChunkId, Bytes>, x: Crew, i: nat) returns (r: Crew)
    requires Reached(h, job, entries, x) && i < |x.stages| == |job.m.chunks| && x.stages[i] == Looking
    requires Corrupt(h, job.m.chunks[i], x.entries)
    ensures Reached(h, job, entries, r) && r == x.(stages := x.stages[i := Removing])
  {
    hide Reached;
    r := Do(h, job, entries, x, Look(i));
  }

  /** Both workers find the file corrupt; the first removes it, and the second cannot. */
  lemma RemoveTwice(h: Hashes, job: Job, entries: map<ChunkId, Bytes>, x: Crew, i: nat, j: nat) returns (r: Crew)
    requires Reached(h, job, entries, x) && i < |x.stages| == |job.m.chunks| && j < |x.stages| && i != j
    requires x.stages[i] == Removing && x.stages[j] == Removing
    requires job.m.chunks[i].id == job.m.chunks[j].id && job.m.chunks[i].id in x.entries
    ensures Reached(h, job, entries, r) && r.pipe == x.pipe
    ensures |r.stages| == |x.stages| && r.stages[j] == Resolved(FetchFailed)
  {
    hide Reached;
    var removed := Do(h, job, entries, x, Remove(i));
    r := Do(h, job, entries, removed, Remove(j));
  }

  /** Two indexes of a corrupt file, the first and another less than a window later, can abort the download. */
  lemma ClashAborts(h: Hashes, job: Job, entries: map<ChunkId, Bytes>, i: nat, j: nat) returns (r: Crew)
    requires 1 <= job.window && Served(h, job) && Consistent(job.m) && Clash(h, job, entries, i, j)
    ensures Reached(h, job, entries, r) && r.pipe.phase == Aborted
  {
    hide Reached, Served;
    var k := if j < job.window then 0 else j + 1 - job.window;
    var ready := AdvanceTo(h, job, entries, k);
    NextIsScheduled(h, job, entries, ready);
    assert SameFile(entries, ready.entries, job.m.chunks[i].id);
    assert StageAt(ready.stages, i) == Waiting && StageAt(ready.stages, j) == Waiting;
    var one := TakeQueued(h, job, entries, ready, i);
    var looked := LookCorrupt(h, job, entries, one, i);
    var two := TakeQueued(h, job, entries, looked, j);
    var both := LookCorrupt(h, job, entries, two, j);
    var failed := RemoveTwice(h, job, entries, both, i, j);
    r := HandOver(h, job, entries, failed, j);
  }

  // ------------------------------------------------------------------ the theorem

  /** No interleaving of the download aborts. */
  ghost predicate NeverAborts(h: Hashes, job: Job, entries: map<ChunkId, Bytes>) {
    forall x: Crew :: Reached(h, job, entries, x) ==> x.pipe.phase != Aborted
  }

  /** Exactly when a download through a cache is safe: with a network that serves every chunk and a disk that
      works, no interleaving of the workers aborts if and only if no corrupt cache file is named by two indexes,
      the first of them and another, less than a window apart. */
  lemma SafeExactlyWhenSpaced(h: Hashes, job: Job, entries: map<ChunkId, Bytes>)
    requires 1 <= job.window && Served(h, job) && Consistent(job.m)
    ensures NeverAborts(h, job, entries) <==> !Crowded(h, job, entries)
  {
    hide Reached, Served, Consistent;
    if Crowded(h, job, entries) {
      var i: nat, j: nat :| Clash(h, job, entries, i, j);
      var x := ClashAborts(h, job, entries, i, j);
    } else {
      hide Crowded;
      forall x: Crew | Reached(h, job, entries, x) ensures x.pipe.phase != Aborted {
        SpacedNeverAborts(h, job, entries, x);
      }
    }
  }

  /** An empty cache, or one without corrupt files, is always safe. */
  lemma SoundCacheIsSafe(h: Hashes, job: Job, entries: map<ChunkId, Bytes>)
    requires 1 <= job.window && Served(h, job) && Consistent(job.m)
    requires forall i: nat :: i < |job.m.chunks| ==> !Corrupt(h, job.m.chunks[i], entries)
    ensures NeverAborts(h, job, entries)
  {
    SafeExactlyWhenSpaced(h, job, entries);
  }

  // ------------------------------------------------------------------ every interleaving ends

  function StageLeft(s: Stage): (n: nat) {
    match s
    case Looking => 4
    case Removing => 3
    case Fetching => 2
    case Publishing(_) => 1
    case _ => 0
  }

  function CrewRank(x: Crew): (n: nat) {
    5 * Rank(x.pipe) + Weigh(x.stages, StageLeft)
  }

  lemma PipelineDecreasesRank(h: Hashes, job: Job, x: Crew, move: Move)
    requires CrewInv(h, job, x) && CanAct(job, x, Pipeline(move))
    ensures CrewRank(Acted(h, job, x, Pipeline(move))) < CrewRank(x)
  {
    MoveDecreasesRank(x.pipe, move, job.window, AnswersOf(x.stages));
    hide CrewInv, Rank, Moved, CanMove, Weigh;
    if move.Take? && move.index < |x.stages| {
      WeighUpdate(x.stages, move.index, Looking, StageLeft);
    }
  }

  lemma ReadDecreasesRank(h: Hashes, job: Job, x: Crew, act: Act)
    requires !act.Pipeline? && CanAct(job, x, act) && |x.stages| == |job.m.chunks|
    ensures CrewRank(Acted(h, job, x, act)) < CrewRank(x)
  {
    var r := Acted(h, job, x, act);
    ReadTouchesOwn(h, job, x, act);
    WeighUpdate(x.stages, act.index, r.stages[act.index], StageLeft);
    hide Rank, Weigh, Network, CanMove, Moved, Hit;
  }

  lemma ActDecreasesRank(h: Hashes, job: Job, x: Crew, act: Act)
    requires CrewInv(h, job, x) && CanAct(job, x, act)
    ensures CrewRank(Acted(h, job, x, act)) < CrewRank(x)
  {
    if act.Pipeline? {
      PipelineDecreasesRank(h, job, x, act.move);
    } else {
      assert |x.stages| == |job.m.chunks|;
      hide CrewInv, CrewRank, Acted, CanAct;
      ReadDecreasesRank(h, job, x, act);
    }
  }

  lemma BeginRank(job: Job, entries: map<ChunkId, Bytes>)
    ensures CrewRank(Begin(job, entries)) == 75 * |job.m.chunks| + 15
  {
    var x := Begin(job, entries);
    WeighConstant(x.pipe.places, Unscheduled, Left);
    WeighConstant(x.stages, Waiting, StageLeft);
  }

  lemma {:induction false} ShiftIsBounded(h: Hashes, job: Job, entries: map<ChunkId, Bytes>, run: Shift, n: nat)
    requires IsShift(h, job, Begin(job, entries), run) && 1 <= job.window && n <= |run.acts|
    ensures CrewRank(run.states[n]) + n <= 75 * |job.m.chunks| + 15
  {
    hide CrewInv, CanAct, Acted, CrewRank;
    if n == 0 {
      BeginRank(job, entries);
    } else {
      ShiftIsBounded(h, job, entries, run, n - 1);
      ShiftKeepsInv(h, job, entries, run, n - 1);
      assert CanAct(job, run.states[n - 1], run.acts[n - 1]);
      ActDecreasesRank(h, job, run.states[n - 1], run.acts[n - 1]);
    }
  }

  /** No deadlock: until everyone is done some act is possible. */
  lemma SomeAct(h: Hashes, job: Job, x: Crew) returns (act: Act)
    requires CrewInv(h, job, x) && 1 <= job.window && !Quiet(x.pipe)
    ensures CanAct(job, x, act)
  {
    var move := SomeMove(x.pipe, job.window, AnswersOf(x.stages));
    act := Pipeline(move);
    hide PipeInv, Count;
    if move.Complete? {
      var i := move.index;
      match StageAt(x.stages, i) {
        case Looking => act := Look(i);
        case Removing => act := Remove(i);
        case Fetching => act := Ask(i);
        case Publishing(_) => act := Publish(i);
        case _ =>
      }
    }
  }

  /** What every interleaving of a download comes to, whatever the cache holds: the number of acts is bounded; a run
      that can go no further has finished or aborted; one that has finished wrote the chunks in manifest order,
      each of them valid; and unless a corrupt file is crowded it has finished. */
  lemma EveryShift(h: Hashes, job: Job, entries: map<ChunkId, Bytes>, run: Shift)
    requires IsShift(h, job, Begin(job, entries), run) && 1 <= job.window
    ensures |run.acts| <= 75 * |job.m.chunks| + 15
    ensures run.Last().pipe.phase == Finished ==>
      && Genuine(h, job.m, run.Last().stages)
      && AllFetched(AnswersOf(run.Last().stages), |job.m.chunks|)
      && run.Last().pipe.written == Sequential(AnswersOf(run.Last().stages), |job.m.chunks|)
    ensures Stopped(job, run.Last()) ==> run.Last().pipe.phase in {Finished, Aborted}
    ensures Stopped(job, run.Last()) && Served(h, job) && Consistent(job.m) && !Crowded(h, job, entries) ==>
      run.Last().pipe.phase == Finished
  {
    var x := run.Last();
    ShiftIsBounded(h, job, entries, run, |run.acts|);
    ShiftKeepsInv(h, job, entries, run, |run.acts|);
    if !Quiet(x.pipe) {
      var act := SomeAct(h, job, x);
    }
    if Served(h, job) && Consistent(job.m) && !Crowded(h, job, entries) {
      assert Reached(h, job, entries, x);
      SpacedNeverAborts(h, job, entries, x);
    }
    hide CanAct, Acted, Served, Consistent, Crowded, CrewRank, Sequential, IsShift;
  }

  ghost predicate Stopped(job: Job, x: Crew) {
    forall act: Act :: !CanAct(job, x, act)
  }

  // ------------------------------------------------------------------ it happens

  /** The smallest chunk that may be followed by another. */
  function Zeros(): (bytes: Bytes) {
    seq(512 * 1024, _ => 0 as byte)
  }

  /** A zero-filled file of two equal chunks, a cache file cut short, two workers, and a network and disk that
      work: some interleaving aborts, for every pair of hash functions. */
  lemma ZeroFilledFileCanFail(h: Hashes) returns (job: Job, entries: map<ChunkId, Bytes>, x: Crew)
    ensures WellFormed(job.m) && job.m.oid == h.sha256(Zeros() + Zeros()) && job.window == 2
    ensures Served(h, job) && Consistent(job.m) && entries == map[h.blake3(Zeros()) := []]
    ensures Reached(h, job, entries, x) && x.pipe.phase == Aborted
  {
    var c, n := h.blake3(Zeros()), 512 * 1024;
    assert |Zeros()| == n;
    var chunks := [Descriptor(c, 0, n), Descriptor(c, n, n)];
    var m := Manifest(FastCdcV1, h.sha256(Zeros() + Zeros()), 2 * n, chunks);
    ExtentSnoc(chunks, 0);
    ExtentSnoc(chunks, 1);
    assert chunks[..2] == chunks;
    assert ChunkInPlace(m, 0) && ChunkInPlace(m, 1);
    job := Job(m, (i: nat) => (k: nat) => Answered(Some(Zeros())), 2);
    entries := map[c := []];
    forall i: nat | i < 2 ensures Serves(h, m.chunks[i], job.net(i)) {
      assert Deciding(job.net(i), 0) == 0;
    }
    assert Clash(h, job, entries, 0, 1);
    x := ClashAborts(h, job, entries, 0, 1);
  }
}
