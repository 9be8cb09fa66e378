/** The conversion and build queues: rows of two tables move pending, converting,
    ready or failed under three sequential workers, while admins add and delete
    assets and the process may restart at any point. */
module WorkQueue {
  import opened Wrappers

  datatype Table = Assets | Images

  /** SQLite assigns a row the id above the largest of its table. */
  datatype Key = Key(table: Table, id: nat)

  datatype Status = Pending | Converting | Ready | Failed

  datatype Kind = Os | DockerBase | Compose

  /** File names. `Source(n)` and `Artefact(n)` are the upload and the ext4 image
      named for the n-th request, `Builtin` the fixed paths prepared at startup. */
  datatype Path = Builtin(n: nat) | Source(n: nat) | Artefact(n: nat)

  datatype Row = Row(kind: Kind, status: Status, source: Option<Path>, path: Path, hasBase: bool)

  datatype Worker = Converter | Bundler | DockerBuilder

  /** What a worker read when it claimed a row. */
  datatype Job = Job(key: Key, source: Option<Path>, path: Path)

  /** `removing` is the asset whose deletion has removed the files and not committed
      yet; its transaction holds the write lock. */
  datatype State = State(
    rows: map<Key, Row>, files: set<Path>, jobs: map<Worker, Job>, registering: set<Path>, nextName: nat,
    removing: Option<nat>)

  const Init := State(map[], {}, map[], {}, 0, None)

  datatype Upload = Ext4 | Tar | DockerBaseBuild

  datatype Event =
    | AddAsset(id: nat, upload: Upload)
    | AddImage(id: nat, kind: Kind, pending: bool)
    | EditImage(id: nat)
    | RemoveFiles(id: nat)
    | CommitDelete
    | BuildBuiltin(n: nat)
    | CheckBuiltin(n: nat)
    | RegisterBuiltin(id: nat, n: nat, kind: Kind)
    | Take(worker: Worker, key: Key)
    | Produce(worker: Worker)
    | Succeed(worker: Worker)
    | Fail(worker: Worker, discard: bool)
    | Reboot

  // ---- claims ----

  /** The WHERE clauses of the three claim functions. */
  predicate Claimable(w: Worker, k: Key, r: Row) {
    && r.status == Pending
    && match w
       case Converter => if k.table == Assets then r.kind != DockerBase else r.kind != Compose
       case Bundler => k.table == Images && r.kind == Compose
       case DockerBuilder => k.table == Assets && r.kind == DockerBase && r.hasBase
  }

  /** The worker that serves a row of this table and kind. */
  function ServedBy(k: Key, r: Row): Worker {
    if k.table == Assets && r.kind == DockerBase then DockerBuilder
    else if k.table == Images && r.kind == Compose then Bundler
    else Converter
  }

  /** A pending row is for the worker of its table and kind, and a docker-base build only
      if a base image is named. */
  lemma ClaimableExactly(w: Worker, k: Key, r: Row)
    requires k.table == Assets ==> r.kind != Compose
    requires k.table == Images ==> r.kind != DockerBase
    ensures Claimable(w, k, r) <==>
            r.status == Pending && w == ServedBy(k, r) && (r.kind == DockerBase ==> r.hasBase)
    ensures r.kind == Os ==> ServedBy(k, r) == Converter
    ensures r.kind == Compose ==> ServedBy(k, r) == Bundler
    ensures r.kind == DockerBase ==> ServedBy(k, r) == DockerBuilder
  {
  }

  /** The converter looks at assets before images. */
  predicate MayTake(s: State, w: Worker, k: Key) {
    && w !in s.jobs
    && k in s.rows && Claimable(w, k, s.rows[k])
    && (k.table == Images ==> forall a :: a in s.rows && a.table == Assets ==> !Claimable(w, a, s.rows[a]))
  }

  function TakeStep(s: State, w: Worker, k: Key): State {
    if MayTake(s, w, k) then
      s.(rows := s.rows[k := s.rows[k].(status := Converting)],
         jobs := s.jobs[w := Job(k, s.rows[k].source, s.rows[k].path)])
    else s
  }

  /** The converted or built image appears at its destination. */
  function ProduceStep(s: State, w: Worker): State {
    if w in s.jobs then s.(files := s.files + {s.jobs[w].path}) else s
  }

  function Without(files: set<Path>, p: Option<Path>): set<Path> {
    if p.Some? then files - {p.value} else files
  }

  /** The commit of `_finish` and its cleanup. The docker-base worker has no
      source; the bundle worker discards the source the row names now, the
      converter the one it read at the claim. */
  function FinishStep(s: State, w: Worker, status: Status): State
    requires w in s.jobs
  {
    var job := s.jobs[w];
    var rows := if job.key !in s.rows then s.rows
                else if w == DockerBuilder then s.rows[job.key := s.rows[job.key].(status := status)]
                else s.rows[job.key := s.rows[job.key].(status := status, source := None)];
    var files := match w
                 case Converter => Without(s.files, job.source)
                 case Bundler => if job.key in s.rows then Without(s.files, s.rows[job.key].source) else s.files
                 case DockerBuilder => s.files;
    s.(rows := rows, files := files, jobs := s.jobs - {w})
  }

  function SucceedStep(s: State, w: Worker): State {
    if w in s.jobs && s.jobs[w].path in s.files then FinishStep(s, w, Ready) else s
  }

  /** A failure; the unfinished image may or may not be discarded. */
  function FailStep(s: State, w: Worker, discard: bool): State {
    if w in s.jobs then
      var s' := FinishStep(s, w, Failed);
      if discard && w != DockerBuilder then s'.(files := s'.files - {s.jobs[w].path}) else s'
    else s
  }

  // ---- requests ----

  /** The id of the next row of this table: one above the largest, or 1. */
  predicate IsNext(rows: map<Key, Row>, table: Table, id: nat) {
    && id >= 1 && (id == 1 || Key(table, id - 1) in rows)
    && forall k :: k in rows && k.table == table ==> k.id < id
  }

  function AddAssetStep(s: State, id: nat, upload: Upload): State {
    var k, n := Key(Assets, id), s.nextName;
    if !IsNext(s.rows, Assets, id) then s
    else
      match upload
      case Ext4 => s.(rows := s.rows[k := Row(Os, Ready, None, Artefact(n), false)],
                      files := s.files + {Artefact(n)}, nextName := n + 1)
      case Tar => s.(rows := s.rows[k := Row(Os, Pending, Some(Source(n)), Artefact(n), false)],
                     files := s.files + {Source(n)}, nextName := n + 1)
      case DockerBaseBuild => s.(rows := s.rows[k := Row(DockerBase, Pending, None, Artefact(n), true)],
        nextName := n + 1)
  }

  function AddImageStep(s: State, id: nat, kind: Kind, pending: bool): State {
    var k, n := Key(Images, id), s.nextName;
    if !IsNext(s.rows, Images, id) || kind == DockerBase then s
    else if pending || kind == Compose then
      s.(rows := s.rows[k := Row(kind, Pending, Some(Source(n)), Artefact(n), false)],
         files := s.files + {Source(n)}, nextName := n + 1)
    else
      s.(rows := s.rows[k := Row(kind, Ready, None, Artefact(n), false)],
         files := s.files + {Artefact(n)}, nextName := n + 1)
  }

  /** A new archive for a project that is not being converted right now, as one step. */
  function EditImageStep(s: State, id: nat): State {
    var k, n := Key(Images, id), s.nextName;
    if k in s.rows && s.rows[k].status != Converting then
      s.(rows := s.rows[k := s.rows[k].(status := Pending, source := Some(Source(n)), path := Artefact(n))],
         files := Without(s.files, s.rows[k].source) - {s.rows[k].path} + {Source(n)}, nextName := n + 1)
    else s
  }

  /** The first half of a deletion: the files go. */
  function RemoveFilesStep(s: State, id: nat): State {
    var k := Key(Assets, id);
    if k in s.rows then
      s.(files := Without(s.files, s.rows[k].source) - {s.rows[k].path}, removing := Some(id))
    else s
  }

  /** The second half: the row goes. */
  function CommitDeleteStep(s: State): State {
    if s.removing.Some? then s.(rows := s.rows - {Key(Assets, s.removing.value)}, removing := None) else s
  }

  // ---- startup ----

  /** Registration looks for the file first and commits the row later. */
  function CheckBuiltinStep(s: State, n: nat): State {
    if Builtin(n) in s.files then s.(registering := s.registering + {Builtin(n)}) else s
  }

  function RegisterBuiltinStep(s: State, id: nat, n: nat, kind: Kind): State {
    var k := Key(Assets, id);
    if Builtin(n) !in s.registering then s
    else if !IsNext(s.rows, Assets, id) then s
    else if kind == Compose || (exists a :: a in s.rows && a.table == Assets && s.rows[a].path == Builtin(n)) then
      s.(registering := s.registering - {Builtin(n)})
    else
      s.(rows := s.rows[k := Row(kind, Ready, None, Builtin(n), false)], registering := s.registering - {Builtin(n)})
  }

  /** `reset_stuck_conversions`. */
  function Requeued(rows: map<Key, Row>): map<Key, Row> {
    map k | k in rows :: if rows[k].status == Converting then rows[k].(status := Pending) else rows[k]
  }

  function RebootStep(s: State): State {
    s.(rows := Requeued(s.rows), jobs := map[], registering := {}, removing := None)
  }

  // ---- runs ----

  /** What needs the write lock. */
  predicate Writes(e: Event) {
    !(e.CommitDelete? || e.BuildBuiltin? || e.CheckBuiltin? || e.Produce? || e.Reboot?)
  }

  function Step(s: State, e: Event): State {
    if s.removing.Some? && Writes(e) then s
    else
      match e
      case AddAsset(id, upload) => AddAssetStep(s, id, upload)
      case AddImage(id, kind, pending) => AddImageStep(s, id, kind, pending)
      case EditImage(id) => EditImageStep(s, id)
      case RemoveFiles(id) => RemoveFilesStep(s, id)
      case CommitDelete => CommitDeleteStep(s)
      case BuildBuiltin(n) => s.(files := s.files + {Builtin(n)})
      case CheckBuiltin(n) => CheckBuiltinStep(s, n)
      case RegisterBuiltin(id, n, kind) => RegisterBuiltinStep(s, id, n, kind)
      case Take(worker, key) => TakeStep(s, worker, key)
      case Produce(worker) => ProduceStep(s, worker)
      case Succeed(worker) => SucceedStep(s, worker)
      case Fail(worker, discard) => FailStep(s, worker, discard)
      case Reboot => RebootStep(s)
  }

  function Exec(es: seq<Event>): State {
    if es == [] then Init else Step(Exec(es[..|es| - 1]), es[|es| - 1])
  }

  // ---- the queues partition the pending rows ----

  /** A row the queues can hold. */
  predicate RowOk(s: State, k: Key)
    requires k in s.rows
  {
    var r := s.rows[k];
    && k.id >= 1
    && (k.table == Assets ==> r.kind != Compose)
    && (k.table == Images ==> r.kind != DockerBase)
    && (r.kind == DockerBase && (r.status == Pending || r.status == Converting) ==> r.hasBase)
    && (r.source.Some? ==> r.source.value.Source? && r.source.value.n < s.nextName)
    && (r.status == Converting ==> ServedBy(k, r) in s.jobs && s.jobs[ServedBy(k, r)].key == k)
    && (r.kind != DockerBase && (r.status == Pending || r.status == Converting) ==> r.source.Some?)
    && !r.path.Source?
  }

  ghost predicate SourcesDistinct(s: State) {
    forall k, l :: k in s.rows && l in s.rows && k != l && s.rows[k].source.Some? ==>
      s.rows[k].source != s.rows[l].source
  }

  /** A source read at a claim belongs to no row but the claimed one. */
  predicate JobSound(s: State, w: Worker)
    requires w in s.jobs
  {
    && (s.jobs[w].source.Some? ==> s.jobs[w].source.value.Source? && s.jobs[w].source.value.n < s.nextName)
    && !s.jobs[w].path.Source?
    && forall k :: k in s.rows && s.rows[k].source.Some? && s.rows[k].source == s.jobs[w].source ==> k == s.jobs[w].key
  }

  ghost predicate QueueInv(s: State) {
    && (forall k :: k in s.rows ==> RowOk(s, k))
    && (forall w :: w in s.jobs ==> JobSound(s, w))
    && SourcesDistinct(s)
    && RemovalOk(s)
  }

  /** While a deletion is under way its row is still there and its archive is gone. */
  predicate RemovalOk(s: State) {
    s.removing.Some? ==>
      Key(Assets, s.removing.value) in s.rows && !HasArchive(s, Key(Assets, s.removing.value))
  }

  /** Putting a row that is not in conversion, with a fresh source or none. */
  lemma PutKeepsQueue(s: State, s': State, k: Key, r: Row)
    requires QueueInv(s) && s.removing.None?
    requires s' == s.(rows := s.rows[k := r], files := s'.files, registering := s'.registering, nextName := s'.nextName)
    requires s.nextName <= s'.nextName && RowOk(s', k) && r.status != Converting
    requires r.source == None || (r.source == Some(Source(s.nextName)) && s'.nextName == s.nextName + 1)
    ensures QueueInv(s')
  {
    forall l | l in s'.rows ensures RowOk(s', l) { if l != k { assert RowOk(s, l); } }
    forall w | w in s'.jobs ensures JobSound(s', w) { assert JobSound(s, w); }
    forall l | l in s.rows && s.rows[l].source.Some? ensures s.rows[l].source != Some(Source(s.nextName)) {
      assert RowOk(s, l);
    }
  }

  lemma AddKeepsQueue(s: State, e: Event)
    requires QueueInv(s) && s.removing.None? && (e.AddAsset? || e.AddImage? || e.EditImage?)
    ensures QueueInv(Step(s, e))
  {
    hide QueueInv;
    var s' := Step(s, e);
    var k := Key(if e.AddAsset? then Assets else Images, e.id);
    if k in s.rows { RowFact(s, k); }
    if s' != s {
      PutKeepsQueue(s, s', k, s'.rows[k]);
    }
  }

  lemma RowFact(s: State, k: Key)
    requires QueueInv(s) && k in s.rows
    ensures RowOk(s, k)
  {
  }

  lemma RegisterKeepsQueue(s: State, e: Event)
    requires QueueInv(s) && s.removing.None? && e.RegisterBuiltin?
    ensures QueueInv(Step(s, e))
  {
    hide QueueInv;
    var s' := Step(s, e);
    if s'.rows == s.rows {
      FilesKeepQueue(s, s');
    } else {
      PutKeepsQueue(s, s', Key(Assets, e.id), s'.rows[Key(Assets, e.id)]);
    }
  }

  lemma DeleteKeepsQueue(s: State)
    requires QueueInv(s)
    ensures QueueInv(CommitDeleteStep(s))
  {
    var s' := CommitDeleteStep(s);
    forall k | k in s'.rows ensures RowOk(s', k) { assert RowOk(s, k); }
    forall w | w in s'.jobs ensures JobSound(s', w) { assert JobSound(s, w); }
  }

  lemma TakeKeepsRow(s: State, w: Worker, k: Key, l: Key)
    requires MayTake(s, w, k) && l in s.rows && RowOk(s, l) && RowOk(s, k)
    ensures RowOk(TakeStep(s, w, k), l)
  {
  }

  lemma TakeKeepsQueue(s: State, w: Worker, k: Key)
    requires QueueInv(s)
    ensures QueueInv(TakeStep(s, w, k))
  {
    var s' := TakeStep(s, w, k);
    if MayTake(s, w, k) {
      hide MayTake, RowOk;
      RowFact(s, k);
      forall l | l in s'.rows ensures RowOk(s', l) { RowFact(s, l); TakeKeepsRow(s, w, k, l); }
      forall v | v in s'.jobs ensures JobSound(s', v) { TakeKeepsJob(s, w, k, v); }
    }
  }

  lemma TakeKeepsJob(s: State, w: Worker, k: Key, v: Worker)
    requires QueueInv(s) && MayTake(s, w, k) && v in TakeStep(s, w, k).jobs
    ensures JobSound(TakeStep(s, w, k), v)
  {
    assert RowOk(s, k);
    if v != w { assert JobSound(s, v); }
  }

  lemma FinishKeepsRow(s: State, w: Worker, status: Status, k: Key)
    requires w in s.jobs && (status == Ready || status == Failed) && k in s.rows && RowOk(s, k)
    ensures k in FinishStep(s, w, status).rows && RowOk(FinishStep(s, w, status), k)
  {
  }

  lemma FinishKeepsSound(s: State, w: Worker, status: Status, v: Worker)
    requires w in s.jobs && v in FinishStep(s, w, status).jobs && JobSound(s, v)
    ensures JobSound(FinishStep(s, w, status), v)
  {
  }

  lemma FinishKeepsQueue(s: State, w: Worker, status: Status)
    requires QueueInv(s) && w in s.jobs && (status == Ready || status == Failed)
    ensures QueueInv(FinishStep(s, w, status))
  {
    hide RowOk, JobSound;
    var s' := FinishStep(s, w, status);
    forall k | k in s'.rows ensures RowOk(s', k) { FinishKeepsRow(s, w, status, k); }
    forall v | v in s'.jobs ensures JobSound(s', v) { FinishKeepsSound(s, w, status, v); }
  }

  /** Of the files on disk only the archive of a row under deletion matters. */
  lemma FilesKeepQueue(s: State, s': State)
    requires QueueInv(s)
    requires s' == s.(files := s'.files, registering := s'.registering, removing := s'.removing)
    requires RemovalOk(s')
    ensures QueueInv(s')
  {
    forall k | k in s'.rows ensures RowOk(s', k) { assert RowOk(s, k); }
    forall w | w in s'.jobs ensures JobSound(s', w) { assert JobSound(s, w); }
  }

  lemma RebootKeepsQueue(s: State)
    requires QueueInv(s)
    ensures QueueInv(RebootStep(s))
  {
    var s' := RebootStep(s);
    forall k | k in s'.rows ensures RowOk(s', k) { assert RowOk(s, k); }
  }

  lemma StepKeepsQueue(s: State, e: Event)
    requires QueueInv(s)
    ensures QueueInv(Step(s, e))
  {
    if s.removing.Some? && Writes(e) { return; }
    match e
    case AddAsset(_, _) => AddKeepsQueue(s, e);
    case AddImage(_, _, _) => AddKeepsQueue(s, e);
    case EditImage(_) => AddKeepsQueue(s, e);
    case RemoveFiles(_) => FilesKeepQueue(s, Step(s, e));
    case CommitDelete => DeleteKeepsQueue(s);
    case Take(w, k) => TakeKeepsQueue(s, w, k);
    case Succeed(w) => if w in s.jobs { FinishKeepsQueue(s, w, Ready); }
    case Fail(w, discard) =>
      if w in s.jobs {
        FinishKeepsQueue(s, w, Failed);
        FilesKeepQueue(FinishStep(s, w, Failed), Step(s, e));
      }
    case RegisterBuiltin(_, _, _) => RegisterKeepsQueue(s, e);
    case Reboot => RebootKeepsQueue(s);
    case BuildBuiltin(_) => FilesKeepQueue(s, Step(s, e));
    case CheckBuiltin(_) => FilesKeepQueue(s, Step(s, e));
    case Produce(_) => FilesKeepQueue(s, Step(s, e));
  }

  lemma {:induction false} RunKeepsQueue(es: seq<Event>)
    ensures QueueInv(Exec(es))
  {
    if es != [] {
      RunKeepsQueue(es[..|es| - 1]);
      StepKeepsQueue(Exec(es[..|es| - 1]), es[|es| - 1]);
    }
  }

  /** In every reachable state each pending row can be claimed by exactly one of
      the three workers, and each row being converted is the current job of that
      worker; so a worker never has two rows in conversion. */
  lemma QueuesPartition(es: seq<Event>, k: Key)
    requires k in Exec(es).rows
    ensures var s := Exec(es);
            && (s.rows[k].status == Pending ==> forall w :: Claimable(w, k, s.rows[k]) <==> w == ServedBy(k, s.rows[k]))
            && (s.rows[k].status == Converting ==>
                exists w :: w in s.jobs && s.jobs[w].key == k && w == ServedBy(k, s.rows[k]))
  {
    RunKeepsQueue(es);
    assert RowOk(Exec(es), k);
  }

  lemma OneConversionPerWorker(es: seq<Event>, k: Key, l: Key)
    requires var s := Exec(es);
             && k in s.rows && l in s.rows
             && s.rows[k].status == Converting && s.rows[l].status == Converting
             && ServedBy(k, s.rows[k]) == ServedBy(l, s.rows[l])
    ensures k == l
  {
    RunKeepsQueue(es);
    assert RowOk(Exec(es), k) && RowOk(Exec(es), l);
  }

  // ---- the archives the queues still need ----

  /** The row waits for a conversion, or is in one, that reads its archive. */
  predicate NeedsArchive(r: Row) {
    r.kind != DockerBase && (r.status == Pending || r.status == Converting)
  }

  predicate HasArchive(s: State, k: Key)
    requires k in s.rows
  {
    s.rows[k].source.Some? && s.rows[k].source.value in s.files
  }

  predicate BeingRemoved(s: State, k: Key) { k.table == Assets && s.removing == Some(k.id) }

  /** The archive an asset needs is on disk, unless its deletion is under way. */
  predicate ArchiveKept(s: State, k: Key)
    requires k in s.rows
  {
    k.table == Assets && NeedsArchive(s.rows[k]) && !BeingRemoved(s, k) ==> HasArchive(s, k)
  }

  /** A crash between the two halves of the deletion of a waiting asset. */
  predicate Loses(s: State, e: Event) {
    && e.Reboot? && s.removing.Some?
    && var k := Key(Assets, s.removing.value);
       k in s.rows && NeedsArchive(s.rows[k])
  }

  predicate NothingLost(es: seq<Event>) {
    es == [] || (NothingLost(es[..|es| - 1]) && !Loses(Exec(es[..|es| - 1]), es[|es| - 1]))
  }

  lemma FinishKeepsArchive(s: State, w: Worker, status: Status, k: Key)
    requires QueueInv(s) && w in s.jobs && (status == Ready || status == Failed)
    requires k in s.rows && ArchiveKept(s, k)
    ensures ArchiveKept(FinishStep(s, w, status), k)
  {
    assert JobSound(s, w) && RowOk(s, k);
    if s.jobs[w].key in s.rows { assert RowOk(s, s.jobs[w].key); }
  }

  lemma EditKeepsArchive(s: State, id: nat, k: Key)
    requires QueueInv(s) && k in s.rows && ArchiveKept(s, k) && s.removing.None?
    ensures ArchiveKept(EditImageStep(s, id), k)
  {
    assert RowOk(s, k);
    if Key(Images, id) in s.rows { assert RowOk(s, Key(Images, id)); }
  }

  lemma RemoveKeepsArchive(s: State, id: nat, k: Key)
    requires QueueInv(s) && k in s.rows && ArchiveKept(s, k) && s.removing.None?
    ensures ArchiveKept(RemoveFilesStep(s, id), k)
  {
    assert RowOk(s, k);
    if Key(Assets, id) in s.rows { assert RowOk(s, Key(Assets, id)); }
  }

  lemma FailKeepsArchive(s: State, w: Worker, discard: bool, k: Key)
    requires QueueInv(s) && w in s.jobs && k in s.rows && ArchiveKept(s, k)
    ensures ArchiveKept(FailStep(s, w, discard), k)
  {
    FinishKeepsArchive(s, w, Failed, k);
    assert JobSound(s, w);
    FinishKeepsQueue(s, w, Failed);
    assert RowOk(FinishStep(s, w, Failed), k);
  }

  lemma OthersKeepArchive(s: State, e: Event, k: Key)
    requires e.AddAsset? || e.AddImage? || e.CommitDelete? || e.Take? || e.RegisterBuiltin?
    requires !(s.removing.Some? && Writes(e)) && k in Step(s, e).rows && (k in s.rows ==> ArchiveKept(s, k))
    ensures ArchiveKept(Step(s, e), k)
  {
    match e
    case AddAsset(_, _) =>
    case AddImage(_, _, _) =>
    case CommitDelete =>
    case Take(_, _) =>
    case RegisterBuiltin(_, _, _) =>
  }

  lemma FilesKeepArchive(s: State, e: Event, k: Key)
    requires e.Reboot? || e.BuildBuiltin? || e.CheckBuiltin? || e.Produce?
    requires k in s.rows && ArchiveKept(s, k) && !Loses(s, e)
    ensures k in Step(s, e).rows && ArchiveKept(Step(s, e), k)
  {
    match e
    case Reboot =>
    case BuildBuiltin(_) =>
    case CheckBuiltin(_) =>
    case Produce(_) =>
  }

  lemma ArchiveStays(s: State, e: Event, k: Key)
    requires QueueInv(s) && k in Step(s, e).rows && (k in s.rows ==> ArchiveKept(s, k)) && !Loses(s, e)
    ensures ArchiveKept(Step(s, e), k)
  {
    hide QueueInv, ArchiveKept, Loses, AddAssetStep, AddImageStep, CommitDeleteStep, TakeStep, RegisterBuiltinStep;
    if s.removing.Some? && Writes(e) { return; }
    match e
    case Succeed(w) => if w in s.jobs && k in s.rows { FinishKeepsArchive(s, w, Ready, k); }
    case Fail(w, discard) => if w in s.jobs && k in s.rows { FailKeepsArchive(s, w, discard, k); }
    case EditImage(id) => if k in s.rows { EditKeepsArchive(s, id, k); }
    case RemoveFiles(id) => if k in s.rows { RemoveKeepsArchive(s, id, k); }
    case AddAsset(_, _) => OthersKeepArchive(s, e, k);
    case AddImage(_, _, _) => OthersKeepArchive(s, e, k);
    case CommitDelete => OthersKeepArchive(s, e, k);
    case Take(_, _) => OthersKeepArchive(s, e, k);
    case RegisterBuiltin(_, _, _) => OthersKeepArchive(s, e, k);
    case Reboot => FilesKeepArchive(s, e, k);
    case BuildBuiltin(_) => FilesKeepArchive(s, e, k);
    case CheckBuiltin(_) => FilesKeepArchive(s, e, k);
    case Produce(_) => FilesKeepArchive(s, e, k);
  }

  /** As long as no crash loses one, every waiting asset has its archive on disk. */
  lemma {:induction false} ArchivesKept(es: seq<Event>, k: Key)
    requires NothingLost(es) && k in Exec(es).rows
    ensures ArchiveKept(Exec(es), k)
  {
    if es != [] {
      hide Step, ArchiveKept, Loses, QueueInv;
      var before := es[..|es| - 1];
      if k in Exec(before).rows { ArchivesKept(before, k); }
      RunKeepsQueue(before);
      ArchiveStays(Exec(before), es[|es| - 1], k);
    }
  }

  /** And every crash that comes there leaves a pending asset whose archive is gone. */
  lemma LostArchive(es: seq<Event>, e: Event)
    requires Loses(Exec(es), e)
    ensures var s := Exec(es);
            var s', k := Step(s, e), Key(Assets, s.removing.value);
            k in s'.rows && s'.rows[k].status == Pending && NeedsArchive(s'.rows[k]) && !HasArchive(s', k)
  {
    RunKeepsQueue(es);
    assert RemovalOk(Exec(es));
  }

  lemma ExecOne(es: seq<Event>, e: Event)
    ensures Exec(es + [e]) == Step(Exec(es), e)
  {
    assert (es + [e])[..|es + [e]| - 1] == es;
  }

  /** A tar is uploaded and deleted at once, and the process dies in between. */
  lemma LostArchiveRun()
    ensures var s, k := Exec([AddAsset(1, Tar), RemoveFiles(1), Reboot]), Key(Assets, 1);
            k in s.rows && s.rows[k].status == Pending && NeedsArchive(s.rows[k]) && !HasArchive(s, k)
  {
    var a, b := [AddAsset(1, Tar)], [AddAsset(1, Tar), RemoveFiles(1)];
    ExecOne([], AddAsset(1, Tar));
    ExecOne(a, RemoveFiles(1));
    ExecOne(b, Reboot);
    assert [] + [AddAsset(1, Tar)] == a && a + [RemoveFiles(1)] == b;
    assert b + [Reboot] == [AddAsset(1, Tar), RemoveFiles(1), Reboot];
  }

  /** Startup turns exactly the interrupted rows back to pending, its worker can claim
      each of them, and the archive it reads is still named by the row; that of an asset
      is also on disk unless a crash has come between the two halves of a deletion. */
  lemma RebootRequeues(es: seq<Event>, k: Key)
    requires k in Exec(es).rows
    ensures var s := Exec(es);
            var s' := Step(s, Reboot);
            && s'.rows.Keys == s.rows.Keys && s'.jobs == map[] && s'.files == s.files
            && s'.rows[k] == (if s.rows[k].status == Converting then s.rows[k].(status := Pending) else s.rows[k])
            && (NeedsArchive(s'.rows[k]) ==> s'.rows[k].source == s.rows[k].source && s'.rows[k].source.Some?)
            && (s'.rows[k].status == Pending ==> Claimable(ServedBy(k, s.rows[k]), k, s'.rows[k]))
            && (NothingLost(es) && !Loses(s, Reboot) && k.table == Assets && NeedsArchive(s'.rows[k]) ==>
                HasArchive(s', k))
  {
    RunKeepsQueue(es);
    assert RowOk(Exec(es), k);
    if NothingLost(es) && !Loses(Exec(es), Reboot) {
      ArchivesKept(es, k);
      ArchiveStays(Exec(es), Reboot, k);
    }
  }
}
