/** When a default asset that is `ready` names a file that exists: exactly as long as
    no asset is deleted while it is converted or registered, and no crash comes
    between the two halves of a deletion. */
module AssetFiles {
  import opened Wrappers
  import opened WorkQueue

  /** The asset whose deletion has taken the files and is about to commit apart, which
      readers can still see. */
  ghost predicate ReadyExists(s: State) {
    forall k :: k in s.rows && k.table == Assets && s.rows[k].status == Ready ==>
      s.rows[k].path in s.files || BeingRemoved(s, k)
  }

  /** A deletion hits no row a worker holds and no file being registered; a crash finds
      no deletion that has taken the file of a ready asset. */
  predicate Careful(s: State, e: Event) {
    match e
    case RemoveFiles(id) =>
      s.removing.None? && Key(Assets, id) in s.rows ==>
        && s.rows[Key(Assets, id)].status != Converting
        && s.rows[Key(Assets, id)].path !in s.registering
    case Reboot =>
      s.removing.Some? && Key(Assets, s.removing.value) in s.rows
      && s.rows[Key(Assets, s.removing.value)].status == Ready ==>
        s.rows[Key(Assets, s.removing.value)].path in s.files
    case _ => true
  }

  predicate CarefulRun(es: seq<Event>) {
    es == [] || (CarefulRun(es[..|es| - 1]) && Careful(Exec(es[..|es| - 1]), es[|es| - 1]))
  }

  // ---- the invariant of careful runs ----

  predicate Fresh(p: Path, nextName: nat) { p.Artefact? ==> p.n < nextName }

  predicate PathOk(s: State, k: Key)
    requires k in s.rows
  {
    var r := s.rows[k];
    && !r.path.Source? && Fresh(r.path, s.nextName)
    && (k.table == Images ==> r.path.Artefact?)
    && (r.status == Pending || r.status == Converting ==> r.path.Artefact?)
    && (k.table == Assets && r.status == Ready ==> r.path in s.files || BeingRemoved(s, k))
    && (BeingRemoved(s, k) ==> r.status != Converting)
  }

  predicate JobOk(s: State, w: Worker)
    requires w in s.jobs
  {
    var job := s.jobs[w];
    && job.key in s.rows
    && s.rows[job.key].status == Converting
    && s.rows[job.key].path == job.path
    && ServedBy(job.key, s.rows[job.key]) == w
    && job.source == s.rows[job.key].source
  }

  ghost predicate PathsDistinct(s: State) {
    forall k, l :: k in s.rows && l in s.rows && k != l ==> s.rows[k].path != s.rows[l].path
  }

  ghost predicate DiskOk(s: State) {
    && (forall p :: p in s.registering ==> p.Builtin? && p in s.files)
    && (forall p :: p in s.files ==> Fresh(p, s.nextName))
  }

  ghost predicate FileInv(s: State) {
    && QueueInv(s)
    && (forall k :: k in s.rows ==> PathOk(s, k))
    && (forall w :: w in s.jobs ==> JobOk(s, w))
    && PathsDistinct(s)
    && DiskOk(s)
  }

  /** The facts about one row, its job and its files. */
  lemma RowFacts(s: State, k: Key)
    requires FileInv(s) && k in s.rows
    ensures RowOk(s, k) && PathOk(s, k) && DiskOk(s) && PathsDistinct(s)
    ensures s.rows[k].status == Converting ==>
              ServedBy(k, s.rows[k]) in s.jobs && s.jobs[ServedBy(k, s.rows[k])].key == k
  {
  }

  lemma JobFacts(s: State, w: Worker)
    requires FileInv(s) && w in s.jobs
    ensures JobOk(s, w) && JobSound(s, w) && RowOk(s, s.jobs[w].key) && PathOk(s, s.jobs[w].key)
  {
  }

  // ---- requests ----

  /** Putting a row that no worker holds, under a path no other row names. */
  lemma PutKeepsFiles(s: State, s': State, k: Key, r: Row)
    requires FileInv(s) && QueueInv(s')
    requires s' == s.(rows := s.rows[k := r], files := s'.files, registering := s'.registering, nextName := s'.nextName)
    requires s.nextName <= s'.nextName && PathOk(s', k) && DiskOk(s')
    requires k in s.rows ==> s.rows[k].status != Converting
    requires forall l :: l in s.rows && l != k ==>
               s.rows[l].path != r.path && (s.rows[l].path in s.files ==> s.rows[l].path in s'.files)
    ensures FileInv(s')
  {
    forall l | l in s'.rows ensures PathOk(s', l) { if l != k { assert PathOk(s, l); } }
    forall w | w in s'.jobs ensures JobOk(s', w) { assert JobOk(s, w); }
  }

  /** A path named for the next request is new. */
  lemma NewPath(s: State, l: Key)
    requires FileInv(s) && l in s.rows
    ensures s.rows[l].path != Artefact(s.nextName) && !s.rows[l].path.Source?
  {
    assert PathOk(s, l);
  }

  lemma AddKeepsFiles(s: State, e: Event)
    requires FileInv(s) && s.removing.None? && (e.AddAsset? || e.AddImage?)
    ensures FileInv(Step(s, e))
  {
    hide FileInv, QueueInv;
    StepOk(s, e);
    var s' := Step(s, e);
    var k := Key(if e.AddAsset? then Assets else Images, e.id);
    if s' != s {
      forall l | l in s.rows ensures s.rows[l].path != s'.rows[k].path { NewPath(s, l); }
      DiskFacts(s);
      PutKeepsFiles(s, s', k, s'.rows[k]);
    }
  }

  lemma StepOk(s: State, e: Event)
    requires FileInv(s)
    ensures QueueInv(Step(s, e))
  {
    StepKeepsQueue(s, e);
  }

  lemma DiskFacts(s: State)
    requires FileInv(s)
    ensures DiskOk(s)
  {
  }

  lemma EditKeepsFiles(s: State, id: nat)
    requires FileInv(s) && s.removing.None?
    ensures FileInv(EditImageStep(s, id))
  {
    hide FileInv, QueueInv;
    StepOk(s, EditImage(id));
    var s', k := EditImageStep(s, id), Key(Images, id);
    if k in s.rows && s.rows[k].status != Converting {
      RowFacts(s, k);
      forall l | l in s.rows && l != k
        ensures s.rows[l].path != s'.rows[k].path && (s.rows[l].path in s.files ==> s.rows[l].path in s'.files)
      {
        NewPath(s, l);
      }
      PutKeepsFiles(s, s', k, s'.rows[k]);
    }
  }

  lemma RegisterKeepsFiles(s: State, e: Event)
    requires FileInv(s) && s.removing.None? && e.RegisterBuiltin?
    ensures FileInv(Step(s, e))
  {
    hide FileInv, QueueInv;
    StepOk(s, e);
    var s', k := Step(s, e), Key(Assets, e.id);
    DiskFacts(s);
    if s'.rows == s.rows {
      SameRows(s, s');
    } else {
      forall l | l in s.rows ensures s.rows[l].path != Builtin(e.n) { RowFacts(s, l); }
      PutKeepsFiles(s, s', k, s'.rows[k]);
    }
  }

  /** Steps that change only the disk, and take no file a ready row needs. */
  lemma SameRows(s: State, s': State)
    requires FileInv(s) && QueueInv(s') && s' == s.(files := s'.files, registering := s'.registering)
    requires DiskOk(s') && forall k :: k in s.rows && s.rows[k].path in s.files ==> s.rows[k].path in s'.files
    ensures FileInv(s')
  {
    forall l | l in s'.rows ensures PathOk(s', l) { assert PathOk(s, l); }
    forall w | w in s'.jobs ensures JobOk(s', w) { assert JobOk(s, w); }
  }

  // ---- deletion ----

  lemma RemoveKeepsFiles(s: State, id: nat)
    requires FileInv(s) && s.removing.None? && Careful(s, RemoveFiles(id))
    ensures FileInv(RemoveFilesStep(s, id))
  {
    var s', k := RemoveFilesStep(s, id), Key(Assets, id);
    StepOk(s, RemoveFiles(id));
    if k in s.rows {
      RowFacts(s, k);
      forall l | l in s'.rows ensures PathOk(s', l) {
        assert PathOk(s, l) && (l != k ==> s.rows[l].path != s.rows[k].path);
      }
      forall w | w in s'.jobs ensures JobOk(s', w) { assert JobOk(s, w); }
    }
  }

  lemma RemovingRow(s: State)
    requires FileInv(s) && s.removing.Some?
    ensures Key(Assets, s.removing.value) in s.rows
  {
  }

  lemma CommitKeepsFiles(s: State)
    requires FileInv(s)
    ensures FileInv(CommitDeleteStep(s))
  {
    hide QueueInv;
    var s' := CommitDeleteStep(s);
    StepOk(s, CommitDelete);
    if s.removing.Some? {
      RemovingRow(s);
      RowFacts(s, Key(Assets, s.removing.value));
      forall l | l in s'.rows ensures PathOk(s', l) { assert PathOk(s, l); }
      forall w | w in s'.jobs ensures JobOk(s', w) { assert JobOk(s, w); }
    }
  }

  // ---- workers ----

  lemma TakeKeepsPath(s: State, w: Worker, k: Key, l: Key)
    requires MayTake(s, w, k) && s.removing.None? && l in s.rows && PathOk(s, l)
    ensures PathOk(TakeStep(s, w, k), l)
  {
  }

  lemma TakeKeepsJobs(s: State, w: Worker, k: Key, v: Worker)
    requires MayTake(s, w, k) && RowOk(s, k) && v in TakeStep(s, w, k).jobs && (v in s.jobs ==> JobOk(s, v))
    ensures JobOk(TakeStep(s, w, k), v)
  {
  }

  lemma TakeKeepsFiles(s: State, w: Worker, k: Key)
    requires FileInv(s) && s.removing.None? && MayTake(s, w, k)
    ensures FileInv(TakeStep(s, w, k))
  {
    hide PathOk, JobOk, RowOk, QueueInv;
    var s' := TakeStep(s, w, k);
    StepOk(s, Take(w, k));
    RowFacts(s, k);
    forall l | l in s'.rows ensures PathOk(s', l) { TakeKeepsPath(s, w, k, l); }
    forall v | v in s'.jobs ensures JobOk(s', v) { TakeKeepsJobs(s, w, k, v); }
    SamePaths(s, s');
  }

  lemma SamePaths(s: State, s': State)
    requires PathsDistinct(s) && s'.rows.Keys == s.rows.Keys
    requires forall k :: k in s.rows ==> s'.rows[k].path == s.rows[k].path
    ensures PathsDistinct(s')
  {
    forall k, l | k in s'.rows && l in s'.rows && k != l ensures s'.rows[k].path != s'.rows[l].path {
      assert s.rows[k].path != s.rows[l].path;
    }
  }

  lemma FinishKeepsFiles(s: State, w: Worker, status: Status)
    requires FileInv(s) && w in s.jobs
    requires status == Failed || (status == Ready && s.jobs[w].path in s.files)
    ensures FileInv(FinishStep(s, w, status))
  {
    hide PathOk, JobOk, QueueInv;
    FinishKeepsQueue(s, w, status) by { WholeQueue(s); }
    var s' := FinishStep(s, w, status);
    forall l | l in s'.rows ensures PathOk(s', l) { FinishKeepsPath(s, w, status, l); }
    forall v | v in s'.jobs ensures JobOk(s', v) { FinishKeepsJob(s, w, status, v); }
    SamePaths(s, s');
    KeptFiles(s, w, status);
  }

  lemma WholeQueue(s: State)
    requires FileInv(s)
    ensures QueueInv(s)
  {
  }

  /** Finishing deletes at most a source archive. */
  lemma KeptFiles(s: State, w: Worker, status: Status)
    requires FileInv(s) && w in s.jobs
    ensures var s' := FinishStep(s, w, status);
            s'.files <= s.files && forall p :: p in s.files && !p.Source? ==> p in s'.files
  {
    JobFacts(s, w);
  }

  lemma FinishKeepsPath(s: State, w: Worker, status: Status, l: Key)
    requires FileInv(s) && w in s.jobs && l in FinishStep(s, w, status).rows
    requires status == Failed || (status == Ready && s.jobs[w].path in s.files)
    ensures PathOk(FinishStep(s, w, status), l)
  {
    hide FileInv, QueueInv;
    JobFacts(s, w);
    RowFacts(s, l);
  }

  lemma FinishKeepsJob(s: State, w: Worker, status: Status, v: Worker)
    requires FileInv(s) && w in s.jobs && v in FinishStep(s, w, status).jobs
    ensures JobOk(FinishStep(s, w, status), v)
  {
    hide FileInv, QueueInv;
    JobFacts(s, v);
    JobFacts(s, w);
  }

  lemma FailKeepsFiles(s: State, w: Worker, discard: bool)
    requires FileInv(s) && s.removing.None? && w in s.jobs
    ensures FileInv(FailStep(s, w, discard))
  {
    hide QueueInv, PathOk, JobOk;
    StepOk(s, Fail(w, discard));
    FinishKeepsFiles(s, w, Failed);
    FailedPaths(s, w, discard);
    var mid, s' := FinishStep(s, w, Failed), FailStep(s, w, discard);
    JobFacts(s, w);
    forall v | v in s'.jobs ensures JobOk(s', v) { SameJob(mid, s', v); }
    ArtefactPath(s, w);
  }

  lemma ArtefactPath(s: State, w: Worker)
    requires FileInv(s) && w in s.jobs
    ensures s.jobs[w].path.Artefact?
  {
    JobFacts(s, w);
  }

  lemma SameJob(s: State, s': State, v: Worker)
    requires s'.rows == s.rows && s'.jobs == s.jobs && v in s.jobs && JobOk(s, v)
    ensures JobOk(s', v)
  {
  }

  /** The discarded artefact is the job's own; no ready row names it. */
  lemma FailedPaths(s: State, w: Worker, discard: bool)
    requires FileInv(s) && w in s.jobs && FileInv(FinishStep(s, w, Failed))
    ensures var s' := FailStep(s, w, discard); forall l :: l in s'.rows ==> PathOk(s', l)
  {
    hide FileInv, QueueInv;
    var mid, s' := FinishStep(s, w, Failed), FailStep(s, w, discard);
    JobFacts(s, w);
    forall l | l in s'.rows ensures PathOk(s', l) {
      RowFacts(mid, l);
      RowFacts(s, l);
      assert l != s.jobs[w].key ==> s.rows[l].path != s.jobs[w].path;
    }
  }

  lemma DiskKeepsFiles(s: State, e: Event)
    requires FileInv(s) && (e.BuildBuiltin? || e.CheckBuiltin? || e.Produce?)
    ensures FileInv(Step(s, e))
  {
    hide FileInv, QueueInv;
    StepOk(s, e);
    DiskFacts(s);
    if e.Produce? && e.worker in s.jobs { JobFacts(s, e.worker); }
    SameRows(s, Step(s, e));
  }

  lemma RebootKeepsFiles(s: State)
    requires FileInv(s) && Careful(s, Reboot)
    ensures FileInv(RebootStep(s))
  {
    hide QueueInv;
    StepOk(s, Reboot);
    var s' := RebootStep(s);
    forall l | l in s'.rows ensures PathOk(s', l) { assert PathOk(s, l); }
  }

  lemma StepKeepsFiles(s: State, e: Event)
    requires FileInv(s) && Careful(s, e)
    ensures FileInv(Step(s, e))
  {
    hide FileInv, Careful;
    if s.removing.Some? && Writes(e) { return; }
    match e
    case AddAsset(_, _) => AddKeepsFiles(s, e);
    case AddImage(_, _, _) => AddKeepsFiles(s, e);
    case EditImage(id) => EditKeepsFiles(s, id);
    case RemoveFiles(id) => RemoveKeepsFiles(s, id);
    case CommitDelete => CommitKeepsFiles(s);
    case Take(w, k) => if MayTake(s, w, k) { TakeKeepsFiles(s, w, k); }
    case Succeed(w) => if w in s.jobs && s.jobs[w].path in s.files { FinishKeepsFiles(s, w, Ready); }
    case Fail(w, discard) => if w in s.jobs { FailKeepsFiles(s, w, discard); }
    case RegisterBuiltin(_, _, _) => RegisterKeepsFiles(s, e);
    case BuildBuiltin(_) => DiskKeepsFiles(s, e);
    case CheckBuiltin(_) => DiskKeepsFiles(s, e);
    case Produce(_) => DiskKeepsFiles(s, e);
    case Reboot => RebootKeepsFiles(s);
  }

  lemma {:induction false} CarefulRunInv(es: seq<Event>)
    requires CarefulRun(es)
    ensures FileInv(Exec(es))
  {
    if es != [] {
      hide Step, FileInv, Careful;
      CarefulRunInv(es[..|es| - 1]);
      StepKeepsFiles(Exec(es[..|es| - 1]), es[|es| - 1]);
    } else {
      assert FileInv(Init);
    }
  }

  /** After any careful run every ready asset names an existing file, but for one whose
      deletion is about to commit. */
  lemma ReadyAssetsExist(es: seq<Event>)
    requires CarefulRun(es)
    ensures ReadyExists(Exec(es))
  {
    CarefulRunInv(es);
    forall k | k in Exec(es).rows && k.table == Assets && Exec(es).rows[k].status == Ready
      ensures Exec(es).rows[k].path in Exec(es).files || BeingRemoved(Exec(es), k)
    {
      assert PathOk(Exec(es), k);
    }
  }

  // ---- what carelessness allows ----

  /** A crash after the files of a ready asset are gone and before its row is. */
  lemma CrashInDeletion(s: State, id: nat)
    requires s.removing.None? && Key(Assets, id) in s.rows && s.rows[Key(Assets, id)].status == Ready
    ensures !Careful(Step(s, RemoveFiles(id)), Reboot)
    ensures !ReadyExists(Step(Step(s, RemoveFiles(id)), Reboot))
  {
    var k := Key(Assets, id);
    var s' := Step(Step(s, RemoveFiles(id)), Reboot);
    assert k in s'.rows && s'.rows[k].status == Ready && s'.rows[k].path !in s'.files;
  }

  lemma CarelessCrash(s: State)
    requires !Careful(s, Reboot)
    ensures !ReadyExists(Step(s, Reboot))
  {
    var k := Key(Assets, s.removing.value);
    assert k in Step(s, Reboot).rows && Step(s, Reboot).rows[k].status == Ready;
  }

  lemma ExecTwo(es: seq<Event>, a: Event, b: Event)
    ensures Exec(es + [a, b]) == Step(Step(Exec(es), a), b)
  {
    hide Exec, Step;
    ExecOne(es, a);
    ExecOne(es + [a], b);
    assert es + [a] + [b] == es + [a, b];
  }

  lemma {:induction false} LargestId(ids: set<nat>) returns (top: nat)
    requires ids != {}
    ensures top in ids && forall i :: i in ids ==> i <= top
  {
    var i :| i in ids;
    top := i;
    if ids - {i} != {} {
      var rest := LargestId(ids - {i});
      if i < rest { top := rest; }
      forall j | j in ids ensures j <= top { if j != i { assert j in ids - {i}; } }
    } else {
      assert ids == {i};
    }
  }

  /** There always is a next id. */
  lemma NextExists(rows: map<Key, Row>, table: Table) returns (id: nat)
    ensures IsNext(rows, table, id)
  {
    var ids := set k | k in rows && k.table == table :: k.id;
    assert forall k :: k in rows && k.table == table ==> k.id in ids;
    id := 1;
    if ids != {} {
      var top := LargestId(ids);
      id := top + 1;
      assert Key(table, top) in rows;
    }
  }

  // ---- the id of a converted asset comes back ----

  /** Worker w still converts a row that is gone; the artefact it will make is no file
      of a later request. */
  ghost predicate Armed(s: State, w: Worker, id: nat) {
    && id >= 1 && s.removing.None?
    && w in s.jobs && s.jobs[w].key == Key(Assets, id) && Key(Assets, id) !in s.rows
    && s.jobs[w].path.Artefact? && s.jobs[w].path.n < s.nextName
    && forall p :: p in s.files ==> Fresh(p, s.nextName)
  }

  function AssetsAbove(s: State, id: nat): set<Key> {
    set k | k in s.rows && k.table == Assets && k.id > id
  }

  function MissingUpTo(s: State, id: nat): set<nat> {
    set i | 0 <= i <= id && Key(Assets, i) !in s.rows
  }

  /** Deleting a later asset brings the largest id down. */
  lemma DeleteAbove(s: State, w: Worker, id: nat, k: Key)
    requires Armed(s, w, id) && k in AssetsAbove(s, id)
    ensures var s' := Step(Step(s, RemoveFiles(k.id)), CommitDelete);
            Armed(s', w, id) && AssetsAbove(s', id) == AssetsAbove(s, id) - {k}
  {
  }

  /** Adding an asset below brings it up by one. */
  lemma AddBelow(s: State, w: Worker, id: nat, n: nat)
    requires Armed(s, w, id) && IsNext(s.rows, Assets, n) && n < id
    ensures var s' := Step(s, AddAsset(n, Tar));
            && Armed(s', w, id) && AssetsAbove(s', id) == AssetsAbove(s, id)
            && MissingUpTo(s', id) == MissingUpTo(s, id) - {n} && n in MissingUpTo(s, id)
  {
  }

  /** When the id is assigned again, the worker reports the new row ready, whose file
      was never made. */
  lemma ReusedIdBreaks(s: State, w: Worker, id: nat)
    requires Armed(s, w, id) && IsNext(s.rows, Assets, id)
    ensures !ReadyExists(Step(Step(Step(s, AddAsset(id, Tar)), Produce(w)), Succeed(w)))
  {
    var k := Key(Assets, id);
    var s1 := Step(s, AddAsset(id, Tar));
    assert k in s1.rows && s1.rows[k].path == Artefact(s.nextName) && s1.jobs == s.jobs && s1.removing.None?;
    var s2 := Step(s1, Produce(w));
    assert Artefact(s.nextName) !in s2.files && s2.jobs[w].path in s2.files;
    var s3 := Step(s2, Succeed(w));
    assert k in s3.rows && s3.rows[k].status == Ready && s3.rows[k].path == Artefact(s.nextName) && s3.removing.None?;
    assert Artefact(s.nextName) !in s3.files;
  }

  /** The id can always be reached: later assets are deleted and new ones added. */
  lemma {:induction false} ReachId(es: seq<Event>, w: Worker, id: nat) returns (more: seq<Event>)
    requires Armed(Exec(es), w, id)
    ensures !ReadyExists(Exec(es + more))
    decreases |AssetsAbove(Exec(es), id)|, |MissingUpTo(Exec(es), id)|
  {
    hide Exec, Step, Armed, ReadyExists, IsNext;
    var s := Exec(es);
    if AssetsAbove(s, id) != {} {
      var k :| k in AssetsAbove(s, id);
      DeleteAbove(s, w, id, k);
      ExecTwo(es, RemoveFiles(k.id), CommitDelete);
      var rest := ReachId(es + [RemoveFiles(k.id), CommitDelete], w, id);
      more := [RemoveFiles(k.id), CommitDelete] + rest;
      assert es + more == es + [RemoveFiles(k.id), CommitDelete] + rest;
    } else {
      var n := NextExists(s.rows, Assets);
      NextIsAtMost(s, w, id, n);
      if n == id {
        ReusedIdBreaks(s, w, id);
        ExecTwo(es, AddAsset(id, Tar), Produce(w));
        ExecOne(es + [AddAsset(id, Tar), Produce(w)], Succeed(w));
        more := [AddAsset(id, Tar), Produce(w), Succeed(w)];
        assert es + more == es + [AddAsset(id, Tar), Produce(w)] + [Succeed(w)];
      } else {
        AddBelow(s, w, id, n);
        ExecOne(es, AddAsset(n, Tar));
        var rest := ReachId(es + [AddAsset(n, Tar)], w, id);
        more := [AddAsset(n, Tar)] + rest;
        assert es + more == es + [AddAsset(n, Tar)] + rest;
      }
    }
  }

  lemma AboveIs(s: State, id: nat, k: Key)
    ensures k in AssetsAbove(s, id) <==> k in s.rows && k.table == Assets && k.id > id
  {
  }

  lemma NextIsAtMost(s: State, w: Worker, id: nat, n: nat)
    requires Armed(s, w, id) && AssetsAbove(s, id) == {} && IsNext(s.rows, Assets, n)
    ensures n <= id
  {
    if n > id + 1 { AboveIs(s, id, Key(Assets, n - 1)); }
  }

  // ---- every careless step ----

  /** The file is deleted between the check of a registration and its commit. */
  lemma RegistrationRaceBreaks(s: State, id: nat, next: nat)
    requires FileInv(s) && s.removing.None? && Key(Assets, id) in s.rows &&
             s.rows[Key(Assets, id)].path in s.registering
    requires IsNext(s.rows - {Key(Assets, id)}, Assets, next)
    ensures s.rows[Key(Assets, id)].path.Builtin?
    ensures var s' := Step(Step(s, RemoveFiles(id)), CommitDelete);
            !ReadyExists(Step(s', RegisterBuiltin(next, s.rows[Key(Assets, id)].path.n, DockerBase)))
  {
    hide FileInv;
    var k := Key(Assets, id);
    RowFacts(s, k);
    var s' := Step(Step(s, RemoveFiles(id)), CommitDelete);
    assert s'.rows == s.rows - {k} && s'.registering == s.registering && s'.removing.None?;
    LateRegistration(s', s.rows[k].path.n, next);
  }

  lemma LateRegistration(s: State, n: nat, next: nat)
    requires s.removing.None? && Builtin(n) in s.registering && Builtin(n) !in s.files && IsNext(s.rows, Assets, next)
    requires forall a :: a in s.rows ==> s.rows[a].path != Builtin(n)
    ensures !ReadyExists(Step(s, RegisterBuiltin(next, n, DockerBase)))
  {
    var end, l := Step(s, RegisterBuiltin(next, n, DockerBase)), Key(Assets, next);
    assert l in end.rows && end.rows[l].status == Ready && end.rows[l].path == Builtin(n);
  }

  lemma DeletedHolder(s: State, id: nat) returns (w: Worker)
    requires FileInv(s) && s.removing.None? && Key(Assets, id) in s.rows && s.rows[Key(Assets, id)].status == Converting
    ensures Armed(Step(Step(s, RemoveFiles(id)), CommitDelete), w, id)
  {
    var k := Key(Assets, id);
    RowFacts(s, k);
    w := ServedBy(k, s.rows[k]);
    JobFacts(s, w);
  }

  /** Conversely, after any careful run every step that is not careful can be continued
      to a state where a ready asset names no file. */
  lemma CarelessStepBreaks(es: seq<Event>, e: Event) returns (more: seq<Event>)
    requires CarefulRun(es) && !Careful(Exec(es), e)
    ensures !ReadyExists(Exec(es + [e] + more))
  {
    hide Step, Exec, ReadyExists, Armed, IsNext, FileInv;
    CarefulRunInv(es);
    var s := Exec(es);
    if e.Reboot? {
      CarelessCrash(s);
      ExecOne(es, e);
      more := [];
      assert es + [e] + [] == es + [e];
    } else {
      var k := Key(Assets, e.id);
      var es1 := es + [e] + [CommitDelete];
      ExecTwo(es, e, CommitDelete);
      assert es + [e, CommitDelete] == es1;
      if s.rows[k].status == Converting {
        var w := DeletedHolder(s, e.id);
        var rest := ReachId(es1, w, e.id);
        more := [CommitDelete] + rest;
        assert es + [e] + more == es1 + rest;
      } else {
        var next := NextExists(s.rows - {k}, Assets);
        RegistrationRaceBreaks(s, e.id, next);
        var last := RegisterBuiltin(next, s.rows[k].path.n, DockerBase);
        ExecOne(es1, last);
        more := [CommitDelete, last];
        assert es + [e] + more == es1 + [last];
      }
    }
  }

  // ---- the failing runs from the start ----

  const K1 := Key(Assets, 1)

  /** A tar is uploaded and converted. */
  function Converted(): seq<Event> {
    [AddAsset(1, Tar), Take(Converter, K1), Produce(Converter), Succeed(Converter)]
  }

  lemma ConvertedIsReady()
    ensures var s := Exec(Converted());
            s.removing.None? && K1 in s.rows && s.rows[K1].status == Ready && s.rows[K1].path in s.files
  {
    var s1 := Step(Init, AddAsset(1, Tar));
    assert s1.rows == map[K1 := Row(Os, Pending, Some(Source(0)), Artefact(0), false)] && s1.jobs == map[];
    var s2 := Step(s1, Take(Converter, K1));
    assert s2.jobs == map[Converter := Job(K1, Some(Source(0)), Artefact(0))];
    assert s2.rows == map[K1 := Row(Os, Converting, Some(Source(0)), Artefact(0), false)];
    var s3 := Step(s2, Produce(Converter));
    assert Artefact(0) in s3.files;
    ExecTwo([], AddAsset(1, Tar), Take(Converter, K1));
    ExecTwo([AddAsset(1, Tar), Take(Converter, K1)], Produce(Converter), Succeed(Converter));
    assert [] + [AddAsset(1, Tar), Take(Converter, K1)] == [AddAsset(1, Tar), Take(Converter, K1)];
    assert [AddAsset(1, Tar), Take(Converter, K1)] + [Produce(Converter), Succeed(Converter)] == Converted();
  }

  /** It is deleted, and the process dies between the two halves. */
  lemma CrashedDeletionRun()
    ensures !ReadyExists(Exec(Converted() + [RemoveFiles(1), Reboot]))
  {
    hide Exec, Step, ReadyExists;
    ConvertedIsReady();
    CrashInDeletion(Exec(Converted()), 1);
    ExecTwo(Converted(), RemoveFiles(1), Reboot);
  }

  /** A file prepared at startup is registered; at the next startup it is deleted
      between the check and the commit of its registration. */
  function LateDeletion(): seq<Event> {
    [BuildBuiltin(0), CheckBuiltin(0), RegisterBuiltin(1, 0, DockerBase), Reboot,
     CheckBuiltin(0), RemoveFiles(1), CommitDelete, RegisterBuiltin(1, 0, DockerBase)]
  }

  lemma LateDeletionRun()
    ensures !ReadyExists(Exec(LateDeletion()))
  {
    var es := LateDeletion();
    var s3 := Step(Step(Step(Init, es[0]), es[1]), es[2]);
    assert s3 == State(map[K1 := Row(DockerBase, Ready, None, Builtin(0), false)], {Builtin(0)}, map[], {}, 0, None);
    var s5 := Step(Step(s3, Reboot), CheckBuiltin(0));
    assert s5 == s3.(registering := {Builtin(0)});
    var s7 := Step(Step(s5, RemoveFiles(1)), CommitDelete);
    assert s7 == State(map[], {}, map[], {Builtin(0)}, 0, None);
    LateRegistration(s7, 0, 1);
    LateDeletionSteps();
  }

  lemma LateDeletionSteps()
    ensures var es := LateDeletion();
            var s3 := Step(Step(Step(Init, es[0]), es[1]), es[2]);
            var s5 := Step(Step(s3, Reboot), CheckBuiltin(0));
            Exec(es) == Step(Step(Step(s5, RemoveFiles(1)), CommitDelete), RegisterBuiltin(1, 0, DockerBase))
  {
    hide Step, Exec;
    var es := LateDeletion();
    ExecInit();
    ExecTwo([], es[0], es[1]);
    ExecTwo(es[..2], es[2], es[3]);
    ExecTwo(es[..4], es[4], es[5]);
    ExecTwo(es[..6], es[6], es[7]);
    assert [] + [es[0], es[1]] == es[..2] && es[..2] + [es[2], es[3]] == es[..4];
    assert es[..4] + [es[4], es[5]] == es[..6] && es[..6] + [es[6], es[7]] == es;
  }

  lemma ExecInit()
    ensures Exec([]) == Init
  {
  }
}
