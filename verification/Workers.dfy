/** The claim, finish and startup code of the three workers, updating the rows in
    place; each method is a step of the queue model. */
module Workers {
  import opened Wrappers
  import opened WorkQueue

  predicate HasArchiveFile(r: Row, files: set<Path>) { r.source.Some? && r.source.value in files }

  /** The worker is free, its row has the given status and waits for nothing, every
      other row is as it was and still has its archive; of the files at most an
      archive and `discarded` are gone. */
  predicate JobEnded(s: State, s': State, w: Worker, status: Status, discarded: Option<Path>)
    requires w in s.jobs
  {
    var key := s.jobs[w].key;
    && s'.jobs == s.jobs - {w} && s'.rows.Keys == s.rows.Keys
    && (key in s.rows ==> s'.rows[key].status == status && s'.rows[key].path == s.rows[key].path
                          && (w != DockerBuilder ==> s'.rows[key].source == None))
    && (forall k :: k in s.rows && k != key ==>
          s'.rows[k] == s.rows[k] && (HasArchiveFile(s.rows[k], s.files) ==> HasArchiveFile(s.rows[k], s'.files)))
    && s'.files <= s.files
    && (forall p :: p in s.files && !p.Source? && Some(p) != discarded ==> p in s'.files)
  }

  /** An archive is named by one row only, so ending a job takes no other row's. */
  lemma FinishEffect(s: State, w: Worker, status: Status)
    requires QueueInv(s) && w in s.jobs && (status == Ready || status == Failed)
    ensures QueueInv(FinishStep(s, w, status)) && JobEnded(s, FinishStep(s, w, status), w, status, None)
  {
    FinishKeepsQueue(s, w, status);
    JobIsSound(s, w);
    forall k | k in s.rows ensures RowOk(s, k) { RowFact(s, k); }
  }

  lemma JobIsSound(s: State, w: Worker)
    requires QueueInv(s) && w in s.jobs
    ensures JobSound(s, w)
  {
  }

  lemma DiscardEffect(s: State, w: Worker)
    requires QueueInv(s) && s.removing.None? && w in s.jobs && w != DockerBuilder
    ensures var s' := Step(s, Fail(w, true));
            QueueInv(s') && JobEnded(s, s', w, Failed, Some(s.jobs[w].path)) && s.jobs[w].path !in s'.files
  {
    StepKeepsQueue(s, Fail(w, true));
    FinishEffect(s, w, Failed);
    JobIsSound(s, w);
    forall k | k in s.rows ensures RowOk(s, k) { RowFact(s, k); }
  }

  // ---- what a request leaves behind ----

  /** Every other row is as it was and still has its archive and its image. */
  predicate OthersKept(s: State, s': State, key: Key) {
    && s'.rows.Keys == s.rows.Keys + {key} && s'.jobs == s.jobs
    && forall k :: k in s.rows && k != key ==>
         && s'.rows[k] == s.rows[k]
         && (HasArchiveFile(s.rows[k], s.files) ==> HasArchiveFile(s.rows[k], s'.files))
  }

  /** The first id of a table is 1, and every later one follows the largest. */
  lemma NextId(rows: map<Key, Row>, table: Table, id: nat)
    requires IsNext(rows, table, id)
    ensures Key(table, id) !in rows && forall k :: k in rows && k.table == table ==> k.id <= id - 1
    ensures if forall k :: k in rows ==> k.table != table then id == 1 else id == 1 || Key(table, id - 1) in rows
  {
    assert Key(table, id - 1).table == table;
  }

  /** An uploaded image is ready at once, an archive waits for the converter and lies on
      disk, a docker-base build waits for its builder. */
  lemma UploadOutcome(s: State, id: nat, upload: Upload)
    requires s.removing.None? && IsNext(s.rows, Assets, id)
    ensures var s', key := Step(s, AddAsset(id, upload)), Key(Assets, id);
            && key in s'.rows && OthersKept(s, s', key) && s.files <= s'.files
            && (upload == Ext4 ==> s'.rows[key].status == Ready && s'.rows[key].path in s'.files)
            && (upload == Tar ==> Claimable(Converter, key, s'.rows[key]) && HasArchiveFile(s'.rows[key], s'.files))
            && (upload == DockerBaseBuild ==> Claimable(DockerBuilder, key, s'.rows[key]))
  {
  }

  /** Likewise for a project image: a Compose bundle always waits for the bundle worker. */
  lemma ImageOutcome(s: State, id: nat, kind: Kind, pending: bool)
    requires s.removing.None? && IsNext(s.rows, Images, id) && kind != DockerBase
    ensures var s', key := Step(s, AddImage(id, kind, pending)), Key(Images, id);
            && key in s'.rows && s'.rows[key].kind == kind && OthersKept(s, s', key) && s.files <= s'.files
            && (kind == Compose ==> Claimable(Bundler, key, s'.rows[key]) && HasArchiveFile(s'.rows[key], s'.files))
            && (kind == Os && pending ==>
                  Claimable(Converter, key, s'.rows[key]) && HasArchiveFile(s'.rows[key], s'.files))
            && (kind == Os && !pending ==> s'.rows[key].status == Ready && s'.rows[key].path in s'.files)
  {
  }

  /** A new archive for a project puts it back in its queue; what it had before is gone
      from the disk, and what others have stays. */
  lemma EditOutcome(s: State, id: nat)
    requires QueueInv(s) && s.removing.None?
    requires Key(Images, id) in s.rows && s.rows[Key(Images, id)].status != Converting
    ensures var s', key := Step(s, EditImage(id)), Key(Images, id);
            && OthersKept(s, s', key) && HasArchiveFile(s'.rows[key], s'.files)
            && s'.rows[key].kind == s.rows[key].kind
            && Claimable(ServedBy(key, s.rows[key]), key, s'.rows[key])
            && !HasArchiveFile(s.rows[key], s'.files) && s.rows[key].path !in s'.files
  {
    var key := Key(Images, id);
    RowFact(s, key);
    forall k | k in s.rows && k != key ensures s.rows[k].source.Some? ==> s.rows[k].source != s.rows[key].source {
      RowFact(s, k);
    }
    forall k | k in s.rows ensures RowOk(s, k) { RowFact(s, k); }
    assert Step(s, EditImage(id)).rows.Keys == s.rows.Keys + {key};
  }

  /** A project in conversion cannot be edited. */
  lemma EditRefused(s: State, id: nat)
    requires Key(Images, id) in s.rows ==> s.rows[Key(Images, id)].status == Converting
    ensures Step(s, EditImage(id)) == s
  {
  }

  class Queues {
    var rows: map<Key, Row>
    var files: set<Path>
    var jobs: map<Worker, Job>
    var registering: set<Path>
    var nextName: nat
    var removing: Option<nat>

    ghost function Abs(): State
      reads this
    {
      State(rows, files, jobs, registering, nextName, removing)
    }

    constructor ()
      ensures Abs() == Init
    {
      rows, files, jobs, registering, nextName, removing := map[], {}, map[], {}, 0, None;
    }

    /** SELECT ... WHERE the worker's conditions LIMIT 1, on one table. */
    method FindPending(w: Worker, table: Table) returns (found: Option<Key>)
      ensures found.Some? ==>
                && found.value in rows && found.value.table == table
                && Claimable(w, found.value, rows[found.value])
      ensures found.None? ==> forall k :: k in rows && k.table == table ==> !Claimable(w, k, rows[k])
    {
      var todo := rows.Keys;
      while todo != {}
        invariant todo <= rows.Keys
        invariant forall k :: k in rows && k.table == table && Claimable(w, k, rows[k]) ==> k in todo
        decreases todo
      {
        var k :| k in todo;
        if k.table == table && Claimable(w, k, rows[k]) { return Some(k); }
        todo := todo - {k};
      }
      found := None;
    }

    /** The claim of any of the three workers: nothing is claimed exactly when no
        row is claimable, and an image only when no asset is. */
    method ClaimPending(w: Worker) returns (job: Option<Job>)
      requires w !in jobs && removing.None?
      modifies this
      ensures job.None? ==> Abs() == old(Abs()) && forall k :: k in rows ==> !Claimable(w, k, rows[k])
      ensures job.Some? ==>
                && MayTake(old(Abs()), w, job.value.key)
                && job.value == Job(job.value.key, old(rows)[job.value.key].source, old(rows)[job.value.key].path)
                && old(rows)[job.value.key].status == Pending
                && rows == old(rows)[job.value.key := old(rows)[job.value.key].(status := Converting)]
                && (job.value.key.table == Images ==>
                      forall k :: k in rows && k.table == Assets ==> !Claimable(w, k, old(rows)[k]))
                && Abs() == Step(old(Abs()), Take(w, job.value.key))
                && jobs[w] == job.value
    {
      var key := FindPending(w, Assets);
      if key.None? { key := FindPending(w, Images); }
      if key.None? { return None; }
      var k := key.value;
      var taken := Job(k, rows[k].source, rows[k].path);
      rows := rows[k := rows[k].(status := Converting)];
      jobs := jobs[w := taken];
      job := Some(taken);
    }

    /** `_finish` of the tar converter, then the removal of the tar. */
    method FinishConversion(ok: bool)
      requires QueueInv(Abs()) && removing.None? && Converter in jobs && (ok ==> jobs[Converter].path in files)
      modifies this
      ensures QueueInv(Abs()) && Abs() == Step(old(Abs()), if ok then Succeed(Converter) else Fail(Converter, false))
      ensures JobEnded(old(Abs()), Abs(), Converter, if ok then Ready else Failed, None)
      ensures old(jobs[Converter].source).Some? ==> old(jobs[Converter].source).value !in files
    {
      hide QueueInv, JobEnded;
      ghost var s := Abs();
      FinishEffect(s, Converter, if ok then Ready else Failed);
      var job := jobs[Converter];
      if job.key in rows {
        rows := rows[job.key := rows[job.key].(status := if ok then Ready else Failed, source := None)];
      }
      if job.source.Some? && job.source.value in files { files := files - {job.source.value}; }
      jobs := jobs - {Converter};
      assert files == Without(s.files, job.source);
      assert Abs() == FinishStep(s, Converter, if ok then Ready else Failed);
    }

    /** `_finish` of the bundle worker; a failed build discards its image. */
    method FinishBundle(ok: bool)
      requires QueueInv(Abs()) && removing.None? && Bundler in jobs && (ok ==> jobs[Bundler].path in files)
      modifies this
      ensures QueueInv(Abs()) && Abs() == Step(old(Abs()), if ok then Succeed(Bundler) else Fail(Bundler, true))
      ensures JobEnded(old(Abs()), Abs(), Bundler, if ok then Ready else Failed,
                       if ok then None else Some(old(jobs[Bundler].path)))
      ensures !ok ==> old(jobs[Bundler].path) !in files
      ensures old(jobs[Bundler].key) in old(rows) && old(rows)[old(jobs[Bundler].key)].source.Some? ==>
                old(rows)[old(jobs[Bundler].key)].source.value !in files
    {
      hide QueueInv, JobEnded;
      ghost var s := Abs();
      FinishEffect(s, Bundler, if ok then Ready else Failed);
      DiscardEffect(s, Bundler);
      var job := jobs[Bundler];
      if job.key in rows {
        var source := rows[job.key].source;
        rows := rows[job.key := rows[job.key].(status := if ok then Ready else Failed, source := None)];
        if source.Some? && source.value in files { files := files - {source.value}; }
      }
      assert files == FinishStep(s, Bundler, if ok then Ready else Failed).files;
      if !ok && job.path in files { files := files - {job.path}; }
      jobs := jobs - {Bundler};
      assert Abs() == if ok then FinishStep(s, Bundler, Ready) else FailStep(s, Bundler, true);
    }

    /** `_finish_docker_base`: there is no archive, and a failed build leaves its file. */
    method FinishDockerBase(ok: bool)
      requires QueueInv(Abs()) && removing.None? && DockerBuilder in jobs && (ok ==> jobs[DockerBuilder].path in files)
      modifies this
      ensures QueueInv(Abs()) &&
              Abs() == Step(old(Abs()), if ok then Succeed(DockerBuilder) else Fail(DockerBuilder, false))
      ensures JobEnded(old(Abs()), Abs(), DockerBuilder, if ok then Ready else Failed, None) && files == old(files)
    {
      hide QueueInv, JobEnded;
      FinishEffect(Abs(), DockerBuilder, if ok then Ready else Failed);
      var job := jobs[DockerBuilder];
      if job.key in rows {
        rows := rows[job.key := rows[job.key].(status := if ok then Ready else Failed)];
      }
      jobs := jobs - {DockerBuilder};
    }

    /** `delete_default_asset`, not interrupted: first the files, then the row. */
    method DeleteAsset(id: nat) returns (found: bool)
      requires removing.None?
      modifies this
      ensures found <==> Key(Assets, id) in old(rows)
      ensures Abs() == Step(Step(old(Abs()), RemoveFiles(id)), CommitDelete)
      ensures found ==>
                && rows == old(rows) - {Key(Assets, id)}
                && old(rows)[Key(Assets, id)].path !in files && !HasArchiveFile(old(rows)[Key(Assets, id)], files)
    {
      var k := Key(Assets, id);
      found := k in rows;
      if !found { return; }
      var row := rows[k];
      if row.path in files { files := files - {row.path}; }
      if row.source.Some? && row.source.value in files { files := files - {row.source.value}; }
      rows := rows - {k};
    }

    /** `reset_stuck_conversions` after a restart: a loop over the interrupted rows. */
    method ResetStuckConversions()
      modifies this
      ensures Abs() == Step(old(Abs()), Reboot)
    {
      jobs, registering, removing := map[], {}, None;
      var todo := set k | k in rows && rows[k].status == Converting;
      while todo != {}
        invariant rows.Keys == old(rows).Keys && todo <= rows.Keys
        invariant forall k :: k in rows ==>
                    rows[k] == if k in todo then old(rows)[k] else Requeued(old(rows))[k]
        invariant files == old(files) && jobs == map[] && registering == {} && nextName == old(nextName) &&
                  removing == None
        decreases todo
      {
        var k :| k in todo;
        rows := rows[k := rows[k].(status := Pending)];
        todo := todo - {k};
      }
      assert rows == Requeued(old(rows));
    }
  }
}
