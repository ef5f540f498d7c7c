/** Signature verification of a block in batches: which jobs are issued, and that they succeed together
    exactly when every signature is valid. */
module SigBatch {
  import opened Bytes

  const MIN_BATCH_SIZE := 4

  /** A signature with what it signs. */
  type Sig(==, !new)

  /** The kind of an auth. */
  type AuthType = Byte

  datatype Auth = Auth(typeId: AuthType, sig: Sig)

  /** Signatures that one job verifies together. The job reads the batch when it runs. */
  class Batch {
    var items: seq<Sig>

    constructor ()
      ensures items == []
    {
      items := [];
    }

    method Add(x: Sig)
      modifies this
      ensures items == old(items) + [x]
    {
      items := items + [x];
    }
  }

  function Flatten(packs: seq<seq<Sig>>): seq<Sig> {
    if packs == [] then [] else Flatten(packs[..|packs| - 1]) + packs[|packs| - 1]
  }

  lemma FlattenSnoc(packs: seq<seq<Sig>>, pack: seq<Sig>)
    ensures Flatten(packs + [pack]) == Flatten(packs) + pack
  {
    assert (packs + [pack])[..|packs|] == packs;
  }

  lemma {:induction false} FlattenAt(packs: seq<seq<Sig>>, x: Sig)
    ensures x in Flatten(packs) <==> exists i :: 0 <= i < |packs| && x in packs[i]
  {
    if packs != [] {
      var n := |packs| - 1;
      FlattenAt(packs[..n], x);
      if i :| 0 <= i < |packs| && x in packs[i] {
        if i < n {
          assert x in packs[..n][i];
        }
      }
      if i :| 0 <= i < n && x in packs[..n][i] {
        assert x in packs[i];
      }
    }
  }

  // ---- One verifier --------------------------------------------------------------------------

  /** ED25519Batch: fills batches of a fixed size and issues each as it fills up. `added` is what went in;
      `issued` and `packs` are the batches that came out of Add, and what they hold. */
  class Ed25519Batch {
    const batchSize: nat
    const total: nat
    var counter: nat
    var totalCounter: nat
    var batch: Batch?
    ghost var added: seq<Sig>
    ghost var issued: seq<Batch>
    ghost var packs: seq<seq<Sig>>

    constructor (cores: nat, count: nat)
      requires cores > 0
      ensures Valid() && total == count && added == [] && issued == [] && batch == null
      ensures batchSize == if count / cores > 4 then count / cores else 4
    {
      batchSize := if count / cores > MIN_BATCH_SIZE then count / cores else MIN_BATCH_SIZE;
      total, counter, totalCounter, batch := count, 0, 0, null;
      added, issued, packs := [], [], [];
    }

    /** The signatures of the batch being filled. */
    ghost function Open(): seq<Sig>
      reads this, batch
    {
      if batch != null && batch !in issued then batch.items else []
    }

    /** The issued batches are full, all different, and hold what they held when issued. */
    ghost predicate Sealed()
      reads this, issued
    {
      && |packs| == |issued|
      && (forall i :: 0 <= i < |issued| ==> issued[i].items == packs[i] && |packs[i]| == batchSize)
      && (forall i, j :: 0 <= i < j < |issued| ==> issued[i] != issued[j])
    }

    ghost predicate Valid()
      reads this, issued, batch
    {
      && Sealed()
      && counter < batchSize
      && totalCounter == |added| <= total
      && added == Flatten(packs) + Open() && counter == |Open()|
      && (batch == null ==> issued == [])
      && (batch in issued ==> issued[|issued| - 1] == batch && totalCounter == total)
      && (batch != null && batch !in issued ==> 0 < counter || totalCounter < total)
    }

    /** Puts a signature into the batch being filled, a new one if there is none. */
    method Fill(x: Sig)
      requires Valid() && totalCounter < total
      modifies this`batch, this`counter, this`totalCounter, this`added, batch
      ensures Sealed() && batch != null && batch !in issued && (batch == old(batch) || fresh(batch))
      ensures added == old(added) + [x] && added == Flatten(packs) + batch.items
      ensures totalCounter == |added| <= total && 0 < counter == |batch.items| <= batchSize
    {
      if batch == null {
        batch := new Batch();
      }
      batch.Add(x);
      counter := counter + 1;
      totalCounter := totalCounter + 1;
      added := added + [x];
    }

    /** Add issues the batch when it is full. The last full batch is kept, not replaced. */
    method Add(x: Sig) returns (job: Batch?)
      requires Valid() && totalCounter < total
      modifies this, batch
      ensures Valid() && added == old(added) + [x]
      ensures issued == old(issued) + (if job == null then [] else [job])
      ensures batch == old(batch) || fresh(batch)
      ensures job == null || job == old(batch) || fresh(job)
    {
      Fill(x);
      if counter == batchSize {
        job := Issue();
      } else {
        job := null;
      }
    }

    /** Issues the full batch, and starts a new one unless this was the last. */
    method Issue() returns (job: Batch)
      requires Sealed() && batch != null && batch !in issued && added == Flatten(packs) + batch.items
      requires counter == |batch.items| == batchSize && 0 < batchSize && totalCounter == |added| <= total
      modifies this`batch, this`counter, this`issued, this`packs
      ensures Valid() && job == old(batch) && issued == old(issued) + [job]
      ensures batch == old(batch) || fresh(batch)
    {
      hide Flatten;
      Seal();
      job := batch;
      counter := 0;
      if totalCounter < total {
        batch := new Batch();
      }
    }

    /** The batch being filled is complete. */
    ghost method Seal()
      requires Sealed() && batch != null && batch !in issued && |batch.items| == batchSize
      modifies this`issued, this`packs
      ensures Sealed() && issued == old(issued) + [batch] && packs == old(packs) + [batch.items]
      ensures Flatten(packs) == old(Flatten(packs)) + batch.items
    {
      FlattenSnoc(packs, batch.items);
      issued, packs := issued + [batch], packs + [batch.items];
    }

    /** Done issues the batch that is left: one being filled, or the last full one once more. */
    method Done() returns (jobs: seq<Batch>)
      requires Valid()
      ensures jobs == if batch == null then [] else [batch]
    {
      jobs := if batch == null then [] else [batch];
    }
  }

  /** The batches that verify some signatures: all of those and nothing else, each batch once, except that
      the last one may be issued twice, when it is full. */
  ghost predicate Verifies(jobs: seq<Batch>, sigs: seq<Sig>, batchSize: nat)
    reads jobs
  {
    && (forall x :: x in sigs <==> exists i :: 0 <= i < |jobs| && x in jobs[i].items)
    && (forall i, j :: 0 <= i < j < |jobs| && jobs[i] == jobs[j] ==> i + 1 == j == |jobs| - 1 && |jobs[j].items| == batchSize)
    && (forall i :: 0 <= i < |jobs| - 1 ==> |jobs[i].items| == batchSize)
    && (jobs != [] ==> 0 < |jobs[|jobs| - 1].items| <= batchSize)
  }

  function BatchSize(cores: nat, count: nat): nat
    requires cores > 0
  {
    if count / cores > MIN_BATCH_SIZE then count / cores else MIN_BATCH_SIZE
  }

  /** authBatchWorker.start and then Done, for all the signatures of one kind. */
  method RunWorker(cores: nat, count: nat, sigs: seq<Sig>) returns (jobs: seq<Batch>)
    requires cores > 0 && |sigs| == count
    ensures fresh(jobs) && Verifies(jobs, sigs, if count / cores > 4 then count / cores else 4)
  {
    var bv;
    bv, jobs := AddAll(cores, count, sigs);
    var last := bv.Done();
    WorkerVerifies(bv, sigs, last);
    jobs := jobs + last;
  }

  /** The worker's loop: adds the signatures and collects the batches that fill up. */
  method AddAll(cores: nat, count: nat, sigs: seq<Sig>) returns (bv: Ed25519Batch, jobs: seq<Batch>)
    requires cores > 0 && |sigs| == count
    ensures fresh(bv) && fresh(jobs) && (bv.batch != null ==> fresh(bv.batch))
    ensures bv.Valid() && bv.batchSize == BatchSize(cores, count) && bv.total == count && bv.added == sigs && jobs == bv.issued
  {
    hide Flatten;
    bv := new Ed25519Batch(cores, count);
    jobs := [];
    var i := 0;
    while i < |sigs|
      invariant i <= |sigs| && bv.Valid() && fresh(bv) && bv.total == count
      invariant bv.batchSize == BatchSize(cores, count)
      invariant bv.batch != null ==> fresh(bv.batch)
      invariant bv.added == sigs[..i]
      invariant jobs == bv.issued && fresh(jobs)
    {
      assert sigs[..i + 1] == sigs[..i] + [sigs[i]];
      var job := bv.Add(sigs[i]);
      if job != null {
        jobs := jobs + [job];
      }
      i := i + 1;
    }
    assert sigs[..i] == sigs;
  }

  lemma WorkerVerifies(bv: Ed25519Batch, sigs: seq<Sig>, last: seq<Batch>)
    requires bv.Valid() && bv.added == sigs && bv.total == |sigs| && last == (if bv.batch == null then [] else [bv.batch])
    ensures Verifies(bv.issued + last, sigs, bv.batchSize)
  {
    var jobs := bv.issued + last;
    forall x ensures x in sigs <==> exists i :: 0 <= i < |jobs| && x in jobs[i].items {
      FlattenAt(bv.packs, x);
      if x in sigs {
        if x in Flatten(bv.packs) {
          var i :| 0 <= i < |bv.packs| && x in bv.packs[i];
          assert x in jobs[i].items;
        } else {
          assert x in jobs[|jobs| - 1].items;
        }
      }
      if i :| 0 <= i < |jobs| && x in jobs[i].items {
        if i < |bv.issued| {
          assert x in bv.packs[i];
        } else if bv.batch in bv.issued {
          assert x in bv.packs[|bv.packs| - 1];
        }
      }
    }
  }

  // ---- All of them ---------------------------------------------------------------------------

  /** A job that verifies one signature, or a batch. */
  datatype Job = Direct(sig: Sig) | Batched(batch: Batch)

  ghost predicate InJob(job: Job, x: Sig)
    reads if job.Batched? then {job.batch} else {}
  {
    match job
    case Direct(sig) => x == sig
    case Batched(batch) => x in batch.items
  }

  /** A job succeeds when all its signatures are valid. */
  ghost predicate Succeeds(job: Job, valid: Sig -> bool)
    reads if job.Batched? then {job.batch} else {}
  {
    forall x :: InJob(job, x) ==> valid(x)
  }

  /** The signatures of one kind, in order. */
  function Select(auths: seq<Auth>, t: AuthType): seq<Sig> {
    if auths == [] then []
    else
      var init := Select(auths[..|auths| - 1], t);
      if auths[|auths| - 1].typeId == t then init + [auths[|auths| - 1].sig] else init
  }

  lemma {:induction false} SelectAt(auths: seq<Auth>, t: AuthType, x: Sig)
    ensures x in Select(auths, t) <==> Auth(t, x) in auths
  {
    if auths != [] {
      var n := |auths| - 1;
      SelectAt(auths[..n], t, x);
      assert auths == auths[..n] + [auths[n]];
    }
  }

  /** NewExecutionBlock's count of the auths of each kind. */
  method CountAuths(auths: seq<Auth>) returns (counts: map<AuthType, nat>)
    ensures forall t :: t in counts <==> Select(auths, t) != []
    ensures forall t :: t in counts ==> counts[t] == |Select(auths, t)|
  {
    counts := map[];
    var i := 0;
    assert auths[..0] == [];
    while i < |auths|
      invariant i <= |auths|
      invariant forall t :: t in counts <==> Select(auths[..i], t) != []
      invariant forall t :: t in counts ==> counts[t] == |Select(auths[..i], t)|
    {
      assert auths[..i + 1][..i] == auths[..i];
      var t := auths[i].typeId;
      counts := counts[t := (if t in counts then counts[t] else 0) + 1];
      i := i + 1;
    }
    assert auths[..i] == auths;
  }

  ghost function BatchesOf(jobs: seq<Job>): set<Batch> {
    set job | job in jobs && job.Batched? :: job.batch
  }

  /** Some job verifies the signature. */
  ghost predicate Issued(jobs: seq<Job>, x: Sig)
    reads BatchesOf(jobs)
  {
    exists job :: job in jobs && InJob(job, x)
  }

  lemma IssuedMore(jobs: seq<Job>, more: seq<Job>, x: Sig)
    ensures Issued(jobs + more, x) <==> Issued(jobs, x) || Issued(more, x)
  {
    if Issued(jobs, x) {
      var job :| job in jobs && InJob(job, x);
      assert job in jobs + more;
    }
    if Issued(more, x) {
      var job :| job in more && InJob(job, x);
      assert job in jobs + more;
    }
  }

  function AsJobs(batches: seq<Batch>): (jobs: seq<Job>)
    ensures |jobs| == |batches| && forall i :: 0 <= i < |jobs| ==> jobs[i] == Batched(batches[i])
  {
    seq(|batches|, i requires 0 <= i < |batches| => Batched(batches[i]))
  }

  lemma VerifiedAreIssued(batches: seq<Batch>, sigs: seq<Sig>, batchSize: nat, x: Sig)
    requires Verifies(batches, sigs, batchSize)
    ensures Issued(AsJobs(batches), x) <==> x in sigs
  {
    if x in sigs {
      var i :| 0 <= i < |batches| && x in batches[i].items;
      assert AsJobs(batches)[i] in AsJobs(batches);
    }
    if Issued(AsJobs(batches), x) {
      var job :| job in AsJobs(batches) && InJob(job, x);
      var i :| 0 <= i < |batches| && AsJobs(batches)[i] == job;
      assert x in batches[i].items;
    }
  }

  /** AuthBatch: signatures of a kind that has an engine queue up for its worker; the others become jobs of
      their own at once. */
  class AuthBatch {
    const cores: nat
    const counts: map<AuthType, nat>
    const engines: set<AuthType>
    var queues: map<AuthType, seq<Sig>>
    var jobs: seq<Job>

    constructor (cores: nat, counts: map<AuthType, nat>, engines: set<AuthType>)
      ensures this.cores == cores && this.counts == counts && this.engines == engines && jobs == []
      ensures queues.Keys == counts.Keys * engines && forall t :: t in queues ==> queues[t] == []
    {
      this.cores, this.counts, this.engines := cores, counts, engines;
      queues := map t | t in counts && t in engines :: [];
      jobs := [];
    }

    /** The queues and jobs after these auths. */
    ghost predicate Added(auths: seq<Auth>)
      reads this
    {
      && queues.Keys == counts.Keys * engines
      && (forall t :: t in queues ==> queues[t] == Select(auths, t))
      && (forall job :: job in jobs ==> job.Direct?)
      && (forall x :: Direct(x) in jobs <==> exists a :: a in auths && a.sig == x && a.typeId !in queues)
    }

    method Add(auth: Auth, ghost auths: seq<Auth>)
      requires Added(auths)
      modifies this
      ensures Added(auths + [auth])
    {
      assert (auths + [auth])[..|auths|] == auths;
      if auth.typeId !in queues {
        jobs := jobs + [Direct(auth.sig)];
      } else {
        queues := queues[auth.typeId := queues[auth.typeId] + [auth.sig]];
      }
    }

    /** Done: every worker goes through its queue, and its batches become jobs. */
    method Done(ghost auths: seq<Auth>)
      requires Added(auths) && cores > 0
      requires forall t :: t in queues ==> counts[t] == |Select(auths, t)|
      modifies this
      ensures forall x :: Issued(jobs, x) <==> exists a :: a in auths && a.sig == x
    {
      DirectsAreIssued(auths);
      var all := RunWorkers(auths);
      label Collected:
      jobs := all;
      forall x ensures Issued(jobs, x) == old@Collected(Issued(all, x)) {
        assert forall job :: job in all ==> InJob(job, x) == old@Collected(InJob(job, x));
      }
    }

    method RunWorkers(ghost auths: seq<Auth>) returns (all: seq<Job>)
      requires cores > 0 && queues.Keys <= counts.Keys
      requires forall t :: t in queues ==> queues[t] == Select(auths, t) && counts[t] == |Select(auths, t)|
      requires forall x :: Issued(jobs, x) <==> exists a :: a in auths && a.sig == x && a.typeId !in queues
      ensures forall x :: Issued(all, x) <==> exists a :: a in auths && a.sig == x
    {
      var rest := queues.Keys;
      all := jobs;
      while rest != {}
        invariant rest <= queues.Keys
        invariant forall x :: Issued(all, x) <==> exists a :: a in auths && a.sig == x && a.typeId !in rest
        decreases rest
      {
        var t :| t in rest;
        label BeforeWorker:
        var batches := RunWorker(cores, counts[t], queues[t]);
        forall x
          ensures Issued(all + AsJobs(batches), x) <==> exists a :: a in auths && a.sig == x && a.typeId !in rest - {t}
        {
          assert Issued(all, x) == old@BeforeWorker(Issued(all, x)) by {
            assert forall job :: job in all ==> InJob(job, x) == old@BeforeWorker(InJob(job, x));
          }
          IssuedMore(all, AsJobs(batches), x);
          VerifiedAreIssued(batches, queues[t], BatchSize(cores, counts[t]), x);
          SelectAt(auths, t, x);
        }
        all, rest := all + AsJobs(batches), rest - {t};
      }
    }

    lemma DirectsAreIssued(auths: seq<Auth>)
      requires Added(auths)
      ensures forall x :: Issued(jobs, x) <==> exists a :: a in auths && a.sig == x && a.typeId !in queues
    {
      forall x ensures Issued(jobs, x) <==> exists a :: a in auths && a.sig == x && a.typeId !in queues {
        if Direct(x) in jobs {
          assert InJob(Direct(x), x);
        }
        if Issued(jobs, x) {
          var job :| job in jobs && InJob(job, x);
          assert job == Direct(x);
        }
      }
    }
  }

  /** verifySignatures: the jobs issued for the auths of a block, with engines for some kinds. */
  method VerifySignatures(auths: seq<Auth>, cores: nat, engines: set<AuthType>) returns (jobs: seq<Job>)
    requires cores > 0
    ensures forall x :: Issued(jobs, x) <==> exists a :: a in auths && a.sig == x
  {
    var counts := CountAuths(auths);
    var batch := new AuthBatch(cores, counts, engines);
    var i := 0;
    assert auths[..0] == [];
    while i < |auths|
      invariant i <= |auths| && fresh(batch) && batch.Added(auths[..i])
      invariant batch.cores == cores && batch.counts == counts
    {
      assert auths[..i + 1] == auths[..i] + [auths[i]];
      batch.Add(auths[i], auths[..i]);
      i := i + 1;
    }
    assert auths[..i] == auths;
    batch.Done(auths);
    jobs := batch.jobs;
  }

  /** Then the jobs succeed together exactly when every signature is valid. */
  lemma JobsDecide(jobs: seq<Job>, auths: seq<Auth>, valid: Sig -> bool)
    requires forall x :: Issued(jobs, x) <==> exists a :: a in auths && a.sig == x
    ensures (forall job :: job in jobs ==> Succeeds(job, valid)) <==> (forall a :: a in auths ==> valid(a.sig))
  {
    if forall job :: job in jobs ==> Succeeds(job, valid) {
      forall a | a in auths ensures valid(a.sig) {
        assert Issued(jobs, a.sig);
        var job :| job in jobs && InJob(job, a.sig);
        assert Succeeds(job, valid);
      }
    }
    if forall a :: a in auths ==> valid(a.sig) {
      forall job, x | job in jobs && InJob(job, x) ensures valid(x) {
        assert Issued(jobs, x);
      }
    }
  }
}
