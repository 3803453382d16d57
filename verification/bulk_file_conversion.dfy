/** The bulk conversion queue: dropped files are appended as pending, and a
    processing pass walks a snapshot of the queue in order, moving each pending
    entry (matched by id) to processing and then to completed or error. The
    remote conversion is an oracle `succeeds(k)` for the k-th snapshot entry. */
module BulkFileConversion {
  import opened Text

  datatype FileStatus = Pending | Processing | Completed | Error

  /** The parts of a browser `File` the queue reads. */
  datatype DroppedFile = DroppedFile(name: string, lastModified: int)

  datatype QueuedFile = QueuedFile(file: DroppedFile, status: FileStatus, id: string)

  /** The queue state and the `isProcessing` flag. */
  datatype Queue = Queue(files: seq<QueuedFile>, isProcessing: bool)

  const Empty: Queue := Queue([], false)

  /** `${file.name}-${file.lastModified}`. */
  function FileId(f: DroppedFile): (id: string)
    ensures |f.name| < |id| && id[..|f.name|] == f.name && id[|f.name|] == '-'
    ensures id[|f.name| + 1..] == IntToDecimal(f.lastModified)
  {
    f.name + "-" + IntToDecimal(f.lastModified)
  }

  /** `onDrop`: the accepted files, in order, after the existing entries. */
  function OnDrop(q: Queue, accepted: seq<DroppedFile>): (r: Queue)
    ensures r.isProcessing == q.isProcessing
    ensures |r.files| == |q.files| + |accepted|
    ensures r.files[..|q.files|] == q.files
    ensures forall k :: 0 <= k < |accepted| ==>
      r.files[|q.files| + k] == QueuedFile(accepted[k], Pending, FileId(accepted[k]))
  {
    var added := seq(|accepted|, k requires 0 <= k < |accepted| =>
      QueuedFile(accepted[k], Pending, FileId(accepted[k])));
    q.(files := q.files + added)
  }

  /** `prev.map(f => f.id === id ? { ...f, status } : f)`. */
  function SetStatus(files: seq<QueuedFile>, id: string, status: FileStatus): (r: seq<QueuedFile>)
    ensures |r| == |files|
    ensures forall j :: 0 <= j < |files| && files[j].id == id ==> r[j] == files[j].(status := status)
    ensures forall j :: 0 <= j < |files| && files[j].id != id ==> r[j] == files[j]
  {
    seq(|files|, j requires 0 <= j < |files| =>
      if files[j].id == id then files[j].(status := status) else files[j])
  }

  /** The `disabled` expression of the Start button. */
  predicate StartDisabled(q: Queue) {
    q.isProcessing || forall j :: 0 <= j < |q.files| ==> q.files[j].status != Pending
  }

  /** Start is enabled exactly when the queue is idle and holds a pending entry. */
  lemma StartEnabledIff(q: Queue)
    ensures !StartDisabled(q) <==> !q.isProcessing && exists j :: 0 <= j < |q.files| && q.files[j].status == Pending
    ensures q.files == [] ==> StartDisabled(q)
  {
  }

  /** Clear Queue (disabled while processing). */
  function ClearQueue(q: Queue): (r: Queue)
    ensures !q.isProcessing ==> r == Empty
    ensures q.isProcessing ==> r == q
  {
    if q.isProcessing then q else q.(files := [])
  }

  // ---------------------------------------------------------------------------
  // The processing pass
  // ---------------------------------------------------------------------------

  /** The states `processFile` sets for the `k`-th snapshot entry. */
  function Outcome(ok: bool): FileStatus {
    if ok then Completed else Error
  }

  /** Every intermediate queue state of the pass over `snapshot[k..]`, starting
      from `files`: two per pending snapshot entry (processing, then the
      outcome), none for the others; `isProcessing` is set throughout. */
  function PassFrom(files: seq<QueuedFile>, snapshot: seq<QueuedFile>, succeeds: nat -> bool, k: nat): (h: seq<Queue>)
    requires k <= |snapshot|
    ensures forall n :: 0 <= n < |h| ==> h[n].isProcessing && |h[n].files| == |files|
    decreases |snapshot| - k
  {
    if k == |snapshot| then []
    else if snapshot[k].status != Pending then PassFrom(files, snapshot, succeeds, k + 1)
    else
      var id := snapshot[k].id;
      var processing := SetStatus(files, id, Processing);
      var done := SetStatus(processing, id, Outcome(succeeds(k)));
      [Queue(processing, true), Queue(done, true)] + PassFrom(done, snapshot, succeeds, k + 1)
  }

  /** The file list after the pass over `snapshot[k..]`. */
  function Final(files: seq<QueuedFile>, snapshot: seq<QueuedFile>, succeeds: nat -> bool, k: nat): seq<QueuedFile>
    requires k <= |snapshot|
  {
    var h := PassFrom(files, snapshot, succeeds, k);
    if h == [] then files else h[|h| - 1].files
  }

  /** `handleProcessFiles`: set the flag, process the pending entries of the
      queue as it was when clicked, one after the other, clear the flag.
      `history` holds every state the pass goes through. */
  method ProcessFiles(q: Queue, succeeds: nat -> bool) returns (final: Queue, history: seq<Queue>)
    ensures |history| > 0 && history[0] == q.(isProcessing := true)
    ensures forall n :: 0 <= n < |history| ==> history[n].isProcessing
    ensures history[1..] == PassFrom(q.files, q.files, succeeds, 0)
    ensures final == Queue(history[|history| - 1].files, false)
    ensures |final.files| == |q.files|
  {
    var snapshot := q.files;
    var files := q.files;
    history := [q.(isProcessing := true)];
    var k := 0;
    while k < |snapshot|
      invariant 0 <= k <= |snapshot|
      invariant |history| > 0 && history[0] == q.(isProcessing := true)
      invariant forall n :: 0 <= n < |history| ==> history[n].isProcessing
      invariant history[|history| - 1].files == files
      invariant history[1..] + PassFrom(files, snapshot, succeeds, k) == PassFrom(q.files, snapshot, succeeds, 0)
    {
      if snapshot[k].status == Pending {
        var processing := SetStatus(files, snapshot[k].id, Processing);
        var done := SetStatus(processing, snapshot[k].id, Outcome(succeeds(k)));
        history := history + [Queue(processing, true), Queue(done, true)];
        files := done;
      }
      k := k + 1;
    }
    final := Queue(files, false);
  }

  /** Some pending snapshot entry from position `k` on carries `id`. */
  predicate TouchedFrom(snapshot: seq<QueuedFile>, k: nat, id: string) {
    exists m :: k <= m < |snapshot| && snapshot[m].status == Pending && snapshot[m].id == id
  }

  /** After the pass, an entry whose id some pending snapshot entry carries is
      completed or failed; every other entry is as it was. Files and ids never
      change, and the length is kept. */
  lemma {:induction false} PassOutcome(files: seq<QueuedFile>, snapshot: seq<QueuedFile>, succeeds: nat -> bool, k: nat, j: nat)
    requires k <= |snapshot| && j < |files|
    ensures |Final(files, snapshot, succeeds, k)| == |files|
    ensures var f := Final(files, snapshot, succeeds, k)[j];
      && f.file == files[j].file && f.id == files[j].id
      && (TouchedFrom(snapshot, k, files[j].id) ==> f.status == Completed || f.status == Error)
      && (!TouchedFrom(snapshot, k, files[j].id) ==> f.status == files[j].status)
    decreases |snapshot| - k
  {
    if k < |snapshot| {
      if snapshot[k].status != Pending {
        PassOutcome(files, snapshot, succeeds, k + 1, j);
        if TouchedFrom(snapshot, k, files[j].id) {
          var m :| k <= m < |snapshot| && snapshot[m].status == Pending && snapshot[m].id == files[j].id;
          assert m != k;
          assert TouchedFrom(snapshot, k + 1, files[j].id);
        }
      } else {
        var id := snapshot[k].id;
        var processing := SetStatus(files, id, Processing);
        var done := SetStatus(processing, id, Outcome(succeeds(k)));
        assert Final(files, snapshot, succeeds, k) == Final(done, snapshot, succeeds, k + 1);
        PassOutcome(done, snapshot, succeeds, k + 1, j);
        if files[j].id == id {
          assert TouchedFrom(snapshot, k, files[j].id);
        } else if TouchedFrom(snapshot, k, files[j].id) {
          var m :| k <= m < |snapshot| && snapshot[m].status == Pending && snapshot[m].id == files[j].id;
          assert TouchedFrom(snapshot, k + 1, files[j].id);
        }
      }
    }
  }

  /** A pass leaves no pending entry behind, so Start is disabled afterwards. */
  lemma PassLeavesNoPending(q: Queue, succeeds: nat -> bool)
    ensures var f := Final(q.files, q.files, succeeds, 0);
      forall j :: 0 <= j < |f| ==> f[j].status != Pending
  {
    var f := Final(q.files, q.files, succeeds, 0);
    if q.files != [] {
      PassOutcome(q.files, q.files, succeeds, 0, 0);
    }
    forall j | 0 <= j < |f| ensures f[j].status != Pending {
      PassOutcome(q.files, q.files, succeeds, 0, j);
      if q.files[j].status == Pending {
        assert TouchedFrom(q.files, 0, q.files[j].id);
      }
    }
  }

  /** No two entries share an id. */
  predicate UniqueIds(files: seq<QueuedFile>) {
    forall i, j :: 0 <= i < j < |files| ==> files[i].id != files[j].id
  }

  /** The dropped files' ids are pairwise distinct and new to the queue. */
  predicate FreshIds(files: seq<QueuedFile>, accepted: seq<DroppedFile>) {
    && (forall i, j :: 0 <= i < j < |accepted| ==> FileId(accepted[i]) != FileId(accepted[j]))
    && (forall j, k :: 0 <= j < |files| && 0 <= k < |accepted| ==> files[j].id != FileId(accepted[k]))
  }

  /** A drop keeps the ids unique exactly when the dropped files bring fresh,
      distinct ids; dropping an already queued file (same name and
      modification time) a second time duplicates its id. */
  lemma DropKeepsUniqueIds(q: Queue, accepted: seq<DroppedFile>)
    ensures UniqueIds(OnDrop(q, accepted).files) <==> UniqueIds(q.files) && FreshIds(q.files, accepted)
  {
    if UniqueIds(OnDrop(q, accepted).files) {
      DropUniqueOnlyIfFresh(q, accepted);
    }
    if UniqueIds(q.files) && FreshIds(q.files, accepted) {
      DropUniqueIfFresh(q, accepted);
    }
  }

  /** After a drop the old entries keep their positions. */
  lemma DropKeepsPrefix(q: Queue, accepted: seq<DroppedFile>, j: nat)
    requires j < |q.files|
    ensures j < |OnDrop(q, accepted).files| && OnDrop(q, accepted).files[j] == q.files[j]
  {
    var r := OnDrop(q, accepted).files;
    assert r[..|q.files|][j] == r[j];
  }

  lemma DropUniqueOnlyIfFresh(q: Queue, accepted: seq<DroppedFile>)
    requires UniqueIds(OnDrop(q, accepted).files)
    ensures UniqueIds(q.files) && FreshIds(q.files, accepted)
  {
    var r := OnDrop(q, accepted).files;
    var n := |q.files|;
    forall i, j | 0 <= i < j < n ensures q.files[i].id != q.files[j].id {
      DropKeepsPrefix(q, accepted, i);
      DropKeepsPrefix(q, accepted, j);
    }
    forall i, j | 0 <= i < j < |accepted| ensures FileId(accepted[i]) != FileId(accepted[j]) {
      assert r[n + i].id != r[n + j].id;
    }
    forall j, k | 0 <= j < n && 0 <= k < |accepted| ensures q.files[j].id != FileId(accepted[k]) {
      DropKeepsPrefix(q, accepted, j);
      assert r[j].id != r[n + k].id;
    }
  }

  lemma DropUniqueIfFresh(q: Queue, accepted: seq<DroppedFile>)
    requires UniqueIds(q.files) && FreshIds(q.files, accepted)
    ensures UniqueIds(OnDrop(q, accepted).files)
  {
    var r := OnDrop(q, accepted).files;
    forall i, j | 0 <= i < j < |r| ensures r[i].id != r[j].id {
      DropPairDistinct(q, accepted, i, j);
    }
  }

  lemma DropPairDistinct(q: Queue, accepted: seq<DroppedFile>, i: nat, j: nat)
    requires UniqueIds(q.files) && FreshIds(q.files, accepted)
    requires i < j < |q.files| + |accepted|
    ensures OnDrop(q, accepted).files[i].id != OnDrop(q, accepted).files[j].id
  {
    var n := |q.files|;
    if j < n {
      DropKeepsPrefix(q, accepted, i);
      DropKeepsPrefix(q, accepted, j);
    } else if i < n {
      DropKeepsPrefix(q, accepted, i);
      assert q.files[i].id != FileId(accepted[j - n]);
    } else {
      assert FileId(accepted[i - n]) != FileId(accepted[j - n]);
    }
  }

  /** With unique ids each pending entry ends as its own conversion went, and
      every other entry is left alone. */
  lemma PassWithUniqueIds(q: Queue, succeeds: nat -> bool, i: nat)
    requires UniqueIds(q.files) && i < |q.files|
    ensures |Final(q.files, q.files, succeeds, 0)| == |q.files|
    ensures Final(q.files, q.files, succeeds, 0)[i] ==
      if q.files[i].status == Pending then q.files[i].(status := Outcome(succeeds(i))) else q.files[i]
  {
    UniquePass(q.files, q.files, succeeds, 0, i);
  }

  /** The induction behind `PassWithUniqueIds`: positions of `files` and of
      the snapshot agree on ids, and position `i` is touched only at step `i`. */
  lemma {:induction false} UniquePass(files: seq<QueuedFile>, snapshot: seq<QueuedFile>, succeeds: nat -> bool, k: nat, i: nat)
    requires k <= |snapshot| && UniqueIds(snapshot) && |files| == |snapshot| && i < |files|
    requires forall j :: 0 <= j < |files| ==> files[j].id == snapshot[j].id
    ensures |Final(files, snapshot, succeeds, k)| == |files|
    ensures Final(files, snapshot, succeeds, k)[i] ==
      if k <= i && snapshot[i].status == Pending then files[i].(status := Outcome(succeeds(i))) else files[i]
    decreases |snapshot| - k
  {
    if k == |snapshot| {
    } else if snapshot[k].status != Pending {
      UniquePass(files, snapshot, succeeds, k + 1, i);
    } else {
      var id := snapshot[k].id;
      var processing := SetStatus(files, id, Processing);
      var done := SetStatus(processing, id, Outcome(succeeds(k)));
      assert Final(files, snapshot, succeeds, k) == Final(done, snapshot, succeeds, k + 1);
      assert forall j :: 0 <= j < |done| ==> done[j].id == snapshot[j].id;
      UniquePass(done, snapshot, succeeds, k + 1, i);
      if i == k {
        assert done[i] == files[i].(status := Outcome(succeeds(i)));
      } else {
        assert snapshot[i].id != id;
        assert done[i] == files[i];
      }
    }
  }

  /** The status changes `processFile` makes. */
  predicate AllowedTransition(before: FileStatus, after: FileStatus) {
    || before == after
    || (before == Pending && after == Processing)
    || (before == Processing && (after == Completed || after == Error))
  }

  /** Each consecutive pair of states in `h` changes statuses only along
      allowed transitions. */
  predicate StepsAllowed(h: seq<Queue>) {
    forall n, j :: 0 <= n < |h| - 1 && 0 <= j < |h[n].files| && j < |h[n + 1].files| ==>
      AllowedTransition(h[n].files[j].status, h[n + 1].files[j].status)
  }

  /** With unique ids, every step of the pass moves each entry along
      pending -> processing -> completed | error, or leaves it alone. */
  lemma {:induction false} PassTransitions(files: seq<QueuedFile>, snapshot: seq<QueuedFile>, succeeds: nat -> bool, k: nat)
    requires k <= |snapshot| && UniqueIds(snapshot) && |files| == |snapshot|
    requires forall j :: 0 <= j < |files| ==> files[j].id == snapshot[j].id
    requires forall j :: k <= j < |files| ==> files[j].status == snapshot[j].status
    ensures StepsAllowed([Queue(files, true)] + PassFrom(files, snapshot, succeeds, k))
    decreases |snapshot| - k
  {
    var h := [Queue(files, true)] + PassFrom(files, snapshot, succeeds, k);
    if k == |snapshot| {
    } else if snapshot[k].status != Pending {
      PassTransitions(files, snapshot, succeeds, k + 1);
    } else {
      var id := snapshot[k].id;
      var processing := SetStatus(files, id, Processing);
      var done := SetStatus(processing, id, Outcome(succeeds(k)));
      var rest := [Queue(done, true)] + PassFrom(done, snapshot, succeeds, k + 1);
      assert h == [Queue(files, true), Queue(processing, true)] + rest;
      assert forall j :: 0 <= j < |done| ==> done[j].id == snapshot[j].id;
      assert forall j :: k + 1 <= j < |done| ==> done[j].status == snapshot[j].status by {
        forall j | k + 1 <= j < |done| ensures done[j].status == snapshot[j].status {
          assert snapshot[j].id != id;
        }
      }
      PassTransitions(done, snapshot, succeeds, k + 1);
      forall n, j | 0 <= n < |h| - 1 && 0 <= j < |h[n].files| && j < |h[n + 1].files|
        ensures AllowedTransition(h[n].files[j].status, h[n + 1].files[j].status)
      {
        if n >= 2 {
          assert h[n] == rest[n - 2] && h[n + 1] == rest[n - 1];
        } else if files[j].id == id {
          assert j == k;
        }
      }
    }
  }

  /** Dropping the same file twice gives two entries with one id: the pass
      processes it twice, and the second round moves the first entry from
      completed back to processing. */
  lemma DuplicateIdRetouched(f: DroppedFile, succeeds: nat -> bool)
    requires succeeds(0)
    ensures var q := OnDrop(Empty, [f, f]);
      var h := PassFrom(q.files, q.files, succeeds, 0);
      |h| == 4 && h[1].files[0].status == Completed && h[2].files[0].status == Processing
  {
    var e := QueuedFile(f, Pending, FileId(f));
    assert OnDrop(Empty, [f, f]).files == [e, e];
    TwinPass(e, succeeds);
  }

  lemma TwinPass(e: QueuedFile, succeeds: nat -> bool)
    requires e.status == Pending && succeeds(0)
    ensures var h := PassFrom([e, e], [e, e], succeeds, 0);
      |h| == 4 && h[1].files[0].status == Completed && h[2].files[0].status == Processing
  {
    var files := [e, e];
    var p1 := SetStatus(files, e.id, Processing);
    var d1 := SetStatus(p1, e.id, Completed);
    var p2 := SetStatus(d1, e.id, Processing);
    var d2 := SetStatus(p2, e.id, Outcome(succeeds(1)));
    assert PassFrom(d2, files, succeeds, 2) == [];
    assert PassFrom(d1, files, succeeds, 1) == [Queue(p2, true), Queue(d2, true)];
    assert PassFrom(files, files, succeeds, 0) == [Queue(p1, true), Queue(d1, true), Queue(p2, true), Queue(d2, true)];
    assert d1[0].status == Completed && p2[0].status == Processing;
  }
}
