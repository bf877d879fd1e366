/** Incarnations in the gate protocol: whose snapshot an entry holds when names are used again. */
module GateIncarnations {
  import opened ObjectReferences
  import opened GateHistory
  import opened GateProtocol
  import opened GateSafety
  import G = ReadinessGate

  /** The cluster of this name that exists, if any, is not the one inserted last, unless it is being
      deleted. */
  ghost predicate NotInserted(s: State, c: Cluster) {
    c in s.clusters ==> s.clusters[c].deleting || s.clusters[c].incarnation > LastInc(s.log, c)
  }

  ghost predicate IncOk(s: State, c: Cluster) {
    var pc := PcOf(s, c);
    && Inserts(s.log, c) <= LastInc(s.log, c) <= Born(s, c)
    && (c in s.gate ==> Inserts(s.log, c) >= 1)
    && (c !in s.gate || pc == RemovingEntry ==> NotInserted(s, c))
    && (c !in s.gate && (pc.Checking? || pc.Listing? || pc.Inserting?) ==> pc.incarnation > LastInc(s.log, c))
  }

  /** Within one life of the process, later insertions for a cluster are for later incarnations. */
  ghost predicate InsertionsRise(log: History) {
    forall i, j ::
      && 0 <= i < j < |log| && log[i].Inserted? && log[j].Inserted?
      && log[i].cluster == log[j].cluster && NoRestart(log, i, j)
      ==> log[i].incarnation < log[j].incarnation
  }

  lemma IncKeptByEdit(s: State, e: Edit, c: Cluster)
    requires IncOk(s, c) && EditEnabled(s, e)
    ensures IncOk(EditStep(s, e), c)
  {
  }

  /** A step that does nothing to c's entry, and nothing to undo c's deletion. */
  ghost predicate LeavesEntry(s: State, s': State, c: Cluster) {
    && Born(s', c) == Born(s, c) && PcOf(s', c) == PcOf(s, c)
    && (c in s'.gate <==> c in s.gate)
    && (c in s'.clusters <==> c in s.clusters)
    && (c in s.clusters ==> s'.clusters[c].deleting == s.clusters[c].deleting
                            && s'.clusters[c].incarnation == s.clusters[c].incarnation)
    && (s'.log == s.log
        || (|s'.log| == |s.log| + 1 && s'.log == s.log + [s'.log[|s.log|]] && Foreign(s'.log[|s.log|], c)))
  }

  predicate Foreign(e: Event, c: Cluster) {
    e != Restarted && (e.Inserted? || e.Removed? ==> e.cluster != c)
  }

  lemma HistoryElsewhere(s: State, s': State, c: Cluster)
    requires LeavesEntry(s, s', c)
    ensures Inserts(s'.log, c) == Inserts(s.log, c) && LastInc(s'.log, c) == LastInc(s.log, c)
    ensures DroppedSince(s.log, c) ==> DroppedSince(s'.log, c)
  {
    if s'.log != s.log {
      HistorySnoc(s.log, s'.log[|s.log|], c);
    }
  }

  lemma IncKeptElsewhere(s: State, s': State, c: Cluster)
    requires IncOk(s, c) && LeavesEntry(s, s', c)
    ensures IncOk(s', c)
  {
    HistoryElsewhere(s, s', c);
  }

  /** Of other clusters, a cluster's worker changes nothing. */
  lemma ClusterLeavesOthers(s: State, c: Cluster, m: ClusterMove, x: Cluster)
    requires ClusterEnabled(s, c, m) && x != c
    ensures LeavesEntry(s, ClusterStep(s, c, m), x)
    ensures x in s.gate ==> ClusterStep(s, c, m).gate[x] == s.gate[x]
    ensures Unannotated(ClusterStep(s, c, m), x) == Unannotated(s, x)
  {
  }

  lemma ComplianceLeavesEntries(s: State, a: Compliance, m: ComplianceMove, x: Cluster)
    requires ComplianceEnabled(s, a, m)
    ensures LeavesEntry(s, ComplianceStep(s, a, m), x)
  {
  }

  lemma IncKeptByOwn(s: State, c: Cluster, m: ClusterMove)
    requires ClusterOk(s, c) && IncOk(s, c) && ClusterEnabled(s, c, m)
    ensures IncOk(ClusterStep(s, c, m), c)
  {
    var s' := ClusterStep(s, c, m);
    if s'.log != s.log {
      HistorySnoc(s.log, s'.log[|s.log|], c);
    }
  }

  lemma IncKeptByRestart(s: State, c: Cluster)
    requires ApiOk(s)
    ensures IncOk(RestartStep(s), c)
  {
    HistorySnoc(s.log, Restarted, c);
  }

  lemma {:induction false} InsertedUpToLast(log: History, c: Cluster, i: int)
    requires InsertionsRise(log) && 0 <= i < |log| && log[i].Inserted? && log[i].cluster == c
             && NoRestart(log, i, |log|)
    ensures log[i].incarnation <= LastInc(log, c)
    ensures log[i].incarnation == LastInc(log, c) ==>
              forall j :: i < j < |log| && log[j].Inserted? ==> log[j].cluster != c
  {
    var n := |log| - 1;
    assert log[n] != Restarted;
    if i < n && !(log[n].Inserted? && log[n].cluster == c) {
      InsertedUpToLast(log[..n], c, i);
    }
  }

  lemma InsertionsRiseSnoc(log: History, e: Event)
    requires InsertionsRise(log)
    requires e.Inserted? ==> e.incarnation > LastInc(log, e.cluster)
    ensures InsertionsRise(log + [e])
  {
    var log' := log + [e];
    forall i, j | 0 <= i < j < |log'| && log'[i].Inserted? && log'[j].Inserted? && log'[i].cluster == log'[j].cluster
        && NoRestart(log', i, j)
      ensures log'[i].incarnation < log'[j].incarnation
    {
      assert NoRestart(log, i, j) by {
        assert forall k :: i <= k < j ==> log[k] == log'[k];
      }
      if j == |log| {
        InsertedUpToLast(log, e.cluster, i);
      }
    }
  }

  ghost predicate NamesOk(s: State) {
    InsertionsRise(s.log) && forall c :: IncOk(s, c)
  }

  lemma NamesKeptByCluster(s: State, c: Cluster, m: ClusterMove)
    requires ClusterOk(s, c) && NamesOk(s) && ClusterEnabled(s, c, m)
    ensures NamesOk(ClusterStep(s, c, m))
  {
    var s' := ClusterStep(s, c, m);
    assert IncOk(s, c);
    if s'.log != s.log {
      InsertionsRiseSnoc(s.log, s'.log[|s.log|]);
    }
    forall x ensures IncOk(s', x) {
      assert IncOk(s, x);
      if x == c {
        IncKeptByOwn(s, c, m);
      } else {
        ClusterLeavesOthers(s, c, m, x);
        IncKeptElsewhere(s, s', x);
      }
    }
  }

  lemma NamesKeptByCompliance(s: State, a: Compliance, m: ComplianceMove)
    requires NamesOk(s) && ComplianceEnabled(s, a, m)
    ensures NamesOk(ComplianceStep(s, a, m))
  {
    var s' := ComplianceStep(s, a, m);
    if s'.log != s.log {
      InsertionsRiseSnoc(s.log, s'.log[|s.log|]);
    }
    forall x ensures IncOk(s', x) {
      assert IncOk(s, x);
      ComplianceLeavesEntries(s, a, m, x);
      IncKeptElsewhere(s, s', x);
    }
  }

  lemma NamesStep(s: State, act: Action)
    requires Inv(s) && NamesOk(s) && Enabled(s, act)
    ensures NamesOk(Step(s, act))
  {
    match act
    case User(e) =>
      assert EditStep(s, e).log == s.log by {
        EditLeavesHistory(s, e);
      }
      forall x ensures IncOk(EditStep(s, e), x) {
        assert IncOk(s, x);
        IncKeptByEdit(s, e, x);
      }
    case ClusterWorker(c, m) =>
      assert ClusterOk(s, c);
      NamesKeptByCluster(s, c, m);
    case ComplianceWorker(a, m) => NamesKeptByCompliance(s, a, m);
    case Restart =>
      InsertionsRiseSnoc(s.log, Restarted);
      forall x ensures IncOk(RestartStep(s), x) {
        IncKeptByRestart(s, x);
      }
  }

  lemma {:induction false} NamesOverRun(s: State, acts: seq<Action>, s': State)
    requires Inv(s) && NamesOk(s) && Leads(s, acts, s')
    ensures Inv(s') && NamesOk(s')
    decreases |acts|
  {
    if acts != [] {
      NamesStep(s, acts[0]);
      InvStep(s, acts[0]);
      NamesOverRun(Step(s, acts[0]), acts[1..], s');
    }
  }

  lemma ReachableNames(s: State)
    requires Reachable(s)
    ensures Inv(s) && NamesOk(s)
  {
    var acts :| Leads(INIT, acts, s);
    NamesOverRun(INIT, acts, s);
  }

  /** In every run, each incarnation of a cluster is inserted at most once in each life of the process,
      and never after a later one; so a cluster is inserted no more often than its name is used. */
  lemma InsertedOncePerIncarnation(s: State, c: Cluster)
    requires Reachable(s)
    ensures InsertionsRise(s.log) && Inserts(s.log, c) <= Born(s, c)
  {
    ReachableNames(s);
    assert IncOk(s, c);
  }

  /** Annotating the present cluster of this name now is justified by a snapshot taken for that very
      cluster. */
  ghost predicate OwnJustified(s: State, c: Cluster) {
    c in s.clusters
    && exists j :: JustifiedBy(s.log, |s.log|, c, j) && s.log[j].incarnation == s.clusters[c].incarnation
  }

  /** In every run, and whoever is about to make it, an annotation of a cluster that has an entry, or is
      not being deleted, rests on the cluster's own snapshot if and only if there is an entry, it has run
      empty, and the cluster is the incarnation inserted last. */
  lemma OwnSnapshotIff(s: State, c: Cluster)
    requires Reachable(s) && c in s.clusters && (c in s.gate || !s.clusters[c].deleting)
    ensures OwnJustified(s, c) <==> c in s.gate && s.gate[c] == {} && LastInc(s.log, c) == s.clusters[c].incarnation
  {
    ReachableNames(s);
    assert IncOk(s, c) && s.clusters[c].incarnation == Born(s, c);
    if c in s.gate {
      var k := EntryOrigin(s.log, c);
      if s.gate[c] == {} && LastInc(s.log, c) == s.clusters[c].incarnation {
        assert JustifiedBy(s.log, |s.log|, c, k);
      }
    }
    if OwnJustified(s, c) {
      var j :| JustifiedBy(s.log, |s.log|, c, j) && s.log[j].incarnation == s.clusters[c].incarnation;
      InsertedUpToLast(s.log, c, j);
      assert c in s.gate;
      var k := EntryOrigin(s.log, c);
      assert j == k;
      assert s.gate[c] == {} by {
        assert forall a :: a !in s.gate[c];
      }
    }
  }
}
