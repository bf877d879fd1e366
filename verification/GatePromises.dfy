/** What no run of the protocol ever does, whoever interferes. */
module GatePromises {
  import opened ObjectReferences
  import opened GateHistory
  import opened GateProtocol
  import opened GateSafety

  /** c is annotated, and its worker does not hold an older copy of it. */
  ghost predicate Settled(s: State, c: Cluster) {
    var pc := PcOf(s, c);
    && c in s.clusters && s.clusters[c].annotated
    && (pc == ClusterIdle || pc == RemovingEntry || (pc.Checking? && pc.annotated))
  }

  /** log' extends log, and c is not inserted in the extension. */
  ghost predicate NoInsertion(log: History, log': History, c: Cluster) {
    log <= log' && forall i :: |log| <= i < |log'| && log'[i].Inserted? ==> log'[i].cluster != c
  }

  lemma SettledByEdit(s: State, e: Edit, c: Cluster)
    requires Settled(s, c) && EditEnabled(s, e) && e != DropCluster(c)
    ensures Settled(EditStep(s, e), c) && EditStep(s, e).log == s.log
  {
  }

  lemma SettledByCluster(s: State, x: Cluster, m: ClusterMove, c: Cluster)
    requires Settled(s, c) && ClusterEnabled(s, x, m)
    ensures Settled(ClusterStep(s, x, m), c) && NoInsertion(s.log, ClusterStep(s, x, m).log, c)
  {
  }

  lemma SettledByCompliance(s: State, a: Compliance, m: ComplianceMove, c: Cluster)
    requires Settled(s, c) && ComplianceEnabled(s, a, m)
    ensures Settled(ComplianceStep(s, a, m), c) && NoInsertion(s.log, ComplianceStep(s, a, m).log, c)
  {
  }

  /** An annotated cluster is never waited for again, also not after a restart, as long as it is not
      dropped: from a state with its worker at rest, no run inserts an entry for it. */
  lemma {:induction false} AnnotatedNeverInserted(s: State, acts: seq<Action>, s': State, c: Cluster)
    requires Settled(s, c) && Leads(s, acts, s') && User(DropCluster(c)) !in acts
    ensures Settled(s', c) && NoInsertion(s.log, s'.log, c)
    decreases |acts|
  {
    if acts != [] {
      match acts[0] {
        case User(e) => SettledByEdit(s, e, c);
        case ClusterWorker(x, m) => SettledByCluster(s, x, m, c);
        case ComplianceWorker(a, m) => SettledByCompliance(s, a, m, c);
        case Restart =>
      }
      AnnotatedNeverInserted(Step(s, acts[0]), acts[1..], s', c);
    }
  }

  /** a has its finalizer, and no delete reconcile of it is past its erasure. */
  ghost predicate Kept(s: State, a: Compliance) {
    Held(s, a) && !PastErase(s, a)
  }

  predicate ErasesAgain(act: Action, a: Compliance) {
    act.ComplianceWorker? && act.compliance == a && act.cmove.Erase?
  }

  lemma KeptByEdit(s: State, e: Edit, a: Compliance)
    requires Kept(s, a) && EditEnabled(s, e)
    ensures Kept(EditStep(s, e), a)
  {
  }

  lemma KeptByCluster(s: State, c: Cluster, m: ClusterMove, a: Compliance)
    requires Kept(s, a) && ClusterEnabled(s, c, m)
    ensures Kept(ClusterStep(s, c, m), a)
  {
  }

  lemma KeptByCompliance(s: State, b: Compliance, m: ComplianceMove, a: Compliance)
    requires Kept(s, a) && ComplianceEnabled(s, b, m) && !(b == a && m.Erase?)
    ensures Kept(ComplianceStep(s, b, m), a)
  {
  }

  lemma {:induction false} KeptUntilErased(s: State, acts: seq<Action>, s': State, a: Compliance)
    requires Kept(s, a) && Leads(s, acts, s') && forall act :: act in acts ==> !ErasesAgain(act, a)
    ensures Kept(s', a)
    decreases |acts|
  {
    if acts != [] {
      assert !ErasesAgain(acts[0], a);
      match acts[0] {
        case User(e) => KeptByEdit(s, e, a);
        case ClusterWorker(c, m) => KeptByCluster(s, c, m, a);
        case ComplianceWorker(b, m) => KeptByCompliance(s, b, m, a);
        case Restart =>
      }
      KeptUntilErased(Step(s, acts[0]), acts[1..], s', a);
    }
  }

  /** A delete reconcile that fails to annotate a cluster keeps the finalizer: the compliance exists until
      a later delete reconcile has erased it from the gate again. */
  lemma FailedDeleteKeepsFinalizer(s: State, a: Compliance, acts: seq<Action>, s': State)
    requires Reachable(s) && ComplianceEnabled(s, a, FailNext) && CPcOf(s, a).cause == Deleted
    requires Leads(ComplianceStep(s, a, FailNext), acts, s') && forall act :: act in acts ==> !ErasesAgain(act, a)
    ensures Held(s', a)
  {
    ReachableInv(s);
    assert ComplianceOk(s, a);
    KeptUntilErased(ComplianceStep(s, a, FailNext), acts, s', a);
  }

  /** a is being deleted, or is gone, and its worker has seen as much. */
  ghost predicate Doomed(s: State, a: Compliance) {
    (a in s.compliances ==> s.compliances[a].deleting) && (CPcOf(s, a) == ComplianceIdle || InDelete(CPcOf(s, a)))
  }

  predicate LoadEvent(e: Event, a: Compliance) {
    e == Collected(a) || e == Published(a) || e == Erased(a, Loaded)
  }

  ghost predicate NoLoad(log: History, log': History, a: Compliance) {
    log <= log' && forall i :: |log| <= i < |log'| ==> !LoadEvent(log'[i], a)
  }

  lemma DoomedByEdit(s: State, e: Edit, a: Compliance)
    requires Doomed(s, a) && EditEnabled(s, e) && e != CreateCompliance(a)
    ensures Doomed(EditStep(s, e), a) && EditStep(s, e).log == s.log
  {
  }

  lemma DoomedByCluster(s: State, c: Cluster, m: ClusterMove, a: Compliance)
    requires Doomed(s, a) && ClusterEnabled(s, c, m)
    ensures Doomed(ClusterStep(s, c, m), a) && NoLoad(s.log, ClusterStep(s, c, m).log, a)
  {
  }

  lemma DoomedByCompliance(s: State, b: Compliance, m: ComplianceMove, a: Compliance)
    requires Doomed(s, a) && ComplianceEnabled(s, b, m)
    ensures Doomed(ComplianceStep(s, b, m), a) && NoLoad(s.log, ComplianceStep(s, b, m).log, a)
  {
  }

  lemma DoomedStep(s: State, act: Action, a: Compliance)
    requires Doomed(s, a) && Enabled(s, act) && act != User(CreateCompliance(a))
    ensures Doomed(Step(s, act), a) && NoLoad(s.log, Step(s, act).log, a)
  {
    match act
    case User(e) => DoomedByEdit(s, e, a);
    case ClusterWorker(c, m) => DoomedByCluster(s, c, m, a);
    case ComplianceWorker(b, m) => DoomedByCompliance(s, b, m, a);
    case Restart =>
  }

  /** A compliance that is being deleted is not loaded any more: from a state with its worker at rest or in
      a delete reconcile, no run collects or publishes for it, or erases it as loaded, before it is
      created anew. */
  lemma {:induction false} DoomedNeverLoaded(s: State, acts: seq<Action>, s': State, a: Compliance)
    requires Doomed(s, a) && Leads(s, acts, s') && User(CreateCompliance(a)) !in acts
    ensures Doomed(s', a) && NoLoad(s.log, s'.log, a)
    decreases |acts|
  {
    if acts != [] {
      DoomedStep(s, acts[0], a);
      DoomedNeverLoaded(Step(s, acts[0]), acts[1..], s', a);
    }
  }

  ghost predicate Logged(log: History, c: Cluster, u: nat) {
    exists i :: 0 <= i < |log| && log[i] == Annotated(c, u)
  }

  lemma LoggedSnoc(log: History, e: Event, c: Cluster, u: nat)
    ensures Logged(log + [e], c, u) <==> Logged(log, c, u) || e == Annotated(c, u)
  {
    var log' := log + [e];
    if i :| 0 <= i < |log| && log[i] == Annotated(c, u) {
      assert log'[i] == Annotated(c, u);
    }
    if e == Annotated(c, u) {
      assert log'[|log|] == Annotated(c, u);
    }
    if i :| 0 <= i < |log'| && log'[i] == Annotated(c, u) {
      assert i < |log| ==> log[i] == Annotated(c, u);
    }
  }

  ghost predicate AnnotatedOk(s: State, c: Cluster) {
    c in s.clusters ==> (s.clusters[c].annotated <==> Logged(s.log, c, s.clusters[c].incarnation))
  }

  lemma AnnotatedByEdit(s: State, e: Edit, c: Cluster)
    requires IncarnationsOk(s) && AnnotatedOk(s, c) && EditEnabled(s, e)
    ensures AnnotatedOk(EditStep(s, e), c)
  {
    EditLeavesHistory(s, e);
  }

  lemma AnnotatedByCluster(s: State, x: Cluster, m: ClusterMove, c: Cluster)
    requires AnnotatedOk(s, c) && ClusterEnabled(s, x, m)
    ensures AnnotatedOk(ClusterStep(s, x, m), c)
  {
    var s' := ClusterStep(s, x, m);
    if s'.log != s.log && c in s.clusters {
      LoggedSnoc(s.log, s'.log[|s.log|], c, s.clusters[c].incarnation);
    }
  }

  lemma AnnotatedByCompliance(s: State, a: Compliance, m: ComplianceMove, c: Cluster)
    requires AnnotatedOk(s, c) && ComplianceEnabled(s, a, m)
    ensures AnnotatedOk(ComplianceStep(s, a, m), c)
  {
    var s' := ComplianceStep(s, a, m);
    if s'.log != s.log && c in s.clusters {
      LoggedSnoc(s.log, s'.log[|s.log|], c, s.clusters[c].incarnation);
    }
  }

  lemma {:induction false} AnnotatedOverRun(s: State, acts: seq<Action>, s': State)
    requires Inv(s) && (forall c :: AnnotatedOk(s, c)) && Leads(s, acts, s')
    ensures forall c :: AnnotatedOk(s', c)
    decreases |acts|
  {
    if acts != [] {
      var mid := Step(s, acts[0]);
      forall c ensures AnnotatedOk(mid, c) {
        assert AnnotatedOk(s, c);
        match acts[0] {
          case User(e) => AnnotatedByEdit(s, e, c);
          case ClusterWorker(x, m) => AnnotatedByCluster(s, x, m, c);
          case ComplianceWorker(a, m) => AnnotatedByCompliance(s, a, m, c);
          case Restart =>
            if c in s.clusters {
              LoggedSnoc(s.log, Restarted, c, s.clusters[c].incarnation);
            }
        }
      }
      InvStep(s, acts[0]);
      AnnotatedOverRun(mid, acts[1..], s');
    }
  }

  /** In every run, a cluster carries the annotation if and only if the history has an annotation of this
      very incarnation: what is proved about annotations in the history holds of the API server. */
  lemma AnnotatedIffLogged(s: State, c: Cluster)
    requires Reachable(s) && c in s.clusters
    ensures s.clusters[c].annotated <==> Logged(s.log, c, s.clusters[c].incarnation)
  {
    var acts :| Leads(INIT, acts, s);
    AnnotatedOverRun(INIT, acts, s);
    assert AnnotatedOk(s, c);
  }
}
