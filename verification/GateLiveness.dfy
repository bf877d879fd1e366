/** When a waiting cluster is still going to be annotated, and when it never will be. */
module GateLiveness {
  import opened ObjectReferences
  import opened GateHistory
  import opened GateProtocol
  import opened GateSafety
  import opened GateIncarnations
  import G = ReadinessGate

  ghost predicate Pending(s: State, a: Compliance, c: Cluster) {
    CPcOf(s, a).Annotating? && c in CPcOf(s, a).pending
  }

  ghost predicate OwnToken(s: State, c: Cluster) {
    PcOf(s, c) == Counting || PcOf(s, c) == AnnotatingOwn
  }

  /** Some worker is on its way to annotating c. */
  ghost predicate Token(s: State, c: Cluster) {
    OwnToken(s, c) || exists a :: Pending(s, a, c)
  }

  /** A worker holds c only once an entry for c has run empty; as long as c has been inserted only once,
      no two compliance workers hold it. */
  ghost predicate PendingOk(s: State, c: Cluster) {
    && ((exists a :: Pending(s, a, c)) ==>
          Inserts(s.log, c) >= 1 && (Inserts(s.log, c) == 1 && c in s.gate ==> s.gate[c] == {}))
    && (Inserts(s.log, c) <= 1 ==> forall a, b :: Pending(s, a, c) && Pending(s, b, c) ==> a == b)
  }

  /** No wake-up is lost: an empty entry that was inserted for the present cluster means that it is
      annotated, or that a worker is about to annotate it, or that an annotation of it has failed. */
  ghost predicate WakeOk(s: State, c: Cluster) {
    c in s.gate && s.gate[c] == {} && Unannotated(s, c) && LastInc(s.log, c) == s.clusters[c].incarnation ==>
      Token(s, c) || DroppedSince(s.log, c)
  }

  ghost predicate CrowdOk(s: State) {
    forall c :: PendingOk(s, c) && WakeOk(s, c)
  }

  lemma ClusterLeavesCompliances(s: State, c: Cluster, m: ClusterMove)
    requires ClusterEnabled(s, c, m)
    ensures ClusterStep(s, c, m).compliancePcs == s.compliancePcs
  {
  }

  lemma SamePending(s: State, s': State, x: Cluster)
    requires s'.compliancePcs == s.compliancePcs
    ensures forall a :: Pending(s', a, x) <==> Pending(s, a, x)
    ensures (exists a :: Pending(s', a, x)) <==> exists a :: Pending(s, a, x)
  {
  }

  lemma PendingKeptElsewhere(s: State, s': State, x: Cluster)
    requires PendingOk(s, x) && LeavesEntry(s, s', x) && s'.compliancePcs == s.compliancePcs
    requires x in s.gate ==> s'.gate[x] == s.gate[x]
    ensures PendingOk(s', x)
  {
    SamePending(s, s', x);
    HistoryElsewhere(s, s', x);
  }

  lemma PendingKeptByOwn(s: State, c: Cluster, m: ClusterMove)
    requires PendingOk(s, c) && ClusterEnabled(s, c, m)
    ensures PendingOk(ClusterStep(s, c, m), c)
  {
    var s' := ClusterStep(s, c, m);
    ClusterLeavesCompliances(s, c, m);
    SamePending(s, s', c);
    if s'.log != s.log {
      HistorySnoc(s.log, s'.log[|s.log|], c);
    }
  }

  /** A compliance's worker takes up a cluster only as it erases the last of its entry. */
  lemma NewlyPending(s: State, a: Compliance, m: ComplianceMove, b: Compliance, x: Cluster)
    requires ComplianceEnabled(s, a, m) && Pending(ComplianceStep(s, a, m), b, x) && !Pending(s, b, x)
    ensures x in s.gate && s.gate[x] != {} && x in ComplianceStep(s, a, m).gate && ComplianceStep(s, a, m).gate[x] == {}
    ensures a == b
  {
    if m.Erase? {
      assert x in G.Freed(s.gate, a);
      assert a in s.gate[x];
    }
  }

  lemma EntryShrinks(s: State, a: Compliance, m: ComplianceMove, x: Cluster)
    requires ComplianceEnabled(s, a, m) && x in s.gate
    ensures x in ComplianceStep(s, a, m).gate && ComplianceStep(s, a, m).gate[x] <= s.gate[x]
  {
  }

  lemma PendingKeptByCompliance(s: State, a: Compliance, m: ComplianceMove, x: Cluster)
    requires IncOk(s, x) && PendingOk(s, x) && ComplianceEnabled(s, a, m)
    ensures PendingOk(ComplianceStep(s, a, m), x)
  {
    var s' := ComplianceStep(s, a, m);
    ComplianceLeavesEntries(s, a, m, x);
    HistoryElsewhere(s, s', x);
    if b :| Pending(s', b, x) && !Pending(s, b, x) {
      NewlyPending(s, a, m, b, x);
      forall b', b'' | Pending(s', b', x) && Pending(s', b'', x) && Inserts(s.log, x) <= 1 ensures b' == b'' {
        if !Pending(s, b', x) {
          NewlyPending(s, a, m, b', x);
        }
        if !Pending(s, b'', x) {
          NewlyPending(s, a, m, b'', x);
        }
      }
    } else if x in s.gate {
      EntryShrinks(s, a, m, x);
    }
  }

  /** A token for x is used up only by annotating x, by finding it annotated or gone, or by failing. */
  lemma TokenMoves(s: State, a: Compliance, m: ComplianceMove, x: Cluster)
    requires ComplianceEnabled(s, a, m) && Token(s, x)
    ensures Token(ComplianceStep(s, a, m), x) || !Unannotated(ComplianceStep(s, a, m), x)
            || (m.FailNext? && x in CPcOf(s, a).pending)
  {
    var s' := ComplianceStep(s, a, m);
    if OwnToken(s, x) {
      assert OwnToken(s', x);
    } else {
      var b :| Pending(s, b, x);
      if b != a {
        assert Pending(s', b, x);
      } else if m.AnnotateNext? || m.SkipNext? {
        if x != CPcOf(s, a).pending[0] {
          assert Pending(s', a, x);
        }
      }
    }
  }

  lemma WakeKeptByEdit(s: State, e: Edit, x: Cluster)
    requires ApiOk(s) && IncOk(s, x) && WakeOk(s, x) && EditEnabled(s, e)
    ensures WakeOk(EditStep(s, e), x)
  {
    var s' := EditStep(s, e);
    EditLeavesHistory(s, e);
    SamePending(s, s', x);
  }

  lemma WakeKeptElsewhere(s: State, s': State, x: Cluster)
    requires WakeOk(s, x) && LeavesEntry(s, s', x) && s'.compliancePcs == s.compliancePcs
    requires (x in s.gate ==> s'.gate[x] == s.gate[x]) && Unannotated(s', x) == Unannotated(s, x)
    ensures WakeOk(s', x)
  {
    SamePending(s, s', x);
    HistoryElsewhere(s, s', x);
  }

  lemma WakeKeptByOwn(s: State, c: Cluster, m: ClusterMove)
    requires ClusterOk(s, c) && WakeOk(s, c) && ClusterEnabled(s, c, m)
    ensures WakeOk(ClusterStep(s, c, m), c)
  {
    var s' := ClusterStep(s, c, m);
    ClusterLeavesCompliances(s, c, m);
    SamePending(s, s', c);
    if s'.log != s.log {
      HistorySnoc(s.log, s'.log[|s.log|], c);
    }
  }

  /** Erasing the last of an entry hands its cluster to the eraser. */
  lemma EmptiedIsPending(s: State, a: Compliance, m: ComplianceMove, x: Cluster)
    requires ComplianceEnabled(s, a, m) && x in s.gate && s.gate[x] != {} && ComplianceStep(s, a, m).gate[x] == {}
    ensures Pending(ComplianceStep(s, a, m), a, x)
  {
    assert m.Erase?;
    assert s.gate[x] == {a};
    assert x in G.Freed(s.gate, a);
  }

  lemma FailureIsLogged(s: State, a: Compliance, x: Cluster)
    requires ComplianceEnabled(s, a, FailNext) && x in CPcOf(s, a).pending
    ensures DroppedSince(ComplianceStep(s, a, FailNext).log, x)
  {
    HistorySnoc(s.log, AnnotateFailed(CPcOf(s, a).pending), x);
  }

  lemma WakeKeptByCompliance(s: State, a: Compliance, m: ComplianceMove, x: Cluster)
    requires WakeOk(s, x) && ComplianceEnabled(s, a, m)
    ensures WakeOk(ComplianceStep(s, a, m), x)
  {
    var s' := ComplianceStep(s, a, m);
    ComplianceLeavesEntries(s, a, m, x);
    HistoryElsewhere(s, s', x);
    if x in s.gate && s'.gate[x] == {} && Unannotated(s', x) {
      ComplianceAnnotatesOnly(s, a, m, x);
      if s.gate[x] != {} {
        EmptiedIsPending(s, a, m, x);
      } else if Token(s, x) {
        TokenMoves(s, a, m, x);
        if m.FailNext? && x in CPcOf(s, a).pending {
          FailureIsLogged(s, a, x);
        }
      }
    }
  }

  lemma ComplianceAnnotatesOnly(s: State, a: Compliance, m: ComplianceMove, x: Cluster)
    requires ComplianceEnabled(s, a, m) && Unannotated(ComplianceStep(s, a, m), x)
    ensures Unannotated(s, x) && s.clusters[x] == ComplianceStep(s, a, m).clusters[x]
  {
  }

  lemma CrowdStep(s: State, act: Action)
    requires Inv(s) && NamesOk(s) && CrowdOk(s) && Enabled(s, act)
    ensures CrowdOk(Step(s, act))
  {
    match act
    case User(e) =>
      forall x ensures PendingOk(EditStep(s, e), x) && WakeOk(EditStep(s, e), x) {
        assert IncOk(s, x) && PendingOk(s, x) && WakeOk(s, x);
        PendingKeptByEdit(s, e, x);
        WakeKeptByEdit(s, e, x);
      }
    case ClusterWorker(c, m) =>
      assert ClusterOk(s, c);
      forall x ensures PendingOk(ClusterStep(s, c, m), x) && WakeOk(ClusterStep(s, c, m), x) {
        assert PendingOk(s, x) && WakeOk(s, x);
        if x == c {
          PendingKeptByOwn(s, c, m);
          WakeKeptByOwn(s, c, m);
        } else {
          ClusterLeavesOthers(s, c, m, x);
          ClusterLeavesCompliances(s, c, m);
          PendingKeptElsewhere(s, ClusterStep(s, c, m), x);
          WakeKeptElsewhere(s, ClusterStep(s, c, m), x);
        }
      }
    case ComplianceWorker(a, m) =>
      forall x ensures PendingOk(ComplianceStep(s, a, m), x) && WakeOk(ComplianceStep(s, a, m), x) {
        assert IncOk(s, x) && PendingOk(s, x) && WakeOk(s, x);
        PendingKeptByCompliance(s, a, m, x);
        WakeKeptByCompliance(s, a, m, x);
      }
    case Restart =>
      forall x ensures PendingOk(RestartStep(s), x) && WakeOk(RestartStep(s), x) {
        HistorySnoc(s.log, Restarted, x);
      }
  }

  lemma PendingKeptByEdit(s: State, e: Edit, x: Cluster)
    requires PendingOk(s, x) && EditEnabled(s, e)
    ensures PendingOk(EditStep(s, e), x)
  {
    EditLeavesHistory(s, e);
    SamePending(s, EditStep(s, e), x);
  }

  lemma {:induction false} CrowdOverRun(s: State, acts: seq<Action>, s': State)
    requires Inv(s) && NamesOk(s) && CrowdOk(s) && Leads(s, acts, s')
    ensures Inv(s') && NamesOk(s') && CrowdOk(s')
    decreases |acts|
  {
    if acts != [] {
      InvStep(s, acts[0]);
      NamesStep(s, acts[0]);
      CrowdStep(s, acts[0]);
      CrowdOverRun(Step(s, acts[0]), acts[1..], s');
    }
  }

  lemma ReachableCrowd(s: State)
    requires Reachable(s)
    ensures Inv(s) && NamesOk(s) && CrowdOk(s)
  {
    var acts :| Leads(INIT, acts, s);
    CrowdOverRun(INIT, acts, s);
  }

  /** In every run, also one that uses names again: if the entry has run empty, was last inserted for
      the cluster that is there, and no annotation of the cluster has failed since, then the cluster is
      annotated or some worker is about to annotate it. */
  lemma NoLostWakeUp(s: State, c: Cluster)
    requires Reachable(s) && c in s.gate && s.gate[c] == {} && !DroppedSince(s.log, c)
    requires c in s.clusters && LastInc(s.log, c) == s.clusters[c].incarnation
    ensures s.clusters[c].annotated || Token(s, c)
  {
    ReachableCrowd(s);
    assert WakeOk(s, c);
  }

  /** As long as a cluster has been inserted only once in this life of the process, at most one
      compliance's worker holds it. */
  lemma OneHolder(s: State, c: Cluster, a: Compliance, b: Compliance)
    requires Reachable(s) && Inserts(s.log, c) <= 1 && Pending(s, a, c) && Pending(s, b, c)
    ensures a == b && (c in s.gate ==> s.gate[c] == {})
  {
    ReachableCrowd(s);
    assert PendingOk(s, c);
  }

  /** The entry has run empty and nobody is on the way. */
  ghost predicate Stuck(s: State, c: Cluster) {
    c in s.gate && s.gate[c] == {} && !Token(s, c)
  }

  /** Neither a restart nor the removal of c's entry. */
  predicate Keeps(act: Action, c: Cluster) {
    act != Restart && act != ClusterWorker(c, RemoveEntry)
  }

  /** log' extends log, and c is not annotated in the extension. */
  ghost predicate Silent(log: History, log': History, c: Cluster) {
    log <= log' && forall i :: |log| <= i < |log'| && log'[i].Annotated? ==> log'[i].cluster != c
  }

  lemma StuckByEdit(s: State, e: Edit, c: Cluster)
    requires Stuck(s, c) && EditEnabled(s, e)
    ensures Stuck(EditStep(s, e), c) && EditStep(s, e).log == s.log
  {
    assert forall a :: Pending(EditStep(s, e), a, c) <==> Pending(s, a, c);
  }

  lemma StuckByCluster(s: State, x: Cluster, m: ClusterMove, c: Cluster)
    requires ClusterOk(s, c) && Stuck(s, c) && ClusterEnabled(s, x, m) && !(x == c && m.RemoveEntry?)
    ensures Stuck(ClusterStep(s, x, m), c)
    ensures Silent(s.log, ClusterStep(s, x, m).log, c)
  {
    assert forall a :: Pending(ClusterStep(s, x, m), a, c) <==> Pending(s, a, c);
  }

  lemma HolderAnnotates(s: State, a: Compliance, m: ComplianceMove, c: Cluster)
    requires ComplianceEnabled(s, a, m) && !Pending(s, a, c)
    ensures Silent(s.log, ComplianceStep(s, a, m).log, c)
  {
  }

  lemma OwnerUntouched(s: State, a: Compliance, m: ComplianceMove)
    requires ComplianceEnabled(s, a, m)
    ensures ComplianceStep(s, a, m).clusterPcs == s.clusterPcs
  {
  }

  lemma StuckByCompliance(s: State, a: Compliance, m: ComplianceMove, c: Cluster)
    requires Stuck(s, c) && ComplianceEnabled(s, a, m)
    ensures Stuck(ComplianceStep(s, a, m), c)
    ensures Silent(s.log, ComplianceStep(s, a, m).log, c)
  {
    var s' := ComplianceStep(s, a, m);
    assert !Pending(s, a, c);
    HolderAnnotates(s, a, m, c);
    OwnerUntouched(s, a, m);
    EntryShrinks(s, a, m, c);
    forall b ensures !Pending(s', b, c) {
      if Pending(s', b, c) && !Pending(s, b, c) {
        NewlyPending(s, a, m, b, c);
      }
    }
  }

  lemma StuckStep(s: State, act: Action, c: Cluster)
    requires Inv(s) && Stuck(s, c) && Enabled(s, act) && Keeps(act, c)
    ensures Stuck(Step(s, act), c) && Silent(s.log, Step(s, act).log, c)
  {
    assert ClusterOk(s, c);
    match act
    case User(e) => StuckByEdit(s, e, c);
    case ClusterWorker(x, m) => StuckByCluster(s, x, m, c);
    case ComplianceWorker(a, m) => StuckByCompliance(s, a, m, c);
  }

  /** A stuck cluster is never annotated again, until its entry is removed or the process restarts. */
  lemma {:induction false} StuckForGood(s: State, acts: seq<Action>, s': State, c: Cluster)
    requires Inv(s) && Stuck(s, c) && Leads(s, acts, s') && forall act :: act in acts ==> Keeps(act, c)
    ensures Stuck(s', c) && Silent(s.log, s'.log, c)
    decreases |acts|
  {
    if acts != [] {
      StuckStep(s, acts[0], c);
      InvStep(s, acts[0]);
      StuckForGood(Step(s, acts[0]), acts[1..], s', c);
    }
  }

  /** acts lead from s to s' with no restart and no removal of c's entry, and annotate c. */
  ghost predicate Annotates(s: State, acts: seq<Action>, s': State, c: Cluster) {
    && (forall act :: act in acts ==> Keeps(act, c))
    && Leads(s, acts, s') && s.log <= s'.log && !Silent(s.log, s'.log, c)
  }

  ghost predicate Awakens(s: State, acts: seq<Action>, c: Cluster) {
    exists s' :: Annotates(s, acts, s', c)
  }

  lemma AnnotatesLater(s: State, act: Action, rest: seq<Action>, s': State, c: Cluster)
    requires Enabled(s, act) && Keeps(act, c) && Annotates(Step(s, act), rest, s', c) && s.log <= Step(s, act).log
    ensures Annotates(s, [act] + rest, s', c)
  {
    var mid := Step(s, act);
    assert ([act] + rest)[1..] == rest;
    var i :| |mid.log| <= i < |s'.log| && s'.log[i].Annotated? && s'.log[i].cluster == c;
    assert !Silent(s.log, s'.log, c);
  }

  lemma AnnotatedIsHeard(log: History, c: Cluster, u: nat)
    ensures log <= log + [Annotated(c, u)] && !Silent(log, log + [Annotated(c, u)], c)
  {
    assert (log + [Annotated(c, u)])[|log|].Annotated?;
  }

  lemma AnnotatesBy(s: State, acts: seq<Action>, s': State, u: nat, c: Cluster)
    requires Leads(s, acts, s') && (forall act :: act in acts ==> Keeps(act, c)) && s'.log == s.log + [Annotated(c, u)]
    ensures Annotates(s, acts, s', c)
  {
    AnnotatedIsHeard(s.log, c, u);
  }

  lemma AnnotatesNow(s: State, act: Action, s': State, u: nat, c: Cluster)
    requires Enabled(s, act) && Keeps(act, c) && s' == Step(s, act) && s'.log == s.log + [Annotated(c, u)]
    ensures Annotates(s, [act], s', c)
  {
    LeadsOne(s, act);
    AnnotatesBy(s, [act], s', u, c);
  }

  lemma OwnTokenAwakens(s: State, c: Cluster) returns (acts: seq<Action>)
    requires c in s.gate && s.gate[c] == {} && Unannotated(s, c) && OwnToken(s, c)
    ensures Awakens(s, acts, c)
  {
    var annotate := ClusterWorker(c, AnnotateOwn);
    if PcOf(s, c) == Counting {
      var mid := ClusterStep(s, c, CountNone);
      assert mid.log == s.log && PcOf(mid, c) == AnnotatingOwn && Unannotated(mid, c);
      AnnotatesNow(mid, annotate, ClusterStep(mid, c, AnnotateOwn), mid.clusters[c].incarnation, c);
      AnnotatesLater(s, ClusterWorker(c, CountNone), [annotate], ClusterStep(mid, c, AnnotateOwn), c);
      acts := [ClusterWorker(c, CountNone)] + [annotate];
    } else {
      AnnotatesNow(s, annotate, ClusterStep(s, c, AnnotateOwn), s.clusters[c].incarnation, c);
      acts := [annotate];
    }
  }

  /** Only this compliance's worker acts. */
  predicate ByWorker(acts: seq<Action>, a: Compliance) {
    forall act :: act in acts ==> act.ComplianceWorker? && act.compliance == a
  }

  /** A worker that holds c goes on to annotate it, and meanwhile no entry changes. */
  lemma {:induction false} PendingAnnotates(s: State, a: Compliance, c: Cluster) returns (acts: seq<Action>, s': State)
    requires Pending(s, a, c) && Unannotated(s, c)
    ensures Annotates(s, acts, s', c) && ByWorker(acts, a) && s'.gate == s.gate
    decreases |CPcOf(s, a).pending|
  {
    var head := CPcOf(s, a).pending[0];
    var m := if Unannotated(s, head) then AnnotateNext else SkipNext;
    var act := ComplianceWorker(a, m);
    var mid := ComplianceStep(s, a, m);
    assert mid.gate == s.gate;
    if head == c {
      AnnotatesNow(s, act, mid, s.clusters[c].incarnation, c);
      acts, s' := [act], mid;
    } else {
      assert CPcOf(mid, a).pending == CPcOf(s, a).pending[1..];
      var rest;
      rest, s' := PendingAnnotates(mid, a, c);
      AnnotatesLater(s, act, rest, s', c);
      acts := [act] + rest;
    }
  }

  /** Once an entry has run empty, its cluster can still come to be annotated, short of a restart or
      of the entry's removal, exactly when some worker is already on the way to it. */
  lemma AwakensIffToken(s: State, c: Cluster)
    requires Reachable(s) && c in s.gate && s.gate[c] == {} && Unannotated(s, c)
    ensures (exists acts :: Awakens(s, acts, c)) <==> Token(s, c)
  {
    ReachableInv(s);
    if OwnToken(s, c) {
      var acts := OwnTokenAwakens(s, c);
    } else if Token(s, c) {
      var a :| Pending(s, a, c);
      var acts, s' := PendingAnnotates(s, a, c);
      assert Awakens(s, acts, c);
    } else {
      forall acts ensures !Awakens(s, acts, c) {
        if Awakens(s, acts, c) {
          var s' :| Annotates(s, acts, s', c);
          StuckForGood(s, acts, s', c);
        }
      }
    }
  }

  /** The failure of a compliance worker's annotation leaves a cluster whose entry has run empty beyond
      reach, short of a restart or of the entry's removal, unless the cluster's own worker or another
      compliance's is on the way to it; and while it has been inserted only once, no other compliance's
      worker is. */
  lemma FailureSticksIff(s: State, a: Compliance, c: Cluster)
    requires Reachable(s) && ComplianceEnabled(s, a, FailNext) && Pending(s, a, c)
    requires c in s.gate && s.gate[c] == {} && Unannotated(s, c)
    ensures (exists acts :: Awakens(ComplianceStep(s, a, FailNext), acts, c)) <==>
              OwnToken(s, c) || exists b :: b != a && Pending(s, b, c)
    ensures Inserts(s.log, c) <= 1 ==>
              ((exists acts :: Awakens(ComplianceStep(s, a, FailNext), acts, c)) <==> OwnToken(s, c))
  {
    var s' := ComplianceStep(s, a, FailNext);
    ReachableStep(s, ComplianceWorker(a, FailNext));
    AwakensIffToken(s', c);
    assert forall b :: Pending(s', b, c) <==> b != a && Pending(s, b, c);
    if b :| Inserts(s.log, c) <= 1 && b != a && Pending(s, b, c) {
      OneHolder(s, c, a, b);
    }
  }

  /** The failure of its own worker's annotation leaves a cluster beyond reach unless a compliance's
      worker is on the way to it. */
  lemma OwnFailureSticksIff(s: State, c: Cluster)
    requires Reachable(s) && ClusterEnabled(s, c, FailOwn) && Unannotated(s, c)
    ensures (exists acts :: Awakens(ClusterStep(s, c, FailOwn), acts, c)) <==> exists b :: Pending(s, b, c)
  {
    var s' := ClusterStep(s, c, FailOwn);
    ReachableInv(s);
    assert ClusterOk(s, c);
    ReachableStep(s, ClusterWorker(c, FailOwn));
    AwakensIffToken(s', c);
    assert forall b :: Pending(s', b, c) <==> Pending(s, b, c);
  }

  /** A cluster created under the name of one whose entry has run empty can come to be annotated, short
      of a restart or of the entry's removal, if and only if some worker is still on the way to the
      old one. */
  lemma RecreatedForgottenIff(s: State, c: Cluster)
    requires Reachable(s) && c !in s.clusters && c in s.gate && s.gate[c] == {}
    ensures (exists acts :: Awakens(EditStep(s, CreateCluster(c)), acts, c)) <==> Token(s, c)
  {
    var s' := EditStep(s, CreateCluster(c));
    ReachableStep(s, User(CreateCluster(c)));
    AwakensIffToken(s', c);
    SamePending(s, s', c);
  }

  /** c still waits, and no compliance's worker holds it. */
  ghost predicate HeldBack(s: State, c: Cluster) {
    c in s.gate && s.gate[c] != {} && forall a :: !Pending(s, a, c)
  }

  lemma HeldBackByEdit(s: State, e: Edit, c: Cluster)
    requires HeldBack(s, c) && EditEnabled(s, e)
    ensures HeldBack(EditStep(s, e), c) && EditStep(s, e).log == s.log
  {
    EditLeavesHistory(s, e);
    SamePending(s, EditStep(s, e), c);
  }

  lemma HeldBackByCluster(s: State, x: Cluster, m: ClusterMove, c: Cluster)
    requires ClusterOk(s, c) && HeldBack(s, c) && ClusterEnabled(s, x, m) && !(x == c && m.RemoveEntry?)
    ensures HeldBack(ClusterStep(s, x, m), c) && Silent(s.log, ClusterStep(s, x, m).log, c)
  {
    ClusterLeavesCompliances(s, x, m);
    SamePending(s, ClusterStep(s, x, m), c);
  }

  lemma HeldBackByCompliance(s: State, a: Compliance, m: ComplianceMove, c: Cluster)
    requires HeldBack(s, c) && ComplianceEnabled(s, a, m)
    ensures var s' := ComplianceStep(s, a, m);
            Silent(s.log, s'.log, c) && c in s'.gate && (HeldBack(s', c) || s'.gate[c] == {})
  {
    var s' := ComplianceStep(s, a, m);
    EntryShrinks(s, a, m, c);
    assert !Pending(s, a, c);
    if s'.gate[c] != {} {
      forall b ensures !Pending(s', b, c) {
        if Pending(s', b, c) {
          NewlyPending(s, a, m, b, c);
        }
      }
    }
  }

  lemma EmptiedStays(s: State, act: Action, c: Cluster)
    requires Inv(s) && Enabled(s, act) && Keeps(act, c) && c in s.gate && s.gate[c] == {}
    ensures c in Step(s, act).gate && Step(s, act).gate[c] == {}
  {
    match act
    case User(e) => EditLeavesHistory(s, e);
    case ClusterWorker(x, m) =>
      assert ClusterOk(s, c);
      ClusterKeepsEntry(s, x, m, c);
    case ComplianceWorker(a, m) => EntryShrinks(s, a, m, c);
  }

  lemma ClusterKeepsEntry(s: State, x: Cluster, m: ClusterMove, c: Cluster)
    requires ClusterOk(s, c) && ClusterEnabled(s, x, m) && !(x == c && m.RemoveEntry?) && c in s.gate
    ensures c in ClusterStep(s, x, m).gate && ClusterStep(s, x, m).gate[c] == s.gate[c]
  {
  }

  lemma {:induction false} EmptiedForGood(s: State, acts: seq<Action>, s': State, c: Cluster)
    requires Inv(s) && Leads(s, acts, s') && (forall act :: act in acts ==> Keeps(act, c)) && c in s.gate
             && s.gate[c] == {}
    ensures c in s'.gate && s'.gate[c] == {}
    decreases |acts|
  {
    if acts != [] {
      EmptiedStays(s, acts[0], c);
      InvStep(s, acts[0]);
      EmptiedForGood(Step(s, acts[0]), acts[1..], s', c);
    }
  }

  lemma HeldBackStep(s: State, act: Action, c: Cluster)
    requires Inv(s) && HeldBack(s, c) && Enabled(s, act) && Keeps(act, c)
    ensures var s' := Step(s, act); Silent(s.log, s'.log, c) && c in s'.gate && (HeldBack(s', c) || s'.gate[c] == {})
  {
    match act
    case User(e) => HeldBackByEdit(s, e, c);
    case ClusterWorker(x, m) =>
      assert ClusterOk(s, c);
      HeldBackByCluster(s, x, m, c);
    case ComplianceWorker(a, m) => HeldBackByCompliance(s, a, m, c);
  }

  lemma {:induction false} HeldBackUntilEmptied(s: State, acts: seq<Action>, s': State, c: Cluster)
    requires Inv(s) && HeldBack(s, c) && Leads(s, acts, s') && forall act :: act in acts ==> Keeps(act, c)
    ensures c in s'.gate && (s'.gate[c] != {} ==> Silent(s.log, s'.log, c))
    decreases |acts|
  {
    if acts != [] {
      var mid := Step(s, acts[0]);
      HeldBackStep(s, acts[0], c);
      InvStep(s, acts[0]);
      if HeldBack(mid, c) {
        HeldBackUntilEmptied(mid, acts[1..], s', c);
      } else {
        EmptiedForGood(mid, acts[1..], s', c);
      }
    }
  }

  /** acts annotate c although it still waits in the end, and so waited all along. */
  ghost predicate AnnotatesEarly(s: State, acts: seq<Action>, c: Cluster) {
    exists s' :: Annotates(s, acts, s', c) && c in s'.gate && s'.gate[c] != {}
  }

  /** A waiting cluster can be annotated while it still waits if and only if a compliance's worker
      already holds its name, from an earlier entry under that name. */
  lemma AnnotatedEarlyIffHeld(s: State, c: Cluster)
    requires Reachable(s) && Unannotated(s, c) && c in s.gate && s.gate[c] != {}
    ensures (exists acts :: AnnotatesEarly(s, acts, c)) <==> exists a :: Pending(s, a, c)
  {
    ReachableInv(s);
    if a :| Pending(s, a, c) {
      var acts, s' := PendingAnnotates(s, a, c);
      assert AnnotatesEarly(s, acts, c);
    } else {
      forall acts ensures !AnnotatesEarly(s, acts, c) {
        if s' :| Annotates(s, acts, s', c) && c in s'.gate && s'.gate[c] != {} {
          HeldBackUntilEmptied(s, acts, s', c);
        }
      }
    }
  }

  /** And while it has been inserted only once, it cannot. */
  lemma NeverEarlyIfInsertedOnce(s: State, acts: seq<Action>, c: Cluster)
    requires Reachable(s) && Unannotated(s, c) && c in s.gate && s.gate[c] != {} && Inserts(s.log, c) <= 1
    ensures !AnnotatesEarly(s, acts, c)
  {
    AnnotatedEarlyIffHeld(s, c);
    ReachableCrowd(s);
    assert PendingOk(s, c);
  }

  /** c has no entry, and no worker is on the way to it. */
  ghost predicate Unattended(s: State, c: Cluster) {
    c !in s.gate && !Token(s, c)
  }

  lemma UnattendedByCompliance(s: State, a: Compliance, m: ComplianceMove, c: Cluster)
    requires Unattended(s, c) && ComplianceEnabled(s, a, m)
    ensures Unattended(ComplianceStep(s, a, m), c) && Silent(s.log, ComplianceStep(s, a, m).log, c)
  {
    var s' := ComplianceStep(s, a, m);
    assert !Pending(s, a, c);
    HolderAnnotates(s, a, m, c);
    OwnerUntouched(s, a, m);
    ComplianceLeavesEntries(s, a, m, c);
    forall b ensures !Pending(s', b, c) {
      if Pending(s', b, c) && !Pending(s, b, c) {
        NewlyPending(s, a, m, b, c);
      }
    }
  }

  lemma UnattendedByCluster(s: State, x: Cluster, m: ClusterMove, c: Cluster)
    requires Unattended(s, c) && ClusterEnabled(s, x, m) && !(x == c && m.InsertEntry?)
    ensures Unattended(ClusterStep(s, x, m), c) && Silent(s.log, ClusterStep(s, x, m).log, c)
  {
    ClusterLeavesCompliances(s, x, m);
    SamePending(s, ClusterStep(s, x, m), c);
  }

  lemma {:induction false} UnattendedForGood(s: State, acts: seq<Action>, s': State, c: Cluster)
    requires Unattended(s, c) && Leads(s, acts, s') && NoReinsert(acts, c)
    ensures Unattended(s', c) && Silent(s.log, s'.log, c)
    decreases |acts|
  {
    if acts != [] {
      var mid := Step(s, acts[0]);
      match acts[0] {
        case User(e) =>
          EditLeavesHistory(s, e);
          EditLeavesWorkers(s, e);
          SamePending(s, mid, c);
        case ClusterWorker(x, m) => UnattendedByCluster(s, x, m, c);
        case ComplianceWorker(a, m) => UnattendedByCompliance(s, a, m, c);
        case Restart =>
      }
      UnattendedForGood(mid, acts[1..], s', c);
    }
  }

  lemma EditLeavesWorkers(s: State, e: Edit)
    requires EditEnabled(s, e)
    ensures EditStep(s, e).clusterPcs == s.clusterPcs
  {
  }

  /** acts annotate c although nothing is inserted for it. */
  ghost predicate AnnotatesUninserted(s: State, acts: seq<Action>, c: Cluster) {
    NoReinsert(acts, c) && exists s' :: Leads(s, acts, s') && s.log <= s'.log && !Silent(s.log, s'.log, c)
  }

  /** A cluster without an entry can be annotated before anything is inserted for it, so that it is never
      waited for, if and only if a compliance's worker already holds its name. */
  lemma AnnotatedUninsertedIffHeld(s: State, c: Cluster)
    requires Reachable(s) && Unannotated(s, c) && c !in s.gate
    ensures (exists acts :: AnnotatesUninserted(s, acts, c)) <==> exists a :: Pending(s, a, c)
  {
    ReachableInv(s);
    assert ClusterOk(s, c);
    if a :| Pending(s, a, c) {
      var acts, s' := PendingAnnotates(s, a, c);
      assert NoReinsert(acts, c) by {
        assert forall i :: 0 <= i < |acts| ==> acts[i] in acts;
      }
      assert AnnotatesUninserted(s, acts, c);
    } else {
      forall acts ensures !AnnotatesUninserted(s, acts, c) {
        if NoReinsert(acts, c) {
          forall s' | Leads(s, acts, s') && s.log <= s'.log ensures Silent(s.log, s'.log, c) {
            UnattendedForGood(s, acts, s', c);
          }
        }
      }
    }
  }

  /** c waits for a compliance that is gone. */
  ghost predicate Orphaned(s: State, c: Cluster, a: Compliance) {
    c in s.gate && a in s.gate[c] && a !in s.compliances
  }

  /** acts do not insert c again. */
  predicate NoReinsert(acts: seq<Action>, c: Cluster) {
    forall i :: 0 <= i < |acts| ==> acts[i] != ClusterWorker(c, InsertEntry)
  }

  lemma SuspectStep(s: State, act: Action, c: Cluster)
    requires Enabled(s, act) && act != ClusterWorker(c, InsertEntry) && c !in s.suspect
    ensures c !in Step(s, act).suspect
  {
    match act
    case User(e) => assert EditStep(s, e).suspect == s.suspect;
    case ClusterWorker(x, m) =>
      ClusterSuspects(s, x, m);
      assert c !in ClusterStep(s, x, m).suspect - {x} && (c == x ==> c !in ClusterStep(s, x, m).suspect);
    case ComplianceWorker(a, m) => ComplianceSuspects(s, a, m);
    case Restart =>
  }

  lemma {:induction false} SoundEntryNeverOrphaned(s: State, acts: seq<Action>, s': State, c: Cluster)
    requires Inv(s) && c !in s.suspect && Leads(s, acts, s') && NoReinsert(acts, c)
    ensures forall a :: !Orphaned(s', c, a)
    decreases |acts|
  {
    if acts == [] {
      assert EntryOk(s, c);
    } else {
      SuspectStep(s, acts[0], c);
      InvStep(s, acts[0]);
      SoundEntryNeverOrphaned(Step(s, acts[0]), acts[1..], s', c);
    }
  }

  /** acts lead from s to a state where c waits for a vanished member of the given snapshot. */
  ghost predicate Orphans(s: State, acts: seq<Action>, c: Cluster, members: set<Compliance>) {
    NoReinsert(acts, c) && exists s', a :: Leads(s, acts, s') && a in members && Orphaned(s', c, a)
  }

  lemma OrphansLater(s: State, act: Action, rest: seq<Action>, c: Cluster, members: set<Compliance>)
    requires Enabled(s, act) && act != ClusterWorker(c, InsertEntry) && Orphans(Step(s, act), rest, c, members)
    ensures Orphans(s, [act] + rest, c, members)
  {
    var s', a :| Leads(Step(s, act), rest, s') && a in members && Orphaned(s', c, a);
    assert ([act] + rest)[1..] == rest;
    assert Leads(s, [act] + rest, s');
  }

  lemma OrphansNow(s: State, act: Action, c: Cluster, a: Compliance, members: set<Compliance>)
    requires Enabled(s, act) && act != ClusterWorker(c, InsertEntry) && a in members && Orphaned(Step(s, act), c, a)
    ensures Orphans(s, [act], c, members)
  {
    assert [act][1..] == [];
    assert Leads(s, [act], Step(s, act));
  }

  /** A delete reconcile past its erasure runs on to release its compliance. */
  lemma {:induction false} ReleaseOrphans(s: State, a: Compliance, c: Cluster, members: set<Compliance>)
    returns (acts: seq<Action>)
    requires PastErase(s, a) && c in s.gate && a in s.gate[c] && a in members
    ensures Orphans(s, acts, c, members)
    decreases |CPcOf(s, a).pending|
  {
    if CPcOf(s, a).pending == [] {
      var act := ComplianceWorker(a, Release);
      OrphansNow(s, act, c, a, members);
      acts := [act];
    } else {
      var m := if Unannotated(s, CPcOf(s, a).pending[0]) then AnnotateNext else SkipNext;
      var mid := ComplianceStep(s, a, m);
      assert CPcOf(mid, a).pending == CPcOf(s, a).pending[1..];
      var rest := ReleaseOrphans(mid, a, c, members);
      OrphansLater(s, ComplianceWorker(a, m), rest, c, members);
      acts := [ComplianceWorker(a, m)] + rest;
    }
  }

  lemma UnsoundSnapshotOrphans(s: State, c: Cluster, members: set<Compliance>) returns (acts: seq<Action>)
    requires c in s.gate && s.gate[c] == members && !SoundSnapshot(s, members)
    ensures Orphans(s, acts, c, members)
  {
    var a :| a in members && !(a in s.compliances && s.compliances[a].finalizer && !PastErase(s, a));
    if a !in s.compliances {
      assert Leads(s, [], s) && Orphaned(s, c, a);
      acts := [];
    } else if !s.compliances[a].finalizer {
      var act := User(DropCompliance(a));
      assert Orphaned(EditStep(s, DropCompliance(a)), c, a);
      OrphansNow(s, act, c, a, members);
      acts := [act];
    } else {
      acts := ReleaseOrphans(s, a, c, members);
    }
  }

  /** What inserting a snapshot leaves behind. */
  lemma InsertedEntry(s: State, c: Cluster)
    requires PcOf(s, c).Inserting?
    ensures var s', members := ClusterStep(s, c, InsertEntry), PcOf(s, c).members;
            && c in s'.gate && s'.gate[c] == members
            && (c in s'.suspect <==> !SoundSnapshot(s, members))
            && (SoundSnapshot(s', members) <==> SoundSnapshot(s, members))
  {
  }

  lemma SoundEntryHasNoOrphans(s: State, acts: seq<Action>, c: Cluster, members: set<Compliance>)
    requires Inv(s) && c !in s.suspect
    ensures !Orphans(s, acts, c, members)
  {
    if Orphans(s, acts, c, members) {
      var s', a :| Leads(s, acts, s') && a in members && Orphaned(s', c, a);
      SoundEntryNeverOrphaned(s, acts, s', c);
    }
  }

  /** An inserted snapshot can leave its cluster waiting for a compliance that no longer exists
      exactly when, at the moment it is inserted, some member is gone, has no finalizer yet, or is
      being deleted by a reconcile that has already erased it from the gate. */
  lemma OrphansIffUnsound(s: State, c: Cluster)
    requires Reachable(s) && PcOf(s, c).Inserting?
    ensures var members := PcOf(s, c).members;
            (exists acts :: Orphans(ClusterStep(s, c, InsertEntry), acts, c, members)) <==> !SoundSnapshot(s, members)
  {
    var members, s1 := PcOf(s, c).members, ClusterStep(s, c, InsertEntry);
    ReachableInv(s);
    InvStep(s, ClusterWorker(c, InsertEntry));
    InsertedEntry(s, c);
    if SoundSnapshot(s, members) {
      forall acts ensures !Orphans(s1, acts, c, members) {
        SoundEntryHasNoOrphans(s1, acts, c, members);
      }
    } else {
      var acts := UnsoundSnapshotOrphans(s1, c, members);
    }
  }

  /** As Keeps, and the compliance is not created anew. */
  predicate KeepsGone(act: Action, c: Cluster, a: Compliance) {
    Keeps(act, c) && act != User(CreateCompliance(a))
  }

  lemma OrphanByCompliance(s: State, b: Compliance, m: ComplianceMove, c: Cluster, a: Compliance)
    requires ComplianceOk(s, a) && Orphaned(s, c, a) && ComplianceEnabled(s, b, m)
    ensures Orphaned(ComplianceStep(s, b, m), c, a)
  {
  }

  lemma OrphanByEdit(s: State, e: Edit, c: Cluster, a: Compliance)
    requires Orphaned(s, c, a) && EditEnabled(s, e) && e != CreateCompliance(a)
    ensures Orphaned(EditStep(s, e), c, a)
  {
  }

  lemma OrphanByCluster(s: State, x: Cluster, m: ClusterMove, c: Cluster, a: Compliance)
    requires ClusterOk(s, c) && Orphaned(s, c, a) && ClusterEnabled(s, x, m) && !(x == c && m.RemoveEntry?)
    ensures Orphaned(ClusterStep(s, x, m), c, a)
  {
  }

  lemma {:induction false} OrphanStays(s: State, acts: seq<Action>, s': State, c: Cluster, a: Compliance)
    requires Inv(s) && Orphaned(s, c, a) && Leads(s, acts, s') && forall act :: act in acts ==> KeepsGone(act, c, a)
    ensures Orphaned(s', c, a)
    decreases |acts|
  {
    if acts != [] {
      assert ClusterOk(s, c) && ComplianceOk(s, a) && KeepsGone(acts[0], c, a);
      match acts[0] {
        case User(e) => OrphanByEdit(s, e, c, a);
        case ClusterWorker(x, m) => OrphanByCluster(s, x, m, c, a);
        case ComplianceWorker(b, m) => OrphanByCompliance(s, b, m, c, a);
      }
      InvStep(s, acts[0]);
      OrphanStays(Step(s, acts[0]), acts[1..], s', c, a);
    }
  }

  /** acts annotate c, and the compliance is not created anew. */
  ghost predicate AnnotatesOrphan(s: State, acts: seq<Action>, c: Cluster, a: Compliance) {
    Awakens(s, acts, c) && forall act :: act in acts ==> KeepsGone(act, c, a)
  }

  /** A cluster that waits for a vanished compliance can be annotated, before that compliance is created
      anew, the entry is removed or the process restarts, if and only if a compliance's worker already
      holds its name from an earlier entry. */
  lemma OrphanBlocksIff(s: State, c: Cluster, a: Compliance)
    requires Reachable(s) && Orphaned(s, c, a) && Unannotated(s, c)
    ensures (exists acts :: AnnotatesOrphan(s, acts, c, a)) <==> exists b :: Pending(s, b, c)
  {
    ReachableInv(s);
    if b :| Pending(s, b, c) {
      var acts, s' := PendingAnnotates(s, b, c);
      assert Awakens(s, acts, c);
      assert AnnotatesOrphan(s, acts, c, a);
    } else {
      forall acts ensures !AnnotatesOrphan(s, acts, c, a) {
        if AnnotatesOrphan(s, acts, c, a) {
          var s' :| Annotates(s, acts, s', c);
          OrphanStays(s, acts, s', c, a);
          HeldBackUntilEmptied(s, acts, s', c);
        }
      }
    }
  }

  lemma ClusterSuspects(s: State, c: Cluster, m: ClusterMove)
    requires ClusterEnabled(s, c, m)
    ensures ClusterStep(s, c, m).suspect - {c} == s.suspect - {c}
    ensures !m.InsertEntry? ==> ClusterStep(s, c, m).suspect == s.suspect
  {
  }

  lemma ComplianceSuspects(s: State, a: Compliance, m: ComplianceMove)
    requires ComplianceEnabled(s, a, m)
    ensures ComplianceStep(s, a, m).suspect == s.suspect
  {
  }
}
