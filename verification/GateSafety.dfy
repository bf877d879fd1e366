/** Safety of the gate protocol, over every run: why an annotation may be trusted, and which objects
    the controller's memory may name. */
module GateSafety {
  import opened ObjectReferences
  import opened GateHistory
  import opened GateProtocol
  import G = ReadinessGate

  /** a exists and carries the finalizer, so it cannot go before a delete reconcile lets it. */
  predicate Held(s: State, a: Compliance) {
    a in s.compliances && s.compliances[a].finalizer
  }

  predicate Busy(pc: CompliancePc) {
    pc == Fetched(true) || pc == Mapping || pc == Collecting || pc == Cleaning || pc.Erasing? || pc.Annotating?
  }

  predicate InDelete(pc: CompliancePc) {
    pc == Cleaning || pc == Erasing(Deleted) || (pc.Annotating? && pc.cause == Deleted)
  }

  ghost predicate ApiOk(s: State) {
    && (forall a :: a in s.compliances && s.compliances[a].deleting ==> s.compliances[a].finalizer)
    && (forall c :: c in s.clusters ==> 1 <= s.clusters[c].incarnation == Born(s, c))
  }

  ghost predicate ComplianceOk(s: State, a: Compliance) {
    && (Busy(CPcOf(s, a)) ==> Held(s, a))
    && (InDelete(CPcOf(s, a)) ==> s.compliances[a].deleting)
    && (a in s.indexed ==> Held(s, a) && CPcOf(s, a) != Erasing(Deleted) && !PastErase(s, a))
  }

  ghost predicate ClusterOk(s: State, c: Cluster) {
    var pc := PcOf(s, c);
    && (pc.Checking? || pc.Listing? || pc.Inserting? ==> 1 <= pc.incarnation <= Born(s, c))
    && (pc.Listing? || pc.Inserting? ==> c !in s.gate)
    && (pc == Counting ==> c in s.gate)
    && (pc == AnnotatingOwn ==> c in s.gate && s.gate[c] == {})
    && (c in s.gate ==> Born(s, c) >= 1)
  }

  /** A member of a soundly inserted entry exists, and is still to be erased if it is deleted. */
  ghost predicate EntryOk(s: State, c: Cluster) {
    c in s.gate && c !in s.suspect ==> SoundSnapshot(s, s.gate[c])
  }

  ghost predicate StateOk(s: State) {
    && ApiOk(s)
    && (forall a :: ComplianceOk(s, a))
    && (forall c :: ClusterOk(s, c))
    && (forall c :: EntryOk(s, c))
  }

  lemma ApiKeptByEdit(s: State, e: Edit)
    requires ApiOk(s) && EditEnabled(s, e)
    ensures ApiOk(EditStep(s, e))
  {
  }

  lemma PointsKeptByEdit(s: State, e: Edit, x: ObjectReference)
    requires ComplianceOk(s, x) && ClusterOk(s, x) && EditEnabled(s, e)
    ensures ComplianceOk(EditStep(s, e), x) && ClusterOk(EditStep(s, e), x)
  {
  }

  lemma EntryKeptByEdit(s: State, e: Edit, x: ObjectReference)
    requires EntryOk(s, x) && EditEnabled(s, e)
    ensures EntryOk(EditStep(s, e), x)
  {
  }

  lemma ApiKeptByCluster(s: State, c: Cluster, m: ClusterMove)
    requires ApiOk(s) && ClusterEnabled(s, c, m)
    ensures ApiOk(ClusterStep(s, c, m))
  {
  }

  lemma PointsKeptByCluster(s: State, c: Cluster, m: ClusterMove, x: ObjectReference)
    requires ApiOk(s) && ClusterOk(s, x) && ClusterOk(s, c) && ClusterEnabled(s, c, m)
    ensures ClusterOk(ClusterStep(s, c, m), x)
  {
  }

  lemma CompliancesKeptByCluster(s: State, c: Cluster, m: ClusterMove, x: ObjectReference)
    requires ComplianceOk(s, x) && ClusterEnabled(s, c, m)
    ensures ComplianceOk(ClusterStep(s, c, m), x)
  {
  }

  lemma EntryKeptByCluster(s: State, c: Cluster, m: ClusterMove, x: ObjectReference)
    requires EntryOk(s, x) && ClusterEnabled(s, c, m)
    ensures EntryOk(ClusterStep(s, c, m), x)
  {
  }

  lemma ApiKeptByCompliance(s: State, a: Compliance, m: ComplianceMove)
    requires ApiOk(s) && ComplianceEnabled(s, a, m)
    ensures ApiOk(ComplianceStep(s, a, m))
  {
  }

  lemma PointsKeptByCompliance(s: State, a: Compliance, m: ComplianceMove, x: ObjectReference)
    requires ApiOk(s) && ComplianceOk(s, x) && ComplianceOk(s, a) && ComplianceEnabled(s, a, m)
    ensures ComplianceOk(ComplianceStep(s, a, m), x)
  {
  }

  lemma ClustersKeptByCompliance(s: State, a: Compliance, m: ComplianceMove, x: ObjectReference)
    requires ClusterOk(s, x) && ComplianceEnabled(s, a, m)
    ensures ClusterOk(ComplianceStep(s, a, m), x)
  {
  }

  lemma EntryKeptByCompliance(s: State, a: Compliance, m: ComplianceMove, x: ObjectReference)
    requires ApiOk(s) && EntryOk(s, x) && ComplianceOk(s, a) && ComplianceEnabled(s, a, m)
    ensures EntryOk(ComplianceStep(s, a, m), x)
  {
  }

  lemma StateKept(s: State, act: Action)
    requires StateOk(s) && Enabled(s, act)
    ensures StateOk(Step(s, act))
  {
    match act
    case User(e) =>
      ApiKeptByEdit(s, e);
      forall x ensures ComplianceOk(EditStep(s, e), x) && ClusterOk(EditStep(s, e), x) && EntryOk(EditStep(s, e), x) {
        PointsKeptByEdit(s, e, x);
        EntryKeptByEdit(s, e, x);
      }
    case ClusterWorker(c, m) =>
      ApiKeptByCluster(s, c, m);
      forall x
        ensures ComplianceOk(ClusterStep(s, c, m), x) && ClusterOk(ClusterStep(s, c, m), x)
                && EntryOk(ClusterStep(s, c, m), x) {
        PointsKeptByCluster(s, c, m, x);
        CompliancesKeptByCluster(s, c, m, x);
        EntryKeptByCluster(s, c, m, x);
      }
    case ComplianceWorker(a, m) =>
      ApiKeptByCompliance(s, a, m);
      forall x
        ensures ComplianceOk(ComplianceStep(s, a, m), x) && ClusterOk(ComplianceStep(s, a, m), x)
                && EntryOk(ComplianceStep(s, a, m), x) {
        PointsKeptByCompliance(s, a, m, x);
        ClustersKeptByCompliance(s, a, m, x);
        EntryKeptByCompliance(s, a, m, x);
      }
    case Restart =>
  }

  /** Each cluster a worker is about to annotate may be annotated. */
  ghost predicate TokensOk(s: State, a: Compliance) {
    CPcOf(s, a).Annotating? ==> forall c :: c in CPcOf(s, a).pending ==> Justified(s.log, c)
  }

  ghost predicate CollectedOk(s: State, a: Compliance) {
    CPcOf(s, a) == Erasing(Loaded) ==> exists h :: CollectedFor(s.log, a, h, |s.log|)
  }

  ghost predicate IncarnationsOk(s: State) {
    forall i :: 0 <= i < |s.log| && (s.log[i].Inserted? || s.log[i].Annotated?) ==>
      1 <= s.log[i].incarnation <= Born(s, s.log[i].cluster)
  }

  /** The gate is what the history makes it, and the history is as it should be. */
  ghost predicate LogOk(s: State) {
    && s.gate == GateOf(s.log)
    && IncarnationsOk(s)
    && AnnotationsJustified(s.log)
    && ErasuresHonest(s.log)
  }

  ghost predicate WorkersOk(s: State) {
    forall a :: TokensOk(s, a) && CollectedOk(s, a)
  }

  /** What one event appended to the history must satisfy. */
  ghost predicate EventOk(s: State, e: Event) {
    && e != Restarted
    && (e.Inserted? ==> 1 <= e.incarnation <= Born(s, e.cluster))
    && (e.Annotated? ==> Justified(s.log, e.cluster) && e.incarnation == Born(s, e.cluster))
    && (e.Erased? && e.cause == Loaded ==> CPcOf(s, e.compliance) == Erasing(Loaded))
  }

  ghost predicate Appends(s: State, s': State, e: Event) {
    EventOk(s, e) && s'.log == s.log + [e] && s'.gate == GateAfter(s.gate, e)
  }

  /** A worker's step leaves history and gate alone, or extends both by one permitted event. */
  ghost predicate Extends(s: State, s': State) {
    && s'.born == s.born
    && ((s'.log == s.log && s'.gate == s.gate) || exists e :: Appends(s, s', e))
  }

  lemma ClusterExtends(s: State, c: Cluster, m: ClusterMove)
    requires s.gate == GateOf(s.log) && ApiOk(s) && ClusterOk(s, c) && ClusterEnabled(s, c, m)
    ensures Extends(s, ClusterStep(s, c, m))
    ensures ClusterStep(s, c, m).compliancePcs == s.compliancePcs
    ensures |ClusterStep(s, c, m).log| > |s.log| ==> !ClusterStep(s, c, m).log[|s.log|].Erased?
  {
    var s' := ClusterStep(s, c, m);
    if s'.log != s.log {
      if m.AnnotateOwn? {
        EmptyEntryJustifies(s.log, c);
      }
      assert Appends(s, s', s'.log[|s.log|]);
    }
  }

  lemma ComplianceExtends(s: State, a: Compliance, m: ComplianceMove)
    requires ApiOk(s) && TokensOk(s, a) && ComplianceEnabled(s, a, m)
    ensures Extends(s, ComplianceStep(s, a, m))
    ensures |ComplianceStep(s, a, m).log| > |s.log| && ComplianceStep(s, a, m).log[|s.log|].Erased? ==>
              ComplianceStep(s, a, m).log[|s.log|].compliance == a
    ensures forall b :: b != a ==> CPcOf(ComplianceStep(s, a, m), b) == CPcOf(s, b)
  {
    var s' := ComplianceStep(s, a, m);
    if s'.log != s.log {
      assert Appends(s, s', s'.log[|s.log|]);
    }
  }

  lemma LogKept(s: State, s': State)
    requires LogOk(s) && WorkersOk(s) && Extends(s, s')
    ensures LogOk(s')
    ensures forall c :: Justified(s.log, c) ==> Justified(s'.log, c)
  {
    if s'.log != s.log {
      var e :| Appends(s, s', e);
      GateOfSnoc(s.log, e);
      if e.Annotated? {
        var j :| JustifiedBy(s.log, |s.log|, e.cluster, j);
        assert 1 <= s.log[j].incarnation <= e.incarnation;
      }
      AnnotationsJustifiedSnoc(s.log, e);
      if e.Erased? && e.cause == Loaded {
        assert CollectedOk(s, e.compliance);
      }
      ErasuresHonestSnoc(s.log, e);
      forall c | Justified(s.log, c) ensures Justified(s'.log, c) {
        JustifiedKept(s.log, e, c);
      }
    }
  }

  /** A compliance worker that stands still keeps what it is about to do justified, as long as its
      compliance is not erased by another. */
  lemma IdleWorkerKept(s: State, s': State, a: Compliance)
    requires TokensOk(s, a) && CollectedOk(s, a) && Extends(s, s') && CPcOf(s', a) == CPcOf(s, a)
    requires forall c :: Justified(s.log, c) ==> Justified(s'.log, c)
    requires |s'.log| > |s.log| && s'.log[|s.log|].Erased? ==> s'.log[|s.log|].compliance != a
    ensures TokensOk(s', a) && CollectedOk(s', a)
  {
    if CPcOf(s, a) == Erasing(Loaded) {
      var h :| CollectedFor(s.log, a, h, |s.log|);
      assert CollectedFor(s'.log, a, h, |s'.log|);
    }
  }

  lemma EditLeavesHistory(s: State, e: Edit)
    requires EditEnabled(s, e)
    ensures var s' := EditStep(s, e);
            s'.log == s.log && s'.gate == s.gate && s'.compliancePcs == s.compliancePcs
                && forall c :: Born(s, c) <= Born(s', c)
  {
  }

  lemma HistoryKeptByEdit(s: State, e: Edit)
    requires LogOk(s) && WorkersOk(s) && EditEnabled(s, e)
    ensures LogOk(EditStep(s, e)) && WorkersOk(EditStep(s, e))
  {
    var s' := EditStep(s, e);
    EditLeavesHistory(s, e);
    forall a ensures TokensOk(s', a) && CollectedOk(s', a) {
      assert TokensOk(s, a) && CollectedOk(s, a);
    }
  }

  lemma HistoryKeptByCluster(s: State, c: Cluster, m: ClusterMove)
    requires LogOk(s) && WorkersOk(s) && ApiOk(s) && ClusterOk(s, c) && ClusterEnabled(s, c, m)
    ensures LogOk(ClusterStep(s, c, m)) && WorkersOk(ClusterStep(s, c, m))
  {
    var s' := ClusterStep(s, c, m);
    ClusterExtends(s, c, m);
    LogKept(s, s');
    forall a ensures TokensOk(s', a) && CollectedOk(s', a) {
      assert TokensOk(s, a) && CollectedOk(s, a);
      IdleWorkerKept(s, s', a);
    }
  }

  lemma OwnTokensKept(s: State, a: Compliance, m: ComplianceMove)
    requires ComplianceEnabled(s, a, m) && TokensOk(s, a)
    requires ComplianceStep(s, a, m).gate == GateOf(ComplianceStep(s, a, m).log)
    requires forall c :: Justified(s.log, c) ==> Justified(ComplianceStep(s, a, m).log, c)
    ensures TokensOk(ComplianceStep(s, a, m), a) && CollectedOk(ComplianceStep(s, a, m), a)
  {
    var s' := ComplianceStep(s, a, m);
    if m.Erase? {
      forall c | c in m.order ensures Justified(s'.log, c) {
        assert c in G.Freed(s.gate, a);
        EmptyEntryJustifies(s'.log, c);
      }
    }
    if m.Collect? {
      assert CollectedFor(s'.log, a, |s.log|, |s'.log|);
    }
  }

  lemma HistoryKeptByCompliance(s: State, a: Compliance, m: ComplianceMove)
    requires LogOk(s) && WorkersOk(s) && ApiOk(s) && ComplianceEnabled(s, a, m)
    ensures LogOk(ComplianceStep(s, a, m)) && WorkersOk(ComplianceStep(s, a, m))
  {
    var s' := ComplianceStep(s, a, m);
    assert TokensOk(s, a);
    ComplianceExtends(s, a, m);
    LogKept(s, s');
    OwnTokensKept(s, a, m);
    forall b ensures TokensOk(s', b) && CollectedOk(s', b) {
      assert TokensOk(s, b) && CollectedOk(s, b);
      if b != a {
        IdleWorkerKept(s, s', b);
      }
    }
  }

  lemma HistoryKeptByRestart(s: State)
    requires LogOk(s)
    ensures LogOk(RestartStep(s)) && WorkersOk(RestartStep(s))
  {
    GateOfSnoc(s.log, Restarted);
    AnnotationsJustifiedSnoc(s.log, Restarted);
    ErasuresHonestSnoc(s.log, Restarted);
  }

  ghost predicate Inv(s: State) {
    StateOk(s) && LogOk(s) && WorkersOk(s)
  }

  lemma InvStep(s: State, act: Action)
    requires Inv(s) && Enabled(s, act)
    ensures Inv(Step(s, act))
  {
    StateKept(s, act);
    match act
    case User(e) => HistoryKeptByEdit(s, e);
    case ClusterWorker(c, m) =>
      assert ClusterOk(s, c);
      HistoryKeptByCluster(s, c, m);
    case ComplianceWorker(a, m) => HistoryKeptByCompliance(s, a, m);
    case Restart => HistoryKeptByRestart(s);
  }

  lemma {:induction false} InvOverRun(s: State, acts: seq<Action>, s': State)
    requires Inv(s) && Leads(s, acts, s')
    ensures Inv(s')
    decreases |acts|
  {
    if acts != [] {
      InvStep(s, acts[0]);
      InvOverRun(Step(s, acts[0]), acts[1..], s');
    }
  }

  lemma ReachableInv(s: State)
    requires Reachable(s)
    ensures Inv(s)
  {
    var acts :| Leads(INIT, acts, s);
    InvOverRun(INIT, acts, s);
  }

  /** In every run, each annotation the controller makes was preceded, in the same life of the
      process, by an insertion for that cluster, every compliance of whose snapshot was erased in
      between; a compliance erased as loaded had its validations collected by the erasing reconcile. */
  lemma AnnotationsAreEarned(s: State)
    requires Reachable(s)
    ensures AnnotationsJustified(s.log) && ErasuresHonest(s.log)
  {
    ReachableInv(s);
  }

  /** Names in the inverse maps, and members of soundly inserted entries, always exist and carry the
      finalizer: it goes only after the maps are cleaned and the gate is erased. */
  lemma RememberedNamesExist(s: State)
    requires Reachable(s)
    ensures forall a :: a in s.indexed ==> Held(s, a)
    ensures forall c, a :: c in s.gate && c !in s.suspect && a in s.gate[c] ==> Held(s, a)
  {
    ReachableInv(s);
    forall a | a in s.indexed ensures Held(s, a) {
      assert ComplianceOk(s, a);
    }
    forall c, a | c in s.gate && c !in s.suspect && a in s.gate[c] ensures Held(s, a) {
      assert EntryOk(s, c);
    }
  }
}
