/** Runs in which the controller does less than its comments promise. */
module GateScenarios {
  import opened ObjectReferences
  import opened GateHistory
  import opened GateProtocol
  import opened GateSafety
  import opened GateLiveness
  import opened ClusterEntry
  import G = ReadinessGate

  lemma Do(acts: seq<Action>, s: State, act: Action) returns (acts': seq<Action>, s': State)
    requires Leads(INIT, acts, s) && Enabled(s, act)
    ensures acts' == acts + [act] && s' == Step(s, act) && Leads(INIT, acts', s')
  {
    LeadsSnoc(INIT, acts, s, act);
    acts', s' := acts + [act], Step(s, act);
  }

  lemma ByUser(acts: seq<Action>, s: State, e: Edit) returns (acts': seq<Action>, s': State)
    requires Leads(INIT, acts, s) && EditEnabled(s, e)
    ensures acts' == acts + [User(e)] && s' == EditStep(s, e) && Leads(INIT, acts', s')
  {
    acts', s' := Do(acts, s, User(e));
  }

  lemma ByCluster(acts: seq<Action>, s: State, c: Cluster, m: ClusterMove) returns (acts': seq<Action>, s': State)
    requires Leads(INIT, acts, s) && ClusterEnabled(s, c, m)
    ensures acts' == acts + [ClusterWorker(c, m)] && s' == ClusterStep(s, c, m) && Leads(INIT, acts', s')
  {
    acts', s' := Do(acts, s, ClusterWorker(c, m));
  }

  lemma ByCompliance(acts: seq<Action>, s: State, a: Compliance, m: ComplianceMove)
    returns (acts': seq<Action>, s': State)
    requires Leads(INIT, acts, s) && ComplianceEnabled(s, a, m)
    ensures acts' == acts + [ComplianceWorker(a, m)] && s' == ComplianceStep(s, a, m) && Leads(INIT, acts', s')
  {
    acts', s' := Do(acts, s, ComplianceWorker(a, m));
  }

  lemma Overwrite<K, V>(m: map<K, V>, k: K, v: V, w: V)
    ensures m[k := v][k := w] == m[k := w]
  {
  }

  /** a is created and gets its finalizer; nothing else changes. */
  lemma Finalize(acts: seq<Action>, s: State, a: Compliance) returns (acts': seq<Action>, s': State)
    requires Leads(INIT, acts, s) && a !in s.compliances && CPcOf(s, a) == ComplianceIdle
    ensures Leads(INIT, acts', s') && acts <= acts'
    ensures s' == s.(compliances := s.compliances[a := ComplianceObject(true, false)],
                     compliancePcs := s.compliancePcs[a := ComplianceIdle])
  {
    acts', s' := ByUser(acts, s, CreateCompliance(a));
    acts', s' := ByCompliance(acts', s', a, FetchLive);
    acts', s' := ByCompliance(acts', s', a, AddFinalizer);
    acts', s' := ByCompliance(acts', s', a, GiveUp);
    Overwrite(s.compliances, a, ComplianceObject(false, false), ComplianceObject(true, false));
    Overwrite(s.compliancePcs, a, Fetched(false), Mapping);
    Overwrite(s.compliancePcs, a, Mapping, ComplianceIdle);
  }

  /** A normal reconcile of a up to the point where it annotates the clusters it made ready. */
  lemma Load(acts: seq<Action>, s: State, a: Compliance, order: seq<Cluster>) returns (acts': seq<Action>, s': State)
    requires Leads(INIT, acts, s) && Held(s, a) && !s.compliances[a].deleting && CPcOf(s, a) == ComplianceIdle
    requires Enumerates(order, G.Freed(s.gate, a))
    ensures Leads(INIT, acts', s') && acts <= acts'
    ensures s' == s.(gate := G.Erased(s.gate, a), compliancePcs := s.compliancePcs[a := Annotating(Loaded, order)],
                     indexed := s.indexed + {a}, log := s.log + [Collected(a)] + [Erased(a, Loaded)])
  {
    acts', s' := ByCompliance(acts, s, a, FetchLive);
    acts', s' := ByCompliance(acts', s', a, HasFinalizer);
    acts', s' := ByCompliance(acts', s', a, UpdateMaps);
    acts', s' := ByCompliance(acts', s', a, Collect);
    acts', s' := ByCompliance(acts', s', a, Erase(order));
    Overwrite(s.compliancePcs, a, Fetched(true), Mapping);
    Overwrite(s.compliancePcs, a, Mapping, Collecting);
    Overwrite(s.compliancePcs, a, Collecting, Erasing(Loaded));
    Overwrite(s.compliancePcs, a, Erasing(Loaded), Annotating(Loaded, order));
  }

  /** c is created, and its worker finds that it has to list the compliances. */
  lemma Discover(acts: seq<Action>, s: State, c: Cluster) returns (acts': seq<Action>, s': State)
    requires Leads(INIT, acts, s) && c !in s.clusters && c !in s.gate && PcOf(s, c) == ClusterIdle
    ensures Leads(INIT, acts', s') && acts <= acts'
    ensures s' == s.(clusters := s.clusters[c := ClusterObject(Born(s, c) + 1, false, false)],
                     born := s.born[c := Born(s, c) + 1], clusterPcs := s.clusterPcs[c := Listing(Born(s, c) + 1)])
  {
    acts', s' := ByUser(acts, s, CreateCluster(c));
    acts', s' := ByCluster(acts', s', c, FetchAlive);
    acts', s' := ByCluster(acts', s', c, PassCheck);
    Overwrite(s.clusterPcs, c, Checking(Born(s, c) + 1, false), Listing(Born(s, c) + 1));
  }

  /** c's worker lists and inserts with nothing in between. */
  lemma ListAndInsert(acts: seq<Action>, s: State, c: Cluster, members: set<Compliance>)
    returns (acts': seq<Action>, s': State)
    requires Leads(INIT, acts, s) && PcOf(s, c).Listing? && members <= s.compliances.Keys
    ensures Leads(INIT, acts', s') && acts' == acts + [ClusterWorker(c, List(members))]
            + [ClusterWorker(c, InsertEntry)]
    ensures s' == s.(gate := s.gate[c := members], clusterPcs := s.clusterPcs[c := Counting],
                     log := s.log + [Inserted(c, PcOf(s, c).incarnation, members)], suspect := s'.suspect)
  {
    acts', s' := ByCluster(acts, s, c, List(members));
    acts', s' := ByCluster(acts', s', c, InsertEntry);
    Overwrite(s.clusterPcs, c, Inserting(PcOf(s, c).incarnation, members), Counting);
  }

  /** a exists, and c's worker is about to list the compliances. */
  lemma AboutToList(c: Cluster, a: Compliance) returns (acts: seq<Action>, s: State)
    ensures Leads(INIT, acts, s)
    ensures s == INIT.(clusters := map[c := ClusterObject(1, false, false)],
                       compliances := map[a := ComplianceObject(true, false)], born := map[c := 1],
                       clusterPcs := map[c := Listing(1)], compliancePcs := map[a := ComplianceIdle])
  {
    acts, s := Finalize([], INIT, a);
    acts, s := Discover(acts, s, c);
  }

  /** c waits for a alone. */
  lemma WaitFor(c: Cluster, a: Compliance) returns (acts: seq<Action>, s: State)
    ensures Leads(INIT, acts, s)
    ensures s == INIT.(clusters := map[c := ClusterObject(1, false, false)],
                       compliances := map[a := ComplianceObject(true, false)],
                       born := map[c := 1], gate := map[c := {a}], clusterPcs := map[c := ClusterIdle],
                       compliancePcs := map[a := ComplianceIdle], log := [Inserted(c, 1, {a})], suspect := s.suspect)
  {
    acts, s := AboutToList(c, a);
    acts, s := ListAndInsert(acts, s, c, {a});
    acts, s := ByCluster(acts, s, c, CountSome);
  }

  lemma ErasedEmpties(c: Cluster, a: Compliance)
    ensures G.Freed(map[c := {a}], a) == {c} && G.Erased(map[c := {a}], a) == map[c := {}]
  {
    var g: G.Gate := map[c := {a}];
    assert forall k :: k in G.Erased(g, a) ==> k == c && G.Erased(g, a)[k] == {};
    assert c in G.Erased(g, a);
    assert G.Erased(g, a).Keys == {c};
  }

  /** c waited for a, and a's reconcile has loaded a and is about to annotate c. */
  lemma AboutToAnnotate(c: Cluster, a: Compliance) returns (acts: seq<Action>, s: State)
    ensures Leads(INIT, acts, s)
    ensures s == INIT.(clusters := map[c := ClusterObject(1, false, false)],
                       compliances := map[a := ComplianceObject(true, false)],
                       born := map[c := 1], gate := map[c := {}], clusterPcs := map[c := ClusterIdle],
                       compliancePcs := map[a := Annotating(Loaded, [c])], indexed := {a},
                       log := [Inserted(c, 1, {a}), Collected(a), Erased(a, Loaded)], suspect := s.suspect)
  {
    acts, s := WaitFor(c, a);
    ErasedEmpties(c, a);
    acts, s := Load(acts, s, a, [c]);
  }

  lemma AboutToErase(a: Compliance) returns (acts: seq<Action>, s: State)
    ensures Leads(INIT, acts, s)
    ensures s == INIT.(compliances := map[a := ComplianceObject(true, true)],
                       compliancePcs := map[a := Erasing(Deleted)])
  {
    acts, s := Finalize([], INIT, a);
    acts, s := ByUser(acts, s, MarkCompliance(a));
    acts, s := ByCompliance(acts, s, a, FetchDeleting);
    acts, s := ByCompliance(acts, s, a, CleanMaps);
  }

  /** a's delete reconcile has erased a from the gate and is about to release it. */
  lemma AboutToRelease(a: Compliance) returns (acts: seq<Action>, s: State)
    ensures Leads(INIT, acts, s)
    ensures s == INIT.(compliances := map[a := ComplianceObject(true, true)],
                       compliancePcs := map[a := Annotating(Deleted, [])],
                       log := [Erased(a, Deleted)])
  {
    acts, s := AboutToErase(a);
    acts, s := ByCompliance(acts, s, a, Erase([]));
    assert G.Erased(map[], a) == map[];
  }

  /** Listing and inserting with nothing in between, from compliances that all carry the finalizer,
      does not keep a cluster from waiting for a vanished compliance: the listing returns one whose
      delete reconcile has already erased it. */
  lemma AtomicListingCanOrphan(c: Cluster, a: Compliance) returns (before: State, listed: seq<Action>, s: State)
    ensures Reachable(before) && before.compliances == map[a := ComplianceObject(true, true)]
            && PcOf(before, c).Listing?
    ensures listed == [ClusterWorker(c, List({a})), ClusterWorker(c, InsertEntry), ComplianceWorker(a, Release)]
    ensures Leads(before, listed, s) && Orphaned(s, c, a)
  {
    var acts, s0 := AboutToRelease(a);
    acts, before := Discover(acts, s0, c);
    var s1 := ClusterStep(before, c, List({a}));
    var s2 := ClusterStep(s1, c, InsertEntry);
    s := ComplianceStep(s2, a, Release);
    listed := [ClusterWorker(c, List({a})), ClusterWorker(c, InsertEntry), ComplianceWorker(a, Release)];
    assert Leads(s2, listed[2..], s) by {
      assert listed[2..][1..] == [];
    }
    assert Leads(s1, listed[1..], s) by {
      assert listed[1..][1..] == listed[2..];
    }
  }

  /** A compliance reconciled between the listing and the insertion stays in the entry: all of the
      snapshot is loaded and published, and the cluster still waits with nobody on the way. */
  lemma LoadedWhileListedStillWaits(c: Cluster, a: Compliance) returns (s: State)
    ensures Reachable(s) && s.gate == map[c := {a}] && Unannotated(s, c) && !Token(s, c)
    ensures s.log == [Collected(a), Erased(a, Loaded), Published(a), Inserted(c, 1, {a})]
            && CPcOf(s, a) == ComplianceIdle
  {
    var acts;
    acts, s := ListedThenLoaded(c, a);
    acts, s := ByCompliance(acts, s, a, Publish);
    acts, s := ByCluster(acts, s, c, InsertEntry);
    acts, s := ByCluster(acts, s, c, CountSome);
  }

  lemma ListedThenLoaded(c: Cluster, a: Compliance) returns (acts: seq<Action>, s: State)
    ensures Leads(INIT, acts, s)
    ensures s == INIT.(clusters := map[c := ClusterObject(1, false, false)],
                       compliances := map[a := ComplianceObject(true, false)],
                       born := map[c := 1], clusterPcs := map[c := Inserting(1, {a})],
                       compliancePcs := map[a := Annotating(Loaded, [])], indexed := {a},
                       log := [Collected(a), Erased(a, Loaded)])
  {
    acts, s := AboutToList(c, a);
    acts, s := ByCluster(acts, s, c, List({a}));
    Overwrite(map[], c, Listing(1), Inserting(1, {a}));
    assert G.Erased(map[], a) == map[];
    acts, s := Load(acts, s, a, []);
  }

  /** After one failed annotation the cluster is stuck, although all it waited for is loaded. */
  lemma FailedAnnotationSticks(c: Cluster, a: Compliance) returns (s: State)
    ensures Reachable(s) && Stuck(s, c) && Unannotated(s, c) && Born(s, c) == 1
    ensures s.log == [Inserted(c, 1, {a}), Collected(a), Erased(a, Loaded), AnnotateFailed([c]), Published(a)]
  {
    var acts;
    acts, s := AboutToAnnotate(c, a);
    acts, s := ByCompliance(acts, s, a, FailNext);
    acts, s := ByCompliance(acts, s, a, Publish);
  }

  /** c's worker has inserted {a} and not counted yet; a's reconcile has loaded a in the meantime. */
  lemma LoadedBeforeCounted(c: Cluster, a: Compliance) returns (acts: seq<Action>, s: State)
    ensures Leads(INIT, acts, s)
    ensures s == INIT.(clusters := map[c := ClusterObject(1, false, false)],
                       compliances := map[a := ComplianceObject(true, false)],
                       born := map[c := 1], gate := map[c := {}], clusterPcs := map[c := Counting],
                       compliancePcs := map[a := Annotating(Loaded, [c])], indexed := {a},
                       log := [Inserted(c, 1, {a}), Collected(a), Erased(a, Loaded)], suspect := s.suspect)
  {
    acts, s := AboutToList(c, a);
    acts, s := ListAndInsert(acts, s, c, {a});
    ErasedEmpties(c, a);
    acts, s := Load(acts, s, a, [c]);
  }

  /** A failed annotation need not stick: two workers may be on the way to the same cluster. */
  lemma FailureNeedNotStick(c: Cluster, a: Compliance) returns (s: State)
    ensures Reachable(s) && Born(s, c) == 1 && c in s.clusters && s.clusters[c].annotated
    ensures s.log == [Inserted(c, 1, {a}), Collected(a), Erased(a, Loaded), AnnotateFailed([c]), Annotated(c, 1)]
  {
    var acts;
    acts, s := LoadedBeforeCounted(c, a);
    acts, s := ByCluster(acts, s, c, CountNone);
    acts, s := ByCompliance(acts, s, a, FailNext);
    acts, s := ByCluster(acts, s, c, AnnotateOwn);
  }

  /** The annotation promises that the validations were collected, not that they were published. */
  lemma AnnotatedBeforePublished(c: Cluster, a: Compliance) returns (s: State)
    ensures Reachable(s) && c in s.clusters && s.clusters[c].annotated
    ensures s.log == [Inserted(c, 1, {a}), Collected(a), Erased(a, Loaded), Annotated(c, 1)]
  {
    var acts;
    acts, s := AboutToAnnotate(c, a);
    acts, s := ByCompliance(acts, s, a, AnnotateNext);
  }

  lemma NameFreed(c: Cluster, a: Compliance, b: Compliance) returns (acts: seq<Action>, s: State)
    requires a != b
    ensures Leads(INIT, acts, s)
    ensures s.clusters == map[] && s.gate == map[] && s.born == map[c := 1] && PcOf(s, c) == ClusterIdle
    ensures b in s.compliances && CPcOf(s, a) == Annotating(Loaded, [c])
    ensures s.log == [Inserted(c, 1, {a}), Collected(a), Erased(a, Loaded), Removed(c)]
  {
    acts, s := AboutToAnnotate(c, a);
    acts, s := ByUser(acts, s, DropCluster(c));
    acts, s := ByCluster(acts, s, c, FetchGone);
    acts, s := ByCluster(acts, s, c, RemoveEntry);
    acts, s := Finalize(acts, s, b);
  }

  /** An annotation is addressed by name: one still pending for a deleted cluster reaches the next
      cluster of that name, which has not been waited for at all. */
  lemma ReusedNameAnnotatedEarly(c: Cluster, a: Compliance, b: Compliance) returns (s: State)
    requires a != b
    ensures Reachable(s) && s.clusters == map[c := ClusterObject(2, true, false)] && s.gate == map[c := {b}]
    ensures s.log
            == [Inserted(c, 1, {a}), Collected(a), Erased(a, Loaded), Removed(c), Inserted(c, 2, {b}), Annotated(c, 2)]
  {
    var acts;
    acts, s := NameFreed(c, a, b);
    acts, s := Discover(acts, s, c);
    acts, s := ListAndInsert(acts, s, c, {b});
    acts, s := ByCompliance(acts, s, a, AnnotateNext);
  }

  /** c's worker finds no compliance to wait for, and annotates c. */
  lemma WaitForNothing(acts: seq<Action>, s: State, c: Cluster) returns (acts': seq<Action>, s': State)
    requires Leads(INIT, acts, s) && PcOf(s, c).Listing? && Unannotated(s, c)
    ensures Leads(INIT, acts', s')
    ensures s' == s.(clusters := Annotate(s, c), gate := s.gate[c := {}], clusterPcs := s.clusterPcs[c := ClusterIdle],
                     log := s.log + [Inserted(c, PcOf(s, c).incarnation, {})]
                         + [Annotated(c, s.clusters[c].incarnation)],
                     suspect := s'.suspect)
  {
    acts', s' := ListAndInsert(acts, s, c, {});
    acts', s' := ByCluster(acts', s', c, CountNone);
    acts', s' := ByCluster(acts', s', c, AnnotateOwn);
    Overwrite(s.clusterPcs, c, Counting, AnnotatingOwn);
    Overwrite(s.clusterPcs, c, AnnotatingOwn, ClusterIdle);
  }

  /** A cluster that a compliance only names, and does not select, is in its match and not among those it
      is waited for by: it is annotated although nothing has been loaded. */
  lemma NamedButNotWaitedFor(matcher: Matcher, selector: Selector, labels: Labels, c: Cluster, a: Compliance)
    returns (s: State)
    requires !matcher(selector, labels)
    ensures c in MatchingClusters(matcher, map[c := labels], ComplianceSpec(selector, {c}))
    ensures Reachable(s) && a in s.compliances
    ensures s.log == [Inserted(c, 1, Snapshot(matcher, map[a := selector], labels)), Annotated(c, 1)]
  {
    var acts;
    assert Snapshot(matcher, map[a := selector], labels) == {};
    acts, s := AboutToList(c, a);
    acts, s := WaitForNothing(acts, s, c);
  }

  lemma AnnotatedAtOnce(c: Cluster) returns (acts: seq<Action>, s: State)
    ensures Leads(INIT, acts, s)
    ensures s == INIT.(clusters := map[c := ClusterObject(1, true, false)], born := map[c := 1], gate := map[c := {}],
                       clusterPcs := map[c := ClusterIdle], log := [Inserted(c, 1, {}), Annotated(c, 1)],
                       suspect := s.suspect)
  {
    acts, s := Discover([], INIT, c);
    acts, s := WaitForNothing(acts, s, c);
  }

  /** A cluster deleted and created again before its worker looks is taken for the old one, and is
      stuck unannotated. */
  lemma RecreatedClusterForgotten(c: Cluster) returns (s: State)
    ensures Reachable(s) && Stuck(s, c) && Unannotated(s, c)
    ensures s.log == [Inserted(c, 1, {}), Annotated(c, 1)] && s.clusters[c].incarnation == 2
  {
    var acts;
    acts, s := AnnotatedAtOnce(c);
    acts, s := ByUser(acts, s, DropCluster(c));
    acts, s := ByUser(acts, s, CreateCluster(c));
  }
}
