/** Whole reconciles: what one does from beginning to end when nobody interferes. */
module GateReconciles {
  import opened ObjectReferences
  import opened GateHistory
  import opened GateProtocol
  import opened GateProgress
  import G = ReadinessGate

  /** acts are the moves of one reconcile of c, from rest to rest, with nothing in between. */
  ghost predicate ClusterRound(s: State, acts: seq<ClusterMove>, s': State, c: Cluster)
    decreases |acts|
  {
    && acts != [] && ClusterEnabled(s, c, acts[0])
    && var mid := ClusterStep(s, c, acts[0]);
       if PcOf(mid, c) == ClusterIdle then |acts| == 1 && s' == mid else ClusterRound(mid, acts[1..], s', c)
  }

  /** c has to be taken out of the gate. */
  predicate Gone(s: State, c: Cluster) {
    c !in s.clusters || s.clusters[c].deleting
  }

  /** What inserting members for c comes to, annotating it if there are none and that succeeds. */
  ghost predicate Waits(s: State, s': State, c: Cluster, members: set<Compliance>, annotated: bool) {
    && s'.gate == s.gate[c := members]
    && (if annotated then Unannotated(s, c) && s'.clusters == Annotate(s, c) else s'.clusters == s.clusters)
  }

  lemma RoundFromAnnotating(s: State, acts: seq<ClusterMove>, s': State, c: Cluster)
    requires PcOf(s, c) == AnnotatingOwn && Unannotated(s, c) && ClusterRound(s, acts, s', c)
    ensures s'.gate == s.gate && s'.clusters == (if FailOwn in acts then s.clusters else Annotate(s, c))
    ensures ListFails !in acts
  {
    assert acts[0] == AnnotateOwn || acts[0] == FailOwn;
    assert acts == [acts[0]];
  }

  lemma RoundFromCounting(s: State, acts: seq<ClusterMove>, s': State, c: Cluster)
    requires PcOf(s, c) == Counting && c in s.gate && Unannotated(s, c) && ClusterRound(s, acts, s', c)
    ensures s'.gate == s.gate
    ensures s'.clusters == (if s.gate[c] != {} || FailOwn in acts then s.clusters else Annotate(s, c))
    ensures ListFails !in acts
  {
    if s.gate[c] != {} {
      assert acts == [CountSome];
    } else {
      assert acts[0] == CountNone;
      assert acts == [CountNone] + acts[1..];
      RoundFromAnnotating(ClusterStep(s, c, CountNone), acts[1..], s', c);
    }
  }

  lemma RoundFromInserting(s: State, acts: seq<ClusterMove>, s': State, c: Cluster)
    requires PcOf(s, c).Inserting? && Unannotated(s, c) && ClusterRound(s, acts, s', c)
    ensures Waits(s, s', c, PcOf(s, c).members, PcOf(s, c).members == {} && FailOwn !in acts)
    ensures ListFails !in acts
  {
    assert acts[0] == InsertEntry;
    assert acts == [InsertEntry] + acts[1..];
    RoundFromCounting(ClusterStep(s, c, InsertEntry), acts[1..], s', c);
  }

  lemma RoundFromListing(s: State, acts: seq<ClusterMove>, s': State, c: Cluster)
    requires PcOf(s, c).Listing? && Unannotated(s, c) && ClusterRound(s, acts, s', c)
    ensures ListFails in acts ==> s'.gate == s.gate && s'.clusters == s.clusters
    ensures ListFails !in acts ==>
              acts[0].List? && acts[0].matching <= s.compliances.Keys
              && Waits(s, s', c, acts[0].matching, acts[0].matching == {} && FailOwn !in acts)
  {
    if acts[0] != ListFails {
      assert acts == [acts[0]] + acts[1..];
      RoundFromInserting(ClusterStep(s, c, acts[0]), acts[1..], s', c);
    }
  }

  lemma RoundIfGone(s: State, acts: seq<ClusterMove>, s': State, c: Cluster)
    requires PcOf(s, c) == ClusterIdle && ClusterRound(s, acts, s', c) && Gone(s, c)
    ensures s'.gate == s.gate - {c} && s'.clusters == s.clusters
  {
    assert acts[0] == FetchGone;
    RoundFromRemoving(ClusterStep(s, c, FetchGone), acts[1..], s', c);
  }

  lemma RoundFromRemoving(s: State, acts: seq<ClusterMove>, s': State, c: Cluster)
    requires PcOf(s, c) == RemovingEntry && ClusterRound(s, acts, s', c)
    ensures s'.gate == s.gate - {c} && s'.clusters == s.clusters
  {
    assert acts[0] == RemoveEntry;
  }

  /** There is nothing to do: the cluster is annotated already, or has an entry. */
  predicate SeenBefore(s: State, c: Cluster) {
    c in s.clusters && (s.clusters[c].annotated || c in s.gate)
  }

  lemma RoundIfSeen(s: State, acts: seq<ClusterMove>, s': State, c: Cluster)
    requires PcOf(s, c) == ClusterIdle && ClusterRound(s, acts, s', c) && !Gone(s, c) && SeenBefore(s, c)
    ensures s'.gate == s.gate && s'.clusters == s.clusters && s'.log == s.log
  {
    assert acts[0] == FetchAlive;
    assert acts[1..][0] == SkipCheck;
  }

  lemma RoundIfNew(s: State, acts: seq<ClusterMove>, s': State, c: Cluster)
    requires PcOf(s, c) == ClusterIdle && ClusterRound(s, acts, s', c) && !Gone(s, c) && !SeenBefore(s, c)
    ensures ListFails in acts ==> s'.gate == s.gate && s'.clusters == s.clusters
    ensures ListFails !in acts ==>
              exists members ::
                members <= s.compliances.Keys && List(members) in acts
                && Waits(s, s', c, members, members == {} && FailOwn !in acts)
  {
    assert acts[0] == FetchAlive;
    assert acts[1..][0] == PassCheck;
    var rest := acts[1..][1..];
    assert acts == [FetchAlive, PassCheck] + rest;
    var listing := ClusterStep(ClusterStep(s, c, FetchAlive), c, PassCheck);
    RoundFromListing(listing, rest, s', c);
    if ListFails !in acts {
      assert rest[0] == List(rest[0].matching);
    }
  }

  /** One undisturbed reconcile of a cluster that is gone or being deleted removes its entry; of one that
      is annotated or has an entry, changes nothing; and of any other, lists, inserts what it listed, and
      annotates the cluster at once exactly if it listed none, unless listing or annotating fails. */
  lemma ClusterReconcileDoes(s: State, acts: seq<ClusterMove>, s': State, c: Cluster)
    requires PcOf(s, c) == ClusterIdle && ClusterRound(s, acts, s', c)
    ensures Gone(s, c) ==> s'.gate == s.gate - {c} && s'.clusters == s.clusters
    ensures !Gone(s, c) && (SeenBefore(s, c) || ListFails in acts) ==> s'.gate == s.gate && s'.clusters == s.clusters
    ensures !Gone(s, c) && !SeenBefore(s, c) && ListFails !in acts ==>
              exists members ::
                members <= s.compliances.Keys && List(members) in acts
                && Waits(s, s', c, members, members == {} && FailOwn !in acts)
  {
    if Gone(s, c) {
      RoundIfGone(s, acts, s', c);
    } else if SeenBefore(s, c) {
      RoundIfSeen(s, acts, s', c);
    } else {
      RoundIfNew(s, acts, s', c);
    }
  }

  /** Once a cluster is marked for deletion, one undisturbed reconcile takes it out of the gate. */
  lemma MarkedIsRemoved(s: State, acts: seq<ClusterMove>, s': State, c: Cluster)
    requires PcOf(s, c) == ClusterIdle && c in s.clusters && ClusterRound(EditStep(s, MarkCluster(c)), acts, s', c)
    ensures s'.gate == s.gate - {c} && c in s'.clusters && s'.clusters[c].deleting
  {
    RoundIfGone(EditStep(s, MarkCluster(c)), acts, s', c);
  }

  lemma OneMove(s: State, c: Cluster, m: ClusterMove)
    requires ClusterEnabled(s, c, m) && PcOf(ClusterStep(s, c, m), c) == ClusterIdle
    ensures ClusterRound(s, [m], ClusterStep(s, c, m), c)
  {
  }

  lemma MoveFirst(s: State, c: Cluster, m: ClusterMove, rest: seq<ClusterMove>, s': State)
    requires ClusterEnabled(s, c, m) && PcOf(ClusterStep(s, c, m), c) != ClusterIdle
    requires ClusterRound(ClusterStep(s, c, m), rest, s', c)
    ensures ClusterRound(s, [m] + rest, s', c)
  {
    assert ([m] + rest)[1..] == rest;
  }

  lemma CountingCanEnd(s: State, c: Cluster) returns (acts: seq<ClusterMove>, s': State)
    requires PcOf(s, c) == Counting
    ensures ClusterRound(s, acts, s', c) && FailOwn !in acts && ListFails !in acts
  {
    if c in s.gate && s.gate[c] != {} {
      OneMove(s, c, CountSome);
      acts, s' := [CountSome], ClusterStep(s, c, CountSome);
    } else {
      var mid := ClusterStep(s, c, CountNone);
      var m := if Unannotated(mid, c) then AnnotateOwn else SkipOwn;
      OneMove(mid, c, m);
      s' := ClusterStep(mid, c, m);
      MoveFirst(s, c, CountNone, [m], s');
      acts := [CountNone] + [m];
    }
  }

  lemma ListingCanEnd(s: State, c: Cluster, members: set<Compliance>) returns (acts: seq<ClusterMove>, s': State)
    requires PcOf(s, c).Listing? && members <= s.compliances.Keys
    ensures ClusterRound(s, acts, s', c) && FailOwn !in acts && ListFails !in acts && List(members) in acts
  {
    var inserting := ClusterStep(s, c, List(members));
    var counting := ClusterStep(inserting, c, InsertEntry);
    var rest;
    rest, s' := CountingCanEnd(counting, c);
    MoveFirst(inserting, c, InsertEntry, rest, s');
    MoveFirst(s, c, List(members), [InsertEntry] + rest, s');
    acts := [List(members)] + ([InsertEntry] + rest);
  }

  /** A reconcile of a cluster that has been seen can always run to its end without failing, and may list
      whatever compliances there are. */
  lemma ClusterReconcileCanEnd(s: State, c: Cluster, members: set<Compliance>)
    returns (acts: seq<ClusterMove>, s': State)
    requires PcOf(s, c) == ClusterIdle && Born(s, c) > 0 && members <= s.compliances.Keys
    ensures ClusterRound(s, acts, s', c) && FailOwn !in acts && ListFails !in acts
    ensures !Gone(s, c) && !SeenBefore(s, c) ==> List(members) in acts
  {
    if Gone(s, c) {
      var mid := ClusterStep(s, c, FetchGone);
      OneMove(mid, c, RemoveEntry);
      s' := ClusterStep(mid, c, RemoveEntry);
      MoveFirst(s, c, FetchGone, [RemoveEntry], s');
      acts := [FetchGone] + [RemoveEntry];
    } else {
      var mid := ClusterStep(s, c, FetchAlive);
      if SeenBefore(s, c) {
        OneMove(mid, c, SkipCheck);
        s' := ClusterStep(mid, c, SkipCheck);
        MoveFirst(s, c, FetchAlive, [SkipCheck], s');
        acts := [FetchAlive] + [SkipCheck];
      } else {
        var rest;
        rest, s' := ListingCanEnd(ClusterStep(mid, c, PassCheck), c, members);
        MoveFirst(mid, c, PassCheck, rest, s');
        MoveFirst(s, c, FetchAlive, [PassCheck] + rest, s');
        acts := [FetchAlive] + ([PassCheck] + rest);
      }
    }
  }

  /** acts are the moves of one reconcile of a, from rest to rest, with nothing in between. */
  ghost predicate ComplianceRound(s: State, acts: seq<ComplianceMove>, s': State, a: Compliance)
    decreases |acts|
  {
    && acts != [] && ComplianceEnabled(s, a, acts[0])
    && var mid := ComplianceStep(s, a, acts[0]);
       if CPcOf(mid, a) == ComplianceIdle then |acts| == 1 && s' == mid else ComplianceRound(mid, acts[1..], s', a)
  }

  predicate Fails(m: ComplianceMove) {
    m.GiveUp? || m.FailNext? || m.CloseFails?
  }

  /** The clusters with those in ready annotated, as far as they exist. */
  function Marked(clusters: map<Cluster, ClusterObject>, ready: set<Cluster>): map<Cluster, ClusterObject> {
    map c | c in clusters :: if c in ready then clusters[c].(annotated := true) else clusters[c]
  }

  function SetOf(pending: seq<Cluster>): set<Cluster> {
    set c | c in pending
  }

  lemma MarkFirst(s: State, pending: seq<Cluster>)
    requires pending != []
    ensures Marked(s.clusters, SetOf(pending))
      == Marked(if Unannotated(s, pending[0]) then Annotate(s, pending[0]) else s.clusters, SetOf(pending[1..]))
  {
    assert SetOf(pending) == {pending[0]} + SetOf(pending[1..]);
  }

  /** What closing a reconcile does to the compliances. */
  function Closed(s: State, a: Compliance, cause: Cause): map<Compliance, ComplianceObject> {
    if cause == Deleted then s.compliances - {a} else s.compliances
  }

  lemma {:induction false} RoundFromPending(s: State, acts: seq<ComplianceMove>, s': State, a: Compliance)
    requires CPcOf(s, a).Annotating? && ComplianceRound(s, acts, s', a) && forall m :: m in acts ==> !Fails(m)
    ensures s'.gate == s.gate && s'.clusters == Marked(s.clusters, SetOf(CPcOf(s, a).pending))
    ensures s'.compliances == Closed(s, a, CPcOf(s, a).cause) && s'.indexed == s.indexed
    ensures CPcOf(s, a).cause == Loaded ==> s'.log != [] && s'.log[|s'.log| - 1] == Published(a)
    decreases |acts|
  {
    var pending := CPcOf(s, a).pending;
    assert !Fails(acts[0]);
    if pending == [] {
      ClosingMove(s, a, acts[0]);
    } else {
      var mid := ComplianceStep(s, a, acts[0]);
      MarkFirst(s, pending);
      AnnotatingMove(s, a, acts[0]);
      RoundFromPending(mid, acts[1..], s', a);
    }
  }

  lemma ClosingMove(s: State, a: Compliance, m: ComplianceMove)
    requires ComplianceEnabled(s, a, m) && CPcOf(s, a).Annotating? && CPcOf(s, a).pending == [] && !Fails(m)
    ensures var s', cause := ComplianceStep(s, a, m), CPcOf(s, a).cause;
            && CPcOf(s', a) == ComplianceIdle && s'.gate == s.gate && s'.indexed == s.indexed
            && s'.clusters == Marked(s.clusters, SetOf([])) && s'.compliances == Closed(s, a, cause)
            && (cause == Loaded ==> s'.log == s.log + [Published(a)])
  {
    assert Marked(s.clusters, {}) == s.clusters;
  }

  lemma AnnotatingMove(s: State, a: Compliance, m: ComplianceMove)
    requires ComplianceEnabled(s, a, m) && CPcOf(s, a).Annotating? && CPcOf(s, a).pending != [] && !Fails(m)
    ensures var s', pc := ComplianceStep(s, a, m), CPcOf(s, a);
            && CPcOf(s', a) == Annotating(pc.cause, pc.pending[1..])
            && s'.clusters == (if Unannotated(s, pc.pending[0]) then Annotate(s, pc.pending[0]) else s.clusters)
            && s'.gate == s.gate && s'.compliances == s.compliances && s'.indexed == s.indexed
  {
  }

  /** What erasing a and annotating and closing come to. */
  ghost predicate Erases(s: State, s': State, a: Compliance, cause: Cause) {
    && s'.gate == G.Erased(s.gate, a) && s'.clusters == Marked(s.clusters, G.Freed(s.gate, a))
    && s'.compliances == Closed(s, a, cause)
    && (cause == Loaded ==> s'.log != [] && s'.log[|s'.log| - 1] == Published(a))
  }

  lemma RoundFromErasing(s: State, acts: seq<ComplianceMove>, s': State, a: Compliance)
    requires CPcOf(s, a).Erasing? && ComplianceRound(s, acts, s', a) && forall m :: m in acts ==> !Fails(m)
    ensures Erases(s, s', a, CPcOf(s, a).cause) && s'.indexed == s.indexed
  {
    assert acts[0].Erase?;
    var mid := ComplianceStep(s, a, acts[0]);
    assert SetOf(acts[0].order) == G.Freed(s.gate, a);
    RoundFromPending(mid, acts[1..], s', a);
  }

  /** One undisturbed delete reconcile that does not fail takes the compliance out of the index and out of
      every entry, annotates exactly the clusters that waited for it alone, and then lets it go. */
  lemma DeleteReconcileDoes(s: State, acts: seq<ComplianceMove>, s': State, a: Compliance)
    requires CPcOf(s, a) == ComplianceIdle && a in s.compliances && s.compliances[a].deleting
    requires ComplianceRound(s, acts, s', a) && forall m :: m in acts ==> !Fails(m)
    ensures Erases(s, s', a, Deleted) && s'.indexed == s.indexed - {a}
  {
    assert acts[0] == FetchDeleting;
    var s1 := ComplianceStep(s, a, FetchDeleting);
    assert acts[1..][0] == CleanMaps;
    var s2 := ComplianceStep(s1, a, CleanMaps);
    RoundFromErasing(s2, acts[1..][1..], s', a);
  }

  lemma RoundFromMapping(s: State, acts: seq<ComplianceMove>, s': State, a: Compliance)
    requires CPcOf(s, a) == Mapping && ComplianceRound(s, acts, s', a) && forall m :: m in acts ==> !Fails(m)
    ensures Erases(s, s', a, Loaded) && s'.indexed == s.indexed + {a} && Collect in acts
  {
    assert acts[0] in acts && acts[1..][0] in acts;
    assert acts[0] == UpdateMaps;
    var s1 := ComplianceStep(s, a, UpdateMaps);
    assert acts[1..][0] == Collect;
    var s2 := ComplianceStep(s1, a, Collect);
    RoundFromErasing(s2, acts[1..][1..], s', a);
  }

  /** One undisturbed normal reconcile that does not fail gives the compliance its finalizer, indexes it,
      collects its validations, takes it out of every entry, annotates exactly the clusters that waited
      for it alone, and publishes last. */
  lemma NormalReconcileDoes(s: State, acts: seq<ComplianceMove>, s': State, a: Compliance)
    requires CPcOf(s, a) == ComplianceIdle && a in s.compliances && !s.compliances[a].deleting
    requires ComplianceRound(s, acts, s', a) && forall m :: m in acts ==> !Fails(m)
    ensures var held := s.(compliances := s.compliances[a := ComplianceObject(true, false)]);
            Erases(held, s', a, Loaded) && s'.indexed == s.indexed + {a} && Collect in acts
  {
    assert acts[0] in acts && acts[1..][0] in acts;
    assert acts[0] == FetchLive;
    var s1 := ComplianceStep(s, a, FetchLive);
    var m := acts[1..][0];
    assert m == if s.compliances[a].finalizer then HasFinalizer else AddFinalizer;
    var s2 := ComplianceStep(s1, a, m);
    RoundFromMapping(s2, acts[1..][1..], s', a);
    assert s2.compliances == s.compliances[a := ComplianceObject(true, false)];
  }

  lemma OneComplianceMove(s: State, a: Compliance, m: ComplianceMove)
    requires ComplianceEnabled(s, a, m) && CPcOf(ComplianceStep(s, a, m), a) == ComplianceIdle
    ensures ComplianceRound(s, [m], ComplianceStep(s, a, m), a)
  {
  }

  lemma ComplianceMoveFirst(s: State, a: Compliance, m: ComplianceMove, rest: seq<ComplianceMove>, s': State)
    requires ComplianceEnabled(s, a, m) && CPcOf(ComplianceStep(s, a, m), a) != ComplianceIdle
    requires ComplianceRound(ComplianceStep(s, a, m), rest, s', a)
    ensures ComplianceRound(s, [m] + rest, s', a)
  {
    assert ([m] + rest)[1..] == rest;
  }

  lemma {:induction false} PendingCanEnd(s: State, a: Compliance) returns (acts: seq<ComplianceMove>, s': State)
    requires CPcOf(s, a).Annotating?
    ensures ComplianceRound(s, acts, s', a) && forall m :: m in acts ==> !Fails(m)
    decreases |CPcOf(s, a).pending|
  {
    var pc := CPcOf(s, a);
    if pc.pending == [] {
      var m := if pc.cause == Loaded then Publish else Release;
      OneComplianceMove(s, a, m);
      acts, s' := [m], ComplianceStep(s, a, m);
    } else {
      var m := if Unannotated(s, pc.pending[0]) then AnnotateNext else SkipNext;
      AnnotatingMove(s, a, m);
      var rest;
      rest, s' := PendingCanEnd(ComplianceStep(s, a, m), a);
      ComplianceMoveFirst(s, a, m, rest, s');
      acts := [m] + rest;
    }
  }

  /** A reconcile of a compliance that exists can always run to its end without failing. */
  lemma {:induction false} ComplianceReconcileCanEnd(s: State, a: Compliance)
    returns (acts: seq<ComplianceMove>, s': State)
    requires OnTheWay(s, a)
    ensures ComplianceRound(s, acts, s', a) && forall m :: m in acts ==> !Fails(m)
    decreases Distance(CPcOf(s, a))
  {
    var rest, m, mid;
    if CPcOf(s, a).Erasing? {
      var order := EnumerationExists(G.Freed(s.gate, a));
      m := Erase(order);
      mid := ComplianceStep(s, a, m);
      rest, s' := PendingCanEnd(mid, a);
    } else {
      m := TowardsErase(s, a);
      MoveTowardsErase(s, a);
      mid := ComplianceStep(s, a, m);
      rest, s' := ComplianceReconcileCanEnd(mid, a);
    }
    ComplianceMoveFirst(s, a, m, rest, s');
    acts := [m] + rest;
  }
}
