/** The readiness gate as a protocol. Cluster workers and compliance workers run concurrently, at
    most one per key, and share the manager's map. Every move below is one atomic step, so a run is
    any interleaving of the calls the workers make; a branch of the code is a move of its own, whose
    guard is the branch's condition. */
module GateProtocol {
  import opened ObjectReferences
  import opened GateHistory
  import G = ReadinessGate

  /** incarnation counts how many times the name has been created, this object included. */
  datatype ClusterObject = ClusterObject(incarnation: nat, annotated: bool, deleting: bool)

  datatype ComplianceObject = ComplianceObject(finalizer: bool, deleting: bool)

  /** Where a cluster's worker is. The copy it fetched is all it knows of the object afterwards. */
  datatype ClusterPc =
    | ClusterIdle
    | Checking(incarnation: nat, annotated: bool)
    | Listing(incarnation: nat)
    | Inserting(incarnation: nat, members: set<Compliance>)
    | Counting
    | AnnotatingOwn
    | RemovingEntry

  datatype CompliancePc =
    | ComplianceIdle
    | Fetched(finalizer: bool)
    | Mapping
    | Collecting
    | Cleaning
    | Erasing(cause: Cause)
    | Annotating(cause: Cause, pending: seq<Cluster>)

  /** The API server, the controller's memory, and the history of what happened. The last field
      holds the clusters whose entry was inserted from an unsound snapshot. */
  datatype State = State(
    clusters: map<Cluster, ClusterObject>,
    compliances: map<Compliance, ComplianceObject>,
    born: map<Cluster, nat>,
    gate: G.Gate,
    clusterPcs: map<Cluster, ClusterPc>,
    compliancePcs: map<Compliance, CompliancePc>,
    indexed: set<Compliance>,
    log: History,
    suspect: set<Cluster>)

  const INIT := State(map[], map[], map[], map[], map[], map[], {}, [], {})

  function PcOf(s: State, c: Cluster): ClusterPc {
    if c in s.clusterPcs then s.clusterPcs[c] else ClusterIdle
  }

  function CPcOf(s: State, a: Compliance): CompliancePc {
    if a in s.compliancePcs then s.compliancePcs[a] else ComplianceIdle
  }

  /** How many times a cluster of this name has been created. */
  function Born(s: State, c: Cluster): nat {
    if c in s.born then s.born[c] else 0
  }

  predicate Unannotated(s: State, c: Cluster) {
    c in s.clusters && !s.clusters[c].annotated
  }

  /** A delete reconcile of a has erased a from the gate and is about to let a go. */
  predicate PastErase(s: State, a: Compliance) {
    CPcOf(s, a).Annotating? && CPcOf(s, a).cause == Deleted
  }

  /** Every member exists, carries the finalizer, and will be erased again before it goes. */
  predicate SoundSnapshot(s: State, members: set<Compliance>) {
    forall a :: a in members ==> a in s.compliances && s.compliances[a].finalizer && !PastErase(s, a)
  }

  /** What users do to the API server. */
  datatype Edit =
    | CreateCluster(cluster: Cluster)
    | MarkCluster(cluster: Cluster)
    | DropCluster(cluster: Cluster)
    | CreateCompliance(compliance: Compliance)
    | MarkCompliance(compliance: Compliance)
    | DropCompliance(compliance: Compliance)

  /** The steps of reconcileClusterInstance. */
  datatype ClusterMove =
    | FetchAlive
    | FetchGone
    | SkipCheck
    | PassCheck
    | ListFails
    | List(matching: set<Compliance>)
    | InsertEntry
    | CountSome
    | CountNone
    | AnnotateOwn
    | SkipOwn
    | FailOwn
    | RemoveEntry

  /** The steps of an AddonCompliance reconcile, normal or delete. */
  datatype ComplianceMove =
    | FetchLive
    | FetchDeleting
    | AddFinalizer
    | HasFinalizer
    | UpdateMaps
    | Collect
    | CleanMaps
    | Erase(order: seq<Cluster>)
    | AnnotateNext
    | SkipNext
    | FailNext
    | Publish
    | CloseFails
    | Release
    | GiveUp

  datatype Action =
    | User(edit: Edit)
    | ClusterWorker(cluster: Cluster, move: ClusterMove)
    | ComplianceWorker(compliance: Compliance, cmove: ComplianceMove)
    | Restart

  predicate EditEnabled(s: State, e: Edit) {
    match e
    case CreateCluster(c) => c !in s.clusters
    case MarkCluster(c) => c in s.clusters
    case DropCluster(c) => c in s.clusters
    case CreateCompliance(a) => a !in s.compliances
    case MarkCompliance(a) => a in s.compliances && s.compliances[a].finalizer
    case DropCompliance(a) => a in s.compliances && !s.compliances[a].finalizer
  }

  /** A request for a cluster is queued only once a cluster of that name has been seen. The set that
      a listing matches is left open: every theorem holds for any subset of the compliances. */
  predicate ClusterEnabled(s: State, c: Cluster, m: ClusterMove) {
    match m
    case FetchAlive => PcOf(s, c) == ClusterIdle && c in s.clusters && !s.clusters[c].deleting
    case FetchGone => PcOf(s, c) == ClusterIdle && Born(s, c) > 0 && (c in s.clusters ==> s.clusters[c].deleting)
    case SkipCheck => PcOf(s, c).Checking? && (PcOf(s, c).annotated || c in s.gate)
    case PassCheck => PcOf(s, c).Checking? && !PcOf(s, c).annotated && c !in s.gate
    case ListFails => PcOf(s, c).Listing?
    case List(matching) => PcOf(s, c).Listing? && matching <= s.compliances.Keys
    case InsertEntry => PcOf(s, c).Inserting?
    case CountSome => PcOf(s, c) == Counting && c in s.gate && s.gate[c] != {}
    case CountNone => PcOf(s, c) == Counting && (c in s.gate ==> s.gate[c] == {})
    case AnnotateOwn => PcOf(s, c) == AnnotatingOwn && Unannotated(s, c)
    case SkipOwn => PcOf(s, c) == AnnotatingOwn && !Unannotated(s, c)
    case FailOwn => PcOf(s, c) == AnnotatingOwn
    case RemoveEntry => PcOf(s, c) == RemovingEntry
  }

  ghost predicate ComplianceEnabled(s: State, a: Compliance, m: ComplianceMove) {
    var pc := CPcOf(s, a);
    match m
    case FetchLive => pc == ComplianceIdle && a in s.compliances && !s.compliances[a].deleting
    case FetchDeleting => pc == ComplianceIdle && a in s.compliances && s.compliances[a].deleting
    case AddFinalizer => pc == Fetched(false) && a in s.compliances && !s.compliances[a].deleting
    case HasFinalizer => pc == Fetched(true)
    case UpdateMaps => pc == Mapping
    case Collect => pc == Collecting
    case CleanMaps => pc == Cleaning
    case Erase(order) => pc.Erasing? && Enumerates(order, G.Freed(s.gate, a))
    case AnnotateNext => pc.Annotating? && pc.pending != [] && Unannotated(s, pc.pending[0])
    case SkipNext => pc.Annotating? && pc.pending != [] && !Unannotated(s, pc.pending[0])
    case FailNext => pc.Annotating? && pc.pending != []
    case Publish => pc == Annotating(Loaded, [])
    case Release => pc == Annotating(Deleted, [])
    case CloseFails => pc.Annotating? && pc.pending == []
    case GiveUp => pc.Fetched? || pc == Mapping || pc == Collecting
  }

  ghost predicate Enabled(s: State, act: Action) {
    match act
    case User(e) => EditEnabled(s, e)
    case ClusterWorker(c, m) => ClusterEnabled(s, c, m)
    case ComplianceWorker(a, m) => ComplianceEnabled(s, a, m)
    case Restart => true
  }

  /** An object marked for deletion stays until its finalizer is taken off; one without a finalizer
      goes at once. */
  function EditStep(s: State, e: Edit): State
    requires EditEnabled(s, e)
  {
    match e
    case CreateCluster(c) =>
      s.(clusters := s.clusters[c := ClusterObject(Born(s, c) + 1, false, false)], born := s.born[c := Born(s, c) + 1])
    case MarkCluster(c) => s.(clusters := s.clusters[c := s.clusters[c].(deleting := true)])
    case DropCluster(c) => s.(clusters := s.clusters - {c})
    case CreateCompliance(a) => s.(compliances := s.compliances[a := ComplianceObject(false, false)])
    case MarkCompliance(a) => s.(compliances := s.compliances[a := s.compliances[a].(deleting := true)])
    case DropCompliance(a) => s.(compliances := s.compliances - {a})
  }

  function Annotate(s: State, c: Cluster): map<Cluster, ClusterObject>
    requires Unannotated(s, c)
  {
    s.clusters[c := s.clusters[c].(annotated := true)]
  }

  function ClusterStep(s: State, c: Cluster, m: ClusterMove): State
    requires ClusterEnabled(s, c, m)
  {
    var pc := PcOf(s, c);
    var idle := s.clusterPcs[c := ClusterIdle];
    match m
    case FetchAlive => s.(clusterPcs := s.clusterPcs[c := Checking(s.clusters[c].incarnation, s.clusters[c].annotated)])
    case FetchGone => s.(clusterPcs := s.clusterPcs[c := RemovingEntry])
    case SkipCheck => s.(clusterPcs := idle)
    case PassCheck => s.(clusterPcs := s.clusterPcs[c := Listing(pc.incarnation)])
    case ListFails => s.(clusterPcs := idle)
    case List(matching) => s.(clusterPcs := s.clusterPcs[c := Inserting(pc.incarnation, matching)])
    case InsertEntry =>
      s.(gate := G.Apply(s.gate, G.Insert(c, pc.members)),
         clusterPcs := s.clusterPcs[c := Counting],
         log := s.log + [Inserted(c, pc.incarnation, pc.members)],
         suspect := s.suspect - {c} + if SoundSnapshot(s, pc.members) then {} else {c})
    case CountSome => s.(clusterPcs := idle)
    case CountNone => s.(clusterPcs := s.clusterPcs[c := AnnotatingOwn])
    case AnnotateOwn =>
      s.(clusters := Annotate(s, c), clusterPcs := idle, log := s.log + [Annotated(c, s.clusters[c].incarnation)])
    case SkipOwn => s.(clusterPcs := idle)
    case FailOwn => s.(clusterPcs := idle, log := s.log + [AnnotateFailed([c])])
    case RemoveEntry => s.(gate := G.Apply(s.gate, G.Remove(c)), clusterPcs := idle, log := s.log + [Removed(c)])
  }

  /** A failed annotation drops the clusters still to be annotated; a normal reconcile goes on to close
      its scope all the same, while a delete reconcile keeps the finalizer. Closing persists the
      collected validations, or takes the finalizer off, and with it the object goes; it may fail. */
  function ComplianceStep(s: State, a: Compliance, m: ComplianceMove): State
    requires ComplianceEnabled(s, a, m)
  {
    var pc := CPcOf(s, a);
    var idle := s.compliancePcs[a := ComplianceIdle];
    match m
    case FetchLive => s.(compliancePcs := s.compliancePcs[a := Fetched(s.compliances[a].finalizer)])
    case FetchDeleting => s.(compliancePcs := s.compliancePcs[a := Cleaning])
    case AddFinalizer =>
      s.(compliances := s.compliances[a := s.compliances[a].(finalizer := true)],
         compliancePcs := s.compliancePcs[a := Mapping])
    case HasFinalizer => s.(compliancePcs := s.compliancePcs[a := Mapping])
    case UpdateMaps => s.(indexed := s.indexed + {a}, compliancePcs := s.compliancePcs[a := Collecting])
    case Collect => s.(compliancePcs := s.compliancePcs[a := Erasing(Loaded)], log := s.log + [Collected(a)])
    case CleanMaps => s.(indexed := s.indexed - {a}, compliancePcs := s.compliancePcs[a := Erasing(Deleted)])
    case Erase(order) =>
      s.(gate := G.Apply(s.gate, G.Erase(a)), compliancePcs := s.compliancePcs[a := Annotating(pc.cause, order)],
         log := s.log + [Erased(a, pc.cause)])
    case AnnotateNext =>
      s.(clusters := Annotate(s, pc.pending[0]),
         compliancePcs := s.compliancePcs[a := Annotating(pc.cause, pc.pending[1..])],
         log := s.log + [Annotated(pc.pending[0], s.clusters[pc.pending[0]].incarnation)])
    case SkipNext => s.(compliancePcs := s.compliancePcs[a := Annotating(pc.cause, pc.pending[1..])])
    case FailNext =>
      s.(compliancePcs := s.compliancePcs[a := if pc.cause == Loaded then Annotating(Loaded, []) else ComplianceIdle],
         log := s.log + [AnnotateFailed(pc.pending)])
    case Publish => s.(compliancePcs := idle, log := s.log + [Published(a)])
    case Release => s.(compliances := s.compliances - {a}, compliancePcs := idle)
    case CloseFails => s.(compliancePcs := idle, log := s.log + [PublishFailed(a)])
    case GiveUp => s.(compliancePcs := idle)
  }

  /** A restart forgets everything the process held in memory. */
  function RestartStep(s: State): State {
    s.(gate := map[], clusterPcs := map[], compliancePcs := map[], indexed := {}, log := s.log + [Restarted],
       suspect := {})
  }

  function Step(s: State, act: Action): State
    requires Enabled(s, act)
  {
    match act
    case User(e) => EditStep(s, e)
    case ClusterWorker(c, m) => ClusterStep(s, c, m)
    case ComplianceWorker(a, m) => ComplianceStep(s, a, m)
    case Restart => RestartStep(s)
  }

  /** acts can be taken one after the other from s, and lead to s'. */
  ghost predicate Leads(s: State, acts: seq<Action>, s': State)
    decreases |acts|
  {
    if acts == [] then s' == s
    else Enabled(s, acts[0]) && Leads(Step(s, acts[0]), acts[1..], s')
  }

  lemma {:induction false} LeadsSnoc(s: State, acts: seq<Action>, s': State, act: Action)
    requires Leads(s, acts, s') && Enabled(s', act)
    ensures Leads(s, acts + [act], Step(s', act))
    decreases |acts|
  {
    if acts == [] {
      assert (acts + [act])[1..] == [];
    } else {
      LeadsSnoc(Step(s, acts[0]), acts[1..], s', act);
      assert (acts + [act])[1..] == acts[1..] + [act];
    }
  }

  lemma LeadsOne(s: State, act: Action)
    requires Enabled(s, act)
    ensures Leads(s, [act], Step(s, act))
  {
    LeadsSnoc(s, [], s, act);
    assert [] + [act] == [act];
  }

  /** Reachable from the empty system. */
  ghost predicate Reachable(s: State) {
    exists acts :: Leads(INIT, acts, s)
  }

  lemma ReachableStep(s: State, act: Action)
    requires Reachable(s) && Enabled(s, act)
    ensures Reachable(Step(s, act))
  {
    var acts :| Leads(INIT, acts, s);
    LeadsSnoc(INIT, acts, s, act);
  }
}
