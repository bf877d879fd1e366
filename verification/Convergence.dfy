/** The cluster index as a cache kept up to date by events. A reconcile lists the matching clusters,
    writes the index and stores its selector in three steps, and anything may happen in between; an
    informer delivers the events of one cluster in order, some time after the change. */
module Convergence {
  import opened ObjectReferences
  import opened TwoWayIndex
  import opened Requeue
  import opened ClusterEntry

  datatype ClusterObject = ClusterObject(labels: Labels, paused: bool, ready: bool)

  /** Which cluster events reach the AddonCompliance controller. Only a SveltosCluster has a
      readiness that is watched. */
  predicate DeliversCreate(o: ClusterObject) {
    !o.paused
  }

  predicate DeliversUpdate(c: ObjectReference, before: ClusterObject, after: ClusterObject) {
    || (before.paused && !after.paused)
    || (c.kind == "SveltosCluster" && !before.ready && after.ready)
    || before.labels != after.labels
  }

  /** An update is not delivered exactly if it changes no labels, does not unpause the cluster, and does not
      make a SveltosCluster ready: whether a Cluster is ready does not count. */
  lemma UndeliveredIff(c: ObjectReference, before: ClusterObject, after: ClusterObject)
    ensures !DeliversUpdate(c, before, after) <==>
              && before.labels == after.labels && (before.paused ==> after.paused)
              && (c.kind == "SveltosCluster" && after.ready ==> before.ready)
  {
  }

  /** A reconcile between its listing and the storing of its selector; written says whether it has
      written the index yet. */
  datatype Fetch = Fetch(selector: Selector, listed: set<ObjectReference>, written: bool)

  /** The labels of a cluster before and after a change. An event of creation or deletion carries the
      cluster once, an update carries both, and the requeue function is run on either. */
  datatype Change = Change(before: Labels, after: Labels)

  /** deleting holds the compliances that wait for their delete reconcile. pending holds, for each
      cluster, its undelivered events, oldest first. missed holds the pairs of a compliance and a
      cluster such that the cluster's last event was delivered while the compliance was in flight with
      a listing out of date, and did not requeue it; listing the compliance anew clears it. unseen
      holds the clusters that were created paused, and of which no event has been announced since. */
  datatype State = State(
    clusters: map<ObjectReference, ClusterObject>,
    specs: map<Name, ComplianceSpec>,
    deleting: set<Name>,
    index: Index,
    stored: map<Name, Selector>,
    queue: set<Name>,
    inflight: map<Name, Fetch>,
    pending: map<ObjectReference, seq<Change>>,
    missed: set<(Name, ObjectReference)>,
    unseen: set<ObjectReference>)

  const INIT := State(map[], map[], {}, EMPTY, map[], {}, map[], map[], {}, {})

  function Pending(s: State, c: ObjectReference): seq<Change> {
    if c in s.pending then s.pending[c] else []
  }

  function LabelsOf(clusters: map<ObjectReference, ClusterObject>): map<ObjectReference, Labels> {
    map c | c in clusters :: clusters[c].labels
  }

  /** The match computed from scratch. */
  function Match(mt: Matcher, s: State, spec: ComplianceSpec): set<ObjectReference> {
    MatchingClusters(mt, LabelsOf(s.clusters), spec)
  }

  datatype Action =
    | CreateSeen(c: ObjectReference, o: ClusterObject)
    | CreateUnseen(c: ObjectReference, o: ClusterObject)
    | UpdateSeen(c: ObjectReference, o: ClusterObject)
    | UpdateUnseen(c: ObjectReference, o: ClusterObject)
    | DeleteCluster(c: ObjectReference)
    | Deliver(c: ObjectReference)
    | PutCompliance(a: Name, spec: ComplianceSpec)
    | DeleteCompliance(a: Name)
    | Enqueue(a: Name)
    | List(a: Name)
    | Write(a: Name)
    | Store(a: Name)
    | Abandon(a: Name)
    | CleanUp(a: Name)
    | Release(a: Name)
    | Skip(a: Name)
    | Restart

  predicate Enabled(s: State, act: Action) {
    match act
    case CreateSeen(c, o) => c !in s.clusters && DeliversCreate(o)
    case CreateUnseen(c, o) => c !in s.clusters && !DeliversCreate(o)
    case UpdateSeen(c, o) => c in s.clusters && DeliversUpdate(c, s.clusters[c], o)
    case UpdateUnseen(c, o) => c in s.clusters && !DeliversUpdate(c, s.clusters[c], o)
    case DeleteCluster(c) => c in s.clusters
    case Deliver(c) => Pending(s, c) != []
    case PutCompliance(a, _) => a !in s.deleting
    case DeleteCompliance(a) => a in s.specs
    case Enqueue(a) => true
    case List(a) => a in s.queue && a in s.specs && a !in s.inflight
    case Write(a) => a in s.inflight && !s.inflight[a].written
    case Store(a) => a in s.inflight && s.inflight[a].written
    case Abandon(a) => a in s.inflight
    case CleanUp(a) => a in s.queue && a in s.deleting && a !in s.inflight
    case Release(a) => a in s.queue && a in s.deleting && a !in s.inflight
    case Skip(a) => a in s.queue && a !in s.specs && a !in s.deleting && a !in s.inflight
    case Restart => true
  }

  function Notify(s: State, c: ObjectReference, change: Change): map<ObjectReference, seq<Change>> {
    s.pending[c := Pending(s, c) + [change]]
  }

  function Requeued(mt: Matcher, s: State, c: ObjectReference): set<Name>
    requires Pending(s, c) != []
  {
    var change := Pending(s, c)[0];
    s.queue + ClusterRequeue(s.index, s.stored, mt, c, change.before)
        + ClusterRequeue(s.index, s.stored, mt, c, change.after)
  }

  /** What a has recorded, or is about to record, about c differs from the match computed from scratch. */
  predicate Wrong(mt: Matcher, s: State, a: Name, c: ObjectReference, recorded: set<ObjectReference>)
    requires a in s.specs
  {
    c in recorded <==> c !in Match(mt, s, s.specs[a])
  }

  /** Who misses the next event of c. */
  function Missing(mt: Matcher, s: State, c: ObjectReference): set<(Name, ObjectReference)>
    requires Pending(s, c) != []
  {
    set a | a in s.inflight && a in s.specs && a !in Requeued(mt, s, c)
        && Wrong(mt, s, a, c, s.inflight[a].listed) :: (a, c)
  }

  /** A delete reconcile cleans the index; it either fails later and is queued again, or releases
      the compliance. A restart lists every object anew. */
  function Step(mt: Matcher, s: State, act: Action): State
    requires Enabled(s, act)
  {
    match act
    case CreateSeen(c, o) => s.(clusters := s.clusters[c := o], pending := Notify(s, c, Change(o.labels, o.labels)),
                                unseen := s.unseen - {c})
    case CreateUnseen(c, o) => s.(clusters := s.clusters[c := o], unseen := s.unseen + {c})
    case UpdateSeen(c, o) => s.(clusters := s.clusters[c := o],
                                pending := Notify(s, c, Change(s.clusters[c].labels, o.labels)),
                                unseen := s.unseen - {c})
    case UpdateUnseen(c, o) => s.(clusters := s.clusters[c := o])
    case DeleteCluster(c) =>
      s.(clusters := s.clusters - {c}, pending := Notify(s, c, Change(s.clusters[c].labels, s.clusters[c].labels)),
         unseen := s.unseen - {c})
    case Deliver(c) =>
      s.(queue := Requeued(mt, s, c), index := Lookup(s.index, c), pending := s.pending[c := Pending(s, c)[1..]],
         missed := (set m | m in s.missed && m.1 != c) + Missing(mt, s, c))
    case PutCompliance(a, spec) => s.(specs := s.specs[a := spec], queue := s.queue + {a})
    case DeleteCompliance(a) => s.(specs := s.specs - {a}, deleting := s.deleting + {a}, queue := s.queue + {a})
    case Enqueue(a) => s.(queue := s.queue + {a})
    case List(a) =>
      s.(queue := s.queue - {a},
         inflight := s.inflight[a := Fetch(s.specs[a].selector, Match(mt, s, s.specs[a]), false)],
         missed := set m | m in s.missed && m.0 != a)
    case Write(a) =>
      s.(index := Record(s.index, a, s.inflight[a].listed),
         inflight := s.inflight[a := s.inflight[a].(written := true)])
    case Store(a) => s.(stored := s.stored[a := s.inflight[a].selector], inflight := s.inflight - {a})
    case Abandon(a) => s.(inflight := s.inflight - {a}, queue := s.queue + {a})
    case CleanUp(a) => s.(index := Clean(s.index, a))
    case Release(a) => s.(index := Clean(s.index, a), queue := s.queue - {a}, deleting := s.deleting - {a})
    case Skip(a) => s.(queue := s.queue - {a})
    case Restart =>
      s.(index := EMPTY, stored := map[], inflight := map[], queue := s.specs.Keys + s.deleting,
         pending := map c | c in s.clusters && DeliversCreate(s.clusters[c]) ::
             [Change(s.clusters[c].labels, s.clusters[c].labels)],
         missed := {}, unseen := {})
  }

  ghost predicate Leads(mt: Matcher, s: State, acts: seq<Action>, s': State)
    decreases |acts|
  {
    if acts == [] then s' == s
    else Enabled(s, acts[0]) && Leads(mt, Step(mt, s, acts[0]), acts[1..], s')
  }

  ghost predicate Reachable(mt: Matcher, s: State) {
    exists acts :: Leads(mt, INIT, acts, s)
  }

  /** c was created paused, no event of it has been announced since, and it is not recorded. */
  predicate Hidden(s: State, c: ObjectReference, recorded: set<ObjectReference>) {
    c in s.unseen && c !in recorded
  }

  /** What a has recorded is right about c, or will be put right by an event, or is excused. */
  predicate Covered(mt: Matcher, s: State, a: Name, c: ObjectReference, recorded: set<ObjectReference>)
    requires a in s.specs
  {
    || (c in recorded <==> c in Match(mt, s, s.specs[a]))
    || Pending(s, c) != []
    || Hidden(s, c, recorded)
    || (a, c) in s.missed
  }

  ghost predicate Right(mt: Matcher, s: State, a: Name, selector: Selector, recorded: set<ObjectReference>)
    requires a in s.specs
  {
    && selector == s.specs[a].selector
    && s.specs[a].clusterRefs <= recorded
    && forall c :: Covered(mt, s, a, c, recorded)
  }

  /** A live compliance is queued, or what its reconcile in flight has listed is right, or what it
      has recorded is right. */
  ghost predicate Settled(mt: Matcher, s: State, a: Name) {
    a in s.specs && a !in s.queue ==>
      if a in s.inflight then Right(mt, s, a, s.inflight[a].selector, s.inflight[a].listed)
      else a in s.stored && Right(mt, s, a, s.stored[a], Recorded(s.index, a))
  }

  /** The last undelivered event of a cluster carries its labels, unless its creation went unseen; a
      cluster that went unseen is paused still. */
  predicate EventsOk(s: State, c: ObjectReference) {
    && (Pending(s, c) != [] && c in s.clusters && c !in s.unseen ==>
          Pending(s, c)[|Pending(s, c)| - 1].after == s.clusters[c].labels)
    && (c in s.unseen ==> c in s.clusters && s.clusters[c].paused)
  }

  /** Only live compliances and queued deleted ones are remembered, and a reconcile that has written the
      index finds there what it listed. */
  predicate NamesOk(s: State, a: Name) {
    && (a in s.index.forward || a in s.inflight ==> a in s.specs || a in s.deleting)
    && (a in s.deleting ==> a in s.queue && a !in s.specs)
    && (a in s.inflight && s.inflight[a].written ==> Recorded(s.index, a) == s.inflight[a].listed)
  }

  ghost predicate Inv(mt: Matcher, s: State) {
    && Consistent(s.index)
    && (forall a :: Settled(mt, s, a) && NamesOk(s, a))
    && (forall c :: EventsOk(s, c))
  }

  lemma EventsKept(mt: Matcher, s: State, act: Action, c: ObjectReference)
    requires EventsOk(s, c) && Enabled(s, act)
    ensures EventsOk(Step(mt, s, act), c)
  {
  }

  lemma NamesKept(mt: Matcher, s: State, act: Action, a: Name)
    requires NamesOk(s, a) && Enabled(s, act)
    ensures NamesOk(Step(mt, s, act), a)
  {
  }

  lemma ConsistentKept(mt: Matcher, s: State, act: Action)
    requires Consistent(s.index) && Enabled(s, act)
    ensures Consistent(Step(mt, s, act).index)
  {
    match act
    case Deliver(c) => LookupConsistent(s.index, c);
    case Write(a) => RecordConsistent(s.index, a, s.inflight[a].listed);
    case CleanUp(a) => CleanConsistent(s.index, a);
    case Release(a) => CleanConsistent(s.index, a);
    case _ =>
  }

  predicate ChangesClusters(act: Action) {
    act.CreateSeen? || act.CreateUnseen? || act.UpdateSeen? || act.UpdateUnseen? || act.DeleteCluster?
  }

  lemma CoveredAfterChange(mt: Matcher, s: State, act: Action, a: Name, c: ObjectReference,
                           recorded: set<ObjectReference>)
    requires Enabled(s, act) && ChangesClusters(act) && a in s.specs
    requires s.specs[a].clusterRefs <= recorded && Covered(mt, s, a, c, recorded)
    ensures Covered(mt, Step(mt, s, act), a, c, recorded)
  {
  }

  /** Delivering c's last event settles c: it requeues a, or c is in flight and missed, or what a
      has recorded about c is right. */
  lemma CoveredAfterDelivery(mt: Matcher, s: State, x: ObjectReference, a: Name, c: ObjectReference,
                             recorded: set<ObjectReference>)
    requires Enabled(s, Deliver(x)) && a in s.specs && a !in Requeued(mt, s, x)
    requires Consistent(s.index) && EventsOk(s, c) && s.specs[a].clusterRefs <= recorded
             && Covered(mt, s, a, c, recorded)
    requires a !in s.inflight ==>
               a in s.stored && s.stored[a] == s.specs[a].selector && recorded == Recorded(s.index, a)
    requires a in s.inflight ==> recorded == s.inflight[a].listed
    ensures a !in s.inflight && x == c && Pending(Step(mt, s, Deliver(x)), c) == [] && c !in s.unseen ==>
              !Wrong(mt, Step(mt, s, Deliver(x)), a, c, recorded)
    ensures Covered(mt, Step(mt, s, Deliver(x)), a, c, recorded)
  {
    var s' := Step(mt, s, Deliver(x));
    if x == c && a !in s.inflight {
      ClusterRequeueCovers(s.index, s.stored, mt, c, Pending(s, c)[0].after, a);
      if Pending(s', c) == [] {
        assert Pending(s, c)[0] == Pending(s, c)[|Pending(s, c)| - 1];
      }
    }
  }

  lemma RightAfterChange(mt: Matcher, s: State, act: Action, a: Name, selector: Selector,
                         recorded: set<ObjectReference>)
    requires Enabled(s, act) && ChangesClusters(act) && a in s.specs && Right(mt, s, a, selector, recorded)
    ensures Right(mt, Step(mt, s, act), a, selector, recorded)
  {
    forall c ensures Covered(mt, Step(mt, s, act), a, c, recorded) {
      CoveredAfterChange(mt, s, act, a, c, recorded);
    }
  }

  lemma RightAfterDelivery(mt: Matcher, s: State, x: ObjectReference, a: Name, selector: Selector,
                           recorded: set<ObjectReference>)
    requires Inv(mt, s) && Enabled(s, Deliver(x)) && a in s.specs && a !in Requeued(mt, s, x)
             && Right(mt, s, a, selector, recorded)
    requires a !in s.inflight ==> a in s.stored && s.stored[a] == selector && recorded == Recorded(s.index, a)
    requires a in s.inflight ==> recorded == s.inflight[a].listed
    ensures Right(mt, Step(mt, s, Deliver(x)), a, selector, recorded)
  {
    forall c ensures Covered(mt, Step(mt, s, Deliver(x)), a, c, recorded) {
      assert EventsOk(s, c);
      CoveredAfterDelivery(mt, s, x, a, c, recorded);
    }
  }

  /** Steps that leave clusters and events alone, and a's spec as it was. */
  lemma RightElsewhere(mt: Matcher, s: State, s': State, a: Name, selector: Selector, recorded: set<ObjectReference>)
    requires a in s.specs && a in s'.specs && s'.specs[a] == s.specs[a] && s'.clusters == s.clusters
             && s'.pending == s.pending && s'.unseen == s.unseen
    requires forall m :: m in s.missed && m.0 == a ==> m in s'.missed
    requires Right(mt, s, a, selector, recorded)
    ensures Right(mt, s', a, selector, recorded)
  {
    forall c ensures Covered(mt, s', a, c, recorded) {
      assert Covered(mt, s, a, c, recorded);
    }
  }

  lemma SettledAfterDelivery(mt: Matcher, s: State, x: ObjectReference, a: Name)
    requires Inv(mt, s) && Enabled(s, Deliver(x))
    ensures Settled(mt, Step(mt, s, Deliver(x)), a)
  {
    assert Settled(mt, s, a);
    if a in s.specs && a !in Requeued(mt, s, x) {
      if a in s.inflight {
        RightAfterDelivery(mt, s, x, a, s.inflight[a].selector, s.inflight[a].listed);
      } else {
        RightAfterDelivery(mt, s, x, a, s.stored[a], Recorded(s.index, a));
      }
    }
  }

  lemma SettledAfterChange(mt: Matcher, s: State, act: Action, a: Name)
    requires Settled(mt, s, a) && Enabled(s, act) && ChangesClusters(act)
    ensures Settled(mt, Step(mt, s, act), a)
  {
    if a in s.specs && a !in s.queue {
      if a in s.inflight {
        RightAfterChange(mt, s, act, a, s.inflight[a].selector, s.inflight[a].listed);
      } else {
        RightAfterChange(mt, s, act, a, s.stored[a], Recorded(s.index, a));
      }
    }
  }

  lemma SettledByReconcile(mt: Matcher, s: State, act: Action, a: Name)
    requires Settled(mt, s, a) && NamesOk(s, a) && Enabled(s, act) && !ChangesClusters(act) && !act.Deliver?
    ensures Settled(mt, Step(mt, s, act), a)
  {
    var s' := Step(mt, s, act);
    if a in s'.specs && a !in s'.queue {
      if act == List(a) {
        assert forall c :: Covered(mt, s', a, c, s'.inflight[a].listed);
      } else if a in s.inflight {
        RightElsewhere(mt, s, s', a, s.inflight[a].selector, s.inflight[a].listed);
      } else {
        RightElsewhere(mt, s, s', a, s.stored[a], Recorded(s.index, a));
      }
    }
  }

  lemma InvStep(mt: Matcher, s: State, act: Action)
    requires Inv(mt, s) && Enabled(s, act)
    ensures Inv(mt, Step(mt, s, act))
  {
    var s' := Step(mt, s, act);
    ConsistentKept(mt, s, act);
    forall c ensures EventsOk(s', c) {
      EventsKept(mt, s, act, c);
    }
    forall a ensures Settled(mt, s', a) && NamesOk(s', a) {
      assert Settled(mt, s, a) && NamesOk(s, a);
      NamesKept(mt, s, act, a);
      if act.Deliver? {
        SettledAfterDelivery(mt, s, act.c, a);
      } else if ChangesClusters(act) {
        SettledAfterChange(mt, s, act, a);
      } else {
        SettledByReconcile(mt, s, act, a);
      }
    }
  }

  lemma {:induction false} InvOverRun(mt: Matcher, s: State, acts: seq<Action>, s': State)
    requires Inv(mt, s) && Leads(mt, s, acts, s')
    ensures Inv(mt, s')
    decreases |acts|
  {
    if acts != [] {
      InvStep(mt, s, acts[0]);
      InvOverRun(mt, Step(mt, s, acts[0]), acts[1..], s');
    }
  }

  /** In every run, a live compliance that is neither queued nor in flight has recorded each cluster
      rightly, except where an event of the cluster is still to come, the cluster was created paused
      with no event announced since, or its event was delivered while the compliance was in flight. */
  lemma IndexConverges(mt: Matcher, s: State, a: Name)
    requires Reachable(mt, s) && a in s.specs && a !in s.queue && a !in s.inflight
    ensures forall c :: Covered(mt, s, a, c, Recorded(s.index, a))
  {
    var acts :| Leads(mt, INIT, acts, s);
    InvOverRun(mt, INIT, acts, s);
    assert Settled(mt, s, a);
  }

  /** Nothing is left to do, and no excuse applies. */
  predicate Quiet(s: State) {
    && s.queue == {} && s.inflight == map[] && s.unseen == {} && (forall m :: m in s.missed ==> m.0 !in s.specs)
    && (forall c :: c in s.pending ==> s.pending[c] == [])
  }

  /** Once all is quiet, both directions of the index are what computing them from scratch gives. */
  lemma QuietIndexIsExact(mt: Matcher, s: State)
    requires Reachable(mt, s) && Quiet(s)
    ensures forall a :: a in s.specs ==> Recorded(s.index, a) == Match(mt, s, s.specs[a])
    ensures forall c, a :: ComplianceKey(a) in Consumers(s.index, c) <==> a in s.specs && c in Match(mt, s, s.specs[a])
  {
    var acts :| Leads(mt, INIT, acts, s);
    InvOverRun(mt, INIT, acts, s);
    forall a | a in s.specs ensures Recorded(s.index, a) == Match(mt, s, s.specs[a]) {
      IndexConverges(mt, s, a);
      forall c ensures c in Recorded(s.index, a) <==> c in Match(mt, s, s.specs[a]) {
        assert Covered(mt, s, a, c, Recorded(s.index, a));
      }
    }
    forall c, a ensures ComplianceKey(a) in Consumers(s.index, c) <==> a in s.specs && c in Match(mt, s, s.specs[a]) {
      assert NamesOk(s, a);
      assert ComplianceKey(a) in Consumers(s.index, c) <==> c in Recorded(s.index, a);
    }
  }

  /** Every delivery of the run happens while a's reconcile is not between its listing and its storing. */
  ghost predicate Undivided(mt: Matcher, s: State, acts: seq<Action>, s': State, a: Name)
    requires Leads(mt, s, acts, s')
    decreases |acts|
  {
    acts == [] || ((acts[0].Deliver? ==> a !in s.inflight) && Undivided(mt, Step(mt, s, acts[0]), acts[1..], s', a))
  }

  /** If a's listing, writing and storing are one step as far as deliveries can tell, a misses no event. */
  lemma {:induction false} UndividedMissesNothing(mt: Matcher, s: State, acts: seq<Action>, s': State, a: Name)
    requires Leads(mt, s, acts, s') && Undivided(mt, s, acts, s', a) && forall c :: (a, c) !in s.missed
    ensures forall c :: (a, c) !in s'.missed
    decreases |acts|
  {
    if acts != [] {
      MissesNothing(mt, s, acts[0], a);
      UndividedMissesNothing(mt, Step(mt, s, acts[0]), acts[1..], s', a);
    }
  }

  lemma MissesNothing(mt: Matcher, s: State, act: Action, a: Name)
    requires Enabled(s, act) && (act.Deliver? ==> a !in s.inflight) && forall c :: (a, c) !in s.missed
    ensures forall c :: (a, c) !in Step(mt, s, act).missed
  {
  }

  /** If no delivery divides its reconciles, a compliance at rest has recorded each cluster rightly
      unless an event of the cluster is still to come, or it was created paused with none since. */
  lemma UndividedReconcilesConverge(mt: Matcher, acts: seq<Action>, s: State, a: Name)
    requires Leads(mt, INIT, acts, s) && Undivided(mt, INIT, acts, s, a)
    requires a in s.specs && a !in s.queue && a !in s.inflight
    ensures forall c :: !Wrong(mt, s, a, c, Recorded(s.index, a)) || Pending(s, c) != []
                        || Hidden(s, c, Recorded(s.index, a))
  {
    UndividedMissesNothing(mt, INIT, acts, s, a);
    IndexConverges(mt, s, a);
    forall c ensures !Wrong(mt, s, a, c, Recorded(s.index, a)) || Pending(s, c) != []
                     || Hidden(s, c, Recorded(s.index, a))
    {
      assert Covered(mt, s, a, c, Recorded(s.index, a));
    }
  }

  /** Every cluster of the run is created unpaused; it may be paused later. */
  predicate CreatedUnpaused(acts: seq<Action>) {
    forall i :: 0 <= i < |acts| ==> !acts[i].CreateUnseen?
  }

  lemma {:induction false} CreatedUnpausedAllSeen(mt: Matcher, s: State, acts: seq<Action>, s': State)
    requires Leads(mt, s, acts, s') && CreatedUnpaused(acts) && s.unseen == {}
    ensures s'.unseen == {}
    decreases |acts|
  {
    if acts != [] {
      CreatedUnpausedAllSeen(mt, Step(mt, s, acts[0]), acts[1..], s');
    }
  }

  /** If every cluster is created unpaused and no delivery divides its reconciles, a live compliance is
      queued, or in flight, or has an event to come of each cluster on which what it has recorded
      differs from the match computed from scratch. */
  lemma CreatedUnpausedConverges(mt: Matcher, acts: seq<Action>, s: State, a: Name, c: ObjectReference)
    requires Leads(mt, INIT, acts, s) && Undivided(mt, INIT, acts, s, a) && CreatedUnpaused(acts) && a in s.specs
    ensures a in s.queue || a in s.inflight || Pending(s, c) != [] || !Wrong(mt, s, a, c, Recorded(s.index, a))
  {
    if a !in s.queue && a !in s.inflight {
      CreatedUnpausedAllSeen(mt, INIT, acts, s);
      UndividedReconcilesConverge(mt, acts, s, a);
    }
  }

  /** What a is held to: what it is about to record, or what it has recorded. */
  function Holds(s: State, a: Name): set<ObjectReference> {
    if a in s.inflight then s.inflight[a].listed else Recorded(s.index, a)
  }

  /** Where c has no event to come and did not go unseen, a is wrong about it exactly if it missed it. */
  ghost predicate MissedOk(mt: Matcher, s: State, a: Name, c: ObjectReference) {
    a in s.specs && a !in s.queue && Pending(s, c) == [] && c !in s.unseen ==>
      (Wrong(mt, s, a, c, Holds(s, a)) <==> (a, c) in s.missed)
  }

  lemma MissedKeptByDelivery(mt: Matcher, s: State, x: ObjectReference, a: Name, c: ObjectReference)
    requires Inv(mt, s) && MissedOk(mt, s, a, c) && Enabled(s, Deliver(x))
    ensures MissedOk(mt, Step(mt, s, Deliver(x)), a, c)
  {
    var s' := Step(mt, s, Deliver(x));
    assert Settled(mt, s, a) && EventsOk(s, c);
    if x == c && a in s.specs && a !in Requeued(mt, s, x) && a !in s.inflight {
      assert Covered(mt, s, a, c, Recorded(s.index, a));
      CoveredAfterDelivery(mt, s, x, a, c, Recorded(s.index, a));
    }
  }

  lemma MissedKeptElsewhere(mt: Matcher, s: State, act: Action, a: Name, c: ObjectReference)
    requires NamesOk(s, a) && MissedOk(mt, s, a, c) && Enabled(s, act) && !act.Deliver?
    ensures MissedOk(mt, Step(mt, s, act), a, c)
  {
    if ChangesClusters(act) {
      MissedKeptByChange(mt, s, act, a, c);
    } else {
      MissedKeptByReconcile(mt, s, act, a, c);
    }
  }

  lemma MissedKeptByChange(mt: Matcher, s: State, act: Action, a: Name, c: ObjectReference)
    requires MissedOk(mt, s, a, c) && Enabled(s, act) && ChangesClusters(act)
    ensures MissedOk(mt, Step(mt, s, act), a, c)
  {
  }

  lemma MissedKeptByReconcile(mt: Matcher, s: State, act: Action, a: Name, c: ObjectReference)
    requires NamesOk(s, a) && MissedOk(mt, s, a, c) && Enabled(s, act) && !act.Deliver? && !ChangesClusters(act)
    ensures MissedOk(mt, Step(mt, s, act), a, c)
  {
  }

  lemma {:induction false} MissedOverRun(mt: Matcher, s: State, acts: seq<Action>, s': State, a: Name,
                                         c: ObjectReference)
    requires Inv(mt, s) && MissedOk(mt, s, a, c) && Leads(mt, s, acts, s')
    ensures MissedOk(mt, s', a, c)
    decreases |acts|
  {
    if acts != [] {
      if acts[0].Deliver? {
        MissedKeptByDelivery(mt, s, acts[0].c, a, c);
      } else {
        assert NamesOk(s, a);
        MissedKeptElsewhere(mt, s, acts[0], a, c);
      }
      InvStep(mt, s, acts[0]);
      MissedOverRun(mt, Step(mt, s, acts[0]), acts[1..], s', a, c);
    }
  }

  /** In every run, what a compliance at rest has recorded about a cluster that has no event to come, and
      did not go unseen, is wrong if and only if the cluster's last event was delivered while the
      compliance was in flight with a listing out of date, and did not requeue it. */
  lemma WrongIffMissed(mt: Matcher, s: State, a: Name, c: ObjectReference)
    requires Reachable(mt, s) && a in s.specs && a !in s.queue && a !in s.inflight
    requires Pending(s, c) == [] && c !in s.unseen
    ensures Wrong(mt, s, a, c, Recorded(s.index, a)) <==> (a, c) in s.missed
  {
    var acts :| Leads(mt, INIT, acts, s);
    MissedOverRun(mt, INIT, acts, s, a, c);
  }

  /** Who misses the event that is delivered: a live compliance in flight and not queued whose listing is
      out of date, that had not recorded the cluster, and whose stored selector, if there is one yet,
      matches the cluster neither as it was nor as it is. */
  lemma MissedIff(mt: Matcher, s: State, a: Name, c: ObjectReference)
    requires Reachable(mt, s) && Enabled(s, Deliver(c))
    ensures (a, c) in Step(mt, s, Deliver(c)).missed <==>
              && a in s.inflight && a in s.specs && a !in s.queue && Wrong(mt, s, a, c, s.inflight[a].listed)
              && c !in Recorded(s.index, a)
              && (a in s.stored ==>
                    !mt(s.stored[a], Pending(s, c)[0].before) && !mt(s.stored[a], Pending(s, c)[0].after))
  {
    var acts :| Leads(mt, INIT, acts, s);
    InvOverRun(mt, INIT, acts, s);
    ClusterRequeueCovers(s.index, s.stored, mt, c, Pending(s, c)[0].before, a);
    ClusterRequeueCovers(s.index, s.stored, mt, c, Pending(s, c)[0].after, a);
  }

  /** A resync puts the record of any live compliance at rest right, whatever it missed before. */
  lemma ResyncRepairs(mt: Matcher, s: State, a: Name) returns (s': State)
    requires Consistent(s.index) && a in s.specs && a !in s.inflight
    ensures Leads(mt, s, [Enqueue(a), List(a), Write(a), Store(a)], s')
    ensures Recorded(s'.index, a) == Match(mt, s, s.specs[a]) && s'.clusters == s.clusters && s'.specs == s.specs
    ensures a in s'.stored && s'.stored[a] == s.specs[a].selector && a !in s'.queue && forall c :: (a, c) !in s'.missed
  {
    var s1 := Step(mt, s, Enqueue(a));
    var s2 := Step(mt, s1, List(a));
    var s3 := Step(mt, s2, Write(a));
    s' := Step(mt, s3, Store(a));
    WriteAndStore(mt, s2, a);
    FourSteps(mt, s, Enqueue(a), s1, List(a), s2, Write(a), s3, Store(a));
  }

  lemma WriteAndStore(mt: Matcher, s: State, a: Name)
    requires a in s.inflight && !s.inflight[a].written
    ensures var s3 := Step(mt, s, Write(a));
            Enabled(s3, Store(a)) &&
            var s' := Step(mt, s3, Store(a));
            && Recorded(s'.index, a) == s.inflight[a].listed && a in s'.stored && s'.stored[a] == s.inflight[a].selector
            && s'.clusters == s.clusters && s'.specs == s.specs && s'.queue == s.queue && s'.missed == s.missed
  {
  }

  lemma FourSteps(mt: Matcher, s: State, a1: Action, s1: State, a2: Action, s2: State, a3: Action, s3: State,
                  a4: Action)
    requires Enabled(s, a1) && s1 == Step(mt, s, a1) && Enabled(s1, a2) && s2 == Step(mt, s1, a2)
    requires Enabled(s2, a3) && s3 == Step(mt, s2, a3) && Enabled(s3, a4)
    ensures Leads(mt, s, [a1, a2, a3, a4], Step(mt, s3, a4))
  {
    LeadsSnoc(mt, s, [], s, a1);
    LeadsSnoc(mt, s, [a1], s1, a2);
    LeadsSnoc(mt, s, [a1, a2], s2, a3);
    LeadsSnoc(mt, s, [a1, a2, a3], s3, a4);
    assert [] + [a1] == [a1] && [a1] + [a2] == [a1, a2];
    assert [a1, a2] + [a3] == [a1, a2, a3] && [a1, a2, a3] + [a4] == [a1, a2, a3, a4];
  }

  /** A deleted compliance, perhaps not released yet, that is in neither direction of the index. */
  ghost predicate Forgotten(s: State, a: Name) {
    a !in s.specs && a !in s.inflight && Recorded(s.index, a) == {}
        && forall c :: ComplianceKey(a) !in Consumers(s.index, c)
  }

  lemma ForgottenStep(mt: Matcher, s: State, act: Action, a: Name)
    requires Inv(mt, s) && Enabled(s, act)
    requires act == CleanUp(a) || act == Release(a) || (Forgotten(s, a) && !(act.PutCompliance? && act.a == a))
    ensures Forgotten(Step(mt, s, act), a)
  {
    var s' := Step(mt, s, act);
    assert NamesOk(s, a);
    ConsistentKept(mt, s, act);
    assert Recorded(s'.index, a) == {};
    assert forall c :: ComplianceKey(a) in Consumers(s'.index, c) <==> c in Recorded(s'.index, a);
  }

  /** No step creates a. */
  predicate NeverPut(acts: seq<Action>, a: Name) {
    forall i :: 0 <= i < |acts| ==> !(acts[i].PutCompliance? && acts[i].a == a)
  }

  lemma {:induction false} ForgottenOverRun(mt: Matcher, s: State, acts: seq<Action>, s': State, a: Name)
    requires Inv(mt, s) && Forgotten(s, a) && Leads(mt, s, acts, s') && NeverPut(acts, a)
    ensures Forgotten(s', a)
    decreases |acts|
  {
    if acts != [] {
      ForgottenStep(mt, s, acts[0], a);
      InvStep(mt, s, acts[0]);
      ForgottenOverRun(mt, Step(mt, s, acts[0]), acts[1..], s', a);
    }
  }

  /** From the moment its delete reconcile cleans the maps, a compliance is in neither direction of the
      index, whether that reconcile fails and is retried or releases it, in every run in which it is
      not created anew. */
  lemma ForgottenForGood(mt: Matcher, s: State, a: Name, acts: seq<Action>, s': State)
    requires Reachable(mt, s) && Enabled(s, CleanUp(a)) && Leads(mt, Step(mt, s, CleanUp(a)), acts, s')
             && NeverPut(acts, a)
    ensures Forgotten(s', a)
  {
    var before :| Leads(mt, INIT, before, s);
    InvOverRun(mt, INIT, before, s);
    ForgottenStep(mt, s, CleanUp(a), a);
    InvStep(mt, s, CleanUp(a));
    ForgottenOverRun(mt, Step(mt, s, CleanUp(a)), acts, s', a);
  }

  lemma {:induction false} LeadsSnoc(mt: Matcher, s: State, acts: seq<Action>, s': State, act: Action)
    requires Leads(mt, s, acts, s') && Enabled(s', act)
    ensures Leads(mt, s, acts + [act], Step(mt, s', act))
    decreases |acts|
  {
    if acts == [] {
      assert (acts + [act])[1..] == [];
    } else {
      LeadsSnoc(mt, Step(mt, s, acts[0]), acts[1..], s', act);
      assert (acts + [act])[1..] == acts[1..] + [act];
    }
  }

  lemma Do(mt: Matcher, acts: seq<Action>, s: State, act: Action) returns (acts': seq<Action>, s': State)
    requires Leads(mt, INIT, acts, s) && Enabled(s, act)
    ensures acts' == acts + [act] && s' == Step(mt, s, act) && Leads(mt, INIT, acts', s')
  {
    LeadsSnoc(mt, INIT, acts, s, act);
    acts', s' := acts + [act], Step(mt, s, act);
  }

  const PROD: Labels := map["env" := "prod"]

  function HasLabel(): Matcher {
    (selector, labels) => selector in labels
  }

  lemma ListedTooEarly(a: Name, c: ObjectReference) returns (acts: seq<Action>, s: State)
    ensures Leads(HasLabel(), INIT, acts, s)
    ensures s == State(map[c := ClusterObject(map[], false, true)], map[a := ComplianceSpec("env", {})], {},
                       Index(map[], map[c := {}]), map[], {}, map[a := Fetch("env", {}, false)], map[c := []], {}, {})
  {
    acts, s := [], INIT;
    acts, s := Do(HasLabel(), acts, s, CreateSeen(c, ClusterObject(map[], false, true)));
    acts, s := Do(HasLabel(), acts, s, Deliver(c));
    acts, s := Do(HasLabel(), acts, s, PutCompliance(a, ComplianceSpec("env", {})));
    acts, s := Do(HasLabel(), acts, s, List(a));
    assert s.inflight[a].listed == {};
  }

  /** The excuse for a missed event is needed: a cluster comes to match while the first reconcile of
      a is between its listing and its writing, its event is delivered and finds no stored selector,
      and in the end all is quiet and the cluster goes unrecorded, until a is reconciled again. */
  lemma EventMissedInFlight(a: Name, c: ObjectReference) returns (s: State)
    ensures Reachable(HasLabel(), s) && Quiet(s.(missed := {})) && s.missed == {(a, c)}
    ensures a in s.specs && c in Match(HasLabel(), s, s.specs[a]) && c !in Recorded(s.index, a)
  {
    var acts;
    acts, s := DeliveredInFlight(a, c);
    acts, s := Do(HasLabel(), acts, s, Write(a));
    acts, s := Do(HasLabel(), acts, s, Store(a));
  }

  lemma ChangedInFlight(a: Name, c: ObjectReference) returns (acts: seq<Action>, s: State)
    ensures Leads(HasLabel(), INIT, acts, s)
    ensures s == State(map[c := ClusterObject(PROD, false, true)], map[a := ComplianceSpec("env", {})], {},
                       Index(map[], map[c := {}]), map[], {}, map[a := Fetch("env", {}, false)],
                       map[c := [Change(map[], PROD)]], {}, {})
  {
    var s0;
    acts, s0 := ListedTooEarly(a, c);
    assert "env" in PROD && PROD != map[];
    var change := Change(map[], PROD);
    assert Pending(s0, c) + [change] == [change] && s0.pending[c := [change]] == map[c := [change]];
    acts, s := Do(HasLabel(), acts, s0, UpdateSeen(c, ClusterObject(PROD, false, true)));
    assert s.clusters == map[c := ClusterObject(PROD, false, true)];
  }

  lemma NobodyRequeued(s: State, a: Name, c: ObjectReference)
    requires s.clusters == map[c := ClusterObject(PROD, false, true)] && s.specs == map[a := ComplianceSpec("env", {})]
    requires s.index == Index(map[], map[c := {}]) && s.stored == map[] && s.queue == {}
    requires s.inflight == map[a := Fetch("env", {}, false)] && Pending(s, c) == [Change(map[], PROD)]
    ensures Requeued(HasLabel(), s, c) == {} && Missing(HasLabel(), s, c) == {(a, c)}
  {
    assert "env" in PROD;
    assert Requeued(HasLabel(), s, c) == {};
    assert Wrong(HasLabel(), s, a, c, {});
  }

  lemma DeliveredInFlight(a: Name, c: ObjectReference) returns (acts: seq<Action>, s: State)
    ensures Leads(HasLabel(), INIT, acts, s)
    ensures s == State(map[c := ClusterObject(PROD, false, true)], map[a := ComplianceSpec("env", {})], {},
                       Index(map[], map[c := {}]), map[], {}, map[a := Fetch("env", {}, false)],
                       map[c := []], {(a, c)}, {})
  {
    var s0;
    acts, s0 := ChangedInFlight(a, c);
    NobodyRequeued(s0, a, c);
    acts, s := Do(HasLabel(), acts, s0, Deliver(c));
  }

  lemma RecordedNothing(a: Name) returns (acts: seq<Action>, s: State)
    ensures Leads(HasLabel(), INIT, acts, s)
    ensures s == State(map[], map[a := ComplianceSpec("env", {})], {}, Index(map[a := {}], map[]), map[a := "env"], {},
                       map[], map[], {}, {})
  {
    acts, s := [], INIT;
    acts, s := Do(HasLabel(), acts, s, PutCompliance(a, ComplianceSpec("env", {})));
    acts, s := Do(HasLabel(), acts, s, List(a));
    assert s.inflight[a].listed == {} && s.missed == {} && s.queue == {};
    acts, s := Do(HasLabel(), acts, s, Write(a));
    assert s.index == Index(map[a := {}], map[]) && s.inflight == map[a := Fetch("env", {}, true)];
    acts, s := Do(HasLabel(), acts, s, Store(a));
    assert s.inflight == map[];
  }

  /** The excuse for a paused cluster is needed: its creation is not delivered. */
  lemma PausedClusterUnseen(a: Name, c: ObjectReference) returns (s: State)
    ensures Reachable(HasLabel(), s) && Quiet(s.(unseen := {})) && s.unseen == {c}
    ensures a in s.specs && c in Match(HasLabel(), s, s.specs[a]) && c !in Recorded(s.index, a)
  {
    var acts;
    acts, s := RecordedNothing(a);
    acts, s := Do(HasLabel(), acts, s, CreateUnseen(c, ClusterObject(PROD, true, true)));
  }

  /** Creating a cluster paused makes the record of a compliance at rest wrong exactly if the compliance
      matches the cluster by its selector and does not name it. */
  lemma WrongIffCreatedPausedAndMatching(mt: Matcher, s: State, a: Name, c: ObjectReference, o: ClusterObject)
    requires Reachable(mt, s) && Enabled(s, CreateUnseen(c, o)) && a in s.specs && a !in s.queue && a !in s.inflight
    requires Pending(s, c) == [] && (a, c) !in s.missed
    ensures Wrong(mt, Step(mt, s, CreateUnseen(c, o)), a, c, Recorded(s.index, a))
      <==> s.specs[a].selector != "" && mt(s.specs[a].selector, o.labels) && c !in s.specs[a].clusterRefs
  {
    var acts :| Leads(mt, INIT, acts, s);
    InvOverRun(mt, INIT, acts, s);
    IndexConverges(mt, s, a);
    assert EventsOk(s, c);
    assert Covered(mt, s, a, c, Recorded(s.index, a));
  }
}
