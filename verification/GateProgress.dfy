/** When a waiting cluster can still come to be annotated in the ordinary way: by reconciles of the
    compliances it waits for. */
module GateProgress {
  import opened ObjectReferences
  import opened GateHistory
  import opened GateProtocol
  import opened GateSafety
  import opened GateIncarnations
  import opened GateLiveness
  import G = ReadinessGate

  /** Only compliance workers act. */
  predicate WorkersOnly(acts: seq<Action>) {
    forall act :: act in acts ==> act.ComplianceWorker?
  }

  /** acts lead from s to s', and meanwhile no cluster changes and no compliance is created or goes. */
  ghost predicate Drives(s: State, acts: seq<Action>, s': State) {
    && WorkersOnly(acts) && Leads(s, acts, s') && s.log <= s'.log
    && s'.clusters == s.clusters && s'.compliances.Keys == s.compliances.Keys
  }

  lemma {:induction false} LeadsConcat(s: State, acts: seq<Action>, mid: State, rest: seq<Action>, s': State)
    requires Leads(s, acts, mid) && Leads(mid, rest, s')
    ensures Leads(s, acts + rest, s')
    decreases |acts|
  {
    if acts == [] {
      assert acts + rest == rest;
    } else {
      LeadsConcat(Step(s, acts[0]), acts[1..], mid, rest, s');
      assert (acts + rest)[1..] == acts[1..] + rest;
    }
  }

  lemma DrivesConcat(s: State, acts: seq<Action>, mid: State, rest: seq<Action>, s': State)
    requires Drives(s, acts, mid) && Drives(mid, rest, s')
    ensures Drives(s, acts + rest, s')
  {
    LeadsConcat(s, acts, mid, rest, s');
  }

  lemma AnnotatesConcat(s: State, acts: seq<Action>, mid: State, rest: seq<Action>, s': State, c: Cluster)
    requires Drives(s, acts, mid) && Annotates(mid, rest, s', c) && WorkersOnly(rest)
    ensures Annotates(s, acts + rest, s', c) && WorkersOnly(acts + rest)
  {
    LeadsConcat(s, acts, mid, rest, s');
    var i :| |mid.log| <= i < |s'.log| && s'.log[i].Annotated? && s'.log[i].cluster == c;
    assert !Silent(s.log, s'.log, c);
  }

  /** A move that neither annotates nor releases. */
  lemma DriveOne(s: State, a: Compliance, m: ComplianceMove) returns (acts: seq<Action>, s': State)
    requires ComplianceEnabled(s, a, m) && !m.AnnotateNext? && !m.Release?
    ensures Drives(s, acts, s') && s' == ComplianceStep(s, a, m)
  {
    var act := ComplianceWorker(a, m);
    LeadsOne(s, act);
    KeepsObjects(s, a, m);
    acts, s' := [act], ComplianceStep(s, a, m);
  }

  lemma KeepsObjects(s: State, a: Compliance, m: ComplianceMove)
    requires ComplianceEnabled(s, a, m) && !m.AnnotateNext? && !m.Release?
    ensures var s' := ComplianceStep(s, a, m);
            s.log <= s'.log && s'.clusters == s.clusters && s'.compliances.Keys == s.compliances.Keys
  {
  }

  /** The worker can still come to erase. */
  predicate BeforeErase(pc: CompliancePc) {
    pc.ComplianceIdle? || pc.Cleaning? || pc.Erasing?
  }

  lemma FailedCloses(s: State, a: Compliance) returns (acts: seq<Action>, s': State)
    requires CPcOf(s, a).Annotating? && CPcOf(s, a).pending == []
    ensures Drives(s, acts, s') && s'.gate == s.gate && CPcOf(s', a) == ComplianceIdle
  {
    acts, s' := DriveOne(s, a, CloseFails);
  }

  /** A worker gives up what it is doing, or is on its way to an erasure already. */
  lemma GivesUp(s: State, a: Compliance) returns (acts: seq<Action>, s': State)
    ensures Drives(s, acts, s') && s'.gate == s.gate && BeforeErase(CPcOf(s', a))
  {
    var pc := CPcOf(s, a);
    if BeforeErase(pc) {
      acts, s' := [], s;
    } else if pc.Annotating? && pc.pending == [] {
      acts, s' := FailedCloses(s, a);
    } else if pc.Annotating? {
      acts, s' := DriveOne(s, a, FailNext);
      if CPcOf(s', a).Annotating? {
        var rest, mid := [], s';
        rest, s' := FailedCloses(mid, a);
        DrivesConcat(s, acts, mid, rest, s');
        acts := acts + rest;
      }
    } else {
      acts, s' := DriveOne(s, a, GiveUp);
    }
  }

  /** One more move towards the erasure. */
  function TowardsErase(s: State, a: Compliance): ComplianceMove
    requires a in s.compliances
  {
    match CPcOf(s, a)
    case ComplianceIdle => if s.compliances[a].deleting then FetchDeleting else FetchLive
    case Fetched(finalizer) => if finalizer then HasFinalizer else AddFinalizer
    case Mapping => UpdateMaps
    case Collecting => Collect
    case _ => CleanMaps
  }

  /** How many moves are left to the erasure. */
  function Distance(pc: CompliancePc): nat {
    match pc
    case ComplianceIdle => 5
    case Fetched(_) => 4
    case Mapping => 3
    case Collecting => 2
    case Cleaning => 1
    case Erasing(_) => 0
    case Annotating(_, _) => 6
  }

  /** A normal reconcile that has begun is not overtaken by a deletion. */
  predicate OnTheWay(s: State, a: Compliance) {
    && a in s.compliances && !CPcOf(s, a).Annotating?
    && (CPcOf(s, a) == Fetched(false) ==> !s.compliances[a].deleting)
  }

  lemma MoveTowardsErase(s: State, a: Compliance)
    requires OnTheWay(s, a) && !CPcOf(s, a).Erasing?
    ensures ComplianceEnabled(s, a, TowardsErase(s, a))
    ensures var s' := ComplianceStep(s, a, TowardsErase(s, a));
            OnTheWay(s', a) && s'.gate == s.gate && Distance(CPcOf(s', a)) < Distance(CPcOf(s, a))
  {
  }

  lemma {:induction false} ComesToErase(s: State, a: Compliance) returns (acts: seq<Action>, s': State)
    requires OnTheWay(s, a)
    ensures Drives(s, acts, s') && s'.gate == s.gate && CPcOf(s', a).Erasing?
    decreases Distance(CPcOf(s, a))
  {
    if CPcOf(s, a).Erasing? {
      acts, s' := [], s;
    } else {
      MoveTowardsErase(s, a);
      var first, mid := DriveOne(s, a, TowardsErase(s, a));
      var rest;
      rest, s' := ComesToErase(mid, a);
      DrivesConcat(s, first, mid, rest, s');
      acts := first + rest;
    }
  }

  lemma {:induction false} EnumerationExists(s: set<Cluster>) returns (order: seq<Cluster>)
    ensures Enumerates(order, s)
  {
    if s == {} {
      order := [];
    } else {
      var x :| x in s;
      order := EnumerationExists(s - {x});
      order := order + [x];
    }
  }

  lemma EraseNow(s: State, a: Compliance) returns (acts: seq<Action>, s': State)
    requires CPcOf(s, a).Erasing?
    ensures Drives(s, acts, s') && s'.gate == G.Erased(s.gate, a)
    ensures forall c :: c in G.Freed(s.gate, a) ==> Pending(s', a, c)
  {
    var order := EnumerationExists(G.Freed(s.gate, a));
    acts, s' := DriveOne(s, a, Erase(order));
  }

  /** Whatever its worker is doing, a compliance that exists can come to be erased from the gate. */
  lemma GetsErased(s: State, a: Compliance) returns (acts: seq<Action>, s': State)
    requires a in s.compliances
    ensures Drives(s, acts, s') && s'.gate == G.Erased(s.gate, a)
    ensures forall c :: c in G.Freed(s.gate, a) ==> Pending(s', a, c)
  {
    var acts1, s1 := GivesUp(s, a);
    var acts2, s2 := ComesToErase(s1, a);
    var acts3;
    acts3, s' := EraseNow(s2, a);
    DrivesConcat(s, acts1, s1, acts2, s2);
    DrivesConcat(s, acts1 + acts2, s2, acts3, s');
    acts := acts1 + acts2 + acts3;
  }

  lemma ByWorkerIsWorkersOnly(acts: seq<Action>, a: Compliance)
    requires ByWorker(acts, a)
    ensures WorkersOnly(acts)
  {
  }

  /** As long as every compliance it waits for exists, reconciles of those compliances can lead to a
      waiting cluster's annotation. */
  lemma {:induction false} MembersLoad(s: State, c: Cluster) returns (acts: seq<Action>, s': State)
    requires Unannotated(s, c) && c in s.gate && s.gate[c] != {} && s.gate[c] <= s.compliances.Keys
    ensures Annotates(s, acts, s', c) && WorkersOnly(acts)
    decreases |s.gate[c]|
  {
    var a :| a in s.gate[c];
    var first, mid := GetsErased(s, a);
    assert mid.gate[c] == s.gate[c] - {a};
    var rest;
    if s.gate[c] == {a} {
      assert c in G.Freed(s.gate, a);
      rest, s' := PendingAnnotates(mid, a, c);
      ByWorkerIsWorkersOnly(rest, a);
    } else {
      assert mid.gate[c] != {} by {
        var b :| b in s.gate[c] && b != a;
        assert b in mid.gate[c];
      }
      rest, s' := MembersLoad(mid, c);
    }
    AnnotatesConcat(s, first, mid, rest, s', c);
    acts := first + rest;
  }

  /** No compliance is created. */
  predicate NothingCreated(acts: seq<Action>) {
    forall act :: act in acts ==> !(act.User? && act.edit.CreateCompliance?)
  }

  /** acts annotate c with no restart, no removal of its entry and no new compliance. */
  ghost predicate Served(s: State, acts: seq<Action>, c: Cluster) {
    Awakens(s, acts, c) && NothingCreated(acts)
  }

  lemma ServedWithout(s: State, acts: seq<Action>, c: Cluster, a: Compliance)
    requires Served(s, acts, c)
    ensures AnnotatesOrphan(s, acts, c, a)
  {
    var s' :| Annotates(s, acts, s', c);
  }

  /** A cluster that still waits can come to be annotated, without a restart, the removal of its entry or
      a new compliance, if and only if every compliance it waits for exists, or a compliance's worker
      holds its name from an earlier entry. */
  lemma ServedIffMembersExist(s: State, c: Cluster)
    requires Reachable(s) && Unannotated(s, c) && c in s.gate && s.gate[c] != {}
    ensures (exists acts :: Served(s, acts, c)) <==> s.gate[c] <= s.compliances.Keys || exists b :: Pending(s, b, c)
  {
    if s.gate[c] <= s.compliances.Keys {
      var acts, s' := MembersLoad(s, c);
      assert Awakens(s, acts, c);
      assert Served(s, acts, c);
    } else if b :| Pending(s, b, c) {
      var acts, s' := PendingAnnotates(s, b, c);
      assert Awakens(s, acts, c);
      assert Served(s, acts, c);
    } else {
      var a :| a in s.gate[c] && a !in s.compliances;
      OrphanBlocksIff(s, c, a);
      forall acts ensures !Served(s, acts, c) {
        if Served(s, acts, c) {
          ServedWithout(s, acts, c, a);
        }
      }
    }
  }
}
