/** What an annotation says about the status of the compliances it waited for: the status is persisted
    only when a reconcile closes, after it has annotated. */
module GatePublication {
  import opened ObjectReferences
  import opened GateHistory
  import opened GateProtocol
  import opened GateSafety
  import G = ReadinessGate

  /** a's reconcile has collected a's validations and has not closed yet. */
  predicate Loading(s: State, a: Compliance) {
    CPcOf(s, a) == Erasing(Loaded) || (CPcOf(s, a).Annotating? && CPcOf(s, a).cause == Loaded)
  }

  ghost predicate PublishOk(s: State, a: Compliance) {
    Unpublished(s.log, a) <==> PublicationLost(s.log, a) || Loading(s, a)
  }

  /** What a worker holds it may annotate on the strength of a snapshot that its compliance was in. */
  ghost predicate MemberOk(s: State, a: Compliance) {
    CPcOf(s, a).Annotating? ==> forall c :: c in CPcOf(s, a).pending ==> MemberJustified(s.log, c, a)
  }

  ghost predicate MemberJustified(log: History, c: Cluster, a: Compliance) {
    exists j :: JustifiedBy(log, |log|, c, j) && a in log[j].members
  }

  /** An event about the publication of other compliances only. */
  predicate Apart(e: Event, a: Compliance) {
    e != Restarted && e != Collected(a) && e != Published(a) && e != PublishFailed(a)
  }

  ghost predicate Appended(s: State, s': State) {
    s'.log == s.log || (|s'.log| == |s.log| + 1 && s'.log == s.log + [s'.log[|s.log|]])
  }

  lemma PublishKeptElsewhere(s: State, s': State, a: Compliance)
    requires PublishOk(s, a) && CPcOf(s', a) == CPcOf(s, a) && Appended(s, s')
    requires s'.log != s.log ==> Apart(s'.log[|s.log|], a)
    ensures PublishOk(s', a)
  {
    if s'.log != s.log {
      PublicationSnoc(s.log, s'.log[|s.log|], a);
    }
  }

  /** How a's own worker moves a towards publication, or away from it. */
  lemma OwnMove(s: State, a: Compliance, m: ComplianceMove)
    requires ComplianceEnabled(s, a, m)
    ensures var s' := ComplianceStep(s, a, m);
            match m
            case Collect => s'.log == s.log + [Collected(a)] && Loading(s', a)
            case Publish => s'.log == s.log + [Published(a)] && !Loading(s', a)
            case CloseFails => s'.log == s.log + [PublishFailed(a)] && !Loading(s', a)
            case _ =>
              && (s'.log == s.log || exists e :: Apart(e, a) && s'.log == s.log + [e])
              && Loading(s', a) == Loading(s, a)
  {
    var s' := ComplianceStep(s, a, m);
    if s'.log != s.log && !m.Collect? && !m.Publish? && !m.CloseFails? {
      assert Apart(s'.log[|s.log|], a) && s'.log == s.log + [s'.log[|s.log|]];
    }
  }

  lemma PublishKeptByOwn(s: State, a: Compliance, m: ComplianceMove)
    requires PublishOk(s, a) && ComplianceEnabled(s, a, m)
    ensures PublishOk(ComplianceStep(s, a, m), a)
  {
    var log' := ComplianceStep(s, a, m).log;
    OwnMove(s, a, m);
    if m.Collect? {
      PublicationSnoc(s.log, Collected(a), a);
    } else if m.Publish? {
      PublicationSnoc(s.log, Published(a), a);
    } else if m.CloseFails? {
      PublicationSnoc(s.log, PublishFailed(a), a);
    } else if log' != s.log {
      var e :| Apart(e, a) && log' == s.log + [e];
      PublicationSnoc(s.log, e, a);
    }
  }

  lemma ClusterAppends(s: State, c: Cluster, m: ClusterMove)
    requires ClusterEnabled(s, c, m)
    ensures var s' := ClusterStep(s, c, m);
            Appended(s, s') && s'.compliancePcs == s.compliancePcs
                && (s'.log != s.log ==> forall a :: Apart(s'.log[|s.log|], a))
  {
  }

  lemma ComplianceAppends(s: State, a: Compliance, m: ComplianceMove)
    requires ComplianceEnabled(s, a, m)
    ensures var s' := ComplianceStep(s, a, m);
            Appended(s, s') && (forall b :: b != a ==> CPcOf(s', b) == CPcOf(s, b))
            && (s'.log != s.log ==> s'.log[|s.log|] != Restarted && forall b :: b != a ==> Apart(s'.log[|s.log|], b))
  {
  }

  lemma MemberKept(s: State, s': State, a: Compliance)
    requires MemberOk(s, a) && Appended(s, s') && (s'.log != s.log ==> s'.log[|s.log|] != Restarted)
    requires CPcOf(s', a).Annotating? ==>
               CPcOf(s, a).Annotating? && forall c :: c in CPcOf(s', a).pending ==> c in CPcOf(s, a).pending
    ensures MemberOk(s', a)
  {
    if CPcOf(s', a).Annotating? && s'.log != s.log {
      var e := s'.log[|s.log|];
      forall c | c in CPcOf(s', a).pending ensures MemberJustified(s'.log, c, a) {
        var j :| JustifiedBy(s.log, |s.log|, c, j) && a in s.log[j].members;
        JustifiedStill(s.log, e, c, j);
        assert s'.log[j] == s.log[j];
      }
    }
  }

  /** Who empties an entry was in the snapshot that the entry goes back to. */
  lemma EraserIsMember(s: State, a: Compliance, order: seq<Cluster>)
    requires LogOk(s) && ComplianceEnabled(s, a, Erase(order))
    ensures MemberOk(ComplianceStep(s, a, Erase(order)), a)
  {
    var s' := ComplianceStep(s, a, Erase(order));
    var e := Erased(a, CPcOf(s, a).cause);
    GateOfSnoc(s.log, e);
    forall c | c in order ensures MemberJustified(s'.log, c, a) {
      assert c in G.Freed(s.gate, a);
      var j := EntryOrigin(s.log, c);
      assert a in s.gate[c];
      forall b | b in s.log[j].members ensures ErasedBetween(s'.log, b, j, |s'.log|) {
        ErasedBetweenSnoc(s.log, e, b, j);
      }
      assert s'.log[j] == s.log[j];
      assert JustifiedBy(s'.log, |s'.log|, c, j);
    }
  }

  lemma MemberKeptByOwn(s: State, a: Compliance, m: ComplianceMove)
    requires LogOk(s) && MemberOk(s, a) && ComplianceEnabled(s, a, m)
    ensures MemberOk(ComplianceStep(s, a, m), a)
  {
    if m.Erase? {
      EraserIsMember(s, a, m.order);
    } else {
      ComplianceAppends(s, a, m);
      MemberKept(s, ComplianceStep(s, a, m), a);
    }
  }

  ghost predicate PublicationOk(s: State) {
    forall a :: PublishOk(s, a) && MemberOk(s, a)
  }

  lemma PublicationStep(s: State, act: Action)
    requires Inv(s) && PublicationOk(s) && Enabled(s, act)
    ensures PublicationOk(Step(s, act))
  {
    match act
    case User(e) =>
      EditLeavesHistory(s, e);
      forall b ensures PublishOk(EditStep(s, e), b) && MemberOk(EditStep(s, e), b) {
        assert PublishOk(s, b) && MemberOk(s, b);
      }
    case ClusterWorker(c, m) =>
      ClusterAppends(s, c, m);
      forall b ensures PublishOk(ClusterStep(s, c, m), b) && MemberOk(ClusterStep(s, c, m), b) {
        assert PublishOk(s, b) && MemberOk(s, b);
        PublishKeptElsewhere(s, ClusterStep(s, c, m), b);
        MemberKept(s, ClusterStep(s, c, m), b);
      }
    case ComplianceWorker(a, m) =>
      ComplianceAppends(s, a, m);
      forall b ensures PublishOk(ComplianceStep(s, a, m), b) && MemberOk(ComplianceStep(s, a, m), b) {
        assert PublishOk(s, b) && MemberOk(s, b);
        if b == a {
          PublishKeptByOwn(s, a, m);
          MemberKeptByOwn(s, a, m);
        } else {
          PublishKeptElsewhere(s, ComplianceStep(s, a, m), b);
          MemberKept(s, ComplianceStep(s, a, m), b);
        }
      }
    case Restart =>
      forall b ensures PublishOk(RestartStep(s), b) {
        PublicationSnoc(s.log, Restarted, b);
      }
  }

  lemma {:induction false} PublicationOverRun(s: State, acts: seq<Action>, s': State)
    requires Inv(s) && PublicationOk(s) && Leads(s, acts, s')
    ensures Inv(s') && PublicationOk(s')
    decreases |acts|
  {
    if acts != [] {
      PublicationStep(s, acts[0]);
      InvStep(s, acts[0]);
      PublicationOverRun(Step(s, acts[0]), acts[1..], s');
    }
  }

  lemma ReachablePublication(s: State)
    requires Reachable(s)
    ensures Inv(s) && PublicationOk(s)
  {
    var acts :| Leads(INIT, acts, s);
    PublicationOverRun(INIT, acts, s);
  }

  /** Every annotation that a loading reconcile makes comes too early for the status: it rests on a
      snapshot with the reconciled compliance in it, whose validations are not published. */
  lemma LoadingAnnotatesUnpublished(s: State, a: Compliance)
    requires Reachable(s) && ComplianceEnabled(s, a, AnnotateNext) && CPcOf(s, a).cause == Loaded
    ensures var c := CPcOf(s, a).pending[0];
            exists j :: JustifiedBy(s.log, |s.log|, c, j) && a in s.log[j].members && Unpublished(s.log, a)
    ensures Unpublished(ComplianceStep(s, a, AnnotateNext).log, a)
  {
    ReachablePublication(s);
    assert PublishOk(s, a) && MemberOk(s, a);
    var c := CPcOf(s, a).pending[0];
    assert MemberJustified(s.log, c, a);
    PublicationSnoc(s.log, Annotated(c, s.clusters[c].incarnation), a);
  }

  /** In every run, and so at every annotation, all that was collected for a snapshot is published if
      and only if no member's reconcile is still loading it, and none failed to close, and no restart
      came, between collecting and publishing. */
  lemma SnapshotPublishedIff(s: State, members: set<Compliance>)
    requires Reachable(s)
    ensures (forall a :: a in members ==> !Unpublished(s.log, a)) <==>
              forall a :: a in members ==> !Loading(s, a) && !PublicationLost(s.log, a)
  {
    ReachablePublication(s);
    forall a ensures Unpublished(s.log, a) <==> PublicationLost(s.log, a) || Loading(s, a) {
      assert PublishOk(s, a);
    }
  }
}
