/** Histories of the gate protocol: what they say about the gate, and what makes an annotation
    justified. */
module GateHistory {
  import opened ObjectReferences
  import G = ReadinessGate

  type Cluster = ObjectReference
  type Compliance = ObjectReference

  /** Why a compliance is erased from the gate. */
  datatype Cause = Loaded | Deleted

  datatype Event =
    | Inserted(cluster: Cluster, incarnation: nat, members: set<Compliance>)
    | Removed(cluster: Cluster)
    | Collected(compliance: Compliance)
    | Erased(compliance: Compliance, cause: Cause)
    | Annotated(cluster: Cluster, incarnation: nat)
    | AnnotateFailed(dropped: seq<Cluster>)
    | Published(compliance: Compliance)
    | PublishFailed(compliance: Compliance)
    | Restarted

  type History = seq<Event>

  function GateAfter(g: G.Gate, e: Event): G.Gate {
    match e
    case Inserted(c, _, members) => G.Apply(g, G.Insert(c, members))
    case Removed(c) => G.Apply(g, G.Remove(c))
    case Erased(a, _) => G.Apply(g, G.Erase(a))
    case Restarted => map[]
    case _ => g
  }

  function GateOf(log: History): G.Gate {
    if log == [] then map[] else GateAfter(GateOf(log[..|log| - 1]), log[|log| - 1])
  }

  lemma GateOfSnoc(log: History, e: Event)
    ensures GateOf(log + [e]) == GateAfter(GateOf(log), e)
  {
    assert (log + [e])[..|log|] == log;
  }

  ghost predicate ErasedBetween(log: History, a: Compliance, j: int, i: int) {
    exists k :: 0 <= j < k < i <= |log| && log[k].Erased? && log[k].compliance == a
  }

  ghost predicate NoRestart(log: History, j: int, i: int) {
    0 <= j <= i <= |log| && forall k :: j <= k < i ==> log[k] != Restarted
  }

  /** The insertion at j justifies annotating c at i: the process has not restarted in between, and
      every compliance of the inserted snapshot has been erased in between. */
  ghost predicate JustifiedBy(log: History, i: int, c: Cluster, j: int) {
    && 0 <= j < i <= |log|
    && log[j].Inserted? && log[j].cluster == c
    && NoRestart(log, j, i)
    && forall a :: a in log[j].members ==> ErasedBetween(log, a, j, i)
  }

  ghost predicate Justified(log: History, c: Cluster) {
    exists j :: JustifiedBy(log, |log|, c, j)
  }

  lemma ErasedBetweenGrows(log: History, e: Event, a: Compliance, j: int, i: int, i': int)
    requires ErasedBetween(log, a, j, i) && i <= i' <= |log| + 1
    ensures ErasedBetween(log + [e], a, j, i')
  {
    var k :| 0 <= j < k < i <= |log| && log[k].Erased? && log[k].compliance == a;
    assert (log + [e])[k] == log[k];
  }

  lemma ErasedBetweenSnoc(log: History, e: Event, a: Compliance, j: int)
    requires 0 <= j < |log|
    ensures ErasedBetween(log + [e], a, j, |log| + 1)
            <==> ErasedBetween(log, a, j, |log|) || (e.Erased? && e.compliance == a)
  {
    if e.Erased? && e.compliance == a {
      assert (log + [e])[|log|] == e;
    }
    if ErasedBetween(log, a, j, |log|) {
      ErasedBetweenGrows(log, e, a, j, |log|, |log| + 1);
    }
  }

  /** A justification is about the past: later events leave it as it is. */
  lemma JustifiedByKept(log: History, e: Event, i: int, c: Cluster, j: int)
    requires JustifiedBy(log, i, c, j)
    ensures JustifiedBy(log + [e], i, c, j)
  {
    forall a | a in log[j].members ensures ErasedBetween(log + [e], a, j, i) {
      ErasedBetweenGrows(log, e, a, j, i, i);
    }
  }

  /** Short of a restart, what justifies annotating a cluster now still does so later. */
  lemma JustifiedStill(log: History, e: Event, c: Cluster, j: int)
    requires JustifiedBy(log, |log|, c, j) && e != Restarted
    ensures JustifiedBy(log + [e], |log| + 1, c, j)
  {
    forall a | a in log[j].members ensures ErasedBetween(log + [e], a, j, |log| + 1) {
      ErasedBetweenGrows(log, e, a, j, |log|, |log| + 1);
    }
  }

  lemma JustifiedKept(log: History, e: Event, c: Cluster)
    requires Justified(log, c) && e != Restarted
    ensures Justified(log + [e], c)
  {
    var j :| JustifiedBy(log, |log|, c, j);
    JustifiedStill(log, e, c, j);
  }

  /** Every entry of the gate goes back to the last insertion for its cluster, and holds exactly what
      was inserted then and has not been erased since. */
  lemma {:induction false} EntryOrigin(log: History, c: Cluster) returns (j: int)
    requires c in GateOf(log)
    ensures 0 <= j < |log| && log[j].Inserted? && log[j].cluster == c && NoRestart(log, j, |log|)
    ensures log[j].incarnation == LastInc(log, c)
    ensures forall k :: j < k < |log| && log[k].Inserted? ==> log[k].cluster != c
    ensures forall a :: a in GateOf(log)[c] <==> a in log[j].members && !ErasedBetween(log, a, j, |log|)
  {
    var n := |log| - 1;
    var init, e := log[..n], log[n];
    assert log == init + [e];
    if e.Inserted? && e.cluster == c {
      j := n;
    } else {
      j := EntryOrigin(init, c);
      forall a ensures a in GateOf(log)[c] <==> a in log[j].members && !ErasedBetween(log, a, j, |log|) {
        ErasedBetweenSnoc(init, e, a, j);
      }
    }
  }

  /** c was inserted at j, and since then neither removed nor forgotten by a restart. */
  ghost predicate EntryFrom(log: History, c: Cluster, j: int) {
    0 <= j < |log| && log[j].Inserted? && log[j].cluster == c
    && forall k :: j < k < |log| ==> log[k] != Restarted && log[k] != Removed(c)
  }

  /** There is an entry exactly if it was inserted, and neither removed nor forgotten since. */
  lemma {:induction false} EntryIff(log: History, c: Cluster)
    ensures c in GateOf(log) <==> exists j :: EntryFrom(log, c, j)
  {
    if log != [] {
      var n := |log| - 1;
      var init, e := log[..n], log[n];
      EntryIff(init, c);
      if c in GateOf(log) {
        if e.Inserted? && e.cluster == c {
          assert EntryFrom(log, c, n);
        } else {
          var j :| EntryFrom(init, c, j);
          assert EntryFrom(log, c, j);
        }
      }
      if j :| EntryFrom(log, c, j) {
        assert j < n ==> EntryFrom(init, c, j);
      }
    }
  }

  /** An entry that has run empty justifies annotating its cluster. */
  lemma EmptyEntryJustifies(log: History, c: Cluster)
    requires c in GateOf(log) && GateOf(log)[c] == {}
    ensures Justified(log, c)
  {
    var j := EntryOrigin(log, c);
    assert JustifiedBy(log, |log|, c, j);
  }

  /** Each annotation the controller made is justified, by a snapshot that was taken for this
      incarnation of the cluster or for an earlier one of the same name. */
  ghost predicate AnnotationsJustified(log: History) {
    forall i :: 0 <= i < |log| && log[i].Annotated? ==>
      exists j :: JustifiedBy(log, i, log[i].cluster, j) && 1 <= log[j].incarnation <= log[i].incarnation
  }

  /** Validations of a were collected at h, by the reconcile that erases a at k. */
  ghost predicate CollectedFor(log: History, a: Compliance, h: int, k: int) {
    && 0 <= h < k <= |log| && log[h] == Collected(a)
    && forall m :: h < m < k ==> log[m] != Restarted && !(log[m].Erased? && log[m].compliance == a)
  }

  /** No compliance was erased as loaded unless its validations had just been collected. */
  ghost predicate ErasuresHonest(log: History) {
    forall k :: 0 <= k < |log| && log[k].Erased? && log[k].cause == Loaded ==>
      exists h :: CollectedFor(log, log[k].compliance, h, k)
  }

  lemma AnnotationsJustifiedSnoc(log: History, e: Event)
    requires AnnotationsJustified(log)
    requires e.Annotated? ==>
               exists j :: JustifiedBy(log, |log|, e.cluster, j) && 1 <= log[j].incarnation <= e.incarnation
    ensures AnnotationsJustified(log + [e])
  {
    var log' := log + [e];
    forall i | 0 <= i < |log'| && log'[i].Annotated?
      ensures exists j :: JustifiedBy(log', i, log'[i].cluster, j) && 1 <= log'[j].incarnation <= log'[i].incarnation
    {
      var j :| JustifiedBy(log, i, log'[i].cluster, j) && 1 <= log[j].incarnation <= log'[i].incarnation;
      JustifiedByKept(log, e, i, log'[i].cluster, j);
      assert log'[j] == log[j];
    }
  }

  lemma ErasuresHonestSnoc(log: History, e: Event)
    requires ErasuresHonest(log)
    requires e.Erased? && e.cause == Loaded ==> exists h :: CollectedFor(log, e.compliance, h, |log|)
    ensures ErasuresHonest(log + [e])
  {
    var log' := log + [e];
    forall k | 0 <= k < |log'| && log'[k].Erased? && log'[k].cause == Loaded
      ensures exists h :: CollectedFor(log', log'[k].compliance, h, k)
    {
      var h :| CollectedFor(log, log'[k].compliance, h, k);
      assert CollectedFor(log', log'[k].compliance, h, k);
    }
  }

  /** How often c was inserted since the last restart. */
  function Inserts(log: History, c: Cluster): nat {
    if log == [] || log[|log| - 1] == Restarted then 0
    else Inserts(log[..|log| - 1], c) + if log[|log| - 1].Inserted? && log[|log| - 1].cluster == c then 1 else 0
  }

  /** The incarnation for which c was inserted last since the last restart, 0 if it was not. */
  function LastInc(log: History, c: Cluster): nat {
    if log == [] || log[|log| - 1] == Restarted then 0
    else if log[|log| - 1].Inserted? && log[|log| - 1].cluster == c then log[|log| - 1].incarnation
    else LastInc(log[..|log| - 1], c)
  }

  /** c's annotation was given up on since c was last inserted or the process restarted. */
  predicate DroppedSince(log: History, c: Cluster) {
    if log == [] || log[|log| - 1] == Restarted || (log[|log| - 1].Inserted? && log[|log| - 1].cluster == c) then false
    else (log[|log| - 1].AnnotateFailed? && c in log[|log| - 1].dropped) || DroppedSince(log[..|log| - 1], c)
  }

  /** What was last collected for a has not been published. */
  predicate Unpublished(log: History, a: Compliance) {
    if log == [] || log[|log| - 1] == Published(a) then false
    else log[|log| - 1] == Collected(a) || Unpublished(log[..|log| - 1], a)
  }

  /** And it will not be: since then publishing it has failed, or the process has restarted. */
  predicate PublicationLost(log: History, a: Compliance) {
    if log == [] || log[|log| - 1] == Published(a) || log[|log| - 1] == Collected(a) then false
    else if log[|log| - 1] == Restarted || log[|log| - 1] == PublishFailed(a) then Unpublished(log[..|log| - 1], a)
    else PublicationLost(log[..|log| - 1], a)
  }

  lemma HistorySnoc(log: History, e: Event, c: Cluster)
    ensures e == Restarted ==> Inserts(log + [e], c) == 0 && LastInc(log + [e], c) == 0 && !DroppedSince(log + [e], c)
    ensures e.Inserted? && e.cluster == c ==>
              Inserts(log + [e], c) == Inserts(log, c) + 1 && LastInc(log + [e], c) == e.incarnation
                  && !DroppedSince(log + [e], c)
    ensures e != Restarted && !(e.Inserted? && e.cluster == c) ==>
              && Inserts(log + [e], c) == Inserts(log, c) && LastInc(log + [e], c) == LastInc(log, c)
              && (DroppedSince(log + [e], c) <==> (e.AnnotateFailed? && c in e.dropped) || DroppedSince(log, c))
  {
    assert (log + [e])[..|log|] == log;
  }

  lemma PublicationSnoc(log: History, e: Event, a: Compliance)
    ensures Unpublished(log + [e], a) <==> e == Collected(a) || (e != Published(a) && Unpublished(log, a))
    ensures PublicationLost(log + [e], a) <==>
              e != Published(a) && e != Collected(a)
              && if e == Restarted || e == PublishFailed(a) then Unpublished(log, a) else PublicationLost(log, a)
  {
    assert (log + [e])[..|log|] == log;
  }
}
