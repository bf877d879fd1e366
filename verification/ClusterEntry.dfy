/** The cluster side of the gate: which compliances a new cluster waits for. */
module ClusterEntry {
  import opened ObjectReferences
  import opened ReadinessGate
  import opened Loader

  /** An AddonCompliance as the two matching rules read it. */
  datatype ComplianceSpec = ComplianceSpec(selector: Selector, clusterRefs: set<ObjectReference>)

  /** The compliances whose selector matches the cluster's labels, whatever their cluster references. */
  function Snapshot(matcher: Matcher, specs: map<ObjectReference, Selector>, labels: Labels): set<ObjectReference> {
    set a | a in specs && matcher(specs[a], labels)
  }

  /** The clusters a compliance matches when it is itself reconciled: none by an empty selector, and
      every cluster it names. */
  function MatchingClusters(matcher: Matcher, clusters: map<ObjectReference, Labels>,
                            spec: ComplianceSpec): set<ObjectReference> {
    (if spec.selector == "" then {} else set c | c in clusters && matcher(spec.selector, clusters[c]))
        + spec.clusterRefs
  }

  /** The cluster's snapshot and the compliance's own matching disagree exactly when the selector is
      empty and matches everything while the cluster is not named, or the cluster is matched by name
      alone. In the second case the cluster is annotated without waiting for that compliance. */
  lemma SnapshotAgreesWithMatching(matcher: Matcher, specs: map<ObjectReference, Selector>,
                                   clusters: map<ObjectReference, Labels>,
                                   a: ObjectReference, spec: ComplianceSpec, c: ObjectReference)
    requires a in specs && specs[a] == spec.selector && c in clusters
    ensures (a in Snapshot(matcher, specs, clusters[c]) <==> c in MatchingClusters(matcher, clusters, spec))
      <==>
        || (c in spec.clusterRefs <==> matcher(spec.selector, clusters[c]))
        || (spec.selector != "" && c !in spec.clusterRefs)
  {
    assert a in Snapshot(matcher, specs, clusters[c]) <==> matcher(spec.selector, clusters[c]);
  }

  /** Builds the snapshot in a set of its own and stores it, so entries never come to share a set. */
  method AddClusterEntry(m: Manager, cluster: ObjectReference, listed: seq<(ObjectReference, Selector)>,
                         labels: Labels, matcher: Matcher)
    modifies m
    ensures m.Model()
            == Apply(old(m.Model()),
                     Insert(cluster, set i | 0 <= i < |listed| && matcher(listed[i].1, labels) :: listed[i].0))
    ensures old(m.Unaliased()) ==> m.Unaliased()
  {
    var s := new RefSet();
    for i := 0 to |listed|
      invariant s.elems == set j | 0 <= j < i && matcher(listed[j].1, labels) :: listed[j].0
      invariant fresh(s) && m.addonConstraints == old(m.addonConstraints) && m.Model() == old(m.Model())
    {
      if matcher(listed[i].1, labels) {
        s.Insert(listed[i].0);
      }
    }
    m.AddClusterEntry(cluster, s);
  }
}
