/** The AddonCompliance reconciler's memory, and which compliances an event puts back on the queue. */
module Requeue {
  import opened ObjectReferences
  import opened TwoWayIndex

  datatype Request = Request(namespace: string, name: string)

  /** One entry of a compliance's list of validation sources. */
  datatype ValidationRef = ValidationRef(kind: string, namespace: string, name: string, path: string)

  const CORE_V1 := "v1"
  const SOURCE_V1 := "source.toolkit.fluxcd.io/v1"
  const SOURCE_V1BETA2 := "source.toolkit.fluxcd.io/v1beta2"

  /** The empty case for an OCIRepository ends the switch, so its API version is the default one. */
  function ReferenceAPIVersion(kind: string): string {
    match kind
    case "ConfigMap" => CORE_V1
    case "Secret" => CORE_V1
    case "OCIRepository" => ""
    case "Bucket" => SOURCE_V1BETA2
    case "GitRepository" => SOURCE_V1
    case _ => ""
  }

  /** The key under which a reference is recorded. */
  function ReferenceKey(ref: ValidationRef): ObjectReference {
    ObjectReference(ref.namespace, ref.name, ref.kind, ReferenceAPIVersion(ref.kind))
  }

  function CurrentReferences(refs: seq<ValidationRef>): set<ObjectReference> {
    set ref | ref in refs :: ReferenceKey(ref)
  }

  function ReferenceKeys(refs: seq<ValidationRef>): (keys: seq<ObjectReference>)
    ensures (set r | r in keys) == CurrentReferences(refs)
  {
    if refs == [] then []
    else
      assert CurrentReferences(refs) == {ReferenceKey(refs[0])} + CurrentReferences(refs[1..]);
      [ReferenceKey(refs[0])] + ReferenceKeys(refs[1..])
  }

  datatype Source = ConfigMap | Secret | GitRepository | OCIRepository | Bucket

  function KindOf(source: Source): string {
    match source
    case ConfigMap => "ConfigMap"
    case Secret => "Secret"
    case GitRepository => "GitRepository"
    case OCIRepository => "OCIRepository"
    case Bucket => "Bucket"
  }

  /** The key under which an event on a source object is looked up. */
  function EventKey(source: Source, namespace: string, name: string): ObjectReference {
    match source
    case ConfigMap => ObjectReference(namespace, name, "ConfigMap", CORE_V1)
    case Secret => ObjectReference(namespace, name, "Secret", CORE_V1)
    case GitRepository => ObjectReference(namespace, name, "GitRepository", SOURCE_V1)
    case OCIRepository => ObjectReference(namespace, name, "OCIRepository", SOURCE_V1BETA2)
    case Bucket => ObjectReference(namespace, name, "Bucket", SOURCE_V1BETA2)
  }

  predicate Lists(refs: seq<ValidationRef>, source: Source, namespace: string, name: string) {
    exists i :: 0 <= i < |refs| && refs[i].kind == KindOf(source) && refs[i].namespace == namespace
        && refs[i].name == name
  }

  /** Written and looked-up keys agree for every kind of source but OCIRepository, where they never
      do: a change of an OCIRepository finds no compliance, whatever the compliances list. */
  lemma EventFindsReference(refs: seq<ValidationRef>, source: Source, namespace: string, name: string)
    ensures EventKey(source, namespace, name) in CurrentReferences(refs)
      <==> Lists(refs, source, namespace, name) && source != OCIRepository
  {
    var key := EventKey(source, namespace, name);
    if Lists(refs, source, namespace, name) && source != OCIRepository {
      var i :| 0 <= i < |refs| && refs[i].kind == KindOf(source) && refs[i].namespace == namespace
          && refs[i].name == name;
      assert ReferenceKey(refs[i]) == key;
    }
    if key in CurrentReferences(refs) {
      var ref :| ref in refs && ReferenceKey(ref) == key;
    }
  }

  datatype GroupVersionKind = GroupVersionKind(group: string, version: string, kind: string)

  /** The type information set on an object: the first usable one that the scheme has registered for
      its Go type, or what it carried before. */
  function TypeInformation(registered: seq<GroupVersionKind>, before: GroupVersionKind): GroupVersionKind {
    if registered == [] then before
    else if registered[0].kind == "" || registered[0].version == "" || registered[0].version == "__internal" then
      TypeInformation(registered[1..], before)
    else registered[0]
  }

  function APIVersion(t: GroupVersionKind): string {
    if t.group == "" then t.version else t.group + ['/'] + t.version
  }

  /** The key that an event on a cluster is looked up under. */
  function ClusterEventKey(t: GroupVersionKind, namespace: string, name: string): ObjectReference {
    ObjectReference(namespace, name, t.kind, APIVersion(t))
  }

  /** The key that an event on a machine is looked up under: the kind is spelled out, and the API version
      is the machine's own. */
  function MachineEventKey(t: GroupVersionKind, namespace: string, clusterName: string): ObjectReference {
    ObjectReference(namespace, clusterName, "Cluster", APIVersion(t))
  }

  predicate NoSlash(t: GroupVersionKind) {
    '/' !in t.group && '/' !in t.version
  }

  lemma SameAPIVersion(t: GroupVersionKind, t': GroupVersionKind)
    requires NoSlash(t) && NoSlash(t')
    ensures APIVersion(t) == APIVersion(t') <==> t.group == t'.group && t.version == t'.version
  {
    var v, v' := APIVersion(t), APIVersion(t');
    if v == v' {
      assert t.group != "" ==> v[|t.group|] == '/';
      assert t'.group != "" ==> v'[|t'.group|] == '/';
      if t.group != "" && t'.group != "" {
        SlashAt(t.group, t.version, t'.group, t'.version);
      }
    }
  }

  lemma SlashAt(g: string, v: string, g': string, v': string)
    requires '/' !in g && '/' !in g' && g + ['/'] + v == g' + ['/'] + v'
    ensures g == g' && v == v'
  {
    var s := g + ['/'] + v;
    assert s[|g|] == '/' && s[|g'|] == '/';
    assert forall i :: 0 <= i < |g| ==> s[i] == g[i];
    assert forall i :: 0 <= i < |g'| ==> s[i] == g'[i];
    assert |g| == |g'|;
    assert s[..|g|] == g && s[..|g'|] == g' && s[|g| + 1..] == v && s[|g'| + 1..] == v';
  }

  const CLUSTER_TYPE := GroupVersionKind("cluster.x-k8s.io", "v1beta1", "Cluster")
  const MACHINE_TYPE := GroupVersionKind("cluster.x-k8s.io", "v1beta1", "Machine")
  const SVELTOS_TYPE := GroupVersionKind("lib.projectsveltos.io", "v1alpha1", "SveltosCluster")

  predicate Usable(t: GroupVersionKind) {
    t.kind != "" && t.version != "" && t.version != "__internal"
  }

  /** The type information is that of the first registered type that can be used. */
  lemma {:induction false} TypeInformationIsFirst(registered: seq<GroupVersionKind>, before: GroupVersionKind)
    ensures var t := TypeInformation(registered, before);
            || (t == before && forall i :: 0 <= i < |registered| ==> !Usable(registered[i]))
            || (exists i :: 0 <= i < |registered| && t == registered[i] && Usable(t)
                            && forall j :: 0 <= j < i ==> !Usable(registered[j]))
  {
    if registered != [] && !Usable(registered[0]) {
      var rest := registered[1..];
      TypeInformationIsFirst(rest, before);
      assert forall i :: 1 <= i < |registered| ==> registered[i] == rest[i - 1];
      if i :| 0 <= i < |rest| && TypeInformation(rest, before) == rest[i] && Usable(rest[i])
              && forall j :: 0 <= j < i ==> !Usable(rest[j]) {
        assert registered[i + 1] == rest[i];
      }
    }
  }

  /** Only the kinds whose case ends in a return have an API version. */
  lemma VersionedKinds(kind: string)
    ensures ReferenceAPIVersion(kind) != "" <==>
              kind == "ConfigMap" || kind == "Secret" || kind == "Bucket" || kind == "GitRepository"
  {
  }

  /** What a cluster event puts on the queue: who recorded the cluster, and whose stored selector
      matches the labels the event carries. */
  function ClusterRequeue(ix: Index, stored: map<Name, Selector>, matcher: Matcher, c: ObjectReference,
                          labels: Labels): set<Name> {
    (set k | k in Consumers(ix, c) :: k.name) + (set a | a in stored && matcher(stored[a], labels))
  }

  /** A cluster event misses no compliance whose match changes with it: given a consistent index, it
      requeues every compliance that recorded the cluster or whose stored selector matches now. */
  lemma ClusterRequeueCovers(ix: Index, stored: map<Name, Selector>, matcher: Matcher, c: ObjectReference,
                             labels: Labels, a: Name)
    requires Consistent(ix)
    ensures a in ClusterRequeue(ix, stored, matcher, c, labels)
      <==> c in Recorded(ix, a) || (a in stored && matcher(stored[a], labels))
  {
    assert ComplianceKey(a) in Consumers(ix, c) <==> c in Recorded(ix, a);
    assert ComplianceKey(a).name == a;
    forall k | k in Consumers(ix, c) && k.name == a ensures c in Recorded(ix, a) {
      assert k == ComplianceKey(k.name);
    }
  }

  /** What a machine event puts on the queue; without stored labels, only who recorded the cluster. */
  function MachineRequeue(ix: Index, stored: map<Name, Selector>, matcher: Matcher,
                          clusterLabels: map<ObjectReference, Labels>,
                          c: ObjectReference): set<Name>
  {
    if c in clusterLabels then ClusterRequeue(ix, stored, matcher, c, clusterLabels[c])
    else set k | k in Consumers(ix, c) :: k.name
  }

  /** A machine event misses no compliance that recorded its cluster, whether or not the cluster's labels
      are known, and no other whose stored selector matches the labels that are. */
  lemma MachineRequeueCovers(ix: Index, stored: map<Name, Selector>, matcher: Matcher,
                             clusterLabels: map<ObjectReference, Labels>, c: ObjectReference, a: Name)
    requires Consistent(ix)
    ensures a in MachineRequeue(ix, stored, matcher, clusterLabels, c)
      <==> c in Recorded(ix, a) || (c in clusterLabels && a in stored && matcher(stored[a], clusterLabels[c]))
  {
    if c in clusterLabels {
      ClusterRequeueCovers(ix, stored, matcher, c, clusterLabels[c], a);
    } else {
      assert ComplianceKey(a) in Consumers(ix, c) <==> c in Recorded(ix, a);
      assert ComplianceKey(a).name == a;
      forall k | k in Consumers(ix, c) && k.name == a ensures c in Recorded(ix, a) {
        assert k == ComplianceKey(k.name);
      }
    }
  }

  /** The requests for the compliances that recorded r. */
  function ConsumerRequests(ix: Index, r: ObjectReference): set<Request> {
    set k | k in Consumers(ix, r) :: Request("", k.name)
  }

  function MatchingRequests(stored: map<Name, Selector>, matcher: Matcher, labels: Labels): set<Request> {
    set a | a in stored && matcher(stored[a], labels) :: Request("", a)
  }

  /** A list with one request per consumer, made with as many zero values and then filled. */
  method FillRequests(index: TwoWayMap, r: ObjectReference) returns (requests: seq<Request>)
    requires index.Valid() && Consistent(index.Contents)
    modifies index, index.Repr
    ensures index.Valid() && fresh(index.Repr - old(index.Repr)) && Consistent(index.Contents)
    ensures index.Contents == Lookup(old(index.Contents), r)
    ensures Enumerates(requests, ConsumerRequests(old(index.Contents), r))
  {
    LookupConsistent(index.Contents, r);
    var s := index.GetForEntry(r);
    requests := seq(s.Len(), _ => Request("", ""));
    s := index.GetForEntry(r);
    var consumers := s.Items();
    EnumerationLength(consumers, s.elems);
    assert s.elems == Consumers(old(index.Contents), r);
    for i := 0 to |consumers|
      invariant |requests| == |consumers|
      invariant forall j :: 0 <= j < i ==> requests[j] == Request("", consumers[j].name)
    {
      requests := requests[i := Request(consumers[i].namespace, consumers[i].name)];
    }
    RequestsEnumerate(old(index.Contents), r, consumers, requests);
  }

  lemma RequestsEnumerate(ix: Index, r: ObjectReference, consumers: seq<ObjectReference>, requests: seq<Request>)
    requires Consistent(ix) && Enumerates(consumers, Consumers(ix, r))
    requires |requests| == |consumers| && forall j :: 0 <= j < |requests| ==>
             requests[j] == Request("", consumers[j].name)
    ensures Enumerates(requests, ConsumerRequests(ix, r))
  {
    forall q | q in ConsumerRequests(ix, r) ensures q in requests {
      var k :| k in Consumers(ix, r) && q == Request("", k.name);
      var j :| 0 <= j < |consumers| && consumers[j] == k;
      assert requests[j] == q;
    }
    forall i, j | 0 <= i < j < |requests| ensures requests[i] != requests[j] {
      assert consumers[i] == ComplianceKey(consumers[i].name) && consumers[j] == ComplianceKey(consumers[j].name);
    }
  }

  /** Two enumerations one after the other name each request at most twice. */
  lemma TwoEnumerations(xs: seq<Request>, ys: seq<Request>, s: set<Request>, t: set<Request>)
    requires Enumerates(xs, s) && Enumerates(ys, t)
    ensures multiset(xs + ys) == multiset(s) + multiset(t)
    ensures forall q :: multiset(xs + ys)[q] <= 2
    ensures forall q :: q in xs + ys <==> q in s || q in t
  {
    EnumerationLength(xs, s);
    EnumerationLength(ys, t);
  }

  /** Who recorded the cluster is requeued, with or without its labels, and who matches the labels that are
      known; nobody else. */
  ghost predicate AnswersMachine(requests: seq<Request>, ix: Index, stored: map<Name, Selector>, matcher: Matcher,
                                 clusterLabels: map<ObjectReference, Labels>, c: ObjectReference)
  {
    forall a :: Request("", a) in requests <==>
                  c in Recorded(ix, a) || (c in clusterLabels && a in stored && matcher(stored[a], clusterLabels[c]))
  }

  lemma MachineRequests(requests: seq<Request>, ix: Index, stored: map<Name, Selector>, matcher: Matcher,
                        clusterLabels: map<ObjectReference, Labels>, c: ObjectReference)
    requires Consistent(ix)
    requires forall q :: q in requests <==>
               q in ConsumerRequests(ix, c)
               || (c in clusterLabels && q in MatchingRequests(stored, matcher, clusterLabels[c]))
    ensures AnswersMachine(requests, ix, stored, matcher, clusterLabels, c)
  {
    forall a
      ensures Request("", a) in requests <==>
                c in Recorded(ix, a) || (c in clusterLabels && a in stored && matcher(stored[a], clusterLabels[c]))
    {
      MachineRequeueCovers(ix, stored, matcher, clusterLabels, c, a);
    }
  }

  class Reconciler {
    const clusters: TwoWayMap
    const references: TwoWayMap
    var clusterLabels: map<ObjectReference, Labels>
    var addonCompliances: map<Name, Selector>

    constructor ()
      ensures Valid() && clusters.Contents == EMPTY && references.Contents == EMPTY && clusterLabels == map[]
              && addonCompliances == map[]
    {
      clusters := new TwoWayMap();
      references := new TwoWayMap();
      clusterLabels, addonCompliances := map[], map[];
    }

    ghost predicate Valid()
      reads this, clusters, references, clusters.Repr, references.Repr
    {
      && clusters != references && clusters.Repr !! references.Repr
      && clusters.Valid() && references.Valid()
      && Consistent(clusters.Contents) && Consistent(references.Contents)
    }

    method UpdateReferenceMap(name: Name, refs: seq<ValidationRef>)
      requires Valid()
      modifies references, references.Repr
      ensures Valid() && clusters.Contents == old(clusters.Contents)
      ensures references.Contents == Record(old(references.Contents), name, CurrentReferences(refs))
      ensures fresh(references.Repr - old(references.Repr))
    {
      RecordConsistent(references.Contents, name, CurrentReferences(refs));
      references.Update(name, ReferenceKeys(refs));
    }

    method UpdateClusterMap(name: Name, matching: seq<ObjectReference>)
      requires Valid()
      modifies clusters, clusters.Repr
      ensures Valid() && references.Contents == old(references.Contents)
      ensures clusters.Contents == Record(old(clusters.Contents), name, set c | c in matching)
      ensures fresh(clusters.Repr - old(clusters.Repr))
    {
      RecordConsistent(clusters.Contents, name, set c | c in matching);
      clusters.Update(name, matching);
    }

    /** Brings both indexes up to date with a compliance, then stores its selector. */
    method UpdateMaps(name: Name, refs: seq<ValidationRef>, matching: seq<ObjectReference>, selector: Selector)
      requires Valid()
      modifies this, clusters, references, clusters.Repr, references.Repr
      ensures Valid() && clusterLabels == old(clusterLabels)
      ensures references.Contents == Record(old(references.Contents), name, CurrentReferences(refs))
      ensures clusters.Contents == Record(old(clusters.Contents), name, set c | c in matching)
      ensures addonCompliances == old(addonCompliances)[name := selector]
      ensures fresh(clusters.Repr - old(clusters.Repr))
      ensures fresh(references.Repr - old(references.Repr))
    {
      UpdateReferenceMap(name, refs);
      UpdateClusterMap(name, matching);
      addonCompliances := addonCompliances[name := selector];
    }

    /** Forgets a compliance in both indexes. Its stored selector stays. */
    method CleanMaps(name: Name)
      requires Valid()
      modifies clusters, references, clusters.Repr, references.Repr
      ensures Valid()
      ensures references.Contents == Clean(old(references.Contents), name)
      ensures clusters.Contents == Clean(old(clusters.Contents), name)
      ensures fresh(clusters.Repr - old(clusters.Repr))
      ensures fresh(references.Repr - old(references.Repr))
    {
      CleanConsistent(references.Contents, name);
      CleanConsistent(clusters.Contents, name);
      references.CleanUp(name);
      clusters.CleanUp(name);
    }

    /** Appends one request per compliance whose stored selector matches, in any order. */
    method MatchingByLabels(matcher: Matcher, labels: Labels) returns (requests: seq<Request>)
      ensures Enumerates(requests, MatchingRequests(addonCompliances, matcher, labels))
    {
      requests := [];
      var rest := addonCompliances.Keys;
      while rest != {}
        invariant rest <= addonCompliances.Keys
        invariant Enumerates(requests, MatchingRequests(addonCompliances - rest, matcher, labels))
        decreases rest
      {
        var a :| a in rest;
        if matcher(addonCompliances[a], labels) {
          requests := requests + [Request("", a)];
        }
        rest := rest - {a};
      }
      assert addonCompliances - rest == addonCompliances;
    }

    method RequeueForCluster(matcher: Matcher, clusterType: GroupVersionKind, namespace: string, name: string,
                             labels: Labels)
      returns (requests: seq<Request>)
      requires Valid()
      modifies this, clusters, clusters.Repr
      ensures Valid() && references.Contents == old(references.Contents)
      ensures clusters.Contents == Lookup(old(clusters.Contents), ClusterEventKey(clusterType, namespace, name))
      ensures clusterLabels == old(clusterLabels)[ClusterEventKey(clusterType, namespace, name) := labels]
              && addonCompliances == old(addonCompliances)
      ensures multiset(requests)
              == multiset(ConsumerRequests(old(clusters.Contents), ClusterEventKey(clusterType, namespace, name)))
                                    + multiset(MatchingRequests(addonCompliances, matcher, labels))
      ensures forall q :: q in requests <==>
        q.namespace == "" && q.name in ClusterRequeue(old(clusters.Contents), addonCompliances, matcher,
                                                      ClusterEventKey(clusterType, namespace, name), labels)
      ensures forall q :: multiset(requests)[q] <= 2
      ensures fresh(clusters.Repr - old(clusters.Repr))
    {
      var c := ClusterEventKey(clusterType, namespace, name);
      clusterLabels := clusterLabels[c := labels];
      requests := FillRequests(clusters, c);
      var matching := MatchingByLabels(matcher, labels);
      TwoEnumerations(requests, matching, ConsumerRequests(old(clusters.Contents), c),
                      MatchingRequests(addonCompliances, matcher, labels));
      requests := requests + matching;
    }

    /** A machine belongs to the cluster its label names; a machine without that label is ignored.
        The cluster's labels are those its last event carried, if there was one. */
    method RequeueForMachine(matcher: Matcher, machineType: GroupVersionKind, namespace: string, clusterName: string,
                             labelled: bool)
      returns (requests: seq<Request>)
      requires Valid()
      modifies clusters, clusters.Repr
      ensures Valid() && references.Contents == old(references.Contents)
      ensures !labelled ==> requests == [] && clusters.Contents == old(clusters.Contents)
      ensures labelled ==>
        clusters.Contents == Lookup(old(clusters.Contents), MachineEventKey(machineType, namespace, clusterName))
      ensures labelled ==>
                AnswersMachine(requests, old(clusters.Contents), addonCompliances, matcher, clusterLabels,
                               MachineEventKey(machineType, namespace, clusterName))
      ensures forall q :: q in requests ==> q.namespace == "" && multiset(requests)[q] <= 2
      ensures fresh(clusters.Repr - old(clusters.Repr))
    {
      if !labelled {
        return [];
      }
      var c := MachineEventKey(machineType, namespace, clusterName);
      requests := FillRequests(clusters, c);
      var matching: seq<Request> := [];
      ghost var expected: set<Request> := {};
      if c in clusterLabels {
        matching := MatchingByLabels(matcher, clusterLabels[c]);
        expected := MatchingRequests(addonCompliances, matcher, clusterLabels[c]);
      }
      TwoEnumerations(requests, matching, ConsumerRequests(old(clusters.Contents), c), expected);
      requests := requests + matching;
      MachineRequests(requests, old(clusters.Contents), addonCompliances, matcher, clusterLabels, c);
    }

    /** An event on a validation source requeues exactly the compliances that recorded its key. */
    method RequeueForSource(source: Source, namespace: string, name: string) returns (requests: seq<Request>)
      requires Valid()
      modifies references, references.Repr
      ensures Valid() && clusters.Contents == old(clusters.Contents)
      ensures references.Contents == Lookup(old(references.Contents), EventKey(source, namespace, name))
      ensures Enumerates(requests, set a | a in old(references.Contents).forward
                                          && EventKey(source, namespace, name) in old(references.Contents).forward[a]
                                          :: Request("", a))
      ensures fresh(references.Repr - old(references.Repr))
    {
      requests := FillRequests(references, EventKey(source, namespace, name));
      RecordersOf(old(references.Contents), EventKey(source, namespace, name));
    }
  }

  lemma RecordersOf(ix: Index, r: ObjectReference)
    requires Consistent(ix)
    ensures ConsumerRequests(ix, r) == set a | a in ix.forward && r in ix.forward[a] :: Request("", a)
  {
    forall a | a in ix.forward && r in ix.forward[a] ensures Request("", a) in ConsumerRequests(ix, r) {
      assert ComplianceKey(a) in Consumers(ix, r) <==> r in Recorded(ix, a);
      assert ComplianceKey(a).name == a;
    }
    forall q | q in ConsumerRequests(ix, r) ensures q.name in ix.forward && r in ix.forward[q.name] {
      var k :| k in Consumers(ix, r) && q == Request("", k.name);
      assert k == ComplianceKey(k.name);
      assert ComplianceKey(k.name) in Consumers(ix, r) <==> r in Recorded(ix, k.name);
    }
  }

  /** Lookups leave every answer as it was. */
  lemma LookupKeepsAnswers(ix: Index, stored: map<Name, Selector>, matcher: Matcher, r: ObjectReference,
                           c: ObjectReference, labels: Labels)
    ensures ClusterRequeue(Lookup(ix, r), stored, matcher, c, labels) == ClusterRequeue(ix, stored, matcher, c, labels)
    ensures forall a :: Recorded(Lookup(ix, r), a) == Recorded(ix, a)
  {
    assert Consumers(Lookup(ix, r), c) == Consumers(ix, c);
  }

  /** An event on a machine after its cluster's requeues what the cluster's event did, if looked up
      under m. */
  ghost predicate MachineAgrees(ix: Index, stored: map<Name, Selector>, matcher: Matcher,
                                clusterLabels: map<ObjectReference, Labels>,
                                c: ObjectReference, m: ObjectReference, labels: Labels)
  {
    MachineRequeue(Lookup(ix, c), stored, matcher, clusterLabels[c := labels], m)
        == ClusterRequeue(ix, stored, matcher, c, labels)
  }

  /** A machine looked up under another key than its cluster misses who recorded the cluster. */
  lemma OtherKeyMisses(matcher: Matcher, c: ObjectReference, m: ObjectReference, labels: Labels)
    requires c != m
    ensures exists ix :: Consistent(ix) && !MachineAgrees(ix, map[], matcher, map[], c, m, labels)
  {
    var ix := Record(EMPTY, "a", {c});
    RecordConsistent(EMPTY, "a", {c});
    ClusterRequeueCovers(ix, map[], matcher, c, labels, "a");
    assert "a" in ClusterRequeue(ix, map[], matcher, c, labels);
    assert Consumers(Lookup(ix, c), m) == {};
    assert !MachineAgrees(ix, map[], matcher, map[], c, m, labels);
  }

  /** Whatever the index holds, machines requeue the same compliances as their cluster if and only if the
      kind that machines spell out is the cluster's, and both types are registered in one group and
      version: the two keys are built in different ways. */
  lemma MachineAgreesIffSameGroupVersion(matcher: Matcher, clusterType: GroupVersionKind, machineType: GroupVersionKind,
                                         namespace: string, name: string, labels: Labels)
    requires NoSlash(clusterType) && NoSlash(machineType)
    ensures (forall ix, stored, clusterLabels :: Consistent(ix) ==>
               MachineAgrees(ix, stored, matcher, clusterLabels, ClusterEventKey(clusterType, namespace, name),
                             MachineEventKey(machineType, namespace, name), labels))
      <==>
        && clusterType.kind == "Cluster"
        && clusterType.group == machineType.group && clusterType.version == machineType.version
  {
    var c, m := ClusterEventKey(clusterType, namespace, name), MachineEventKey(machineType, namespace, name);
    SameAPIVersion(clusterType, machineType);
    if c == m {
      forall ix, stored, clusterLabels | Consistent(ix)
        ensures MachineAgrees(ix, stored, matcher, clusterLabels, c, m, labels) {
        LookupKeepsAnswers(ix, stored, matcher, c, c, labels);
      }
    } else {
      OtherKeyMisses(matcher, c, m, labels);
    }
  }

  /** With the types the controller registers, event keys are the keys the gate uses, and machines agree
      with their cluster. */
  lemma MachineAgreesWithCluster(ix: Index, stored: map<Name, Selector>, matcher: Matcher,
                                 clusterLabels: map<ObjectReference, Labels>,
                                 namespace: string, name: string, labels: Labels, before: GroupVersionKind,
                                 before': GroupVersionKind)
    requires Consistent(ix)
    ensures ClusterEventKey(TypeInformation([SVELTOS_TYPE], before), namespace, name)
            == ClusterInfo(namespace, name, Sveltos)
    ensures var c := ClusterEventKey(TypeInformation([CLUSTER_TYPE], before), namespace, name);
            var m := MachineEventKey(TypeInformation([MACHINE_TYPE], before'), namespace, name);
            c == ClusterInfo(namespace, name, Capi) && MachineAgrees(ix, stored, matcher, clusterLabels, c, m, labels)
  {
    var c := ClusterInfo(namespace, name, Capi);
    assert APIVersion(CLUSTER_TYPE) == CLUSTER_API_VERSION && APIVersion(SVELTOS_TYPE) == SVELTOS_API_VERSION;
    LookupKeepsAnswers(ix, stored, matcher, c, c, labels);
  }

  /** What happens to the reference index: a compliance's sources are recorded, a compliance is
      cleaned, an event is looked up. */
  datatype SourceOp =
    | Recording(name: Name, refs: seq<ValidationRef>)
    | Cleaning(name: Name)
    | SourceEvent(source: Source, namespace: string, objectName: string)

  function IndexOp(op: SourceOp): Op {
    match op
    case Recording(a, refs) => Update(a, CurrentReferences(refs))
    case Cleaning(a) => Wipe(a)
    case SourceEvent(source, namespace, name) => Look(EventKey(source, namespace, name))
  }

  function IndexOps(ops: seq<SourceOp>): seq<Op> {
    seq(|ops|, i requires 0 <= i < |ops| => IndexOp(ops[i]))
  }

  /** The sources a listed when it was last recorded, none if it was cleaned since. */
  function LastSources(ops: seq<SourceOp>, a: Name): seq<ValidationRef> {
    if ops == [] then []
    else
      var op := ops[|ops| - 1];
      if op == Cleaning(a) then []
      else if op.Recording? && op.name == a then op.refs
      else LastSources(ops[..|ops| - 1], a)
  }

  lemma {:induction false} LastRecordedIsLastSources(ops: seq<SourceOp>, a: Name)
    ensures LastRecorded(IndexOps(ops), a) == CurrentReferences(LastSources(ops, a))
  {
    if ops != [] {
      LastRecordedIsLastSources(ops[..|ops| - 1], a);
      assert IndexOps(ops)[..|ops| - 1] == IndexOps(ops[..|ops| - 1]);
    }
  }

  /** Whatever happened before, an event on a source object requeues exactly the compliances whose
      last recorded sources list that object, unless it is an OCIRepository: then it requeues none. */
  lemma SourceEventsComplete(ops: seq<SourceOp>, source: Source, namespace: string, name: string, a: Name)
    ensures Request("", a) in ConsumerRequests(Replay(IndexOps(ops)), EventKey(source, namespace, name))
      <==> source != OCIRepository && Lists(LastSources(ops, a), source, namespace, name)
  {
    var ix, key := Replay(IndexOps(ops)), EventKey(source, namespace, name);
    IndexSaysLastRecorded(IndexOps(ops));
    RecordersOf(ix, key);
    assert Recorded(ix, a) == LastRecorded(IndexOps(ops), a);
    LastRecordedIsLastSources(ops, a);
    EventFindsReference(LastSources(ops, a), source, namespace, name);
  }

  /** Cleaning forgets what a compliance recorded but not its stored selector, so a deleted
      compliance is still requeued by every event whose labels match it. */
  lemma CleanedStillRequeued(ix: Index, stored: map<Name, Selector>, matcher: Matcher, c: ObjectReference,
                             labels: Labels, a: Name)
    requires Consistent(ix)
    ensures a in ClusterRequeue(Clean(ix, a), stored, matcher, c, labels) <==> a in stored && matcher(stored[a], labels)
  {
    CleanConsistent(ix, a);
    CleanExact(ix, a);
    ClusterRequeueCovers(Clean(ix, a), stored, matcher, c, labels, a);
  }
}
