/** Object references, the keys built from them, and the reference set that every map of the
    controller stores. */
module ObjectReferences {

  datatype ObjectReference = ObjectReference(namespace: string, name: string, kind: string, apiVersion: string)

  type Labels = map<string, string>

  type Selector = string

  /** Stands for parsing a selector and matching it against labels; a selector is assumed to parse. */
  type Matcher = (Selector, Labels) -> bool

  datatype ClusterType = Sveltos | Capi

  const CLUSTER_API_VERSION := "cluster.x-k8s.io/v1beta1"
  const SVELTOS_API_VERSION := "lib.projectsveltos.io/v1alpha1"

  function ClusterInfo(namespace: string, name: string, clusterType: ClusterType): ObjectReference {
    match clusterType
    case Sveltos => ObjectReference(namespace, name, "SveltosCluster", SVELTOS_API_VERSION)
    case Capi => ObjectReference(namespace, name, "Cluster", CLUSTER_API_VERSION)
  }

  /** Two clusters share a gate key only if they are the same object: namespace, name and type. */
  lemma ClusterInfoInjective(ns: string, n: string, t: ClusterType, ns': string, n': string, t': ClusterType)
    requires ClusterInfo(ns, n, t) == ClusterInfo(ns', n', t')
    ensures ns == ns' && n == n' && t == t'
  {
    assert "SveltosCluster"[0] != "Cluster"[0];
  }

  /** The key of an AddonCompliance, a cluster-scoped object. */
  function ComplianceKey(name: string): ObjectReference {
    ObjectReference("", name, "AddonCompliance", SVELTOS_API_VERSION)
  }

  /** xs lists every element of s exactly once. */
  ghost predicate Enumerates<T>(xs: seq<T>, s: set<T>) {
    && (forall i :: 0 <= i < |xs| ==> xs[i] in s)
    && (forall x :: x in s ==> x in xs)
    && (forall i, j :: 0 <= i < j < |xs| ==> xs[i] != xs[j])
  }

  lemma {:induction false} EnumerationLength<T>(xs: seq<T>, s: set<T>)
    requires Enumerates(xs, s)
    ensures |xs| == |s|
    ensures multiset(xs) == multiset(s)
  {
    if xs == [] {
      assert s == {};
    } else {
      var n := |xs| - 1;
      var init, last := xs[..n], xs[n];
      assert xs == init + [last];
      assert Enumerates(init, s - {last});
      EnumerationLength(init, s - {last});
      assert s == (s - {last}) + {last};
    }
  }

  /** The reference set of the Sveltos library, as far as this controller uses it. */
  class RefSet {
    var elems: set<ObjectReference>

    constructor ()
      ensures elems == {}
    {
      elems := {};
    }

    method Insert(entry: ObjectReference)
      modifies this
      ensures elems == old(elems) + {entry}
    {
      elems := elems + {entry};
    }

    method Erase(entry: ObjectReference)
      modifies this
      ensures elems == old(elems) - {entry}
    {
      elems := elems - {entry};
    }

    function Len(): nat
      reads this
    {
      |elems|
    }

    /** Map order: any order, each element once. */
    method Items() returns (items: seq<ObjectReference>)
      ensures Enumerates(items, elems)
    {
      items := Enumerate(elems);
    }

    method Difference(other: RefSet) returns (items: seq<ObjectReference>)
      ensures Enumerates(items, elems - other.elems)
    {
      items := Enumerate(elems - other.elems);
    }
  }

  /** Lists a set in an arbitrary order, as ranging over a map does. */
  method Enumerate<T(==)>(s: set<T>) returns (xs: seq<T>)
    ensures Enumerates(xs, s)
  {
    xs := [];
    var rest := s;
    while rest != {}
      invariant rest <= s
      invariant Enumerates(xs, s - rest)
      decreases rest
    {
      var x :| x in rest;
      xs, rest := xs + [x], rest - {x};
    }
  }
}
