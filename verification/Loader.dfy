/** The manager shared by the three reconcilers: the readiness gate held in heap sets. */
module Loader {
  import opened ObjectReferences
  import opened ReadinessGate

  class Manager {
    var addonConstraints: map<ObjectReference, RefSet>

    constructor ()
      ensures Model() == map[] && Unaliased() && fresh(this)
    {
      addonConstraints := map[];
    }

    /** No two clusters share a set object. */
    ghost predicate Unaliased()
      reads this
    {
      forall k, k' ::
        k in addonConstraints && k' in addonConstraints && addonConstraints[k] == addonConstraints[k'] ==> k == k'
    }

    ghost function Model(): Gate
      reads this, addonConstraints.Values
    {
      map c | c in addonConstraints :: addonConstraints[c].elems
    }

    /** The caller's set itself is stored, not a copy of it. */
    method AddClusterEntry(cluster: ObjectReference, addonConstrains: RefSet)
      modifies this
      ensures addonConstraints == old(addonConstraints)[cluster := addonConstrains]
      ensures Model() == Apply(old(Model()), Insert(cluster, addonConstrains.elems))
      ensures old(Unaliased()) && addonConstrains !in old(addonConstraints.Values) ==> Unaliased()
    {
      addonConstraints := addonConstraints[cluster := addonConstrains];
    }

    method RemoveClusterEntry(cluster: ObjectReference)
      modifies this
      ensures addonConstraints == old(addonConstraints) - {cluster}
      ensures Model() == Apply(old(Model()), Remove(cluster))
      ensures old(Unaliased()) ==> Unaliased()
    {
      addonConstraints := addonConstraints - {cluster};
    }

    method HasEntryForCluster(cluster: ObjectReference) returns (ok: bool)
      ensures ok <==> cluster in Model()
    {
      ok := cluster in addonConstraints;
    }

    method GetNumberOfAddonCompliance(cluster: ObjectReference) returns (n: nat)
      ensures n == if cluster in Model() then |Model()[cluster]| else 0
    {
      n := if cluster in addonConstraints then addonConstraints[cluster].Len() else 0;
    }

    /** An entry that is already empty is skipped: it is never reported again. */
    method EraseFromEntry(key: ObjectReference, addonConstraint: ObjectReference) returns (emptied: bool)
      requires key in addonConstraints
      modifies addonConstraints[key]
      ensures addonConstraints[key].elems == old(addonConstraints[key].elems) - {addonConstraint}
      ensures emptied <==> old(addonConstraints[key].elems) == {addonConstraint}
    {
      if addonConstraints[key].Len() == 0 {
        return false;
      }
      addonConstraints[key].Erase(addonConstraint);
      emptied := addonConstraints[key].Len() == 0;
    }

    /** Walks all entries and erases a compliance from their sets, each of which may be met again under
        another key. Lists one key of each set that this leaves empty. */
    method WalkEntries(addonConstraint: ObjectReference) returns (listed: seq<ObjectReference>)
      modifies addonConstraints.Values
      ensures forall s :: s in addonConstraints.Values ==> s.elems == old(s.elems) - {addonConstraint}
      ensures OnePerSet(addonConstraints, listed, Freed(old(Model()), addonConstraint))
    {
      listed := [];
      ghost var freed := Freed(Model(), addonConstraint);
      ghost var seen: set<RefSet> := {};
      ghost var sets := addonConstraints.Values;
      var rest := addonConstraints.Keys;
      while rest != {}
        invariant rest <= addonConstraints.Keys
        invariant forall k :: k in addonConstraints && k !in rest ==> addonConstraints[k] in seen
        invariant seen <= sets
        invariant forall s :: s in sets ==> s.elems == if s in seen then old(s.elems) - {addonConstraint}
                  else old(s.elems)
        invariant OnePerSet(addonConstraints, listed, Held(addonConstraints, freed, seen))
        decreases rest
      {
        var key :| key in rest;
        rest := rest - {key};
        ListNext(addonConstraints, listed, freed, seen, key);
        var emptied := EraseFromEntry(key, addonConstraint);
        if emptied {
          listed := listed + [key];
        }
        seen := seen + {addonConstraints[key]};
      }
      assert Held(addonConstraints, freed, seen) == freed;
    }

    /** Erases a compliance from every entry and returns the clusters that became ready. Each set
        object is reported through one of its keys only, so the answer is complete exactly when no
        two clusters waiting for this compliance alone share a set. */
    method RemoveAddonCompliance(addonConstraint: ObjectReference) returns (clusterToAnnotate: seq<ObjectReference>)
      modifies addonConstraints.Values
      ensures Model() == Apply(old(Model()), Erase(addonConstraint))
      ensures OnePerSet(addonConstraints, clusterToAnnotate, Freed(old(Model()), addonConstraint))
      ensures Enumerates(clusterToAnnotate, Freed(old(Model()), addonConstraint))
        <==> NoneShared(addonConstraints, Freed(old(Model()), addonConstraint))
      ensures Unaliased() ==> Enumerates(clusterToAnnotate, Freed(old(Model()), addonConstraint))
    {
      clusterToAnnotate := WalkEntries(addonConstraint);
      CompleteIffNoneShared(addonConstraints, clusterToAnnotate, Freed(old(Model()), addonConstraint));
    }
  }

  type Sets = map<ObjectReference, RefSet>

  /** The sets stored under the listed keys, in order. */
  ghost function SetsOf(sets: Sets, listed: seq<ObjectReference>): seq<RefSet>
    requires forall i :: 0 <= i < |listed| ==> listed[i] in sets
  {
    seq(|listed|, i requires 0 <= i < |listed| => sets[listed[i]])
  }

  /** Keys drawn from ks that name each set stored under ks once. */
  ghost predicate OnePerSet(sets: Sets, listed: seq<ObjectReference>, ks: set<ObjectReference>)
    requires ks <= sets.Keys
  {
    && (forall i :: 0 <= i < |listed| ==> listed[i] in ks)
    && Enumerates(SetsOf(sets, listed), set k | k in ks :: sets[k])
  }

  ghost predicate NoneShared(sets: Sets, ks: set<ObjectReference>)
    requires ks <= sets.Keys
  {
    forall k, k' :: k in ks && k' in ks && sets[k] == sets[k'] ==> k == k'
  }

  /** The keys of ks whose set is among those seen. */
  ghost function Held(sets: Sets, ks: set<ObjectReference>, seen: set<RefSet>): set<ObjectReference> {
    set k | k in ks && k in sets && sets[k] in seen
  }

  lemma ListNext(sets: Sets, listed: seq<ObjectReference>, ks: set<ObjectReference>, seen: set<RefSet>,
                 key: ObjectReference)
    requires key in sets && OnePerSet(sets, listed, Held(sets, ks, seen))
    ensures key in ks && sets[key] !in seen ==> OnePerSet(sets, listed + [key], Held(sets, ks, seen + {sets[key]}))
    ensures sets[key] in seen || (forall k :: k in ks && k in sets ==> sets[k] != sets[key]) ==>
              OnePerSet(sets, listed, Held(sets, ks, seen + {sets[key]}))
  {
    var held, held' := Held(sets, ks, seen), Held(sets, ks, seen + {sets[key]});
    if key in ks && sets[key] !in seen {
      assert SetsOf(sets, listed + [key]) == SetsOf(sets, listed) + [sets[key]];
      assert (set k | k in held' :: sets[k]) == (set k | k in held :: sets[k]) + {sets[key]};
    } else if sets[key] in seen || (forall k :: k in ks && k in sets ==> sets[k] != sets[key]) {
      assert held' == held;
    }
  }

  /** One key per set is a complete list exactly when no set is shared. */
  lemma CompleteIffNoneShared(sets: Sets, listed: seq<ObjectReference>, ks: set<ObjectReference>)
    requires ks <= sets.Keys && OnePerSet(sets, listed, ks)
    ensures Enumerates(listed, ks) <==> NoneShared(sets, ks)
  {
    var objects := SetsOf(sets, listed);
    if NoneShared(sets, ks) {
      forall k | k in ks ensures k in listed {
        assert sets[k] in objects;
        var i :| 0 <= i < |objects| && objects[i] == sets[k];
        assert listed[i] == k;
      }
      forall i, j | 0 <= i < j < |listed| ensures listed[i] != listed[j] {
        assert objects[i] != objects[j];
      }
      assert Enumerates(listed, ks);
    }
    if Enumerates(listed, ks) {
      forall k, k' | k in ks && k' in ks && sets[k] == sets[k'] ensures k == k' {
        var i :| 0 <= i < |listed| && listed[i] == k;
        var j :| 0 <= j < |listed| && listed[j] == k';
        assert objects[i] == objects[j];
      }
    }
  }
}
