/** A two-way index between AddonCompliances and the objects they depend on. The controller keeps two
    of them, one for clusters and one for referenced objects: the forward map holds what each
    compliance last recorded, the inverse map who recorded an object. */
module TwoWayIndex {
  import opened ObjectReferences

  type Name = string

  datatype Index = Index(forward: map<Name, set<ObjectReference>>, inverse: map<ObjectReference, set<ObjectReference>>)

  const EMPTY := Index(map[], map[])

  function Recorded(ix: Index, a: Name): set<ObjectReference> {
    if a in ix.forward then ix.forward[a] else {}
  }

  function Consumers(ix: Index, r: ObjectReference): set<ObjectReference> {
    if r in ix.inverse then ix.inverse[r] else {}
  }

  /** The index after a records current: the difference between what it recorded before and current
      is erased, whatever order the updates are made in. */
  function Record(ix: Index, a: Name, current: set<ObjectReference>): Index {
    Index(ix.forward[a := current],
          map r | r in ix.inverse.Keys + current + Recorded(ix, a) ::
            if r in current then Consumers(ix, r) + {ComplianceKey(a)}
            else if r in Recorded(ix, a) then Consumers(ix, r) - {ComplianceKey(a)}
            else Consumers(ix, r))
  }

  /** The index after a is cleaned: keys that this leaves without consumers go, and so do
      placeholders that earlier lookups left behind. */
  function Clean(ix: Index, a: Name): Index {
    Index(ix.forward - {a},
          map r | r in ix.inverse && ix.inverse[r] - {ComplianceKey(a)} != {} :: ix.inverse[r] - {ComplianceKey(a)})
  }

  /** A lookup leaves an empty placeholder for a key it does not find. */
  function Lookup(ix: Index, r: ObjectReference): Index {
    if r in ix.inverse then ix else ix.(inverse := ix.inverse[r := {}])
  }

  /** The two maps mirror each other, and the inverse one holds compliances only. */
  ghost predicate Consistent(ix: Index) {
    && (forall a, r :: ComplianceKey(a) in Consumers(ix, r) <==> r in Recorded(ix, a))
    && (forall r, k :: k in Consumers(ix, r) ==> k == ComplianceKey(k.name))
  }

  lemma RecordConsistent(ix: Index, a: Name, current: set<ObjectReference>)
    requires Consistent(ix)
    ensures Consistent(Record(ix, a, current))
  {
    var ix' := Record(ix, a, current);
    forall b, r ensures ComplianceKey(b) in Consumers(ix', r) <==> r in Recorded(ix', b) {
      assert ComplianceKey(b) in Consumers(ix, r) <==> r in Recorded(ix, b);
      assert b != a ==> Recorded(ix', b) == Recorded(ix, b);
      assert b != a ==> ComplianceKey(b).name != ComplianceKey(a).name;
    }
  }

  lemma CleanConsistent(ix: Index, a: Name)
    requires Consistent(ix)
    ensures Consistent(Clean(ix, a))
  {
    CleanExact(ix, a);
    var ix' := Clean(ix, a);
    forall b, r ensures ComplianceKey(b) in Consumers(ix', r) <==> r in Recorded(ix', b) {
      assert ComplianceKey(b) in Consumers(ix, r) <==> r in Recorded(ix, b);
      assert b != a ==> ComplianceKey(b).name != ComplianceKey(a).name;
    }
  }

  lemma LookupConsistent(ix: Index, r: ObjectReference)
    requires Consistent(ix)
    ensures Consistent(Lookup(ix, r))
  {
    assert forall x :: Consumers(Lookup(ix, r), x) == Consumers(ix, x);
  }

  /** Cleaning removes a everywhere, leaves every other membership as it was, and keeps exactly the
      keys that still have a consumer. */
  lemma CleanExact(ix: Index, a: Name)
    ensures a !in Clean(ix, a).forward
    ensures forall b :: b != a ==> Recorded(Clean(ix, a), b) == Recorded(ix, b)
    ensures forall r :: Consumers(Clean(ix, a), r) == Consumers(ix, r) - {ComplianceKey(a)}
    ensures forall r :: r in Clean(ix, a).inverse <==> Consumers(ix, r) - {ComplianceKey(a)} != {}
  {
  }

  datatype Op = Update(name: Name, current: set<ObjectReference>) | Wipe(name: Name) | Look(ref: ObjectReference)

  function Apply(ix: Index, op: Op): Index {
    match op
    case Update(a, current) => Record(ix, a, current)
    case Wipe(a) => Clean(ix, a)
    case Look(r) => Lookup(ix, r)
  }

  function Replay(ops: seq<Op>): Index {
    if ops == [] then EMPTY else Apply(Replay(ops[..|ops| - 1]), ops[|ops| - 1])
  }

  /** What a recorded last, nothing if it was cleaned since or never recorded. */
  function LastRecorded(ops: seq<Op>, a: Name): set<ObjectReference> {
    if ops == [] then {}
    else
      var op := ops[|ops| - 1];
      if op == Wipe(a) then {}
      else if op.Update? && op.name == a then op.current
      else LastRecorded(ops[..|ops| - 1], a)
  }

  /** After any sequence of updates, cleans and lookups, both directions say exactly what each
      compliance recorded last since it was last cleaned. */
  lemma {:induction false} IndexSaysLastRecorded(ops: seq<Op>)
    ensures Consistent(Replay(ops))
    ensures forall a :: Recorded(Replay(ops), a) == LastRecorded(ops, a)
    ensures forall a, r :: ComplianceKey(a) in Consumers(Replay(ops), r) <==> r in LastRecorded(ops, a)
  {
    if ops != [] {
      var init, op := ops[..|ops| - 1], ops[|ops| - 1];
      IndexSaysLastRecorded(init);
      match op {
        case Update(a, current) => RecordConsistent(Replay(init), a, current);
        case Wipe(a) => CleanConsistent(Replay(init), a); CleanExact(Replay(init), a);
        case Look(r) => LookupConsistent(Replay(init), r);
      }
    }
  }

  lemma {:induction false} NothingRecordedSince(ops: seq<Op>, later: seq<Op>, a: Name)
    requires forall i :: 0 <= i < |later| ==> !later[i].Update? || later[i].name != a
    ensures LastRecorded(ops + [Wipe(a)] + later, a) == {}
    decreases |later|
  {
    var all := ops + [Wipe(a)] + later;
    if later == [] {
      assert all[|all| - 1] == Wipe(a);
    } else {
      NothingRecordedSince(ops, later[..|later| - 1], a);
      assert all[..|all| - 1] == ops + [Wipe(a)] + later[..|later| - 1];
    }
  }

  /** Once cleaned, a compliance is in neither direction of the index, whatever other compliances do and
      whatever is looked up, until it is recorded again. */
  lemma CleanedForGood(ops: seq<Op>, later: seq<Op>, a: Name)
    requires forall i :: 0 <= i < |later| ==> !later[i].Update? || later[i].name != a
    ensures var ix := Replay(ops + [Wipe(a)] + later);
            Recorded(ix, a) == {} && forall r :: ComplianceKey(a) !in Consumers(ix, r)
  {
    NothingRecordedSince(ops, later, a);
    IndexSaysLastRecorded(ops + [Wipe(a)] + later);
  }

  /** The pair of maps as the reconciler holds it, with its sets on the heap. */
  class TwoWayMap {
    ghost var Contents: Index
    ghost var Repr: set<RefSet>
    var inverse: map<ObjectReference, RefSet>
    var forward: map<Name, RefSet>

    constructor ()
      ensures Valid() && Contents == EMPTY && fresh(this) && Repr == {}
    {
      inverse, forward := map[], map[];
      Contents, Repr := EMPTY, {};
    }

    /** The sets hold the contents; no two keys share a set, and no set serves both directions. */
    ghost predicate Valid()
      reads this, Repr
    {
      && inverse.Keys == Contents.inverse.Keys
      && forward.Keys == Contents.forward.Keys
      && (forall r :: r in inverse ==> inverse[r] in Repr && inverse[r].elems == Contents.inverse[r])
      && (forall a :: a in forward ==> forward[a] in Repr && forward[a].elems == Contents.forward[a])
      && (forall r, r' :: r in inverse && r' in inverse && inverse[r] == inverse[r'] ==> r == r')
      && (forall a, a' :: a in forward && a' in forward && forward[a] == forward[a'] ==> a == a')
      && (forall r, a :: r in inverse && a in forward ==> inverse[r] != forward[a])
    }

    method GetForEntry(entry: ObjectReference) returns (s: RefSet)
      requires Valid()
      modifies this`inverse, this`Repr, this`Contents
      ensures Valid() && Contents == Lookup(old(Contents), entry)
      ensures entry in inverse && s == inverse[entry]
      ensures Repr == old(Repr) + {s} && fresh(Repr - old(Repr))
    {
      if entry in inverse {
        s := inverse[entry];
      } else {
        s := new RefSet();
        inverse := inverse[entry := s];
        Repr := Repr + {s};
        Contents := Lookup(Contents, entry);
      }
    }

    method InsertStored(entry: ObjectReference, key: ObjectReference)
      requires Valid() && entry in inverse
      modifies this`Contents, Repr
      ensures Valid()
      ensures Contents
              == old(Contents).(inverse := old(Contents).inverse[entry := old(Contents).inverse[entry] + {key}])
    {
      var s := inverse[entry];
      s.Insert(key);
      Contents := Contents.(inverse := Contents.inverse[entry := s.elems]);
    }

    method EraseStored(entry: ObjectReference, key: ObjectReference)
      requires Valid() && entry in inverse
      modifies this`Contents, Repr
      ensures Valid()
      ensures Contents
              == old(Contents).(inverse := old(Contents).inverse[entry := old(Contents).inverse[entry] - {key}])
    {
      var s := inverse[entry];
      s.Erase(key);
      Contents := Contents.(inverse := Contents.inverse[entry := s.elems]);
    }

    method InsertConsumer(entry: ObjectReference, key: ObjectReference)
      requires Valid()
      modifies this`inverse, this`Repr, this`Contents, Repr
      ensures Valid() && fresh(Repr - old(Repr))
      ensures Contents
              == old(Contents).(inverse := old(Contents).inverse[entry := Consumers(old(Contents), entry) + {key}])
    {
      var s := GetForEntry(entry);
      InsertStored(entry, key);
      SameMap(Contents.inverse, old(Contents).inverse[entry := Consumers(old(Contents), entry) + {key}]);
    }

    method EraseConsumer(entry: ObjectReference, key: ObjectReference)
      requires Valid()
      modifies this`inverse, this`Repr, this`Contents, Repr
      ensures Valid() && fresh(Repr - old(Repr))
      ensures Contents
              == old(Contents).(inverse := old(Contents).inverse[entry := Consumers(old(Contents), entry) - {key}])
    {
      var s := GetForEntry(entry);
      EraseStored(entry, key);
      SameMap(Contents.inverse, old(Contents).inverse[entry := Consumers(old(Contents), entry) - {key}]);
    }

    method InsertAll(refs: seq<ObjectReference>, key: ObjectReference, kept: RefSet)
      requires Valid()
      modifies this`inverse, this`Repr, this`Contents, Repr
      ensures Valid() && fresh(Repr - old(Repr))
      ensures Contents == Inserted(old(Contents), refs, key)
      ensures old(kept !in Repr) ==> kept !in Repr && kept.elems == old(kept.elems)
    {
      InsertedNone(Contents, refs, key);
      for i := 0 to |refs|
        invariant Valid() && fresh(Repr - old(Repr))
        invariant old(kept !in Repr) ==> kept !in Repr && kept.elems == old(kept.elems)
        invariant Contents == Inserted(old(Contents), refs[..i], key)
      {
        InsertConsumer(refs[i], key);
        InsertedNext(old(Contents), refs, i, key);
      }
      assert refs[..|refs|] == refs;
    }

    method EraseAll(refs: seq<ObjectReference>, key: ObjectReference, kept: RefSet)
      requires Valid()
      modifies this`inverse, this`Repr, this`Contents, Repr
      ensures Valid() && fresh(Repr - old(Repr))
      ensures Contents == Erased(old(Contents), refs, key)
      ensures old(kept !in Repr) ==> kept !in Repr && kept.elems == old(kept.elems)
    {
      InsertedNone(Contents, refs, key);
      for i := 0 to |refs|
        invariant Valid() && fresh(Repr - old(Repr))
        invariant old(kept !in Repr) ==> kept !in Repr && kept.elems == old(kept.elems)
        invariant Contents == Erased(old(Contents), refs[..i], key)
      {
        EraseConsumer(refs[i], key);
        ErasedNext(old(Contents), refs, i, key);
      }
      assert refs[..|refs|] == refs;
    }

    /** What a recorded before and does not list any more. */
    method NoLonger(name: Name, currentSet: RefSet) returns (toBeRemoved: seq<ObjectReference>)
      requires Valid()
      ensures Enumerates(toBeRemoved, Recorded(Contents, name) - currentSet.elems)
    {
      toBeRemoved := [];
      if name in forward {
        toBeRemoved := forward[name].Difference(currentSet);
      }
    }

    method StoreForward(name: Name, currentSet: RefSet)
      requires Valid() && currentSet !in Repr
      modifies this`forward, this`Repr, this`Contents
      ensures Valid() && Repr == old(Repr) + {currentSet}
      ensures Contents == old(Contents).(forward := old(Contents).forward[name := currentSet.elems])
    {
      forward := forward[name := currentSet];
      Repr := Repr + {currentSet};
      Contents := Contents.(forward := Contents.forward[name := currentSet.elems]);
    }

    /** Records what a depends on now: a becomes a consumer of each object listed, and stops being
        one of each object it had recorded that is not listed any more. */
    method Update(name: Name, current: seq<ObjectReference>)
      requires Valid()
      modifies this, Repr
      ensures Valid() && fresh(Repr - old(Repr))
      ensures Contents == Record(old(Contents), name, set r | r in current)
    {
      var currentSet := SetOf(current);
      var toBeRemoved := NoLonger(name, currentSet);
      InsertAll(current, ComplianceKey(name), currentSet);
      EraseAll(toBeRemoved, ComplianceKey(name), currentSet);
      RecordInTwoLoops(old(Contents), name, current, toBeRemoved);
      StoreForward(name, currentSet);
    }

    method EraseOrDrop(entry: ObjectReference, key: ObjectReference)
      requires Valid() && entry in inverse
      modifies this`inverse, this`Contents, Repr
      ensures Valid()
      ensures Contents.forward == old(Contents).forward
      ensures Contents.inverse == (var left := old(Contents).inverse[entry] - {key};
                                   if left == {} then old(Contents).inverse - {entry}
                                       else old(Contents).inverse[entry := left])
    {
      EraseStored(entry, key);
      if inverse[entry].Len() == 0 {
        inverse := inverse - {entry};
        Contents := Contents.(inverse := Contents.inverse - {entry});
      }
    }

    /** Erases key from every set of the inverse map, and drops the keys this leaves without consumers. */
    method Sweep(key: ObjectReference)
      requires Valid()
      modifies this`inverse, this`Contents, Repr
      ensures Valid()
      ensures Contents == old(Contents).(inverse := Swept(old(Contents).inverse, {}, key))
    {
      var rest := inverse.Keys;
      SweptEnds(Contents.inverse, key);
      while rest != {}
        invariant Valid() && rest <= inverse.Keys
        invariant Contents.forward == old(Contents).forward
        invariant Contents.inverse == Swept(old(Contents).inverse, rest, key)
        decreases rest
      {
        var entry :| entry in rest;
        SweptNext(old(Contents).inverse, rest, entry, key);
        EraseOrDrop(entry, key);
        rest := rest - {entry};
      }
    }

    /** Removes a from both directions, and every key of the inverse map left without consumers. */
    method CleanUp(name: Name)
      requires Valid()
      modifies this, Repr
      ensures Valid() && Repr == old(Repr)
      ensures Contents == Clean(old(Contents), name)
    {
      forward := forward - {name};
      Contents := Contents.(forward := Contents.forward - {name});
      Sweep(ComplianceKey(name));
      SameMap(Contents.inverse, Clean(old(Contents), name).inverse);
    }
  }

  method SetOf(refs: seq<ObjectReference>) returns (s: RefSet)
    ensures fresh(s) && s.elems == set r | r in refs
  {
    s := new RefSet();
    for i := 0 to |refs|
      invariant s.elems == set r | r in refs[..i]
    {
      s.Insert(refs[i]);
      assert refs[..i + 1] == refs[..i] + [refs[i]];
    }
  }

  /** The index after the first loop of an update has inserted key under the given objects. */
  ghost function Inserted(ix: Index, refs: seq<ObjectReference>, key: ObjectReference): Index {
    ix.(inverse := map r | r in ix.inverse.Keys + (set x | x in refs) ::
                     Consumers(ix, r) + if r in refs then {key} else {})
  }

  /** The index after the second loop has erased key under the given objects. */
  ghost function Erased(ix: Index, refs: seq<ObjectReference>, key: ObjectReference): Index {
    ix.(inverse := map r | r in ix.inverse.Keys + (set x | x in refs) ::
                     Consumers(ix, r) - if r in refs then {key} else {})
  }

  lemma SameMap(m: map<ObjectReference, set<ObjectReference>>, m': map<ObjectReference, set<ObjectReference>>)
    requires m.Keys == m'.Keys && forall k :: k in m ==> m[k] == m'[k]
    ensures m == m'
  {
  }

  lemma InsertedNone(ix: Index, refs: seq<ObjectReference>, key: ObjectReference)
    ensures Inserted(ix, refs[..0], key) == ix && Erased(ix, refs[..0], key) == ix
  {
    SameMap(Inserted(ix, refs[..0], key).inverse, ix.inverse);
    SameMap(Erased(ix, refs[..0], key).inverse, ix.inverse);
  }

  lemma InsertedNext(ix: Index, refs: seq<ObjectReference>, i: nat, key: ObjectReference)
    requires i < |refs|
    ensures var so := Inserted(ix, refs[..i], key);
            Inserted(ix, refs[..i + 1], key) == so.(inverse := so.inverse[refs[i] := Consumers(so, refs[i]) + {key}])
  {
    assert refs[..i + 1] == refs[..i] + [refs[i]];
    var so := Inserted(ix, refs[..i], key);
    SameMap(Inserted(ix, refs[..i + 1], key).inverse, so.inverse[refs[i] := Consumers(so, refs[i]) + {key}]);
  }

  lemma ErasedNext(ix: Index, refs: seq<ObjectReference>, i: nat, key: ObjectReference)
    requires i < |refs|
    ensures var so := Erased(ix, refs[..i], key);
            Erased(ix, refs[..i + 1], key) == so.(inverse := so.inverse[refs[i] := Consumers(so, refs[i]) - {key}])
  {
    assert refs[..i + 1] == refs[..i] + [refs[i]];
    var so := Erased(ix, refs[..i], key);
    SameMap(Erased(ix, refs[..i + 1], key).inverse, so.inverse[refs[i] := Consumers(so, refs[i]) - {key}]);
  }

  /** The two loops of an update do not undo each other: what the second erases, the first did not
      insert. */
  lemma RecordInTwoLoops(ix: Index, a: Name, current: seq<ObjectReference>, removed: seq<ObjectReference>)
    requires Enumerates(removed, Recorded(ix, a) - set r | r in current)
    ensures var so := Erased(Inserted(ix, current, ComplianceKey(a)), removed, ComplianceKey(a));
            Record(ix, a, set r | r in current) == so.(forward := so.forward[a := set r | r in current])
  {
    var key, cur := ComplianceKey(a), set r | r in current;
    var so := Erased(Inserted(ix, current, key), removed, key);
    assert forall r :: r in removed <==> r in Recorded(ix, a) && r !in current;
    SameMap(Record(ix, a, cur).inverse, so.inverse);
  }

  /** The inverse map after cleaning has visited all keys but rest. */
  ghost function Swept(inverse: map<ObjectReference, set<ObjectReference>>, rest: set<ObjectReference>,
                       key: ObjectReference)
    : map<ObjectReference, set<ObjectReference>>
  {
    map r | r in inverse && (r in rest || inverse[r] - {key} != {}) :: if r in rest then inverse[r]
        else inverse[r] - {key}
  }

  lemma SweptEnds(inverse: map<ObjectReference, set<ObjectReference>>, key: ObjectReference)
    ensures Swept(inverse, inverse.Keys, key) == inverse
  {
  }

  lemma SweptNext(inverse: map<ObjectReference, set<ObjectReference>>, rest: set<ObjectReference>,
                  entry: ObjectReference, key: ObjectReference)
    requires entry in rest && rest <= inverse.Keys
    ensures var so := Swept(inverse, rest, key);
            entry in so && so[entry] == inverse[entry]
            && Swept(inverse, rest - {entry}, key)
               == if inverse[entry] - {key} == {} then so - {entry} else so[entry := inverse[entry] - {key}]
  {
    var so := Swept(inverse, rest, key);
    SameMap(Swept(inverse, rest - {entry}, key),
            if inverse[entry] - {key} == {} then so - {entry} else so[entry := inverse[entry] - {key}]);
  }
}
