/** The readiness gate as a map: for each cluster, the compliances still to be loaded before the
    cluster may be annotated. The manager's operations on it, and what whole sequences of them do. */
module ReadinessGate {
  import opened ObjectReferences

  type Gate = map<ObjectReference, set<ObjectReference>>

  /** The gate after a compliance is removed from every entry. */
  function Erased(g: Gate, a: ObjectReference): Gate {
    map c | c in g :: g[c] - {a}
  }

  /** The clusters that removing a compliance makes ready: it was the last one they waited for. */
  function Freed(g: Gate, a: ObjectReference): set<ObjectReference> {
    set c | c in g && g[c] == {a}
  }

  datatype Op =
    | Insert(cluster: ObjectReference, members: set<ObjectReference>)
    | Remove(cluster: ObjectReference)
    | Erase(compliance: ObjectReference)

  function Apply(g: Gate, op: Op): Gate {
    match op
    case Insert(c, members) => g[c := members]
    case Remove(c) => g - {c}
    case Erase(a) => Erased(g, a)
  }

  function Replay(g: Gate, ops: seq<Op>): Gate
    decreases |ops|
  {
    if ops == [] then g else Replay(Apply(g, ops[0]), ops[1..])
  }

  /** How many calls of the sequence return c to their caller. */
  function Returns(g: Gate, ops: seq<Op>, c: ObjectReference): nat
    decreases |ops|
  {
    if ops == [] then 0
    else (if ops[0].Erase? && c in Freed(g, ops[0].compliance) then 1 else 0) + Returns(Apply(g, ops[0]), ops[1..], c)
  }

  function ErasedIn(ops: seq<Op>): set<ObjectReference> {
    set i | 0 <= i < |ops| && ops[i].Erase? :: ops[i].compliance
  }

  /** No operation of the sequence inserts or removes c's entry. */
  predicate Undisturbed(ops: seq<Op>, c: ObjectReference) {
    forall i :: 0 <= i < |ops| ==> ops[i].Erase? || ops[i].cluster != c
  }

  /** Over any undisturbed sequence, an entry loses exactly the compliances erased in it, and its
      cluster is handed to exactly one caller if the entry empties, to none if it does not. */
  lemma {:induction false} EntryOverTrace(g: Gate, ops: seq<Op>, c: ObjectReference)
    requires c in g && Undisturbed(ops, c)
    ensures c in Replay(g, ops) && Replay(g, ops)[c] == g[c] - ErasedIn(ops)
    ensures Returns(g, ops, c) == if g[c] != {} && g[c] <= ErasedIn(ops) then 1 else 0
    decreases |ops|
  {
    if ops != [] {
      var g', rest := Apply(g, ops[0]), ops[1..];
      assert ErasedIn(ops) == (if ops[0].Erase? then {ops[0].compliance} else {}) + ErasedIn(rest) by {
        assert ops == [ops[0]] + rest;
        forall a | a in ErasedIn(rest) ensures a in ErasedIn(ops) {
          var i :| 0 <= i < |rest| && rest[i].Erase? && rest[i].compliance == a;
          assert ops[i + 1] == rest[i];
        }
      }
      EntryOverTrace(g', rest, c);
    }
  }

  /** A cluster's wait ends, and exactly one caller is told so, precisely when every compliance of
      the inserted snapshot has been erased. */
  lemma DischargedExactlyOnce(g: Gate, c: ObjectReference, members: set<ObjectReference>, ops: seq<Op>)
    requires members != {} && Undisturbed(ops, c)
    ensures var g' := Apply(g, Insert(c, members));
            && c in Replay(g', ops)
            && (Replay(g', ops)[c] == {} <==> members <= ErasedIn(ops))
            && (Returns(g', ops, c) == 1 <==> members <= ErasedIn(ops))
            && Returns(g', ops, c) <= 1
  {
    EntryOverTrace(Apply(g, Insert(c, members)), ops, c);
    assert forall a :: a in members && a !in ErasedIn(ops) ==> a in members - ErasedIn(ops);
  }

  /** What the gate waits for: pairs of a cluster and a compliance. */
  ghost function Waiting(g: Gate): set<(ObjectReference, ObjectReference)> {
    set c, a | c in g && a in g[c] :: (c, a)
  }

  /** Only an insertion adds to what the gate waits for. */
  lemma {:induction false} WaitingOnlyShrinks(g: Gate, ops: seq<Op>)
    requires forall i :: 0 <= i < |ops| ==> !ops[i].Insert?
    ensures Waiting(Replay(g, ops)) <= Waiting(g)
    ensures |Waiting(Replay(g, ops))| <= |Waiting(g)|
    decreases |ops|
  {
    if ops != [] {
      WaitingOnlyShrinks(Apply(g, ops[0]), ops[1..]);
      assert Waiting(Apply(g, ops[0])) <= Waiting(g);
    }
    SubsetSize(Waiting(Replay(g, ops)), Waiting(g));
  }

  lemma {:induction false} SubsetSize<T>(s: set<T>, t: set<T>)
    requires s <= t
    ensures |s| <= |t|
  {
    if s != {} {
      var x :| x in s;
      SubsetSize(s - {x}, t - {x});
    }
  }
}
