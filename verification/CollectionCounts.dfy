/** In which order, and how often, policies are collected. */
module CollectionCounts {
  import opened ObjectReferences
  import opened Sections
  import opened Collection

  /** The sections that leave something, in order and each once, are what is collected. */
  lemma {:induction false} NonEmptyInOrder(sections: seq<string>) returns (at: seq<nat>)
    ensures |at| == |NonEmpty(sections)|
    ensures forall k :: 0 <= k < |at| ==>
              at[k] < |sections| && NonEmpty(sections)[k] == RemoveCommentsAndEmptyLines(sections[at[k]])
    ensures forall k, l :: 0 <= k < l < |at| ==> at[k] < at[l]
    ensures forall i: nat :: i in at <==> i < |sections| && RemoveCommentsAndEmptyLines(sections[i]) != ""
  {
    at := [];
    if sections != [] {
      var n := |sections| - 1;
      var before, last := sections[..n], sections[n];
      assert sections == before + [last];
      NonEmptySnoc(before, last);
      at := NonEmptyInOrder(before);
      assert forall i :: 0 <= i < n ==> before[i] == sections[i];
      if RemoveCommentsAndEmptyLines(last) != "" {
        at := at + [n];
      }
    }
  }

  /** What is left of each section. */
  function Left(sections: seq<string>): seq<string> {
    seq(|sections|, i requires 0 <= i < |sections| => RemoveCommentsAndEmptyLines(sections[i]))
  }

  function NotNothing(xs: seq<string>): seq<string> {
    if xs == [] then [] else (if xs[0] == "" then [] else [xs[0]]) + NotNothing(xs[1..])
  }

  lemma {:induction false} NonEmptyIsFilter(sections: seq<string>)
    ensures NonEmpty(sections) == NotNothing(Left(sections))
  {
    if sections != [] {
      NonEmptyIsFilter(sections[1..]);
      assert Left(sections)[1..] == Left(sections[1..]);
    }
  }

  /** At which positions p stands. */
  function At(xs: seq<string>, p: string): set<nat> {
    set i: nat | i < |xs| && xs[i] == p
  }

  lemma NotNothingSnoc(xs: seq<string>, x: string)
    ensures NotNothing(xs + [x]) == NotNothing(xs) + if x == "" then [] else [x]
  {
    if xs != [] {
      assert (xs + [x])[1..] == xs[1..] + [x];
      NotNothingSnoc(xs[1..], x);
    }
  }

  lemma AtSnoc(xs: seq<string>, x: string, p: string)
    ensures |At(xs + [x], p)| == |At(xs, p)| + if x == p then 1 else 0
  {
    var n := |xs|;
    var here: set<nat> := if x == p then {n} else {};
    assert At(xs + [x], p) == At(xs, p) + here;
    assert n !in At(xs, p);
  }

  lemma {:induction false} CountInList(xs: seq<string>, p: string)
    requires p != ""
    ensures multiset(NotNothing(xs))[p] == |At(xs, p)|
  {
    if xs == [] {
      assert At(xs, p) == {};
    } else {
      var before, x := xs[..|xs| - 1], xs[|xs| - 1];
      CountInList(before, p);
      NotNothingSnoc(before, x);
      AtSnoc(before, x, p);
      assert xs == before + [x];
    }
  }

  function Paired(k: string, s: set<nat>): set<(string, nat)> {
    set i | i in s :: (k, i)
  }

  lemma {:induction false} PairedSize(k: string, s: set<nat>)
    ensures |Paired(k, s)| == |s|
  {
    if s == {} {
      assert Paired(k, s) == {};
    } else {
      var x :| x in s;
      PairedSize(k, s - {x});
      assert Paired(k, s) == Paired(k, s - {x}) + {(k, x)};
    }
  }

  type Lists = map<string, seq<string>>

  function Concat(m: Lists, order: seq<string>): seq<string>
    requires forall k :: k in order ==> k in m
  {
    if order == [] then [] else NotNothing(m[order[0]]) + Concat(m, order[1..])
  }

  /** Where p stands in the lists of these keys. */
  function Places(m: Lists, keys: set<string>, p: string): set<(string, nat)>
    requires keys <= m.Keys
  {
    set k, i: nat | k in keys && i < |m[k]| && m[k][i] == p :: (k, i)
  }

  lemma PlacesSplit(m: Lists, keys: set<string>, k: string, p: string)
    requires keys <= m.Keys && k in keys
    ensures |Places(m, keys, p)| == |At(m[k], p)| + |Places(m, keys - {k}, p)|
  {
    var here, others := Paired(k, At(m[k], p)), Places(m, keys - {k}, p);
    PairedSize(k, At(m[k], p));
    assert Places(m, keys, p) == here + others;
    assert here !! others;
  }

  lemma {:induction false} CountInOrder(m: Lists, order: seq<string>, keys: set<string>, p: string)
    requires keys <= m.Keys && Enumerates(order, keys) && p != ""
    ensures multiset(Concat(m, order))[p] == |Places(m, keys, p)|
    decreases order
  {
    EnumerationLength(order, keys);
    if order == [] {
      assert Places(m, keys, p) == {};
    } else {
      var k := order[0];
      assert Without(order, 0) == order[1..];
      EnumeratesWithout(order, keys, 0);
      CountInOrder(m, order[1..], keys - {k}, p);
      CountInList(m[k], p);
      PlacesSplit(m, keys, k, p);
    }
  }

  /** For each key, what is left of the sections of its value. */
  function LeftOf(data: map<string, string>): (m: Lists)
    ensures m.Keys == data.Keys
  {
    map k | k in data :: Left(Split(data[k]))
  }

  lemma {:induction false} InOrderIsConcat(data: map<string, string>, order: seq<string>)
    requires forall k :: k in order ==> k in data
    ensures InOrder(data, order) == Concat(LeftOf(data), order)
  {
    if order != [] {
      NonEmptyIsFilter(Split(data[order[0]]));
      InOrderIsConcat(data, order[1..]);
    }
  }

  /** A policy is collected exactly as often as there are sections, of whatever key, that it is what is
      left of. */
  lemma CollectedAsOften(data: map<string, string>, policies: seq<string>, p: string)
    requires CollectedFrom(data, policies) && p != ""
    ensures multiset(policies)[p] == |Places(LeftOf(data), data.Keys, p)|
  {
    var order :| Enumerates(order, data.Keys) && policies == InOrder(data, order);
    InOrderIsConcat(data, order);
    CountInOrder(LeftOf(data), order, data.Keys, p);
  }
}
