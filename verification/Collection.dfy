/** Collecting the policies of a data map: every section of every value, without comments and empty
    lines, if anything is left of it. The map is ranged over in an arbitrary order. */
module Collection {
  import opened ObjectReferences
  import opened Sections

  function NonEmpty(sections: seq<string>): seq<string> {
    if sections == [] then []
    else
      var section := RemoveCommentsAndEmptyLines(sections[0]);
      (if section == "" then [] else [section]) + NonEmpty(sections[1..])
  }

  function Policies(text: string): seq<string> {
    NonEmpty(Split(text))
  }

  /** What is collected when the keys come in the given order. */
  function InOrder(data: map<string, string>, order: seq<string>): seq<string>
    requires forall k :: k in order ==> k in data
  {
    if order == [] then [] else Policies(data[order[0]]) + InOrder(data, order[1..])
  }

  /** These policies can be collected from the data. */
  ghost predicate CollectedFrom(data: map<string, string>, policies: seq<string>) {
    exists order :: Enumerates(order, data.Keys) && policies == InOrder(data, order)
  }

  lemma {:induction false} InOrderConcat(data: map<string, string>, xs: seq<string>, ys: seq<string>)
    requires forall k :: k in xs + ys ==> k in data
    ensures (forall k :: k in xs ==> k in data) && forall k :: k in ys ==> k in data
    ensures InOrder(data, xs + ys) == InOrder(data, xs) + InOrder(data, ys)
  {
    assert forall k :: k in xs || k in ys ==> k in xs + ys;
    if xs == [] {
      assert xs + ys == ys;
    } else {
      assert (xs + ys)[1..] == xs[1..] + ys;
      InOrderConcat(data, xs[1..], ys);
    }
  }

  function Without(order: seq<string>, i: nat): seq<string>
    requires i < |order|
  {
    order[..i] + order[i + 1..]
  }

  lemma EnumeratesWithout(order: seq<string>, keys: set<string>, i: nat)
    requires Enumerates(order, keys) && i < |order|
    ensures Enumerates(Without(order, i), keys - {order[i]})
  {
    var rest := Without(order, i);
    forall j | 0 <= j < |rest| ensures rest[j] == if j < i then order[j] else order[j + 1] {
    }
    forall x | x in keys - {order[i]} ensures x in rest {
      var j :| 0 <= j < |order| && order[j] == x;
      assert rest[if j < i then j else j - 1] == x;
    }
    forall j, k | 0 <= j < k < |rest| ensures rest[j] != rest[k] {
      var j', k' := if j < i then j else j + 1, if k < i then k else k + 1;
      assert order[j'] != order[k'];
    }
  }

  /** Any key may come first. */
  lemma PullOut(data: map<string, string>, order: seq<string>, i: nat)
    requires (forall k :: k in order ==> k in data) && i < |order|
    ensures forall k :: k in Without(order, i) ==> k in data
    ensures multiset(InOrder(data, order)) == multiset(Policies(data[order[i]]))
            + multiset(InOrder(data, Without(order, i)))
  {
    var before, k, after := order[..i], order[i], order[i + 1..];
    assert forall x :: x in before || x in after ==> x in order;
    assert order == before + ([k] + after);
    assert ([k] + after)[1..] == after;
    InOrderConcat(data, before, after);
    InOrderConcat(data, before, [k] + after);
  }

  /** Two orders of the same keys collect the same policies, each equally often. */
  lemma {:induction false} OrderIrrelevant(data: map<string, string>, order: seq<string>, order': seq<string>,
                                           keys: set<string>)
    requires keys <= data.Keys && Enumerates(order, keys) && Enumerates(order', keys)
    ensures multiset(InOrder(data, order)) == multiset(InOrder(data, order'))
    decreases order
  {
    EnumerationLength(order, keys);
    EnumerationLength(order', keys);
    if order != [] {
      assert order[0] in order';
      var i :| 0 <= i < |order'| && order'[i] == order[0];
      assert Without(order, 0) == order[1..];
      EnumeratesWithout(order, keys, 0);
      EnumeratesWithout(order', keys, i);
      PullOut(data, order, 0);
      PullOut(data, order', i);
      OrderIrrelevant(data, order[1..], Without(order', i), keys - {order[0]});
    }
  }

  /** However often the same data is collected, it yields the same policies, and as many. */
  lemma CollectedAlike(data: map<string, string>, policies: seq<string>, policies': seq<string>)
    requires CollectedFrom(data, policies) && CollectedFrom(data, policies')
    ensures multiset(policies) == multiset(policies') && |policies| == |policies'|
  {
    var order :| Enumerates(order, data.Keys) && policies == InOrder(data, order);
    var order' :| Enumerates(order', data.Keys) && policies' == InOrder(data, order');
    OrderIrrelevant(data, order, order', data.Keys);
    assert |multiset(policies)| == |multiset(policies')|;
  }

  lemma {:induction false} NonEmptyOrigin(sections: seq<string>, p: string)
    ensures p in NonEmpty(sections)
      <==> p != "" && exists i :: 0 <= i < |sections| && RemoveCommentsAndEmptyLines(sections[i]) == p
  {
    if sections != [] {
      NonEmptyOrigin(sections[1..], p);
      assert forall i :: 1 <= i < |sections| ==> sections[i] == sections[1..][i - 1];
      assert forall i :: 0 <= i < |sections[1..]| ==> sections[1..][i] == sections[i + 1];
    }
  }

  lemma {:induction false} InOrderOrigin(data: map<string, string>, order: seq<string>, p: string)
    requires forall k :: k in order ==> k in data
    ensures p in InOrder(data, order) <==> exists k :: k in order && p in Policies(data[k])
  {
    if order != [] {
      InOrderOrigin(data, order[1..], p);
      assert forall k :: k in order <==> k == order[0] || k in order[1..];
    }
  }

  /** The text is a section of a value: one of some separator-free pieces that, joined by the
      separator, make up the value. */
  ghost predicate SectionOf(section: string, text: string) {
    exists sections: seq<string>, i :: 0 <= i < |sections| && sections[i] == section && Join(sections) == text
                                      && forall j :: 0 <= j < |sections| ==> SeparatorFree(sections[j])
  }

  lemma SectionOfIsInSplit(section: string, text: string)
    ensures SectionOf(section, text) <==> section in Split(text)
  {
    JoinOfSplit(text);
    if SectionOf(section, text) {
      var sections: seq<string>, i :| 0 <= i < |sections| && sections[i] == section && Join(sections) == text
                                       && forall j :: 0 <= j < |sections| ==> SeparatorFree(sections[j]);
      SplitOfJoin(sections);
    }
    if section in Split(text) {
      var i :| 0 <= i < |Split(text)| && Split(text)[i] == section;
    }
  }

  /** A policy is collected exactly if it is what is left of a section of some value, and not nothing. */
  lemma PolicyOrigin(data: map<string, string>, policies: seq<string>, p: string)
    requires CollectedFrom(data, policies)
    ensures p in policies
      <==> p != "" && exists k, section ::
             k in data && SectionOf(section, data[k]) && RemoveCommentsAndEmptyLines(section) == p
  {
    var order :| Enumerates(order, data.Keys) && policies == InOrder(data, order);
    InOrderOrigin(data, order, p);
    forall k | k in data
      ensures p in Policies(data[k])
        <==> p != "" && exists section :: SectionOf(section, data[k]) && RemoveCommentsAndEmptyLines(section) == p
    {
      var sections := Split(data[k]);
      NonEmptyOrigin(sections, p);
      forall section ensures SectionOf(section, data[k]) <==> section in sections {
        SectionOfIsInSplit(section, data[k]);
      }
    }
  }

  lemma {:induction false} NonEmptySnoc(sections: seq<string>, section: string)
    ensures NonEmpty(sections + [section]) == NonEmpty(sections) + NonEmpty([section])
  {
    if sections != [] {
      assert (sections + [section])[1..] == sections[1..] + [section];
      NonEmptySnoc(sections[1..], section);
    } else {
      assert sections + [section] == [section];
    }
  }

  lemma OneMoreKey(data: map<string, string>, order: seq<string>, keys: set<string>, k: string)
    requires keys <= data.Keys && Enumerates(order, keys) && k in data && k !in keys
    ensures Enumerates(order + [k], keys + {k})
    ensures (forall x :: x in order + [k] ==> x in data)
            && InOrder(data, order + [k]) == InOrder(data, order) + Policies(data[k])
  {
    assert order + [k] == order + ([k] + []);
    assert [k][1..] == [];
    assert InOrder(data, [k]) == Policies(data[k]) + [];
    InOrderConcat(data, order, [k]);
  }

  /** What the sections of one value add. */
  method AppendSections(policies: seq<string>, elements: seq<string>) returns (more: seq<string>)
    ensures more == policies + NonEmpty(elements)
  {
    more := policies;
    for i := 0 to |elements|
      invariant more == policies + NonEmpty(elements[..i])
    {
      assert elements[..i + 1] == elements[..i] + [elements[i]];
      NonEmptySnoc(elements[..i], elements[i]);
      var section := RemoveCommentsAndEmptyLines(elements[i]);
      if section != "" {
        more := more + [section];
      }
    }
    assert elements[..|elements|] == elements;
  }

  method CollectContent(data: map<string, string>) returns (policies: seq<string>)
    ensures CollectedFrom(data, policies)
  {
    policies := [];
    ghost var order: seq<string> := [];
    var rest := data.Keys;
    while rest != {}
      invariant rest <= data.Keys && Enumerates(order, data.Keys - rest)
      invariant policies == InOrder(data, order)
      decreases rest
    {
      var k :| k in rest;
      policies := AppendSections(policies, Split(data[k]));
      OneMoreKey(data, order, data.Keys - rest, k);
      assert data.Keys - (rest - {k}) == data.Keys - rest + {k};
      order, rest := order + [k], rest - {k};
    }
    assert data.Keys - rest == data.Keys;
  }
}
