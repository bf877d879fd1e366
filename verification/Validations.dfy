/** The validations of an AddonCompliance: its references' policies, each under a key of its own. */
module Validations {
  import opened ObjectReferences
  import opened Collection
  import opened Requeue

  /** n in decimal. */
  function Decimal(n: nat): (s: string)
    ensures s != ""
  {
    var digit := ['0' + (n % 10) as char];
    if n < 10 then digit else Decimal(n / 10) + digit
  }

  function ParseDecimal(s: string): nat {
    if s == "" then 0
    else
      var last := s[|s| - 1];
      10 * ParseDecimal(s[..|s| - 1]) + if '0' <= last <= '9' then (last - '0') as nat else 0
  }

  lemma {:induction false} ParseDecimalPrint(n: nat)
    ensures ParseDecimal(Decimal(n)) == n && '-' !in Decimal(n)
  {
    if n >= 10 {
      ParseDecimalPrint(n / 10);
    }
  }

  /** Where c first occurs in s, or the length if it does not. */
  function First(s: string, c: char): (i: nat)
    ensures i <= |s|
  {
    if s == "" || s[0] == c then 0 else 1 + First(s[1..], c)
  }

  /** Where c last occurs in s, or 0 if it does not. */
  function Last(s: string, c: char): (i: nat)
    ensures s != "" ==> i < |s|
  {
    if s == "" then 0 else if s[|s| - 1] == c then |s| - 1 else Last(s[..|s| - 1], c)
  }

  lemma {:induction false} FirstAfter(s: string, c: char, t: string)
    requires c !in s
    ensures First(s + [c] + t, c) == |s|
  {
    if s != "" {
      assert (s + [c] + t)[1..] == s[1..] + [c] + t;
      FirstAfter(s[1..], c, t);
    }
  }

  lemma {:induction false} LastBefore(s: string, c: char, t: string)
    requires c !in t
    ensures Last(s + [c] + t, c) == |s|
  {
    var u := s + [c] + t;
    if t != "" {
      assert u[..|u| - 1] == s + [c] + t[..|t| - 1];
      LastBefore(s, c, t[..|t| - 1]);
    }
  }

  /** The key of the n-th policy of a reference. */
  function ValidationKey(kind: string, namespace: string, name: string, n: nat): string {
    kind + [':'] + (namespace + ['/'] + (name + ['-'] + Decimal(n)))
  }

  datatype Parts = Parts(kind: string, namespace: string, name: string, n: nat)

  /** Cuts a key at its first ':', the first '/' after that and its last '-'. */
  function ParseKey(key: string): Parts {
    var i := First(key, ':');
    var afterKind := if i < |key| then key[i + 1..] else "";
    var j := First(afterKind, '/');
    var afterNamespace := if j < |afterKind| then afterKind[j + 1..] else "";
    var k := Last(afterNamespace, '-');
    Parts(key[..i], afterKind[..j], afterNamespace[..k],
          ParseDecimal(if k < |afterNamespace| then afterNamespace[k + 1..] else ""))
  }

  /** A kind has no ':' and a namespace no '/'; a name may hold '-', ':' and '/'. */
  predicate WellNamed(kind: string, namespace: string) {
    ':' !in kind && '/' !in namespace
  }

  /** A key gives back the four parts it was printed from. */
  lemma ParsePrintKey(kind: string, namespace: string, name: string, n: nat)
    requires WellNamed(kind, namespace)
    ensures ParseKey(ValidationKey(kind, namespace, name, n)) == Parts(kind, namespace, name, n)
  {
    var digits := Decimal(n);
    var afterNamespace := name + ['-'] + digits;
    var afterKind := namespace + ['/'] + afterNamespace;
    var key := kind + [':'] + afterKind;
    ParseDecimalPrint(n);
    FirstAfter(kind, ':', afterKind);
    FirstAfter(namespace, '/', afterNamespace);
    LastBefore(name, '-', digits);
    assert key[..|kind|] == kind && key[|kind| + 1..] == afterKind;
    assert afterKind[..|namespace|] == namespace && afterKind[|namespace| + 1..] == afterNamespace;
    assert afterNamespace[..|name|] == name && afterNamespace[|name| + 1..] == digits;
  }

  /** The key of a reference's policy says which object it is from, and which number it has there, counted
      from 0. */
  lemma KeyOfParses(ref: ValidationRef, n: nat)
    requires WellNamed(ref.kind, ref.namespace)
    ensures ParseKey(KeyOf(ref, n)) == Parts(ref.kind, ref.namespace, ref.name, n)
  {
    ParsePrintKey(ref.kind, ref.namespace, ref.name, n);
  }

  predicate IsDigit(c: char) {
    '0' <= c <= '9'
  }

  /** Decimal notation: digits only, and no leading zero. */
  lemma {:induction false} DecimalDigits(n: nat)
    ensures forall i :: 0 <= i < |Decimal(n)| ==> IsDigit(Decimal(n)[i])
    ensures Decimal(n)[0] == '0' ==> n == 0 && |Decimal(n)| == 1
  {
    if n >= 10 {
      DecimalDigits(n / 10);
    }
  }

  lemma SameKeySameParts(ref: ValidationRef, n: nat, ref': ValidationRef, n': nat)
    requires WellNamed(ref.kind, ref.namespace) && WellNamed(ref'.kind, ref'.namespace)
    ensures KeyOf(ref, n) == KeyOf(ref', n') <==> SameSource(ref, ref') && n == n'
  {
    ParsePrintKey(ref.kind, ref.namespace, ref.name, n);
    ParsePrintKey(ref'.kind, ref'.namespace, ref'.name, n');
  }

  lemma SameSourceSameKey(ref: ValidationRef, ref': ValidationRef, n: nat)
    requires SameSource(ref, ref')
    ensures KeyOf(ref, n) == KeyOf(ref', n)
  {
  }

  function KeyOf(ref: ValidationRef, n: nat): string {
    ValidationKey(ref.kind, ref.namespace, ref.name, n)
  }

  /** Two references to one object, perhaps to different paths in it. */
  predicate SameSource(ref: ValidationRef, ref': ValidationRef) {
    ref.kind == ref'.kind && ref.namespace == ref'.namespace && ref.name == ref'.name
  }

  /** Of the kinds of sources, three are read; the others yield nothing. */
  lemma ReadKinds(source: Source)
    ensures IsRead(KindOf(source)) <==> source != OCIRepository && source != Bucket
  {
  }

  /** What reading a referenced object and its content comes to. */
  datatype Fetched = Content(data: map<string, string>) | NotThere | Failed

  datatype Result<T> = Ok(value: T) | Err

  /** The empty cases for an OCIRepository and a Bucket end the switch, so nothing is read for them. */
  predicate IsRead(kind: string) {
    kind == "ConfigMap" || kind == "Secret" || kind == "GitRepository"
  }

  predicate Fails(ref: ValidationRef, fetched: Fetched) {
    IsRead(ref.kind) && fetched.Failed?
  }

  /** These policies can be collected for the reference. */
  ghost predicate CollectedFor(ref: ValidationRef, fetched: Fetched, policies: seq<string>) {
    if IsRead(ref.kind) && fetched.Content? then CollectedFrom(fetched.data, policies) else policies == []
  }

  /** The policies under their keys. */
  function Numbered(ref: ValidationRef, policies: seq<string>): map<string, string> {
    if policies == [] then map[]
    else
      var n := |policies| - 1;
      Numbered(ref, policies[..n])[KeyOf(ref, n) := policies[n]]
  }

  /** The policies of the first references under their keys; a later reference overwrites an earlier one. */
  function Merge(refs: seq<ValidationRef>, contents: seq<seq<string>>): map<string, string>
    requires |contents| <= |refs|
  {
    if contents == [] then map[]
    else
      var n := |contents| - 1;
      Merge(refs, contents[..n]) + Numbered(refs[n], contents[n])
  }

  /** What fails, and what is collected: reading can fail for three kinds only, and an object that is not
      there is no failure, but yields nothing. */
  lemma CollectedIff(ref: ValidationRef, fetched: Fetched, policies: seq<string>)
    ensures Fails(ref, fetched) <==>
              fetched == Failed && (ref.kind == "ConfigMap" || ref.kind == "Secret" || ref.kind == "GitRepository")
    ensures fetched == NotThere ==> (CollectedFor(ref, fetched, policies) <==> policies == [])
    ensures ref.kind == "OCIRepository" || ref.kind == "Bucket" ==>
              (CollectedFor(ref, fetched, policies) <==> policies == [])
  {
  }

  method CollectContentOf(fetched: Fetched) returns (r: Result<seq<string>>)
    ensures r.Err? <==> fetched.Failed?
    ensures r.Ok? ==> if fetched.Content? then CollectedFrom(fetched.data, r.value) else r.value == []
  {
    match fetched
    case NotThere => return Ok([]);
    case Failed => return Err;
    case Content(data) =>
      var policies := CollectContent(data);
      return Ok(policies);
  }

  /** These validations can be collected for the reference. */
  ghost predicate ValidationsFor(ref: ValidationRef, fetched: Fetched, validations: map<string, string>) {
    exists policies :: CollectedFor(ref, fetched, policies) && validations == Numbered(ref, policies)
  }

  method CollectValidations(ref: ValidationRef, fetched: Fetched) returns (r: Result<map<string, string>>)
    ensures r.Err? <==> Fails(ref, fetched)
    ensures r.Ok? ==> ValidationsFor(ref, fetched, r.value)
  {
    var collected: Result<seq<string>> := Ok([]);
    match ref.kind {
      case "ConfigMap" => collected := CollectContentOf(fetched);
      case "Secret" => collected := CollectContentOf(fetched);
      case "OCIRepository" =>
      case "Bucket" =>
      case "GitRepository" => collected := CollectContentOf(fetched);
      case _ =>
    }
    if collected.Err? {
      return Err;
    }
    var validations := NumberPolicies(ref, collected.value);
    return Ok(validations);
  }

  method NumberPolicies(ref: ValidationRef, policies: seq<string>) returns (validations: map<string, string>)
    ensures validations == Numbered(ref, policies)
  {
    validations := map[];
    for i := 0 to |policies|
      invariant validations == Numbered(ref, policies[..i])
    {
      validations := validations[KeyOf(ref, i) := policies[i]];
      assert policies[..i + 1][..i] == policies[..i];
    }
    assert policies[..|policies|] == policies;
  }

  /** These are contents that the first references can have yielded. */
  ghost predicate Collected(refs: seq<ValidationRef>, fetched: seq<Fetched>, contents: seq<seq<string>>)
    requires |refs| == |fetched|
  {
    contents != [] ==>
      var n := |contents| - 1;
      n < |refs| && CollectedFor(refs[n], fetched[n], contents[n]) && Collected(refs, fetched, contents[..n])
  }

  lemma {:induction false} CollectedAt(refs: seq<ValidationRef>, fetched: seq<Fetched>, contents: seq<seq<string>>,
                                       i: nat)
    requires |refs| == |fetched| && Collected(refs, fetched, contents) && i < |contents|
    ensures |contents| <= |refs| && CollectedFor(refs[i], fetched[i], contents[i])
  {
    if i < |contents| - 1 {
      CollectedAt(refs, fetched, contents[..|contents| - 1], i);
    }
  }

  /** These validations can be collected for the first n references. */
  ghost predicate ValidationsOf(refs: seq<ValidationRef>, fetched: seq<Fetched>, n: nat,
                                validations: map<string, string>)
    requires |refs| == |fetched|
  {
    exists contents :: |contents| == n <= |refs| && Collected(refs, fetched, contents)
        && validations == Merge(refs, contents)
  }

  lemma OneMoreContent(refs: seq<ValidationRef>, fetched: seq<Fetched>, contents: seq<seq<string>>,
                       policies: seq<string>,
                       more: seq<seq<string>>)
    requires |contents| < |refs| == |fetched| && |more| == |contents| + 1
    requires more[..|contents|] == contents && more[|contents|] == policies
    requires Collected(refs, fetched, contents) && CollectedFor(refs[|contents|], fetched[|contents|], policies)
    ensures Collected(refs, fetched, more)
    ensures Merge(refs, more) == Merge(refs, contents) + Numbered(refs[|contents|], policies)
  {
  }

  lemma OneMoreReference(refs: seq<ValidationRef>, fetched: seq<Fetched>, n: nat, validations: map<string, string>,
                         current: map<string, string>)
    requires |refs| == |fetched| && n < |refs| && ValidationsOf(refs, fetched, n, validations)
    requires ValidationsFor(refs[n], fetched[n], current)
    ensures ValidationsOf(refs, fetched, n + 1, validations + current)
  {
    var contents :| |contents| == n && Collected(refs, fetched, contents) && validations == Merge(refs, contents);
    var policies :| CollectedFor(refs[n], fetched[n], policies) && current == Numbered(refs[n], policies);
    var more := contents + [policies];
    assert more[n] == policies && more[..n] == contents;
    OneMoreContent(refs, fetched, contents, policies, more);
    FromContents(refs, fetched, more, validations + current);
  }

  /** If none of the objects is there, nothing fails and there are no validations. */
  lemma {:induction false} NothingThere(refs: seq<ValidationRef>, fetched: seq<Fetched>, n: nat,
                                        validations: map<string, string>)
    requires |refs| == |fetched| && (forall i :: 0 <= i < |fetched| ==> fetched[i] == NotThere)
    requires ValidationsOf(refs, fetched, n, validations)
    ensures validations == map[] && forall i :: 0 <= i < |refs| ==> !Fails(refs[i], fetched[i])
  {
    var contents :| |contents| == n <= |refs| && Collected(refs, fetched, contents)
                    && validations == Merge(refs, contents);
    NothingMerged(refs, fetched, contents);
  }

  lemma {:induction false} NothingMerged(refs: seq<ValidationRef>, fetched: seq<Fetched>, contents: seq<seq<string>>)
    requires |contents| <= |refs| == |fetched| && (forall i :: 0 <= i < |fetched| ==> fetched[i] == NotThere)
    requires Collected(refs, fetched, contents)
    ensures Merge(refs, contents) == map[]
  {
    if contents != [] {
      var n := |contents| - 1;
      NothingMerged(refs, fetched, contents[..n]);
      assert fetched[n] == NotThere && contents[n] == [];
    }
  }

  lemma FromContents(refs: seq<ValidationRef>, fetched: seq<Fetched>, contents: seq<seq<string>>,
                     validations: map<string, string>)
    requires |contents| <= |refs| == |fetched| && Collected(refs, fetched, contents)
    requires validations == Merge(refs, contents)
    ensures ValidationsOf(refs, fetched, |contents|, validations)
  {
  }

  /** The validations are collected unless reading some reference fails; then there are none at all. */
  method CollectLuaValidations(refs: seq<ValidationRef>, fetched: seq<Fetched>) returns (r: Result<map<string, string>>)
    requires |refs| == |fetched|
    ensures r.Err? <==> exists i :: 0 <= i < |refs| && Fails(refs[i], fetched[i])
    ensures r.Ok? ==> ValidationsOf(refs, fetched, |refs|, r.value)
  {
    var validations: map<string, string> := map[];
    assert Collected(refs, fetched, []);
    for i := 0 to |refs|
      invariant forall j :: 0 <= j < i ==> !Fails(refs[j], fetched[j])
      invariant ValidationsOf(refs, fetched, i, validations)
    {
      var current := CollectValidations(refs[i], fetched[i]);
      if current.Err? {
        return Err;
      }
      OneMoreReference(refs, fetched, i, validations, current.value);
      validations := validations + current.value;
    }
    return Ok(validations);
  }

  ghost predicate AllWellNamed(refs: seq<ValidationRef>) {
    forall i :: 0 <= i < |refs| ==> WellNamed(refs[i].kind, refs[i].namespace)
  }

  lemma {:induction false} NumberedAt(ref: ValidationRef, policies: seq<string>, n: nat)
    requires WellNamed(ref.kind, ref.namespace) && n < |policies|
    ensures KeyOf(ref, n) in Numbered(ref, policies) && Numbered(ref, policies)[KeyOf(ref, n)] == policies[n]
  {
    var last := |policies| - 1;
    if n < last {
      NumberedAt(ref, policies[..last], n);
      SameKeySameParts(ref, n, ref, last);
    }
  }

  lemma {:induction false} NumberedFrom(ref: ValidationRef, policies: seq<string>, key: string) returns (n: nat)
    requires key in Numbered(ref, policies)
    ensures n < |policies| && key == KeyOf(ref, n)
  {
    var last := |policies| - 1;
    if key == KeyOf(ref, last) {
      n := last;
    } else {
      n := NumberedFrom(ref, policies[..last], key);
    }
  }

  /** The key is that of the n-th policy of the i-th reference. */
  ghost predicate KeyFrom(refs: seq<ValidationRef>, contents: seq<seq<string>>, key: string, i: nat, n: nat)
    requires |contents| <= |refs|
  {
    i < |contents| && n < |contents[i]| && key == KeyOf(refs[i], n)
  }

  lemma {:induction false} MergedAt(refs: seq<ValidationRef>, contents: seq<seq<string>>, i: nat, n: nat)
    requires |contents| <= |refs| && AllWellNamed(refs) && i < |contents| && n < |contents[i]|
    ensures KeyOf(refs[i], n) in Merge(refs, contents)
  {
    var last := |contents| - 1;
    if i < last {
      MergedAt(refs, contents[..last], i, n);
    } else {
      NumberedAt(refs[last], contents[last], n);
    }
  }

  lemma {:induction false} MergedFrom(refs: seq<ValidationRef>, contents: seq<seq<string>>, key: string)
    returns (i: nat, n: nat)
    requires |contents| <= |refs| && key in Merge(refs, contents)
    ensures KeyFrom(refs, contents, key, i, n)
  {
    var last := |contents| - 1;
    if key in Numbered(refs[last], contents[last]) {
      i := last;
      n := NumberedFrom(refs[last], contents[last], key);
    } else {
      i, n := MergedFrom(refs, contents[..last], key);
    }
  }

  /** The keys are exactly those of the policies; which they are depends only on how many policies
      each reference has. */
  lemma MergedKeys(refs: seq<ValidationRef>, contents: seq<seq<string>>, key: string)
    requires |contents| <= |refs| && AllWellNamed(refs)
    ensures key in Merge(refs, contents) <==> exists i: nat, n: nat :: KeyFrom(refs, contents, key, i, n)
  {
    if key in Merge(refs, contents) {
      var i, n := MergedFrom(refs, contents, key);
    }
    if i: nat, n: nat :| KeyFrom(refs, contents, key, i, n) {
      MergedAt(refs, contents, i, n);
    }
  }

  /** A policy is found under its key unless a later reference to the same object has one of that
      number too. */
  lemma {:induction false} LastReferenceWins(refs: seq<ValidationRef>, contents: seq<seq<string>>, i: nat, n: nat)
    requires |contents| <= |refs| && AllWellNamed(refs) && i < |contents| && n < |contents[i]|
    requires forall j :: i < j < |contents| && SameSource(refs[i], refs[j]) ==> |contents[j]| <= n
    ensures KeyOf(refs[i], n) in Merge(refs, contents) && Merge(refs, contents)[KeyOf(refs[i], n)] == contents[i][n]
  {
    var last := |contents| - 1;
    var key := KeyOf(refs[i], n);
    if i < last {
      LastReferenceWins(refs, contents[..last], i, n);
      if key in Numbered(refs[last], contents[last]) {
        var n' := NumberedFrom(refs[last], contents[last], key);
        SameKeySameParts(refs[i], n, refs[last], n');
        assert false;
      }
    } else {
      NumberedAt(refs[last], contents[last], n);
    }
  }

  /** Collected again, in whatever order of the data, the validations have the same keys. */
  lemma SameKeysWhateverTheOrder(refs: seq<ValidationRef>, fetched: seq<Fetched>, contents: seq<seq<string>>,
                                 contents': seq<seq<string>>)
    requires |refs| == |fetched| && AllWellNamed(refs) && |contents| == |contents'| <= |refs|
    requires Collected(refs, fetched, contents) && Collected(refs, fetched, contents')
    ensures Merge(refs, contents).Keys == Merge(refs, contents').Keys
  {
    forall i | 0 <= i < |contents| ensures |contents[i]| == |contents'[i]| {
      CollectedAt(refs, fetched, contents, i);
      CollectedAt(refs, fetched, contents', i);
      if IsRead(refs[i].kind) && fetched[i].Content? {
        CollectedAlike(fetched[i].data, contents[i], contents'[i]);
      }
    }
    forall key ensures key in Merge(refs, contents) <==> key in Merge(refs, contents') {
      MergedKeys(refs, contents, key);
      MergedKeys(refs, contents', key);
      assert forall i: nat, n: nat :: KeyFrom(refs, contents, key, i, n) <==> KeyFrom(refs, contents', key, i, n);
    }
  }

  /** How often a policy was collected. */
  function Collections(contents: seq<seq<string>>, policy: string): nat {
    if contents == [] then 0
    else
      var n := |contents| - 1;
      Collections(contents[..n], policy) + multiset(contents[n])[policy]
  }

  function Total(contents: seq<seq<string>>): nat {
    if contents == [] then 0 else Total(contents[..|contents| - 1]) + |contents[|contents| - 1]|
  }

  /** The keys under which a policy is found. */
  function KeysOf(m: map<string, string>, policy: string): set<string> {
    set k | k in m && m[k] == policy
  }

  /** No two references to the same object both have a policy. */
  ghost predicate NothingOverwritten(refs: seq<ValidationRef>, contents: seq<seq<string>>)
    requires |contents| <= |refs|
  {
    forall i, j :: 0 <= i < j < |contents| && SameSource(refs[i], refs[j]) ==> contents[i] == [] || contents[j] == []
  }

  lemma {:induction false} NumberedCounts(ref: ValidationRef, policies: seq<string>, policy: string)
    requires WellNamed(ref.kind, ref.namespace)
    ensures |Numbered(ref, policies)| == |policies|
    ensures |KeysOf(Numbered(ref, policies), policy)| == multiset(policies)[policy]
  {
    if policies != [] {
      var last := |policies| - 1;
      var before, key := Numbered(ref, policies[..last]), KeyOf(ref, last);
      NumberedCounts(ref, policies[..last], policy);
      if key in before {
        var n := NumberedFrom(ref, policies[..last], key);
        SameKeySameParts(ref, n, ref, last);
        assert false;
      }
      assert policies == policies[..last] + [policies[last]];
      var after := before[key := policies[last]];
      assert after.Keys == before.Keys + {key};
      assert KeysOf(after, policy) == KeysOf(before, policy) + if policies[last] == policy then {key} else {};
    }
  }

  predicate NoSharedKey(m: map<string, string>, m': map<string, string>) {
    forall k :: k in m ==> k !in m'
  }

  lemma MergeSize(m: map<string, string>, m': map<string, string>)
    ensures |m + m'| <= |m| + |m'|
    ensures |m + m'| == |m| + |m'| <==> NoSharedKey(m, m')
  {
    assert (m + m').Keys == m.Keys + m'.Keys;
    assert |m.Keys + m'.Keys| + |m.Keys * m'.Keys| == |m.Keys| + |m'.Keys|;
    if NoSharedKey(m, m') {
      assert m.Keys * m'.Keys == {};
    } else {
      var k :| k in m && k in m';
      assert k in m.Keys * m'.Keys;
    }
  }

  lemma MergeKeysOf(m: map<string, string>, m': map<string, string>, policy: string)
    requires NoSharedKey(m, m')
    ensures |KeysOf(m + m', policy)| == |KeysOf(m, policy)| + |KeysOf(m', policy)|
  {
    assert KeysOf(m + m', policy) == KeysOf(m, policy) + KeysOf(m', policy);
    assert KeysOf(m, policy) !! KeysOf(m', policy);
  }

  /** The last reference and an earlier one both have a policy, and are to the same object. */
  ghost predicate LastOverwrites(refs: seq<ValidationRef>, contents: seq<seq<string>>, i: nat)
    requires |contents| <= |refs| && contents != []
  {
    var last := |contents| - 1;
    i < last && SameSource(refs[i], refs[last]) && contents[i] != [] && contents[last] != []
  }

  lemma NothingOverwrittenSoFar(refs: seq<ValidationRef>, contents: seq<seq<string>>)
    requires |contents| <= |refs| && contents != []
    ensures NothingOverwritten(refs, contents)
      <==> NothingOverwritten(refs, contents[..|contents| - 1]) && forall i: nat :: !LastOverwrites(refs, contents, i)
  {
    var last := |contents| - 1;
    assert forall i :: 0 <= i < last ==> contents[..last][i] == contents[i];
    if NothingOverwritten(refs, contents) {
      assert forall i: nat :: !LastOverwrites(refs, contents, i);
    }
    if NothingOverwritten(refs, contents[..last]) && forall i: nat :: !LastOverwrites(refs, contents, i) {
      forall i, j | 0 <= i < j < |contents| && SameSource(refs[i], refs[j])
        ensures contents[i] == [] || contents[j] == [] {
        assert !LastOverwrites(refs, contents, i);
      }
    }
  }

  lemma SharedKey(refs: seq<ValidationRef>, earlier: seq<seq<string>>, i: nat, ref: ValidationRef,
                  policies: seq<string>)
    requires |earlier| <= |refs| && AllWellNamed(refs) && WellNamed(ref.kind, ref.namespace)
    requires i < |earlier| && earlier[i] != [] && policies != [] && SameSource(refs[i], ref)
    ensures KeyOf(ref, 0) in Merge(refs, earlier) && KeyOf(ref, 0) in Numbered(ref, policies)
  {
    MergedAt(refs, earlier, i, 0);
    NumberedAt(ref, policies, 0);
    SameSourceSameKey(refs[i], ref, 0);
  }

  lemma SharedKeyFrom(refs: seq<ValidationRef>, contents: seq<seq<string>>, key: string) returns (i: nat)
    requires |contents| <= |refs| && AllWellNamed(refs) && contents != []
    requires var last := |contents| - 1;
             key in Merge(refs, contents[..last]) && key in Numbered(refs[last], contents[last])
    ensures LastOverwrites(refs, contents, i)
  {
    var last := |contents| - 1;
    var n, n';
    i, n := MergedFrom(refs, contents[..last], key);
    n' := NumberedFrom(refs[last], contents[last], key);
    assert contents[..last][i] == contents[i];
    SameKeySameParts(refs[i], n, refs[last], n');
  }

  /** Nothing is overwritten exactly if nothing was before the last reference, and all its keys are new. */
  lemma LastOverwritesNothing(refs: seq<ValidationRef>, contents: seq<seq<string>>)
    requires |contents| <= |refs| && AllWellNamed(refs) && contents != []
    ensures var last := |contents| - 1;
            NothingOverwritten(refs, contents)
            <==> NothingOverwritten(refs, contents[..last])
                 && NoSharedKey(Merge(refs, contents[..last]), Numbered(refs[last], contents[last]))
  {
    var last := |contents| - 1;
    var earlier, latest := Merge(refs, contents[..last]), Numbered(refs[last], contents[last]);
    if !NoSharedKey(earlier, latest) {
      var key :| key in earlier && key in latest;
      var i := SharedKeyFrom(refs, contents, key);
    } else {
      forall i: nat ensures !LastOverwrites(refs, contents, i) {
        if LastOverwrites(refs, contents, i) {
          SharedKey(refs, contents[..last], i, refs[last], contents[last]);
        }
      }
    }
    NothingOverwrittenSoFar(refs, contents);
  }

  /** There are as many validations as policies were collected if and only if no two references to the
      same object both have one; there are never more. */
  lemma {:induction false} NoneLostIffNothingOverwritten(refs: seq<ValidationRef>, contents: seq<seq<string>>)
    requires |contents| <= |refs| && AllWellNamed(refs)
    ensures |Merge(refs, contents)| <= Total(contents)
    ensures |Merge(refs, contents)| == Total(contents) <==> NothingOverwritten(refs, contents)
  {
    if contents != [] {
      var last := |contents| - 1;
      NoneLostIffNothingOverwritten(refs, contents[..last]);
      NumberedCounts(refs[last], contents[last], "");
      MergeSize(Merge(refs, contents[..last]), Numbered(refs[last], contents[last]));
      LastOverwritesNothing(refs, contents);
    }
  }

  /** And then every policy is found exactly as often as it was collected. */
  lemma {:induction false} EveryPolicyFound(refs: seq<ValidationRef>, contents: seq<seq<string>>, policy: string)
    requires |contents| <= |refs| && AllWellNamed(refs) && NothingOverwritten(refs, contents)
    ensures |KeysOf(Merge(refs, contents), policy)| == Collections(contents, policy)
  {
    if contents != [] {
      var last := |contents| - 1;
      LastOverwritesNothing(refs, contents);
      EveryPolicyFound(refs, contents[..last], policy);
      NumberedCounts(refs[last], contents[last], policy);
      MergeKeysOf(Merge(refs, contents[..last]), Numbered(refs[last], contents[last]), policy);
    }
  }

  /** With an object referenced once only, or without content the second time, collecting in another
      order publishes every policy equally often, though perhaps under another key. */
  lemma SamePoliciesWhateverTheOrder(refs: seq<ValidationRef>, fetched: seq<Fetched>, contents: seq<seq<string>>,
                                     contents': seq<seq<string>>, policy: string)
    requires |refs| == |fetched| && AllWellNamed(refs) && |contents| == |contents'| <= |refs|
    requires Collected(refs, fetched, contents) && Collected(refs, fetched, contents')
    requires NothingOverwritten(refs, contents)
    ensures |KeysOf(Merge(refs, contents), policy)| == |KeysOf(Merge(refs, contents'), policy)|
  {
    forall i | 0 <= i < |contents|
      ensures multiset(contents[i]) == multiset(contents'[i]) && |contents[i]| == |contents'[i]|
    {
      CollectedAt(refs, fetched, contents, i);
      CollectedAt(refs, fetched, contents', i);
      if IsRead(refs[i].kind) && fetched[i].Content? {
        CollectedAlike(fetched[i].data, contents[i], contents'[i]);
      }
    }
    EveryPolicyFound(refs, contents, policy);
    EveryPolicyFound(refs, contents', policy);
    SameCollections(contents, contents', policy);
  }

  lemma {:induction false} SameCollections(contents: seq<seq<string>>, contents': seq<seq<string>>, policy: string)
    requires |contents| == |contents'|
    requires forall i :: 0 <= i < |contents| ==> multiset(contents[i]) == multiset(contents'[i])
    ensures Collections(contents, policy) == Collections(contents', policy)
  {
    if contents != [] {
      var last := |contents| - 1;
      SameCollections(contents[..last], contents'[..last], policy);
    }
  }

  /** Two references to different paths of one object: the second one's policy replaces the first's. */
  lemma PathsOverwrite(ref: ValidationRef, path: string, policy: string, policy': string)
    requires WellNamed(ref.kind, ref.namespace)
    ensures Merge([ref, ref.(path := path)], [[policy], [policy']]) == map[KeyOf(ref, 0) := policy']
  {
    var refs, contents := [ref, ref.(path := path)], [[policy], [policy']];
    assert contents[..1] == [[policy]] && contents[..1][..0] == [];
    assert Numbered(ref, [policy]) == map[KeyOf(ref, 0) := policy];
    assert Numbered(refs[1], [policy']) == map[KeyOf(ref, 0) := policy'];
    assert Merge(refs, contents[..1]) == Merge(refs, []) + Numbered(ref, [policy]);
  }
}
