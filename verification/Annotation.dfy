/** How annotating a cluster shares the cluster with its other writers. A writer reads a version of the
    cluster, changes its copy and puts the whole copy back; the API server takes it only if the version
    read is still the current one. An annotating call tries again after a conflict, five times in all. */
module Annotation {

  datatype Option<T> = None | Some(value: T)

  datatype Field = Annotation(key: string) | Label(key: string) | Elsewhere(path: string)

  type Content = map<Field, string>

  datatype Change = Put(value: string) | Drop

  type Changes = map<Field, Change>

  datatype Object = Absent | Present(content: Content)

  /** The annotation; the library that names it is not part of this model. */
  const LOADED := Annotation("cluster-annotation")
  const OK := "ok"
  const ATTEMPTS: nat := 5
  const ANNOTATING: Changes := map[LOADED := Put(OK)]

  datatype Writer = Annotator(id: nat) | Other(id: nat)

  datatype Event = Created(content: Content) | Updated(writer: Writer, changes: Changes) | Deleted

  datatype Result =
    | Missing(version: nat)
    | Already(version: nat)
    | Written(version: nat)
    | GaveUp(at: nat, timely: nat)
    | Failed

  /** start is the version at which the call began, left the attempts it still has, and timely how many
      of its reads were answered with the version that was current. */
  datatype Call =
    | NotCalled
    | Trying(start: nat, left: nat, timely: nat)
    | Holding(start: nat, left: nat, timely: nat, version: nat, copy: Content, changes: Changes)
    | Returned(start: nat, result: Result)

  /** past[v] is the object as of version v; the last one is what the API server holds. The log says
      which event made each version. upToDate says that no read so far was answered with an old version. */
  datatype State = State(past: seq<Object>, log: seq<Event>, calls: map<Writer, Call>, upToDate: bool)

  datatype Move =
    | Begin(attempts: nat)
    | Read(seen: nat, changes: Changes)
    | Write
    | Fail

  datatype Action = Create(content: Content) | Delete | Caller(writer: Writer, move: Move)

  const INIT := State([Absent], [], map[], true)

  function Lookup(o: Object, f: Field): Option<string> {
    if o.Present? && f in o.content then Some(o.content[f]) else None
  }

  function Edited(content: Content, changes: Changes): Content {
    map f | f in content.Keys + changes.Keys && (f in changes ==> changes[f].Put?) ::
      if f in changes then changes[f].value else content[f]
  }

  function CallOf(s: State, w: Writer): Call {
    if w in s.calls then s.calls[w] else NotCalled
  }

  function Current(s: State): Object
    requires s.past != []
  {
    s.past[|s.past| - 1]
  }

  predicate Enabled(s: State, act: Action) {
    s.past != [] &&
    match act
    case Create(_) => Current(s).Absent?
    case Delete => Current(s).Present?
    case Caller(w, m) =>
      var call := CallOf(s, w);
      match m
      case Begin(attempts) => (call.NotCalled? || call.Returned?) && attempts > 0
          && (w.Annotator? ==> attempts == ATTEMPTS)
      case Read(seen, changes) => call.Trying? && seen < |s.past| && (w.Annotator? ==> changes == ANNOTATING)
      case Write => call.Holding?
      case Fail => call.Trying? || call.Holding?
  }

  /** What reading a version leads to. An annotating call is done if the annotation is there. */
  function AfterRead(w: Writer, call: Call, seen: nat, o: Object, changes: Changes, current: bool): Call
    requires call.Trying?
  {
    if o.Absent? then Returned(call.start, Missing(seen))
    else if w.Annotator? && LOADED in o.content then Returned(call.start, Already(seen))
    else Holding(call.start, call.left, if current then call.timely + 1 else call.timely, seen, o.content, changes)
  }

  /** A put is refused if the object is gone or has changed since it was read. After a conflict the call
      tries again, unless this was its last attempt. */
  function WriteStep(s: State, w: Writer): State
    requires s.past != [] && CallOf(s, w).Holding?
  {
    var call := CallOf(s, w);
    var version := |s.past| - 1;
    if Current(s).Absent? then s.(calls := s.calls[w := Returned(call.start, Failed)])
    else if call.version != version then
      s.(calls := s.calls[w := if call.left <= 1 then Returned(call.start, GaveUp(|s.log|, call.timely))
                               else Trying(call.start, call.left - 1, call.timely)])
    else
      s.(past := s.past + [Present(Edited(call.copy, call.changes))], log := s.log + [Updated(w, call.changes)],
         calls := s.calls[w := Returned(call.start, Written(version + 1))])
  }

  function Step(s: State, act: Action): State
    requires Enabled(s, act)
  {
    match act
    case Create(content) => s.(past := s.past + [Present(content)], log := s.log + [Created(content)])
    case Delete => s.(past := s.past + [Absent], log := s.log + [Deleted])
    case Caller(w, m) =>
      match m
      case Begin(attempts) => s.(calls := s.calls[w := Trying(|s.log|, attempts, 0)])
      case Read(seen, changes) =>
        s.(calls := s.calls[w := AfterRead(w, CallOf(s, w), seen, s.past[seen], changes, seen == |s.past| - 1)],
           upToDate := s.upToDate && seen == |s.past| - 1)
      case Write => WriteStep(s, w)
      case Fail => s.(calls := s.calls[w := Returned(CallOf(s, w).start, Failed)])
  }

  ghost predicate Leads(s: State, acts: seq<Action>, s': State)
    decreases |acts|
  {
    if acts == [] then s' == s
    else Enabled(s, acts[0]) && Leads(Step(s, acts[0]), acts[1..], s')
  }

  ghost predicate Reachable(s: State) {
    exists acts :: Leads(INIT, acts, s)
  }

  /** What the last event that says anything about a field left it at. */
  function LastWritten(log: seq<Event>, f: Field): Option<string> {
    if log == [] then None
    else
      var last := |log| - 1;
      match log[last]
      case Created(content) => Lookup(Present(content), f)
      case Deleted => None
      case Updated(_, changes) =>
        if f !in changes then LastWritten(log[..last], f)
        else if changes[f].Put? then Some(changes[f].value)
        else None
  }

  /** The history without what annotating calls did. */
  function WithoutAnnotators(log: seq<Event>): seq<Event> {
    if log == [] then []
    else
      var last := |log| - 1;
      WithoutAnnotators(log[..last]) + if ByAnnotator(log[last]) then [] else [log[last]]
  }

  /** Every version is what the events before it wrote, field by field. */
  ghost predicate VersionsOk(s: State) {
    && |s.past| == |s.log| + 1
    && forall v, f :: 0 <= v < |s.past| ==> Lookup(s.past[v], f) == LastWritten(s.log[..v], f)
  }

  /** A copy is what its version holds; a call that returned tells the truth. */
  ghost predicate CallOk(s: State, w: Writer, call: Call) {
    match call
    case NotCalled => true
    case Trying(start, left, timely) =>
      && left > 0 && start + timely <= |s.log|
      && (w.Annotator? ==> left <= ATTEMPTS && (s.upToDate ==> timely == ATTEMPTS - left))
    case Holding(start, left, timely, version, copy, changes) =>
      && left > 0 && version < |s.past| && s.past[version] == Present(copy)
      && start + timely <= (if version == |s.log| then |s.log| + 1 else |s.log|)
      && (w.Annotator? ==> changes == ANNOTATING && left <= ATTEMPTS && LOADED !in copy)
      && (w.Annotator? && s.upToDate ==> timely == ATTEMPTS - left + 1 && start <= version)
    case Returned(start, result) =>
      match result
      case Missing(version) =>
        version < |s.past| && s.past[version].Absent? && (w.Annotator? && s.upToDate ==> start <= version)
      case Already(version) =>
        w.Annotator? ==>
          version < |s.past| && Lookup(s.past[version], LOADED).Some? && (s.upToDate ==> start <= version)
      case Written(version) =>
        && 0 < version < |s.past| && version <= |s.log|
        && (w.Annotator? ==>
              s.log[version - 1] == Updated(w, ANNOTATING) && Lookup(s.past[version], LOADED) == Some(OK))
        && (w.Annotator? && s.upToDate ==> start < version)
      case GaveUp(at, timely) => start + timely <= at <= |s.log| && (w.Annotator? && s.upToDate ==> timely == ATTEMPTS)
      case Failed => true
  }

  ghost predicate CallsOk(s: State) {
    forall w :: CallOk(s, w, CallOf(s, w))
  }

  predicate ByAnnotator(e: Event) {
    e.Updated? && e.writer.Annotator?
  }

  /** An annotating call changes nothing but the annotation, and that only where it is not there. */
  ghost predicate LogOk(s: State) {
    forall i :: 0 <= i < |s.log| && i < |s.past| && ByAnnotator(s.log[i]) ==>
      s.log[i].changes == ANNOTATING && s.past[i].Present? && LOADED !in s.past[i].content
  }

  ghost predicate Inv(s: State) {
    VersionsOk(s) && CallsOk(s) && LogOk(s)
  }

  lemma VersionsGrow(s: State, o: Object, e: Event, s': State)
    requires VersionsOk(s) && s'.past == s.past + [o] && s'.log == s.log + [e]
    requires forall f :: Lookup(o, f) == LastWritten(s.log + [e], f)
    ensures VersionsOk(s')
  {
    forall v, f | 0 <= v < |s'.past| ensures Lookup(s'.past[v], f) == LastWritten(s'.log[..v], f) {
      assert s'.log[..v] == if v <= |s.log| then s.log[..v] else s.log + [e];
    }
  }

  /** A put from a copy of the current version writes what it changes, and nothing else. */
  lemma PutWrites(s: State, w: Writer, changes: Changes, f: Field)
    requires VersionsOk(s) && Current(s).Present?
    ensures Lookup(Present(Edited(Current(s).content, changes)), f) == LastWritten(s.log + [Updated(w, changes)], f)
  {
    var log := s.log + [Updated(w, changes)];
    assert log[..|s.log|] == s.log == s.log[..|s.past| - 1];
  }

  lemma CallOkLater(s: State, s': State, w: Writer, call: Call)
    requires CallOk(s, w, call) && |s.past| <= |s'.past| && |s.log| <= |s'.log| && (s'.upToDate ==> s.upToDate)
    requires s'.past[..|s.past|] == s.past && s'.log[..|s.log|] == s.log
    ensures CallOk(s', w, call)
  {
    assert forall v :: 0 <= v < |s.past| ==> s'.past[v] == s.past[v];
    assert forall v :: 0 <= v < |s.log| ==> s'.log[v] == s.log[v];
  }

  /** The put is accepted: it was made from a copy of the version that is current. */
  predicate Accepted(s: State, w: Writer) {
    s.past != [] && CallOf(s, w).Holding? && Current(s).Present? && CallOf(s, w).version == |s.past| - 1
  }

  lemma AcceptedVersions(s: State, w: Writer)
    requires VersionsOk(s) && CallOk(s, w, CallOf(s, w)) && Accepted(s, w)
    ensures VersionsOk(WriteStep(s, w))
  {
    var call := CallOf(s, w);
    var o, e := Present(Edited(call.copy, call.changes)), Updated(w, call.changes);
    forall f ensures Lookup(o, f) == LastWritten(s.log + [e], f) {
      PutWrites(s, w, call.changes, f);
    }
    VersionsGrow(s, o, e, WriteStep(s, w));
  }

  lemma AcceptedLog(s: State, w: Writer)
    requires VersionsOk(s) && LogOk(s) && CallOk(s, w, CallOf(s, w)) && Accepted(s, w)
    ensures LogOk(WriteStep(s, w))
  {
  }

  lemma AcceptedKeepsInv(s: State, w: Writer)
    requires Inv(s) && Accepted(s, w)
    ensures Inv(WriteStep(s, w))
  {
    var s' := WriteStep(s, w);
    assert CallOk(s, w, CallOf(s, w));
    AcceptedVersions(s, w);
    AcceptedLog(s, w);
    WrittenOk(s, w);
    forall w' | w' != w ensures CallOk(s', w', CallOf(s', w')) {
      CallOkLater(s, s', w', CallOf(s, w'));
    }
  }

  lemma WrittenOk(s: State, w: Writer)
    requires CallOk(s, w, CallOf(s, w)) && Accepted(s, w) && |s.past| == |s.log| + 1
    ensures CallOk(WriteStep(s, w), w, CallOf(WriteStep(s, w), w))
  {
  }

  lemma RefusedKeepsInv(s: State, w: Writer)
    requires Inv(s) && CallOf(s, w).Holding? && !Accepted(s, w)
    ensures Inv(WriteStep(s, w))
  {
    var s' := WriteStep(s, w);
    assert CallOk(s, w, CallOf(s, w));
    forall w' | w' != w ensures CallOk(s', w', CallOf(s', w')) {
      CallOkLater(s, s', w', CallOf(s, w'));
    }
  }

  lemma WriteKeepsInv(s: State, w: Writer)
    requires Inv(s) && Enabled(s, Caller(w, Write))
    ensures Inv(WriteStep(s, w))
  {
    if Accepted(s, w) {
      AcceptedKeepsInv(s, w);
    } else {
      RefusedKeepsInv(s, w);
    }
  }

  lemma OwnMoveOk(s: State, w: Writer, m: Move)
    requires Inv(s) && Enabled(s, Caller(w, m)) && !m.Write?
    ensures CallOk(Step(s, Caller(w, m)), w, CallOf(Step(s, Caller(w, m)), w))
  {
    assert CallOk(s, w, CallOf(s, w));
  }

  lemma CallKeepsInv(s: State, w: Writer, m: Move)
    requires Inv(s) && Enabled(s, Caller(w, m)) && !m.Write?
    ensures Inv(Step(s, Caller(w, m)))
  {
    var s' := Step(s, Caller(w, m));
    OwnMoveOk(s, w, m);
    forall w' | w' != w ensures CallOk(s', w', CallOf(s', w')) {
      CallOkLater(s, s', w', CallOf(s, w'));
    }
  }

  lemma StepKeepsInv(s: State, act: Action)
    requires Inv(s) && Enabled(s, act)
    ensures Inv(Step(s, act))
  {
    var s' := Step(s, act);
    if act.Caller? {
      if act.move.Write? {
        WriteKeepsInv(s, act.writer);
      } else {
        CallKeepsInv(s, act.writer, act.move);
      }
    } else {
      VersionsGrow(s, Current(s'), s'.log[|s.log|], s');
      forall w ensures CallOk(s', w, CallOf(s', w)) {
        assert CallOk(s, w, CallOf(s, w));
        CallOkLater(s, s', w, CallOf(s, w));
      }
    }
  }

  lemma {:induction false} InvOverRun(s: State, acts: seq<Action>, s': State)
    requires Inv(s) && Leads(s, acts, s')
    ensures Inv(s')
    decreases |acts|
  {
    if acts != [] {
      StepKeepsInv(s, acts[0]);
      InvOverRun(Step(s, acts[0]), acts[1..], s');
    }
  }

  lemma ReachableInv(s: State)
    requires Reachable(s)
    ensures Inv(s)
  {
    var acts :| Leads(INIT, acts, s);
    InvOverRun(INIT, acts, s);
  }

  lemma SameLastEvent(log: seq<Event>, log': seq<Event>, e: Event, f: Field)
    requires LastWritten(log, f) == LastWritten(log', f)
    ensures LastWritten(log + [e], f) == LastWritten(log' + [e], f)
  {
    assert (log + [e])[..|log|] == log && (log' + [e])[..|log'|] == log';
  }

  lemma AnnotatorEvent(log: seq<Event>, e: Event, f: Field)
    requires ByAnnotator(e) && e.changes == ANNOTATING && f != LOADED
    ensures LastWritten(log + [e], f) == LastWritten(log, f) && WithoutAnnotators(log + [e]) == WithoutAnnotators(log)
  {
    assert (log + [e])[..|log|] == log;
    assert f !in e.changes;
  }

  lemma OtherEvent(log: seq<Event>, e: Event)
    requires !ByAnnotator(e)
    ensures WithoutAnnotators(log + [e]) == WithoutAnnotators(log) + [e]
  {
    assert (log + [e])[..|log|] == log;
  }

  lemma {:induction false} AnnotatorsWriteNothingElse(log: seq<Event>, f: Field)
    requires forall i :: 0 <= i < |log| && ByAnnotator(log[i]) ==> log[i].changes == ANNOTATING
    requires f != LOADED
    ensures LastWritten(log, f) == LastWritten(WithoutAnnotators(log), f)
  {
    if log != [] {
      var before, e := log[..|log| - 1], log[|log| - 1];
      assert log == before + [e];
      AnnotatorsWriteNothingElse(before, f);
      if ByAnnotator(e) {
        AnnotatorEvent(before, e, f);
      } else {
        OtherEvent(before, e);
        SameLastEvent(before, WithoutAnnotators(before), e, f);
      }
    }
  }

  /** However calls and other writers interleave, every field but the annotation is as its last
      successful writer left it, annotating calls not counted. */
  lemma NoWriteLost(s: State, f: Field)
    requires Reachable(s) && f != LOADED
    ensures s.past != [] && Lookup(Current(s), f) == LastWritten(WithoutAnnotators(s.log), f)
  {
    ReachableInv(s);
    assert s.log[..|s.past| - 1] == s.log;
    AnnotatorsWriteNothingElse(s.log, f);
  }

  /** Nothing from version v on takes a field away. */
  ghost predicate KeptSince(log: seq<Event>, v: nat, f: Field) {
    forall i :: v <= i < |log| ==> log[i].Updated? && (f in log[i].changes ==> log[i].changes[f].Put?)
  }

  lemma {:induction false} StillWritten(log: seq<Event>, v: nat, f: Field)
    requires v <= |log| && KeptSince(log, v, f) && LastWritten(log[..v], f).Some?
    ensures LastWritten(log, f).Some?
    decreases |log|
  {
    var last := |log| - 1;
    if v == |log| {
      assert log[..v] == log;
    } else {
      assert log[..last][..v] == log[..v];
      StillWritten(log[..last], v, f);
    }
  }

  /** The version at which a successful call knew the annotation to be there. */
  function KnownAt(result: Result): Option<nat> {
    match result
    case Already(v) => Some(v)
    case Written(v) => Some(v)
    case _ => None
  }

  /** There was no cluster at version v; if reads are up to date, v is none from before the call. */
  predicate FoundNone(s: State, start: nat, v: nat) {
    v < |s.past| && s.past[v].Absent? && (s.upToDate ==> start <= v)
  }

  /** The annotation was there at version v, and is there now unless someone has taken it off since. */
  ghost predicate Knew(s: State, start: nat, v: nat) {
    && v < |s.past| && Lookup(s.past[v], LOADED).Some? && (s.upToDate ==> start <= v)
    && (KeptSince(s.log, v, LOADED) ==> Lookup(Current(s), LOADED).Some?)
  }

  /** What made version v is w's putting the annotation there, and nothing else. */
  predicate WroteOnly(s: State, w: Writer, v: nat) {
    0 < v <= |s.log| && s.log[v - 1] == Updated(w, ANNOTATING)
  }

  /** An annotating call that returned without an error either found no cluster, or knew the annotation to
      be there; in the second case it is there now, unless someone has taken it off or deleted the
      cluster since the version the call knew. That version, or the one without a cluster, is none from
      before the call if reads are up to date. A call that wrote, wrote only that. */
  lemma SuccessAnnotates(s: State, w: Writer)
    requires Reachable(s) && w.Annotator? && CallOf(s, w).Returned?
    requires !CallOf(s, w).result.GaveUp? && !CallOf(s, w).result.Failed?
    ensures CallOf(s, w).result.Missing? ==> FoundNone(s, CallOf(s, w).start, CallOf(s, w).result.version)
    ensures !CallOf(s, w).result.Missing? ==>
              KnownAt(CallOf(s, w).result).Some? && Knew(s, CallOf(s, w).start, KnownAt(CallOf(s, w).result).value)
    ensures CallOf(s, w).result.Written? ==> WroteOnly(s, w, CallOf(s, w).result.version)
  {
    ReachableInv(s);
    assert CallOk(s, w, CallOf(s, w));
    var result := CallOf(s, w).result;
    if !result.Missing? {
      var v := KnownAt(result).value;
      assert Lookup(s.past[v], LOADED) == LastWritten(s.log[..v], LOADED);
      assert s.log[..|s.past| - 1] == s.log;
      if KeptSince(s.log, v, LOADED) {
        StillWritten(s.log, v, LOADED);
      }
    }
  }

  /** An annotating call never writes over an annotation that is there already, whatever its value. */
  lemma AnnotatesOnlyUnannotated(s: State, i: nat)
    requires Reachable(s) && i < |s.log| && ByAnnotator(s.log[i])
    ensures |s.past| == |s.log| + 1 && s.past[i].Present? && LOADED !in s.past[i].content
    ensures s.past[i + 1].Present? && LOADED in s.past[i + 1].content
  {
    ReachableInv(s);
    assert Lookup(s.past[i + 1], LOADED) == LastWritten(s.log[..i + 1], LOADED);
    assert s.log[..i + 1][i] == s.log[i];
  }

  /** A put is taken exactly if nothing has happened to the cluster since the version that was read. If it
      is gone the call fails; otherwise it tries again as long as it has attempts left. */
  lemma PutOutcome(s: State, w: Writer)
    requires Reachable(s) && Enabled(s, Caller(w, Write))
    ensures var call, s' := CallOf(s, w), WriteStep(s, w);
            && (s'.log != s.log <==> call.version == |s.log|)
            && (Current(s).Absent? ==> CallOf(s', w) == Returned(call.start, Failed))
            && (Current(s).Present? && call.version < |s.log| ==>
                  if call.left > 1 then CallOf(s', w).Trying? && CallOf(s', w).left == call.left - 1
                  else CallOf(s', w).Returned? && CallOf(s', w).result.GaveUp?)
  {
    ReachableInv(s);
    assert CallOk(s, w, CallOf(s, w));
  }

  /** A call that gives up saw at least as many changes of the cluster, while it was under way, as reads
      of it were answered with the current version; and where all reads are, that is all its attempts. */
  lemma GivesUpOnlyUnderContention(s: State, w: Writer)
    requires Reachable(s) && CallOf(s, w).Returned? && CallOf(s, w).result.GaveUp?
    ensures var result := CallOf(s, w).result;
            && CallOf(s, w).start + result.timely <= result.at <= |s.log|
            && (w.Annotator? && s.upToDate ==> result.timely == ATTEMPTS)
  {
    ReachableInv(s);
    assert CallOk(s, w, CallOf(s, w));
  }

  lemma {:induction false} LeadsSnoc(s: State, acts: seq<Action>, s': State, act: Action)
    requires Leads(s, acts, s') && Enabled(s', act)
    ensures Leads(s, acts + [act], Step(s', act))
    decreases |acts|
  {
    if acts == [] {
      assert (acts + [act])[1..] == [];
    } else {
      LeadsSnoc(Step(s, acts[0]), acts[1..], s', act);
      assert (acts + [act])[1..] == acts[1..] + [act];
    }
  }

  lemma Do(acts: seq<Action>, s: State, act: Action) returns (acts': seq<Action>, s': State)
    requires Leads(INIT, acts, s) && Enabled(s, act)
    ensures s' == Step(s, act) && Leads(INIT, acts', s')
  {
    LeadsSnoc(INIT, acts, s, act);
    acts', s' := acts + [act], Step(s, act);
  }

  lemma Overwrite(calls: map<Writer, Call>, w: Writer, call: Call, call': Call)
    ensures calls[w := call][w := call'] == calls[w := call']
  {
  }

  /** One attempt whose read is answered with version 1 of a cluster at version 2. */
  lemma StaleAttempt(acts: seq<Action>, s: State, w: Writer) returns (acts': seq<Action>, s': State)
    requires Leads(INIT, acts, s) && w.Annotator? && CallOf(s, w).Trying?
    requires |s.past| == 3 && s.past[1] == Present(map[]) && s.past[2].Present?
    ensures Leads(INIT, acts', s')
    ensures var call := CallOf(s, w);
            s' == s.(upToDate := false,
                     calls := s.calls[w := if call.left <= 1 then Returned(call.start, GaveUp(|s.log|, call.timely))
                                           else Trying(call.start, call.left - 1, call.timely)])
  {
    var call := CallOf(s, w);
    acts', s' := Do(acts, s, Caller(w, Read(1, ANNOTATING)));
    assert CallOf(s', w) == Holding(call.start, call.left, call.timely, 1, map[], ANNOTATING);
    var held := CallOf(s', w);
    acts', s' := Do(acts', s', Caller(w, Write));
    Overwrite(s.calls, w, held, CallOf(s', w));
  }

  /** With reads that are out of date a call can use up its attempts although nothing changes while it is
      under way: no bound better than the number of timely reads holds. */
  lemma StaleReadsExhaust(user: nat, id: nat) returns (s: State)
    ensures Reachable(s) && |s.log| == 2 && CallOf(s, Annotator(id)) == Returned(2, GaveUp(2, 0))
  {
    var acts;
    acts, s := UpdatedOnce(user);
    var w := Annotator(id);
    acts, s := Do(acts, s, Caller(w, Begin(ATTEMPTS)));
    acts, s := StaleAttempt(acts, s, w);
    acts, s := StaleAttempt(acts, s, w);
    acts, s := StaleAttempt(acts, s, w);
    acts, s := StaleAttempt(acts, s, w);
    acts, s := StaleAttempt(acts, s, w);
  }

  lemma UpdatedOnce(user: nat) returns (acts: seq<Action>, s: State)
    ensures Leads(INIT, acts, s) && |s.log| == 2 && s.calls.Keys == {Other(user)}
    ensures |s.past| == 3 && s.past[1] == Present(map[]) && s.past[2].Present?
  {
    var w := Other(user);
    acts, s := [], INIT;
    acts, s := Do(acts, s, Create(map[]));
    acts, s := Do(acts, s, Caller(w, Begin(1)));
    acts, s := Do(acts, s, Caller(w, Read(1, map[])));
    acts, s := Do(acts, s, Caller(w, Write));
  }
}
