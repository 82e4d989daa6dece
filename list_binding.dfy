/**
 * ListBinding: keeps a target list and a model list in sync. Each direction
 * has its own strategy; a change event on one side is replayed, entry by
 * entry, onto the other, and the statuses of the destination calls are
 * merged into one aggregate that is published as the validation status.
 *
 * The replay is specified by pure functions (Visit, ReplayFrom), the whole
 * binding by a value (BindingState) and one function per operation
 * (AfterUpdate, AfterPostInit, ...). The class ListBinding holds the same
 * state in fields and its methods are proved to agree with those functions.
 */
module ListBindings {
  import opened ListDiffs
  import opened UpdateListStrategy

  /** The direction of a propagation; the destination is the second list. */
  datatype Direction = TargetToModel | ModelToTarget

  /** ListBinding.mergeStatus: the children of the aggregate after merging
      `s`; only a status that is not OK is added. */
  function MergeStatus(children: seq<Status>, s: Status): (r: seq<Status>)
    ensures Multi(r).IsOk() <==> Multi(children).IsOk() && s.IsOk()
    ensures AllFailures(children) ==> AllFailures(r)
    ensures s.IsOk() ==> r == children
    ensures !s.IsOk() ==> |r| == |children| + 1 && r[..|children|] == children && r[|children|] == s
  {
    if s.IsOk() then children
    else
      var r := children + [s];
      assert r[|children|] == s;
      r
  }

  /** Whether doUpdate replays at all: never under NEVER, always under
      UPDATE, and under ON_REQUEST only for an explicit request. */
  predicate Propagates(policy: Policy, explicit: bool): (b: bool)
    ensures policy == Never ==> !b
    ensures policy == Update ==> b
    ensures policy == OnRequest ==> (b <==> explicit)
  {
    policy != Never && (policy != OnRequest || explicit)
  }

  // ---------------------------------------------------------------------
  // The diff visitor of doUpdate

  /** A replay in progress: the destination so far, the children of the
      aggregate status, and whether an exception has ended the replay. */
  datatype Replay<T> = Replay(dest: seq<T>, children: seq<Status>, aborted: bool)

  /** One destination call, its status merged into the aggregate. */
  function MutationStep<T>(st: Strategy<T>, r: Replay<T>, m: Mutation<T>): (v: Replay<T>)
    ensures v.aborted == r.aborted
    ensures !st.vetoes(m) && InBounds(r.dest, m) ==> Some(v.dest) == Mutate(r.dest, m) && v.children == r.children
    ensures st.vetoes(m) || !InBounds(r.dest, m) ==> v == r.(children := r.children + [Error])
  {
    var p := Perform(st, r.dest, m);
    r.(dest := p.list, children := MergeStatus(r.children, p.status))
  }

  /** handleAdd: convert the element, then doAdd. The converter is called
      outside any try block, so when it throws the replay ends. */
  function AddStep<T>(st: Strategy<T>, r: Replay<T>, index: int, x: T): (v: Replay<T>)
    ensures st.converter(x).None? ==> v == r.(aborted := true)
    ensures st.converter(x).Some? ==>
              var y := st.converter(x).value;
              if !st.vetoes(Insert(index, y)) && 0 <= index <= |r.dest|
              then v == r.(dest := r.dest[..index] + [y] + r.dest[index..])
              else v == r.(children := r.children + [Error])
  {
    match st.converter(x)
    case None => r.(aborted := true)
    case Some(y) => MutationStep(st, r, Insert(index, y))
  }

  /** handleReplace with useMoveAndReplace, corrected: the new element is
      converted before doReplace, as handleAdd converts before doAdd. */
  function ReplaceStep<T>(st: Strategy<T>, r: Replay<T>, index: int, x: T): (v: Replay<T>)
    ensures st.converter(x).None? ==> v == r.(aborted := true)
    ensures st.converter(x).Some? ==>
              var y := st.converter(x).value;
              if !st.vetoes(Assign(index, y)) && 0 <= index < |r.dest|
              then v == r.(dest := r.dest[index := y])
              else v == r.(children := r.children + [Error])
  {
    match st.converter(x)
    case None => r.(aborted := true)
    case Some(y) => MutationStep(st, r, Assign(index, y))
  }

  /** Whether visiting `e` (in the corrected visitor) calls a converter
      that throws: handleAdd converts, so do the handleAdd half of the
      default Move and Replace and the corrected direct Replace. */
  predicate Throws<T>(st: Strategy<T>, e: Edit<T>)
  {
    match e
    case Add(_, x) => st.converter(x).None?
    case Remove(_, _) => false
    case Move(_, _, x) => !st.useMoveAndReplace && st.converter(x).None?
    case Replace(_, _, x) => st.converter(x).None?
  }

  /** The visitor applied to one entry. Without useMoveAndReplace a Move or
      Replace takes the visitor's default path, handleRemove then handleAdd,
      so both halves go through the strategy and the add converts. An entry
      makes at most two destination calls, and only their failures are
      merged. */
  function Visit<T>(st: Strategy<T>, r: Replay<T>, e: Edit<T>): (v: Replay<T>)
    ensures v.aborted == (r.aborted || Throws(st, e))
    ensures |r.children| <= |v.children| <= |r.children| + 2
  {
    match e
    case Add(i, x) => AddStep(st, r, i, x)
    case Remove(i, _) => MutationStep(st, r, Delete(i))
    case Move(o, n, x) =>
      if st.useMoveAndReplace then MutationStep(st, r, Relocate(o, n))
      else AddStep(st, MutationStep(st, r, Delete(o)), n, x)
    case Replace(i, _, x) =>
      if st.useMoveAndReplace then ReplaceStep(st, r, i, x)
      else AddStep(st, MutationStep(st, r, Delete(i)), i, x)
  }

  /** The visitor as ListBinding.java:195-200 has it: with useMoveAndReplace
      the new element goes to doReplace unconverted. */
  function VisitAsWritten<T>(st: Strategy<T>, r: Replay<T>, e: Edit<T>): (v: Replay<T>)
    ensures v.aborted == (r.aborted || (Throws(st, e) && !(e.Replace? && st.useMoveAndReplace)))
    ensures e.Replace? && st.useMoveAndReplace ==>
              v == r.(dest := Perform(st, r.dest, Assign(e.index, e.newElement)).list,
                      children := MergeStatus(r.children, Perform(st, r.dest, Assign(e.index, e.newElement)).status))
    ensures !(e.Replace? && st.useMoveAndReplace) ==> v == Visit(st, r, e)
  {
    if e.Replace? && st.useMoveAndReplace then MutationStep(st, r, Assign(e.index, e.newElement))
    else Visit(st, r, e)
  }

  /** diff.accept(visitor): the entries in order, until one throws. A replay
      that has aborted stays as it is, and the aggregate only grows. */
  function ReplayFrom<T>(st: Strategy<T>, r: Replay<T>, edits: seq<Edit<T>>): (q: Replay<T>)
    ensures r.aborted ==> q == r
    ensures |r.children| <= |q.children| <= |r.children| + 2 * |edits|
    decreases |edits|
  {
    if r.aborted || edits == [] then r
    else ReplayFrom(st, Visit(st, r, edits[0]), edits[1..])
  }

  /** One step of the replay: the first entry is visited, then the rest. */
  lemma ReplayUnfold<T>(st: Strategy<T>, r: Replay<T>, edits: seq<Edit<T>>)
    requires !r.aborted && edits != []
    ensures ReplayFrom(st, r, edits) == ReplayFrom(st, Visit(st, r, edits[0]), edits[1..])
  {
  }

  /** The replay of the rest of a diff after visiting entry `i` reaches
      the same end as the replay from entry `i`. */
  lemma ReplayAdvance<T>(st: Strategy<T>, before: Replay<T>, after: Replay<T>, edits: seq<Edit<T>>, i: nat, goal: Replay<T>)
    requires !before.aborted && i < |edits|
    requires after == Visit(st, before, edits[i])
    requires ReplayFrom(st, before, edits[i..]) == goal
    ensures ReplayFrom(st, after, edits[i + 1..]) == goal
  {
    assert edits[i..][0] == edits[i] && edits[i..][1..] == edits[i + 1..];
  }

  /** diff.accept with the visitor as written. */
  function ReplayAsWrittenFrom<T>(st: Strategy<T>, r: Replay<T>, edits: seq<Edit<T>>): (q: Replay<T>)
    ensures r.aborted ==> q == r
    decreases |edits|
  {
    if r.aborted || edits == [] then r
    else ReplayAsWrittenFrom(st, VisitAsWritten(st, r, edits[0]), edits[1..])
  }

  /** The converter leaves the new element of every Replace as it is, or
      Replace entries take the default path. */
  ghost predicate ReplacesUnaffected<T>(st: Strategy<T>, edits: seq<Edit<T>>)
  {
    !st.useMoveAndReplace ||
    forall k :: 0 <= k < |edits| && edits[k].Replace? ==> st.converter(edits[k].newElement) == Some(edits[k].newElement)
  }

  /** The corrected replay and the replay as written differ only on a direct
      Replace whose new element the converter changes or rejects; elsewhere
      the two agree on every diff. */
  lemma {:induction false} AsWrittenAgrees<T>(st: Strategy<T>, r: Replay<T>, edits: seq<Edit<T>>)
    requires ReplacesUnaffected(st, edits)
    ensures ReplayAsWrittenFrom(st, r, edits) == ReplayFrom(st, r, edits)
    decreases |edits|
  {
    if !r.aborted && edits != [] {
      var e := edits[0];
      if e.Replace? && st.useMoveAndReplace {
        assert st.converter(e.newElement) == Some(e.newElement);
      }
      assert VisitAsWritten(st, r, e) == Visit(st, r, e);
      assert ReplacesUnaffected(st, edits[1..]) by {
        if st.useMoveAndReplace {
          forall k | 0 <= k < |edits[1..]| && edits[1..][k].Replace?
            ensures st.converter(edits[1..][k].newElement) == Some(edits[1..][k].newElement)
          {
            assert edits[1..][k] == edits[k + 1];
          }
        }
      }
      AsWrittenAgrees(st, Visit(st, r, e), edits[1..]);
    }
  }

  /** The explicit updates replay a diff from the empty list, which holds
      only Adds, so for them the corrected replay and the replay as written
      agree. */
  lemma ExplicitUpdateAsWritten<T>(st: Strategy<T>, r: Replay<T>, t: seq<T>)
    ensures ReplayAsWrittenFrom(st, r, ComputeDiff([], t)) == ReplayFrom(st, r, ComputeDiff([], t))
  {
    var d := ComputeDiff([], t);
    assert forall k :: 0 <= k < |d| ==> d[k] == Add(k, t[k]);
    AsWrittenAgrees(st, r, d);
  }

  /** The converted source, when every element converts. */
  function Converted<T>(st: Strategy<T>, t: seq<T>): (c: seq<T>)
    requires forall i :: 0 <= i < |t| ==> st.converter(t[i]).Some?
    ensures |c| == |t|
    ensures forall i :: 0 <= i < |t| ==> st.converter(t[i]) == Some(c[i])
  {
    seq(|t|, i requires 0 <= i < |t| => st.converter(t[i]).value)
  }

  /** Only failures reach the aggregate, and the children merged before an
      entry are kept. */
  lemma {:induction false} ReplayMergesOnlyFailures<T>(st: Strategy<T>, r: Replay<T>, edits: seq<Edit<T>>)
    requires AllFailures(r.children)
    ensures AllFailures(ReplayFrom(st, r, edits).children)
    ensures |r.children| <= |ReplayFrom(st, r, edits).children|
    ensures ReplayFrom(st, r, edits).children[..|r.children|] == r.children
    decreases |edits|
  {
    if !r.aborted && edits != [] {
      var v := Visit(st, r, edits[0]);
      assert AllFailures(v.children) && |r.children| <= |v.children| && v.children[..|r.children|] == r.children;
      ReplayMergesOnlyFailures(st, v, edits[1..]);
    }
  }

  /** A failing destination call does not stop the replay: unless the
      converter throws, every entry is visited. */
  lemma {:induction false} FailuresDoNotAbort<T(!new)>(st: Strategy<T>, r: Replay<T>, edits: seq<Edit<T>>)
    requires TotalConverter(st) && !r.aborted
    ensures !ReplayFrom(st, r, edits).aborted
    decreases |edits|
  {
    if edits != [] {
      var e := edits[0];
      match e {
        case Add(_, x) => assert st.converter(x).Some?;
        case Move(_, _, x) => assert st.converter(x).Some?;
        case Replace(_, _, x) => assert st.converter(x).Some?;
        case Remove(_, _) =>
      }
      FailuresDoNotAbort(st, Visit(st, r, e), edits[1..]);
    }
  }

  /** An Add at the end that converts and is not vetoed appends the
      converted element and merges nothing. */
  lemma AppendAccepted<T>(st: Strategy<T>, r: Replay<T>, x: T)
    requires st.converter(x).Some? && !st.vetoes(Insert(|r.dest|, st.converter(x).value))
    ensures Visit(st, r, Add(|r.dest|, x)) == r.(dest := r.dest + [st.converter(x).value])
  {
    var y := st.converter(x).value;
    assert r.dest[..|r.dest|] + [y] + r.dest[|r.dest|..] == r.dest + [y];
  }

  /** An Add that converts but is vetoed or out of bounds leaves the
      destination and merges one failure. */
  lemma AddRefused<T>(st: Strategy<T>, r: Replay<T>, i: int, x: T)
    requires st.converter(x).Some?
    requires st.vetoes(Insert(i, st.converter(x).value)) || !(0 <= i <= |r.dest|)
    ensures Visit(st, r, Add(i, x)) == r.(children := r.children + [Error])
  {
  }

  /** Replaying the Adds of `t` onto `p` with a destination that accepts
      every add appends the converted `t`, in order, and merges nothing. */
  lemma {:induction false} AddsReplayAppend<T(!new)>(st: Strategy<T>, p: seq<T>, t: seq<T>, children: seq<Status>)
    requires AcceptsAdds(st)
    requires forall i :: 0 <= i < |t| ==> st.converter(t[i]).Some?
    ensures ReplayFrom(st, Replay(p, children, false), Adds(|p|, t)) == Replay(p + Converted(st, t), children, false)
    decreases |t|
  {
    var d := Adds(|p|, t);
    if t == [] {
      assert d == [];
      assert p + Converted(st, t) == p;
    } else {
      var y := st.converter(t[0]).value;
      assert !st.vetoes(Insert(|p|, y));
      var r := Replay(p, children, false);
      AppendAccepted(st, r, t[0]);
      assert d[0] == Add(|p|, t[0]) && d[1..] == Adds(|p| + 1, t[1..]);
      ReplayUnfold(st, r, d);
      AddsReplayAppend(st, p + [y], t[1..], children);
      assert p + [y] + Converted(st, t[1..]) == p + Converted(st, t);
    }
  }

  /** With a destination that accepts every call, a Move of the element
      at `o` to `n` leaves the destination as removing it and adding it
      at `n` would, in either useMoveAndReplace mode. */
  lemma MoveMirrorsApply<T(!new)>(st: Strategy<T>, r: Replay<T>, o: int, n: int, x: T)
    requires Permissive(st) && st.converter(x) == Some(x)
    requires 0 <= o < |r.dest| && 0 <= n < |r.dest| && r.dest[o] == x
    ensures Visit(st, r, Move(o, n, x)) == r.(dest := ApplyEdit(r.dest, Move(o, n, x)).list)
  {
    assert !st.vetoes(Delete(o)) && !st.vetoes(Insert(n, x)) && !st.vetoes(Relocate(o, n));
  }

  /** With a destination that accepts every call and the identity
      converter, visiting an accurate entry does to the destination what
      applying the entry does, in either useMoveAndReplace mode. */
  lemma VisitMirrorsApply<T(!new)>(st: Strategy<T>, r: Replay<T>, e: Edit<T>)
    requires Permissive(st) && IdentityConverter(st)
    requires ApplyEdit(r.dest, e).ok
    requires e.Move? ==> r.dest[e.oldIndex] == e.element
    ensures Visit(st, r, e) == r.(dest := ApplyEdit(r.dest, e).list)
  {
    match e
    case Add(i, x) =>
      assert st.converter(x) == Some(x) && !st.vetoes(Insert(i, x));
    case Remove(i, _) =>
      assert !st.vetoes(Delete(i));
    case Move(o, n, x) =>
      MoveMirrorsApply(st, r, o, n, x);
    case Replace(i, was, x) =>
      assert st.converter(x) == Some(x);
      ReplaceModesAgree(st, r, i, was, x);
  }

  /** ... and so replaying an accurate diff reproduces the change. */
  lemma {:induction false} ReplayMirrorsApply<T(!new)>(st: Strategy<T>, r: Replay<T>, edits: seq<Edit<T>>)
    requires Permissive(st) && IdentityConverter(st) && !r.aborted
    requires Describes(r.dest, edits)
    ensures ReplayFrom(st, r, edits) == r.(dest := ApplyDiff(r.dest, edits).list)
    decreases |edits|
  {
    if edits != [] {
      VisitMirrorsApply(st, r, edits[0]);
      ReplayMirrorsApply(st, Visit(st, r, edits[0]), edits[1..]);
    }
  }

  /** With a destination that accepts every call and an element that
      converts, useMoveAndReplace only changes how a Replace is carried
      out, not its result: both modes write the converted element at the
      index. */
  lemma ReplaceModesAgree<T(!new)>(st: Strategy<T>, r: Replay<T>, i: int, was: T, x: T)
    requires Permissive(st) && st.converter(x).Some?
    requires 0 <= i < |r.dest|
    ensures Visit(st.(useMoveAndReplace := true), r, Replace(i, was, x)) ==
            Visit(st.(useMoveAndReplace := false), r, Replace(i, was, x))
    ensures Visit(st, r, Replace(i, was, x)) == r.(dest := r.dest[i := st.converter(x).value])
  {
    var y := st.converter(x).value;
    var s := r.dest;
    assert !st.vetoes(Delete(i)) && !st.vetoes(Insert(i, y)) && !st.vetoes(Assign(i, y));
    var rest := s[..i] + s[i + 1..];
    assert rest[..i] + [y] + rest[i..] == s[i := y];
  }

  /** The discrepancy of ListBinding.java:195-200: with a converter that
      increments, a Replace of 0 by 5 writes 5 when useMoveAndReplace is
      set but 6 when it is not. */
  lemma ReplaceSkipsConverterAsWritten()
    ensures var st := Strategy(Update, true, (x: int) => Some(x + 1), (m: Mutation<int>) => false);
            var r := Replay([0], [], false);
            && VisitAsWritten(st, r, Replace(0, 0, 5)).dest == [5]
            && VisitAsWritten(st.(useMoveAndReplace := false), r, Replace(0, 0, 5)).dest == [6]
  {
    var st := Strategy(Update, true, (x: int) => Some(x + 1), (m: Mutation<int>) => false);
    var r := Replay([0], [], false);
    assert [0][..0] + [0][1..] == [];
    assert Visit(st.(useMoveAndReplace := false), r, Replace(0, 0, 5)).dest == [6];
  }

  /** The worked failure case: three Adds from an explicit update, with
      the identity converter, and the destination refuses the middle
      element. The third Add is still attempted, at index 2 of a
      one-element list, and fails too: the destination ends as [a] with
      two failing children, out of sync with the source as the comment at
      ListBinding.java:206-207 says. */
  lemma MiddleAddRefused(st: Strategy<int>, a: int, b: int, c: int)
    requires IdentityConverter(st)
    requires !st.vetoes(Insert(0, a)) && st.vetoes(Insert(1, b))
    ensures ReplayFrom(st, Replay([], [], false), ComputeDiff([], [a, b, c])) == Replay([a], [Error, Error], false)
  {
    var d := ComputeDiff([], [a, b, c]);
    assert d == [Add(0, a), Add(1, b), Add(2, c)];
    assert d[1..] == [Add(1, b), Add(2, c)] && d[1..][1..] == [Add(2, c)];
    assert st.converter(a) == Some(a) && st.converter(b) == Some(b) && st.converter(c) == Some(c);
    var r0 := Replay([], [], false);
    var r1 := Replay([a], [], false);
    var r2 := Replay([a], [Error], false);
    AppendAccepted(st, r0, a);
    assert [] + [a] == [a];
    AddRefused(st, r1, 1, b);
    AddRefused(st, r2, 2, c);
    ReplayUnfold(st, r0, d);
    ReplayUnfold(st, r1, d[1..]);
    ReplayUnfold(st, r2, d[1..][1..]);
  }

  // ---------------------------------------------------------------------
  // The binding as a value

  /** The fields of a ListBinding. `targetChangeListener` and
      `modelChangeListener` say whether the listener slot is non-null;
      `targetListening` and `modelListening` whether that listener is
      registered with its list. `validationStatus` is None until preInit. */
  datatype BindingState<T> = BindingState(
    target: seq<T>,
    model: seq<T>,
    validationStatus: Option<Status>,
    updatingTarget: bool,
    updatingModel: bool,
    targetChangeListener: bool,
    modelChangeListener: bool,
    targetListening: bool,
    modelListening: bool)

  /** A state after an operation, and whether the operation returned
      normally (false: a converter threw and the exception propagates). */
  datatype Outcome<T> = Outcome(state: BindingState<T>, completed: bool)

  function Destination<T>(s: BindingState<T>, dir: Direction): seq<T>
  {
    if dir == ModelToTarget then s.target else s.model
  }

  function Origin<T>(s: BindingState<T>, dir: Direction): seq<T>
  {
    if dir == ModelToTarget then s.model else s.target
  }

  /** The re-entrancy flag of the destination of `dir`. */
  function Updating<T>(s: BindingState<T>, dir: Direction): bool
  {
    if dir == ModelToTarget then s.updatingTarget else s.updatingModel
  }

  function WithDestination<T>(s: BindingState<T>, dir: Direction, d: seq<T>): BindingState<T>
  {
    if dir == ModelToTarget then s.(target := d) else s.(model := d)
  }

  /** A second write to the destination overrides the first. */
  lemma WithDestinationTwice<T>(s: BindingState<T>, dir: Direction, d1: seq<T>, d2: seq<T>)
    ensures WithDestination(WithDestination(s, dir, d1), dir, d2) == WithDestination(s, dir, d2)
    ensures Destination(WithDestination(s, dir, d1), dir) == d1
  {
  }

  function WithUpdating<T>(s: BindingState<T>, dir: Direction, b: bool): BindingState<T>
  {
    if dir == ModelToTarget then s.(updatingTarget := b) else s.(updatingModel := b)
  }

  /** No propagation is in flight. */
  predicate Idle<T>(s: BindingState<T>)
  {
    !s.updatingTarget && !s.updatingModel
  }

  /** A listener is registered only while its slot holds it. */
  predicate Wired<T>(s: BindingState<T>)
  {
    (s.targetListening ==> s.targetChangeListener) && (s.modelListening ==> s.modelChangeListener)
  }

  /** A freshly constructed binding: both listener slots are filled and
      nothing is registered yet. */
  function Constructed<T>(target: seq<T>, model: seq<T>): BindingState<T>
  {
    BindingState(target, model, None, false, false, true, true, false, false)
  }

  /** doUpdate: if the policy lets it through, set the destination's flag,
      optionally clear the destination, replay the diff, publish the
      aggregate and clear the flag again (in a finally block, so also when
      the replay aborts). */
  function AfterUpdate<T>(s: BindingState<T>, st: Strategy<T>, dir: Direction, diff: seq<Edit<T>>,
                          explicit: bool, clear: bool): (o: Outcome<T>)
    ensures !Propagates(st.policy, explicit) ==> o == Outcome(s, true)
    ensures Propagates(st.policy, explicit) ==>
              && !Updating(o.state, dir)
              && o.state.validationStatus.Some? && o.state.validationStatus.value.Multi?
              && AllFailures(o.state.validationStatus.value.children)
    ensures Origin(o.state, dir) == Origin(s, dir)
    ensures Updating(o.state, if dir == ModelToTarget then TargetToModel else ModelToTarget) ==
            Updating(s, if dir == ModelToTarget then TargetToModel else ModelToTarget)
    ensures o.state.targetChangeListener == s.targetChangeListener && o.state.modelChangeListener == s.modelChangeListener
    ensures o.state.targetListening == s.targetListening && o.state.modelListening == s.modelListening
  {
    if !Propagates(st.policy, explicit) then Outcome(s, true)
    else
      var r := ReplayFrom(st, Replay(if clear then [] else Destination(s, dir), [], false), diff);
      ReplayMergesOnlyFailures(st, Replay(if clear then [] else Destination(s, dir), [], false), diff);
      Outcome(WithUpdating(WithDestination(s, dir, r.dest), dir, false).(validationStatus := Some(Multi(r.children))),
              !r.aborted)
  }

  /** targetChangeListener: ignore the event while the binding itself is
      writing the target, otherwise replay it onto the model. */
  function AfterTargetChange<T>(s: BindingState<T>, targetToModel: Strategy<T>, diff: seq<Edit<T>>): (o: Outcome<T>)
    ensures targetToModel.policy != Update ==> o == Outcome(s, true)
    ensures o.state.target == s.target && o.state.updatingTarget == s.updatingTarget
    ensures !s.updatingTarget && targetToModel.policy == Update ==> !o.state.updatingModel
  {
    if s.updatingTarget then Outcome(s, true)
    else AfterUpdate(s, targetToModel, TargetToModel, diff, false, false)
  }

  /** modelChangeListener: the mirror image. */
  function AfterModelChange<T>(s: BindingState<T>, modelToTarget: Strategy<T>, diff: seq<Edit<T>>): (o: Outcome<T>)
    ensures modelToTarget.policy != Update ==> o == Outcome(s, true)
    ensures o.state.model == s.model && o.state.updatingModel == s.updatingModel
    ensures !s.updatingModel && modelToTarget.policy == Update ==> !o.state.updatingTarget
  {
    if s.updatingModel then Outcome(s, true)
    else AfterUpdate(s, modelToTarget, ModelToTarget, diff, false, false)
  }

  /** updateModelToTarget: clear the target and replay the model as a diff
      against the empty list. */
  function AfterUpdateModelToTarget<T(==)>(s: BindingState<T>, modelToTarget: Strategy<T>): (o: Outcome<T>)
    ensures modelToTarget.policy == Never ==> o == Outcome(s, true)
    ensures modelToTarget.policy != Never ==> !o.state.updatingTarget && o.state.validationStatus.Some?
    ensures o.state.model == s.model && o.state.updatingModel == s.updatingModel
  {
    AfterUpdate(s, modelToTarget, ModelToTarget, ComputeDiff([], s.model), true, true)
  }

  /** updateTargetToModel: the mirror image. */
  function AfterUpdateTargetToModel<T(==)>(s: BindingState<T>, targetToModel: Strategy<T>): (o: Outcome<T>)
    ensures targetToModel.policy == Never ==> o == Outcome(s, true)
    ensures targetToModel.policy != Never ==> !o.state.updatingModel && o.state.validationStatus.Some?
    ensures o.state.target == s.target && o.state.updatingTarget == s.updatingTarget
  {
    AfterUpdate(s, targetToModel, TargetToModel, ComputeDiff([], s.target), true, true)
  }

  /** preInit: the validation status starts as OK. */
  function AfterPreInit<T>(s: BindingState<T>): (r: BindingState<T>)
    ensures r.validationStatus == Some(Ok)
    ensures r.(validationStatus := s.validationStatus) == s
  {
    s.(validationStatus := Some(Ok))
  }

  /** postInit. Only an UPDATE direction keeps its listener, registers it
      and (for model to target) synchronises; target to model synchronises
      only when model to target is NEVER, and otherwise only validates,
      which does nothing. An exception from the first synchronisation
      propagates and skips the target side. */
  function AfterPostInit<T(==)>(s: BindingState<T>, targetToModel: Strategy<T>, modelToTarget: Strategy<T>): (o: Outcome<T>)
    ensures modelToTarget.policy == Update ==> o.state.modelListening
    ensures modelToTarget.policy != Update ==> !o.state.modelChangeListener
    ensures o.completed && targetToModel.policy == Update ==> o.state.targetListening
    ensures o.completed && targetToModel.policy != Update ==> !o.state.targetChangeListener
    ensures !o.completed ==> modelToTarget.policy == Update || (modelToTarget.policy == Never && targetToModel.policy == Update)
    ensures modelToTarget.policy != Never ==> o.state.model == s.model
    ensures modelToTarget.policy != Update && !(modelToTarget.policy == Never && targetToModel.policy == Update) ==>
              o.completed && o.state.target == s.target && o.state.model == s.model &&
              o.state.validationStatus == s.validationStatus
  {
    var first := AfterWireModel(s, modelToTarget);
    if !first.completed then first else AfterWireTarget(first.state, targetToModel, modelToTarget)
  }

  /** The model side of postInit. */
  function AfterWireModel<T(==)>(s: BindingState<T>, modelToTarget: Strategy<T>): (o: Outcome<T>)
    ensures modelToTarget.policy == Update ==> o.state.modelListening
    ensures modelToTarget.policy != Update ==> o == Outcome(s.(modelChangeListener := false), true)
    ensures o.state.model == s.model
    ensures s.validationStatus.Some? ==> o.state.validationStatus.Some?
    ensures o.state.targetListening == s.targetListening && o.state.targetChangeListener == s.targetChangeListener
  {
    if modelToTarget.policy == Update then AfterUpdateModelToTarget(s.(modelListening := true), modelToTarget)
    else Outcome(s.(modelChangeListener := false), true)
  }

  /** The target side of postInit, reached when the model side returned. */
  function AfterWireTarget<T(==)>(s: BindingState<T>, targetToModel: Strategy<T>, modelToTarget: Strategy<T>): (o: Outcome<T>)
    ensures targetToModel.policy == Update ==> o.state.targetListening
    ensures targetToModel.policy != Update ==> o == Outcome(s.(targetChangeListener := false), true)
    ensures o.state.target == s.target
    ensures !(targetToModel.policy == Update && modelToTarget.policy == Never) ==>
              o.completed && o.state.model == s.model && o.state.validationStatus == s.validationStatus
    ensures o.state.modelListening == s.modelListening && o.state.modelChangeListener == s.modelChangeListener
  {
    if targetToModel.policy == Update then
      var s2 := s.(targetListening := true);
      if modelToTarget.policy == Never then AfterUpdateTargetToModel(s2, targetToModel)
      else Outcome(s2, true)
    else Outcome(s.(targetChangeListener := false), true)
  }

  /** dispose: each non-null listener is unregistered and its slot nulled;
      the number is how many listeners were unregistered. */
  function AfterDispose<T>(s: BindingState<T>): (r: (BindingState<T>, nat))
    ensures !r.0.targetChangeListener && !r.0.modelChangeListener
    ensures Wired(s) ==> !r.0.targetListening && !r.0.modelListening
    ensures r.1 == (if s.targetChangeListener then 1 else 0) + (if s.modelChangeListener then 1 else 0)
    ensures r.0.target == s.target && r.0.model == s.model && r.0.validationStatus == s.validationStatus
  {
    var s1 := if s.targetChangeListener then s.(targetListening := false, targetChangeListener := false) else s;
    var s2 := if s1.modelChangeListener then s1.(modelListening := false, modelChangeListener := false) else s1;
    (s2, (if s.targetChangeListener then 1 else 0) + (if s.modelChangeListener then 1 else 0))
  }

  // ---------------------------------------------------------------------
  // Properties of the binding

  /** Both policy gates: NEVER never propagates, and ON_REQUEST propagates
      only on an explicit request, so a listener-driven update under it
      changes nothing. */
  lemma PolicyGates<T>(s: BindingState<T>, st: Strategy<T>, dir: Direction, diff: seq<Edit<T>>, explicit: bool, clear: bool)
    ensures st.policy == Never ==> AfterUpdate(s, st, dir, diff, explicit, clear) == Outcome(s, true)
    ensures st.policy == OnRequest && !explicit ==> AfterUpdate(s, st, dir, diff, explicit, clear) == Outcome(s, true)
    ensures st.policy != Never && explicit ==> !Updating(AfterUpdate(s, st, dir, diff, explicit, clear).state, dir)
  {
  }

  /** Through an open gate, the update replays the diff onto the
      destination (cleared first when `clear`), publishes the replay's
      children as the status and completes exactly when no converter
      threw. */
  lemma UpdateReplays<T>(s: BindingState<T>, st: Strategy<T>, dir: Direction, diff: seq<Edit<T>>, explicit: bool, clear: bool)
    requires Propagates(st.policy, explicit)
    ensures var r := ReplayFrom(st, Replay(if clear then [] else Destination(s, dir), [], false), diff);
            var o := AfterUpdate(s, st, dir, diff, explicit, clear);
            && Destination(o.state, dir) == r.dest
            && o.state.validationStatus == Some(Multi(r.children))
            && o.completed == !r.aborted
  {
    var r := ReplayFrom(st, Replay(if clear then [] else Destination(s, dir), [], false), diff);
    var s1 := WithUpdating(WithDestination(s, dir, r.dest), dir, false);
    assert Destination(s1, dir) == r.dest;
  }

  /** An event on a list while the binding is writing that list is the
      echo of its own write and is ignored. */
  lemma EchoIgnored<T>(s: BindingState<T>, targetToModel: Strategy<T>, modelToTarget: Strategy<T>, diff: seq<Edit<T>>)
    ensures s.updatingTarget ==> AfterTargetChange(s, targetToModel, diff) == Outcome(s, true)
    ensures s.updatingModel ==> AfterModelChange(s, modelToTarget, diff) == Outcome(s, true)
  {
  }

  /** An update that starts idle ends idle, whether it completes or not,
      and keeps the listener wiring. */
  lemma UpdateRestoresFlags<T>(s: BindingState<T>, st: Strategy<T>, dir: Direction, diff: seq<Edit<T>>, explicit: bool, clear: bool)
    requires Idle(s) && Wired(s)
    ensures Idle(AfterUpdate(s, st, dir, diff, explicit, clear).state)
    ensures Wired(AfterUpdate(s, st, dir, diff, explicit, clear).state)
  {
  }

  /** An explicit model-to-target update with a destination that accepts
      every add leaves the target equal to the converted model, in model
      order, with an OK aggregate. */
  lemma ExplicitUpdateCopies<T(!new)>(s: BindingState<T>, modelToTarget: Strategy<T>)
    requires modelToTarget.policy != Never && AcceptsAdds(modelToTarget)
    requires forall i :: 0 <= i < |s.model| ==> modelToTarget.converter(s.model[i]).Some?
    ensures var o := AfterUpdateModelToTarget(s, modelToTarget);
            && o.completed
            && o.state.target == Converted(modelToTarget, s.model)
            && o.state.model == s.model
            && o.state.validationStatus == Some(Multi([]))
            && o.state.validationStatus.value.IsOk()
  {
    assert ComputeDiff([], s.model) == Adds(0, s.model);
    AddsReplayAppend(modelToTarget, [], s.model, []);
    assert [] + Converted(modelToTarget, s.model) == Converted(modelToTarget, s.model);
  }

  /** The same for an explicit target-to-model update. */
  lemma ExplicitUpdateCopiesBack<T(!new)>(s: BindingState<T>, targetToModel: Strategy<T>)
    requires targetToModel.policy != Never && AcceptsAdds(targetToModel)
    requires forall i :: 0 <= i < |s.target| ==> targetToModel.converter(s.target[i]).Some?
    ensures var o := AfterUpdateTargetToModel(s, targetToModel);
            && o.completed
            && o.state.model == Converted(targetToModel, s.target)
            && o.state.target == s.target
            && o.state.validationStatus == Some(Multi([]))
  {
    assert ComputeDiff([], s.target) == Adds(0, s.target);
    AddsReplayAppend(targetToModel, [], s.target, []);
    assert [] + Converted(targetToModel, s.target) == Converted(targetToModel, s.target);
  }

  /** What postInit wires on a constructed, pre-initialised binding: a
      direction keeps and registers its listener exactly when its policy is
      UPDATE; model to target UPDATE synchronises the target; target to
      model UPDATE synchronises the model only when model to target is
      NEVER, and otherwise leaves both lists and the status alone. */
  lemma PostInitWiring<T>(target: seq<T>, model: seq<T>, targetToModel: Strategy<T>, modelToTarget: Strategy<T>)
    ensures var s := AfterPreInit(Constructed(target, model));
            var o := AfterPostInit(s, targetToModel, modelToTarget);
            && Idle(o.state) && Wired(o.state)
            && o.state.modelChangeListener == (modelToTarget.policy == Update)
            && o.state.modelListening == (modelToTarget.policy == Update)
            && (o.completed ==> o.state.targetChangeListener == (targetToModel.policy == Update))
            && (o.completed ==> o.state.targetListening == (targetToModel.policy == Update))
            && (modelToTarget.policy == Update ==>
                  o.state.target == AfterUpdateModelToTarget(s.(modelListening := true), modelToTarget).state.target)
            && (modelToTarget.policy == OnRequest ==>
                  o.completed && o.state.target == target && o.state.model == model && o.state.validationStatus == Some(Ok))
            && (modelToTarget.policy == Never && targetToModel.policy == Update ==>
                  o.state.model == AfterUpdateTargetToModel(s.(modelChangeListener := false, targetListening := true), targetToModel).state.model)
            && (modelToTarget.policy == Update ==> o.state.model == model)
            && (modelToTarget.policy == Never && targetToModel.policy != Update ==>
                  o.completed && o.state.target == target && o.state.model == model && o.state.validationStatus == Some(Ok))
            && (modelToTarget.policy == Never && targetToModel.policy == Update ==> o.state.target == target)
  {
  }

  /** dispose leaves no listener registered and both slots null, and a
      second dispose unregisters nothing and changes nothing. */
  lemma DisposeIdempotent<T>(s: BindingState<T>)
    requires Wired(s)
    ensures var (s1, n1) := AfterDispose(s);
            && !s1.targetListening && !s1.modelListening
            && !s1.targetChangeListener && !s1.modelChangeListener
            && n1 == (if s.targetChangeListener then 1 else 0) + (if s.modelChangeListener then 1 else 0)
            && AfterDispose(s1) == (s1, 0)
  {
  }

  /** A one-way binding (model to target UPDATE with the default converter,
      target to model NEVER) synchronises the target at initialisation with
      an OK status; afterwards an accurate change event from the model
      brings the target to the new model, and a change of the target is not
      propagated and leaves the status alone. */
  lemma OneWayBinding<T(!new)>(target: seq<T>, model: seq<T>, targetToModel: Strategy<T>,
                                   modelToTarget: Strategy<T>, diff: seq<Edit<T>>, targetDiff: seq<Edit<T>>)
    requires modelToTarget.policy == Update && Permissive(modelToTarget) && IdentityConverter(modelToTarget)
    requires targetToModel.policy == Never
    requires Describes(model, diff)
    ensures var o := AfterPostInit(AfterPreInit(Constructed(target, model)), targetToModel, modelToTarget);
            var s := o.state;
            var s' := s.(model := ApplyDiff(model, diff).list);
            var o' := AfterModelChange(s', modelToTarget, diff);
            && o.completed && s.target == model && s.model == model
            && s.validationStatus.Some? && s.validationStatus.value.IsOk()
            && o'.completed && o'.state.target == o'.state.model == ApplyDiff(model, diff).list
            && o'.state.validationStatus.Some? && o'.state.validationStatus.value.IsOk()
            && AfterTargetChange(s, targetToModel, targetDiff) == Outcome(s, true)
  {
    var s0 := AfterPreInit(Constructed(target, model)).(modelListening := true);
    forall i | 0 <= i < |model| ensures modelToTarget.converter(model[i]).Some? {
      assert modelToTarget.converter(model[i]) == Some(model[i]);
    }
    ExplicitUpdateCopies(s0, modelToTarget);
    assert Converted(modelToTarget, model) == model by {
      forall i | 0 <= i < |model| ensures Converted(modelToTarget, model)[i] == model[i] {
        assert modelToTarget.converter(model[i]) == Some(model[i]);
      }
    }
    var s := AfterPostInit(AfterPreInit(Constructed(target, model)), targetToModel, modelToTarget).state;
    DescribedDiffApplies(model, diff);
    ReplayMirrorsApply(modelToTarget, Replay(model, [], false), diff);
  }

  // ---------------------------------------------------------------------
  // The binding object

  class ListBinding<T(==)> {
    var target: seq<T>
    var model: seq<T>
    const targetToModel: Strategy<T>
    const modelToTarget: Strategy<T>
    var validationStatus: Option<Status>
    var updatingTarget: bool
    var updatingModel: bool
    var targetChangeListener: bool
    var modelChangeListener: bool
    var targetListening: bool
    var modelListening: bool

    function State(): BindingState<T>
      reads this
    {
      BindingState(target, model, validationStatus, updatingTarget, updatingModel,
                   targetChangeListener, modelChangeListener, targetListening, modelListening)
    }

    function StrategyFor(dir: Direction): Strategy<T>
    {
      if dir == ModelToTarget then modelToTarget else targetToModel
    }

    constructor (target: seq<T>, model: seq<T>, targetToModel: Strategy<T>, modelToTarget: Strategy<T>)
      ensures State() == Constructed(target, model)
      ensures this.targetToModel == targetToModel && this.modelToTarget == modelToTarget
    {
      this.target, this.model := target, model;
      this.targetToModel, this.modelToTarget := targetToModel, modelToTarget;
      validationStatus := None;
      updatingTarget, updatingModel := false, false;
      targetChangeListener, modelChangeListener := true, true;
      targetListening, modelListening := false, false;
    }

    method PreInit()
      modifies this
      ensures State() == AfterPreInit(old(State()))
    {
      validationStatus := Some(Ok);
    }

    method PostInit() returns (completed: bool)
      requires validationStatus.Some?
      modifies this
      ensures Outcome(State(), completed) == AfterPostInit(old(State()), targetToModel, modelToTarget)
    {
      completed := WireModel();
      if completed {
        completed := WireTarget();
      }
    }

    /** The model side of postInit: keep, register and synchronise the
        model listener under UPDATE, otherwise null it. */
    method WireModel() returns (completed: bool)
      requires validationStatus.Some?
      modifies this
      ensures validationStatus.Some?
      ensures Outcome(State(), completed) == AfterWireModel(old(State()), modelToTarget)
    {
      completed := true;
      if modelToTarget.policy == Update {
        modelListening := true;
        completed := UpdateModelToTarget();
      } else {
        modelChangeListener := false;
      }
    }

    /** The target side of postInit. */
    method WireTarget() returns (completed: bool)
      requires validationStatus.Some?
      modifies this
      ensures Outcome(State(), completed) == AfterWireTarget(old(State()), targetToModel, modelToTarget)
    {
      completed := true;
      if targetToModel.policy == Update {
        targetListening := true;
        if modelToTarget.policy == Never {
          completed := UpdateTargetToModel();
        }
      } else {
        targetChangeListener := false;
      }
    }

    method UpdateModelToTarget() returns (completed: bool)
      requires validationStatus.Some?
      modifies this
      ensures Outcome(State(), completed) == AfterUpdateModelToTarget(old(State()), modelToTarget)
    {
      var diff := ComputeDiff([], model);
      completed := DoUpdate(ModelToTarget, diff, true, true);
    }

    method UpdateTargetToModel() returns (completed: bool)
      requires validationStatus.Some?
      modifies this
      ensures Outcome(State(), completed) == AfterUpdateTargetToModel(old(State()), targetToModel)
    {
      var diff := ComputeDiff([], target);
      completed := DoUpdate(TargetToModel, diff, true, true);
    }

    /** The listener the binding registers with the target list. */
    method TargetChangeListener(diff: seq<Edit<T>>) returns (completed: bool)
      requires validationStatus.Some?
      modifies this
      decreases if updatingTarget then 0 else 2, 0
      ensures old(updatingTarget) ==> unchanged(this) && completed
      ensures Outcome(State(), completed) == AfterTargetChange(old(State()), targetToModel, diff)
    {
      completed := true;
      if !updatingTarget {
        completed := DoUpdate(TargetToModel, diff, false, false);
      }
    }

    /** The listener the binding registers with the model list. */
    method ModelChangeListener(diff: seq<Edit<T>>) returns (completed: bool)
      requires validationStatus.Some?
      modifies this
      decreases if updatingModel then 0 else 2, 0
      ensures old(updatingModel) ==> unchanged(this) && completed
      ensures Outcome(State(), completed) == AfterModelChange(old(State()), modelToTarget, diff)
    {
      completed := true;
      if !updatingModel {
        completed := DoUpdate(ModelToTarget, diff, false, false);
      }
    }

    /** Writes the destination of `dir` and, as the list does, notifies the
        listener registered with it; the binding's flag for that list is
        set, so its own listener ignores the event. */
    method Write(dir: Direction, contents: seq<T>)
      requires Updating(State(), dir) && validationStatus.Some?
      modifies this
      decreases 1, 0
      ensures State() == WithDestination(old(State()), dir, contents)
    {
      var event := ComputeDiff(Destination(State(), dir), contents);
      if dir == ModelToTarget {
        target := contents;
        if targetListening {
          var ignored := TargetChangeListener(event);
        }
      } else {
        model := contents;
        if modelListening {
          var ignored := ModelChangeListener(event);
        }
      }
    }

    /** One doAdd, doRemove, doMove or doReplace on the destination, its
        status merged into `children`. */
    method Call(dir: Direction, st: Strategy<T>, children: seq<Status>, m: Mutation<T>) returns (merged: seq<Status>)
      requires Updating(State(), dir) && validationStatus.Some?
      modifies this
      decreases 1, 1
      ensures var r := MutationStep(st, Replay(old(Destination(State(), dir)), children, false), m);
              State() == WithDestination(old(State()), dir, r.dest) && merged == r.children
    {
      var p := Perform(st, Destination(State(), dir), m);
      if p.status.IsOk() {
        Write(dir, p.list);
      }
      merged := MergeStatus(children, p.status);
    }

    /** handleAdd. */
    method HandleAdd(dir: Direction, st: Strategy<T>, children: seq<Status>, index: int, x: T)
      returns (merged: seq<Status>, aborted: bool)
      requires Updating(State(), dir) && validationStatus.Some?
      modifies this
      decreases 1, 2
      ensures var r := AddStep(st, Replay(old(Destination(State(), dir)), children, false), index, x);
              State() == WithDestination(old(State()), dir, r.dest) && merged == r.children && aborted == r.aborted
    {
      var converted := st.converter(x);
      if converted.None? {
        merged, aborted := children, true;
      } else {
        merged := Call(dir, st, children, Insert(index, converted.value));
        aborted := false;
      }
    }

    /** The visitor's four handlers. */
    method HandleEdit(dir: Direction, st: Strategy<T>, children: seq<Status>, e: Edit<T>)
      returns (merged: seq<Status>, aborted: bool)
      requires Updating(State(), dir) && validationStatus.Some?
      modifies this
      decreases 1, 3
      ensures var r := Visit(st, Replay(old(Destination(State(), dir)), children, false), e);
              State() == WithDestination(old(State()), dir, r.dest) && merged == r.children && aborted == r.aborted
    {
      match e
      case Add(i, x) =>
        merged, aborted := HandleAdd(dir, st, children, i, x);
      case Remove(i, _) =>
        merged := Call(dir, st, children, Delete(i));
        aborted := false;
      case Move(o, n, x) =>
        if st.useMoveAndReplace {
          merged := Call(dir, st, children, Relocate(o, n));
          aborted := false;
        } else {
          merged := Call(dir, st, children, Delete(o));
          merged, aborted := HandleAdd(dir, st, merged, n, x);
        }
      case Replace(i, _, x) =>
        if st.useMoveAndReplace {
          var converted := st.converter(x);
          if converted.None? {
            merged, aborted := children, true;
          } else {
            merged := Call(dir, st, children, Assign(i, converted.value));
            aborted := false;
          }
        } else {
          merged := Call(dir, st, children, Delete(i));
          merged, aborted := HandleAdd(dir, st, merged, i, x);
        }
    }

    /** The visitor on entry `i` of the diff: the replay of the rest of the
        diff from the new state reaches the same end as the replay from
        entry `i`. */
    method VisitEntry(dir: Direction, st: Strategy<T>, children: seq<Status>, diff: seq<Edit<T>>, i: nat,
                      ghost entry: BindingState<T>, ghost goal: Replay<T>)
      returns (merged: seq<Status>, aborted: bool)
      requires i < |diff| && Updating(State(), dir) && validationStatus.Some?
      requires State() == WithDestination(entry, dir, Destination(State(), dir))
      requires ReplayFrom(st, Replay(Destination(State(), dir), children, false), diff[i..]) == goal
      modifies this
      decreases 1, 4
      ensures Updating(State(), dir) && validationStatus.Some?
      ensures State() == WithDestination(entry, dir, Destination(State(), dir))
      ensures ReplayFrom(st, Replay(Destination(State(), dir), merged, aborted), diff[i + 1..]) == goal
    {
      ghost var before := Replay(Destination(State(), dir), children, false);
      ghost var mid := State();
      merged, aborted := HandleEdit(dir, st, children, diff[i]);
      ghost var v := Visit(st, before, diff[i]);
      WithDestinationTwice(mid, dir, v.dest, v.dest);
      WithDestinationTwice(entry, dir, Destination(mid, dir), v.dest);
      ReplayAdvance(st, before, v, diff, i, goal);
    }

    /** diff.accept(visitor): the entries in order, until one throws; the
        aggregate starts as BindingStatus.ok(), with no children. */
    method Accept(dir: Direction, st: Strategy<T>, diff: seq<Edit<T>>) returns (children: seq<Status>, aborted: bool)
      requires Updating(State(), dir) && validationStatus.Some?
      modifies this
      decreases 1, 5
      ensures var r := ReplayFrom(st, Replay(old(Destination(State(), dir)), [], false), diff);
              State() == WithDestination(old(State()), dir, r.dest) && children == r.children && aborted == r.aborted
    {
      ghost var entry := State();
      ghost var goal := ReplayFrom(st, Replay(Destination(entry, dir), [], false), diff);
      children := [];
      var i := 0;
      aborted := false;
      while i < |diff| && !aborted
        invariant i <= |diff| && Updating(State(), dir) && validationStatus.Some?
        invariant State() == WithDestination(entry, dir, Destination(State(), dir))
        invariant ReplayFrom(st, Replay(Destination(State(), dir), children, aborted), diff[i..]) == goal
      {
        children, aborted := VisitEntry(dir, st, children, diff, i, entry, goal);
        i := i + 1;
      }
      assert aborted || diff[i..] == [];
    }

    /** doUpdate. */
    method DoUpdate(dir: Direction, diff: seq<Edit<T>>, explicit: bool, clear: bool) returns (completed: bool)
      requires validationStatus.Some?
      modifies this
      decreases 1, 6
      ensures Outcome(State(), completed) == AfterUpdate(old(State()), StrategyFor(dir), dir, diff, explicit, clear)
    {
      var st := StrategyFor(dir);
      completed := true;
      if st.policy != Never && (st.policy != OnRequest || explicit) {
        if dir == ModelToTarget {
          updatingTarget := true;
        } else {
          updatingModel := true;
        }
        if clear {
          Write(dir, []);
        }
        var children, aborted := Accept(dir, st, diff);
        validationStatus := Some(Multi(children));
        if dir == ModelToTarget {
          updatingTarget := false;
        } else {
          updatingModel := false;
        }
        completed := !aborted;
      }
    }

    /** dispose; returns how many listeners it unregistered. */
    method Dispose() returns (detached: nat)
      modifies this
      ensures (State(), detached) == AfterDispose(old(State()))
    {
      detached := 0;
      if targetChangeListener {
        targetListening := false;
        targetChangeListener := false;
        detached := detached + 1;
      }
      if modelChangeListener {
        modelListening := false;
        modelChangeListener := false;
        detached := detached + 1;
      }
    }
  }
}
