/**
 * List diffs: the edit records a change event carries, the primitive
 * mutations of a java.util.List they are made of, how a diff is applied
 * to a list, and a diff producer with its round-trip contract.
 */
module ListDiffs {

  datatype Option<T> = None | Some(value: T)

  /** One entry of a list diff. Every index refers to the list as the
      entries before it have left it. */
  datatype Edit<E> =
    | Add(index: int, element: E)
    | Remove(index: int, element: E)
    | Move(oldIndex: int, newIndex: int, element: E)
    | Replace(index: int, oldElement: E, newElement: E)

  /** The primitive operations of a mutable list: add(i, x), remove(i),
      move(i, j) and set(i, x). */
  datatype Mutation<E> =
    | Insert(index: int, element: E)
    | Delete(index: int)
    | Relocate(oldIndex: int, newIndex: int)
    | Assign(index: int, element: E)

  /** The indices of `m` are in range for `s`; otherwise the list throws
      IndexOutOfBoundsException. */
  predicate InBounds<E>(s: seq<E>, m: Mutation<E>)
  {
    match m
    case Insert(i, _) => 0 <= i <= |s|
    case Delete(i) => 0 <= i < |s|
    case Relocate(o, n) => 0 <= o < |s| && 0 <= n < |s|
    case Assign(i, _) => 0 <= i < |s|
  }

  /** The list after `m`, or None when `m` throws. A move removes the
      element and inserts it at the new index of the shortened list. */
  function Mutate<E>(s: seq<E>, m: Mutation<E>): (r: Option<seq<E>>)
    ensures r.Some? <==> InBounds(s, m)
    ensures r.Some? ==> |r.value| == |s| + (if m.Insert? then 1 else if m.Delete? then -1 else 0)
  {
    match m
    case Insert(i, x) => if 0 <= i <= |s| then Some(s[..i] + [x] + s[i..]) else None
    case Delete(i) => if 0 <= i < |s| then Some(s[..i] + s[i + 1..]) else None
    case Relocate(o, n) =>
      if 0 <= o < |s| && 0 <= n < |s| then
        var rest := s[..o] + s[o + 1..];
        Some(rest[..n] + [s[o]] + rest[n..])
      else None
    case Assign(i, x) => if 0 <= i < |s| then Some(s[i := x]) else None
  }

  /** The list reached by applying (part of) a diff, and whether every
      entry applied; on failure the list is the one left when the failing
      call threw. */
  datatype Applied<E> = Applied(list: seq<E>, ok: bool)

  function Attempt<E>(s: seq<E>, m: Mutation<E>): Applied<E>
  {
    match Mutate(s, m)
    case Some(t) => Applied(t, true)
    case None => Applied(s, false)
  }

  /** How much an entry that applies changes the length of a list. */
  function Growth<E>(e: Edit<E>): int
  {
    if e.Add? then 1 else if e.Remove? then -1 else 0
  }

  /** How much a diff that applies changes the length of a list: one per
      Add, minus one per Remove. */
  function SizeChange<E>(d: seq<Edit<E>>): int
  {
    if d == [] then 0 else Growth(d[0]) + SizeChange(d[1..])
  }

  /** ListDiff.applyTo for one entry: add, remove and set map to the list's
      own operations; a move is the visitor's default, a remove followed by
      an add of the entry's element. */
  function ApplyEdit<E>(s: seq<E>, e: Edit<E>): (r: Applied<E>)
    ensures e.Add? ==> (r.ok <==> 0 <= e.index <= |s|)
    ensures e.Remove? || e.Replace? ==> (r.ok <==> 0 <= e.index < |s|)
    ensures e.Move? ==> (r.ok <==> 0 <= e.oldIndex < |s| && 0 <= e.newIndex < |s|)
    ensures r.ok ==> |r.list| == |s| + Growth(e)
    ensures !r.ok && !e.Move? ==> r.list == s
  {
    match e
    case Add(i, x) => Attempt(s, Insert(i, x))
    case Remove(i, _) => Attempt(s, Delete(i))
    case Replace(i, _, x) => Attempt(s, Assign(i, x))
    case Move(o, n, x) =>
      var r := Attempt(s, Delete(o));
      if r.ok then Attempt(r.list, Insert(n, x)) else r
  }

  /** ListDiff.applyTo: the entries in order; the first one that throws
      ends the application, leaving the entries before it applied. */
  function ApplyDiff<E>(s: seq<E>, d: seq<Edit<E>>): (r: Applied<E>)
    ensures r.ok ==> |r.list| == |s| + SizeChange(d)
    ensures d == [] ==> r == Applied(s, true)
    decreases |d|
  {
    if d == [] then Applied(s, true)
    else
      var r := ApplyEdit(s, d[0]);
      if r.ok then ApplyDiff(r.list, d[1..]) else r
  }

  /** `d` is an accurate account of a change to `s`: every entry applies,
      and the element a Remove, Move or Replace names is the one at its
      index. Change events of an observable list are of this kind. */
  ghost predicate Describes<E>(s: seq<E>, d: seq<Edit<E>>)
    decreases |d|
  {
    d == [] ||
    (var e := d[0];
     var r := ApplyEdit(s, e);
     && r.ok
     && (e.Remove? ==> s[e.index] == e.element)
     && (e.Move? ==> s[e.oldIndex] == e.element)
     && (e.Replace? ==> s[e.index] == e.oldElement)
     && Describes(r.list, d[1..]))
  }

  lemma {:induction false} DescribedDiffApplies<E>(s: seq<E>, d: seq<Edit<E>>)
    requires Describes(s, d)
    ensures ApplyDiff(s, d).ok
    decreases |d|
  {
    if d != [] {
      DescribedDiffApplies(ApplyEdit(s, d[0]).list, d[1..]);
    }
  }

  /** Applying a concatenation is applying the halves in turn. */
  lemma {:induction false} ApplyDiffAppend<E>(s: seq<E>, d1: seq<Edit<E>>, d2: seq<Edit<E>>)
    ensures ApplyDiff(s, d1 + d2) ==
            (var r := ApplyDiff(s, d1); if r.ok then ApplyDiff(r.list, d2) else r)
    decreases |d1|
  {
    if d1 == [] {
      assert d1 + d2 == d2;
    } else {
      assert (d1 + d2)[0] == d1[0];
      assert (d1 + d2)[1..] == d1[1..] + d2;
      var r := ApplyEdit(s, d1[0]);
      if r.ok {
        ApplyDiffAppend(r.list, d1[1..], d2);
      }
    }
  }

  /** The entries adding `t` in order, the first one at index `k`. */
  function Adds<E>(k: int, t: seq<E>): (d: seq<Edit<E>>)
    ensures |d| == |t|
    ensures forall i :: 0 <= i < |t| ==> d[i] == Add(k + i, t[i])
  {
    seq(|t|, i requires 0 <= i < |t| => Add(k + i, t[i]))
  }

  /** The entries removing `t` when it stands at index `k`: each removes
      the element then at index `k`. */
  function Removes<E>(k: int, t: seq<E>): (d: seq<Edit<E>>)
    ensures |d| == |t|
    ensures forall i :: 0 <= i < |t| ==> d[i] == Remove(k, t[i])
  {
    seq(|t|, i requires 0 <= i < |t| => Remove(k, t[i]))
  }

  lemma {:induction false} AddsApply<E>(p: seq<E>, t: seq<E>)
    ensures ApplyDiff(p, Adds(|p|, t)) == Applied(p + t, true)
    ensures Describes(p, Adds(|p|, t))
    decreases |t|
  {
    var d := Adds(|p|, t);
    if t == [] {
      assert d == [];
      assert p + t == p;
    } else {
      var p' := p + [t[0]];
      assert p[..|p|] + [t[0]] + p[|p|..] == p';
      assert ApplyEdit(p, d[0]) == Applied(p', true);
      assert d[1..] == Adds(|p'|, t[1..]);
      AddsApply(p', t[1..]);
      assert p' + t[1..] == p + t;
    }
  }

  lemma {:induction false} RemovesApply<E>(p: seq<E>, t: seq<E>)
    ensures ApplyDiff(p + t, Removes(|p|, t)) == Applied(p, true)
    ensures Describes(p + t, Removes(|p|, t))
    decreases |t|
  {
    var d := Removes(|p|, t);
    var s := p + t;
    if t == [] {
      assert d == [];
      assert s == p;
    } else {
      assert s[..|p|] + s[|p| + 1..] == p + t[1..];
      assert ApplyEdit(s, d[0]) == Applied(p + t[1..], true);
      assert s[|p|] == t[0];
      assert d[1..] == Removes(|p|, t[1..]);
      RemovesApply(p, t[1..]);
    }
  }

  /** The length of the longest common prefix of `a` and `b`. */
  function CommonPrefix<E(==)>(a: seq<E>, b: seq<E>): (k: nat)
    ensures k <= |a| && k <= |b|
    ensures a[..k] == b[..k]
    ensures k < |a| && k < |b| ==> a[k] != b[k]
  {
    if a != [] && b != [] && a[0] == b[0] then
      var k' := CommonPrefix(a[1..], b[1..]);
      assert a[..k' + 1] == [a[0]] + a[1..][..k'];
      assert b[..k' + 1] == [b[0]] + b[1..][..k'];
      k' + 1
    else 0
  }

  /** Diffs.computeListDiff: keeps the common prefix, removes the rest of
      `a` and adds the rest of `b`. Equal lists give the empty diff and an
      empty `a` gives Adds only. */
  function ComputeDiff<E(==)>(a: seq<E>, b: seq<E>): (d: seq<Edit<E>>)
    ensures d == [] <==> a == b
    ensures a == [] ==> d == Adds(0, b)
  {
    var k := CommonPrefix(a, b);
    assert a == b ==> k == |a|;
    assert |a[k..]| == 0 && |b[k..]| == 0 ==> a == b by {
      if |a[k..]| == 0 && |b[k..]| == 0 {
        assert a == a[..k] && b == b[..k];
      }
    }
    Removes(k, a[k..]) + Adds(k, b[k..])
  }

  /** Replaying `ComputeDiff(a, b)` against `a` yields `b`, and the diff is an
      accurate account of that change. */
  lemma DiffRoundTrip<E>(a: seq<E>, b: seq<E>)
    ensures ApplyDiff(a, ComputeDiff(a, b)) == Applied(b, true)
    ensures Describes(a, ComputeDiff(a, b))
  {
    var k := CommonPrefix(a, b);
    var p := a[..k];
    assert a == p + a[k..];
    assert |p| == k;
    RemovesApply(p, a[k..]);
    AddsApply(p, b[k..]);
    ApplyDiffAppend(a, Removes(k, a[k..]), Adds(k, b[k..]));
    assert p + b[k..] == b;
    DescribesAppend(a, Removes(k, a[k..]), Adds(k, b[k..]));
  }

  lemma {:induction false} DescribesAppend<E>(s: seq<E>, d1: seq<Edit<E>>, d2: seq<Edit<E>>)
    requires Describes(s, d1)
    requires Describes(ApplyDiff(s, d1).list, d2)
    ensures Describes(s, d1 + d2)
    decreases |d1|
  {
    if d1 == [] {
      assert d1 + d2 == d2;
    } else {
      assert (d1 + d2)[0] == d1[0];
      assert (d1 + d2)[1..] == d1[1..] + d2;
      DescribesAppend(ApplyEdit(s, d1[0]).list, d1[1..], d2);
    }
  }
}
