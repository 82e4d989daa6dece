/**
 * ListProperty: reads, sets and updates the list-valued property of a
 * source object through an observable list it creates for the purpose and
 * disposes before returning. A null source reads as the empty list and is
 * never written.
 */
module ListProperties {
  import opened ListDiffs

  /** The property's value on every source object, by source. */
  class PropertyValues<S(==), E> {
    var lists: map<S, seq<E>>

    constructor (lists: map<S, seq<E>>)
      ensures this.lists == lists
    {
      this.lists := lists;
    }
  }

  /** The observable list that observe(source) creates: a live view of the
      property of `source`, usable until it is disposed. */
  class SourceList<S(==), E> {
    const values: PropertyValues<S, E>
    const source: S
    var disposed: bool

    constructor (values: PropertyValues<S, E>, source: S)
      ensures this.values == values && this.source == source && !disposed
    {
      this.values, this.source := values, source;
      disposed := false;
    }

    /** new ArrayList<>(observable): a copy of the current elements. */
    method Snapshot() returns (copy: seq<E>)
      requires !disposed && source in values.lists
      ensures copy == values.lists[source]
    {
      copy := values.lists[source];
    }

    /** ListDiff.applyTo(observable): the entries one at a time, written
        through to the source; an entry that throws ends the application
        and leaves the entries before it applied. */
    method Apply(diff: seq<Edit<E>>) returns (ok: bool)
      requires !disposed && source in values.lists
      modifies values
      ensures var r := ApplyDiff(old(values.lists[source]), diff);
              values.lists == old(values.lists)[source := r.list] && ok == r.ok
    {
      ghost var start := values.lists[source];
      var i := 0;
      ok := true;
      while i < |diff| && ok
        invariant 0 <= i <= |diff|
        invariant source in values.lists
        invariant values.lists == old(values.lists)[source := values.lists[source]]
        invariant ok ==> ApplyDiff(values.lists[source], diff[i..]) == ApplyDiff(start, diff)
        invariant !ok ==> Applied(values.lists[source], false) == ApplyDiff(start, diff)
      {
        assert diff[i..][0] == diff[i] && diff[i..][1..] == diff[i + 1..];
        var r := ApplyEdit(values.lists[source], diff[i]);
        values.lists := values.lists[source := r.list];
        ok := r.ok;
        i := i + 1;
      }
      assert ok ==> diff[i..] == [];
    }

    /** dispose. */
    method Dispose()
      modifies this
      ensures disposed
    {
      disposed := true;
    }
  }

  /** What getList returns: the empty list for a null source, otherwise the
      property's current value on the source. */
  function PropertyList<S, E>(lists: map<S, seq<E>>, source: Option<S>): (r: seq<E>)
    requires source.Some? ==> source.value in lists
    ensures source.None? ==> r == []
    ensures source.Some? ==> r == lists[source.value]
  {
    if source.None? then [] else lists[source.value]
  }

  /** The property values after updateList(source, diff): no change for a
      null source, otherwise the diff applied to that source's list (as far
      as it applies). */
  function AfterUpdateList<S, E>(lists: map<S, seq<E>>, source: Option<S>, diff: seq<Edit<E>>): (r: map<S, seq<E>>)
    requires source.Some? ==> source.value in lists
    ensures r.Keys == lists.Keys
    ensures forall k :: k in lists && Some(k) != source ==> r[k] == lists[k]
  {
    if source.None? then lists
    else lists[source.value := ApplyDiff(lists[source.value], diff).list]
  }

  /** The property values after setList(source, list): doSetList diffs the
      current value against `list` and applies the diff, which always
      succeeds and leaves exactly `list` on the source; other sources, and
      everything for a null source, stay as they were. */
  function AfterSetList<S, E(==)>(lists: map<S, seq<E>>, source: Option<S>, list: seq<E>): (r: map<S, seq<E>>)
    requires source.Some? ==> source.value in lists
    ensures source.None? ==> r == lists
    ensures source.Some? ==> r == lists[source.value := list]
  {
    var current := PropertyList(lists, source);
    DiffRoundTrip(current, list);
    AfterUpdateList(lists, source, ComputeDiff(current, list))
  }

  /** Setting then getting through the property returns what was set; a
      null source still reads as the empty list. */
  lemma SetThenGet<S, E>(lists: map<S, seq<E>>, source: Option<S>, list: seq<E>)
    requires source.Some? ==> source.value in lists
    ensures var r := AfterSetList(lists, source, list);
            PropertyList(r, source) == if source.Some? then list else []
  {
  }

  /** An accurate diff of a source's list, applied through updateList,
      always applies; the list it leaves is what the diff describes. */
  lemma UpdateWithAccurateDiff<S, E>(lists: map<S, seq<E>>, source: S, diff: seq<Edit<E>>)
    requires source in lists && Describes(lists[source], diff)
    ensures ApplyDiff(lists[source], diff).ok
    ensures AfterUpdateList(lists, Some(source), diff)[source] == ApplyDiff(lists[source], diff).list
  {
    DescribedDiffApplies(lists[source], diff);
  }

  /** A list property whose observe(source) views `values`. */
  class ListProperty<S(==), E(==)> {
    const values: PropertyValues<S, E>

    constructor (values: PropertyValues<S, E>)
      ensures this.values == values
    {
      this.values := values;
    }

    /** observe(source): a fresh, live observable of the source's list. */
    method Observe(source: S) returns (observable: SourceList<S, E>)
      requires source in values.lists
      ensures fresh(observable) && !observable.disposed
      ensures observable.values == values && observable.source == source
    {
      observable := new SourceList(values, source);
    }

    /** doGetList: copy the observed list, then dispose the observable. */
    method DoGetList(source: S) returns (list: seq<E>, ghost observed: SourceList<S, E>)
      requires source in values.lists
      ensures list == values.lists[source]
      ensures fresh(observed) && observed.disposed
    {
      var observable := Observe(source);
      list := observable.Snapshot();
      observable.Dispose();
      observed := observable;
    }

    /** getList: the empty list for a null source, otherwise an
        unmodifiable copy of the source's list. */
    method GetList(source: Option<S>) returns (list: seq<E>)
      requires source.Some? ==> source.value in values.lists
      ensures list == PropertyList(values.lists, source)
      ensures source.None? ==> list == []
    {
      if source.None? {
        return [];
      }
      var copy, observed := DoGetList(source.value);
      list := copy;
    }

    /** doUpdateList: apply the diff to a fresh observable and dispose it,
        also when the diff throws (ok is then false). */
    method DoUpdateList(source: S, diff: seq<Edit<E>>) returns (ok: bool, ghost observed: SourceList<S, E>)
      requires source in values.lists
      modifies values
      ensures values.lists == AfterUpdateList(old(values.lists), Some(source), diff)
      ensures ok == ApplyDiff(old(values.lists[source]), diff).ok
      ensures fresh(observed) && observed.disposed
    {
      var observable := Observe(source);
      ok := observable.Apply(diff);
      observable.Dispose();
      observed := observable;
    }

    /** updateList: nothing for a null source. */
    method UpdateList(source: Option<S>, diff: seq<Edit<E>>) returns (ok: bool)
      requires source.Some? ==> source.value in values.lists
      modifies values
      ensures values.lists == AfterUpdateList(old(values.lists), source, diff)
      ensures source.None? ==> ok && unchanged(values)
      ensures source.Some? ==> ok == ApplyDiff(old(values.lists[source.value]), diff).ok
    {
      ok := true;
      if source.Some? {
        ghost var observed: SourceList<S, E>;
        ok, observed := DoUpdateList(source.value, diff);
      }
    }

    /** doSetList: diff the current list against the new one and apply it. */
    method DoSetList(source: S, list: seq<E>)
      requires source in values.lists
      modifies values
      ensures values.lists == AfterSetList(old(values.lists), Some(source), list)
      ensures values.lists[source] == list
    {
      var current, observedForGet := DoGetList(source);
      var ok, observedForUpdate := DoUpdateList(source, ComputeDiff(current, list));
    }

    /** setList: nothing for a null source. */
    method SetList(source: Option<S>, list: seq<E>)
      requires source.Some? ==> source.value in values.lists
      modifies values
      ensures values.lists == AfterSetList(old(values.lists), source, list)
      ensures source.None? ==> unchanged(values)
    {
      if source.Some? {
        DoSetList(source.value, list);
      }
    }
  }
}
