/**
 * What the wrapper family promises, stated over module Immutable: wrapping is
 * idempotent and keeps the random-access tag, reads through a wrapper agree
 * with the same reads on the wrapped container, a map's views line up with
 * its lookups, every view reachable from a read-only view is read-only and
 * reads the same container, and views follow later changes to their
 * container.
 */
module WrapperProperties {
  import opened Sources
  import opened Immutable

  // ---------------------------------------------------------------------
  // The factories

  /** List.asImmutable twice is List.asImmutable once, and the RandomAccess tag survives. */
  lemma ListAsImmutableIdempotent<T>(l: AnyList<T>)
    ensures l.AsImmutable().AsImmutable() == l.AsImmutable()
    ensures l.AsImmutable().IsRandomAccess() == l.IsRandomAccess()
    ensures l.IsRandomAccess() && !l.IsImmutableList() ==> l.AsImmutable().ImmutableRandomAccessList?
    ensures !l.IsRandomAccess() && !l.IsImmutableList() ==> l.AsImmutable().ImmutableList?
  {
  }

  /** Set.asImmutable twice is Set.asImmutable once. */
  lemma SetAsImmutableIdempotent<T>(s: AnySet<T>)
    ensures s.AsImmutable().AsImmutable() == s.AsImmutable()
  {
  }

  /** Collection.asImmutable twice is Collection.asImmutable once. */
  lemma CollectionAsImmutableIdempotent<T>(c: AnyCollection<T>)
    ensures c.AsImmutable().AsImmutable() == c.AsImmutable()
  {
  }

  /** Map.asImmutable twice is Map.asImmutable once. */
  lemma MapAsImmutableIdempotent<K, V>(m: AnyMap<K, V>)
    ensures m.AsImmutable().AsImmutable() == m.AsImmutable()
  {
  }

  /**
   * List.asImmutableCollection performs no already-wrapped check: even on a
   * list that is already wrapped it adds a collection wrapper, whose contents
   * are the list's.
   */
  lemma ListAsImmutableCollectionAlwaysWraps<T>(l: AnyList<T>)
    requires l.Valid()
    ensures l.AsImmutableCollection() != ListCollection(l)
    ensures l.AsImmutableCollection().IsReadOnly() && l.AsImmutableCollection().Origin() == l.backing.src
    ensures l.AsImmutableCollection().Valid() && l.AsImmutableCollection().Elems() == l.Elems()
  {
  }

  /**
   * Set.asImmutableCollection performs no already-wrapped check: even on a
   * set that is already wrapped it adds a collection wrapper, whose contents
   * are the set's.
   */
  lemma SetAsImmutableCollectionAlwaysWraps<T>(s: AnySet<T>)
    ensures s.AsImmutableCollection() != SetCollection(s)
    ensures s.AsImmutableCollection().IsReadOnly() && s.AsImmutableCollection().Origin() == s.src
    ensures s.AsImmutableCollection().Elems() == s.Elems()
  {
  }

  /**
   * Collection.asImmutable recognises only ImmutableCollection: a list or a
   * set that is already wrapped, seen as a Collection, gets one more layer.
   */
  lemma CollectionAsImmutableWrapsWrappedListsAndSets<T>(l: AnyList<T>, s: AnySet<T>)
    ensures l.IsImmutableList() ==> ListCollection(l).AsImmutable() == ImmutableCollection(ListCollection(l))
    ensures s.IsImmutableSet() ==> SetCollection(s).AsImmutable() == ImmutableCollection(SetCollection(s))
  {
  }

  /**
   * Iterator.asImmutable and ListIterator.asImmutable: the first call returns
   * the argument when it is already a wrapper and a fresh wrapper otherwise;
   * a second call returns the first call's result itself.
   */
  method IteratorAsImmutableIdempotent<T>(it: AnyIterator<T>, li: AnyListIterator<T>)
    returns (once: ImmutableIterator<T>, twice: ImmutableIterator<T>,
             listOnce: ImmutableListIterator<T>, listTwice: ImmutableListIterator<T>)
    ensures it.WrappedIterator? ==> once == it.wrapper
    ensures it.PlainIterator? ==> fresh(once) && once.delegate == it.cursor
    ensures it.ListIteratorAsIterator? ==> fresh(once) && once.inner == Some(it.listWrapper)
    ensures twice == once
    ensures li.WrappedListIterator? ==> listOnce == li.wrapper
    ensures li.PlainListIterator? ==> fresh(listOnce) && listOnce.delegate == li.cursor
    ensures listTwice == listOnce
  {
    once := it.AsImmutable();
    twice := WrappedIterator(once).AsImmutable();
    listOnce := li.AsImmutable();
    listTwice := WrappedListIterator(listOnce).AsImmutable();
  }

  /**
   * Iterator.asImmutable recognises only ImmutableIterator: a wrapped list's
   * listIterator, used as an Iterator, gets one more layer, a fresh
   * ImmutableIterator that forwards through the ImmutableListIterator and
   * yields the list's elements.
   */
  method ListIteratorAsIteratorGainsLayer<T(==)>(l: AnyList<T>) returns (li: ImmutableListIterator<T>, it: ImmutableIterator<T>)
    requires l.Valid() && l.IsImmutableList()
    ensures fresh(li) && fresh(it) && fresh(it.delegate)
    ensures it.inner == Some(li) && it.delegate == li.delegate
    ensures it.Valid() && it.Remaining() == l.Elems()
  {
    var any := l.ListIterator();
    li := any.wrapper;
    it := any.AsIterator().AsImmutable();
  }

  // ---------------------------------------------------------------------
  // Reads are forwarded

  /** Every read on a wrapped list answers as the same read on the list it wraps, at that moment. */
  lemma ListReadsForward<T>(l: AnyList<T>, x: T, xs: seq<T>, i: nat)
    requires l.Valid()
    ensures l.AsImmutable().Valid() && l.AsImmutable().Elems() == l.Elems()
    ensures l.AsImmutable().Size() == l.Size()
    ensures l.AsImmutable().IsEmpty() == l.IsEmpty()
    ensures l.AsImmutable().Contains(x) == l.Contains(x)
    ensures l.AsImmutable().ContainsAll(xs) == l.ContainsAll(xs)
    ensures l.AsImmutable().IndexOf(x) == l.IndexOf(x)
    ensures l.AsImmutable().LastIndexOf(x) == l.LastIndexOf(x)
    ensures i < l.Size() ==> l.AsImmutable().Get(i) == l.Get(i)
  {
  }

  /** Every read on a wrapped set answers as the same read on the set it wraps. */
  lemma SetReadsForward<T>(s: AnySet<T>, x: T, xs: seq<T>)
    ensures s.AsImmutable().Elems() == s.Elems()
    ensures s.AsImmutable().Size() == s.Size()
    ensures s.AsImmutable().IsEmpty() == s.IsEmpty()
    ensures s.AsImmutable().Contains(x) == s.Contains(x)
    ensures s.AsImmutable().ContainsAll(xs) == s.ContainsAll(xs)
  {
  }

  /** Every read on a wrapped collection answers as the same read on the collection it wraps. */
  lemma CollectionReadsForward<T>(c: AnyCollection<T>, x: T, xs: seq<T>)
    requires c.Valid()
    ensures c.AsImmutable().Valid() && c.AsImmutable().Elems() == c.Elems()
    ensures c.AsImmutable().Size() == c.Size()
    ensures c.AsImmutable().IsEmpty() == c.IsEmpty()
    ensures c.AsImmutable().Contains(x) == c.Contains(x)
    ensures c.AsImmutable().ContainsAll(xs) == c.ContainsAll(xs)
  {
  }

  /**
   * Every read on a wrapped map answers as the same read on the map it
   * wraps, and its key, value and entry views list the same elements in the
   * same order as the wrapped map's.
   */
  lemma MapReadsForward<K, V>(m: AnyMap<K, V>, k: K, v: V)
    requires m.Valid()
    ensures m.AsImmutable().Valid()
    ensures m.AsImmutable().Size() == m.Size()
    ensures m.AsImmutable().IsEmpty() == m.IsEmpty()
    ensures m.AsImmutable().ContainsKey(k) == m.ContainsKey(k)
    ensures m.AsImmutable().ContainsValue(v) == m.ContainsValue(v)
    ensures m.AsImmutable().Get(k) == m.Get(k)
    ensures m.AsImmutable().Keys().Elems() == m.Keys().Elems()
    ensures m.AsImmutable().Values().Valid() && m.Values().Valid()
    ensures m.AsImmutable().Values().Elems() == m.Values().Elems()
    ensures m.AsImmutable().Entries().Elems() == m.Entries().Elems()
  {
  }

  // ---------------------------------------------------------------------
  // A map's views

  /**
   * A map's key, value and entry views have one element per mapping, line up
   * position by position, and agree with lookup; for a wrapped map they are
   * read-only.
   */
  lemma MapViewsAligned<K, V>(m: AnyMap<K, V>, i: nat)
    requires m.Valid() && i < m.Size()
    ensures m.Values().Valid()
    ensures m.Keys().Size() == m.Size() && m.Values().Size() == m.Size() && m.Entries().Size() == m.Size()
    ensures m.Entries().Elems()[i] == (m.Keys().Elems()[i], m.Values().Elems()[i])
    ensures m.Get(m.Keys().Elems()[i]) == Some(m.Values().Elems()[i])
    ensures m.IsImmutableMap() ==> m.Keys().IsImmutableSet() && m.Values().IsReadOnly() && m.Entries().IsImmutableSet()
  {
  }

  /** Map.get finds a value for a key exactly when that pair is among the map's entries. */
  lemma LookupMatchesEntries<K, V>(m: AnyMap<K, V>, k: K, v: V)
    requires m.Valid()
    ensures m.Get(k) == Some(v) <==> m.Entries().Contains((k, v))
  {
    var es := m.src.entrySet.elems;
    if (k, v) in es {
      var i := Sources.IndexOf(es, (k, v));
      assert m.src.keySet.elems[i] == k;
    }
  }

  // ---------------------------------------------------------------------
  // No path back to a mutable handle

  /** A container handle under its static type: a List, a Set or a Collection. */
  datatype View<T(==)> = ListView(list: AnyList<T>) | SetView(asSet: AnySet<T>) | CollectionView(coll: AnyCollection<T>)
  {
    /** A wrapper of the family stands between the holder and the platform container. */
    predicate ReadOnly()
    {
      match this
      case ListView(l) => l.IsImmutableList()
      case SetView(s) => s.IsImmutableSet()
      case CollectionView(c) => c.IsReadOnly()
    }

    function Origin(): (r: Source<T>)
    {
      match this
      case ListView(l) => l.backing.src
      case SetView(s) => s.src
      case CollectionView(c) => c.Origin()
    }

    ghost predicate Valid()
      reads Origin()
    {
      match this
      case ListView(l) => l.Valid()
      case SetView(_) => true
      case CollectionView(c) => c.Valid()
    }
  }

  /** What a holder of a view can do to obtain another container handle from it. */
  datatype Step =
    | SubList(from: nat, to: nat)   // List.subList
    | AsImmutable                   // the asImmutable overload of the handle's static type
    | AsImmutableCollection         // List.asImmutableCollection or Set.asImmutableCollection
    | Widen                         // use a List or a Set where a Collection is expected

  /** The handle one step yields, or None when the step does not apply to this handle. */
  ghost function Apply<T>(v: View<T>, s: Step): (r: Option<View<T>>)
    reads v.Origin()
    requires v.Valid()
    ensures r.Some? ==> r.value.Origin() == v.Origin() && r.value.Valid()
  {
    match s
    case SubList(from, to) =>
      if v.ListView? && from <= to <= v.list.Size() then Some(ListView(v.list.SubList(from, to))) else None
    case AsImmutable =>
      Some(match v
        case ListView(l) => ListView(l.AsImmutable())
        case SetView(t) => SetView(t.AsImmutable())
        case CollectionView(c) => CollectionView(c.AsImmutable()))
    case AsImmutableCollection =>
      (match v
        case ListView(l) => Some(CollectionView(l.AsImmutableCollection()))
        case SetView(t) => Some(CollectionView(t.AsImmutableCollection()))
        case CollectionView(_) => None)
    case Widen =>
      (match v
        case ListView(l) => Some(CollectionView(ListCollection(l)))
        case SetView(t) => Some(CollectionView(SetCollection(t)))
        case CollectionView(_) => None)
  }

  /** The handle a sequence of steps leads to, or None when some step does not apply. */
  ghost function Follow<T>(v: View<T>, steps: seq<Step>): (r: Option<View<T>>)
    reads v.Origin()
    requires v.Valid()
    ensures r.Some? ==> r.value.Origin() == v.Origin() && r.value.Valid()
    decreases |steps|
  {
    if steps == [] then Some(v)
    else
      match Apply(v, steps[0])
      case None => None
      case Some(w) => Follow(w, steps[1..])
  }

  /** One step from a read-only view yields a read-only view. */
  lemma StepKeepsReadOnly<T>(v: View<T>, s: Step)
    requires v.Valid() && v.ReadOnly() && Apply(v, s).Some?
    ensures Apply(v, s).value.ReadOnly()
  {
  }

  /**
   * Every handle reachable from a read-only view, by any sequence of
   * sub-listing, re-wrapping, collection-wrapping and widening, is read-only
   * and reads the same platform container.
   */
  lemma {:induction false} NoPathToMutable<T>(v: View<T>, steps: seq<Step>)
    requires v.Valid() && v.ReadOnly() && Follow(v, steps).Some?
    ensures Follow(v, steps).value.ReadOnly()
    ensures Follow(v, steps).value.Origin() == v.Origin()
    decreases |steps|
  {
    if steps != [] {
      StepKeepsReadOnly(v, steps[0]);
      NoPathToMutable(Apply(v, steps[0]).value, steps[1..]);
    }
  }

  /**
   * From a wrapped map's key, value and entry views, every handle reachable
   * by such steps is read-only and reads that view's container.
   */
  lemma NoPathFromWrappedMap<K, V>(m: AnyMap<K, V>, keySteps: seq<Step>, valueSteps: seq<Step>, entrySteps: seq<Step>)
    requires m.Valid() && m.IsImmutableMap()
    ensures Follow(SetView(m.Keys()), keySteps).Some? ==>
      Follow(SetView(m.Keys()), keySteps).value.ReadOnly() && Follow(SetView(m.Keys()), keySteps).value.Origin() == m.src.keySet
    ensures Follow(CollectionView(m.Values()), valueSteps).Some? ==>
      Follow(CollectionView(m.Values()), valueSteps).value.ReadOnly() && Follow(CollectionView(m.Values()), valueSteps).value.Origin() == m.src.valueColl
    ensures Follow(SetView(m.Entries()), entrySteps).Some? ==>
      Follow(SetView(m.Entries()), entrySteps).value.ReadOnly() && Follow(SetView(m.Entries()), entrySteps).value.Origin() == m.src.entrySet
  {
    if Follow(SetView(m.Keys()), keySteps).Some? {
      NoPathToMutable(SetView(m.Keys()), keySteps);
    }
    if Follow(CollectionView(m.Values()), valueSteps).Some? {
      NoPathToMutable(CollectionView(m.Values()), valueSteps);
    }
    if Follow(SetView(m.Entries()), entrySteps).Some? {
      NoPathToMutable(SetView(m.Entries()), entrySteps);
    }
  }

  // ---------------------------------------------------------------------
  // Views are live and never change their container

  /** A list view made before the caller appends to its list shows the appended element. */
  method ListViewSeesLaterAdd<T(==)>(s: Source<T>, x: T) returns (view: AnyList<T>)
    modifies s
    ensures view.IsImmutableList() && view.backing == Whole(s)
    ensures view.Valid() && view.Elems() == old(s.elems) + [x]
  {
    view := PlainList(Whole(s)).AsImmutable();
    s.Add(x);
  }

  /** A wrapped sub-list is a window onto its list, not a copy: it shows a later replacement. */
  method SubListSeesLaterReplace<T(==)>(s: Source<T>, from: nat, to: nat, x: T) returns (view: AnyList<T>)
    requires from < to <= |s.elems|
    modifies s
    ensures view.IsImmutableList() && view.Valid()
    ensures view.Size() == to - from && view.Get(0) == x
  {
    var list := PlainList(Whole(s)).AsImmutable();
    view := list.SubList(from, to);
    s.Replace(from, x);
  }

  /** A map view made before the caller puts a mapping shows the new mapping and its key. */
  method MapViewSeesLaterPut<K(==), V(==)>(m: MapSource<K, V>, k: K, v: V) returns (view: AnyMap<K, V>)
    requires m.Valid()
    modifies m, m.keySet, m.valueColl, m.entrySet
    ensures view.IsImmutableMap() && view.Valid()
    ensures view.Get(k) == Some(v)
    ensures view.Keys().Elems() == if k in old(m.table) then old(m.keySet.elems) else old(m.keySet.elems) + [k]
  {
    view := PlainMap(m).AsImmutable();
    m.Put(k, v);
  }

  /** Iterating a wrapped list to its first element leaves the list as it was. */
  method FirstThroughView<T(==)>(l: AnyList<T>) returns (first: T)
    requires l.Valid() && l.IsImmutableList() && 0 < l.Size()
    ensures unchanged(l.backing.src)
    ensures first == l.Get(0)
  {
    var it := l.Iterator();
    first := it.wrapper.Next();
  }
}
