/**
 * The read-only view wrapper family: wrappers that present a live, read-only
 * view of a caller's mutable iterator, list, set, collection or map, and the
 * `asImmutable` / `asImmutableCollection` factories that choose among them.
 *
 * A wrapper around a collection keeps nothing but a reference to what it
 * wraps, so it is modelled as a value: each `AnyX` datatype is the runtime
 * value behind a static type `X` of the platform, either a platform container
 * (the `PlainX` case) or one of the wrappers, tagged by its class. Every read
 * is a function of the wrapped container's state as it stands when the read
 * is made. A wrapper offers read operations only: no function here can change
 * the heap, and the only methods that change anything are the iterators'
 * `Next` and `Previous`, which move the wrapped iterator's cursor and nothing
 * else.
 */
module Immutable {
  import opened Sources

  /** The nullable result of Map.get. */
  datatype Option<T> = None | Some(value: T)

  /**
   * The runtime value behind an `Iterator<T>`: a platform iterator (a list
   * iterator included), an ImmutableIterator, or an ImmutableListIterator
   * used where an Iterator is expected. The last is not an ImmutableIterator.
   */
  datatype AnyIterator<T> =
    | PlainIterator(cursor: Cursor<T>)
    | WrappedIterator(wrapper: ImmutableIterator<T>)
    | ListIteratorAsIterator(listWrapper: ImmutableListIterator<T>)
  {
    /** The platform iterator whose cursor this value moves. */
    function Underlying(): (r: Cursor<T>)
    {
      match this
      case PlainIterator(c) => c
      case WrappedIterator(w) => w.delegate
      case ListIteratorAsIterator(w) => w.delegate
    }

    ghost predicate Valid()
      reads Underlying(), Underlying().over.src
    {
      && Underlying().Valid()
      && (WrappedIterator? ==> wrapper.Valid())
    }

    /** What is left to iterate, in order. */
    ghost function Remaining(): (r: seq<T>)
      reads Underlying(), Underlying().over.src
      requires Valid()
    {
      Underlying().over.Elems()[Underlying().index..]
    }

    /**
     * Iterator.asImmutable: an existing ImmutableIterator is returned as it
     * is, anything else is wrapped. An ImmutableListIterator is not an
     * ImmutableIterator, so it gains a layer.
     */
    method AsImmutable() returns (r: ImmutableIterator<T>)
      ensures WrappedIterator? ==> r == wrapper
      ensures PlainIterator? ==> fresh(r) && r.delegate == cursor && r.inner == None
      ensures ListIteratorAsIterator? ==> fresh(r) && r.inner == Some(listWrapper) && r.delegate == listWrapper.delegate
      ensures Valid() ==> r.Valid()
    {
      if WrappedIterator? {
        r := wrapper;
      } else if PlainIterator? {
        r := new ImmutableIterator(cursor);
      } else {
        r := new ImmutableIterator.OverListIterator(listWrapper);
      }
    }
  }

  /** The runtime value behind a `ListIterator<T>`. */
  datatype AnyListIterator<T> = PlainListIterator(cursor: Cursor<T>) | WrappedListIterator(wrapper: ImmutableListIterator<T>)
  {
    function Underlying(): (r: Cursor<T>)
    {
      if PlainListIterator? then cursor else wrapper.delegate
    }

    /** A ListIterator used where an Iterator is expected: the same object under the wider type. */
    function AsIterator(): (r: AnyIterator<T>)
      ensures r.Underlying() == Underlying()
      ensures PlainListIterator? ==> r.PlainIterator?
      ensures WrappedListIterator? ==> r == ListIteratorAsIterator(wrapper) && !r.WrappedIterator?
    {
      if PlainListIterator? then PlainIterator(cursor) else ListIteratorAsIterator(wrapper)
    }

    ghost predicate Valid()
      reads Underlying(), Underlying().over.src
    {
      Underlying().Valid()
    }

    /** What `previous` would walk back over, in order. */
    ghost function Traversed(): (r: seq<T>)
      reads Underlying(), Underlying().over.src
      requires Valid()
    {
      Underlying().over.Elems()[..Underlying().index]
    }

    /** What `next` would yield, in order. */
    ghost function Remaining(): (r: seq<T>)
      reads Underlying(), Underlying().over.src
      requires Valid()
    {
      Underlying().over.Elems()[Underlying().index..]
    }

    /** ListIterator.asImmutable: an existing ImmutableListIterator is returned as it is, anything else is wrapped. */
    method AsImmutable() returns (r: ImmutableListIterator<T>)
      ensures WrappedListIterator? ==> r == wrapper
      ensures PlainListIterator? ==> fresh(r) && r.delegate == cursor
    {
      if WrappedListIterator? {
        r := wrapper;
      } else {
        r := new ImmutableListIterator(cursor);
      }
    }
  }

  /**
   * class ImmutableIterator: forwards hasNext and next, and offers no remove.
   * It wraps either a platform iterator, whose cursor is `delegate`, or an
   * ImmutableListIterator `inner`, through which it forwards and whose cursor
   * `delegate` then is.
   */
  class ImmutableIterator<T> {
    const delegate: Cursor<T>
    const inner: Option<ImmutableListIterator<T>>

    /** A wrapper around a platform iterator. */
    constructor (delegate: Cursor<T>)
      ensures this.delegate == delegate && inner == None
    {
      this.delegate := delegate;
      inner := None;
    }

    /** A wrapper around an ImmutableListIterator: one more layer. */
    constructor OverListIterator(listWrapper: ImmutableListIterator<T>)
      ensures delegate == listWrapper.delegate && inner == Some(listWrapper)
    {
      delegate := listWrapper.delegate;
      inner := Some(listWrapper);
    }

    ghost predicate Valid()
      reads delegate, delegate.over.src
    {
      && delegate.Valid()
      && (inner.Some? ==> inner.value.delegate == delegate)
    }

    /** What is left to iterate, in order. */
    ghost function Remaining(): (r: seq<T>)
      reads delegate, delegate.over.src
      requires Valid()
    {
      delegate.over.Elems()[delegate.index..]
    }

    function HasNext(): (r: bool)
      reads delegate, delegate.over.src
      requires Valid()
      ensures r <==> Remaining() != []
    {
      if inner.Some? then inner.value.HasNext() else delegate.HasNext()
    }

    /** Yields the next element and advances the wrapped iterator; the container is left as it was. */
    method Next() returns (x: T)
      requires Valid() && HasNext()
      modifies delegate
      ensures Valid() && old(Remaining()) == [x] + Remaining()
      ensures unchanged(delegate.over.src)
    {
      if inner.Some? {
        x := inner.value.Next();
      } else {
        x := delegate.Next();
      }
    }
  }

  /** class ImmutableListIterator: forwards every ListIterator read, and offers no remove, set or add. */
  class ImmutableListIterator<T> {
    const delegate: Cursor<T>

    constructor (delegate: Cursor<T>)
      ensures this.delegate == delegate
    {
      this.delegate := delegate;
    }

    ghost predicate Valid()
      reads delegate, delegate.over.src
    {
      delegate.Valid()
    }

    /** What `previous` would walk back over, in order. */
    ghost function Traversed(): (r: seq<T>)
      reads delegate, delegate.over.src
      requires Valid()
    {
      delegate.over.Elems()[..delegate.index]
    }

    /** What `next` would yield, in order. */
    ghost function Remaining(): (r: seq<T>)
      reads delegate, delegate.over.src
      requires Valid()
    {
      delegate.over.Elems()[delegate.index..]
    }

    function HasNext(): (r: bool)
      reads delegate, delegate.over.src
      requires Valid()
      ensures r <==> Remaining() != []
    {
      delegate.HasNext()
    }

    function HasPrevious(): (r: bool)
      reads delegate, delegate.over.src
      requires Valid()
      ensures r <==> Traversed() != []
    {
      0 < delegate.index
    }

    function NextIndex(): (r: int)
      reads delegate, delegate.over.src
      requires Valid()
      ensures r == |Traversed()|
    {
      delegate.index
    }

    function PreviousIndex(): (r: int)
      reads delegate, delegate.over.src
      requires Valid()
      ensures r == |Traversed()| - 1
    {
      delegate.index - 1
    }

    /** Yields the next element and moves the wrapped cursor forward; the container is left as it was. */
    method Next() returns (x: T)
      requires Valid() && HasNext()
      modifies delegate
      ensures Valid() && old(Remaining()) == [x] + Remaining()
      ensures Traversed() == old(Traversed()) + [x]
      ensures unchanged(delegate.over.src)
    {
      x := delegate.Next();
      assert delegate.over.Elems()[..delegate.index] == old(delegate.over.Elems()[..delegate.index]) + [x];
    }

    /** Yields the previous element and moves the wrapped cursor back; the container is left as it was. */
    method Previous() returns (x: T)
      requires Valid() && HasPrevious()
      modifies delegate
      ensures Valid() && old(Traversed()) == Traversed() + [x]
      ensures Remaining() == [x] + old(Remaining())
      ensures unchanged(delegate.over.src)
    {
      x := delegate.Previous();
      assert old(delegate.over.Elems()[..delegate.index]) == delegate.over.Elems()[..delegate.index] + [x];
    }
  }

  /**
   * The runtime value behind a `List<T>`: a platform list or window, or one
   * of the list wrappers. ImmutableRandomAccessList subclasses ImmutableList
   * and adds the RandomAccess marker.
   */
  datatype AnyList<T(==)> =
    | PlainList(backing: Backing<T>)
    | ImmutableList(backing: Backing<T>)
    | ImmutableRandomAccessList(backing: Backing<T>)
  {
    /** `this is ImmutableList`, which holds of the random-access subclass too. */
    predicate IsImmutableList()
    {
      ImmutableList? || ImmutableRandomAccessList?
    }

    /** `this is RandomAccess`. */
    predicate IsRandomAccess()
    {
      match this
      case PlainList(b) => b.RandomAccess()
      case ImmutableList(_) => false
      case ImmutableRandomAccessList(_) => true
    }

    ghost predicate Valid()
      reads backing.src
    {
      backing.Valid()
    }

    /** The list's contents now: for a wrapper, exactly the wrapped list's. */
    function Elems(): (r: seq<T>)
      reads backing.src
      requires Valid()
    {
      backing.Elems()
    }

    /** List.size: the whole container's size, or the width of the window. */
    function Size(): (r: nat)
      reads backing.src
      requires Valid()
      ensures backing.Whole? ==> r == |backing.src.elems|
      ensures backing.Range? ==> r == backing.to - backing.from
    {
      |Elems()|
    }

    function IsEmpty(): (r: bool)
      reads backing.src
      requires Valid()
      ensures r <==> Size() == 0
    {
      Elems() == []
    }

    /** List.get: position `i` of the list is position `from + i` of the container a window reads. */
    function Get(i: nat): (r: T)
      reads backing.src
      requires Valid() && i < Size()
      ensures backing.Whole? ==> r == backing.src.elems[i]
      ensures backing.Range? ==> r == backing.src.elems[backing.from + i]
      ensures r in Elems()
    {
      Elems()[i]
    }

    function IndexOf(x: T): (r: int)
      reads backing.src
      requires Valid()
      ensures -1 <= r < Size()
      ensures r == -1 <==> x !in Elems()
      ensures 0 <= r ==> Get(r) == x && forall j :: 0 <= j < r ==> Get(j) != x
    {
      var s := Elems();
      var r := Sources.IndexOf(s, x);
      assert forall j :: 0 <= j < r ==> s[j] == s[..r][j];
      r
    }

    function LastIndexOf(x: T): (r: int)
      reads backing.src
      requires Valid()
      ensures -1 <= r < Size()
      ensures r == -1 <==> x !in Elems()
      ensures 0 <= r ==> Get(r) == x && forall j :: r < j < Size() ==> Get(j) != x
    {
      var s := Elems();
      var r := Sources.LastIndexOf(s, x);
      assert forall j :: r < j < |s| ==> s[j] == s[r + 1..][j - r - 1];
      r
    }

    function Contains(x: T): (r: bool)
      reads backing.src
      requires Valid()
      ensures r <==> IndexOf(x) != -1
    {
      x in Elems()
    }

    function ContainsAll(xs: seq<T>): (r: bool)
      reads backing.src
      requires Valid()
      ensures r <==> forall i :: 0 <= i < |xs| ==> Contains(xs[i])
    {
      forall x :: x in xs ==> x in Elems()
    }

    /**
     * List.subList. On a wrapper, the platform's window onto the wrapped list
     * is wrapped again by `asImmutable`; on a platform list it is the bare
     * window.
     */
    function SubList(from: nat, to: nat): (r: AnyList<T>)
      reads backing.src
      requires Valid() && from <= to <= Size()
      ensures r.backing.src == backing.src
      ensures r.Valid() && r.Elems() == Elems()[from..to]
      ensures r.IsImmutableList() == IsImmutableList()
      ensures r.IsRandomAccess() == backing.RandomAccess()
    {
      if IsImmutableList() then PlainList(backing.SubList(from, to)).AsImmutable()
      else PlainList(backing.SubList(from, to))
    }

    /**
     * List.iterator. A wrapper returns the wrapped list's iterator wrapped by
     * Iterator.asImmutable.
     */
    method Iterator() returns (it: AnyIterator<T>)
      requires Valid()
      ensures fresh(it.Underlying()) && it.Valid() && it.Remaining() == Elems()
      ensures IsImmutableList() ==> it.WrappedIterator? && fresh(it.wrapper)
    {
      var c := new Cursor(backing, 0);
      if IsImmutableList() {
        var w := PlainIterator(c).AsImmutable();
        it := WrappedIterator(w);
      } else {
        it := PlainIterator(c);
      }
    }

    /** List.listIterator(): a list iterator positioned before the first element. */
    method ListIterator() returns (it: AnyListIterator<T>)
      requires Valid()
      ensures fresh(it.Underlying()) && it.Valid() && it.Traversed() == [] && it.Remaining() == Elems()
      ensures IsImmutableList() ==> it.WrappedListIterator? && fresh(it.wrapper)
    {
      it := ListIteratorAt(0);
    }

    /**
     * List.listIterator(index). A wrapper returns the wrapped list's list
     * iterator wrapped by ListIterator.asImmutable.
     */
    method ListIteratorAt(index: nat) returns (it: AnyListIterator<T>)
      requires Valid() && index <= Size()
      ensures fresh(it.Underlying()) && it.Valid()
      ensures it.Traversed() == Elems()[..index] && it.Remaining() == Elems()[index..]
      ensures IsImmutableList() ==> it.WrappedListIterator? && fresh(it.wrapper)
    {
      var c := new Cursor(backing, index);
      if IsImmutableList() {
        var w := PlainListIterator(c).AsImmutable();
        it := WrappedListIterator(w);
      } else {
        it := PlainListIterator(c);
      }
    }

    /**
     * List.asImmutable: an ImmutableList (of either class) is returned as it
     * is; otherwise a RandomAccess list gets an ImmutableRandomAccessList and
     * any other list a plain ImmutableList.
     */
    function AsImmutable(): (r: AnyList<T>)
      ensures r.IsImmutableList()
      ensures IsImmutableList() ==> r == this
      ensures !IsImmutableList() ==> r.backing == backing
      ensures r.IsRandomAccess() == IsRandomAccess()
    {
      if IsImmutableList() then this
      else if IsRandomAccess() then ImmutableRandomAccessList(backing)
      else ImmutableList(backing)
    }

    /**
     * List.asImmutableCollection: always a new ImmutableCollection around
     * this list, wrapped or not; the result has no list operation.
     */
    function AsImmutableCollection(): (r: AnyCollection<T>)
      reads backing.src
      ensures r.IsImmutableCollection() && r.delegate == ListCollection(this)
      ensures r.Origin() == backing.src
      ensures Valid() ==> r.Valid() && r.Elems() == Elems()
    {
      ImmutableCollection(ListCollection(this))
    }
  }

  /** The runtime value behind a `Set<T>`: a platform set or an ImmutableSet. */
  datatype AnySet<T(==)> = PlainSet(src: Source<T>) | ImmutableSet(src: Source<T>)
  {
    predicate IsImmutableSet()
    {
      ImmutableSet?
    }

    /** The set's elements now, in its iteration order. */
    function Elems(): (r: seq<T>)
      reads src
    {
      src.elems
    }

    /** Set.size: the size of the wrapped container now. */
    function Size(): (r: nat)
      reads src
      ensures r == |src.elems|
    {
      |Elems()|
    }

    function IsEmpty(): (r: bool)
      reads src
      ensures r <==> Size() == 0
    {
      Elems() == []
    }

    function Contains(x: T): (r: bool)
      reads src
    {
      x in Elems()
    }

    function ContainsAll(xs: seq<T>): (r: bool)
      reads src
      ensures r <==> forall i :: 0 <= i < |xs| ==> Contains(xs[i])
    {
      forall x :: x in xs ==> x in Elems()
    }

    /** Set.iterator. A wrapper returns the wrapped set's iterator wrapped by Iterator.asImmutable. */
    method Iterator() returns (it: AnyIterator<T>)
      ensures fresh(it.Underlying()) && it.Valid() && it.Remaining() == Elems()
      ensures IsImmutableSet() ==> it.WrappedIterator? && fresh(it.wrapper)
    {
      var c := new Cursor(Whole(src), 0);
      if IsImmutableSet() {
        var w := PlainIterator(c).AsImmutable();
        it := WrappedIterator(w);
      } else {
        it := PlainIterator(c);
      }
    }

    /** Set.asImmutable: an existing ImmutableSet is returned as it is, any other set is wrapped. */
    function AsImmutable(): (r: AnySet<T>)
      ensures r.IsImmutableSet() && r.src == src
      ensures IsImmutableSet() ==> r == this
    {
      if IsImmutableSet() then this else ImmutableSet(src)
    }

    /**
     * Set.asImmutableCollection: always a new ImmutableCollection around this
     * set, wrapped or not; the result has no set operation.
     */
    function AsImmutableCollection(): (r: AnyCollection<T>)
      reads src
      ensures r.IsImmutableCollection() && r.delegate == SetCollection(this)
      ensures r.Origin() == src
      ensures r.Elems() == Elems()
    {
      ImmutableCollection(SetCollection(this))
    }
  }

  /**
   * The runtime value behind a `Collection<T>`: a platform collection that is
   * neither a list nor a set (a map's values, say), any list, any set, or an
   * ImmutableCollection around any collection.
   */
  datatype AnyCollection<T(==)> =
    | PlainCollection(src: Source<T>)
    | ListCollection(list: AnyList<T>)
    | SetCollection(asSet: AnySet<T>)
    | ImmutableCollection(delegate: AnyCollection<T>)
  {
    /** `this is ImmutableCollection`. */
    predicate IsImmutableCollection()
    {
      ImmutableCollection?
    }

    /** Some wrapper of the family stands between the caller and the platform container. */
    predicate IsReadOnly()
    {
      match this
      case PlainCollection(_) => false
      case ListCollection(l) => l.IsImmutableList()
      case SetCollection(s) => s.IsImmutableSet()
      case ImmutableCollection(_) => true
    }

    /** The platform container this value ultimately reads. */
    function Origin(): (r: Source<T>)
    {
      match this
      case PlainCollection(s) => s
      case ListCollection(l) => l.backing.src
      case SetCollection(s) => s.src
      case ImmutableCollection(d) => d.Origin()
    }

    ghost predicate Valid()
      reads Origin()
    {
      match this
      case ListCollection(l) => l.Valid()
      case ImmutableCollection(d) => d.Valid()
      case _ => true
    }

    /** The collection's elements now, in iteration order: for a wrapper, exactly the wrapped collection's. */
    function Elems(): (r: seq<T>)
      reads Origin()
      requires Valid()
    {
      match this
      case PlainCollection(s) => s.elems
      case ListCollection(l) => l.Elems()
      case SetCollection(s) => s.Elems()
      case ImmutableCollection(d) => d.Elems()
    }

    /** Collection.size: a wrapper answers with its delegate's size, a list or set view with that list's or set's. */
    function Size(): (r: nat)
      reads Origin()
      requires Valid()
      ensures PlainCollection? ==> r == |src.elems|
      ensures ListCollection? ==> r == list.Size()
      ensures SetCollection? ==> r == asSet.Size()
      ensures ImmutableCollection? ==> r == delegate.Size()
    {
      |Elems()|
    }

    function IsEmpty(): (r: bool)
      reads Origin()
      requires Valid()
      ensures r <==> Size() == 0
    {
      Elems() == []
    }

    function Contains(x: T): (r: bool)
      reads Origin()
      requires Valid()
    {
      x in Elems()
    }

    function ContainsAll(xs: seq<T>): (r: bool)
      reads Origin()
      requires Valid()
      ensures r <==> forall i :: 0 <= i < |xs| ==> Contains(xs[i])
    {
      forall x :: x in xs ==> x in Elems()
    }

    /**
     * Collection.iterator. An ImmutableCollection returns the wrapped
     * collection's iterator wrapped by Iterator.asImmutable, which leaves an
     * iterator that is already an ImmutableIterator as it is.
     */
    method Iterator() returns (it: AnyIterator<T>)
      requires Valid()
      ensures Valid()
      ensures fresh(it.Underlying()) && it.Valid() && it.Remaining() == Elems()
      ensures IsReadOnly() ==> it.WrappedIterator? && fresh(it.wrapper)
    {
      match this
      case PlainCollection(s) =>
        var c := new Cursor(Whole(s), 0);
        it := PlainIterator(c);
      case ListCollection(l) =>
        it := l.Iterator();
      case SetCollection(s) =>
        it := s.Iterator();
      case ImmutableCollection(d) =>
        var inner := d.Iterator();
        var w := inner.AsImmutable();
        assert unchanged(Origin());
        it := WrappedIterator(w);
    }

    /**
     * Collection.asImmutable: an existing ImmutableCollection is returned as
     * it is; anything else, a wrapped list or set included, is wrapped.
     */
    function AsImmutable(): (r: AnyCollection<T>)
      ensures r.IsImmutableCollection()
      ensures IsImmutableCollection() ==> r == this
      ensures !IsImmutableCollection() ==> r.delegate == this
    {
      if IsImmutableCollection() then this else ImmutableCollection(this)
    }
  }

  /** The runtime value behind a `Map<K, V>`: a platform map or an ImmutableMap. */
  datatype AnyMap<K(==), V(==)> = PlainMap(src: MapSource<K, V>) | ImmutableMap(src: MapSource<K, V>)
  {
    predicate IsImmutableMap()
    {
      ImmutableMap?
    }

    /** The objects a read of the map looks at. */
    function Footprint(): (r: set<object>)
    {
      {src, src.keySet, src.valueColl, src.entrySet}
    }

    ghost predicate Valid()
      reads Footprint()
    {
      src.Valid()
    }

    /**
     * Map.keys. An ImmutableMap returns the platform key set wrapped by
     * Set.asImmutable.
     */
    function Keys(): (r: AnySet<K>)
      ensures r.src == src.keySet
      ensures r.IsImmutableSet() == IsImmutableMap()
    {
      if IsImmutableMap() then PlainSet(src.keySet).AsImmutable() else PlainSet(src.keySet)
    }

    /**
     * Map.values. An ImmutableMap returns the platform values collection
     * wrapped by Collection.asImmutable.
     */
    function Values(): (r: AnyCollection<V>)
      ensures r.Origin() == src.valueColl
      ensures r.IsReadOnly() == IsImmutableMap()
      ensures IsImmutableMap() ==> r == ImmutableCollection(PlainCollection(src.valueColl))
      ensures !IsImmutableMap() ==> r == PlainCollection(src.valueColl)
    {
      if IsImmutableMap() then PlainCollection(src.valueColl).AsImmutable() else PlainCollection(src.valueColl)
    }

    /**
     * Map.entries. An ImmutableMap returns the platform entry set wrapped by
     * Set.asImmutable.
     */
    function Entries(): (r: AnySet<(K, V)>)
      ensures r.src == src.entrySet
      ensures r.IsImmutableSet() == IsImmutableMap()
    {
      if IsImmutableMap() then PlainSet(src.entrySet).AsImmutable() else PlainSet(src.entrySet)
    }

    function Size(): (r: nat)
      reads Footprint()
      requires Valid()
      ensures r == Keys().Size() == Values().Size() == Entries().Size()
    {
      assert Values().Elems() == src.valueColl.elems;
      |src.table|
    }

    function IsEmpty(): (r: bool)
      reads Footprint()
      requires Valid()
      ensures r <==> Size() == 0
    {
      src.table == map[]
    }

    function ContainsKey(k: K): (r: bool)
      reads Footprint()
      requires Valid()
      ensures r <==> Keys().Contains(k)
    {
      k in src.table
    }

    function ContainsValue(v: V): (r: bool)
      reads Footprint()
      requires Valid()
      ensures r <==> Values().Contains(v)
    {
      src.ValueInValues(v);
      assert Values().Elems() == src.valueColl.elems;
      v in src.table.Values
    }

    function Get(k: K): (r: Option<V>)
      reads Footprint()
      requires Valid()
      ensures r.Some? <==> ContainsKey(k)
      ensures r.Some? ==> Entries().Contains((k, r.value))
    {
      if k in src.table then Some(src.table[k]) else None
    }

    /** Map.asImmutable: an existing ImmutableMap is returned as it is, any other map is wrapped. */
    function AsImmutable(): (r: AnyMap<K, V>)
      ensures r.IsImmutableMap() && r.src == src
      ensures IsImmutableMap() ==> r == this
    {
      if IsImmutableMap() then this else ImmutableMap(src)
    }
  }
}
