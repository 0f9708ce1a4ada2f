/**
 * The caller-owned, mutable platform containers that the read-only views of
 * module Immutable borrow: lists and sets (seen through their iteration
 * order), windows onto a list as `subList` returns them, platform iterators,
 * and insertion-ordered maps together with their key-set, values and entry-set views.
 * This module stands in for the platform's collection classes; it is the
 * environment of the model, not part of the wrapper family itself.
 */
module Sources {

  /** The first position holding `x` in `s`, or -1 when `x` does not occur (List.indexOf). */
  function IndexOf<T(==)>(s: seq<T>, x: T): (r: int)
    ensures -1 <= r < |s|
    ensures r == -1 <==> x !in s
    ensures 0 <= r ==> s[r] == x && x !in s[..r]
  {
    if s == [] then -1
    else if s[0] == x then 0
    else
      var i := IndexOf(s[1..], x);
      if i == -1 then -1
      else
        assert s[..i + 1] == [s[0]] + s[1..][..i];
        i + 1
  }

  /** The last position holding `x` in `s`, or -1 when `x` does not occur (List.lastIndexOf). */
  function LastIndexOf<T(==)>(s: seq<T>, x: T): (r: int)
    ensures -1 <= r < |s|
    ensures r == -1 <==> x !in s
    ensures 0 <= r ==> s[r] == x && x !in s[r + 1..]
  {
    if s == [] then -1
    else if s[|s| - 1] == x then |s| - 1
    else
      var i := LastIndexOf(s[..|s| - 1], x);
      assert s == s[..|s| - 1] + [s[|s| - 1]];
      i
  }

  /**
   * A mutable container owned by the caller (an ArrayList, a LinkedList, a
   * HashSet, ...). `elems` is its iteration order; `randomAccess` says whether
   * its class implements the RandomAccess marker interface. A set source holds
   * each element once; nothing in the wrappers relies on that.
   */
  class Source<T> {
    var elems: seq<T>
    const randomAccess: bool

    constructor (elems: seq<T>, randomAccess: bool)
      ensures this.elems == elems && this.randomAccess == randomAccess
    {
      this.elems := elems;
      this.randomAccess := randomAccess;
    }

    /** A mutation made by the caller through its own, mutable reference. */
    method Add(x: T)
      modifies this
      ensures elems == old(elems) + [x]
    {
      elems := elems + [x];
    }

    /** A mutation made by the caller through its own, mutable reference (List.set). */
    method Replace(i: nat, x: T)
      requires i < |elems|
      modifies this
      ensures elems == old(elems)[i := x]
    {
      elems := elems[i := x];
    }
  }

  /**
   * What a platform list reads from: a whole source, or the window
   * [from, to) of a source that `subList` returns. A window is live: it reads
   * the source's current elements at those positions.
   */
  datatype Backing<T> = Whole(src: Source<T>) | Range(src: Source<T>, from: nat, to: nat)
  {
    /** A window is usable while its source still reaches its end. */
    ghost predicate Valid()
      reads src
    {
      Range? ==> from <= to <= |src.elems|
    }

    /** The elements as they stand now. */
    function Elems(): (r: seq<T>)
      reads src
      requires Valid()
    {
      if Whole? then src.elems else src.elems[from..to]
    }

    /** A window onto a RandomAccess list is itself RandomAccess (AbstractList.subList). */
    predicate RandomAccess()
    {
      src.randomAccess
    }

    /** The platform's List.subList: a window onto the same source. */
    function SubList(i: nat, j: nat): (r: Backing<T>)
      reads src
      requires Valid() && i <= j <= |Elems()|
      ensures r.src == src && r.RandomAccess() == RandomAccess()
      ensures r.Valid() && r.Elems() == Elems()[i..j]
    {
      match this
      case Whole(s) => Range(s, i, j)
      case Range(s, f, t) =>
        assert s.elems[f..t][i..j] == s.elems[f + i..f + j];
        Range(s, f + i, f + j)
    }
  }

  /**
   * A platform iterator (Iterator or ListIterator) over a list, a window, a
   * set or a collection. `index` is the position of the next element, as
   * ListIterator.nextIndex reports it.
   */
  class Cursor<T> {
    const over: Backing<T>
    var index: nat

    ghost predicate Valid()
      reads this, over.src
    {
      over.Valid() && index <= |over.Elems()|
    }

    constructor (over: Backing<T>, index: nat)
      requires over.Valid() && index <= |over.Elems()|
      ensures this.over == over && this.index == index && Valid()
    {
      this.over := over;
      this.index := index;
    }

    function HasNext(): (r: bool)
      reads this, over.src
      requires Valid()
    {
      index < |over.Elems()|
    }

    method Next() returns (x: T)
      requires Valid() && index < |over.Elems()|
      modifies this
      ensures Valid() && index == old(index) + 1
      ensures x == over.Elems()[old(index)]
    {
      x := over.Elems()[index];
      index := index + 1;
    }

    method Previous() returns (x: T)
      requires Valid() && 0 < index
      modifies this
      ensures Valid() && index == old(index) - 1
      ensures x == over.Elems()[index]
    {
      index := index - 1;
      x := over.Elems()[index];
    }
  }

  /**
   * A mutable, insertion-ordered map owned by the caller (a LinkedHashMap,
   * which Kotlin's `mutableMapOf` returns). `table` answers lookups; the map
   * also owns its key-set, values and entry-set views, three objects whose
   * elements follow the map's iteration order and which Valid() keeps in step
   * with `table`, as the platform's backed views are. A new key goes to the
   * end of that order and putting an existing key keeps its place.
   */
  class MapSource<K(==), V> {
    var table: map<K, V>
    const keySet: Source<K>
    const valueColl: Source<V>
    const entrySet: Source<(K, V)>

    ghost predicate Valid()
      reads this, keySet, valueColl, entrySet
    {
      && keySet as object != valueColl as object
      && keySet as object != entrySet as object
      && valueColl as object != entrySet as object
      && |valueColl.elems| == |keySet.elems|
      && |entrySet.elems| == |keySet.elems|
      && |table| == |keySet.elems|
      && (forall k :: k in table ==> k in keySet.elems)
      && (forall i, j :: 0 <= i < j < |keySet.elems| ==> keySet.elems[i] != keySet.elems[j])
      && (forall i :: 0 <= i < |keySet.elems| ==>
            && keySet.elems[i] in table
            && valueColl.elems[i] == table[keySet.elems[i]]
            && entrySet.elems[i] == (keySet.elems[i], valueColl.elems[i]))
    }

    /** A value is in the values view exactly when some key of the table maps to it. */
    lemma ValueInValues(v: V)
      requires Valid()
      ensures v in valueColl.elems <==> v in table.Values
    {
      if v in table.Values {
        var k :| k in table && table[k] == v;
        var i := IndexOf(keySet.elems, k);
        assert valueColl.elems[i] == v;
      }
      if v in valueColl.elems {
        var i := IndexOf(valueColl.elems, v);
        assert table[keySet.elems[i]] == v;
      }
    }

    /** An empty map. */
    constructor ()
      ensures Valid() && table == map[] && keySet.elems == []
      ensures fresh(keySet) && fresh(valueColl) && fresh(entrySet)
    {
      table := map[];
      keySet := new Source([], false);
      valueColl := new Source([], false);
      entrySet := new Source([], false);
    }

    /** A mutation made by the caller through its own, mutable reference (Map.put). */
    method Put(k: K, v: V)
      requires Valid()
      modifies this, keySet, valueColl, entrySet
      ensures Valid()
      ensures table == old(table)[k := v]
      ensures keySet.elems == if k in old(table) then old(keySet.elems) else old(keySet.elems) + [k]
    {
      var i := IndexOf(keySet.elems, k);
      if i == -1 {
        keySet.elems := keySet.elems + [k];
        valueColl.elems := valueColl.elems + [v];
        entrySet.elems := entrySet.elems + [(k, v)];
      } else {
        valueColl.elems := valueColl.elems[i := v];
        entrySet.elems := entrySet.elems[i := (k, v)];
      }
      table := table[k := v];
    }
  }
}
