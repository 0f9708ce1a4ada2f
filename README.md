# Read-only view wrappers of klutter, in Dafny

This project models klutter's family of read-only view wrappers
(`uy.klutter.core.collections`, file `Immutable.kt`). Each wrapper is a thin
class that keeps a reference to a caller's mutable iterator, list, set,
collection or map. It forwards every read to that object and offers no
mutating operation. The `asImmutable` / `asImmutableCollection` factories
choose the wrapper class.

The model has three modules:

- `Sources` is the platform side, which the wrappers borrow and do not own:
  - a mutable container `Source` (elements in iteration order, plus the
    `RandomAccess` marker);
  - `Backing`, a whole list or a live `subList` window onto it;
  - `Cursor`, a platform iterator;
  - `MapSource`, an insertion-ordered map (a LinkedHashMap, which Kotlin's
    `mutableMapOf` returns). It owns its key-set, values and entry-set
    views, and `Valid()` keeps them in step with the table.

  The caller's own mutations (`Add`, `Replace`, `Put`) are methods here.
- `Immutable` is the wrapper family.
  - The collection and map wrappers hold nothing but their delegate, so
    they are datatype values. `AnyList`, `AnySet`, `AnyCollection` and
    `AnyMap` are the runtime value behind the static types `List`, `Set`,
    `Collection` and `Map`: a platform container, or one of the wrapper
    classes, tagged by class.
  - Every read is a function that `reads` the platform container. A view
    therefore always answers from the container's current state.
  - The two iterator wrappers are classes. Their `Next`/`Previous` move the
    wrapped cursor and provably leave the container unchanged.
  - The iterator factories allocate, so they are methods. The other
    factories are functions.
- `WrapperProperties` states what the family promises:
  - wrapping is idempotent and keeps the random-access tag;
  - `asImmutableCollection` always wraps;
  - every read through a wrapper equals the same read on the wrapped
    container;
  - a map's views line up with its lookups;
  - no sequence of `subList`, `asImmutable`, `asImmutableCollection` and
    widening steps leads from a read-only view to a mutable handle or to
    another container;
  - views see later changes the caller makes to the container.

The KDoc of every factory (for example Immutable.kt:113-115) promises a wrapper
that cannot be cast back to a mutable type. Only some factories skip wrapping
a value that is already read-only, and the model follows the code:
- `Collection.asImmutable` recognises only `ImmutableCollection`. An
  `ImmutableList` or `ImmutableSet` used as a `Collection` gets one more
  wrapper layer (`CollectionAsImmutableWrapsWrappedListsAndSets`).
- `Iterator.asImmutable` recognises only `ImmutableIterator`. An
  `ImmutableListIterator` used as an `Iterator` gets one more layer
  (`ListIteratorAsIteratorGainsLayer`).
- `asImmutableCollection` never checks what it is given, so it always wraps.

## Model

In the table, `Immutable.kt` means `core-jdk6/src/main/kotlin/uy/klutter/core/common/Immutable.kt`.

| member | source | states |
|---|---|---|
| Immutable.AnyIterator.AsImmutable | core-jdk6/src/main/kotlin/uy/klutter/core/common/Immutable.kt:105 | an ImmutableIterator is returned as that same object; a platform iterator gets a fresh ImmutableIterator over it; an ImmutableListIterator used as an Iterator gets a fresh ImmutableIterator that forwards through it |
| Immutable.AnyListIterator.AsImmutable | core-jdk6/src/main/kotlin/uy/klutter/core/common/Immutable.kt:110 | an ImmutableListIterator is returned as that same object; any other list iterator gets a fresh wrapper around it |
| Immutable.AnyListIterator.AsIterator | core-jdk6/src/main/kotlin/uy/klutter/core/common/Immutable.kt:33 | a list iterator used where an Iterator is expected is the same object, moving the same cursor; an ImmutableListIterator is then not an ImmutableIterator |
| WrapperProperties.ListIteratorAsIteratorGainsLayer | core-jdk6/src/main/kotlin/uy/klutter/core/common/Immutable.kt:105 | a wrapped list's listIterator, used as an Iterator and wrapped again, is a fresh ImmutableIterator whose inner layer is that ImmutableListIterator; it yields the list's elements |
| WrapperProperties.IteratorAsImmutableIdempotent | core-jdk6/src/main/kotlin/uy/klutter/core/common/Immutable.kt:105-110 | wrapping an iterator (or list iterator) a second time returns the first wrapper itself |
| Immutable.ImmutableIterator.HasNext | core-jdk6/src/main/kotlin/uy/klutter/core/common/Immutable.kt:11 | true exactly when elements remain in the wrapped iterator |
| Immutable.ImmutableIterator.Next | core-jdk6/src/main/kotlin/uy/klutter/core/common/Immutable.kt:11 | yields the first remaining element of the wrapped iterator (forwarding through an inner ImmutableListIterator when there is one) and consumes it; the container is unchanged |
| Immutable.ImmutableListIterator.HasNext | core-jdk6/src/main/kotlin/uy/klutter/core/common/Immutable.kt:33 | true exactly when elements lie ahead of the cursor |
| Immutable.ImmutableListIterator.HasPrevious | core-jdk6/src/main/kotlin/uy/klutter/core/common/Immutable.kt:33 | true exactly when elements lie behind the cursor |
| Immutable.ImmutableListIterator.NextIndex | core-jdk6/src/main/kotlin/uy/klutter/core/common/Immutable.kt:33 | the number of elements behind the cursor |
| Immutable.ImmutableListIterator.PreviousIndex | core-jdk6/src/main/kotlin/uy/klutter/core/common/Immutable.kt:33 | one less than the number of elements behind the cursor |
| Immutable.ImmutableListIterator.Next | core-jdk6/src/main/kotlin/uy/klutter/core/common/Immutable.kt:33 | moves the first element ahead of the cursor to behind it and yields it; the container is unchanged |
| Immutable.ImmutableListIterator.Previous | core-jdk6/src/main/kotlin/uy/klutter/core/common/Immutable.kt:33 | moves the last element behind the cursor to ahead of it and yields it; the container is unchanged |
| Immutable.AnyCollection.Size | core-jdk6/src/main/kotlin/uy/klutter/core/common/Immutable.kt:20 | an ImmutableCollection's size is its delegate's size; a list or set used as a collection answers with that list's or set's size |
| Immutable.AnyCollection.IsEmpty | core-jdk6/src/main/kotlin/uy/klutter/core/common/Immutable.kt:20 | empty exactly when the size is 0 |
| Immutable.AnyCollection.ContainsAll | core-jdk6/src/main/kotlin/uy/klutter/core/common/Immutable.kt:20 | true exactly when every given element is contained |
| Immutable.AnyCollection.Iterator | core-jdk6/src/main/kotlin/uy/klutter/core/common/Immutable.kt:25-27 | a fresh iterator yielding the collection's elements in order; for an ImmutableCollection, or any read-only collection, it is an ImmutableIterator |
| Immutable.AnyCollection.AsImmutable | core-jdk6/src/main/kotlin/uy/klutter/core/common/Immutable.kt:115 | an ImmutableCollection is returned as it is; anything else is wrapped with itself as delegate |
| WrapperProperties.CollectionAsImmutableIdempotent | core-jdk6/src/main/kotlin/uy/klutter/core/common/Immutable.kt:115 | Collection.asImmutable applied twice equals applying it once |
| WrapperProperties.CollectionAsImmutableWrapsWrappedListsAndSets | core-jdk6/src/main/kotlin/uy/klutter/core/common/Immutable.kt:115 | an ImmutableList or ImmutableSet seen as a Collection is wrapped once more, in a new ImmutableCollection |
| WrapperProperties.CollectionReadsForward | core-jdk6/src/main/kotlin/uy/klutter/core/common/Immutable.kt:20 | elements, size, isEmpty, contains and containsAll of the wrapper equal those of the wrapped collection |
| Immutable.AnyList.Size | core-jdk6/src/main/kotlin/uy/klutter/core/common/Immutable.kt:42 | the size of the whole container, or the width to - from of a window |
| Immutable.AnyList.Get | core-jdk6/src/main/kotlin/uy/klutter/core/common/Immutable.kt:42 | position i of a whole list is position i of its container; position i of a window is position from + i; the element is in the list |
| Immutable.AnyList.IsEmpty | core-jdk6/src/main/kotlin/uy/klutter/core/common/Immutable.kt:42 | empty exactly when the size is 0 |
| Immutable.AnyList.IndexOf | core-jdk6/src/main/kotlin/uy/klutter/core/common/Immutable.kt:42 | -1 exactly when the element is absent; otherwise a position holding it with no earlier position holding it |
| Immutable.AnyList.LastIndexOf | core-jdk6/src/main/kotlin/uy/klutter/core/common/Immutable.kt:42 | -1 exactly when the element is absent; otherwise a position holding it with no later position holding it |
| Immutable.AnyList.Contains | core-jdk6/src/main/kotlin/uy/klutter/core/common/Immutable.kt:42 | true exactly when indexOf finds the element |
| Immutable.AnyList.ContainsAll | core-jdk6/src/main/kotlin/uy/klutter/core/common/Immutable.kt:42 | true exactly when every given element is contained |
| Immutable.AnyList.Iterator | core-jdk6/src/main/kotlin/uy/klutter/core/common/Immutable.kt:47-49 | a fresh iterator yielding the list's elements in order; an ImmutableIterator when the list is wrapped |
| Immutable.AnyList.ListIterator | core-jdk6/src/main/kotlin/uy/klutter/core/common/Immutable.kt:51-53 | a fresh list iterator with nothing behind it and the whole list ahead; wrapped when the list is wrapped |
| Immutable.AnyList.ListIteratorAt | core-jdk6/src/main/kotlin/uy/klutter/core/common/Immutable.kt:55-57 | a fresh list iterator with the first `index` elements behind it and the rest ahead; wrapped when the list is wrapped |
| Immutable.AnyList.SubList | core-jdk6/src/main/kotlin/uy/klutter/core/common/Immutable.kt:59-61 | a view onto the same container holding exactly elements [from, to); as wrapped as the list it came from, and random-access exactly when the underlying window is |
| Immutable.AnyList.AsImmutable | core-jdk6/src/main/kotlin/uy/klutter/core/common/Immutable.kt:121-127 | the result is an ImmutableList; an ImmutableList (of either class) is returned as it is; otherwise the wrapper reads the same list; the RandomAccess tag is kept |
| WrapperProperties.ListAsImmutableIdempotent | core-jdk6/src/main/kotlin/uy/klutter/core/common/Immutable.kt:121-127 | idempotent; a RandomAccess platform list becomes an ImmutableRandomAccessList and any other platform list a plain ImmutableList |
| WrapperProperties.ListReadsForward | core-jdk6/src/main/kotlin/uy/klutter/core/common/Immutable.kt:42-45 | elements, size, isEmpty, contains, containsAll, indexOf, lastIndexOf and get of the wrapper equal those of the wrapped list |
| Immutable.AnyList.AsImmutableCollection | core-jdk6/src/main/kotlin/uy/klutter/core/common/Immutable.kt:132 | a new ImmutableCollection whose delegate is this list, wrapped or not; it reads the same container and holds the list's elements |
| WrapperProperties.ListAsImmutableCollectionAlwaysWraps | core-jdk6/src/main/kotlin/uy/klutter/core/common/Immutable.kt:132 | the result is never the list itself, wrapped or not; it is read-only, reads the same container and holds the list's elements |
| Immutable.AnySet.Size | core-jdk6/src/main/kotlin/uy/klutter/core/common/Immutable.kt:76 | the size of the wrapped container now |
| Immutable.AnySet.IsEmpty | core-jdk6/src/main/kotlin/uy/klutter/core/common/Immutable.kt:76 | empty exactly when the size is 0 |
| Immutable.AnySet.ContainsAll | core-jdk6/src/main/kotlin/uy/klutter/core/common/Immutable.kt:76 | true exactly when every given element is contained |
| Immutable.AnySet.Iterator | core-jdk6/src/main/kotlin/uy/klutter/core/common/Immutable.kt:81-83 | a fresh iterator yielding the set's elements in iteration order; an ImmutableIterator when the set is wrapped |
| Immutable.AnySet.AsImmutable | core-jdk6/src/main/kotlin/uy/klutter/core/common/Immutable.kt:137 | the result is an ImmutableSet over the same set; an ImmutableSet is returned as it is |
| WrapperProperties.SetAsImmutableIdempotent | core-jdk6/src/main/kotlin/uy/klutter/core/common/Immutable.kt:137 | Set.asImmutable applied twice equals applying it once |
| WrapperProperties.SetReadsForward | core-jdk6/src/main/kotlin/uy/klutter/core/common/Immutable.kt:76 | elements, size, isEmpty, contains and containsAll of the wrapper equal those of the wrapped set |
| Immutable.AnySet.AsImmutableCollection | core-jdk6/src/main/kotlin/uy/klutter/core/common/Immutable.kt:142 | a new ImmutableCollection whose delegate is this set, wrapped or not; it reads the same container and holds the set's elements |
| WrapperProperties.SetAsImmutableCollectionAlwaysWraps | core-jdk6/src/main/kotlin/uy/klutter/core/common/Immutable.kt:142 | the result is never the set itself, wrapped or not; it is read-only, reads the same container and holds the set's elements |
| Immutable.AnyMap.Keys | core-jdk6/src/main/kotlin/uy/klutter/core/common/Immutable.kt:94-95 | the map's own key set, wrapped in an ImmutableSet exactly when the map is wrapped |
| Immutable.AnyMap.Values | core-jdk6/src/main/kotlin/uy/klutter/core/common/Immutable.kt:96-97 | reads the map's own values collection; read-only exactly when the map is wrapped |
| Immutable.AnyMap.Entries | core-jdk6/src/main/kotlin/uy/klutter/core/common/Immutable.kt:98-99 | the map's own entry set, wrapped in an ImmutableSet exactly when the map is wrapped |
| Immutable.AnyMap.Size | core-jdk6/src/main/kotlin/uy/klutter/core/common/Immutable.kt:89 | equals the sizes of the key, value and entry views |
| Immutable.AnyMap.IsEmpty | core-jdk6/src/main/kotlin/uy/klutter/core/common/Immutable.kt:89 | empty exactly when the size is 0 |
| Immutable.AnyMap.ContainsKey | core-jdk6/src/main/kotlin/uy/klutter/core/common/Immutable.kt:89 | true exactly when the key view contains the key |
| Immutable.AnyMap.ContainsValue | core-jdk6/src/main/kotlin/uy/klutter/core/common/Immutable.kt:89 | true exactly when the values view contains the value |
| Immutable.AnyMap.Get | core-jdk6/src/main/kotlin/uy/klutter/core/common/Immutable.kt:89 | finds a value exactly for the keys the map contains, and the found pair is among its entries |
| Immutable.AnyMap.AsImmutable | core-jdk6/src/main/kotlin/uy/klutter/core/common/Immutable.kt:147 | the result is an ImmutableMap over the same map; an ImmutableMap is returned as it is |
| WrapperProperties.MapAsImmutableIdempotent | core-jdk6/src/main/kotlin/uy/klutter/core/common/Immutable.kt:147 | Map.asImmutable applied twice equals applying it once |
| WrapperProperties.MapReadsForward | core-jdk6/src/main/kotlin/uy/klutter/core/common/Immutable.kt:89-99 | size, isEmpty, containsKey, containsValue and get of the wrapper equal those of the wrapped map; its key, value and entry views list the same elements in the same order |
| WrapperProperties.MapViewsAligned | core-jdk6/src/main/kotlin/uy/klutter/core/common/Immutable.kt:94-99 | the three views have one element per mapping; position i of the entries pairs position i of the keys and of the values; get agrees with them; a wrapped map's views are read-only |
| WrapperProperties.LookupMatchesEntries | core-jdk6/src/main/kotlin/uy/klutter/core/common/Immutable.kt:89 | get yields v for k exactly when the pair (k, v) is among the entries |
| WrapperProperties.Follow | core-jdk6/src/main/kotlin/uy/klutter/core/common/Immutable.kt:59-142 | any handle obtained by a sequence of subList, asImmutable, asImmutableCollection and widening steps reads the same container |
| WrapperProperties.StepKeepsReadOnly | core-jdk6/src/main/kotlin/uy/klutter/core/common/Immutable.kt:59-142 | one such step from a read-only view yields a read-only view |
| WrapperProperties.NoPathToMutable | core-jdk6/src/main/kotlin/uy/klutter/core/common/Immutable.kt:59-142 | every handle reachable from a read-only view by such steps is read-only and reads the same container |
| WrapperProperties.NoPathFromWrappedMap | core-jdk6/src/main/kotlin/uy/klutter/core/common/Immutable.kt:94-99 | every handle reachable by such steps from a wrapped map's key, value or entry view is read-only and reads that view's container |
| WrapperProperties.ListViewSeesLaterAdd | core-jdk6/src/main/kotlin/uy/klutter/core/common/Immutable.kt:42 | a wrapper made before the caller appends to the list shows the appended element |
| WrapperProperties.SubListSeesLaterReplace | core-jdk6/src/main/kotlin/uy/klutter/core/common/Immutable.kt:59-61 | a wrapped sub-list is a window, not a copy: it shows a later replacement in the list |
| WrapperProperties.MapViewSeesLaterPut | core-jdk6/src/main/kotlin/uy/klutter/core/common/Immutable.kt:94-95 | a map wrapper made before the caller puts a mapping finds it; its key view is the map's own, live key view, which for this insertion-ordered map ends with a new key |
| WrapperProperties.FirstThroughView | core-jdk6/src/main/kotlin/uy/klutter/core/common/Immutable.kt:47-49 | reading the first element through a wrapped list's iterator leaves the list unchanged |

## Left out

- Serialization: the `Serializable` marker and `serialVersionUID` have no counterpart. They do not affect any read.
- equals, hashCode and toString: no wrapper overrides them, and `by` delegation forwards only the members of the delegated interface, so every wrapper keeps `Any`'s identity-based equals and hashCode and its default toString. None of the three is modelled; the model compares contents through `Elems()`. Element equality is Dafny's `==` in place of `equals`.
- The platform's default methods that the wrappers inherit or forward, such as `forEach`, `stream`, `spliterator`, `getOrDefault` and `toArray`, are not modelled. What the wrappers add never involves them.
- Map entries are pairs. The mutable `Map.Entry.setValue` reachable through an entry of a platform entry set is not modelled.
- "Cannot be cast back to a mutable type" is modelled as the absence of any mutating member on the wrapper values and classes. The JVM's runtime casts are not modelled.
- Out-of-range indices and iteration past the end become preconditions. The platform throws `IndexOutOfBoundsException` or `NoSuchElementException` in those cases.
- Fail-fast behaviour (`ConcurrentModificationException`) is not modelled. Windows and cursors read the container's current contents, and are usable while it still reaches their positions.
- Identity of the collection and map wrappers is not modelled: they are values. Two wrappers built separately around the same container are equal in the model but distinct objects on the JVM. Iterator wrappers are objects and keep their identity.
- A wrapper built by calling a constructor directly around another wrapper of the same kind (for example `ImmutableList(ImmutableList(x))`) is not modelled. Only `ImmutableCollection` may wrap any collection, wrapped or not, and only `ImmutableIterator` may wrap an `ImmutableListIterator`. These are the two nestings the factories build (`Collection.asImmutable` and `Iterator.asImmutable` on a wrapper of another kind).
- A map's key, value and entry views are objects that `MapSource.Valid` keeps in step with the table. They are not recomputed on each read.
- Maps are modelled as insertion-ordered, as a LinkedHashMap is. A HashMap's bucket order, and its reordering on resize, is not modelled. The wrappers add no ordering of their own: a wrapped map's views list exactly the wrapped map's order (MapReadsForward).
- A set container is not required to hold each element once. No wrapper property depends on that.
- Immutable.AnySet.Contains and Immutable.AnyCollection.Contains have no contract of their own. Their agreement with the wrapped container is stated in SetReadsForward and CollectionReadsForward.
- `ChildFirstClassloader.kt` and `VertxUtil.kt` are not part of this model. They are unrelated to the wrapper family.
