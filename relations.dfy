/**
 * The in-memory edits the relationship handlers make to a loaded relation
 * (a user's playlists, a playlist's tracks) before the owner is saved again.
 */
module Relations {
  import opened Wrappers
  import opened Entities

  /**
   * `list.filter(e => e.id !== id)`: every entry equal to `id` is dropped and the
   * rest keep their order. An absent `id` (undefined) equals no entry.
   */
  function Without(list: seq<Id>, id: Option<Id>): (r: seq<Id>)
    ensures |r| <= |list|
    ensures id.None? ==> |r| == |list|
  {
    if list == [] then [] else Keep(list[0], id) + Without(list[1..], id)
  }

  /** What the filter keeps of one entry. */
  function Keep(x: Id, id: Option<Id>): seq<Id>
  {
    if Some(x) == id then [] else [x]
  }

  /** The filtered list holds exactly the entries of the old one that differ from `id`. */
  lemma {:induction false} WithoutMembers(list: seq<Id>, id: Option<Id>)
    ensures forall x :: x in Without(list, id) <==> x in list && Some(x) != id
  {
    if list != [] {
      WithoutMembers(list[1..], id);
      assert list == [list[0]] + list[1..];
    }
  }

  /** Filtering distributes over concatenation; with the singleton cases this is what "order preserved" means. */
  lemma {:induction false} WithoutConcat(a: seq<Id>, b: seq<Id>, id: Option<Id>)
    ensures Without(a + b, id) == Without(a, id) + Without(b, id)
  {
    if a == [] {
      assert a + b == b;
    } else {
      var ab := a + b;
      assert ab[0] == a[0];
      assert ab[1..] == a[1..] + b;
      WithoutConcat(a[1..], b, id);
      var k := Keep(a[0], id);
      assert Without(ab, id) == k + Without(a[1..] + b, id);
      assert Without(a, id) == k + Without(a[1..], id);
      assert k + (Without(a[1..], id) + Without(b, id)) == (k + Without(a[1..], id)) + Without(b, id);
    }
  }

  /** Every entry other than `id` keeps its multiplicity; `id` keeps none. */
  lemma {:induction false} WithoutCounts(list: seq<Id>, id: Option<Id>, x: Id)
    ensures multiset(Without(list, id))[x] == if Some(x) == id then 0 else multiset(list)[x]
  {
    if list != [] {
      var k := Keep(list[0], id);
      WithoutCounts(list[1..], id, x);
      assert list == [list[0]] + list[1..];
      assert multiset(list) == multiset([list[0]]) + multiset(list[1..]);
      assert multiset(Without(list, id)) == multiset(k) + multiset(Without(list[1..], id));
    }
  }

  /** Removing an id no entry carries leaves the list as it was. */
  lemma {:induction false} WithoutAbsent(list: seq<Id>, id: Option<Id>)
    requires id.None? || id.value !in list
    ensures Without(list, id) == list
  {
    if list != [] {
      WithoutAbsent(list[1..], id);
    }
  }

  /** Removing twice is removing once. */
  lemma WithoutIdempotent(list: seq<Id>, id: Option<Id>)
    ensures Without(Without(list, id), id) == Without(list, id)
  {
    WithoutMembers(list, id);
    WithoutAbsent(Without(list, id), id);
  }

  /** Removing by one id and then another gives the same list in either order. */
  lemma {:induction false} WithoutCommutes(list: seq<Id>, a: Option<Id>, b: Option<Id>)
    ensures Without(Without(list, a), b) == Without(Without(list, b), a)
  {
    if list != [] {
      var head, tail := list[0], list[1..];
      WithoutCommutes(tail, a, b);
      WithoutConcat(Keep(head, a), Without(tail, a), b);
      WithoutConcat(Keep(head, b), Without(tail, b), a);
      assert Without(Keep(head, a), b) == Without(Keep(head, b), a);
    }
  }

  /** Adding an entry and then removing that id is the same as removing it from the list before the add. */
  lemma AppendThenWithout(list: seq<Id>, x: Id)
    ensures Without(list + [x], Some(x)) == Without(list, Some(x))
    ensures x !in Without(list + [x], Some(x))
  {
    WithoutConcat(list, [x], Some(x));
    WithoutMembers(list + [x], Some(x));
  }

  /** The loaded relation as objects: every loaded entry is a record (never null). */
  function Entries(list: seq<Id>): (r: seq<Option<Id>>)
    ensures |r| == |list|
    ensures forall i :: 0 <= i < |list| ==> r[i] == Some(list[i])
  {
    if list == [] then [] else [Some(list[0])] + Entries(list[1..])
  }

  /**
   * What saving an owner writes for its relation: one entry per record in the
   * in-memory list. A null entry (a pushed lookup that found nothing) gives the
   * join table no row, so it leaves no trace.
   */
  function Saved(entries: seq<Option<Id>>): (r: seq<Id>)
    ensures |r| <= |entries|
  {
    if entries == [] then []
    else
      assert entries == [entries[0]] + entries[1..];
      (match entries[0] case Some(x) => [x] case None => []) + Saved(entries[1..])
  }

  lemma {:induction false} SavedConcat(a: seq<Option<Id>>, b: seq<Option<Id>>)
    ensures Saved(a + b) == Saved(a) + Saved(b)
  {
    if a == [] {
      assert a + b == b;
    } else {
      assert (a + b)[1..] == a[1..] + b;
      SavedConcat(a[1..], b);
    }
  }

  lemma {:induction false} SavedEntries(list: seq<Id>)
    ensures Saved(Entries(list)) == list
  {
    if list != [] {
      assert Entries(list)[1..] == Entries(list[1..]);
      SavedEntries(list[1..]);
    }
  }

  /**
   * `owner.list.push(found)` followed by a save: a found record is appended at the
   * end with no duplicate check, and a null push leaves the saved relation unchanged.
   */
  lemma PushThenSave(list: seq<Id>, found: Option<Id>)
    ensures Saved(Entries(list) + [found]) == if found.Some? then list + [found.value] else list
  {
    SavedConcat(Entries(list), [found]);
    SavedEntries(list);
    assert [found][1..] == [];
  }
}
