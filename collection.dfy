/** The application root (src/App.tsx): the in-memory list of capsules,
    newest first, and its copy under the "capsules" key of local storage.
    Every mutation builds the new list, makes it the current list and writes
    it to storage. JSON serialisation is not modelled: the stored value is
    either absent, the empty string, a serialised list, or text that does not
    parse. */
module Collection {
  import opened Types

  /** What `localStorage.getItem("capsules")` can hold. */
  datatype Stored = Absent | EmptyText | Serialized(items: seq<Capsule>) | Corrupt

  /** `capsules.map(c => c.id === u.id ? u : c)`: same length, same
      positions, every entry carrying `u`'s id replaced by `u`, every other
      entry untouched. */
  function Updated(s: seq<Capsule>, u: Capsule): (r: seq<Capsule>)
    ensures |r| == |s|
    ensures forall i :: 0 <= i < |s| ==> r[i] == (if s[i].id == u.id then u else s[i])
  {
    if s == [] then [] else [if s[0].id == u.id then u else s[0]] + Updated(s[1..], u)
  }

  /** An update keeps the sequence of ids; with an id nobody carries it
      changes nothing; applying it twice is applying it once. */
  lemma UpdatedProperties(s: seq<Capsule>, u: Capsule)
    ensures forall i :: 0 <= i < |s| ==> Updated(s, u)[i].id == s[i].id
    ensures (forall i :: 0 <= i < |s| ==> s[i].id != u.id) ==> Updated(s, u) == s
    ensures Updated(Updated(s, u), u) == Updated(s, u)
  {
  }

  /** `capsules.filter(c => c.id !== id)`. */
  function WithoutId(s: seq<Capsule>, id: string): seq<Capsule> {
    if s == [] then []
    else if s[0].id == id then WithoutId(s[1..], id)
    else [s[0]] + WithoutId(s[1..], id)
  }

  /** What the filter keeps: each capsule whose id differs keeps all its
      occurrences, each capsule with that id loses all of them, so no entry
      with that id is left. */
  lemma {:induction false} WithoutIdContents(s: seq<Capsule>, id: string)
    ensures forall c :: multiset(WithoutId(s, id))[c] == if c.id == id then 0 else multiset(s)[c]
    ensures forall i :: 0 <= i < |WithoutId(s, id)| ==> WithoutId(s, id)[i].id != id
  {
    if s != [] {
      WithoutIdContents(s[1..], id);
      assert s == [s[0]] + s[1..];
      var r := WithoutId(s, id);
      assert forall i :: 0 <= i < |r| ==> r[i] in multiset(r);
    }
  }

  /** Filtering distributes over concatenation: the surviving entries keep
      their original relative order. */
  lemma {:induction false} WithoutIdConcat(a: seq<Capsule>, b: seq<Capsule>, id: string)
    ensures WithoutId(a + b, id) == WithoutId(a, id) + WithoutId(b, id)
  {
    if a == [] {
      assert a + b == b;
    } else {
      assert (a + b)[0] == a[0] && (a + b)[1..] == a[1..] + b;
      WithoutIdConcat(a[1..], b, id);
    }
  }

  /** Deleting an id nobody carries leaves the list as it is. */
  lemma {:induction false} WithoutAbsentId(s: seq<Capsule>, id: string)
    requires forall i :: 0 <= i < |s| ==> s[i].id != id
    ensures WithoutId(s, id) == s
  {
    if s != [] {
      WithoutAbsentId(s[1..], id);
    }
  }

  /** Deleting twice is deleting once. */
  lemma WithoutIdIdempotent(s: seq<Capsule>, id: string)
    ensures WithoutId(WithoutId(s, id), id) == WithoutId(s, id)
  {

  }

  /** A delete never lengthens the list, and keeps its length exactly when
      no entry carries the id. */
  lemma {:induction false} WithoutIdLength(s: seq<Capsule>, id: string)
    ensures |WithoutId(s, id)| <= |s|
    ensures |WithoutId(s, id)| == |s| <==> forall i :: 0 <= i < |s| ==> s[i].id != id
  {
    if s != [] {
      WithoutIdLength(s[1..], id);
      if s[0].id != id {
        assert WithoutId(s, id) == [s[0]] + WithoutId(s[1..], id);
      }
      assert forall i :: 1 <= i < |s| ==> s[i] == s[1..][i - 1];
    }
  }

  /** The root component's state: the current list and the storage slot. */
  class CapsuleStore {
    var capsules: seq<Capsule>
    var storage: Stored

    /** Storage holds exactly the current list. */
    ghost predicate Persisted()
      reads this
    {
      storage == Serialized(capsules)
    }

    /** `useState<Capsule[]>([])`, over whatever storage already holds. */
    constructor (stored: Stored)
      ensures capsules == [] && storage == stored
    {
      capsules := [];
      storage := stored;
    }

    /** `saveToStorage`: the stored value becomes the given list, whole. */
    method SaveToStorage(capsulesToSave: seq<Capsule>)
      modifies this`storage
      ensures storage == Serialized(capsulesToSave)
    {
      storage := Serialized(capsulesToSave);
    }

    /** `loadFromStorage`: an absent or empty stored value leaves the list
        alone; text that does not parse empties it; a stored list becomes the
        list. Storage itself is only read. */
    method LoadFromStorage()
      modifies this`capsules
      ensures storage.Absent? || storage.EmptyText? ==> capsules == old(capsules)
      ensures storage.Corrupt? ==> capsules == []
      ensures storage.Serialized? ==> capsules == storage.items
    {
      match storage
      case Absent =>
      case EmptyText =>
      case Corrupt =>
        capsules := [];
      case Serialized(items) =>
        capsules := items;
    }

    /** `handleAddCapsule`: the new capsule goes first, every old entry
        follows in its old order, and storage is rewritten. */
    method HandleAddCapsule(newCapsule: Capsule)
      modifies this
      ensures capsules == [newCapsule] + old(capsules)
      ensures |capsules| == |old(capsules)| + 1 && capsules[0] == newCapsule
      ensures Persisted()
    {
      var updatedCapsules := [newCapsule] + capsules;
      capsules := updatedCapsules;
      SaveToStorage(updatedCapsules);
    }

    /** `handleUpdateCapsule`: same length and positions, entries with the
        argument's id replaced by it, storage rewritten (also when no entry
        matched). */
    method HandleUpdateCapsule(updatedCapsule: Capsule)
      modifies this
      ensures capsules == Updated(old(capsules), updatedCapsule)
      ensures Persisted()
    {
      var updatedCapsules := Updated(capsules, updatedCapsule);
      capsules := updatedCapsules;
      SaveToStorage(updatedCapsules);
    }

    /** `handleDeleteCapsule`: every entry with the id removed, the others in
        their old order, storage rewritten. */
    method HandleDeleteCapsule(id: string)
      modifies this
      ensures capsules == WithoutId(old(capsules), id)
      ensures forall i :: 0 <= i < |capsules| ==> capsules[i].id != id
      ensures Persisted()
    {
      var updatedCapsules := WithoutId(capsules, id);
      capsules := updatedCapsules;
      SaveToStorage(updatedCapsules);
      WithoutIdContents(old(capsules), id);
    }
  }

  /** Two capsules added one after the other come out newest first; deleting
      the older leaves the newer alone; a reload then gives the same list. */
  method AddAddDeleteReload(a: Capsule, b: Capsule)
    requires a.id != b.id
  {
    var store := new CapsuleStore(Absent);
    store.LoadFromStorage();
    assert store.capsules == [];
    store.HandleAddCapsule(a);
    store.HandleAddCapsule(b);
    assert store.capsules == [b, a];
    store.HandleDeleteCapsule(a.id);
    WithoutIdConcat([b], [a], a.id);
    assert store.capsules == [b];
    store.LoadFromStorage();
    assert store.capsules == [b];
  }
}
