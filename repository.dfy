/**
 * The repository of cached records (base class -> id -> record) and the
 * side-effect-free queries over it: single lookup, multi-id lookup and the
 * `get` entry point that dispatches on the number of ids.
 *
 * A bucket that is missing reads as an empty bucket, so the lazily created
 * empty buckets of the implementation are never observable.
 */
module Repository {
  import opened Records
  import opened Hierarchy

  type Bucket = map<Id, Record>
  type Repo = map<ClassName, Bucket>

  /** The bucket for `key`; a key never written reads as an empty bucket. */
  function BucketAt(repo: Repo, key: ClassName): Bucket
  {
    if key in repo then repo[key] else map[]
  }

  /** The record at slot (`key`, `id`), or null when the slot is empty. */
  function Lookup(repo: Repo, key: ClassName, id: Id): Record?
  {
    var bucket := BucketAt(repo, key);
    if id in bucket then bucket[id] else null
  }

  /** Every stored record sits at the slot its own class and id point to. */
  ghost predicate WellStored(h: ClassTable, repo: Repo)
  {
    forall key, id :: Lookup(repo, key, id) != null ==>
      Lookup(repo, key, id).id == id && RepositoryKey(h, Lookup(repo, key, id).klass) == key
  }

  // ---------------------------------------------------------------------
  // Slot updates

  /** Writes `record` into slot (`key`, `id`), creating the bucket if needed. */
  function Put(repo: Repo, key: ClassName, id: Id, record: Record): (out: Repo)
    ensures Lookup(out, key, id) == record
    ensures forall k, i :: (k != key || i != id) ==> Lookup(out, k, i) == Lookup(repo, k, i)
  {
    repo[key := BucketAt(repo, key)[id := record]]
  }

  /** Empties slot (`key`, `id`); an empty slot is left as it is. */
  function Delete(repo: Repo, key: ClassName, id: Id): (out: Repo)
    ensures Lookup(out, key, id) == null
    ensures forall k, i :: (k != key || i != id) ==> Lookup(out, k, i) == Lookup(repo, k, i)
    ensures Lookup(repo, key, id) == null ==> out == repo
  {
    if key in repo then
      var bucket := repo[key] - {id};
      assert id !in repo[key] ==> bucket == repo[key];
      repo[key := bucket]
    else
      repo
  }

  /** The repository after `add(record)`: nothing for nil, else the record at its own slot. */
  function AddRecord(h: ClassTable, repo: Repo, record: Record?): (out: Repo)
    ensures record == null ==> out == repo
    ensures record != null ==> Lookup(out, RepositoryKey(h, record.klass), record.id) == record
    ensures record != null ==> forall k, i :: (k != RepositoryKey(h, record.klass) || i != record.id) ==>
      Lookup(out, k, i) == Lookup(repo, k, i)
  {
    if record == null then repo else Put(repo, RepositoryKey(h, record.klass), record.id, record)
  }

  /** The repository after `remove_by_id(klass, id)`. */
  function DeleteId(h: ClassTable, repo: Repo, klass: ClassName, id: Id): (out: Repo)
    ensures Lookup(out, RepositoryKey(h, klass), id) == null
    ensures forall k, i :: (k != RepositoryKey(h, klass) || i != id) ==> Lookup(out, k, i) == Lookup(repo, k, i)
  {
    Delete(repo, RepositoryKey(h, klass), id)
  }

  /** The repository after `remove(record)`, which removes by the record's class and id. */
  function DeleteRecord(h: ClassTable, repo: Repo, record: Record): (out: Repo)
    ensures Lookup(out, RepositoryKey(h, record.klass), record.id) == null
    ensures forall k, i :: (k != RepositoryKey(h, record.klass) || i != record.id) ==>
      Lookup(out, k, i) == Lookup(repo, k, i)
    ensures Lookup(repo, RepositoryKey(h, record.klass), record.id) == null ==> out == repo
  {
    DeleteId(h, repo, record.klass, record.id)
  }

  // ---------------------------------------------------------------------
  // Queries

  /**
   * `get_one`: the record cached under (`base_class(klass)`, `id`), but only
   * when its class is `klass` or one of its descendants; otherwise a miss.
   */
  function GetOne(h: ClassTable, repo: Repo, klass: ClassName, id: Id): (r: Record?)
    ensures r != null ==> r == Lookup(repo, RepositoryKey(h, klass), id) && Matches(h, klass, r.klass)
    ensures r == null ==>
      Lookup(repo, RepositoryKey(h, klass), id) == null ||
      !Matches(h, klass, Lookup(repo, RepositoryKey(h, klass), id).klass)
  {
    var record := Lookup(repo, RepositoryKey(h, klass), id);
    if record != null && Matches(h, klass, record.klass) then record else null
  }

  /**
   * `get_some`: the hits of `get_one` over `ids`, in the order of `ids`,
   * with the misses dropped.
   */
  function GetSome(h: ClassTable, repo: Repo, klass: ClassName, ids: seq<Id>): (r: seq<Record>)
    ensures |r| <= |ids|
    ensures forall j :: 0 <= j < |r| ==>
      Matches(h, klass, r[j].klass) &&
      exists i :: 0 <= i < |ids| && r[j] == Lookup(repo, RepositoryKey(h, klass), ids[i])
    ensures |r| == |ids| <==> forall i :: 0 <= i < |ids| ==> GetOne(h, repo, klass, ids[i]) != null
  {
    if ids == [] then []
    else
      var rest := GetSome(h, repo, klass, ids[1..]);
      var hit := GetOne(h, repo, klass, ids[0]);
      assert forall i :: 1 <= i < |ids| ==> ids[i] == ids[1..][i - 1];
      if hit == null then rest else [hit] + rest
  }

  /** An argument of `get`: an id, or a (possibly nested) array of them. */
  datatype IdArg = One(id: Id) | Many(items: seq<IdArg>)

  /** Ruby's `flatten!` on the argument list of `get`. */
  function Flatten(args: seq<IdArg>): (ids: seq<Id>)
    ensures forall j :: 0 <= j < |args| && args[j].One? ==> args[j].id in ids
    ensures args == [] ==> ids == []
  {
    if args == [] then []
    else
      var head := match args[0]
        case One(id) => [id]
        case Many(items) => Flatten(items);
      head + Flatten(args[1..])
  }

  /** What `get` hands back: one record or nil, or an array of records. */
  datatype Found = Single(record: Record?) | Several(records: seq<Record>)

  const NO_IDS := ArgumentError("Must have at least one ID!")

  /** `get(klass, *ids)`: rejects an empty id list, else one lookup or a multi-id lookup. */
  function Get(h: ClassTable, repo: Repo, klass: ClassName, args: seq<IdArg>): (r: Outcome<Found>)
    ensures r.Raised? <==> Flatten(args) == []
    ensures r.Raised? ==> r.error == NO_IDS
    ensures r.Returned? && r.value.Single? ==>
      |Flatten(args)| == 1 && r.value.record == GetOne(h, repo, klass, Flatten(args)[0])
    ensures r.Returned? && r.value.Several? ==>
      |Flatten(args)| >= 2 && r.value.records == GetSome(h, repo, klass, Flatten(args))
    ensures |Flatten(args)| == 1 ==> r.Returned? && r.value.Single?
  {
    var ids := Flatten(args);
    if |ids| == 0 then Raised(NO_IDS)
    else if |ids| == 1 then Returned(Single(GetOne(h, repo, klass, ids[0])))
    else Returned(Several(GetSome(h, repo, klass, ids)))
  }

  // ---------------------------------------------------------------------
  // Properties of the queries

  /** Flattening distributes over concatenation of argument lists. */
  lemma {:induction false} FlattenAppend(a: seq<IdArg>, b: seq<IdArg>)
    ensures Flatten(a + b) == Flatten(a) + Flatten(b)
  {
    if a != [] {
      assert (a + b)[0] == a[0];
      assert (a + b)[1..] == a[1..] + b;
      FlattenAppend(a[1..], b);
    } else {
      assert a + b == b;
    }
  }

  /** A nested array flattens to the ids it holds, however deeply nested. */
  lemma FlattenNested(items: seq<IdArg>)
    ensures Flatten([Many(items)]) == Flatten(items)
  {
    assert [Many(items)][1..] == [];
  }

  /** A list of plain ids flattens to itself. */
  lemma {:induction false} FlattenPlainIds(args: seq<IdArg>)
    requires forall j :: 0 <= j < |args| ==> args[j].One?
    ensures |Flatten(args)| == |args|
    ensures forall j :: 0 <= j < |args| ==> Flatten(args)[j] == args[j].id
  {
    if args != [] {
      FlattenPlainIds(args[1..]);
    }
  }

  /** Multi-id lookup runs id by id: the result for `a + b` is that for `a`, then that for `b`. */
  lemma {:induction false} GetSomeAppend(h: ClassTable, repo: Repo, klass: ClassName, a: seq<Id>, b: seq<Id>)
    ensures GetSome(h, repo, klass, a + b) == GetSome(h, repo, klass, a) + GetSome(h, repo, klass, b)
  {
    if a != [] {
      assert (a + b)[0] == a[0];
      assert (a + b)[1..] == a[1..] + b;
      GetSomeAppend(h, repo, klass, a[1..], b);
    } else {
      assert a + b == b;
    }
  }

  /** For one id, multi-id lookup is the single lookup with a miss dropped. */
  lemma GetSomeOfOne(h: ClassTable, repo: Repo, klass: ClassName, id: Id)
    ensures GetSome(h, repo, klass, [id]) ==
      if GetOne(h, repo, klass, id) == null then [] else [GetOne(h, repo, klass, id)]
  {
  }

  /** Misses are dropped and hits keep their order: hits at 1 and 3, a miss at 2. */
  lemma GetSomeDropsMisses(h: ClassTable, repo: Repo, klass: ClassName, id1: Id, id2: Id, id3: Id)
    requires GetOne(h, repo, klass, id1) != null && GetOne(h, repo, klass, id3) != null
    requires GetOne(h, repo, klass, id2) == null
    ensures GetSome(h, repo, klass, [id1, id2, id3]) ==
      [GetOne(h, repo, klass, id1), GetOne(h, repo, klass, id3)]
  {
    GetSomeAppend(h, repo, klass, [id1], [id2, id3]);
    GetSomeAppend(h, repo, klass, [id2], [id3]);
  }

  /** In a well-stored repository a hit carries the requested id. */
  lemma GetOneHasRequestedId(h: ClassTable, repo: Repo, klass: ClassName, id: Id)
    requires WellStored(h, repo) && GetOne(h, repo, klass, id) != null
    ensures GetOne(h, repo, klass, id).id == id
  {
  }

  // ---------------------------------------------------------------------
  // Properties of add and remove

  /** `add` keeps every record at the slot of its own class and id. */
  lemma AddKeepsWellStored(h: ClassTable, repo: Repo, record: Record?)
    requires WellStored(h, repo)
    ensures WellStored(h, AddRecord(h, repo, record))
  {
  }

  /** Removal keeps every record at the slot of its own class and id. */
  lemma DeleteKeepsWellStored(h: ClassTable, repo: Repo, klass: ClassName, id: Id)
    requires WellStored(h, repo)
    ensures WellStored(h, DeleteId(h, repo, klass, id))
  {
  }

  /**
   * After `add(record)`, looking the id up by the record's own class, or by
   * any class it descends from, returns that very object.
   */
  lemma AddThenGetOne(h: ClassTable, repo: Repo, record: Record, klass: ClassName)
    requires WellFormed(h) && Matches(h, klass, record.klass)
    ensures GetOne(h, AddRecord(h, repo, record), klass, record.id) == record
  {
    MatchesShareBucket(h, klass, record.klass);
  }

  /** A later `add` for the same slot replaces the earlier record outright. */
  lemma AddOverwrites(h: ClassTable, repo: Repo, first: Record, second: Record)
    requires RepositoryKey(h, first.klass) == RepositoryKey(h, second.klass) && first.id == second.id
    ensures AddRecord(h, AddRecord(h, repo, first), second) == AddRecord(h, repo, second)
  {
    var key := RepositoryKey(h, first.klass);
    assert BucketAt(repo, key)[first.id := first][second.id := second] == BucketAt(repo, key)[second.id := second];
  }

  /** Removing from an empty slot changes nothing, and so removing twice is removing once. */
  lemma DeleteIdIdempotent(h: ClassTable, repo: Repo, klass: ClassName, id: Id)
    ensures Lookup(repo, RepositoryKey(h, klass), id) == null ==> DeleteId(h, repo, klass, id) == repo
    ensures DeleteId(h, DeleteId(h, repo, klass, id), klass, id) == DeleteId(h, repo, klass, id)
  {
  }

  /** In a well-stored repository, `remove(record)` leaves that object in no slot at all. */
  lemma DeleteRecordEvicts(h: ClassTable, repo: Repo, record: Record)
    requires WellStored(h, repo)
    ensures forall k, i :: Lookup(DeleteRecord(h, repo, record), k, i) != record
  {
  }
}
