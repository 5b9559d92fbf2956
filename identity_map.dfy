/**
 * The identity map of one execution context: the enabled flag and the
 * repository, with the operations that change them in place.
 */
module IdentityMap {
  import opened Records
  import opened Hierarchy
  import opened Repository
  import opened Scope

  class Context {
    /** The class table the framework declares: base classes and descendants. */
    const hierarchy: ClassTable
    /** The enabled flag (`enabled` reads it, `enabled?` reads it as a condition). */
    var flag: Flag
    /** Base class -> id -> record. */
    var repo: Repo

    /** The flag and the repository as one value, as callbacks see them. */
    function Snapshot(): State
      reads this
    {
      State(flag, repo)
    }

    /** Every cached record sits at the slot of its own class and id. */
    ghost predicate Valid()
      reads this
    {
      WellStored(hierarchy, repo)
    }

    /** A fresh context: the flag is nil (so the map is off) and nothing is cached. */
    constructor (hierarchy: ClassTable)
      ensures this.hierarchy == hierarchy
      ensures flag == Unset && !IsOn(flag)
      ensures repo == map[] && Valid()
    {
      this.hierarchy := hierarchy;
      flag := Unset;
      repo := map[];
    }

    /** `enabled = value`: stores the boolean coercion of `value`. */
    method SetEnabled(value: Value)
      modifies this`flag
      ensures flag == Coerce(value)
    {
      flag := Coerce(value);
    }

    /** Hands control to code outside the map, which may change the flag and the repository. */
    method Run<T>(action: State -> Step<T>) returns (r: Outcome<T>)
      modifies this`flag, this`repo
      ensures Step(r, Snapshot()) == action(old(Snapshot()))
    {
      var step := action(Snapshot());
      flag, repo := step.state.flag, step.state.repo;
      r := step.outcome;
    }

    /** `use { body }`: runs the body with the map on, then restores the saved flag. */
    method Use<T>(body: State -> Step<T>) returns (r: Outcome<T>)
      modifies this`flag, this`repo
      ensures Step(r, Snapshot()) == Scoped(true, old(Snapshot()), body)
    {
      var original := flag;
      SetEnabled(Boolean(true));
      r := Run(body);
      SetEnabled(AsValue(original));
    }

    /** `without { body }`: runs the body with the map off, then restores the saved flag. */
    method Without<T>(body: State -> Step<T>) returns (r: Outcome<T>)
      modifies this`flag, this`repo
      ensures Step(r, Snapshot()) == Scoped(false, old(Snapshot()), body)
    {
      var original := flag;
      SetEnabled(Boolean(false));
      r := Run(body);
      SetEnabled(AsValue(original));
    }

    /** `add(record)`: caches the record at its slot (nil is ignored) and returns it. */
    method Add(record: Record?) returns (r: Record?)
      modifies this`repo
      ensures r == record
      ensures repo == AddRecord(hierarchy, old(repo), record)
      ensures old(Valid()) ==> Valid()
    {
      if record == null {
        return null;
      }
      var key := RepositoryKey(hierarchy, record.klass);
      var bucket := BucketAt(repo, key);
      repo := repo[key := bucket[record.id := record]];
      r := record;
      if old(Valid()) {
        AddKeepsWellStored(hierarchy, old(repo), record);
      }
    }

    /** `remove_by_id(klass, id)`: empties that slot and returns what it held. */
    method RemoveById(klass: ClassName, id: Id) returns (removed: Record?)
      modifies this`repo
      ensures removed == Lookup(old(repo), RepositoryKey(hierarchy, klass), id)
      ensures repo == DeleteId(hierarchy, old(repo), klass, id)
      ensures old(Valid()) ==> Valid()
    {
      var key := RepositoryKey(hierarchy, klass);
      removed := Lookup(repo, key, id);
      if key in repo {
        repo := repo[key := repo[key] - {id}];
      }
      if old(Valid()) {
        DeleteKeepsWellStored(hierarchy, old(repo), klass, id);
      }
    }

    /** `remove(record)`: removal by the record's own class and id. */
    method Remove(record: Record) returns (removed: Record?)
      modifies this`repo
      ensures removed == Lookup(old(repo), RepositoryKey(hierarchy, record.klass), record.id)
      ensures repo == DeleteRecord(hierarchy, old(repo), record)
      ensures old(Valid()) ==> Valid()
      ensures old(Valid()) ==> forall k, i :: Lookup(repo, k, i) != record
    {
      removed := RemoveById(record.klass, record.id);
      if old(Valid()) {
        DeleteRecordEvicts(hierarchy, old(repo), record);
      }
    }

    /** `clear`: forgets every cached record. */
    method Clear()
      modifies this`repo
      ensures repo == map[] && Valid()
    {
      repo := map[];
    }
  }
}
