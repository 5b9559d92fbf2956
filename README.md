# MassiveRecord identity map, modelled in Dafny

MassiveRecord's ORM keeps an identity map per execution context. It makes
two finds of the same row return the same in-memory record object. The map
holds an enabled flag and a repository: base class -> id -> record. This
project models the map and proves its contracts:

- `enabled=`, `use` and `without` manage the flag (`use`/`without` save and
  restore it).
- `get`, `get_one` and `get_some` are lookups that respect the class
  hierarchy.
- `add`, `remove`, `remove_by_id` and `clear` update the repository.
- Hooks connect the map to the finder (`find_one`) and to the record
  lifecycle (`reload`, `destroy`/`delete`, `create`).

Layout, one module per component:

- `records.dfy` (`Records`): records, exceptions and outcomes. A record is a
  Dafny `class`, so "the same object" is reference equality. Ruby's `nil`
  record is `null`.
- `hierarchy.dfy` (`Hierarchy`): `base_class` and `descendants` as a given
  table, `ClassTable`. `RepositoryKey` picks the bucket. `Matches` is the class-membership
  test done on lookup.
- `repository.dfy` (`Repository`): the repository as a value
  `map<ClassName, map<Id, Record>>`, with the pure queries `GetOne`,
  `GetSome` and `Get`. Also the functions that specify the updates
  (`AddRecord`, `DeleteId`, `DeleteRecord`).
- `scope.dfy` (`Scope`): the stored flag (nil, or a boolean), Ruby
  truthiness, and `Scoped`, the save/set/run/restore discipline of
  `use`/`without`.
- `identity_map.dfy` (`IdentityMap`): `Context`, a class holding the flag
  and the repository. Its methods change them in place and are proved
  against the functions above.
- `lifecycle.dfy` (`FinderHooks`, `RecordHooks`): `find_one` and the
  record hooks. Each is a method on a `Context`, proved against a step
  function, with lemmas about that step function.

Calls to code the map cannot see are callbacks of type `State -> Step<T>`.
This covers the block given to `use`/`without` and the `super` calls (the
real finder, reload, destroy and create). A callback receives the flag and
the repository as they are when it is called. It returns its outcome (a
value, or a raised exception) and the flag and repository it leaves. This
lets the contracts state ordering, for example "the real reload starts from
a map with the record already evicted".

`enabled` and `enabled?` read `Context.flag`. `enabled?` is used as a
condition, which is `IsOn`.

## Notes on the code's behaviour

- Before the first `enabled=`, `enabled` returns `nil`, which is falsy
  (identity_map.rb:24-26). After `use` or `without` from that state the
  flag is `false`, because the saved `nil` is written back through
  `enabled=` (identity_map.rb:38).
- `get` with exactly one id returns one record or nil, not an array
  (identity_map.rb:60-61).
- The `create` hook wraps the persistence step that inserts a new row
  (identity_map.rb:149-153). Records built from a fetched row are cached
  by `find_one` instead (identity_map.rb:121).

## Model

| member | source | states |
|---|---|---|
| `Hierarchy.RepositoryKey` | lib/massive_record/orm/identity_map.rb:105-107 | in a well-formed class table, every descendant of a class resolves to the same repository key as the class |
| `Hierarchy.Matches` | lib/massive_record/orm/identity_map.rb:89 | a class always matches itself, and a class matches a request only if it is the requested class or one of its descendants |
| `Hierarchy.MatchesShareBucket` | lib/massive_record/orm/identity_map.rb:87-91 | in a well-formed hierarchy, a requested class and any class that may answer for it (itself or a descendant) resolve to the same base-class bucket |
| `Repository.AddRecord` | lib/massive_record/orm/identity_map.rb:67-71 | `add(nil)` leaves the repository unchanged; otherwise the slot (`base_class(record.class)`, `record.id`) holds exactly the record and every other slot is unchanged |
| `Repository.DeleteId` | lib/massive_record/orm/identity_map.rb:77-79 | after `remove_by_id(klass, id)` the slot (`base_class(klass)`, `id`) is empty and every other slot is unchanged |
| `Repository.DeleteRecord` | lib/massive_record/orm/identity_map.rb:73-75 | `remove(record)` empties the slot for the record's own class and id, leaves every other slot unchanged, and changes nothing when that slot was already empty |
| `Repository.GetOne` | lib/massive_record/orm/identity_map.rb:87-91 | a hit is the record stored at (`base_class(klass)`, `id`) whose class is `klass` or a descendant of it; a miss means the slot is empty or holds a record of a non-matching class (such as a sibling) |
| `Repository.GetSome` | lib/massive_record/orm/identity_map.rb:93-95 | the result is never longer than the ids; every element matches `klass` and is stored under one of the ids; it is exactly as long as the ids if and only if every id hits |
| `Repository.Get` | lib/massive_record/orm/identity_map.rb:54-65 | after flattening, zero ids raise ArgumentError("Must have at least one ID!") and only then; one id gives the single lookup (a record or nil); two or more give the multi-id lookup |
| `Repository.Flatten` | lib/massive_record/orm/identity_map.rb:55 | every plain id in the argument list survives flattening; an empty argument list flattens to no ids |
| `Repository.FlattenAppend` | lib/massive_record/orm/identity_map.rb:55 | flattening the argument list distributes over concatenation |
| `Repository.FlattenNested` | lib/massive_record/orm/identity_map.rb:55 | a nested array of ids flattens to exactly the ids it holds, so nesting never changes which ids `get` sees |
| `Repository.FlattenPlainIds` | lib/massive_record/orm/identity_map.rb:55 | a list of plain ids flattens to the same ids in the same order |
| `Repository.GetSomeAppend` | lib/massive_record/orm/identity_map.rb:93-95 | the multi-id lookup of `a + b` is that of `a` followed by that of `b`, so hits keep the order of the ids |
| `Repository.GetSomeOfOne` | lib/massive_record/orm/identity_map.rb:94 | for one id the multi-id lookup is the single lookup's hit, or empty on a miss |
| `Repository.GetSomeDropsMisses` | lib/massive_record/orm/identity_map.rb:93-95 | ids 1, 2, 3 with only 1 and 3 cached give exactly [record1, record3] |
| `Repository.GetOneHasRequestedId` | lib/massive_record/orm/identity_map.rb:88 | in a well-stored repository a hit carries the requested id |
| `Repository.AddKeepsWellStored` | lib/massive_record/orm/identity_map.rb:67-71 | `add` keeps every cached record at the slot of its own base class and id |
| `Repository.DeleteKeepsWellStored` | lib/massive_record/orm/identity_map.rb:77-79 | removal keeps every cached record at the slot of its own base class and id |
| `Repository.AddThenGetOne` | lib/massive_record/orm/identity_map.rb:67-71 | after `add(record)`, a lookup of its id by its own class or by any ancestor class returns that very object |
| `Repository.AddOverwrites` | lib/massive_record/orm/identity_map.rb:70 | a second `add` for the same slot replaces the first record: the result is as if only the second had been added |
| `Repository.DeleteIdIdempotent` | lib/massive_record/orm/identity_map.rb:77-79 | removing an absent slot leaves the repository exactly as it was, so removing twice equals removing once |
| `Repository.DeleteRecordEvicts` | lib/massive_record/orm/identity_map.rb:73-75 | in a well-stored repository, after `remove(record)` that object is in no slot at all |
| `Scope.IsOn` | lib/massive_record/orm/identity_map.rb:27 | `enabled?` used as a condition switches the map on exactly when the flag was set to true; nil and false leave it off |
| `Scope.AsValue` | lib/massive_record/orm/identity_map.rb:24-26 | `enabled` returns nil or a boolean, never another object; it is nil exactly when the flag was never set; its truthiness agrees with `enabled?` |
| `Scope.SetThenRead` | lib/massive_record/orm/identity_map.rb:20-26 | `enabled` is nil before the first `enabled=`, and after `enabled = v` it is the boolean `!!v` |
| `Scope.Coerce` | lib/massive_record/orm/identity_map.rb:20-22 | `enabled = v` stores a real boolean whose truth is the Ruby truthiness of `v` (`!!v`) |
| `Scope.CoerceReadBack` | lib/massive_record/orm/identity_map.rb:35-38 | writing back a saved flag keeps its truthiness and restores a boolean exactly; a saved nil comes back as false |
| `Scope.Scoped` | lib/massive_record/orm/identity_map.rb:34-50 | the block runs with the flag set to the scope's value; its outcome, raised or returned, and its repository changes pass through; afterwards the flag is the saved entry value, coerced |
| `Scope.ScopedKeepsRepository` | lib/massive_record/orm/identity_map.rb:34-50 | a scope whose block leaves the repository alone leaves it alone too, whether the block returns or raises |
| `Scope.NestedScopesRestore` | lib/massive_record/orm/identity_map.rb:34-50 | `use { without { body } }` runs the body with the map off and ends with the flag the outer scope found |
| `IdentityMap.Context.constructor` | lib/massive_record/orm/identity_map.rb:24-26 | a fresh context has the flag nil (the map is off) and an empty repository |
| `IdentityMap.Context.SetEnabled` | lib/massive_record/orm/identity_map.rb:20-22 | after `enabled = v` the flag is `!!v` and the repository is untouched |
| `IdentityMap.Context.Run` | lib/massive_record/orm/identity_map.rb:36 | control passes to code outside the map (a block or a `super` call): the outcome and the new flag and repository are exactly what that code produces from the old state |
| `IdentityMap.Context.Use` | lib/massive_record/orm/identity_map.rb:34-39 | the new flag, repository and outcome are those of `Scoped(true, ...)` from the old state |
| `IdentityMap.Context.Without` | lib/massive_record/orm/identity_map.rb:45-50 | the new flag, repository and outcome are those of `Scoped(false, ...)` from the old state |
| `IdentityMap.Context.Add` | lib/massive_record/orm/identity_map.rb:67-71 | returns its argument; the repository becomes `AddRecord` of the old one; the storage invariant is preserved |
| `IdentityMap.Context.RemoveById` | lib/massive_record/orm/identity_map.rb:77-79 | returns what the slot held; the repository becomes `DeleteId` of the old one; the storage invariant is preserved |
| `IdentityMap.Context.Remove` | lib/massive_record/orm/identity_map.rb:73-75 | the repository becomes `DeleteRecord` of the old one; under the storage invariant the record is left in no slot |
| `IdentityMap.Context.Clear` | lib/massive_record/orm/identity_map.rb:81 | the repository becomes empty |
| `FinderHooks.CanUseIdentityMapWith` | lib/massive_record/orm/identity_map.rb:126-128 | a lookup without options is eligible for the map; one with `:select` is not |
| `FinderHooks.FindOneStep` | lib/massive_record/orm/identity_map.rb:118-122 | `find_one` answers either with the finder's outcome or with a cached hit that leaves the state unchanged; when the finder raises, the exception and the finder's state pass through with nothing added |
| `FinderHooks.OnlySelectDisqualifies` | lib/massive_record/orm/identity_map.rb:126-128 | an option hash with `:select` is never eligible for the map; any other key leaves eligibility unchanged |
| `FinderHooks.FindOne` | lib/massive_record/orm/identity_map.rb:118-122 | outcome and new state are `FindOneStep` of the old state |
| `FinderHooks.BypassDelegates` | lib/massive_record/orm/identity_map.rb:119 | with the map off, or with `:select` given, `find_one` is exactly the real finder |
| `FinderHooks.HitIgnoresFinder` | lib/massive_record/orm/identity_map.rb:121 | on a hit the cached object is returned, the state is unchanged, and the result is the same whatever the finder would have done |
| `FinderHooks.MissCachesFinderResult` | lib/massive_record/orm/identity_map.rb:121 | on a miss the finder's outcome and flag are returned; when it returns, the repository is the finder's with `add` of its result applied (nil adds nothing, a record changes only its own slot); if it raises, nothing is added |
| `FinderHooks.FindTwiceSameObject` | lib/massive_record/orm/identity_map.rb:5-6 | once `find_one` has produced a record of the requested class and id and the map stays on, finding again returns the same object and leaves the state unchanged, whatever the finder |
| `RecordHooks.ReloadView` | lib/massive_record/orm/identity_map.rb:134-137 | the real reload starts with the flag unchanged and every slot other than the record's unchanged; with the map on, the record's slot misses for every class in its bucket; with the map off, or with the slot already empty, the state is unchanged |
| `RecordHooks.Reload` | lib/massive_record/orm/identity_map.rb:134-137 | outcome and new state are those of the real reload run from `ReloadView` of the old state |
| `RecordHooks.ReloadSeesNoStaleRecord` | lib/massive_record/orm/identity_map.rb:135 | with the map on and the storage invariant holding, the real reload finds the record in no slot |
| `RecordHooks.DestroyStep` | lib/massive_record/orm/identity_map.rb:139-143 | `destroy` returns or raises exactly as the real destroy does, keeps the flag it left, and changes no slot other than the record's own |
| `RecordHooks.Destroy` | lib/massive_record/orm/identity_map.rb:139-144 | outcome and new state are `DestroyStep` of the old state |
| `RecordHooks.DestroyFailureKeepsEntry` | lib/massive_record/orm/identity_map.rb:140-142 | when the real destroy raises, or the map is off, the hook changes nothing beyond what the real destroy did |
| `RecordHooks.DestroySuccessEvicts` | lib/massive_record/orm/identity_map.rb:142 | after a successful destroy with the map on, the outcome is the real one, the record's slot is empty and the record misses; under the storage invariant it is in no slot |
| `RecordHooks.CreateStep` | lib/massive_record/orm/identity_map.rb:149-153 | `create` returns or raises exactly as the real create does, keeps the flag it left, and changes no slot other than the record's own |
| `RecordHooks.Create` | lib/massive_record/orm/identity_map.rb:149-153 | outcome and new state are `CreateStep` of the old state |
| `RecordHooks.CreateCaches` | lib/massive_record/orm/identity_map.rb:152 | after a successful create with the map on, a lookup of the record's id by its class or any ancestor returns that object |
| `RecordHooks.CreateFailureAddsNothing` | lib/massive_record/orm/identity_map.rb:150-152 | when the real create raises, or the map is off, the hook changes nothing beyond what the real create did |

## Left out

- Thread-local storage: the flag and the repository belong to one explicit `Context`, not to `Thread.current`. Isolation between threads is a property of the runtime and is not modelled.
- Lazily created empty buckets: a missing bucket reads as an empty one, and removal from a missing bucket does not create it. No operation can tell these apart.
- Ruby reflection: `base_class` and `descendants` are a given table (`ClassTable`). `WellFormed` states the one fact about that table that the proofs use: a subclass shares its ancestor's base class.
- `ActiveSupport::Concern`, `delegate :clear` and `alias_method :delete, :destroy` are framework wiring. `delete` is the same operation as `RecordHooks.Destroy`.
- The bodies of the `super` calls (finder, reload, destroy, create) and the block given to `use`/`without` are opaque callbacks. They can return, raise, or change the flag and the repository.
- Finder options are reduced to the set of their keys. Only the presence of `:select` matters.
- A value given to `enabled=` is reduced to nil, a boolean, or some other (truthy) object.
- Record ids are fixed at construction. The model does not follow a record whose id changes while it is cached.
- IdentityMap.Context.Remove: takes a non-nil record. In Ruby, `remove(nil)` fails with NoMethodError before it reaches the map.
