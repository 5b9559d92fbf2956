/**
 * The finder hook mixed into model classes: a lookup by id is answered
 * from the identity map when it is on and the lookup is eligible, and the
 * finder's result is cached on a miss.
 */
module FinderHooks {
  import opened Records
  import opened Hierarchy
  import opened Repository
  import opened Scope
  import opened IdentityMap

  /** The keys of a finder's option hash (`:select` is written "select"). */
  type OptionKeys = set<string>

  /** `can_use_identity_map_with?`: a lookup that selects only some columns bypasses the map. */
  predicate CanUseIdentityMapWith(options: OptionKeys): (ok: bool)
    ensures options == {} ==> ok
    ensures "select" in options ==> !ok
  {
    "select" !in options
  }

  /** Only `:select` disqualifies: any other option leaves eligibility as it was. */
  lemma OnlySelectDisqualifies(options: OptionKeys, key: string)
    ensures !CanUseIdentityMapWith(options + {"select"})
    ensures key != "select" ==> CanUseIdentityMapWith(options + {key}) == CanUseIdentityMapWith(options)
  {
  }

  /**
   * What `find_one(id, options)` on class `klass` does to state `s`, given
   * the real finder `finder` (the `super` call): a bypass delegates; a hit
   * answers from the map; a miss asks the finder and caches what it returns.
   */
  function FindOneStep(h: ClassTable, s: State, klass: ClassName, id: Id, options: OptionKeys,
                       finder: State -> Step<Record?>): (r: Step<Record?>)
    ensures r.outcome == finder(s).outcome ||
      (r == Step(Returned(GetOne(h, s.repo, klass, id)), s) && GetOne(h, s.repo, klass, id) != null)
    ensures finder(s).outcome.Raised? && r.outcome == finder(s).outcome ==> r == finder(s)
  {
    if !(IsOn(s.flag) && CanUseIdentityMapWith(options)) then
      finder(s)
    else if GetOne(h, s.repo, klass, id) != null then
      Step(Returned(GetOne(h, s.repo, klass, id)), s)
    else
      var fetched := finder(s);
      match fetched.outcome
      case Raised(_) => fetched
      case Returned(record) =>
        Step(Returned(record), State(fetched.state.flag, AddRecord(h, fetched.state.repo, record)))
  }

  /** `find_one`, as mixed into the model class `klass`. */
  method FindOne(ctx: Context, klass: ClassName, id: Id, options: OptionKeys,
                 finder: State -> Step<Record?>) returns (r: Outcome<Record?>)
    modifies ctx
    ensures Step(r, ctx.Snapshot()) == FindOneStep(ctx.hierarchy, old(ctx.Snapshot()), klass, id, options, finder)
  {
    if !(IsOn(ctx.flag) && CanUseIdentityMapWith(options)) {
      r := ctx.Run(finder);
      return;
    }
    var got := Get(ctx.hierarchy, ctx.repo, klass, [One(id)]);
    assert Flatten([One(id)]) == [id];
    var cached := if got.Returned? && got.value.Single? then got.value.record else null;
    if cached != null {
      return Returned(cached);
    }
    r := ctx.Run(finder);
    if r.Returned? {
      var added := ctx.Add(r.value);
      r := Returned(added);
    }
  }

  /** With the map off, or with `:select` given, the lookup is exactly the real finder's. */
  lemma BypassDelegates(h: ClassTable, s: State, klass: ClassName, id: Id, options: OptionKeys,
                        finder: State -> Step<Record?>)
    requires !IsOn(s.flag) || "select" in options
    ensures FindOneStep(h, s, klass, id, options, finder) == finder(s)
  {
  }

  /** On a hit the cached object comes back, the state is untouched and the finder plays no part. */
  lemma HitIgnoresFinder(h: ClassTable, s: State, klass: ClassName, id: Id, options: OptionKeys,
                         finder: State -> Step<Record?>, other: State -> Step<Record?>)
    requires IsOn(s.flag) && CanUseIdentityMapWith(options)
    requires GetOne(h, s.repo, klass, id) != null
    ensures FindOneStep(h, s, klass, id, options, finder) == FindOneStep(h, s, klass, id, options, other)
    ensures FindOneStep(h, s, klass, id, options, finder) == Step(Returned(GetOne(h, s.repo, klass, id)), s)
  {
  }

  /**
   * On a miss the finder's answer is returned; a record it returns is cached
   * at its own slot, and when the finder raises nothing is added.
   */
  lemma MissCachesFinderResult(h: ClassTable, s: State, klass: ClassName, id: Id, options: OptionKeys,
                               finder: State -> Step<Record?>)
    requires IsOn(s.flag) && CanUseIdentityMapWith(options)
    requires GetOne(h, s.repo, klass, id) == null
    ensures var r := FindOneStep(h, s, klass, id, options, finder);
      && r.outcome == finder(s).outcome
      && r.state.flag == finder(s).state.flag
      && (finder(s).outcome.Raised? ==> r == finder(s))
      && (finder(s).outcome.Returned? ==>
            r.state.repo == AddRecord(h, finder(s).state.repo, finder(s).outcome.value))
      && (finder(s).outcome.Returned? && finder(s).outcome.value != null ==>
            Lookup(r.state.repo, RepositoryKey(h, finder(s).outcome.value.klass), finder(s).outcome.value.id)
              == finder(s).outcome.value)
  {
  }

  /**
   * The point of the identity map: once `find_one` has produced a record of
   * the requested class and id while the map stays on, finding it again
   * yields the same object without asking the finder.
   */
  lemma FindTwiceSameObject(h: ClassTable, s: State, klass: ClassName, id: Id, options: OptionKeys,
                            first: State -> Step<Record?>, second: State -> Step<Record?>)
    requires WellFormed(h) && IsOn(s.flag) && CanUseIdentityMapWith(options)
    requires var r := FindOneStep(h, s, klass, id, options, first);
      && r.outcome.Returned? && r.outcome.value != null
      && r.outcome.value.id == id && Matches(h, klass, r.outcome.value.klass)
      && IsOn(r.state.flag)
    ensures var r := FindOneStep(h, s, klass, id, options, first);
      FindOneStep(h, r.state, klass, id, options, second) == r
  {
    var r := FindOneStep(h, s, klass, id, options, first);
    if GetOne(h, s.repo, klass, id) == null {
      AddThenGetOne(h, first(s).state.repo, r.outcome.value, klass);
    }
  }
}

/**
 * The lifecycle hooks mixed into records: `reload` evicts before the real
 * reload, `destroy` (and its alias `delete`) evicts after a successful real
 * destroy, and `create` caches after a successful real create. Each hook
 * touches the map only when the map is on.
 */
module RecordHooks {
  import opened Records
  import opened Hierarchy
  import opened Repository
  import opened Scope
  import opened IdentityMap

  /** The state the real reload of `record` starts from. */
  function ReloadView(h: ClassTable, s: State, record: Record): (v: State)
    ensures v.flag == s.flag
    ensures IsOn(s.flag) ==> forall klass :: RepositoryKey(h, klass) == RepositoryKey(h, record.klass) ==>
      GetOne(h, v.repo, klass, record.id) == null
    ensures forall k, i :: (k != RepositoryKey(h, record.klass) || i != record.id) ==>
      Lookup(v.repo, k, i) == Lookup(s.repo, k, i)
    ensures IsOn(s.flag) && Lookup(s.repo, RepositoryKey(h, record.klass), record.id) == null ==> v == s
    ensures !IsOn(s.flag) ==> v == s
  {
    if IsOn(s.flag) then State(s.flag, DeleteRecord(h, s.repo, record)) else s
  }

  /** `reload`: evicts the record (when on), then runs the real reload. */
  method Reload<T>(ctx: Context, record: Record, reload: State -> Step<T>) returns (r: Outcome<T>)
    modifies ctx
    ensures Step(r, ctx.Snapshot()) == reload(ReloadView(ctx.hierarchy, old(ctx.Snapshot()), record))
  {
    if IsOn(ctx.flag) {
      var _ := ctx.Remove(record);
    }
    r := ctx.Run(reload);
  }

  /** In a well-stored repository, the real reload cannot find the record it reloads anywhere in the map. */
  lemma ReloadSeesNoStaleRecord(h: ClassTable, s: State, record: Record)
    requires IsOn(s.flag) && WellStored(h, s.repo)
    ensures forall k, i :: Lookup(ReloadView(h, s, record).repo, k, i) != record
  {
    DeleteRecordEvicts(h, s.repo, record);
  }

  /** What `destroy` does: the real destroy, then eviction if it returned and the map was on. */
  function DestroyStep<T>(h: ClassTable, s: State, record: Record, destroy: State -> Step<T>): (r: Step<T>)
    ensures r.outcome == destroy(s).outcome && r.state.flag == destroy(s).state.flag
    ensures forall k, i :: (k != RepositoryKey(h, record.klass) || i != record.id) ==>
      Lookup(r.state.repo, k, i) == Lookup(destroy(s).state.repo, k, i)
  {
    var done := destroy(s);
    if IsOn(s.flag) && done.outcome.Returned? then
      Step(done.outcome, State(done.state.flag, DeleteRecord(h, done.state.repo, record)))
    else
      done
  }

  /** `destroy` (and `delete`, its alias). */
  method Destroy<T>(ctx: Context, record: Record, destroy: State -> Step<T>) returns (r: Outcome<T>)
    modifies ctx
    ensures Step(r, ctx.Snapshot()) == DestroyStep(ctx.hierarchy, old(ctx.Snapshot()), record, destroy)
  {
    if !IsOn(ctx.flag) {
      r := ctx.Run(destroy);
      return;
    }
    r := ctx.Run(destroy);
    if r.Returned? {
      var _ := ctx.Remove(record);
    }
  }

  /** A failed destroy, or any destroy with the map off, leaves the map as the real destroy left it. */
  lemma DestroyFailureKeepsEntry<T>(h: ClassTable, s: State, record: Record, destroy: State -> Step<T>)
    requires !IsOn(s.flag) || destroy(s).outcome.Raised?
    ensures DestroyStep(h, s, record, destroy) == destroy(s)
  {
  }

  /** After a successful destroy with the map on, the record is gone from the map. */
  lemma DestroySuccessEvicts<T>(h: ClassTable, s: State, record: Record, destroy: State -> Step<T>)
    requires IsOn(s.flag) && destroy(s).outcome.Returned?
    ensures DestroyStep(h, s, record, destroy).outcome == destroy(s).outcome
    ensures Lookup(DestroyStep(h, s, record, destroy).state.repo, RepositoryKey(h, record.klass), record.id) == null
    ensures GetOne(h, DestroyStep(h, s, record, destroy).state.repo, record.klass, record.id) == null
    ensures WellStored(h, destroy(s).state.repo) ==>
      forall k, i :: Lookup(DestroyStep(h, s, record, destroy).state.repo, k, i) != record
  {
    if WellStored(h, destroy(s).state.repo) {
      DeleteRecordEvicts(h, destroy(s).state.repo, record);
    }
  }

  /** What `create` does: the real create, then caching of the record if it returned and the map was on. */
  function CreateStep<T>(h: ClassTable, s: State, record: Record, create: State -> Step<T>): (r: Step<T>)
    ensures r.outcome == create(s).outcome && r.state.flag == create(s).state.flag
    ensures forall k, i :: (k != RepositoryKey(h, record.klass) || i != record.id) ==>
      Lookup(r.state.repo, k, i) == Lookup(create(s).state.repo, k, i)
  {
    var done := create(s);
    if IsOn(s.flag) && done.outcome.Returned? then
      Step(done.outcome, State(done.state.flag, AddRecord(h, done.state.repo, record)))
    else
      done
  }

  /** `create`, the persistence step that inserts a new record. */
  method Create<T>(ctx: Context, record: Record, create: State -> Step<T>) returns (r: Outcome<T>)
    modifies ctx
    ensures Step(r, ctx.Snapshot()) == CreateStep(ctx.hierarchy, old(ctx.Snapshot()), record, create)
  {
    if !IsOn(ctx.flag) {
      r := ctx.Run(create);
      return;
    }
    r := ctx.Run(create);
    if r.Returned? {
      var _ := ctx.Add(record);
    }
  }

  /** After a successful create with the map on, finding the record by its class or any ancestor yields it. */
  lemma CreateCaches<T>(h: ClassTable, s: State, record: Record, create: State -> Step<T>, klass: ClassName)
    requires WellFormed(h) && Matches(h, klass, record.klass)
    requires IsOn(s.flag) && create(s).outcome.Returned?
    ensures CreateStep(h, s, record, create).outcome == create(s).outcome
    ensures GetOne(h, CreateStep(h, s, record, create).state.repo, klass, record.id) == record
  {
    AddThenGetOne(h, create(s).state.repo, record, klass);
  }

  /** A failed create, or any create with the map off, leaves the map as the real create left it. */
  lemma CreateFailureAddsNothing<T>(h: ClassTable, s: State, record: Record, create: State -> Step<T>)
    requires !IsOn(s.flag) || create(s).outcome.Raised?
    ensures CreateStep(h, s, record, create) == create(s)
  {
  }
}
