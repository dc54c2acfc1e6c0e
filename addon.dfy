/**
 * The addon loader and the per-addon singleton registry.
 *
 * The loader walks the addon folders, sets a process-wide "currently loading"
 * marker around each import and records every imported module together with
 * its source path. AddOnBase construction consults that marker: while an
 * import is running it returns (or creates) the instance of the module being
 * imported; otherwise it can only look an existing instance up by name.
 *
 * The module globals `add_ons`, `add_on_paths`, `currently_loading_module`
 * and the class-level `AddOnBase.instances` are the fields of one Registry
 * object. Importing is an input: a function from a qualified module name to
 * the outcome of importing it.
 */
module Addon {
  import opened Wrappers
  import opened Paths

  /** The toolkit's shortcut value; only its text matters here. */
  datatype KeySequence = KeySequence(text: string)

  /**
   * An imported module object. `createsAddOn` says whether its module-level
   * code instantiates AddOnBase (the usual way an addon registers itself),
   * and `activateKey` the shortcut that code then passes to
   * set_activate_shortcut, if it does.
   */
  datatype Module = Module(qualifiedName: string, createsAddOn: bool, activateKey: Option<KeySequence>)

  datatype ImportOutcome = Imported(loaded: Module) | ImportFailed

  /** One directory met by the walk: its name, its joined path, and whether "<path>/<name>.py" is a file. */
  datatype DirEntry = DirEntry(name: string, path: string, hasMatchingFile: bool)

  /** The ValueError raised for a name that has no instance. */
  datatype AddOnError = InstanceNotFound(name: Option<string>)

  /** The module name imported for directory `dir`: "<addonsName>.<dir>.<dir>". */
  function QualifiedName(addonsName: string, dir: string): (r: string)
    ensures |r| == |addonsName| + 2 * |dir| + 2
  {
    addonsName + "." + dir + "." + dir
  }

  /** The file whose presence makes a directory an addon: join(dir_path, dir + ".py"). */
  function SourceFile(d: DirEntry): (r: string)
    ensures EndsWith(r, d.name + ".py")
    ensures !IsAbsolute(d.name + ".py") ==> |d.path| <= |r| && r[..|d.path|] == d.path
  {
    Join(d.path, d.name + ".py")
  }

  /** Directories with different names never share a registry key. */
  lemma QualifiedNameInjective(addonsName: string, d1: string, d2: string)
    requires QualifiedName(addonsName, d1) == QualifiedName(addonsName, d2)
    ensures d1 == d2
  {
    var q1, q2 := QualifiedName(addonsName, d1), QualifiedName(addonsName, d2);
    var n := |addonsName| + 1;
    assert |q1| == n + 2 * |d1| + 1 && |q2| == n + 2 * |d2| + 1;
    assert q1[n..n + |d1|] == d1;
    assert q2[n..n + |d2|] == d2;
  }

  predicate Grows<K, V(==)>(before: map<K, V>, after: map<K, V>) {
    forall k :: k in before ==> k in after && after[k] == before[k]
  }

  // ---------------------------------------------------------------------
  // The load pass as a function of values
  // ---------------------------------------------------------------------

  /** The loader's globals, with the instance registry reduced to its key set. */
  datatype LoaderState = LoaderState(
    addOns: map<string, Module>,
    addOnPaths: map<string, string>,
    marker: Option<string>,
    instanceKeys: set<string>)

  /** The state after a load pass, and the module whose import raised, if one did. */
  datatype LoadResult = LoadResult(state: LoaderState, error: Option<string>)

  /** What load_addons does with the directories `walk`, one after the other, starting from `s`. */
  function LoadEntries(addonsName: string, walk: seq<DirEntry>, importOf: string -> ImportOutcome,
                       s: LoaderState): (r: LoadResult)
    ensures s.addOns.Keys == s.addOnPaths.Keys ==> r.state.addOns.Keys == r.state.addOnPaths.Keys
    ensures s.addOns.Keys <= r.state.addOns.Keys && s.instanceKeys <= r.state.instanceKeys
    decreases |walk|
  {
    if walk == [] then LoadResult(s, None)
    else
      var d := walk[0];
      if !d.hasMatchingFile then LoadEntries(addonsName, walk[1..], importOf, s)
      else
        var q := QualifiedName(addonsName, d.name);
        match importOf(q)
        case ImportFailed => LoadResult(s.(marker := Some(q)), Some(q))
        case Imported(m) =>
          LoadEntries(addonsName, walk[1..], importOf,
                      LoaderState(s.addOns[q := m], s.addOnPaths[q := SourceFile(d)], None,
                                  if m.createsAddOn then s.instanceKeys + {q} else s.instanceKeys))
  }

  /** Directory i is an addon whose import raises. */
  ghost predicate FailsAt(addonsName: string, walk: seq<DirEntry>, importOf: string -> ImportOutcome, i: int) {
    0 <= i < |walk| && walk[i].hasMatchingFile
    && importOf(QualifiedName(addonsName, walk[i].name)).ImportFailed?
  }

  /** The pass gets as far as directory i: no earlier import raised. */
  ghost predicate Reached(addonsName: string, walk: seq<DirEntry>, importOf: string -> ImportOutcome, i: int) {
    0 <= i <= |walk| && forall j :: 0 <= j < i ==> !FailsAt(addonsName, walk, importOf, j)
  }

  /** Directory i is an addon that the pass reaches and imports successfully. */
  ghost predicate RecordedAt(addonsName: string, walk: seq<DirEntry>, importOf: string -> ImportOutcome, i: int) {
    0 <= i < |walk| && walk[i].hasMatchingFile
    && importOf(QualifiedName(addonsName, walk[i].name)).Imported?
    && Reached(addonsName, walk, importOf, i)
  }

  /** Some directory recorded by the pass has qualified name k. */
  ghost predicate RecordedKey(addonsName: string, walk: seq<DirEntry>, importOf: string -> ImportOutcome, k: string) {
    exists i :: 0 <= i < |walk| && RecordedAt(addonsName, walk, importOf, i)
                && QualifiedName(addonsName, walk[i].name) == k
  }

  /** Key k is recorded, and importing it instantiates AddOnBase. */
  ghost predicate CreatedKey(addonsName: string, walk: seq<DirEntry>, importOf: string -> ImportOutcome, k: string) {
    RecordedKey(addonsName, walk, importOf, k) && importOf(k).Imported? && importOf(k).loaded.createsAddOn
  }

  lemma ReachedShift(addonsName: string, walk: seq<DirEntry>, importOf: string -> ImportOutcome, i: int)
    requires 1 <= i <= |walk|
    ensures Reached(addonsName, walk, importOf, i)
            <==> !FailsAt(addonsName, walk, importOf, 0) && Reached(addonsName, walk[1..], importOf, i - 1)
  {
    forall j | 1 <= j < |walk|
      ensures FailsAt(addonsName, walk, importOf, j) == FailsAt(addonsName, walk[1..], importOf, j - 1)
    {
      assert walk[j] == walk[1..][j - 1];
    }
    if Reached(addonsName, walk, importOf, i) {
      forall j | 0 <= j < i - 1 ensures !FailsAt(addonsName, walk[1..], importOf, j) {
        assert !FailsAt(addonsName, walk, importOf, j + 1);
      }
    }
    if !FailsAt(addonsName, walk, importOf, 0) && Reached(addonsName, walk[1..], importOf, i - 1) {
      forall j | 0 <= j < i ensures !FailsAt(addonsName, walk, importOf, j) {
        if j > 0 {
          assert !FailsAt(addonsName, walk[1..], importOf, j - 1);
        }
      }
    }
  }

  lemma RecordedAtShift(addonsName: string, walk: seq<DirEntry>, importOf: string -> ImportOutcome, i: int)
    requires 1 <= i < |walk|
    ensures RecordedAt(addonsName, walk, importOf, i)
            <==> !FailsAt(addonsName, walk, importOf, 0) && RecordedAt(addonsName, walk[1..], importOf, i - 1)
  {
    ReachedShift(addonsName, walk, importOf, i);
    assert walk[i] == walk[1..][i - 1];
  }

  /** How the recorded keys of a walk relate to those of its tail, by what happens to its first directory. */
  lemma RecordedKeyUnfold(addonsName: string, walk: seq<DirEntry>, importOf: string -> ImportOutcome, k: string)
    requires walk != []
    ensures var q := QualifiedName(addonsName, walk[0].name);
      && (!walk[0].hasMatchingFile ==>
            (RecordedKey(addonsName, walk, importOf, k) <==> RecordedKey(addonsName, walk[1..], importOf, k)))
      && (walk[0].hasMatchingFile && importOf(q).ImportFailed? ==> !RecordedKey(addonsName, walk, importOf, k))
      && (walk[0].hasMatchingFile && importOf(q).Imported? ==>
            (RecordedKey(addonsName, walk, importOf, k) <==> k == q || RecordedKey(addonsName, walk[1..], importOf, k)))
  {
    var q := QualifiedName(addonsName, walk[0].name);
    var fails0 := FailsAt(addonsName, walk, importOf, 0);
    if RecordedKey(addonsName, walk, importOf, k) {
      var i :| 0 <= i < |walk| && RecordedAt(addonsName, walk, importOf, i)
               && QualifiedName(addonsName, walk[i].name) == k;
      if i > 0 {
        RecordedAtShift(addonsName, walk, importOf, i);
        assert walk[i] == walk[1..][i - 1];
        assert RecordedKey(addonsName, walk[1..], importOf, k);
      }
    }
    if !fails0 && RecordedKey(addonsName, walk[1..], importOf, k) {
      var i :| 0 <= i < |walk[1..]| && RecordedAt(addonsName, walk[1..], importOf, i)
               && QualifiedName(addonsName, walk[1..][i].name) == k;
      RecordedAtShift(addonsName, walk, importOf, i + 1);
      assert walk[i + 1] == walk[1..][i];
      assert RecordedKey(addonsName, walk, importOf, k);
    }
    if walk[0].hasMatchingFile && importOf(q).Imported? && k == q {
      assert Reached(addonsName, walk, importOf, 0);
      assert RecordedAt(addonsName, walk, importOf, 0);
    }
  }

  /**
   * Exactly the recorded directories add entries, both maps get the same
   * keys, every recorded key holds the module its import returned, and
   * every other entry keeps its old value. The instance registry gains
   * exactly the recorded modules that instantiate AddOnBase.
   */
  lemma {:induction false} LoadRecordsExactly(addonsName: string, walk: seq<DirEntry>,
                                              importOf: string -> ImportOutcome, s: LoaderState, k: string)
    ensures var r := LoadEntries(addonsName, walk, importOf, s).state;
      && (k in r.addOns <==> k in s.addOns || RecordedKey(addonsName, walk, importOf, k))
      && (k in r.addOnPaths <==> k in s.addOnPaths || RecordedKey(addonsName, walk, importOf, k))
      && (RecordedKey(addonsName, walk, importOf, k) ==>
            importOf(k).Imported? && r.addOns[k] == importOf(k).loaded)
      && (!RecordedKey(addonsName, walk, importOf, k) && k in s.addOns ==> r.addOns[k] == s.addOns[k])
      && (!RecordedKey(addonsName, walk, importOf, k) && k in s.addOnPaths ==> r.addOnPaths[k] == s.addOnPaths[k])
      && (k in r.instanceKeys <==> k in s.instanceKeys || CreatedKey(addonsName, walk, importOf, k))
    decreases |walk|
  {
    if walk == [] {
    } else {
      var d := walk[0];
      RecordedKeyUnfold(addonsName, walk, importOf, k);
      if !d.hasMatchingFile {
        LoadRecordsExactly(addonsName, walk[1..], importOf, s, k);
      } else {
        var q := QualifiedName(addonsName, d.name);
        match importOf(q)
        case ImportFailed =>
        case Imported(m) =>
          var s' := LoaderState(s.addOns[q := m], s.addOnPaths[q := SourceFile(d)], None,
                                if m.createsAddOn then s.instanceKeys + {q} else s.instanceKeys);
          LoadRecordsExactly(addonsName, walk[1..], importOf, s', k);
      }
    }
  }

  /**
   * The path recorded for an addon is the source file of the last directory
   * of that name that the pass records.
   */
  lemma {:induction false} LoadPathOfLastEntry(addonsName: string, walk: seq<DirEntry>,
                                               importOf: string -> ImportOutcome, s: LoaderState, i: int)
    requires RecordedAt(addonsName, walk, importOf, i)
    requires forall j :: i < j < |walk| && RecordedAt(addonsName, walk, importOf, j) ==> walk[j].name != walk[i].name
    ensures var r := LoadEntries(addonsName, walk, importOf, s).state;
      var q := QualifiedName(addonsName, walk[i].name);
      q in r.addOnPaths && r.addOnPaths[q] == SourceFile(walk[i])
    decreases |walk|
  {
    var d := walk[0];
    var q0 := QualifiedName(addonsName, d.name);
    var s' := if d.hasMatchingFile && importOf(q0).Imported? then
        LoaderState(s.addOns[q0 := importOf(q0).loaded], s.addOnPaths[q0 := SourceFile(d)], None,
                    if importOf(q0).loaded.createsAddOn then s.instanceKeys + {q0} else s.instanceKeys)
      else s;
    assert !FailsAt(addonsName, walk, importOf, 0);
    assert LoadEntries(addonsName, walk, importOf, s) == LoadEntries(addonsName, walk[1..], importOf, s');
    if i == 0 {
      if RecordedKey(addonsName, walk[1..], importOf, q0) {
        var j :| 0 <= j < |walk[1..]| && RecordedAt(addonsName, walk[1..], importOf, j)
                 && QualifiedName(addonsName, walk[1..][j].name) == q0;
        RecordedAtShift(addonsName, walk, importOf, j + 1);
        assert walk[j + 1] == walk[1..][j];
        QualifiedNameInjective(addonsName, walk[j + 1].name, d.name);
        assert false;
      }
      LoadRecordsExactly(addonsName, walk[1..], importOf, s', q0);
    } else {
      RecordedAtShift(addonsName, walk, importOf, i);
      assert walk[i] == walk[1..][i - 1];
      forall j | i - 1 < j < |walk[1..]| && RecordedAt(addonsName, walk[1..], importOf, j)
        ensures walk[1..][j].name != walk[1..][i - 1].name
      {
        RecordedAtShift(addonsName, walk, importOf, j + 1);
        assert walk[j + 1] == walk[1..][j];
      }
      LoadPathOfLastEntry(addonsName, walk[1..], importOf, s', i - 1);
    }
  }

  /**
   * The pass raises exactly when some addon's import raises; when it does
   * not raise and no marker was left over, the marker ends up cleared.
   */
  lemma {:induction false} LoadErrorIff(addonsName: string, walk: seq<DirEntry>,
                                        importOf: string -> ImportOutcome, s: LoaderState)
    ensures var r := LoadEntries(addonsName, walk, importOf, s);
      && (r.error.None? <==> Reached(addonsName, walk, importOf, |walk|))
      && (r.error.None? && s.marker.None? ==> r.state.marker.None?)
    decreases |walk|
  {
    if walk != [] {
      var d := walk[0];
      var q := QualifiedName(addonsName, d.name);
      ReachedShift(addonsName, walk, importOf, |walk|);
      if !d.hasMatchingFile {
        LoadErrorIff(addonsName, walk[1..], importOf, s);
      } else {
        match importOf(q)
        case ImportFailed =>
          assert FailsAt(addonsName, walk, importOf, 0);
        case Imported(m) =>
          var s' := LoaderState(s.addOns[q := m], s.addOnPaths[q := SourceFile(d)], None,
                                if m.createsAddOn then s.instanceKeys + {q} else s.instanceKeys);
          LoadErrorIff(addonsName, walk[1..], importOf, s');
      }
    }
  }

  /**
   * When the import of directory i raises and it is the first to do so,
   * the pass stops with that module's name as its error, the marker is
   * left holding that name, and nothing is recorded under it.
   */
  lemma {:induction false} LoadStopsAtFirstFailure(addonsName: string, walk: seq<DirEntry>,
                                                   importOf: string -> ImportOutcome, s: LoaderState, i: int)
    requires FailsAt(addonsName, walk, importOf, i) && Reached(addonsName, walk, importOf, i)
    ensures var r := LoadEntries(addonsName, walk, importOf, s);
      var q := QualifiedName(addonsName, walk[i].name);
      && r.error == Some(q) && r.state.marker == Some(q)
      && (q in r.state.addOns <==> q in s.addOns)
      && (q in r.state.addOnPaths <==> q in s.addOnPaths)
    decreases |walk|
  {
    var d := walk[0];
    var q0 := QualifiedName(addonsName, d.name);
    LoadRecordsExactly(addonsName, walk, importOf, s, QualifiedName(addonsName, walk[i].name));
    if i > 0 {
      ReachedShift(addonsName, walk, importOf, i);
      assert walk[i] == walk[1..][i - 1];
      var s' := if d.hasMatchingFile then
          LoaderState(s.addOns[q0 := importOf(q0).loaded], s.addOnPaths[q0 := SourceFile(d)], None,
                      if importOf(q0).loaded.createsAddOn then s.instanceKeys + {q0} else s.instanceKeys)
        else s;
      assert LoadEntries(addonsName, walk, importOf, s) == LoadEntries(addonsName, walk[1..], importOf, s');
      LoadStopsAtFirstFailure(addonsName, walk[1..], importOf, s', i - 1);
    }
  }

  // ---------------------------------------------------------------------
  // The objects
  // ---------------------------------------------------------------------

  /**
   * Instance a was created by importing module k: k's code instantiates
   * AddOnBase, and a's activate shortcut is the one that code sets, if any.
   */
  ghost predicate CreatedBy(importOf: string -> ImportOutcome, k: string, a: AddOnBase)
    reads a
  {
    importOf(k).Imported? && importOf(k).loaded.createsAddOn
    && a.activateShortcut == importOf(k).loaded.activateKey
  }

  /** One addon's singleton. */
  class AddOnBase {
    const name: string
    var activateShortcut: Option<KeySequence>

    /** _init: the name is the module being loaded, and no shortcut is set yet. */
    constructor Init(name: string)
      ensures this.name == name && activateShortcut == None
    {
      this.name := name;
      activateShortcut := None;
    }

    /** Stores the shortcut that activates this addon; a later call overwrites it. */
    method SetActivateShortcut(key: KeySequence)
      modifies this
      ensures activateShortcut == Some(key)
    {
      activateShortcut := Some(key);
    }
  }

  /** The loader's module globals together with AddOnBase's class-level instance map. */
  class Registry {
    const addonsName: string
    var addOns: map<string, Module>
    var addOnPaths: map<string, string>
    var marker: Option<string>
    var instances: map<string, AddOnBase>

    /** Both loader maps have the same keys, and each instance is stored under its own name. */
    ghost predicate Valid()
      reads this
    {
      && addOns.Keys == addOnPaths.Keys
      && forall k :: k in instances ==> instances[k].name == k
    }

    function State(): (s: LoaderState)
      reads this
    {
      LoaderState(addOns, addOnPaths, marker, instances.Keys)
    }

    constructor (addonsName: string)
      ensures Valid() && this.addonsName == addonsName
      ensures addOns == map[] && addOnPaths == map[] && marker == None && instances == map[]
    {
      this.addonsName := addonsName;
      addOns, addOnPaths, marker, instances := map[], map[], None, map[];
    }

    /**
     * AddOnBase(name): while a module is loading, the instance of that
     * module, created (and stored) on first use, whatever `name` says; a
     * non-None `name` only raises a warning. Otherwise the stored instance
     * called `name`, or InstanceNotFound.
     */
    method New(name: Option<string>) returns (r: Result<AddOnBase, AddOnError>, warned: bool)
      requires Valid()
      modifies this
      ensures Valid()
      ensures addOns == old(addOns) && addOnPaths == old(addOnPaths) && marker == old(marker)
      ensures warned <==> marker.Some? && name.Some?
      ensures Grows(old(instances), instances) && unchanged(old(instances.Values))
      ensures marker.Some? && marker.value in old(instances) ==>
                r == Success(old(instances)[marker.value]) && instances == old(instances)
      ensures marker.Some? && marker.value !in old(instances) ==>
                && r.Success? && fresh(r.value)
                && r.value.name == marker.value && r.value.activateShortcut == None
                && instances == old(instances)[marker.value := r.value]
      ensures marker.None? ==> instances == old(instances)
      ensures marker.None? && name.Some? && name.value in instances ==> r == Success(instances[name.value])
      ensures marker.None? && (name.None? || name.value !in instances) ==> r == Failure(InstanceNotFound(name))
    {
      warned := false;
      if marker.Some? {
        var m := marker.value;
        warned := name.Some?;
        if m in instances {
          r := Success(instances[m]);
        } else {
          var a := new AddOnBase.Init(m);
          instances := instances[m := a];
          r := Success(a);
        }
      } else if name.Some? && name.value in instances {
        r := Success(instances[name.value]);
      } else {
        r := Failure(InstanceNotFound(name));
      }
    }

    /**
     * import_module(q) with the marker set to q: runs the module, which may
     * instantiate AddOnBase at module scope and set its activate shortcut.
     * A module whose instance already exists was imported before, so its
     * code does not run again (Python's module cache).
     */
    method ImportModule(q: string, importOf: string -> ImportOutcome) returns (outcome: ImportOutcome)
      requires Valid() && marker == Some(q)
      modifies this
      ensures Valid() && outcome == importOf(q)
      ensures addOns == old(addOns) && addOnPaths == old(addOnPaths) && marker == old(marker)
      ensures instances.Keys == if outcome.Imported? && outcome.loaded.createsAddOn
                                then old(instances.Keys) + {q} else old(instances.Keys)
      ensures Grows(old(instances), instances) && unchanged(old(instances.Values))
      ensures forall k :: k in instances && k !in old(instances) ==>
                fresh(instances[k]) && CreatedBy(importOf, k, instances[k])
    {
      outcome := importOf(q);
      if outcome.Imported? && outcome.loaded.createsAddOn && q !in instances {
        var created, warned := New(None);
        if outcome.loaded.activateKey.Some? {
          created.value.SetActivateShortcut(outcome.loaded.activateKey.value);
        }
      }
    }

    /**
     * One directory of load_addons: when its same-named .py file exists, set
     * the marker, import, clear the marker and record the module and its
     * path. `rest` names the directories still to come, so that the effect
     * can be stated as one step of LoadEntries.
     */
    method LoadDirectory(d: DirEntry, ghost rest: seq<DirEntry>, importOf: string -> ImportOutcome)
      returns (error: Option<string>)
      requires Valid()
      modifies this
      ensures Valid()
      ensures error.Some? ==> LoadResult(State(), error) == LoadEntries(addonsName, [d] + rest, importOf, old(State()))
      ensures error.None? ==>
                LoadEntries(addonsName, rest, importOf, State()) == LoadEntries(addonsName, [d] + rest, importOf, old(State()))
      ensures Grows(old(instances), instances) && unchanged(old(instances.Values))
      ensures forall k :: k in instances && k !in old(instances) ==>
                fresh(instances[k]) && CreatedBy(importOf, k, instances[k])
    {
      assert ([d] + rest)[0] == d && ([d] + rest)[1..] == rest;
      error := None;
      if d.hasMatchingFile {
        var filePath := SourceFile(d);
        var q := QualifiedName(addonsName, d.name);
        marker := Some(q);
        var outcome := ImportModule(q, importOf);
        if outcome.ImportFailed? {
          error := Some(q);
          return;
        }
        marker := None;
        addOns := addOns[q := outcome.loaded];
        addOnPaths := addOnPaths[q := filePath];
      }
    }

    /**
     * load_addons: when the root folder exists, every directory of the walk
     * whose same-named .py file exists is imported under the marker and
     * recorded in both maps; the first import that raises ends the pass.
     */
    method LoadAddOns(rootExists: bool, walk: seq<DirEntry>, importOf: string -> ImportOutcome)
      returns (error: Option<string>)
      requires Valid()
      modifies this
      ensures Valid()
      ensures !rootExists ==> error == None && State() == old(State()) && instances == old(instances)
      ensures rootExists ==> LoadResult(State(), error) == LoadEntries(addonsName, walk, importOf, old(State()))
      ensures Grows(old(instances), instances) && unchanged(old(instances.Values))
      ensures forall k :: k in instances && k !in old(instances) ==>
                fresh(instances[k]) && CreatedBy(importOf, k, instances[k])
    {
      error := None;
      if !rootExists {
        return;
      }
      var i := 0;
      while i < |walk|
        invariant 0 <= i <= |walk| && error == None
        invariant Valid()
        invariant LoadEntries(addonsName, walk[i..], importOf, State())
                  == LoadEntries(addonsName, walk, importOf, old(State()))
        invariant Grows(old(instances), instances) && unchanged(old(instances.Values))
        invariant forall k :: k in instances && k !in old(instances) ==>
                    fresh(instances[k]) && CreatedBy(importOf, k, instances[k])
      {
        assert walk[i..] == [walk[i]] + walk[i + 1..];
        error := LoadDirectory(walk[i], walk[i + 1..], importOf);
        if error.Some? {
          return;
        }
        i := i + 1;
      }
      assert walk[i..] == [];
    }
  }

  /**
   * Two instantiations from inside one module's import give the same
   * object, named after the module, and the second one does not reset a
   * shortcut set in between; the name passed the second time is ignored.
   */
  method InstantiateTwiceWhileLoading(reg: Registry, key: KeySequence, other: string)
    returns (first: AddOnBase, second: AddOnBase)
    requires reg.Valid() && reg.marker.Some?
    modifies reg, reg.instances.Values
    ensures reg.Valid()
    ensures reg.marker == old(reg.marker)
    ensures first == second && second.name == reg.marker.value && second.activateShortcut == Some(key)
  {
    var r1, w1 := reg.New(None);
    first := r1.value;
    first.SetActivateShortcut(key);
    var r2, w2 := reg.New(Some(other));
    second := r2.value;
  }

  /**
   * A fresh registry and one addon folder "<root>/<dir>" holding
   * "<dir>.py" whose module instantiates AddOnBase: after the load pass
   * the module and its path are recorded, and looking the instance up by
   * its qualified name finds it.
   */
  method LoadThenLookUp(reg: Registry, root: string, dir: string)
    returns (error: Option<string>, found: Result<AddOnBase, AddOnError>)
    requires reg.Valid() && reg.marker == None && reg.addOns == map[] && reg.addOnPaths == map[]
    requires reg.instances == map[]
    modifies reg
    ensures var q := QualifiedName(reg.addonsName, dir);
      && error == None && reg.marker == None
      && q in reg.addOns && reg.addOns[q] == Module(q, true, None)
      && q in reg.addOnPaths && reg.addOnPaths[q] == Join(Join(root, dir), dir + ".py")
      && q in reg.instances && found == Success(reg.instances[q]) && found.value.name == q
  {
    var q := QualifiedName(reg.addonsName, dir);
    var walk := [DirEntry(dir, Join(root, dir), true)];
    var importOf := (n: string) => Imported(Module(n, true, None));
    var s0 := reg.State();
    var s1 := LoaderState(map[q := Module(q, true, None)], map[q := SourceFile(walk[0])], None, {q});
    assert walk[1..] == [];
    assert LoadEntries(reg.addonsName, walk, importOf, s0) == LoadResult(s1, None);
    error := reg.LoadAddOns(true, walk, importOf);
    assert reg.State() == s1;
    assert q in reg.instances.Keys;
    ghost var stored := reg.instances[q];
    var warned;
    found, warned := reg.New(Some(q));
    assert found == Success(stored);
  }
}
