/** The Qt helper: it locates the Qt 4, 5 and 6 installations bundled in the
    AppDir and writes a `qt.conf` (`qt6.conf` for Qt 6) next to every
    executable so that Qt finds its libraries, plugins and QML imports
    relative to the AppDir. The AppDir's file finder is a parameter. */
module QtHelper {
  import opened Wrappers
  import opened Text
  import opened Paths

  // ------------------------------------------------------------ the finder

  /** What the helper asks the AppDir's `Finder`: the first file or directory
      matching a pattern (with the checks that go with it in the source),
      the directories containing `qmake` outside Qt 5/6 trees and `/usr/bin`,
      and the directories containing executable files. */
  datatype Finder = Finder(
    findOne: string -> Option<Path>,
    qmakeDirs: seq<Path>,
    execDirs: seq<Path>)

  const Qt4Core: string := "*/libQtCore.so.4.*"
  const Qt5Core: string := "*/libQt5Core.so.*"
  const Qt6Core: string := "*/libQt6Core.so.*"
  const WebEngineProcess: string := "*/QtWebEngineProcess"
  const Qmake5: string := "*/qmake"
  const Qmake6: string := "*/qmake6"
  const Qt4PluginMarker: string := "*/libqjpcodecs.so"
  const PluginMarker: string := "*/libqminimal.so"
  const QmlTypes: string := "*/builtins.qmltypes"
  const Qt4Translations: string := "*/qt4/translations"
  const Qt5Translations: string := "*/qt5/translations"
  const Qt6Translations: string := "*/qt6/translations"
  const Qt5Resources: string := "*/qt5/resources"
  const Qt6Resources: string := "*/qt6/resources"

  /** Exceptions that escape `configure`: `paths[0]` on an empty qmake search,
      and `relative_to` on a directory outside the AppDir. */
  datatype QtError = QmakeMissing | OutsideAppDir(path: Path)

  // ------------------------------------------------------------ dictionaries

  /** A Python `dict` with string keys: its items in insertion order. */
  type Dict<V> = seq<(string, V)>

  function Keys<V>(d: Dict<V>): set<string> {
    set k | 0 <= k < |d| :: d[k].0
  }

  predicate DistinctKeys<V>(d: Dict<V>) {
    forall i, j :: 0 <= i < j < |d| ==> d[i].0 != d[j].0
  }

  /** `d.get(key)`. */
  function Lookup<V>(d: Dict<V>, key: string): Option<V> {
    if d == [] then None
    else if d[0].0 == key then Some(d[0].1)
    else Lookup(d[1..], key)
  }

  /** `d[key] = value`: an existing key keeps its place, a new one goes last. */
  function Store<V>(d: Dict<V>, key: string, value: V): Dict<V> {
    if d == [] then [(key, value)]
    else if d[0].0 == key then [(key, value)] + d[1..]
    else [d[0]] + Store(d[1..], key, value)
  }

  /** Storing a value only when there is one: `if x := find(...): d[key] = x`. */
  function StoreSome<V>(d: Dict<V>, key: string, value: Option<V>): Dict<V> {
    if value.Some? then Store(d, key, value.value) else d
  }

  function ParentOf(p: Option<Path>): Option<Path> {
    if p.Some? then Some(Parent(p.value)) else None
  }

  /** After `d[key] = value`, the key maps to the value and every other key to
      what it mapped to before. */
  lemma {:induction false} LookupStore<V>(d: Dict<V>, key: string, value: V, other: string)
    ensures Lookup(Store(d, key, value), key) == Some(value)
    ensures other != key ==> Lookup(Store(d, key, value), other) == Lookup(d, other)
  {
    if d != [] && d[0].0 != key {
      LookupStore(d[1..], key, value, other);
      assert Store(d, key, value)[1..] == Store(d[1..], key, value);
    }
  }

  lemma LookupStoreSome<V>(d: Dict<V>, key: string, value: Option<V>, other: string)
    ensures value.Some? ==> Lookup(StoreSome(d, key, value), key) == value
    ensures value.None? ==> Lookup(StoreSome(d, key, value), key) == Lookup(d, key)
    ensures other != key ==> Lookup(StoreSome(d, key, value), other) == Lookup(d, other)
  {
    if value.Some? {
      LookupStore(d, key, value.value, other);
    }
  }

  lemma KeysAppend<V>(d: Dict<V>, e: (string, V))
    ensures Keys(d + [e]) == Keys(d) + {e.0}
  {
    var c := d + [e];
    forall x | x in Keys(c) ensures x in Keys(d) + {e.0} {
      var k :| 0 <= k < |c| && c[k].0 == x;
      if k < |d| {
        assert c[k] == d[k];
        assert d[k].0 in Keys(d);
      } else {
        assert c[k] == e;
      }
    }
    forall x | x in Keys(d) ensures x in Keys(c) {
      var k :| 0 <= k < |d| && d[k].0 == x;
      assert c[k] == d[k];
      assert c[k].0 in Keys(c);
    }
    assert c[|d|].0 in Keys(c);
  }

  /** A key not yet present is stored at the end, as a Python `dict` does. */
  lemma {:induction false} StoreNewKey<V>(d: Dict<V>, key: string, value: V)
    requires key !in Keys(d)
    ensures Store(d, key, value) == d + [(key, value)]
  {
    if d != [] {
      assert d[0].0 in Keys(d);
      assert key !in Keys(d[1..]) by {
        forall k | 0 <= k < |d[1..]| ensures d[1..][k].0 != key {
          assert d[1..][k] == d[k + 1] && d[k + 1].0 in Keys(d);
        }
      }
      StoreNewKey(d[1..], key, value);
      assert [d[0]] + (d[1..] + [(key, value)]) == d + [(key, value)];
    }
  }

  lemma DistinctAppend<V>(d: Dict<V>, e: (string, V))
    requires DistinctKeys(d) && e.0 !in Keys(d)
    ensures DistinctKeys(d + [e])
  {
    var c := d + [e];
    forall i, j | 0 <= i < j < |c| ensures c[i].0 != c[j].0 {
      assert c[i] == d[i];
      if j < |d| { assert c[j] == d[j]; } else { assert d[i].0 in Keys(d); }
    }
  }

  lemma KeysCons<V>(e: (string, V), rest: Dict<V>)
    ensures Keys([e] + rest) == {e.0} + Keys(rest)
  {
    var c := [e] + rest;
    forall x | x in Keys(c) ensures x in {e.0} + Keys(rest) {
      var k :| 0 <= k < |c| && c[k].0 == x;
      if k > 0 {
        assert c[k] == rest[k - 1];
        assert rest[k - 1].0 in Keys(rest);
      }
    }
    forall x | x in Keys(rest) ensures x in Keys(c) {
      var k :| 0 <= k < |rest| && rest[k].0 == x;
      assert c[k + 1] == rest[k];
      assert c[k + 1].0 in Keys(c);
    }
    assert c[0].0 in Keys(c);
  }

  lemma DistinctCons<V>(e: (string, V), rest: Dict<V>)
    requires DistinctKeys(rest) && e.0 !in Keys(rest)
    ensures DistinctKeys([e] + rest)
  {
    var c := [e] + rest;
    forall i, j | 0 <= i < j < |c| ensures c[i].0 != c[j].0 {
      assert c[j] == rest[j - 1];
      if i == 0 {
        assert rest[j - 1].0 in Keys(rest);
      } else {
        assert c[i] == rest[i - 1];
      }
    }
  }

  lemma DistinctTail<V>(d: Dict<V>)
    requires d != [] && DistinctKeys(d)
    ensures DistinctKeys(d[1..]) && d[0].0 !in Keys(d[1..])
  {
    forall i, j | 0 <= i < j < |d[1..]| ensures d[1..][i].0 != d[1..][j].0 {
      assert d[1..][i] == d[i + 1] && d[1..][j] == d[j + 1];
    }
    forall k | 0 <= k < |d[1..]| ensures d[1..][k].0 != d[0].0 {
      assert d[1..][k] == d[k + 1];
    }
  }

  /** `d[key] = value` adds the key to the dict's keys and no other. */
  lemma {:induction false} StoreKeys<V>(d: Dict<V>, key: string, value: V)
    ensures Keys(Store(d, key, value)) == Keys(d) + {key}
    decreases |d|
  {
    if d == [] {
      KeysCons((key, value), d);
      assert [(key, value)] + d == [(key, value)];
    } else {
      assert d == [d[0]] + d[1..];
      KeysCons(d[0], d[1..]);
      if d[0].0 == key {
        KeysCons((key, value), d[1..]);
      } else {
        StoreKeys(d[1..], key, value);
        KeysCons(d[0], Store(d[1..], key, value));
      }
    }
  }

  /** `d[key] = value` never makes a key appear twice: a dict stays a dict. */
  lemma {:induction false} StoreDistinct<V>(d: Dict<V>, key: string, value: V)
    requires DistinctKeys(d)
    ensures DistinctKeys(Store(d, key, value))
    decreases |d|
  {
    if d != [] {
      DistinctTail(d);
      if d[0].0 == key {
        DistinctCons((key, value), d[1..]);
      } else {
        StoreDistinct(d[1..], key, value);
        StoreKeys(d[1..], key, value);
        DistinctCons(d[0], Store(d[1..], key, value));
      }
    }
  }

  // ------------------------------------------------------------ locating

  /** What a `_locate_qtN_dirs` stores, in source order: each key with what the
      finder gave for it, `None` where the `if` around the store is skipped. */
  type Plan = seq<(string, Option<Path>)>

  /** The stores of a plan, one after another. */
  function StoreAll(d: Dict<Path>, plan: Plan): Dict<Path>
    decreases |plan|
  {
    if plan == [] then d else StoreAll(StoreSome(d, plan[0].0, plan[0].1), plan[1..])
  }

  /** Following a plan from its `k`-th store. */
  lemma StoreAllStep(d: Dict<Path>, plan: Plan, k: nat)
    requires k < |plan|
    ensures StoreAll(d, plan[k..]) == StoreAll(StoreSome(d, plan[k].0, plan[k].1), plan[k + 1..])
  {
    assert plan[k..][1..] == plan[k + 1..];
  }

  lemma StoreAllDone(d: Dict<Path>, plan: Plan)
    ensures StoreAll(d, plan[|plan|..]) == d
  {
    assert plan[|plan|..] == [];
  }

  /** A plan of five stores, spelled out one store at a time. */
  lemma StoreAllFive(d: Dict<Path>, p: Plan)
    requires |p| == 5
    ensures var d1 := StoreSome(d, p[0].0, p[0].1);
            var d2 := StoreSome(d1, p[1].0, p[1].1);
            var d3 := StoreSome(d2, p[2].0, p[2].1);
            var d4 := StoreSome(d3, p[3].0, p[3].1);
            var d5 := StoreSome(d4, p[4].0, p[4].1);
            StoreAll(d, p) == d5
  {
    assert p[0..] == p;
    StoreAllStep(d, p, 0);
    var d1 := StoreSome(d, p[0].0, p[0].1);
    StoreAllStep(d1, p, 1);
    var d2 := StoreSome(d1, p[1].0, p[1].1);
    StoreAllStep(d2, p, 2);
    var d3 := StoreSome(d2, p[2].0, p[2].1);
    StoreAllStep(d3, p, 3);
    var d4 := StoreSome(d3, p[3].0, p[3].1);
    StoreAllStep(d4, p, 4);
    var d5 := StoreSome(d4, p[4].0, p[4].1);
    StoreAllDone(d5, p);
  }

  /** A plan of seven stores, spelled out one store at a time. */
  lemma StoreAllSeven(d: Dict<Path>, p: Plan)
    requires |p| == 7
    ensures var d1 := StoreSome(d, p[0].0, p[0].1);
            var d2 := StoreSome(d1, p[1].0, p[1].1);
            var d3 := StoreSome(d2, p[2].0, p[2].1);
            var d4 := StoreSome(d3, p[3].0, p[3].1);
            var d5 := StoreSome(d4, p[4].0, p[4].1);
            var d6 := StoreSome(d5, p[5].0, p[5].1);
            var d7 := StoreSome(d6, p[6].0, p[6].1);
            StoreAll(d, p) == d7
  {
    assert p[0..] == p;
    StoreAllStep(d, p, 0);
    var d1 := StoreSome(d, p[0].0, p[0].1);
    StoreAllStep(d1, p, 1);
    var d2 := StoreSome(d1, p[1].0, p[1].1);
    StoreAllStep(d2, p, 2);
    var d3 := StoreSome(d2, p[2].0, p[2].1);
    StoreAllStep(d3, p, 3);
    var d4 := StoreSome(d3, p[3].0, p[3].1);
    StoreAllStep(d4, p, 4);
    var d5 := StoreSome(d4, p[4].0, p[4].1);
    StoreAllStep(d5, p, 5);
    var d6 := StoreSome(d5, p[5].0, p[5].1);
    StoreAllStep(d6, p, 6);
    var d7 := StoreSome(d6, p[6].0, p[6].1);
    StoreAllDone(d7, p);
  }

  /** A plan of eight stores, spelled out one store at a time. */
  lemma StoreAllEight(d: Dict<Path>, p: Plan)
    requires |p| == 8
    ensures var d1 := StoreSome(d, p[0].0, p[0].1);
            var d2 := StoreSome(d1, p[1].0, p[1].1);
            var d3 := StoreSome(d2, p[2].0, p[2].1);
            var d4 := StoreSome(d3, p[3].0, p[3].1);
            var d5 := StoreSome(d4, p[4].0, p[4].1);
            var d6 := StoreSome(d5, p[5].0, p[5].1);
            var d7 := StoreSome(d6, p[6].0, p[6].1);
            var d8 := StoreSome(d7, p[7].0, p[7].1);
            StoreAll(d, p) == d8
  {
    assert p[0..] == p;
    StoreAllStep(d, p, 0);
    var d1 := StoreSome(d, p[0].0, p[0].1);
    StoreAllStep(d1, p, 1);
    var d2 := StoreSome(d1, p[1].0, p[1].1);
    StoreAllStep(d2, p, 2);
    var d3 := StoreSome(d2, p[2].0, p[2].1);
    StoreAllStep(d3, p, 3);
    var d4 := StoreSome(d3, p[3].0, p[3].1);
    StoreAllStep(d4, p, 4);
    var d5 := StoreSome(d4, p[4].0, p[4].1);
    StoreAllStep(d5, p, 5);
    var d6 := StoreSome(d5, p[5].0, p[5].1);
    StoreAllStep(d6, p, 6);
    var d7 := StoreSome(d6, p[6].0, p[6].1);
    StoreAllStep(d7, p, 7);
    var d8 := StoreSome(d7, p[7].0, p[7].1);
    StoreAllDone(d8, p);
  }

  /** A key the plan does not store keeps what it had. */
  lemma {:induction false} StoreAllOther(d: Dict<Path>, plan: Plan, key: string)
    requires forall k :: 0 <= k < |plan| ==> plan[k].0 != key
    ensures Lookup(StoreAll(d, plan), key) == Lookup(d, key)
    decreases |plan|
  {
    if plan != [] {
      LookupStoreSome(d, plan[0].0, plan[0].1, key);
      StoreAllOther(StoreSome(d, plan[0].0, plan[0].1), plan[1..], key);
    }
  }

  /** A key stored by the plan and not stored again later maps to what was found for it. */
  lemma {:induction false} StoreAllLast(d: Dict<Path>, plan: Plan, i: nat)
    requires i < |plan| && plan[i].1.Some?
    requires forall k :: i < k < |plan| ==> plan[k].0 != plan[i].0
    ensures Lookup(StoreAll(d, plan), plan[i].0) == plan[i].1
    decreases |plan|
  {
    var next := StoreSome(d, plan[0].0, plan[0].1);
    if i == 0 {
      LookupStoreSome(d, plan[0].0, plan[0].1, plan[0].0);
      StoreAllOther(next, plan[1..], plan[0].0);
    } else {
      StoreAllLast(next, plan[1..], i - 1);
    }
  }

  /** Following a plan keeps the keys distinct, and adds no key the plan does
      not store. */
  lemma {:induction false} StoreAllWellFormed(d: Dict<Path>, plan: Plan, absent: string)
    requires DistinctKeys(d) && absent !in Keys(d)
    requires forall k :: 0 <= k < |plan| ==> plan[k].0 != absent
    ensures DistinctKeys(StoreAll(d, plan)) && absent !in Keys(StoreAll(d, plan))
    decreases |plan|
  {
    if plan != [] {
      if plan[0].1.Some? {
        StoreDistinct(d, plan[0].0, plan[0].1.value);
        StoreKeys(d, plan[0].0, plan[0].1.value);
      }
      forall k | 0 <= k < |plan[1..]| ensures plan[1..][k].0 != absent {
        assert plan[1..][k] == plan[k + 1];
      }
      StoreAllWellFormed(StoreSome(d, plan[0].0, plan[0].1), plan[1..], absent);
    }
  }

  /** Qt 4's stores once the core library and a `qmake` directory are found. */
  function Qt4Plan(f: Finder, core: Path, qmakeDir: Path): Plan {
    [("Libraries", Some(Parent(core))),
     ("Binaries", Some(Parent(qmakeDir))),
     ("Plugins", ParentOf(ParentOf(f.findOne(Qt4PluginMarker)))),
     ("Qml2Imports", ParentOf(f.findOne(QmlTypes))),
     ("Translations", f.findOne(Qt4Translations))]
  }

  /** Qt 5's stores once the core library is found. */
  function Qt5Plan(f: Finder, core: Path): Plan {
    [("Libraries", Some(Parent(core))),
     ("LibraryExecutables", ParentOf(f.findOne(WebEngineProcess))),
     ("Binaries", ParentOf(f.findOne(Qmake5))),
     ("Plugins", ParentOf(ParentOf(f.findOne(PluginMarker)))),
     ("Qml2Imports", ParentOf(f.findOne(QmlTypes))),
     ("Translations", f.findOne(Qt5Translations)),
     ("Data", ParentOf(f.findOne(Qt5Resources)))]
  }

  /** Qt 6's stores once the core library is found: Qt 5's keys, with
      `QmlImports` stored beside `Qml2Imports`. */
  function Qt6Plan(f: Finder, core: Path): Plan {
    [("Libraries", Some(Parent(core))),
     ("LibraryExecutables", ParentOf(f.findOne(WebEngineProcess))),
     ("Binaries", ParentOf(f.findOne(Qmake6))),
     ("Plugins", ParentOf(ParentOf(f.findOne(PluginMarker)))),
     ("QmlImports", ParentOf(f.findOne(QmlTypes))),
     ("Qml2Imports", ParentOf(f.findOne(QmlTypes))),
     ("Translations", f.findOne(Qt6Translations)),
     ("Data", ParentOf(f.findOne(Qt6Resources)))]
  }

  /** `_qt4_dirs` after `_locate_qt4_dirs`, whether it returns or raises. */
  function LocatedQt4(d: Dict<Path>, f: Finder): Dict<Path> {
    match f.findOne(Qt4Core)
    case None => d
    case Some(core) =>
      if f.qmakeDirs == [] then Store(d, "Libraries", Parent(core))
      else StoreAll(d, Qt4Plan(f, core, f.qmakeDirs[0]))
  }

  /** `_locate_qt4_dirs` raises exactly when the core library is found but no
      directory holds `qmake`. */
  predicate Qt4LocateFails(f: Finder) {
    f.findOne(Qt4Core).Some? && f.qmakeDirs == []
  }

  /** `_qt5_dirs` after `_locate_qt5_dirs`. */
  function LocatedQt5(d: Dict<Path>, f: Finder): Dict<Path> {
    match f.findOne(Qt5Core)
    case None => d
    case Some(core) => StoreAll(d, Qt5Plan(f, core))
  }

  /** `_qt6_dirs` after `_locate_qt6_dirs`. */
  function LocatedQt6(d: Dict<Path>, f: Finder): Dict<Path> {
    match f.findOne(Qt6Core)
    case None => d
    case Some(core) => StoreAll(d, Qt6Plan(f, core))
  }

  /** Without the core library nothing is located: the directories stay as they were. */
  lemma CoreMissingLocatesNothing(d: Dict<Path>, f: Finder)
    ensures f.findOne(Qt4Core).None? ==> LocatedQt4(d, f) == d && !Qt4LocateFails(f)
    ensures f.findOne(Qt5Core).None? ==> LocatedQt5(d, f) == d
    ensures f.findOne(Qt6Core).None? ==> LocatedQt6(d, f) == d
  {
  }

  /** Locating keeps the directories a dict without `Prefix`, as every store
      uses one of the plan keys; this holds from the empty dicts the
      constructor sets up, so `_generate_conf` never sees a clash with
      `Prefix`. */
  lemma LocatedWellFormed(d: Dict<Path>, f: Finder)
    requires DistinctKeys(d) && "Prefix" !in Keys(d)
    ensures DistinctKeys(LocatedQt4(d, f)) && "Prefix" !in Keys(LocatedQt4(d, f))
    ensures DistinctKeys(LocatedQt5(d, f)) && "Prefix" !in Keys(LocatedQt5(d, f))
    ensures DistinctKeys(LocatedQt6(d, f)) && "Prefix" !in Keys(LocatedQt6(d, f))
  {
    Located4WellFormed(d, f);
    Located5WellFormed(d, f);
    Located6WellFormed(d, f);
  }

  lemma Located4WellFormed(d: Dict<Path>, f: Finder)
    requires DistinctKeys(d) && "Prefix" !in Keys(d)
    ensures DistinctKeys(LocatedQt4(d, f)) && "Prefix" !in Keys(LocatedQt4(d, f))
  {
    match f.findOne(Qt4Core) {
      case None =>
      case Some(core) =>
        if f.qmakeDirs == [] {
          StoreDistinct(d, "Libraries", Parent(core));
          StoreKeys(d, "Libraries", Parent(core));
        } else {
          StoreAllWellFormed(d, Qt4Plan(f, core, f.qmakeDirs[0]), "Prefix");
        }
    }
  }

  lemma Located5WellFormed(d: Dict<Path>, f: Finder)
    requires DistinctKeys(d) && "Prefix" !in Keys(d)
    ensures DistinctKeys(LocatedQt5(d, f)) && "Prefix" !in Keys(LocatedQt5(d, f))
  {
    match f.findOne(Qt5Core) {
      case None =>
      case Some(core) => StoreAllWellFormed(d, Qt5Plan(f, core), "Prefix");
    }
  }

  lemma Located6WellFormed(d: Dict<Path>, f: Finder)
    requires DistinctKeys(d) && "Prefix" !in Keys(d)
    ensures DistinctKeys(LocatedQt6(d, f)) && "Prefix" !in Keys(LocatedQt6(d, f))
  {
    match f.findOne(Qt6Core) {
      case None =>
      case Some(core) => StoreAllWellFormed(d, Qt6Plan(f, core), "Prefix");
    }
  }

  /** With the core library found, `Libraries` is its directory, and a helper
      that starts empty ends with at least that entry. */
  lemma CoreFoundGivesLibraries(d: Dict<Path>, f: Finder)
    ensures f.findOne(Qt5Core).Some? ==>
              Lookup(LocatedQt5(d, f), "Libraries") == Some(Parent(f.findOne(Qt5Core).value)) &&
              LocatedQt5(d, f) != []
    ensures f.findOne(Qt6Core).Some? ==>
              Lookup(LocatedQt6(d, f), "Libraries") == Some(Parent(f.findOne(Qt6Core).value)) &&
              LocatedQt6(d, f) != []
    ensures f.findOne(Qt4Core).Some? ==>
              Lookup(LocatedQt4(d, f), "Libraries") == Some(Parent(f.findOne(Qt4Core).value)) &&
              LocatedQt4(d, f) != []
  {
    if f.findOne(Qt5Core).Some? {
      StoreAllLast(d, Qt5Plan(f, f.findOne(Qt5Core).value), 0);
    }
    if f.findOne(Qt6Core).Some? {
      StoreAllLast(d, Qt6Plan(f, f.findOne(Qt6Core).value), 0);
    }
    if f.findOne(Qt4Core).Some? {
      if f.qmakeDirs == [] {
        LookupStore(d, "Libraries", Parent(f.findOne(Qt4Core).value), "Libraries");
      } else {
        StoreAllLast(d, Qt4Plan(f, f.findOne(Qt4Core).value, f.qmakeDirs[0]), 0);
      }
    }
  }

  /** `Plugins` is the grandparent of the marker plugin: `libqjpcodecs.so` for
      Qt 4, `libqminimal.so` for Qt 5 and 6 (a plugin lives in
      `plugins/<kind>/`). */
  lemma PluginsIsGrandparent(f: Finder)
    ensures f.findOne(Qt5Core).Some? && f.findOne(PluginMarker).Some? ==>
              Lookup(LocatedQt5([], f), "Plugins") == Some(Parent(Parent(f.findOne(PluginMarker).value)))
    ensures f.findOne(Qt6Core).Some? && f.findOne(PluginMarker).Some? ==>
              Lookup(LocatedQt6([], f), "Plugins") == Some(Parent(Parent(f.findOne(PluginMarker).value)))
    ensures f.findOne(Qt4Core).Some? && f.qmakeDirs != [] && f.findOne(Qt4PluginMarker).Some? ==>
              Lookup(LocatedQt4([], f), "Plugins") == Some(Parent(Parent(f.findOne(Qt4PluginMarker).value)))
  {
    if f.findOne(Qt5Core).Some? && f.findOne(PluginMarker).Some? {
      StoreAllLast([], Qt5Plan(f, f.findOne(Qt5Core).value), 3);
    }
    if f.findOne(Qt6Core).Some? && f.findOne(PluginMarker).Some? {
      StoreAllLast([], Qt6Plan(f, f.findOne(Qt6Core).value), 3);
    }
    if f.findOne(Qt4Core).Some? && f.qmakeDirs != [] && f.findOne(Qt4PluginMarker).Some? {
      StoreAllLast([], Qt4Plan(f, f.findOne(Qt4Core).value, f.qmakeDirs[0]), 2);
    }
  }

  /** Qt 6 is given the same directory for `QmlImports` and `Qml2Imports`. */
  lemma Qt6QmlImportsAgree(d: Dict<Path>, f: Finder)
    requires f.findOne(Qt6Core).Some? && f.findOne(QmlTypes).Some?
    ensures Lookup(LocatedQt6(d, f), "QmlImports") == Lookup(LocatedQt6(d, f), "Qml2Imports")
              == Some(Parent(f.findOne(QmlTypes).value))
  {
    var plan := Qt6Plan(f, f.findOne(Qt6Core).value);
    StoreAllLast(d, plan, 4);
    StoreAllLast(d, plan, 5);
  }

  /** Qt 4's `Binaries` is the parent of the first directory found holding `qmake`. */
  lemma Qt4BinariesFromQmakeDir(f: Finder)
    requires f.findOne(Qt4Core).Some? && f.qmakeDirs != []
    ensures Lookup(LocatedQt4([], f), "Binaries") == Some(Parent(f.qmakeDirs[0]))
  {
    StoreAllLast([], Qt4Plan(f, f.findOne(Qt4Core).value, f.qmakeDirs[0]), 1);
  }

  // ------------------------------------------------------------ qt.conf

  /** A `qt.conf` `[Paths]` section: key and value texts in order. */
  type Conf = Dict<string>

  /** `_generate_conf`: `Prefix` leads to the AppDir from `base`, then every
      located directory relative to the AppDir. */
  function GeneratedConf(appDir: Path, base: Path, content: Dict<Path>): Result<Conf, QtError> {
    Converted([("Prefix", RelativeText(RelPath(appDir, base)))], appDir, content)
  }

  /** The loop of `_generate_conf` from `config` on, over the rest of `content`. */
  function Converted(config: Conf, appDir: Path, content: Dict<Path>): Result<Conf, QtError>
    decreases |content|
  {
    if content == [] then Ok(config)
    else match RelativeTo(content[0].1, appDir)
      case None => Err(OutsideAppDir(content[0].1))
      case Some(rel) => Converted(Store(config, content[0].0, RelativeText(rel)), appDir, content[1..])
  }

  /** Every located directory lies inside the AppDir. */
  predicate InsideAppDir(appDir: Path, content: Dict<Path>) {
    forall k :: 0 <= k < |content| ==> RelativeTo(content[k].1, appDir).Some?
  }

  /** A conf entry per located directory, its value the directory relative to the AppDir. */
  function RelativeEntries(appDir: Path, content: Dict<Path>): (r: Conf)
    requires InsideAppDir(appDir, content)
    ensures |r| == |content|
  {
    if content == [] then []
    else
      [(content[0].0, RelativeText(RelativeTo(content[0].1, appDir).value))] +
      RelativeEntries(appDir, content[1..])
  }

  lemma {:induction false} RelativeEntriesAt(appDir: Path, content: Dict<Path>, k: nat)
    requires InsideAppDir(appDir, content) && k < |content|
    ensures RelativeEntries(appDir, content)[k] ==
              (content[k].0, RelativeText(RelativeTo(content[k].1, appDir).value))
    decreases k
  {
    InsideAppDirCons(appDir, content);
    if k > 0 {
      RelativeEntriesAt(appDir, content[1..], k - 1);
      assert content[1..][k - 1] == content[k];
    }
  }

  /** `_generate_conf` fails exactly when a located directory is outside the
      AppDir, and then names the first such one; otherwise the conf is
      `Prefix` followed by one entry per located directory, in order. */
  lemma GeneratedConfMeaning(appDir: Path, base: Path, content: Dict<Path>)
    requires DistinctKeys(content) && "Prefix" !in Keys(content)
    ensures GeneratedConf(appDir, base, content).Ok? <==> InsideAppDir(appDir, content)
    ensures InsideAppDir(appDir, content) ==>
              GeneratedConf(appDir, base, content) ==
                Ok([("Prefix", RelativeText(RelPath(appDir, base)))] + RelativeEntries(appDir, content))
    ensures GeneratedConf(appDir, base, content).Err? ==>
              exists k :: 0 <= k < |content| && RelativeTo(content[k].1, appDir).None? &&
                GeneratedConf(appDir, base, content).error == OutsideAppDir(content[k].1) &&
                InsideAppDir(appDir, content[..k])
  {
    var config := [("Prefix", RelativeText(RelPath(appDir, base)))];
    ConvertedFails(config, appDir, content);
    if InsideAppDir(appDir, content) {
      forall k | 0 <= k < |content| ensures content[k].0 !in Keys(config) {
        assert content[k].0 in Keys(content);
      }
      ConvertedOk(config, appDir, content);
    }
  }

  /** For the directories the helper locates from its empty start, the conf is
      `Prefix` followed by one entry per located directory exactly when all of
      them lie inside the AppDir. */
  lemma LocatedConf(appDir: Path, base: Path, f: Finder)
    ensures var c := LocatedQt4([], f);
      GeneratedConf(appDir, base, c).Ok? <==> InsideAppDir(appDir, c)
    ensures var c := LocatedQt4([], f); InsideAppDir(appDir, c) ==>
      GeneratedConf(appDir, base, c) == Ok([("Prefix", RelativeText(RelPath(appDir, base)))] + RelativeEntries(appDir, c))
    ensures var c := LocatedQt5([], f);
      GeneratedConf(appDir, base, c).Ok? <==> InsideAppDir(appDir, c)
    ensures var c := LocatedQt5([], f); InsideAppDir(appDir, c) ==>
      GeneratedConf(appDir, base, c) == Ok([("Prefix", RelativeText(RelPath(appDir, base)))] + RelativeEntries(appDir, c))
    ensures var c := LocatedQt6([], f);
      GeneratedConf(appDir, base, c).Ok? <==> InsideAppDir(appDir, c)
    ensures var c := LocatedQt6([], f); InsideAppDir(appDir, c) ==>
      GeneratedConf(appDir, base, c) == Ok([("Prefix", RelativeText(RelPath(appDir, base)))] + RelativeEntries(appDir, c))
  {
    var empty: Dict<Path> := [];
    assert Keys(empty) == {};
    LocatedWellFormed(empty, f);
    GeneratedConfMeaning(appDir, base, LocatedQt4(empty, f));
    GeneratedConfMeaning(appDir, base, LocatedQt5(empty, f));
    GeneratedConfMeaning(appDir, base, LocatedQt6(empty, f));
  }

  lemma {:induction false} ConvertedFails(config: Conf, appDir: Path, content: Dict<Path>)
    ensures Converted(config, appDir, content).Ok? <==> InsideAppDir(appDir, content)
    ensures Converted(config, appDir, content).Err? ==>
              exists k :: 0 <= k < |content| && RelativeTo(content[k].1, appDir).None? &&
                Converted(config, appDir, content).error == OutsideAppDir(content[k].1) &&
                InsideAppDir(appDir, content[..k])
    decreases |content|
  {
    if content != [] {
      var rest := content[1..];
      match RelativeTo(content[0].1, appDir)
      case None =>
        assert content[..0] == [];
      case Some(rel) =>
        var next := Store(config, content[0].0, RelativeText(rel));
        ConvertedFails(next, appDir, rest);
        InsideAppDirCons(appDir, content);
        if Converted(next, appDir, rest).Err? {
          var k :| 0 <= k < |rest| && RelativeTo(rest[k].1, appDir).None? &&
                   Converted(next, appDir, rest).error == OutsideAppDir(rest[k].1) &&
                   InsideAppDir(appDir, rest[..k]);
          assert rest[k] == content[k + 1];
          assert content[..k + 1] == [content[0]] + rest[..k];
          InsideAppDirCons(appDir, content[..k + 1]);
        }
    }
  }

  lemma InsideAppDirCons(appDir: Path, content: Dict<Path>)
    requires content != []
    ensures InsideAppDir(appDir, content) <==>
              RelativeTo(content[0].1, appDir).Some? && InsideAppDir(appDir, content[1..])
  {
    if RelativeTo(content[0].1, appDir).Some? && InsideAppDir(appDir, content[1..]) {
      forall k | 0 <= k < |content| ensures RelativeTo(content[k].1, appDir).Some? {
        if k > 0 { assert content[k] == content[1..][k - 1]; }
      }
    }
    if InsideAppDir(appDir, content) {
      forall k | 0 <= k < |content[1..]| ensures RelativeTo(content[1..][k].1, appDir).Some? {
        assert content[1..][k] == content[k + 1];
      }
    }
  }

  lemma {:induction false} ConvertedOk(config: Conf, appDir: Path, content: Dict<Path>)
    requires DistinctKeys(content) && DistinctKeys(config) && InsideAppDir(appDir, content)
    requires forall k :: 0 <= k < |content| ==> content[k].0 !in Keys(config)
    ensures Converted(config, appDir, content) == Ok(config + RelativeEntries(appDir, content))
    decreases |content|
  {
    if content == [] {
      assert config + [] == config;
    } else {
      InsideAppDirCons(appDir, content);
      var next := ConvertedNext(config, appDir, content);
      ConvertedOk(next, appDir, content[1..]);
      EntriesCons(config, appDir, content);
    }
  }

  lemma EntriesCons(config: Conf, appDir: Path, content: Dict<Path>)
    requires content != [] && InsideAppDir(appDir, content) && InsideAppDir(appDir, content[1..])
    ensures var entry := (content[0].0, RelativeText(RelativeTo(content[0].1, appDir).value));
      config + [entry] + RelativeEntries(appDir, content[1..]) == config + RelativeEntries(appDir, content)
  {
  }

  /** One turn of the loop of `_generate_conf` over keys it has not seen: the
      entry goes last and the rest of the keys are still new. */
  lemma ConvertedNext(config: Conf, appDir: Path, content: Dict<Path>) returns (next: Conf)
    requires content != [] && RelativeTo(content[0].1, appDir).Some?
    requires DistinctKeys(content) && DistinctKeys(config)
    requires forall k :: 0 <= k < |content| ==> content[k].0 !in Keys(config)
    ensures var entry := (content[0].0, RelativeText(RelativeTo(content[0].1, appDir).value));
      next == config + [entry] &&
      Converted(config, appDir, content) == Converted(next, appDir, content[1..])
    ensures DistinctKeys(content[1..]) && DistinctKeys(next)
    ensures forall k :: 0 <= k < |content[1..]| ==> content[1..][k].0 !in Keys(next)
  {
    var rest := content[1..];
    var entry := (content[0].0, RelativeText(RelativeTo(content[0].1, appDir).value));
    next := config + [entry];
    StoreNewKey(config, entry.0, entry.1);
    DistinctAppend(config, entry);
    KeysAppend(config, entry);
    forall i, j | 0 <= i < j < |rest| ensures rest[i].0 != rest[j].0 {
      assert rest[i] == content[i + 1] && rest[j] == content[j + 1];
    }
    forall k | 0 <= k < |rest| ensures rest[k].0 !in Keys(next) {
      assert rest[k] == content[k + 1];
    }
  }

  /** The `Prefix` of a generated conf leads from the directory it is written
      in back to the AppDir, and every other value leads from the AppDir to
      the directory it was located at. */
  lemma GeneratedConfResolves(appDir: Path, base: Path, content: Dict<Path>, k: nat)
    requires forall i :: 0 <= i < |appDir| ==> appDir[i] != ".."
    requires InsideAppDir(appDir, content) && k < |content|
    ensures Resolve(base, RelPath(appDir, base)) == appDir
    ensures appDir + RelativeTo(content[k].1, appDir).value == content[k].1
  {
    RelPathResolves(appDir, base);
  }

  /** One line of the `[Paths]` section: `"%s = %s\n" % (k, v)`. */
  function Line(entry: (string, string)): string {
    entry.0 + " = " + entry.1 + "\n"
  }

  function LinesText(conf: Conf): string {
    if conf == [] then "" else Line(conf[0]) + LinesText(conf[1..])
  }

  /** The text `_write_qt_conf` and `_write_qt6_conf` write. */
  function ConfText(conf: Conf): string {
    "[Paths]\n" + LinesText(conf)
  }

  lemma {:induction false} LinesTextSnoc(conf: Conf, entry: (string, string))
    ensures LinesText(conf + [entry]) == LinesText(conf) + Line(entry)
  {
    if conf != [] {
      assert (conf + [entry])[1..] == conf[1..] + [entry];
      LinesTextSnoc(conf[1..], entry);
    } else {
      assert [entry][1..] == [];
    }
  }

  /** Reading a `[Paths]` section back: one `key = value` line per entry,
      split at the first ` = `. */
  function ParseConf(text: string): Option<Conf> {
    if StartsWith(text, "[Paths]\n") then ParseLines(text[8..]) else None
  }

  function ParseLines(s: string): Option<Conf>
    decreases |s|
  {
    if s == [] then Some([])
    else match FindFrom(s, "\n", 0)
      case None => None
      case Some(i) =>
        var line := s[..i];
        match FindFrom(line, " = ", 0)
        case None => None
        case Some(j) =>
          match ParseLines(s[i + 1..])
          case None => None
          case Some(rest) => Some([(line[..j], line[j + 3..])] + rest)
  }

  /** Keys without spaces or line breaks and values without line breaks: the
      entries a conf file can hold unambiguously. */
  predicate Writable(conf: Conf) {
    forall k :: 0 <= k < |conf| ==> ' ' !in conf[k].0 && '\n' !in conf[k].0 && '\n' !in conf[k].1
  }

  /** The written text starts with the section header and gives back exactly
      the entries, in order. */
  lemma ParseConfText(conf: Conf)
    requires Writable(conf)
    ensures StartsWith(ConfText(conf), "[Paths]\n")
    ensures ParseConf(ConfText(conf)) == Some(conf)
  {
    var t := ConfText(conf);
    assert t[..8] == "[Paths]\n";
    assert t[8..] == LinesText(conf);
    ParseLinesText(conf);
  }

  lemma {:induction false} ParseLinesText(conf: Conf)
    requires Writable(conf)
    ensures ParseLines(LinesText(conf)) == Some(conf)
  {
    if conf != [] {
      assert Writable(conf[1..]) by {
        forall i | 0 <= i < |conf[1..]| ensures ' ' !in conf[1..][i].0 && '\n' !in conf[1..][i].0 && '\n' !in conf[1..][i].1 {
          assert conf[1..][i] == conf[i + 1];
        }
      }
      ParseLinesText(conf[1..]);
      ParseFirstLine(conf[0], LinesText(conf[1..]));
      assert [conf[0]] + conf[1..] == conf;
    }
  }

  /** A written line is read back as its entry, and reading goes on right after it. */
  lemma ParseFirstLine(entry: (string, string), rest: string)
    requires ' ' !in entry.0 && '\n' !in entry.0 && '\n' !in entry.1
    ensures ParseLines(Line(entry) + rest) ==
              if ParseLines(rest).Some? then Some([entry] + ParseLines(rest).value) else None
  {
    var (k, v) := entry;
    var line := k + " = " + v;
    var s := Line(entry) + rest;
    var p := |line|;
    assert s == line + "\n" + rest;
    assert s[p..p + 1] == "\n";
    forall q | 0 <= q < p ensures s[q] != "\n"[0] {
      assert s[q] == line[q];
      if q < |k| { assert line[q] == k[q]; }
      else if q >= |k| + 3 { assert line[q] == v[q - |k| - 3]; }
    }
    FindFromFirstOccurrence(s, "\n", 0, p);
    assert s[..p] == line;
    assert line[|k|..|k| + 3] == " = ";
    forall q | 0 <= q < |k| ensures line[q] != " = "[0] {
      assert line[q] == k[q];
    }
    FindFromFirstOccurrence(line, " = ", 0, |k|);
    assert line[..|k|] == k && line[|k| + 3..] == v;
    assert s[p + 1..] == rest;
  }

  // ------------------------------------------------------------ deployment

  /** The files after writing a conf named `name` into each of `execDirs` in
      turn, and whether a `relative_to` raised on the way. */
  function Deployed(files: map<Path, string>, appDir: Path, dirs: Dict<Path>, execDirs: seq<Path>, name: string)
    : (map<Path, string>, Outcome<QtError>)
    decreases |execDirs|
  {
    if execDirs == [] then (files, Pass)
    else match GeneratedConf(appDir, execDirs[0], dirs)
      case Err(e) => (files, Fail(e))
      case Ok(conf) => Deployed(files[execDirs[0] + [name] := ConfText(conf)], appDir, dirs, execDirs[1..], name)
  }

  /** A `configure_qtN` after locating: nothing when no directory was located,
      the deployment of the conf into every executable directory otherwise. */
  function DeployIfLocated(files: map<Path, string>, appDir: Path, dirs: Dict<Path>, execDirs: seq<Path>, name: string)
    : (map<Path, string>, Outcome<QtError>)
  {
    if dirs == [] then (files, Pass) else Deployed(files, appDir, dirs, execDirs, name)
  }

  /** The conf files a deployment into `execDirs` writes. */
  function ConfPaths(execDirs: seq<Path>, name: string): set<Path> {
    set d | d in execDirs :: d + [name]
  }

  /** Deployment fails only when there is a directory to write to and a
      located directory lies outside the AppDir, and then writes nothing. */
  lemma {:induction false} DeployedFails(files: map<Path, string>, appDir: Path, dirs: Dict<Path>, execDirs: seq<Path>, name: string)
    ensures Deployed(files, appDir, dirs, execDirs, name).1.Fail? <==>
              execDirs != [] && GeneratedConf(appDir, execDirs[0], dirs).Err?
    ensures Deployed(files, appDir, dirs, execDirs, name).1.Fail? ==>
              Deployed(files, appDir, dirs, execDirs, name).0 == files
    decreases |execDirs|
  {
    if execDirs != [] && GeneratedConf(appDir, execDirs[0], dirs).Ok? {
      var next := files[execDirs[0] + [name] := ConfText(GeneratedConf(appDir, execDirs[0], dirs).value)];
      DeployedFails(next, appDir, dirs, execDirs[1..], name);
      if execDirs[1..] != [] {
        GeneratedConfErrorIgnoresBase(appDir, execDirs[0], dirs, execDirs[1..][0]);
      }
    }
  }

  /** A successful deployment writes, into every executable directory, the
      conf generated for that directory, and adds no other file. */
  lemma {:induction false} DeployedWrites(files: map<Path, string>, appDir: Path, dirs: Dict<Path>, execDirs: seq<Path>, name: string)
    requires Deployed(files, appDir, dirs, execDirs, name).1.Pass?
    ensures var out := Deployed(files, appDir, dirs, execDirs, name).0;
      out.Keys == files.Keys + ConfPaths(execDirs, name) &&
      forall d | d in execDirs ::
        GeneratedConf(appDir, d, dirs).Ok? && out[d + [name]] == ConfText(GeneratedConf(appDir, d, dirs).value)
    decreases |execDirs|
  {
    if execDirs != [] {
      var d0 := execDirs[0];
      var rest := execDirs[1..];
      var next := files[d0 + [name] := ConfText(GeneratedConf(appDir, d0, dirs).value)];
      DeployedWrites(next, appDir, dirs, rest, name);
      var out := Deployed(next, appDir, dirs, rest, name).0;
      assert ConfPaths(execDirs, name) == {d0 + [name]} + ConfPaths(rest, name);
      forall d | d in execDirs
        ensures GeneratedConf(appDir, d, dirs).Ok? && out[d + [name]] == ConfText(GeneratedConf(appDir, d, dirs).value)
      {
        GeneratedConfErrorIgnoresBase(appDir, d0, dirs, d);
        if d !in rest {
          assert d == d0;
          forall e | e in rest ensures e + [name] != d0 + [name] {
            SnocInjective(e, d0, name);
          }
          DeployedKeeps(next, appDir, dirs, rest, name, d0 + [name]);
        }
      }
    }
  }

  lemma SnocInjective(a: Path, b: Path, x: string)
    ensures a + [x] == b + [x] ==> a == b
  {
    if a + [x] == b + [x] {
      assert a == (a + [x])[..|a|];
      assert b == (b + [x])[..|b|];
    }
  }

  /** Deployment leaves every file other than the confs it writes as it was. */
  lemma {:induction false} DeployedKeeps(files: map<Path, string>, appDir: Path, dirs: Dict<Path>, execDirs: seq<Path>, name: string, p: Path)
    requires p in files && p !in ConfPaths(execDirs, name)
    ensures var out := Deployed(files, appDir, dirs, execDirs, name).0;
      p in out && out[p] == files[p]
    decreases |execDirs|
  {
    if execDirs != [] && GeneratedConf(appDir, execDirs[0], dirs).Ok? {
      var next := files[execDirs[0] + [name] := ConfText(GeneratedConf(appDir, execDirs[0], dirs).value)];
      assert ConfPaths(execDirs, name) == {execDirs[0] + [name]} + ConfPaths(execDirs[1..], name);
      DeployedKeeps(next, appDir, dirs, execDirs[1..], name, p);
    }
  }

  /** Whether `_generate_conf` raises does not depend on the directory it generates for. */
  lemma GeneratedConfErrorIgnoresBase(appDir: Path, a: Path, dirs: Dict<Path>, b: Path)
    ensures GeneratedConf(appDir, a, dirs).Err? == GeneratedConf(appDir, b, dirs).Err?
  {
    ConvertedErrorIgnoresConfig([("Prefix", RelativeText(RelPath(appDir, a)))],
                                [("Prefix", RelativeText(RelPath(appDir, b)))], appDir, dirs);
  }

  lemma {:induction false} ConvertedErrorIgnoresConfig(c1: Conf, c2: Conf, appDir: Path, content: Dict<Path>)
    ensures Converted(c1, appDir, content).Err? == Converted(c2, appDir, content).Err?
    decreases |content|
  {
    if content != [] && RelativeTo(content[0].1, appDir).Some? {
      var rel := RelativeTo(content[0].1, appDir).value;
      ConvertedErrorIgnoresConfig(Store(c1, content[0].0, RelativeText(rel)),
                                  Store(c2, content[0].0, RelativeText(rel)), appDir, content[1..]);
    }
  }

  // ------------------------------------------------------------ the helper

  /** `Qt`: the AppDir, the directories located per Qt version, and the files
      the helper has written (path to text). */
  class Qt {
    const appDir: Path
    var qt4Dirs: Dict<Path>
    var qt5Dirs: Dict<Path>
    var qt6Dirs: Dict<Path>
    var files: map<Path, string>

    constructor (appDir: Path, files: map<Path, string>)
      ensures this.appDir == appDir && this.files == files
      ensures qt4Dirs == [] && qt5Dirs == [] && qt6Dirs == []
    {
      this.appDir := appDir;
      this.files := files;
      qt4Dirs := [];
      qt5Dirs := [];
      qt6Dirs := [];
    }

    /** `_locate_qt4_dirs`. */
    method LocateQt4Dirs(finder: Finder) returns (o: Outcome<QtError>)
      modifies this`qt4Dirs
      ensures qt4Dirs == LocatedQt4(old(qt4Dirs), finder)
      ensures o == if Qt4LocateFails(finder) then Fail(QmakeMissing) else Pass
    {
      var core := finder.findOne(Qt4Core);
      if core.None? {
        return Pass;
      }
      ghost var before := qt4Dirs;
      qt4Dirs := Store(qt4Dirs, "Libraries", Parent(core.value));
      var paths := finder.qmakeDirs;
      if paths == [] {
        return Fail(QmakeMissing);
      }
      StoreAllFive(before, Qt4Plan(finder, core.value, paths[0]));
      qt4Dirs := Store(qt4Dirs, "Binaries", Parent(paths[0]));
      var plugin := finder.findOne(Qt4PluginMarker);
      if plugin.Some? {
        qt4Dirs := Store(qt4Dirs, "Plugins", Parent(Parent(plugin.value)));
      }
      var qmlTypes := finder.findOne(QmlTypes);
      if qmlTypes.Some? {
        qt4Dirs := Store(qt4Dirs, "Qml2Imports", Parent(qmlTypes.value));
      }
      var translations := finder.findOne(Qt4Translations);
      if translations.Some? {
        qt4Dirs := Store(qt4Dirs, "Translations", translations.value);
      }
      return Pass;
    }

    /** `_locate_qt5_dirs`. */
    method LocateQt5Dirs(finder: Finder)
      modifies this`qt5Dirs
      ensures qt5Dirs == LocatedQt5(old(qt5Dirs), finder)
    {
      var core := finder.findOne(Qt5Core);
      if core.None? {
        return;
      }
      StoreAllSeven(qt5Dirs, Qt5Plan(finder, core.value));
      qt5Dirs := Store(qt5Dirs, "Libraries", Parent(core.value));
      var webEngine := finder.findOne(WebEngineProcess);
      if webEngine.Some? {
        qt5Dirs := Store(qt5Dirs, "LibraryExecutables", Parent(webEngine.value));
      }
      var qmake := finder.findOne(Qmake5);
      if qmake.Some? {
        qt5Dirs := Store(qt5Dirs, "Binaries", Parent(qmake.value));
      }
      var plugin := finder.findOne(PluginMarker);
      if plugin.Some? {
        qt5Dirs := Store(qt5Dirs, "Plugins", Parent(Parent(plugin.value)));
      }
      var qmlTypes := finder.findOne(QmlTypes);
      if qmlTypes.Some? {
        qt5Dirs := Store(qt5Dirs, "Qml2Imports", Parent(qmlTypes.value));
      }
      var translations := finder.findOne(Qt5Translations);
      if translations.Some? {
        qt5Dirs := Store(qt5Dirs, "Translations", translations.value);
      }
      var data := finder.findOne(Qt5Resources);
      if data.Some? {
        qt5Dirs := Store(qt5Dirs, "Data", Parent(data.value));
      }
    }

    /** `_locate_qt6_dirs`. */
    method LocateQt6Dirs(finder: Finder)
      modifies this`qt6Dirs
      ensures qt6Dirs == LocatedQt6(old(qt6Dirs), finder)
    {
      var core := finder.findOne(Qt6Core);
      if core.None? {
        return;
      }
      StoreAllEight(qt6Dirs, Qt6Plan(finder, core.value));
      qt6Dirs := Store(qt6Dirs, "Libraries", Parent(core.value));
      var webEngine := finder.findOne(WebEngineProcess);
      if webEngine.Some? {
        qt6Dirs := Store(qt6Dirs, "LibraryExecutables", Parent(webEngine.value));
      }
      var qmake := finder.findOne(Qmake6);
      if qmake.Some? {
        qt6Dirs := Store(qt6Dirs, "Binaries", Parent(qmake.value));
      }
      var plugin := finder.findOne(PluginMarker);
      if plugin.Some? {
        qt6Dirs := Store(qt6Dirs, "Plugins", Parent(Parent(plugin.value)));
      }
      var qmlTypes := finder.findOne(QmlTypes);
      if qmlTypes.Some? {
        qt6Dirs := Store(qt6Dirs, "QmlImports", Parent(qmlTypes.value));
      }
      if qmlTypes.Some? {
        qt6Dirs := Store(qt6Dirs, "Qml2Imports", Parent(qmlTypes.value));
      }
      var translations := finder.findOne(Qt6Translations);
      if translations.Some? {
        qt6Dirs := Store(qt6Dirs, "Translations", translations.value);
      }
      var data := finder.findOne(Qt6Resources);
      if data.Some? {
        qt6Dirs := Store(qt6Dirs, "Data", Parent(data.value));
      }
    }

    /** `_generate_conf`. */
    method GenerateConf(basePath: Path, content: Dict<Path>) returns (r: Result<Conf, QtError>)
      ensures r == GeneratedConf(appDir, basePath, content)
    {
      var config: Conf := [("Prefix", RelativeText(RelPath(appDir, basePath)))];
      for i := 0 to |content|
        invariant Converted(config, appDir, content[i..]) == GeneratedConf(appDir, basePath, content)
      {
        assert content[i..][1..] == content[i + 1..];
        var (k, v) := content[i];
        var rel := RelativeTo(v, appDir);
        if rel.None? {
          return Err(OutsideAppDir(v));
        }
        config := Store(config, k, RelativeText(rel.value));
      }
      assert content[|content|..] == [];
      return Ok(config);
    }

    /** `_write_qt_conf`: `target_dir/qt.conf` holds the `[Paths]` section. */
    method WriteQtConf(qtConf: Conf, targetDir: Path)
      modifies this`files
      ensures files == old(files)[targetDir + ["qt.conf"] := ConfText(qtConf)]
    {
      var text := "[Paths]\n";
      for i := 0 to |qtConf|
        modifies {}
        invariant text == "[Paths]\n" + LinesText(qtConf[..i])
      {
        LinesTextSnoc(qtConf[..i], qtConf[i]);
        assert qtConf[..i + 1] == qtConf[..i] + [qtConf[i]];
        text := text + Line(qtConf[i]);
      }
      assert qtConf[..|qtConf|] == qtConf;
      files := files[targetDir + ["qt.conf"] := text];
    }

    /** `_write_qt6_conf`: the same section, in `target_dir/qt6.conf`. */
    method WriteQt6Conf(qtConf: Conf, targetDir: Path)
      modifies this`files
      ensures files == old(files)[targetDir + ["qt6.conf"] := ConfText(qtConf)]
    {
      var text := "[Paths]\n";
      for i := 0 to |qtConf|
        modifies {}
        invariant text == "[Paths]\n" + LinesText(qtConf[..i])
      {
        LinesTextSnoc(qtConf[..i], qtConf[i]);
        assert qtConf[..i + 1] == qtConf[..i] + [qtConf[i]];
        text := text + Line(qtConf[i]);
      }
      assert qtConf[..|qtConf|] == qtConf;
      files := files[targetDir + ["qt6.conf"] := text];
    }

    /** `_configure_qt4`: locate, then a `qt.conf` per executable directory
      when anything was located. */
    method ConfigureQt4(finder: Finder) returns (o: Outcome<QtError>)
      modifies this`qt4Dirs, this`files
      ensures qt4Dirs == LocatedQt4(old(qt4Dirs), finder)
      ensures finder.findOne(Qt4Core).None? ==> qt4Dirs == old(qt4Dirs)
      ensures Qt4LocateFails(finder) ==> o == Fail(QmakeMissing) && files == old(files)
      ensures !Qt4LocateFails(finder) && qt4Dirs == [] ==> o == Pass && files == old(files)
      ensures !Qt4LocateFails(finder) && qt4Dirs != [] ==>
                (files, o) == Deployed(old(files), appDir, qt4Dirs, finder.execDirs, "qt.conf")
    {
      o := LocateQt4Dirs(finder);
      if o.Fail? || qt4Dirs == [] {
        return;
      }
      var execDirs := finder.execDirs;
      ghost var before := files;
      for i := 0 to |execDirs|
        modifies this`files
        invariant Deployed(files, appDir, qt4Dirs, execDirs[i..], "qt.conf") ==
                  Deployed(before, appDir, qt4Dirs, execDirs, "qt.conf")
      {
        assert execDirs[i..][1..] == execDirs[i + 1..];
        var qtConf := GenerateConf(execDirs[i], qt4Dirs);
        if qtConf.Err? {
          return Fail(qtConf.error);
        }
        WriteQtConf(qtConf.value, execDirs[i]);
      }
      assert execDirs[|execDirs|..] == [];
      return Pass;
    }

    /** `_configure_qt5`. */
    method ConfigureQt5(finder: Finder) returns (o: Outcome<QtError>)
      modifies this`qt5Dirs, this`files
      ensures qt5Dirs == LocatedQt5(old(qt5Dirs), finder)
      ensures finder.findOne(Qt5Core).None? ==> qt5Dirs == old(qt5Dirs)
      ensures qt5Dirs == [] ==> o == Pass && files == old(files)
      ensures qt5Dirs != [] ==> (files, o) == Deployed(old(files), appDir, qt5Dirs, finder.execDirs, "qt.conf")
    {
      LocateQt5Dirs(finder);
      if qt5Dirs == [] {
        return Pass;
      }
      var execDirs := finder.execDirs;
      ghost var before := files;
      for i := 0 to |execDirs|
        modifies this`files
        invariant Deployed(files, appDir, qt5Dirs, execDirs[i..], "qt.conf") ==
                  Deployed(before, appDir, qt5Dirs, execDirs, "qt.conf")
      {
        assert execDirs[i..][1..] == execDirs[i + 1..];
        var qtConf := GenerateConf(execDirs[i], qt5Dirs);
        if qtConf.Err? {
          return Fail(qtConf.error);
        }
        WriteQtConf(qtConf.value, execDirs[i]);
      }
      assert execDirs[|execDirs|..] == [];
      return Pass;
    }

    /** `_configure_qt6`: the files are named `qt6.conf`. */
    method ConfigureQt6(finder: Finder) returns (o: Outcome<QtError>)
      modifies this`qt6Dirs, this`files
      ensures qt6Dirs == LocatedQt6(old(qt6Dirs), finder)
      ensures finder.findOne(Qt6Core).None? ==> qt6Dirs == old(qt6Dirs)
      ensures qt6Dirs == [] ==> o == Pass && files == old(files)
      ensures qt6Dirs != [] ==> (files, o) == Deployed(old(files), appDir, qt6Dirs, finder.execDirs, "qt6.conf")
    {
      LocateQt6Dirs(finder);
      if qt6Dirs == [] {
        return Pass;
      }
      var execDirs := finder.execDirs;
      ghost var before := files;
      for i := 0 to |execDirs|
        modifies this`files
        invariant Deployed(files, appDir, qt6Dirs, execDirs[i..], "qt6.conf") ==
                  Deployed(before, appDir, qt6Dirs, execDirs, "qt6.conf")
      {
        assert execDirs[i..][1..] == execDirs[i + 1..];
        var qtConf := GenerateConf(execDirs[i], qt6Dirs);
        if qtConf.Err? {
          return Fail(qtConf.error);
        }
        WriteQt6Conf(qtConf.value, execDirs[i]);
      }
      assert execDirs[|execDirs|..] == [];
      return Pass;
    }

    /** `configure`: Qt 4, then 5, then 6; an exception stops the rest. */
    method Configure(finder: Finder) returns (o: Outcome<QtError>)
      modifies this`qt4Dirs, this`qt5Dirs, this`qt6Dirs, this`files
      ensures qt4Dirs == LocatedQt4(old(qt4Dirs), finder)
      ensures Qt4LocateFails(finder) ==>
                o == Fail(QmakeMissing) && files == old(files) && qt5Dirs == old(qt5Dirs) && qt6Dirs == old(qt6Dirs)
      ensures !Qt4LocateFails(finder) ==>
                var (f4, o4) := DeployIfLocated(old(files), appDir, qt4Dirs, finder.execDirs, "qt.conf");
                var (f5, o5) := DeployIfLocated(f4, appDir, LocatedQt5(old(qt5Dirs), finder), finder.execDirs, "qt.conf");
                if o4.Fail? then (files, o) == (f4, o4) && qt5Dirs == old(qt5Dirs) && qt6Dirs == old(qt6Dirs)
                else if o5.Fail? then (files, o) == (f5, o5) && qt5Dirs == LocatedQt5(old(qt5Dirs), finder) && qt6Dirs == old(qt6Dirs)
                else qt5Dirs == LocatedQt5(old(qt5Dirs), finder) && qt6Dirs == LocatedQt6(old(qt6Dirs), finder) &&
                     (files, o) == DeployIfLocated(f5, appDir, qt6Dirs, finder.execDirs, "qt6.conf")
      ensures o.Pass? ==> qt5Dirs == LocatedQt5(old(qt5Dirs), finder) && qt6Dirs == LocatedQt6(old(qt6Dirs), finder)
      ensures finder.findOne(Qt4Core).None? && finder.findOne(Qt5Core).None? && finder.findOne(Qt6Core).None? ==>
                qt4Dirs == old(qt4Dirs) && qt5Dirs == old(qt5Dirs) && qt6Dirs == old(qt6Dirs)
      ensures !Qt4LocateFails(finder) && qt4Dirs == [] && qt5Dirs == [] && qt6Dirs == [] ==>
                o == Pass && files == old(files)
    {
      o := ConfigureQt4(finder);
      if o.Fail? {
        return;
      }
      o := ConfigureQt5(finder);
      if o.Fail? {
        return;
      }
      o := ConfigureQt6(finder);
    }
  }
}
