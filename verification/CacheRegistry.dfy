/**
 The process-wide registry of shared cache backends (src/network/cache_manager.py).
 */
module CacheRegistry {
  import opened Options

  datatype CacheType = Memory | Sqlite | NoCache

  datatype CacheConfig = CacheConfig(cacheType: CacheType, sqliteDbPath: string, sqlitePath: Option<string>,
                                     namespace: string, singleton: bool)

  function TypeName(t: CacheType): string {
    match t
    case Memory => "memory"
    case Sqlite => "sqlite"
    case NoCache => "none"
  }

  /** `config.sqlite_path or config.sqlite_db_path`: an empty path counts as none. */
  function DbPath(c: CacheConfig): string {
    if c.sqlitePath.Some? && c.sqlitePath.value != "" then c.sqlitePath.value else c.sqliteDbPath
  }

  function Identity(c: CacheConfig): string {
    TypeName(c.cacheType) + ":" + DbPath(c) + ":" + c.namespace
  }

  // ---------- When two configurations share a backend ----------

  lemma {:induction false} FirstColonSplits(a: string, x: string, b: string, y: string)
    requires ':' !in a && ':' !in b
    ensures a + ":" + x == b + ":" + y <==> a == b && x == y
    decreases |a|
  {
    var left, right := a + ":" + x, b + ":" + y;
    assert (a != [] ==> a[0] in a) && (b != [] ==> b[0] in b);
    assert left[0] == (if a == [] then ':' else a[0]) && right[0] == (if b == [] then ':' else b[0]);
    if left == right {
      if a == [] {
        assert left[1..] == x && right[1..] == y;
      } else {
        assert left[1..] == a[1..] + ":" + x && right[1..] == b[1..] + ":" + y;
        FirstColonSplits(a[1..], x, b[1..], y);
        assert a == [a[0]] + a[1..] && b == [b[0]] + b[1..];
      }
    }
  }

  lemma {:induction false} LastColonSplits(x: string, a: string, y: string, b: string)
    requires ':' !in a && ':' !in b
    ensures x + ":" + a == y + ":" + b <==> x == y && a == b
    decreases |a|
  {
    var left, right := x + ":" + a, y + ":" + b;
    var n, m := |left| - 1, |right| - 1;
    assert (a != [] ==> a[|a| - 1] in a) && (b != [] ==> b[|b| - 1] in b);
    assert left[n] == (if a == [] then ':' else a[|a| - 1]) && right[m] == (if b == [] then ':' else b[|b| - 1]);
    if left == right {
      if a == [] {
        assert left[..n] == x && right[..n] == y;
      } else {
        var a', b' := a[..|a| - 1], b[..|b| - 1];
        assert left[..n] == x + ":" + a' && right[..n] == y + ":" + b';
        LastColonSplits(x, a', y, b');
        assert a == a' + [a[|a| - 1]] && b == b' + [b[|b| - 1]];
      }
    }
  }

  lemma TypeNamesDiffer(s: CacheType, t: CacheType)
    ensures TypeName(s) == TypeName(t) <==> s == t
    ensures ':' !in TypeName(s)
  {
    assert |TypeName(Memory)| == 6 && |TypeName(NoCache)| == 4;
    assert TypeName(Memory)[0] == 'm' && TypeName(Sqlite)[0] == 's';
  }

  /** Two configurations are identified exactly when their types agree and path and namespace read alike when joined. */
  lemma IdentityIff(c: CacheConfig, d: CacheConfig)
    ensures Identity(c) == Identity(d) <==>
              c.cacheType == d.cacheType && DbPath(c) + ":" + c.namespace == DbPath(d) + ":" + d.namespace
    ensures ':' !in c.namespace && ':' !in d.namespace ==>
              (Identity(c) == Identity(d) <==>
                 c.cacheType == d.cacheType && DbPath(c) == DbPath(d) && c.namespace == d.namespace)
  {
    TypeNamesDiffer(c.cacheType, d.cacheType);
    TypeNamesDiffer(d.cacheType, c.cacheType);
    var p, q := DbPath(c) + ":" + c.namespace, DbPath(d) + ":" + d.namespace;
    assert Identity(c) == TypeName(c.cacheType) + ":" + p;
    assert Identity(d) == TypeName(d.cacheType) + ":" + q;
    FirstColonSplits(TypeName(c.cacheType), p, TypeName(d.cacheType), q);
    if ':' !in c.namespace && ':' !in d.namespace {
      LastColonSplits(DbPath(c), c.namespace, DbPath(d), d.namespace);
    }
  }

  /** A path that is given and not empty decides, whatever the other one says; otherwise the other one does. */
  lemma PathDecides(c: CacheConfig, d: CacheConfig)
    requires c.cacheType == d.cacheType && c.namespace == d.namespace && c.sqlitePath == d.sqlitePath
    ensures Identity(c) == Identity(d) <==>
              (c.sqlitePath.Some? && c.sqlitePath.value != "") || c.sqliteDbPath == d.sqliteDbPath
  {
    IdentityIff(c, d);
    var tail := ":" + c.namespace;
    assert DbPath(c) + ":" + c.namespace == DbPath(c) + tail && DbPath(d) + ":" + d.namespace == DbPath(d) + tail;
    if DbPath(c) + tail == DbPath(d) + tail {
      assert |DbPath(c)| == |DbPath(d)|;
      assert DbPath(c) == (DbPath(c) + tail)[..|DbPath(c)|] == (DbPath(d) + tail)[..|DbPath(d)|] == DbPath(d);
    }
  }

  /** So a colon in a namespace can make two tenants with different database files share one backend. */
  lemma ColonsCollide(path: string, namespace: string)
    ensures var c := CacheConfig(Sqlite, path + ":a", None, namespace, true);
            var d := CacheConfig(Sqlite, path, None, "a:" + namespace, true);
            Identity(c) == Identity(d) && DbPath(c) != DbPath(d) && c.namespace != d.namespace
  {
    var c := CacheConfig(Sqlite, path + ":a", None, namespace, true);
    var d := CacheConfig(Sqlite, path, None, "a:" + namespace, true);
    IdentityIff(c, d);
    assert path + ":a" + ":" + namespace == path + ":" + ("a:" + namespace);
    assert |path + ":a"| == |path| + 2 && |"a:" + namespace| == |namespace| + 2;
  }

  // ---------- The registry ----------

  class Backend {
    var open: bool

    constructor ()
      ensures open
    {
      open := true;
    }
  }

  /** Only the SQLite backend has to pass its own test. */
  predicate Refused(config: CacheConfig, selfTestPasses: bool) {
    config.cacheType == Sqlite && !selfTestPasses
  }

  class CacheManager {
    var instances: map<string, Backend>

    /** A registered backend is open, and registered under one identity only. */
    ghost predicate Valid()
      reads this, instances.Values
    {
      && (forall k <- instances.Keys :: instances[k].open)
      && (forall k <- instances.Keys, l <- instances.Keys :: k != l ==> instances[k] != instances[l])
    }

    constructor ()
      ensures Valid() && instances == map[]
    {
      instances := map[];
    }

    /** `selfTestPasses` is the verdict of the backend's own concurrency test; None is the configuration error. */
    method GetShared(config: CacheConfig, selfTestPasses: bool) returns (backend: Option<Backend>)
      requires Valid()
      modifies this
      ensures Valid()
      ensures !config.singleton ==> backend.Some? && fresh(backend.value) && instances == old(instances)
      ensures config.singleton && Identity(config) in old(instances) ==>
                instances == old(instances) && backend == Some(old(instances)[Identity(config)])
      ensures config.singleton && Identity(config) !in old(instances) && Refused(config, selfTestPasses) ==>
                instances == old(instances) && backend == None
      ensures config.singleton && Identity(config) !in old(instances) && !Refused(config, selfTestPasses) ==>
                backend.Some? && fresh(backend.value) && instances == old(instances)[Identity(config) := backend.value]
      ensures backend.Some? ==> backend.value.open
    {
      if !config.singleton {
        var own := new Backend();
        return Some(own);
      }
      var key := Identity(config);
      if key !in instances {
        var created := new Backend();
        if Refused(config, selfTestPasses) {
          created.open := false;
          return None;
        }
        instances := instances[key := created];
        return Some(created);
      }
      return Some(instances[key]);
    }

    /** Closes every registered backend and forgets them all. */
    method Shutdown()
      requires Valid()
      modifies this, instances.Values
      ensures Valid() && instances == map[]
      ensures forall b <- old(instances.Values) :: !b.open
    {
      var keys := instances.Keys;
      while keys != {}
        invariant instances == old(instances) && keys <= instances.Keys
        invariant forall k <- instances.Keys :: instances[k].open <==> k in keys
        decreases |keys|
      {
        var k :| k in keys;
        instances[k].open := false;
        keys := keys - {k};
      }
      instances := map[];
    }
  }

  /** Callers with one identity share one backend until a shutdown, which closes it; after it they get a new one. */
  method SharingUntilShutdown(m: CacheManager, config: CacheConfig, other: CacheConfig)
    returns (first: Option<Backend>, second: Option<Backend>, third: Option<Backend>)
    requires m.Valid() && config.singleton && other.singleton && Identity(config) == Identity(other)
    modifies m, m.instances.Values
    ensures first == second && first.Some? && third.Some?
    ensures third.value != first.value && third.value.open && !first.value.open
  {
    first := m.GetShared(config, true);
    second := m.GetShared(other, true);
    assert first.value == m.instances[Identity(config)];
    assert first.value in m.instances.Values;
    m.Shutdown();
    third := m.GetShared(other, true);
  }
}
