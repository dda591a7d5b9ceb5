/**
 * The persistent key-value store that py3status modules use to keep values
 * under (module name, key) across restarts (py3status/storage.py).
 *
 * The storage file is an append-only log of records, one JSON object per line.
 * Here the file is a sequence of `Record`s and each record carries the decoded
 * value: the JSON text is not modelled, and for the values below
 * `json.loads(json.dumps(v)) == v` holds, so a record may as well hold `v`.
 */
module Storage {
  import opened Wrappers

  /** A value as `json.loads` returns it (floating-point numbers are not modelled). */
  datatype Value =
    | Null
    | Bool(b: bool)
    | Int(i: int)
    | Str(s: string)
    | List(items: seq<Value>)
    | Object(fields: map<string, Value>)

  /** The integer a Python bool compares equal to. */
  function BoolAsInt(b: bool): int {
    if b then 1 else 0
  }

  /**
   * Python's `==` on such values: structural, except that `True == 1` and
   * `False == 0`, also inside lists and dictionaries. Every value is `==` to
   * itself, and on `None` and strings `==` is plain equality.
   */
  function PyEquals(a: Value, b: Value): (r: bool)
    ensures a == b ==> r
    ensures a.Null? || b.Null? || a.Str? || b.Str? ==> (r <==> a == b)
  {
    match a
    case Null => b.Null?
    case Bool(x) => (b.Bool? && b.b == x) || (b.Int? && b.i == BoolAsInt(x))
    case Int(x) => (b.Int? && b.i == x) || (b.Bool? && x == BoolAsInt(b.b))
    case Str(x) => b.Str? && b.s == x
    case List(xs) =>
      b.List? && |xs| == |b.items| && forall i :: 0 <= i < |xs| ==> PyEquals(xs[i], b.items[i])
    case Object(f) =>
      b.Object? && f.Keys == b.fields.Keys && forall k :: k in f ==> PyEquals(f[k], b.fields[k])
  }

  /** Python's `==` is symmetric on these values, so which side is stored does not matter. */
  lemma {:induction false} PyEqualsSymmetric(a: Value, b: Value)
    ensures PyEquals(a, b) == PyEquals(b, a)
  {
    match a
    case List(xs) =>
      if b.List? && |xs| == |b.items| {
        forall i | 0 <= i < |xs| ensures PyEquals(xs[i], b.items[i]) == PyEquals(b.items[i], xs[i]) {
          PyEqualsSymmetric(xs[i], b.items[i]);
        }
      }
    case Object(f) =>
      if b.Object? && f.Keys == b.fields.Keys {
        forall k | k in f ensures PyEquals(f[k], b.fields[k]) == PyEquals(b.fields[k], f[k]) {
          PyEqualsSymmetric(f[k], b.fields[k]);
        }
      }
    case _ =>
  }

  /** A boolean and its integer are `==` in Python although they are distinct JSON values. */
  lemma BoolEqualsItsInt(b: bool)
    ensures PyEquals(Bool(b), Int(BoolAsInt(b))) && Bool(b) != Int(BoolAsInt(b))
  {
  }

  /**
   * One line of the storage file:
   * `{"type": "json", "module", "key", "value"}` or `{"type": "clear", "module", "key"}`.
   * A clear record's key is `None` when `storage_clear` is called without one.
   */
  datatype Record =
    | Write(moduleName: string, key: string, value: Value)
    | Clear(moduleName: string, target: Option<string>)

  /** The key a record is about (`None` for a clear without a key). */
  function KeyOf(r: Record): Option<string> {
    if r.Write? then Some(r.key) else r.target
  }

  /** Whether record `r` is about entry (m, k). */
  predicate Touches(r: Record, m: string, k: string) {
    r.moduleName == m && KeyOf(r) == Some(k)
  }

  /** What a record leaves in the entry it touches: its value, or nothing for a clear. */
  function Effect(r: Record): Option<Value> {
    if r.Write? then Some(r.value) else None
  }

  /** `Storage.data`: module name to that module's dictionary of keys and values. */
  type Data = map<string, map<string, Value>>

  /** The entry (m, k), if present. */
  function Lookup(d: Data, m: string, k: string): Option<Value> {
    if m in d && k in d[m] then Some(d[m][k]) else None
  }

  /** `d.get(m, {})` */
  function Namespace(d: Data, m: string): (ns: map<string, Value>)
    ensures forall k :: k in ns <==> Lookup(d, m, k).Some?
  {
    if m in d then d[m] else map[]
  }

  /** `d.get(m, {}).get(k)`: the stored value, or `None` when the module or the key is absent. */
  function PyGet(d: Data, m: string, k: string): (v: Value)
    ensures Lookup(d, m, k).Some? ==> v == Lookup(d, m, k).value
    ensures Lookup(d, m, k).None? ==> v == Null
  {
    var ns := Namespace(d, m);
    if k in ns then ns[k] else Null
  }

  /** `d[m][k] = v`, creating the module's dictionary when it is missing. */
  function SetEntry(d: Data, m: string, k: string, v: Value): (r: Data)
    ensures Lookup(r, m, k) == Some(v)
    ensures forall m', k' :: m' != m || k' != k ==> Lookup(r, m', k') == Lookup(d, m', k')
    ensures r.Keys == d.Keys + {m}
  {
    d[m := Namespace(d, m)[k := v]]
  }

  /** `del d[m][k]` when the entry is present; otherwise nothing, and no module is created. */
  function ClearEntry(d: Data, m: string, target: Option<string>): (r: Data)
    ensures target.Some? ==> Lookup(r, m, target.value) == None
    ensures forall m', k' :: m' != m || target != Some(k') ==> Lookup(r, m', k') == Lookup(d, m', k')
    ensures r.Keys == d.Keys
  {
    if target.Some? && m in d && target.value in d[m] then d[m := d[m] - {target.value}] else d
  }

  /** The effect of one record on the dictionary, as `init` applies it. */
  function Apply(d: Data, r: Record): (d': Data)
    ensures forall m, k :: Lookup(d', m, k) == if Touches(r, m, k) then Effect(r) else Lookup(d, m, k)
  {
    match r
    case Write(m, k, v) => SetEntry(d, m, k, v)
    case Clear(m, t) => ClearEntry(d, m, t)
  }

  /**
   * Replaying a log on `d`: the records are applied in file order. An entry
   * that no record is about keeps its value.
   */
  function Replay(d: Data, log: seq<Record>): (r: Data)
    ensures forall m, k :: (forall i :: 0 <= i < |log| ==> !Touches(log[i], m, k)) ==>
      Lookup(r, m, k) == Lookup(d, m, k)
    decreases |log|
  {
    if log == [] then d else Replay(Apply(d, log[0]), log[1..])
  }

  /** Replaying two pieces of a log one after the other is replaying the whole log. */
  lemma {:induction false} ReplayAppend(d: Data, a: seq<Record>, b: seq<Record>)
    ensures Replay(d, a + b) == Replay(Replay(d, a), b)
    decreases |a|
  {
    if a == [] {
      assert a + b == b;
    } else {
      assert (a + b)[0] == a[0];
      assert (a + b)[1..] == a[1..] + b;
      ReplayAppend(Apply(d, a[0]), a[1..], b);
    }
  }

  /** Replaying one record more is applying it. */
  lemma ReplaySnoc(d: Data, log: seq<Record>, r: Record)
    ensures Replay(d, log + [r]) == Apply(Replay(d, log), r)
  {
    ReplayAppend(d, log, [r]);
    assert [r][1..] == [];
  }

  /**
   * Reference reading of a log for one entry: the last record about (m, k)
   * decides it; when no record is about it, it keeps `start`.
   */
  function Latest(log: seq<Record>, m: string, k: string, start: Option<Value>): Option<Value>
    decreases |log|
  {
    if log == [] then start
    else if Touches(log[|log| - 1], m, k) then Effect(log[|log| - 1])
    else Latest(log[..|log| - 1], m, k, start)
  }

  /** Last record wins: replay leaves every entry as the last record about it says. */
  lemma {:induction false} LastRecordWins(d: Data, log: seq<Record>, m: string, k: string)
    ensures Lookup(Replay(d, log), m, k) == Latest(log, m, k, Lookup(d, m, k))
    decreases |log|
  {
    if log != [] {
      var n := |log| - 1;
      assert log == log[..n] + [log[n]];
      ReplaySnoc(d, log[..n], log[n]);
      LastRecordWins(d, log[..n], m, k);
    }
  }

  /** When exactly one record is about (m, k), it decides the entry. */
  lemma {:induction false} LatestOfUnique(log: seq<Record>, m: string, k: string, start: Option<Value>, i: nat)
    requires i < |log| && Touches(log[i], m, k)
    requires forall j :: 0 <= j < |log| && j != i ==> !Touches(log[j], m, k)
    ensures Latest(log, m, k, start) == Effect(log[i])
    decreases |log|
  {
    var n := |log| - 1;
    if i < n {
      assert !Touches(log[n], m, k);
      LatestOfUnique(log[..n], m, k, start, i);
    }
  }

  /** When no record is about (m, k), the entry keeps its starting value. */
  lemma {:induction false} LatestUntouched(log: seq<Record>, m: string, k: string, start: Option<Value>)
    requires forall j :: 0 <= j < |log| ==> !Touches(log[j], m, k)
    ensures Latest(log, m, k, start) == start
    decreases |log|
  {
    if log != [] {
      LatestUntouched(log[..|log| - 1], m, k, start);
    }
  }

  /** No module maps to an empty dictionary. */
  ghost predicate NoEmptyModule(d: Data) {
    forall m :: m in d ==> d[m] != map[]
  }

  /**
   * `d` without the modules whose dictionary is empty. A clear can leave such a
   * module behind; no replay from an empty dictionary recreates it from a
   * vacuumed log, and `storage_get` and `storage_keys` cannot tell it apart
   * from an absent module.
   */
  function Normalize(d: Data): (r: Data)
    ensures forall m, k :: Lookup(r, m, k) == Lookup(d, m, k)
    ensures NoEmptyModule(r)
  {
    map m | m in d && d[m] != map[] :: d[m]
  }

  /** Two dictionaries without empty modules and with the same entries are equal. */
  lemma Extensional(a: Data, b: Data)
    requires NoEmptyModule(a) && NoEmptyModule(b)
    requires forall m, k :: Lookup(a, m, k) == Lookup(b, m, k)
    ensures a == b
  {
    forall m | m in a ensures m in b && a[m] == b[m] {
      assert a[m] != map[];
      var k :| k in a[m];
      assert Lookup(a, m, k).Some?;
      forall k': string ensures (k' in a[m] <==> k' in b[m]) && (k' in a[m] ==> a[m][k'] == b[m][k']) {
        assert Lookup(a, m, k') == Lookup(b, m, k');
      }
    }
    forall m | m in b ensures m in a {
      assert b[m] != map[];
      var k :| k in b[m];
      assert Lookup(b, m, k) == Lookup(a, m, k);
    }
  }

  /** Normalized dictionaries are equal exactly when the dictionaries have the same entries. */
  lemma NormalizeEquiv(a: Data, b: Data)
    ensures Normalize(a) == Normalize(b) <==> forall m, k :: Lookup(a, m, k) == Lookup(b, m, k)
  {
    if forall m, k :: Lookup(a, m, k) == Lookup(b, m, k) {
      Extensional(Normalize(a), Normalize(b));
    }
  }

  /**
   * The store invariant is kept by one step: if the log replays to the
   * entries of `d`, the log with `r` appended replays to the entries of `d`
   * updated by `r`.
   */
  lemma LogStep(log: seq<Record>, d: Data, r: Record)
    requires Normalize(Replay(map[], log)) == Normalize(d)
    ensures Normalize(Replay(map[], log + [r])) == Normalize(Apply(d, r))
  {
    var x := Replay(map[], log);
    ReplaySnoc(map[], log, r);
    NormalizeEquiv(x, d);
    NormalizeEquiv(Apply(x, r), Apply(d, r));
  }

  /** What `vacuum` writes: one `json` record per entry of `d`, in any order, and nothing else. */
  ghost predicate IsCompaction(d: Data, out: seq<Record>) {
    && (forall i :: 0 <= i < |out| ==>
          out[i].Write? && Lookup(d, out[i].moduleName, out[i].key) == Some(out[i].value))
    && (forall i, j :: 0 <= i < j < |out| ==>
          out[i].moduleName != out[j].moduleName || KeyOf(out[i]) != KeyOf(out[j]))
    && (forall m, k :: Lookup(d, m, k).Some? ==> exists i :: 0 <= i < |out| && Touches(out[i], m, k))
  }

  /** Replaying write records only never leaves an empty module behind. */
  lemma {:induction false} ReplayWritesNoEmpty(d: Data, log: seq<Record>)
    requires NoEmptyModule(d)
    requires forall i :: 0 <= i < |log| ==> log[i].Write?
    ensures NoEmptyModule(Replay(d, log))
    decreases |log|
  {
    if log != [] {
      var d' := Apply(d, log[0]);
      assert NoEmptyModule(d') by {
        forall m | m in d' ensures d'[m] != map[] {
          if m == log[0].moduleName {
            assert log[0].key in d'[m];
          } else {
            assert d'[m] == d[m];
          }
        }
      }
      ReplayWritesNoEmpty(d', log[1..]);
    }
  }

  /** Replaying a compaction of `d` from an empty dictionary gives back each entry of `d`. */
  lemma CompactionEntry(d: Data, out: seq<Record>, m: string, k: string)
    requires IsCompaction(d, out)
    ensures Lookup(Replay(map[], out), m, k) == Lookup(d, m, k)
  {
    LastRecordWins(map[], out, m, k);
    if Lookup(d, m, k).Some? {
      var i :| 0 <= i < |out| && Touches(out[i], m, k);
      forall j | 0 <= j < |out| && j != i ensures !Touches(out[j], m, k) {
        if j < i {
          assert out[j].moduleName != out[i].moduleName || KeyOf(out[j]) != KeyOf(out[i]);
        } else {
          assert out[i].moduleName != out[j].moduleName || KeyOf(out[i]) != KeyOf(out[j]);
        }
      }
      LatestOfUnique(out, m, k, None, i);
    } else {
      forall j | 0 <= j < |out| ensures !Touches(out[j], m, k) {
        assert Lookup(d, out[j].moduleName, out[j].key).Some?;
      }
      LatestUntouched(out, m, k, None);
    }
  }

  /** Replaying a compaction of `d` from an empty dictionary gives back the entries of `d`. */
  lemma CompactionReplays(d: Data, out: seq<Record>)
    requires IsCompaction(d, out)
    ensures Replay(map[], out) == Normalize(d)
  {
    forall m, k ensures Lookup(Replay(map[], out), m, k) == Lookup(Normalize(d), m, k) {
      CompactionEntry(d, out, m, k);
    }
    ReplayWritesNoEmpty(map[], out);
    Extensional(Replay(map[], out), Normalize(d));
  }

  /** The record `encode` builds for a write: replayed on any dictionary it stores `v` under (m, k) and touches nothing else. */
  function Encode(m: string, k: string, v: Value): (r: Record)
    ensures forall d :: Lookup(Apply(d, r), m, k) == Some(v)
    ensures forall d, m', k' :: m' != m || k' != k ==> Lookup(Apply(d, r), m', k') == Lookup(d, m', k')
  {
    Write(m, k, v)
  }

  /**
   * The temporary file `vacuum` writes: for every module and every key of it,
   * one `json` record of the current value.
   */
  method WriteCompacted(d: Data) returns (out: seq<Record>)
    ensures IsCompaction(d, out)
    ensures Replay(map[], out) == Normalize(d)
  {
    out := [];
    var modules := d.Keys;
    while modules != {}
      invariant modules <= d.Keys
      invariant forall i :: 0 <= i < |out| ==>
        out[i].Write? && out[i].moduleName in d.Keys - modules &&
        Lookup(d, out[i].moduleName, out[i].key) == Some(out[i].value)
      invariant forall i, j :: 0 <= i < j < |out| ==>
        out[i].moduleName != out[j].moduleName || KeyOf(out[i]) != KeyOf(out[j])
      invariant forall m, k :: m !in modules && Lookup(d, m, k).Some? ==>
        exists i :: 0 <= i < |out| && Touches(out[i], m, k)
      decreases modules
    {
      var m :| m in modules;
      var entries := d[m];
      var keys := entries.Keys;
      while keys != {}
        invariant keys <= entries.Keys
        invariant forall i :: 0 <= i < |out| ==>
          out[i].Write? &&
          (out[i].moduleName in d.Keys - modules || (out[i].moduleName == m && out[i].key !in keys)) &&
          Lookup(d, out[i].moduleName, out[i].key) == Some(out[i].value)
        invariant forall i, j :: 0 <= i < j < |out| ==>
          out[i].moduleName != out[j].moduleName || KeyOf(out[i]) != KeyOf(out[j])
        invariant forall m', k :: (m' !in modules || (m' == m && k !in keys)) && Lookup(d, m', k).Some? ==>
          exists i :: 0 <= i < |out| && Touches(out[i], m', k)
        decreases keys
      {
        var k :| k in keys;
        ghost var prev := out;
        out := out + [Write(m, k, entries[k])];
        forall m', k' | (m' !in modules || (m' == m && k' !in keys - {k})) && Lookup(d, m', k').Some?
          ensures exists i :: 0 <= i < |out| && Touches(out[i], m', k')
        {
          if m' == m && k' == k {
            assert Touches(out[|prev|], m', k');
          } else {
            var i :| 0 <= i < |prev| && Touches(prev[i], m', k');
            assert out[i] == prev[i];
          }
        }
        keys := keys - {k};
      }
      modules := modules - {m};
    }
    CompactionReplays(d, out);
  }

  /**
   * The store. `data` is the dictionary in memory; `disk` is the storage
   * file, `None` while no file exists at the storage path.
   */
  class Storage {
    var data: Data
    var disk: Option<seq<Record>>
    var initialized: bool

    /** The records of the storage file (none when it does not exist). */
    function Log(): seq<Record>
      reads this
    {
      if disk.Some? then disk.value else []
    }

    /**
     * The file holds no record unless something was stored, and once
     * initialized, replaying the file gives exactly the entries in memory.
     */
    ghost predicate Valid()
      reads this
    {
      && (disk.None? ==> data == map[])
      && (initialized ==> Normalize(Replay(map[], Log())) == Normalize(data))
    }

    /** A store whose dictionary starts empty, over the file `file` found at the storage path. */
    constructor(file: Option<seq<Record>>)
      ensures Valid() && !initialized
      ensures data == map[] && disk == file
    {
      data := map[];
      disk := file;
      initialized := false;
    }

    /**
     * `init`: replay the storage file into the dictionary in file order and
     * vacuum it. A missing file is no error: nothing is read, nothing is
     * vacuumed, and the store is initialized all the same.
     */
    method Init()
      requires Valid()
      modifies this
      ensures Valid() && initialized
      ensures old(disk).None? ==> data == old(data) && disk == None
      ensures old(disk).Some? ==>
        data == Replay(old(data), old(disk).value) && disk.Some? && IsCompaction(data, disk.value)
    {
      if disk.Some? {
        var lines := disk.value;
        ghost var start := data;
        var i := 0;
        while i < |lines|
          invariant 0 <= i <= |lines|
          invariant data == Replay(start, lines[..i])
          invariant disk == old(disk) && initialized == old(initialized)
        {
          var r := lines[i];
          ApplyRecord(r);
          ReplaySnoc(start, lines[..i], r);
          assert lines[..i + 1] == lines[..i] + [r];
          i := i + 1;
        }
        assert lines[..i] == lines;
        Vacuum();
        NormalizeEquiv(Normalize(data), data);
      }
      initialized := true;
    }

    /**
     * One line of the loop in `init`: a `clear` deletes the entry when it is
     * present, a `json` record stores its value, creating the module's
     * dictionary when it is missing.
     */
    method ApplyRecord(r: Record)
      modifies this`data
      ensures data == Apply(old(data), r)
    {
      match r {
        case Clear(m, target) =>
          if target.Some? && m in data && target.value in data[m] {
            data := data[m := data[m] - {target.value}];
          }
        case Write(m, k, v) =>
          if m !in data {
            data := data[m := map[]];
          }
          data := data[m := data[m][k := v]];
      }
    }

    /**
     * `vacuum`: write one record per entry to a temporary file and rename it
     * over the storage file, which then replays to exactly the entries in memory.
     */
    method Vacuum()
      modifies this
      ensures data == old(data) && initialized == old(initialized)
      ensures disk.Some? && IsCompaction(data, disk.value)
      ensures Replay(map[], Log()) == Normalize(data)
    {
      var tmp := WriteCompacted(data);
      disk := Some(tmp);
    }

    /**
     * `storage_set`: nothing happens when the stored value is already `==` to
     * `v` (an absent key counts as `None`); otherwise the dictionary is
     * updated first, then one `json` record is appended to the file.
     */
    method StorageSet(m: string, k: string, v: Value)
      requires Valid() && initialized
      modifies this
      ensures Valid() && initialized
      ensures PyEquals(PyGet(old(data), m, k), v) ==> data == old(data) && disk == old(disk)
      ensures Lookup(old(data), m, k).None? && v == Null ==> data == old(data) && disk == old(disk)
      ensures !PyEquals(PyGet(old(data), m, k), v) ==>
        data == SetEntry(old(data), m, k, v) && disk == Some(old(Log()) + [Encode(m, k, v)])
    {
      if PyEquals(PyGet(data, m, k), v) {
        return;
      }
      ghost var before, log := data, Log();
      if m !in data {
        data := data[m := map[]];
      }
      data := data[m := data[m][k := v]];
      assert data == SetEntry(before, m, k, v) by {
        if m in before {
          assert data == before[m := before[m][k := v]];
        } else {
          assert data == before[m := map[k := v]];
        }
      }
      LogStep(log, before, Encode(m, k, v));
      disk := Some(Log() + [Encode(m, k, v)]);
    }

    /** `storage_get`: the stored value, or `None`; a restart from the file would read the same. */
    function StorageGet(m: string, k: string): (v: Value)
      reads this
      ensures Lookup(data, m, k).None? ==> v == Null
      ensures Lookup(data, m, k).Some? ==> v == Lookup(data, m, k).value
      ensures Valid() && initialized ==> v == PyGet(Replay(map[], Log()), m, k)
    {
      PyGet(data, m, k)
    }

    /**
     * `storage_clear`: delete the entry when it is present, and append one
     * `clear` record in every case, also when there was nothing to delete or
     * no key was given.
     */
    method StorageClear(m: string, target: Option<string>)
      requires Valid() && initialized
      modifies this
      ensures Valid() && initialized
      ensures data == ClearEntry(old(data), m, target)
      ensures disk == Some(old(Log()) + [Clear(m, target)])
    {
      if target.Some? && m in data && target.value in data[m] {
        data := data[m := data[m] - {target.value}];
      }
      LogStep(Log(), old(data), Clear(m, target));
      disk := Some(Log() + [Clear(m, target)]);
    }

    /** `storage_keys`: the keys stored for module `m`, none for an unknown module; a restart would list the same. */
    function StorageKeys(m: string): (ks: set<string>)
      reads this
      ensures forall k :: k in ks <==> Lookup(data, m, k).Some?
      ensures m !in data ==> ks == {}
      ensures Valid() && initialized ==> forall k :: k in ks <==> Lookup(Replay(map[], Log()), m, k).Some?
    {
      Namespace(data, m).Keys
    }
  }

  /**
   * A process restart: a new store over the same file, initialized, reads
   * back every value and every key set of the old one.
   */
  method Restart(s: Storage) returns (t: Storage)
    requires s.Valid() && s.initialized
    ensures fresh(t) && t.Valid() && t.initialized
    ensures forall m, k :: t.StorageGet(m, k) == s.StorageGet(m, k)
    ensures forall m :: t.StorageKeys(m) == s.StorageKeys(m)
  {
    t := new Storage(s.disk);
    t.Init();
  }
}
