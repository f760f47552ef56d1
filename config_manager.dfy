/**
 * sql_generator/utils/config_manager.py: dotted-path reads and writes on
 * the nested configuration dict held by Config.
 *
 * A path "a.b.c" is split on '.' into keys. Reading follows the keys
 * through nested dicts; writing walks to the parent of the last key,
 * creating an empty dict for every missing intermediate key, and stores the
 * value there. Nested dicts are values here: Set rebuilds the dicts along
 * the path instead of updating shared ones in place.
 */
module ConfigManager {
  import opened Wrappers
  import opened Strings
  import opened Values

  /**
   * value = value[key] for each key in turn; None where Python raises
   * KeyError (a missing key) or TypeError (indexing something that is not a
   * dict: a list or string indexed by a string key, a number, None).
   */
  function Walk(keys: seq<string>, v: Value): Option<Value> {
    if keys == [] then Some(v)
    else if v.Object? && keys[0] in v.fields then Walk(keys[1..], v.fields[keys[0]])
    else None
  }

  /** config.get(key_path, default) */
  function GetPath(data: map<string, Value>, path: string, default: Value): Value {
    Walk(Split(path, '.'), Object(data)).GetOr(default)
  }

  /** Reading a + b reads a, then b from what a reached. */
  lemma {:induction false} WalkAppend(a: seq<string>, b: seq<string>, v: Value)
    ensures Walk(a + b, v) == match Walk(a, v) case Some(w) => Walk(b, w) case None => None
  {
    if a != [] {
      assert (a + b)[0] == a[0] && (a + b)[1..] == a[1..] + b;
      if v.Object? && a[0] in v.fields {
        WalkAppend(a[1..], b, v.fields[a[0]]);
      }
    } else {
      assert a + b == b;
    }
  }

  /**
   * get returns the default as soon as one key is missing or one value on
   * the way is not a dict: the j-th key cannot be looked up in what the
   * first j keys reached.
   */
  lemma GetFallsBack(data: map<string, Value>, path: string, default: Value, j: nat)
    requires j < |Split(path, '.')|
    requires var keys := Split(path, '.'); var w := Walk(keys[..j], Object(data));
      w.Some? && !(w.value.Object? && keys[j] in w.value.fields)
    ensures GetPath(data, path, default) == default
  {
    var keys := Split(path, '.');
    WalkAppend(keys[..j], keys[j..], Object(data));
    assert keys[..j] + keys[j..] == keys;
    assert keys[j..][0] == keys[j];
  }

  /** Where the set loop moves for `key`: the existing entry, or the empty dict it inserts. */
  function Child(fields: map<string, Value>, key: string): Value {
    if key in fields then fields[key] else Object(map[])
  }

  const TypeError: string := "TypeError"

  /**
   * The dict after config.set with the path split into `keys`; an error
   * when an existing intermediate value is not a dict (the membership test
   * or the assignment then raises TypeError).
   */
  function SetPath(fields: map<string, Value>, keys: seq<string>, v: Value): Result<map<string, Value>>
    requires |keys| >= 1
    decreases |keys|
  {
    if |keys| == 1 then Ok(fields[keys[0] := v])
    else match Child(fields, keys[0])
      case Object(inner) =>
        (match SetPath(inner, keys[1..], v)
         case Ok(updated) => Ok(fields[keys[0] := Object(updated)])
         case Err(e) => Err(e))
      case _ => Err(TypeError)
  }

  /** The nest of one-entry dicts that set builds below a missing key. */
  function Nest(keys: seq<string>, v: Value): (r: map<string, Value>)
    requires |keys| >= 1
    ensures r.Keys == {keys[0]}
    decreases |keys|
  {
    map[keys[0] := if |keys| == 1 then v else Object(Nest(keys[1..], v))]
  }

  /** The j-th intermediate value along `keys` exists and is not a dict. */
  predicate BlockedAt(fields: map<string, Value>, keys: seq<string>, j: nat)
    requires j < |keys|
  {
    var w := Walk(keys[..j + 1], Object(fields));
    w.Some? && !w.value.Object?
  }

  /** After a successful set, reading the same keys gives the value written. */
  lemma {:induction false} GetAfterSet(fields: map<string, Value>, keys: seq<string>, v: Value)
    requires |keys| >= 1 && SetPath(fields, keys, v).Ok?
    ensures Walk(keys, Object(SetPath(fields, keys, v).value)) == Some(v)
    decreases |keys|
  {
    if |keys| > 1 {
      GetAfterSet(Child(fields, keys[0]).fields, keys[1..], v);
    }
  }

  /** The same, stated on dotted paths and config.get. */
  lemma GetAfterSetPath(data: map<string, Value>, path: string, v: Value, default: Value)
    requires SetPath(data, Split(path, '.'), v).Ok?
    ensures GetPath(SetPath(data, Split(path, '.'), v).value, path, default) == v
  {
    GetAfterSet(data, Split(path, '.'), v);
  }

  /**
   * Set leaves every path that branches off the written one unchanged: a
   * path whose i-th key differs from the i-th written key reads as before.
   */
  lemma {:induction false} SetFrame(fields: map<string, Value>, keys: seq<string>, v: Value, q: seq<string>, i: nat)
    requires |keys| >= 1 && SetPath(fields, keys, v).Ok?
    requires i < |q| && i < |keys| && q[i] != keys[i]
    ensures Walk(q, Object(SetPath(fields, keys, v).value)) == Walk(q, Object(fields))
    decreases |keys|
  {
    var updated := SetPath(fields, keys, v).value;
    if q[0] != keys[0] {
      assert q[0] in updated <==> q[0] in fields;
      if q[0] in fields {
        assert updated[q[0]] == fields[q[0]];
      }
    } else {
      var inner := Child(fields, keys[0]).fields;
      SetFrame(inner, keys[1..], v, q[1..], i - 1);
      assert updated[keys[0]] == Object(SetPath(inner, keys[1..], v).value);
      if keys[0] !in fields {
        assert q[1..] != [] && q[1..][0] !in inner;
      }
    }
  }

  /** Below a missing key, set creates one new dict per remaining intermediate key. */
  lemma {:induction false} SetCreatesMissing(fields: map<string, Value>, keys: seq<string>, v: Value)
    requires |keys| >= 1
    ensures keys[0] !in fields ==> SetPath(fields, keys, v) == Ok(fields + Nest(keys, v))
    decreases |keys|
  {
    if keys[0] !in fields {
      if |keys| == 1 {
        assert fields + Nest(keys, v) == fields[keys[0] := v];
      } else {
        SetCreatesMissing(map[], keys[1..], v);
        assert map[] + Nest(keys[1..], v) == Nest(keys[1..], v);
        assert fields + Nest(keys, v) == fields[keys[0] := Object(Nest(keys[1..], v))];
      }
    }
  }

  /** Set fails exactly when some existing intermediate value is not a dict. */
  lemma {:induction false} SetFailsIff(fields: map<string, Value>, keys: seq<string>, v: Value)
    requires |keys| >= 1
    ensures SetPath(fields, keys, v).Err? <==> exists j :: 0 <= j < |keys| - 1 && BlockedAt(fields, keys, j)
    decreases |keys|
  {
    if |keys| > 1 {
      var k := keys[0];
      assert keys[..1] == [k] && [k][1..] == [];
      if k !in fields {
        SetCreatesMissing(fields, keys, v);
        forall j | 0 <= j < |keys| - 1
          ensures !BlockedAt(fields, keys, j)
        {
          assert keys[..j + 1][0] == k;
        }
      } else if fields[k].Object? {
        var inner := fields[k].fields;
        SetFailsIff(inner, keys[1..], v);
        forall j | 0 < j < |keys| - 1
          ensures BlockedAt(fields, keys, j) <==> BlockedAt(inner, keys[1..], j - 1)
        {
          assert keys[..j + 1][0] == k && keys[..j + 1][1..] == keys[1..][..j];
        }
        assert Walk(keys[..1], Object(fields)) == Walk([], fields[k]) == Some(fields[k]);
        if SetPath(fields, keys, v).Err? {
          var j :| 0 <= j < |keys[1..]| - 1 && BlockedAt(inner, keys[1..], j);
          assert BlockedAt(fields, keys, j + 1);
        }
        if exists j :: 0 <= j < |keys| - 1 && BlockedAt(fields, keys, j) {
          var j :| 0 <= j < |keys| - 1 && BlockedAt(fields, keys, j);
          assert j > 0 && BlockedAt(inner, keys[1..], j - 1);
        }
      } else {
        assert BlockedAt(fields, keys, 0);
      }
    }
  }

  /** Descending along a chain whose i-th step is blocked makes every suffix of the set fail. */
  lemma {:induction false} ChainFails(chain: seq<map<string, Value>>, keys: seq<string>, v: Value, i: nat, j: nat)
    requires i < |keys| - 1 && |chain| == i + 1 && j <= i
    requires forall t :: 0 <= t < i ==> Child(chain[t], keys[t]) == Object(chain[t + 1])
    requires !Child(chain[i], keys[i]).Object?
    ensures SetPath(chain[j], keys[j..], v).Err?
    decreases i - j
  {
    assert keys[j..][0] == keys[j];
    if j < i {
      ChainFails(chain, keys, v, i, j + 1);
      assert keys[j..][1..] == keys[j + 1..];
    }
  }

  class Config {
    /** self._config_data */
    var data: map<string, Value>

    constructor (data: map<string, Value>)
      ensures this.data == data
    {
      this.data := data;
    }

    method Get(path: string, default: Value) returns (v: Value)
      ensures v == GetPath(data, path, default)
    {
      var keys := Split(path, '.');
      var current := Object(data);
      var i := 0;
      while i < |keys|
        invariant 0 <= i <= |keys|
        invariant Walk(keys, Object(data)) == Walk(keys[i..], current)
      {
        assert keys[i..][1..] == keys[i + 1..];
        if current.Object? && keys[i] in current.fields {
          current := current.fields[keys[i]];
        } else {
          return default;
        }
        i := i + 1;
      }
      assert keys[i..] == [];
      return current;
    }

    method Set(path: string, value: Value) returns (r: Result<()>)
      modifies this
      ensures var result := SetPath(old(data), Split(path, '.'), value);
        && (result.Ok? ==> r.Ok? && data == result.value)
        && (result.Err? ==> r == Err(TypeError) && data == old(data))
    {
      var keys := Split(path, '.');
      var n := |keys| - 1;
      // Walk to the parent of the last key, remembering each dict passed.
      var chain: seq<map<string, Value>> := [data];
      var i := 0;
      while i < n
        invariant 0 <= i <= n && |chain| == i + 1 && chain[0] == data
        invariant forall t :: 0 <= t < i ==> Child(chain[t], keys[t]) == Object(chain[t + 1])
      {
        var next := Child(chain[i], keys[i]);
        if !next.Object? {
          ChainFails(chain, keys, value, i, 0);
          assert keys[0..] == keys;
          return Err(TypeError);
        }
        chain := chain + [next.fields];
        i := i + 1;
      }
      // Store the value, then put each rebuilt dict back into its parent.
      assert keys[n..] == [keys[n]];
      var updated := chain[n][keys[n] := value];
      var j := n;
      while j > 0
        invariant 0 <= j <= n
        invariant SetPath(chain[j], keys[j..], value) == Ok(updated)
      {
        assert keys[j - 1..][1..] == keys[j..];
        updated := chain[j - 1][keys[j - 1] := Object(updated)];
        j := j - 1;
      }
      assert keys[0..] == keys;
      data := updated;
      return Ok(());
    }
  }
}
