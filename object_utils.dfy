/**
 * `omit`: a shallow copy of an object without the given keys. Objects are
 * values here (maps from keys to values), so the input cannot be changed by
 * the deletions, which happen on the copy.
 */
module ObjectUtils {
  import opened JsValues

  type Object = map<string, JsValue>

  /** The `keys` argument: one key, or an array of keys. */
  datatype Keys = OneKey(key: string) | KeyList(keys: seq<string>)

  /** The keys named by the argument. */
  function KeySet(ks: Keys): (s: set<string>)
    ensures ks.OneKey? ==> s == {ks.key}
    ensures ks.KeyList? ==> forall k :: k in s <==> k in ks.keys
  {
    match ks
    case OneKey(k) => {k}
    case KeyList(keys) => set k | k in keys
  }

  /** The object without the keys in `drop`: the specification of `omit`. */
  function Without(obj: Object, drop: set<string>): (r: Object)
    ensures r.Keys == obj.Keys - drop
    ensures forall k :: k in r ==> r[k] == obj[k]
  {
    map k | k in obj && k !in drop :: obj[k]
  }

  /** `omit(obj, keys)`: clone, then delete each key from the clone in turn. */
  method Omit(obj: Object, keys: Keys) returns (clone: Object)
    ensures clone == Without(obj, KeySet(keys))
  {
    clone := obj;
    match keys {
      case KeyList(ks) =>
        var i := 0;
        while i < |ks|
          invariant 0 <= i <= |ks|
          invariant clone == Without(obj, set j | 0 <= j < i :: ks[j])
        {
          assert (set j | 0 <= j < i + 1 :: ks[j]) == (set j | 0 <= j < i :: ks[j]) + {ks[i]};
          clone := clone - {ks[i]};
          i := i + 1;
        }
        assert (set j | 0 <= j < |ks| :: ks[j]) == KeySet(keys);
      case OneKey(k) =>
        clone := clone - {k};
    }
  }

  /** `omit(o, k)` and `omit(o, [k])` give the same object. */
  lemma OmitSingleIsList(obj: Object, k: string)
    ensures Without(obj, KeySet(OneKey(k))) == Without(obj, KeySet(KeyList([k])))
  {
    assert KeySet(KeyList([k])) == {k};
  }

  /** Omitting no keys gives a copy equal to the input. */
  lemma OmitNothing(obj: Object)
    ensures Without(obj, KeySet(KeyList([]))) == obj
  {
    assert KeySet(KeyList([])) == {};
  }

  /** Omitting in two calls is omitting the union in one, so omitting twice changes nothing more. */
  lemma OmitComposes(obj: Object, a: set<string>, b: set<string>)
    ensures Without(Without(obj, a), b) == Without(obj, a + b)
    ensures Without(Without(obj, a), a) == Without(obj, a)
  {
  }
}
