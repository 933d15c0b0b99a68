/** The JavaScript values the interpreter hands to `JSON.stringify`: strings, numbers, plain objects and arrays. */
module JsonValues {
  import opened Errors
  import opened Strings

  datatype Json =
    | JString(s: string)
    | JNumber(n: int)
    | JObject(members: Members)
    | JArray(items: seq<Json>)

  /** The own properties of a plain object, in insertion order. */
  type Members = seq<(string, Json)>

  /** `obj[key]`, None standing for `undefined`. */
  function Get(m: Members, key: string): Option<Json> {
    if m == [] then None else if m[0].0 == key then Some(m[0].1) else Get(m[1..], key)
  }

  /** `obj[key] = value`: an existing property keeps its place and takes the new value, a new one is appended. */
  function Put(m: Members, key: string, value: Json): (r: Members)
    ensures Get(r, key) == Some(value)
    ensures forall k :: k != key ==> Get(r, k) == Get(m, k)
  {
    if m == [] then [(key, value)]
    else if m[0].0 == key then [(key, value)] + m[1..]
    else [m[0]] + Put(m[1..], key, value)
  }

  /** The key order after `obj[key] = value`: unchanged for an existing key, the new key last otherwise. */
  lemma {:induction false} PutNames(m: Members, key: string, value: Json)
    ensures key in NamesOf(m) ==> NamesOf(Put(m, key, value)) == NamesOf(m)
    ensures key !in NamesOf(m) ==> NamesOf(Put(m, key, value)) == NamesOf(m) + [key]
    decreases |m|
  {
    if m != [] && m[0].0 != key {
      var rest := Put(m[1..], key, value);
      PutNames(m[1..], key, value);
      assert NamesOf([m[0]] + rest) == [m[0].0] + NamesOf(rest);
      assert NamesOf(m) == [m[0].0] + NamesOf(m[1..]);
    }
  }
}
