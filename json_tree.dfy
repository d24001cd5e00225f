/**
 * The part of Newtonsoft's LINQ-to-JSON tree (JObject, JProperty, JValue) that the
 * mapping builder uses: string values, and objects whose properties keep the order
 * in which they were added. Building an object from a list of properties adds them
 * one at a time, and adding a name the object already holds (ordinal comparison)
 * throws; that exception is the `DuplicateKey` error here.
 */
module JsonTree {
  import opened Wrappers

  datatype Json = JString(str: string) | JObject(members: seq<Member>)

  /** A JProperty: a name and its value. */
  type Member = (string, Json)

  datatype JsonError = DuplicateKey(key: string)

  predicate HasKey(members: seq<Member>, key: string) {
    exists i :: 0 <= i < |members| && members[i].0 == key
  }

  predicate DistinctKeys(members: seq<Member>) {
    forall i, j :: 0 <= i < j < |members| ==> members[i].0 != members[j].0
  }

  /** Member `k` is the first one whose name repeats the name of an earlier member. */
  predicate FirstDuplicate(members: seq<Member>, k: int) {
    && 0 <= k < |members|
    && DistinctKeys(members[..k])
    && HasKey(members[..k], members[k].0)
  }

  /**
   * Adds the properties `rest`, in order, to an object that already holds `acc`;
   * the first property whose name is already present aborts the construction.
   */
  function AddAll(acc: seq<Member>, rest: seq<Member>): (r: Result<seq<Member>, JsonError>)
    requires DistinctKeys(acc)
    ensures r.Ok? <==> DistinctKeys(acc + rest)
    ensures r.Ok? ==> r.value == acc + rest
    ensures r.Err? ==> exists k :: |acc| <= k && FirstDuplicate(acc + rest, k) && r.error == DuplicateKey((acc + rest)[k].0)
    decreases |rest|
  {
    if rest == [] then
      assert acc + rest == acc;
      Ok(acc)
    else
      assert acc + rest == (acc + [rest[0]]) + rest[1..];
      if HasKey(acc, rest[0].0) then
        assert (acc + rest)[..|acc|] == acc;
        assert FirstDuplicate(acc + rest, |acc|);
        Err(DuplicateKey(rest[0].0))
      else
        AddAll(acc + [rest[0]], rest[1..])
  }

  /** `new JObject(members)`: an object holding `members` in order, unless two share a name. */
  function NewObject(members: seq<Member>): (r: Result<Json, JsonError>)
    ensures r.Ok? <==> DistinctKeys(members)
    ensures r.Ok? ==> r.value == JObject(members)
    ensures r.Err? ==> exists k :: FirstDuplicate(members, k) && r.error == DuplicateKey(members[k].0)
  {
    assert [] + members == members;
    match AddAll([], members)
    case Ok(ms) => Ok(JObject(ms))
    case Err(e) => Err(e)
  }

  /** The value of the first member named `key`. */
  function Find(members: seq<Member>, key: string): Option<Json> {
    if members == [] then None
    else if members[0].0 == key then Some(members[0].1)
    else Find(members[1..], key)
  }

  /** The indexer `token[key]`: the value of property `key` of an object, if it has one. */
  function Get(j: Json, key: string): Option<Json> {
    match j
    case JObject(ms) => Find(ms, key)
    case JString(_) => None
  }

  /** An object with a single member answers only to that member's name. */
  lemma GetSingle(name: string, value: Json, key: string)
    ensures Get(JObject([(name, value)]), key) == if key == name then Some(value) else None
  {
    var ms := [(name, value)];
    if key != name {
      assert ms[1..] == [];
      assert Find(ms, key) == Find(ms[1..], key);
    }
  }

  /** In an object whose names are distinct, each member is found under its own name. */
  lemma {:induction false} FindAt(members: seq<Member>, i: int)
    requires DistinctKeys(members)
    requires 0 <= i < |members|
    ensures Find(members, members[i].0) == Some(members[i].1)
  {
    if i > 0 {
      assert members[0].0 != members[i].0;
      assert members[1..][i - 1] == members[i];
      FindAt(members[1..], i - 1);
    }
  }

  /** Whatever is found under a name is the value of a member with that name. */
  lemma {:induction false} FindSome(members: seq<Member>, key: string)
    requires Find(members, key).Some?
    ensures exists i :: 0 <= i < |members| && members[i] == (key, Find(members, key).value)
  {
    if members[0].0 != key {
      FindSome(members[1..], key);
      var i :| 0 <= i < |members[1..]| && members[1..][i] == (key, Find(members, key).value);
      assert members[i + 1] == members[1..][i];
    }
  }
}
