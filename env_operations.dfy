/**
 * Editing the `env` string map of an entry (src/hooks/use-env-operations.ts).
 * Every handler hands back `None`, and issues no update, when the entry has
 * no `env` key; otherwise it hands back the entry with only `env` replaced.
 */
module EnvOperations {
  import opened Wrappers
  import opened McpConfig

  /** The key `handleEnvAdd` inserts. */
  const NewKey: string := "NEW_KEY"

  /** The two entries agree on every key except `env`. */
  predicate SameExceptEnv(a: Entry, b: Entry) {
    a.(env := None) == b.(env := None)
  }

  /** `handleEnvChange`: set one variable. */
  function EnvChange(e: Entry, key: string, value: string): (r: Option<Entry>)
    ensures r.None? <==> e.env.None?
    ensures r.Some? ==> SameExceptEnv(r.value, e) && r.value.env.Some?
    ensures r.Some? ==> r.value.env.value.Keys == e.env.value.Keys + {key}
    ensures r.Some? ==> r.value.env.value[key] == value
    ensures r.Some? ==> forall k :: k in e.env.value && k != key ==> r.value.env.value[k] == e.env.value[k]
  {
    if e.env.None? then None
    else Some(e.(env := Some(e.env.value[key := value])))
  }

  /** `handleEnvDelete`: remove one variable. */
  function EnvDelete(e: Entry, key: string): (r: Option<Entry>)
    ensures r.None? <==> e.env.None?
    ensures r.Some? ==> SameExceptEnv(r.value, e) && r.value.env.Some?
    ensures r.Some? ==> r.value.env.value.Keys == e.env.value.Keys - {key}
    ensures r.Some? ==> forall k :: k in r.value.env.value ==> r.value.env.value[k] == e.env.value[k]
  {
    if e.env.None? then None
    else Some(e.(env := Some(e.env.value - {key})))
  }

  /** `handleEnvAdd`: set `NEW_KEY` to the empty string, overwriting any value it had. */
  function EnvAdd(e: Entry): (r: Option<Entry>)
    ensures r.None? <==> e.env.None?
    ensures r.Some? ==> SameExceptEnv(r.value, e) && r.value.env.Some?
    ensures r.Some? ==> r.value.env.value.Keys == e.env.value.Keys + {NewKey}
    ensures r.Some? ==> r.value.env.value[NewKey] == ""
    ensures r.Some? ==> forall k :: k in e.env.value && k != NewKey ==> r.value.env.value[k] == e.env.value[k]
  {
    if e.env.None? then None
    else Some(e.(env := Some(e.env.value[NewKey := ""])))
  }

  /** `handleEnvKeyChange`: remove `oldKey`, then map `newKey` to `value`. */
  function EnvKeyChange(e: Entry, oldKey: string, newKey: string, value: string): (r: Option<Entry>)
    ensures r.None? <==> e.env.None?
    ensures r.Some? ==> SameExceptEnv(r.value, e) && r.value.env.Some?
    ensures r.Some? ==> r.value.env.value.Keys == e.env.value.Keys - {oldKey} + {newKey}
    ensures r.Some? ==> r.value.env.value[newKey] == value
    ensures r.Some? ==> forall k :: k in e.env.value && k != oldKey && k != newKey ==>
      r.value.env.value[k] == e.env.value[k]
  {
    if e.env.None? then None
    else Some(e.(env := Some((e.env.value - {oldKey})[newKey := value])))
  }

  /** Renaming a key to itself is setting its value. */
  lemma KeyChangeToSameKey(e: Entry, key: string, value: string)
    ensures EnvKeyChange(e, key, key, value) == EnvChange(e, key, value)
  {
    if e.env.Some? {
      assert (e.env.value - {key})[key := value] == e.env.value[key := value];
    }
  }

  /** Deleting an absent key leaves the entry equal. */
  lemma DeleteAbsentKey(e: Entry, key: string)
    requires e.env.Some? && key !in e.env.value
    ensures EnvDelete(e, key) == Some(e)
  {
    assert e.env.value - {key} == e.env.value;
  }

  /** Renaming a key is deleting it and then setting the new key. */
  lemma KeyChangeIsDeleteThenSet(e: Entry, oldKey: string, newKey: string, value: string)
    requires e.env.Some?
    ensures EnvKeyChange(e, oldKey, newKey, value) == EnvChange(EnvDelete(e, oldKey).value, newKey, value)
  {
  }
}
