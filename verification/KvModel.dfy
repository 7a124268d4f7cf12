/**
 The key/value specification that histories are checked against (models/kv.go),
 and the specification it stands for: one map from keys to strings.
 */
module KvModel {
  import opened History

  type Key = string

  newtype Uint8 = x: int | 0 <= x < 256

  /** op: 0 is get, 1 is put, anything else is append. */
  datatype KvInput = KvInput(op: Uint8, key: Key, value: string)

  datatype KvOutput = KvOutput(value: string)

  type KvOp = Operation<KvInput, KvOutput>

  function Step(state: string, inp: KvInput, out: KvOutput): (bool, string) {
    if inp.op == 0 then (out.value == state, state)
    else if inp.op == 1 then (true, inp.value)
    else (true, state + inp.value)
  }

  /** The value of a single key. No Equal is given, so states are compared with ==. */
  const KV := Model("", Step, (s: string, t: string) => s == t)

  /** The same operations on the whole store; a key that was never written holds the empty string. */
  type Store = map<Key, string>

  function Lookup(s: Store, k: Key): string {
    if k in s then s[k] else ""
  }

  function StoreStep(state: Store, inp: KvInput, out: KvOutput): (bool, Store) {
    var (ok, value) := Step(Lookup(state, inp.key), inp, out);
    (ok, state[inp.key := value])
  }

  const STORE := Model(map[], StoreStep, (s: Store, t: Store) => s == t)

  lemma ShallowEqualityIsSound()
    ensures SoundEquality(KV)
    ensures SoundEquality(STORE)
  {
  }
}
