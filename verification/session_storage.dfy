/**
 * Browser session storage as a string-to-string map, and the execution of a
 * block of storage calls inside one `try`: a call that throws abandons the
 * rest of the block, and the calls before it stay done.
 */
module SessionStorage {
  import opened Options

  type Store = map<string, string>

  /** `getItem(key)`: the stored string, or `None` (null) when the key is absent. */
  function Lookup(store: Store, key: string): Option<string> {
    if key in store then Some(store[key]) else None
  }

  datatype StorageOp = SetItem(key: string, value: string) | RemoveItem(key: string)

  function Apply(store: Store, op: StorageOp): (r: Store)
    ensures Lookup(r, op.key) == (if op.SetItem? then Some(op.value) else None)
    ensures forall k :: k != op.key ==> Lookup(r, k) == Lookup(store, k)
  {
    match op
    case SetItem(key, value) => store[key := value]
    case RemoveItem(key) => store - {key}
  }

  /** No call of `ops` names `key`. */
  predicate Untouched(ops: seq<StorageOp>, key: string) {
    forall i :: 0 <= i < |ops| ==> ops[i].key != key
  }

  /** The store after `ops` in order; keys no call names keep their entries. */
  function ApplyAll(store: Store, ops: seq<StorageOp>): (r: Store)
    ensures forall k :: Untouched(ops, k) ==> Lookup(r, k) == Lookup(store, k)
    ensures |ops| > 0 ==>
      Lookup(r, ops[|ops| - 1].key) == (if ops[|ops| - 1].SetItem? then Some(ops[|ops| - 1].value) else None)
    decreases |ops|
  {
    if |ops| == 0 then store
    else
      var r := Apply(ApplyAll(store, ops[..|ops| - 1]), ops[|ops| - 1]);
      assert forall k :: Untouched(ops, k) ==> Untouched(ops[..|ops| - 1], k);
      r
  }

  /**
   * A guarded block: `fault` is the position of the call that throws, if
   * any; the calls before it take effect and none after it runs.
   */
  function RunGuarded(store: Store, ops: seq<StorageOp>, fault: Option<nat>): (r: Store)
    ensures fault.None? ==> r == ApplyAll(store, ops)
    ensures fault.Some? && fault.value < |ops| ==> r == ApplyAll(store, ops[..fault.value])
    ensures fault == Some(0) ==> r == store
  {
    if fault.Some? && fault.value < |ops| then ApplyAll(store, ops[..fault.value]) else ApplyAll(store, ops)
  }
}
