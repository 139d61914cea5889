/** The keypad word of the GBA core: `keysActive`, a 32-bit set of held
    keys that the frontend sets, ORs into, clears from and reads back. */
module Keypad {

  datatype Keypad = Keypad(keysActive: bv32)

  /** Every key in `keys` is held in `word`. */
  predicate AllHeld(word: bv32, keys: bv32) {
    word & keys == keys
  }

  /** No key in `keys` is held in `word`. */
  predicate NoneHeld(word: bv32, keys: bv32) {
    word & keys == 0
  }

  /** `a` and `b` hold the same keys among `mask`. */
  predicate SameOn(a: bv32, b: bv32, mask: bv32) {
    a & mask == b & mask
  }

  /** `_GBACoreSetKeys`: the held keys become exactly `keys`. */
  function SetKeys(pad: Keypad, keys: bv32): (r: Keypad)
    ensures GetKeys(r) == keys
  {
    Keypad(keys)
  }

  /** `_GBACoreAddKeys`: every key in `keys` becomes held and every other
      key keeps its state. */
  function AddKeys(pad: Keypad, keys: bv32): (r: Keypad)
    ensures AllHeld(r.keysActive, keys)
    ensures SameOn(r.keysActive, pad.keysActive, !keys)
  {
    Keypad(pad.keysActive | keys)
  }

  /** `_GBACoreClearKeys`: every key in `keys` is released and every other
      key keeps its state. */
  function ClearKeys(pad: Keypad, keys: bv32): (r: Keypad)
    ensures NoneHeld(r.keysActive, keys)
    ensures SameOn(r.keysActive, pad.keysActive, !keys)
  {
    Keypad(pad.keysActive & !keys)
  }

  /** `_GBACoreGetKeys`: the keypad holds nothing but the reported word,
      so setting that word back rebuilds the same keypad. */
  function GetKeys(pad: Keypad): (r: bv32)
    ensures Keypad(r) == pad
  {
    pad.keysActive
  }

  /** One call from the frontend. */
  datatype KeyOp = Set(keys: bv32) | Add(keys: bv32) | Clear(keys: bv32)

  /** The word shows the effect of `op` on the keys `op` names: exactly
      them after a Set, all of them held after an Add, none after a Clear. */
  predicate Shows(word: bv32, op: KeyOp) {
    match op
    case Set(k) => word == k
    case Add(k) => AllHeld(word, k)
    case Clear(k) => NoneHeld(word, k)
  }

  function Step(pad: Keypad, op: KeyOp): (r: Keypad)
    ensures Shows(r.keysActive, op)
  {
    match op
    case Set(k) => SetKeys(pad, k)
    case Add(k) => AddKeys(pad, k)
    case Clear(k) => ClearKeys(pad, k)
  }

  /** A sequence of frontend calls, first to last. */
  function Run(pad: Keypad, ops: seq<KeyOp>): (r: Keypad)
    ensures |ops| == 0 ==> r == pad
    ensures |ops| > 0 ==> Shows(r.keysActive, ops[|ops| - 1])
    decreases |ops|
  {
    if |ops| == 0 then pad else Run(Step(pad, ops[0]), ops[1..])
  }

  // ---------------------------------------------------------------------
  // Bit-vector facts, stated on bare words

  lemma OrThenAndNot(a: bv32, k: bv32)
    ensures (a | k) & !k == a & !k
  {
  }

  lemma AndNotThenOr(a: bv32, k: bv32)
    ensures (a & !k) | k == a | k
  {
  }

  lemma SameOnTransitive(a: bv32, b: bv32, c: bv32, mask: bv32)
    requires SameOn(a, b, mask) && SameOn(b, c, mask)
    ensures SameOn(a, c, mask)
  {
  }

  lemma DisjointOrKept(a: bv32, k: bv32, m: bv32)
    requires k & m == 0
    ensures SameOn(a | k, a, m)
  {
    assert (a | k) & m == (a & m) | (k & m);
  }

  lemma DisjointAndNotKept(a: bv32, k: bv32, m: bv32)
    requires k & m == 0
    ensures SameOn(a & !k, a, m)
  {
    assert (a & !k) & m == a & (m & !k);
    assert m & !k == m;
  }

  // ---------------------------------------------------------------------
  // Laws

  lemma GetAfterSet(pad: Keypad, keys: bv32)
    ensures GetKeys(SetKeys(pad, keys)) == keys
  {
  }

  lemma AddIsOr(pad: Keypad, keys: bv32)
    ensures GetKeys(AddKeys(pad, keys)) == GetKeys(pad) | keys
  {
  }

  lemma ClearIsAndNot(pad: Keypad, keys: bv32)
    ensures GetKeys(ClearKeys(pad, keys)) == GetKeys(pad) & !keys
  {
  }

  lemma AddIdempotent(pad: Keypad, keys: bv32)
    ensures GetKeys(AddKeys(AddKeys(pad, keys), keys)) == GetKeys(AddKeys(pad, keys))
  {
  }

  lemma ClearIdempotent(pad: Keypad, keys: bv32)
    ensures GetKeys(ClearKeys(ClearKeys(pad, keys), keys)) == GetKeys(ClearKeys(pad, keys))
  {
  }

  /** Clearing after adding the same keys is the same as only clearing
      them: the last of the two calls decides those keys. */
  lemma ClearAfterAdd(pad: Keypad, keys: bv32)
    ensures GetKeys(ClearKeys(AddKeys(pad, keys), keys)) == GetKeys(ClearKeys(pad, keys))
  {
    var a := pad.keysActive;
    assert GetKeys(ClearKeys(AddKeys(pad, keys), keys)) == (a | keys) & !keys;
    OrThenAndNot(a, keys);
  }

  /** Adding after clearing the same keys is the same as only adding them. */
  lemma AddAfterClear(pad: Keypad, keys: bv32)
    ensures GetKeys(AddKeys(ClearKeys(pad, keys), keys)) == GetKeys(AddKeys(pad, keys))
  {
    var a := pad.keysActive;
    AndNotThenOr(a, keys);
  }

  /** Adding a key that is already held, or clearing one that is not, leaves
      the word unchanged. */
  lemma NoOpCalls(pad: Keypad, keys: bv32)
    ensures GetKeys(pad) & keys == keys ==> GetKeys(AddKeys(pad, keys)) == GetKeys(pad)
    ensures GetKeys(pad) & keys == 0 ==> GetKeys(ClearKeys(pad, keys)) == GetKeys(pad)
  {
  }

  /** An Add or Clear leaves the keys outside its mask as they were. */
  lemma StepKeepsOthers(pad: Keypad, op: KeyOp, mask: bv32)
    requires !op.Set? && op.keys & mask == 0
    ensures SameOn(Step(pad, op).keysActive, pad.keysActive, mask)
  {
    var a := pad.keysActive;
    match op
    case Add(k) =>
      assert Step(pad, op) == AddKeys(pad, k);
      assert AddKeys(pad, k).keysActive == a | k;
      DisjointOrKept(a, k, mask);
    case Clear(k) =>
      assert Step(pad, op) == ClearKeys(pad, k);
      assert ClearKeys(pad, k).keysActive == a & !k;
      DisjointAndNotKept(a, k, mask);
  }

  /** Keys outside every mask a run of calls mentions keep the state they
      had before the run, unless the run contains a Set. */
  lemma {:induction false} UntouchedKeysKept(pad: Keypad, ops: seq<KeyOp>, mask: bv32)
    requires forall i :: 0 <= i < |ops| ==> !ops[i].Set? && ops[i].keys & mask == 0
    ensures SameOn(Run(pad, ops).keysActive, pad.keysActive, mask)
    decreases |ops|
  {
    if |ops| > 0 {
      var next := Step(pad, ops[0]);
      StepKeepsOthers(pad, ops[0], mask);
      UntouchedKeysKept(next, ops[1..], mask);
      assert Run(pad, ops) == Run(next, ops[1..]);
      SameOnTransitive(Run(next, ops[1..]).keysActive, next.keysActive, pad.keysActive, mask);
    }
  }

  /** Only the calls after the last Set matter. */
  lemma {:induction false} SetForgetsHistory(pad: Keypad, before: seq<KeyOp>, keys: bv32, after: seq<KeyOp>)
    ensures Run(pad, before + [Set(keys)] + after) == Run(Keypad(keys), after)
    decreases |before|
  {
    if |before| == 0 {
      assert before + [Set(keys)] + after == [Set(keys)] + after;
      assert ([Set(keys)] + after)[1..] == after;
    } else {
      assert (before + [Set(keys)] + after)[1..] == before[1..] + [Set(keys)] + after;
      SetForgetsHistory(Step(pad, before[0]), before[1..], keys, after);
    }
  }
}
