/** JavaScript sets keep insertion order, and eviction drops the oldest member; model them as lists. */
module OrderedKeys {
  predicate NoRepeats<T(==)>(keys: seq<T>) {
    forall i, j | 0 <= i < j < |keys| :: keys[i] != keys[j]
  }

  function Add<T(==)>(keys: seq<T>, k: T): seq<T> {
    if k in keys then keys else keys + [k]
  }

  function AddAll<T(==)>(keys: seq<T>, more: seq<T>): seq<T> {
    if more == [] then keys else Add(AddAll(keys, more[..|more| - 1]), more[|more| - 1])
  }

  /** The members that lie in the set, in their order. */
  function Within<T(==)>(keys: seq<T>, shown: set<T>): seq<T> {
    if keys == [] then []
    else
      var rest := Within(keys[..|keys| - 1], shown);
      if keys[|keys| - 1] in shown then rest + [keys[|keys| - 1]] else rest
  }

  /** The members that do not, in their order. */
  function Outside<T(==)>(keys: seq<T>, shown: set<T>): seq<T> {
    if keys == [] then []
    else
      var rest := Outside(keys[..|keys| - 1], shown);
      if keys[|keys| - 1] !in shown then rest + [keys[|keys| - 1]] else rest
  }

  function Members<T(==)>(keys: seq<T>): set<T> {
    set k | k in keys
  }

  const MAX_FINALIZED: nat := 256

  /** Dropping the oldest member until the bound is met. */
  function Evict<T>(keys: seq<T>): (r: seq<T>)
    ensures |r| <= MAX_FINALIZED
    ensures forall k | k in r :: k in keys
  {
    if |keys| > MAX_FINALIZED then keys[|keys| - MAX_FINALIZED..] else keys
  }

  lemma {:induction false} AddAllMembers<T>(keys: seq<T>, more: seq<T>)
    ensures forall k :: k in AddAll(keys, more) <==> k in keys || k in more
    ensures NoRepeats(keys) ==> NoRepeats(AddAll(keys, more))
    ensures |AddAll(keys, more)| >= |keys|
  {
    if more == [] {
    } else {
      var init := more[..|more| - 1];
      AddAllMembers(keys, init);
      assert more == init + [more[|more| - 1]];
    }
  }

  lemma {:induction false} WithinMembers<T>(keys: seq<T>, shown: set<T>)
    ensures forall k :: k in Within(keys, shown) <==> k in keys && k in shown
    ensures NoRepeats(keys) ==> NoRepeats(Within(keys, shown))
  {
    if keys == [] {
    } else {
      var init := keys[..|keys| - 1];
      WithinMembers(init, shown);
      assert keys == init + [keys[|keys| - 1]];
    }
  }

  lemma {:induction false} OutsideMembers<T>(keys: seq<T>, shown: set<T>)
    ensures forall k :: k in Outside(keys, shown) <==> k in keys && k !in shown
    ensures NoRepeats(keys) ==> NoRepeats(Outside(keys, shown))
  {
    if keys == [] {
    } else {
      var init := keys[..|keys| - 1];
      OutsideMembers(init, shown);
      assert keys == init + [keys[|keys| - 1]];
    }
  }

  lemma {:induction false} EvictNoRepeats<T>(keys: seq<T>)
    requires NoRepeats(keys)
    ensures NoRepeats(Evict(keys))
  {
  }
}
