/**
 Model of `Fizzik\Utility\AssocArray`: walking a chain of keys into nested
 PHP arrays, and the recursive deep merge that sums numeric leaves.

 PHP arrays are ordered maps from integer-or-string keys to values. The merge
 treats every key of its source independently, so iteration order does not
 affect its result and a `map` models an array faithfully here.
 */
module AssocArray {

  /** A PHP array key, after PHP's own normalisation to an integer or a string. */
  datatype Key = IntKey(i: int) | StrKey(s: string)

  /** The PHP values the utilities distinguish: numbers, other scalars, arrays. */
  datatype Value = Num(n: int) | Str(s: string) | Arr(entries: map<Key, Value>)

  datatype Option<T> = None | Some(value: T)

  /** `AssocArray::AGGREGATE_SUM`, the only aggregation type the class knows. */
  const AGGREGATE_SUM: int := 1

  // ---------------------------------------------------------------------------
  // keyChainExists
  // ---------------------------------------------------------------------------

  /** The value `root[chain[0]]...[chain[n-1]]`, or None when some step of the
      walk finds no such key (a non-array counts as having no keys). */
  function Lookup(root: Value, chain: seq<Key>): Option<Value>
    decreases chain
  {
    if chain == [] then Some(root)
    else if root.Arr? && chain[0] in root.entries then Lookup(root.entries[chain[0]], chain[1..])
    else None
  }

  /** `keyChainExists($arr, ...$chain)`: follows the chain one key at a time and
      stops with false at the first key that is missing. */
  method KeyChainExists(arr: Value, chain: seq<Key>) returns (found: bool)
    ensures found <==> Lookup(arr, chain).Some?
    ensures chain == [] ==> found
  {
    var root := arr;
    var i := 0;
    while i < |chain|
      invariant 0 <= i <= |chain|
      invariant Lookup(arr, chain) == Lookup(root, chain[i..])
    {
      var key := chain[i];
      if root.Arr? && key in root.entries {
        assert chain[i..][1..] == chain[i + 1..];
        root := root.entries[key];
      } else {
        return false;
      }
      i := i + 1;
    }
    found := true;
  }

  /** If a chain exists, every prefix of it exists: the walk never needs a key
      that a shorter walk did not already find. */
  lemma {:induction false} ChainPrefixExists(root: Value, chain: seq<Key>, n: nat)
    requires n <= |chain|
    requires Lookup(root, chain).Some?
    ensures Lookup(root, chain[..n]).Some?
    decreases chain
  {
    if n > 0 {
      assert chain[..n][0] == chain[0];
      assert chain[..n][1..] == chain[1..][..n - 1];
      ChainPrefixExists(root.entries[chain[0]], chain[1..], n - 1);
    }
  }

  /** A chain extended by one key exists exactly when the chain leads to an
      array holding that key; the walk is the same read from either end. */
  lemma {:induction false} ChainExtends(root: Value, chain: seq<Key>, key: Key)
    ensures Lookup(root, chain + [key]).Some? <==>
      (Lookup(root, chain).Some? && Lookup(root, chain).value.Arr? && key in Lookup(root, chain).value.entries)
    decreases chain
  {
    if chain == [] {
      assert chain + [key] == [key];
      assert [key][1..] == [];
    } else {
      assert (chain + [key])[0] == chain[0];
      assert (chain + [key])[1..] == chain[1..] + [key];
      if root.Arr? && chain[0] in root.entries {
        ChainExtends(root.entries[chain[0]], chain[1..], key);
      }
    }
  }

  // ---------------------------------------------------------------------------
  // hasStringKeys
  // ---------------------------------------------------------------------------

  /** `hasStringKeys`: counts the string keys and compares the count with 0. */
  function HasStringKeys(m: map<Key, Value>): (b: bool)
    ensures b <==> exists k :: k in m && k.StrKey?
  {
    var stringKeys := set k | k in m.Keys && k.StrKey?;
    assert forall k :: k in m && k.StrKey? ==> k in stringKeys;
    |stringKeys| > 0
  }

  // ---------------------------------------------------------------------------
  // aggregate / aggregate_sum
  // ---------------------------------------------------------------------------

  /** The new `$resultArray[$key]` when both the result and the source hold the
      key: numbers are summed, two string-keyed arrays are merged recursively,
      and any other pair keeps the result's value. */
  function Combine(rv: Value, sv: Value): Value
    decreases sv, 1
  {
    if BothNumeric(rv, sv) then Num(rv.n + sv.n)
    else if BothStringKeyed(rv, sv) then Arr(MergeSum(rv.entries, sv.entries))
    else rv
  }

  /** The array that `aggregate_sum($result, $src)` leaves in `$result`, key by
      key: keys only in `result` are untouched, keys only in `src` are copied,
      shared keys are combined. */
  function MergeSum(result: map<Key, Value>, src: map<Key, Value>): map<Key, Value>
    decreases Arr(src), 0
  {
    map k | k in result.Keys + src.Keys ::
      if k !in src then result[k]
      else if k !in result then src[k]
      else Combine(result[k], src[k])
  }

  /** The source entries whose keys are not in `pending`. */
  function Without(src: map<Key, Value>, pending: set<Key>): (done: map<Key, Value>)
    ensures done.Keys == src.Keys - pending
  {
    map k | k in src && k !in pending :: src[k]
  }

  /** `is_numeric($val) && is_numeric($rval)`. */
  predicate BothNumeric(rv: Value, sv: Value) { rv.Num? && sv.Num? }

  /** Both values are arrays with at least one string key, the condition for
      `aggregate_sum` to recurse. */
  predicate BothStringKeyed(rv: Value, sv: Value)
  {
    rv.Arr? && sv.Arr? && HasStringKeys(rv.entries) && HasStringKeys(sv.entries)
  }

  /** Handling one more source key changes the merge at that key only. */
  lemma MergeSumStep(result: map<Key, Value>, done: map<Key, Value>, key: Key, val: Value)
    requires key !in done
    ensures MergeSum(result, done[key := val]) ==
      MergeSum(result, done)[key := if key in result then Combine(result[key], val) else val]
  {
  }

  /** `aggregate_sum(&$resultArray, &$src)`: a foreach over the source that
      updates the result one key at a time, recursing into string-keyed
      sub-arrays. The by-reference result is returned as the new array. */
  method AggregateSum(result: map<Key, Value>, src: map<Key, Value>) returns (r: map<Key, Value>)
    ensures r.Keys == result.Keys + src.Keys
    ensures forall k :: k in result && k !in src ==> r[k] == result[k]
    ensures forall k :: k in src && k !in result ==> r[k] == src[k]
    ensures forall k :: k in result && k in src && result[k].Num? && src[k].Num? ==>
      r[k] == Num(result[k].n + src[k].n)
    ensures forall k :: (k in result && k in src && !BothNumeric(result[k], src[k]) &&
      !BothStringKeyed(result[k], src[k])) ==> r[k] == result[k]
    ensures forall k :: (k in result && k in src && BothStringKeyed(result[k], src[k])) ==>
      r[k] == Arr(MergeSum(result[k].entries, src[k].entries))
    ensures r == MergeSum(result, src)
    decreases Arr(src)
  {
    r := result;
    var pending := src.Keys;
    while pending != {}
      invariant pending <= src.Keys
      invariant r == MergeSum(result, Without(src, pending))
      decreases pending
    {
      var key :| key in pending;
      var val := src[key];
      MergeSumStep(result, Without(src, pending), key, val);
      assert Without(src, pending - {key}) == Without(src, pending)[key := val];
      if key in r {
        var rval := r[key];
        if val.Num? && rval.Num? {
          r := r[key := Num(rval.n + val.n)];
        } else if val.Arr? && HasStringKeys(val.entries) && rval.Arr? && HasStringKeys(rval.entries) {
          var merged := AggregateSum(rval.entries, val.entries);
          r := r[key := Arr(merged)];
        }
      } else {
        r := r[key := val];
      }
      pending := pending - {key};
    }
    assert Without(src, {}) == src;
  }

  /** `aggregate(&$resultArray, &$lhs, &$rhs, $aggregationType)`: with
      AGGREGATE_SUM folds `lhs` and then `rhs` into the result; the switch has
      no other case, so any other type leaves the result as it was. */
  method Aggregate(result: map<Key, Value>, lhs: map<Key, Value>, rhs: map<Key, Value>,
                   aggregationType: int := AGGREGATE_SUM)
    returns (r: map<Key, Value>)
    ensures aggregationType == AGGREGATE_SUM ==> r == MergeSum(MergeSum(result, lhs), rhs)
    ensures aggregationType == AGGREGATE_SUM ==> r.Keys == result.Keys + lhs.Keys + rhs.Keys
    ensures aggregationType != AGGREGATE_SUM ==> r == result
  {
    r := result;
    if aggregationType == AGGREGATE_SUM {
      r := AggregateSum(r, lhs);
      r := AggregateSum(r, rhs);
    }
  }

  /** Combining never removes a key chain of the result value. */
  lemma {:induction false} CombineKeepsChains(rv: Value, sv: Value, chain: seq<Key>)
    requires Lookup(rv, chain).Some?
    ensures Lookup(Combine(rv, sv), chain).Some?
    decreases chain
  {
    if chain != [] {
      var k := chain[0];
      if BothStringKeyed(rv, sv) {
        var merged := MergeSum(rv.entries, sv.entries);
        assert k in merged;
        if k in sv.entries {
          CombineKeepsChains(rv.entries[k], sv.entries[k], chain[1..]);
        } else {
          assert merged[k] == rv.entries[k];
        }
      }
    }
  }

  /** Every key chain of the result array still exists after `aggregate_sum`. */
  lemma {:induction false} MergeSumKeepsChains(result: map<Key, Value>, src: map<Key, Value>, chain: seq<Key>)
    requires Lookup(Arr(result), chain).Some?
    ensures Lookup(Arr(MergeSum(result, src)), chain).Some?
  {
    if chain != [] {
      var k := chain[0];
      if k in src {
        CombineKeepsChains(result[k], src[k], chain[1..]);
      }
    }
  }

  /** Walking `chain` through the source meets no conflict with the result:
      each key is either absent from the result, or is the last key, or leads
      to string-keyed arrays on both sides whose rest of the chain again meets
      no conflict. */
  ghost predicate NoConflict(result: map<Key, Value>, src: map<Key, Value>, chain: seq<Key>)
    decreases chain
  {
    chain == [] ||
    (chain[0] in src &&
     (chain[0] in result && |chain| > 1 ==>
        BothStringKeyed(result[chain[0]], src[chain[0]]) &&
        NoConflict(result[chain[0]].entries, src[chain[0]].entries, chain[1..])))
  }

  /** A key chain of the source survives `aggregate_sum` when no conflict on
      its way down makes the merge ignore the source's value. */
  lemma {:induction false} MergeSumKeepsSourceChains(result: map<Key, Value>, src: map<Key, Value>, chain: seq<Key>)
    requires Lookup(Arr(src), chain).Some?
    requires NoConflict(result, src, chain)
    ensures Lookup(Arr(MergeSum(result, src)), chain).Some?
    decreases chain
  {
    if chain != [] {
      var k := chain[0];
      var merged := MergeSum(result, src);
      if k !in result {
        assert merged[k] == src[k];
      } else if |chain| > 1 {
        var rv, sv := result[k], src[k];
        assert BothStringKeyed(rv, sv);
        assert merged[k] == Combine(rv, sv);
        assert merged[k] == Arr(MergeSum(rv.entries, sv.entries));
        MergeSumKeepsSourceChains(rv.entries, sv.entries, chain[1..]);
      }
    }
  }

  /** Along `chain`, both values are string-keyed arrays at every proper prefix,
      so the merge recurses all the way down to the chain's last key. */
  ghost predicate MergeablePath(rv: Value, sv: Value, chain: seq<Key>)
    decreases chain
  {
    chain == [] ||
    (BothStringKeyed(rv, sv) &&
     chain[0] in rv.entries && chain[0] in sv.entries &&
     MergeablePath(rv.entries[chain[0]], sv.entries[chain[0]], chain[1..]))
  }

  /** Numeric leaves on a matching key path of string-keyed arrays are summed. */
  lemma {:induction false} CombineSumsLeaves(rv: Value, sv: Value, chain: seq<Key>, a: int, b: int)
    requires MergeablePath(rv, sv, chain)
    requires Lookup(rv, chain) == Some(Num(a)) && Lookup(sv, chain) == Some(Num(b))
    ensures Lookup(Combine(rv, sv), chain) == Some(Num(a + b))
    decreases chain
  {
    if chain != [] {
      var k := chain[0];
      var merged := MergeSum(rv.entries, sv.entries);
      assert merged[k] == Combine(rv.entries[k], sv.entries[k]);
      CombineSumsLeaves(rv.entries[k], sv.entries[k], chain[1..], a, b);
    }
  }

  /** At the top level `aggregate_sum` needs no string keys: a shared first key
      followed by a mergeable path sums the numeric leaves at its end. */
  lemma MergeSumSumsLeaves(result: map<Key, Value>, src: map<Key, Value>, chain: seq<Key>, a: int, b: int)
    requires chain != [] && chain[0] in result && chain[0] in src
    requires MergeablePath(result[chain[0]], src[chain[0]], chain[1..])
    requires Lookup(Arr(result), chain) == Some(Num(a)) && Lookup(Arr(src), chain) == Some(Num(b))
    ensures Lookup(Arr(MergeSum(result, src)), chain) == Some(Num(a + b))
  {
    CombineSumsLeaves(result[chain[0]], src[chain[0]], chain[1..], a, b);
  }

  /** Summing into an empty result with an empty right-hand side copies `lhs`. */
  lemma AggregateIntoEmptyCopies(lhs: map<Key, Value>)
    ensures MergeSum(MergeSum(map[], lhs), map[]) == lhs
  {
  }

  /** Two integer-keyed lists under the same key are not concatenated: the
      result keeps its own list, so a chain of the source is lost. */
  lemma IntegerKeyedListsNotConcatenated()
    ensures
      var result := map[StrKey("tags") := Arr(map[IntKey(0) := Str("a")])];
      var src := map[StrKey("tags") := Arr(map[IntKey(0) := Str("b"), IntKey(1) := Str("c")])];
      && MergeSum(result, src) == result
      && Lookup(Arr(src), [StrKey("tags"), IntKey(1)]).Some?
      && Lookup(Arr(MergeSum(result, src)), [StrKey("tags"), IntKey(1)]).None?
  {
  }
}
