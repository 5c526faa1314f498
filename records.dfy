/**
 * Orphan records as the cleanup tool receives them (Python dictionaries), and
 * `unique_by_keys`: drop the records whose key values are unsafe identifiers,
 * then keep the first record of each key tuple.
 */
module Records {
  import opened Text

  /** The values a record can hold: strings, `None`, and other scalars (numbers). */
  datatype Value = Str(text: string) | NoneValue | Number(n: int)

  /** A dictionary from column name to value. */
  type Record = map<string, Value>

  /** `d.get(k)`: the value under `k`, or `None` when the key is missing. */
  function Get(d: Record, k: string): Value {
    if k in d then d[k] else NoneValue
  }

  /** `tuple((k, d.get(k)) for k in keys)`. */
  function KeyTuple(d: Record, keys: seq<string>): seq<(string, Value)> {
    seq(|keys|, i requires 0 <= i < |keys| => (keys[i], Get(d, keys[i])))
  }

  /** Only strings are checked against the identifier pattern; `None` and numbers pass. */
  predicate ValueAllowed(v: Value) {
    v.Str? ==> MatchesIdentifierPattern(v.text)
  }

  /** A record survives the filter when every one of its key values is allowed. */
  predicate IsValid(d: Record, keys: seq<string>) {
    forall i :: 0 <= i < |keys| ==> ValueAllowed(Get(d, keys[i]))
  }

  /** The key tuples of the valid records of `rs`. */
  function ValidKeys(rs: seq<Record>, keys: seq<string>): (ks: set<seq<(string, Value)>>)
    ensures forall i :: 0 <= i < |rs| && IsValid(rs[i], keys) ==> KeyTuple(rs[i], keys) in ks
    ensures forall t :: t in ks ==> exists i :: 0 <= i < |rs| && IsValid(rs[i], keys) && KeyTuple(rs[i], keys) == t
  {
    if rs == [] then {}
    else
      var front := rs[..|rs| - 1];
      var last := rs[|rs| - 1];
      var ks := ValidKeys(front, keys);
      assert forall i :: 0 <= i < |front| ==> front[i] == rs[i];
      if IsValid(last, keys) then ks + {KeyTuple(last, keys)} else ks
  }

  /**
   * The specification of `unique_by_keys`, stated on prefixes: the result for
   * `rs` extends the result for all but its last record by that record exactly
   * when it is valid and no earlier valid record has its key tuple.
   */
  function Deduplicated(rs: seq<Record>, keys: seq<string>): seq<Record> {
    if rs == [] then []
    else
      var front := rs[..|rs| - 1];
      var last := rs[|rs| - 1];
      Deduplicated(front, keys)
      + (if IsValid(last, keys) && KeyTuple(last, keys) !in ValidKeys(front, keys) then [last] else [])
  }

  /** The inner loop of `unique_by_keys`: stop at the first string value that
      fails the identifier pattern. */
  method CheckKeyValues(d: Record, keys: seq<string>) returns (valid: bool)
    ensures valid == IsValid(d, keys)
  {
    valid := true;
    var j := 0;
    while j < |keys|
      invariant 0 <= j <= |keys|
      invariant forall m :: 0 <= m < j ==> ValueAllowed(Get(d, keys[m]))
    {
      var value := Get(d, keys[j]);
      if value.Str? && !MatchesIdentifierPattern(value.text) {
        valid := false;
        break;
      }
      j := j + 1;
    }
  }

  /**
   * `unique_by_keys(dict_list, keys)`: a loop that grows the set `seen` of key
   * tuples and appends each valid record whose tuple is new.
   */
  method UniqueByKeys(dictList: seq<Record>, keys: seq<string>) returns (uniqueList: seq<Record>)
    ensures uniqueList == Deduplicated(dictList, keys)
  {
    var seen: set<seq<(string, Value)>> := {};
    uniqueList := [];
    for n := 0 to |dictList|
      invariant uniqueList == Deduplicated(dictList[..n], keys)
      invariant seen == ValidKeys(dictList[..n], keys)
    {
      var d := dictList[n];
      assert dictList[..n + 1][..n] == dictList[..n];
      var valid := CheckKeyValues(d, keys);
      if !valid {
        continue;
      }
      var keyTuple := KeyTuple(d, keys);
      if keyTuple !in seen {
        seen := seen + {keyTuple};
        uniqueList := uniqueList + [d];
      }
    }
    assert dictList[..|dictList|] == dictList;
  }

  // ---------------------------------------------------------------------------
  // What unique_by_keys promises

  /** Two records have the same key tuple exactly when they agree on every key
      (a missing key reading as `None`). */
  lemma KeyTupleEqualIff(d: Record, e: Record, keys: seq<string>)
    ensures KeyTuple(d, keys) == KeyTuple(e, keys) <==> forall i :: 0 <= i < |keys| ==> Get(d, keys[i]) == Get(e, keys[i])
  {
    if KeyTuple(d, keys) == KeyTuple(e, keys) {
      forall i | 0 <= i < |keys|
        ensures Get(d, keys[i]) == Get(e, keys[i])
      {
        assert KeyTuple(d, keys)[i] == KeyTuple(e, keys)[i];
      }
    }
  }

  /** Two records with the same key tuple are either both valid or both not. */
  lemma ValidityFollowsKeyTuple(d: Record, e: Record, keys: seq<string>)
    requires KeyTuple(d, keys) == KeyTuple(e, keys)
    ensures IsValid(d, keys) <==> IsValid(e, keys)
  {
    forall i | 0 <= i < |keys|
      ensures Get(d, keys[i]) == Get(e, keys[i])
    {
      assert KeyTuple(d, keys)[i] == KeyTuple(e, keys)[i];
    }
  }

  /** Every kept record is valid, and the kept key tuples are exactly the key
      tuples of the valid input records. */
  lemma {:induction false} DeduplicatedKeys(rs: seq<Record>, keys: seq<string>)
    ensures forall j :: 0 <= j < |Deduplicated(rs, keys)| ==> IsValid(Deduplicated(rs, keys)[j], keys)
    ensures forall t :: t in ValidKeys(rs, keys) <==>
      exists j :: 0 <= j < |Deduplicated(rs, keys)| && KeyTuple(Deduplicated(rs, keys)[j], keys) == t
  {
    if rs != [] {
      var front := rs[..|rs| - 1];
      DeduplicatedKeys(front, keys);
      var out := Deduplicated(rs, keys);
      var prev := Deduplicated(front, keys);
      assert forall j :: 0 <= j < |prev| ==> out[j] == prev[j];
      forall t | t in ValidKeys(rs, keys)
        ensures exists j :: 0 <= j < |out| && KeyTuple(out[j], keys) == t
      {
        if t in ValidKeys(front, keys) {
          var j :| 0 <= j < |prev| && KeyTuple(prev[j], keys) == t;
          assert KeyTuple(out[j], keys) == t;
        } else {
          assert KeyTuple(out[|out| - 1], keys) == t;
        }
      }
    }
  }

  /** No two kept records share a key tuple. */
  lemma {:induction false} DeduplicatedDistinct(rs: seq<Record>, keys: seq<string>)
    ensures forall j, k :: 0 <= j < k < |Deduplicated(rs, keys)| ==>
      KeyTuple(Deduplicated(rs, keys)[j], keys) != KeyTuple(Deduplicated(rs, keys)[k], keys)
  {
    if rs != [] {
      var front := rs[..|rs| - 1];
      DeduplicatedDistinct(front, keys);
      DeduplicatedKeys(front, keys);
      var out := Deduplicated(rs, keys);
      var prev := Deduplicated(front, keys);
      assert forall j :: 0 <= j < |prev| ==> out[j] == prev[j];
    }
  }

  /**
   * The kept records are a subsequence of the input in input order: the
   * positions of the input they are taken from, strictly increasing.
   */
  ghost function KeptPositions(rs: seq<Record>, keys: seq<string>): (idx: seq<nat>)
    ensures |idx| == |Deduplicated(rs, keys)|
    ensures forall j :: 0 <= j < |idx| ==> idx[j] < |rs| && rs[idx[j]] == Deduplicated(rs, keys)[j]
    ensures forall j, k :: 0 <= j < k < |idx| ==> idx[j] < idx[k]
  {
    if rs == [] then []
    else
      var front := rs[..|rs| - 1];
      var last := rs[|rs| - 1];
      var prev := KeptPositions(front, keys);
      assert forall j :: 0 <= j < |prev| ==> rs[prev[j]] == front[prev[j]];
      if IsValid(last, keys) && KeyTuple(last, keys) !in ValidKeys(front, keys) then
        prev + [|rs| - 1]
      else
        prev
  }

  /** Position `i` holds a valid record and no earlier valid record has its key tuple. */
  predicate FirstValidOccurrence(rs: seq<Record>, keys: seq<string>, i: nat)
    requires i < |rs|
  {
    IsValid(rs[i], keys)
    && forall i' :: 0 <= i' < i && IsValid(rs[i'], keys) ==> KeyTuple(rs[i'], keys) != KeyTuple(rs[i], keys)
  }

  /** Every kept record is the first valid occurrence of its key tuple. */
  lemma {:induction false} KeptPositionsAreFirstOccurrences(rs: seq<Record>, keys: seq<string>)
    ensures forall j :: 0 <= j < |KeptPositions(rs, keys)| ==> FirstValidOccurrence(rs, keys, KeptPositions(rs, keys)[j])
  {
    if rs != [] {
      var front := rs[..|rs| - 1];
      var last := rs[|rs| - 1];
      KeptPositionsAreFirstOccurrences(front, keys);
      var prev := KeptPositions(front, keys);
      var idx := KeptPositions(rs, keys);
      forall j | 0 <= j < |idx|
        ensures FirstValidOccurrence(rs, keys, idx[j])
      {
        if j < |prev| {
          assert idx[j] == prev[j];
          assert FirstValidOccurrence(front, keys, prev[j]);
          assert forall i' :: 0 <= i' <= prev[j] ==> rs[i'] == front[i'];
        } else {
          assert idx[j] == |rs| - 1;
          assert IsValid(last, keys) && KeyTuple(last, keys) !in ValidKeys(front, keys);
          assert forall i' :: 0 <= i' < |front| ==> rs[i'] == front[i'];
        }
      }
    }
  }

  /** Conversely, the first valid occurrence of every key tuple is kept. */
  lemma {:induction false} FirstOccurrencesAreKept(rs: seq<Record>, keys: seq<string>, i: nat)
    requires i < |rs| && FirstValidOccurrence(rs, keys, i)
    ensures i in KeptPositions(rs, keys)
  {
    var front := rs[..|rs| - 1];
    if i < |rs| - 1 {
      assert forall i' :: 0 <= i' <= i ==> rs[i'] == front[i'];
      assert FirstValidOccurrence(front, keys, i);
      FirstOccurrencesAreKept(front, keys, i);
    }
  }

  /** One kept record per distinct valid key tuple. */
  lemma {:induction false} DeduplicatedCount(rs: seq<Record>, keys: seq<string>)
    ensures |Deduplicated(rs, keys)| == |ValidKeys(rs, keys)|
  {
    if rs != [] {
      var front := rs[..|rs| - 1];
      var last := rs[|rs| - 1];
      DeduplicatedCount(front, keys);
      if IsValid(last, keys) && KeyTuple(last, keys) !in ValidKeys(front, keys) {
        assert ValidKeys(rs, keys) == ValidKeys(front, keys) + {KeyTuple(last, keys)};
      } else {
        assert ValidKeys(rs, keys) == ValidKeys(front, keys);
      }
    }
  }

  lemma {:induction false} DeduplicatedAppend(rs: seq<Record>, r: Record, keys: seq<string>)
    ensures Deduplicated(rs + [r], keys)
      == Deduplicated(rs, keys) + (if IsValid(r, keys) && KeyTuple(r, keys) !in ValidKeys(rs, keys) then [r] else [])
    ensures ValidKeys(rs + [r], keys) == ValidKeys(rs, keys) + (if IsValid(r, keys) then {KeyTuple(r, keys)} else {})
  {
    assert (rs + [r])[..|rs|] == rs;
  }

  /** Deduplicating a deduplicated list changes nothing. */
  lemma {:induction false} DeduplicatedIdempotent(rs: seq<Record>, keys: seq<string>)
    ensures Deduplicated(Deduplicated(rs, keys), keys) == Deduplicated(rs, keys)
    ensures ValidKeys(Deduplicated(rs, keys), keys) == ValidKeys(rs, keys)
  {
    if rs != [] {
      var front := rs[..|rs| - 1];
      var last := rs[|rs| - 1];
      var prev := Deduplicated(front, keys);
      DeduplicatedIdempotent(front, keys);
      if IsValid(last, keys) && KeyTuple(last, keys) !in ValidKeys(front, keys) {
        DeduplicatedAppend(prev, last, keys);
      } else {
        assert Deduplicated(rs, keys) == prev;
      }
    }
  }
}
