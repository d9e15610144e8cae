/** The element-count dictionaries the generator builds: a Python dict from
    strings to counts, whose keys iterate in insertion order. */
module Counter {

  /** A count dictionary: `keys` in insertion order, `vals` the counts. */
  datatype Dict = Dict(keys: seq<string>, vals: map<string, nat>)

  const Empty: Dict := Dict([], map[])

  /** Every key listed once, and the listed keys are exactly the mapped ones. */
  ghost predicate Valid(d: Dict)
  {
    && (forall i, j :: 0 <= i < j < |d.keys| ==> d.keys[i] != d.keys[j])
    && (forall x :: x in d.vals <==> x in d.keys)
  }

  /** One pass of the counting loop: bump the count of x, or add x with
      count 1 at the end of the key order. */
  function Inc(d: Dict, x: string): (r: Dict)
    ensures Valid(d) ==> Valid(r)
    ensures x in r.vals && r.vals[x] == (if x in d.vals then d.vals[x] + 1 else 1)
    ensures forall y :: y != x ==> (y in r.vals <==> y in d.vals)
    ensures forall y :: y != x && y in d.vals ==> r.vals[y] == d.vals[y]
    ensures x in d.vals ==> r.keys == d.keys
    ensures x !in d.vals ==> r.keys == d.keys + [x]
  {
    if x in d.vals then Dict(d.keys, d.vals[x := d.vals[x] + 1])
    else Dict(d.keys + [x], d.vals[x := 1])
  }

  /** The counting loop over a whole list: each distinct element mapped to
      the number of times it occurs. */
  function CountAll(xs: seq<string>): (d: Dict)
    ensures Valid(d)
    ensures forall x :: x in d.vals <==> x in xs
    ensures forall x :: x in d.vals ==> d.vals[x] == multiset(xs)[x]
  {
    if |xs| == 0 then Empty
    else
      var init := xs[..|xs| - 1];
      assert xs == init + [xs[|xs| - 1]];
      Inc(CountAll(init), xs[|xs| - 1])
  }

  /** get_keys: the keys of the dictionary, each once, in iteration order. */
  function GetKeys(d: Dict): (ks: seq<string>)
    ensures Valid(d) ==> forall x :: x in ks <==> x in d.vals
    ensures Valid(d) ==> forall i, j :: 0 <= i < j < |ks| ==> ks[i] != ks[j]
  {
    d.keys
  }

  /** get_vals: the count of each listed key, position by position. */
  function GetVals(d: Dict, ks: seq<string>): (vs: seq<nat>)
    requires forall k :: k in ks ==> k in d.vals
    ensures |vs| == |ks|
    ensures forall j :: 0 <= j < |ks| ==> vs[j] == d.vals[ks[j]]
  {
    if |ks| == 0 then [] else GetVals(d, ks[..|ks| - 1]) + [d.vals[ks[|ks| - 1]]]
  }

  /** The sum of a list of counts. */
  function Sum(vs: seq<nat>): nat
  {
    if |vs| == 0 then 0 else Sum(vs[..|vs| - 1]) + vs[|vs| - 1]
  }

  lemma SumAppend(vs: seq<nat>, v: nat)
    ensures Sum(vs + [v]) == Sum(vs) + v
  {
    assert (vs + [v])[..|vs|] == vs;
  }

  /** The counts of a key list with one more key at the end. */
  lemma GetValsAppend(d: Dict, ks: seq<string>, k: string)
    requires forall x :: x in ks ==> x in d.vals
    requires k in d.vals
    ensures Sum(GetVals(d, ks + [k])) == Sum(GetVals(d, ks)) + d.vals[k]
  {
    assert (ks + [k])[..|ks|] == ks;
    assert GetVals(d, ks + [k]) == GetVals(d, ks) + [d.vals[k]];
    SumAppend(GetVals(d, ks), d.vals[k]);
  }

  /** Two dictionaries that agree on a key list give it the same counts. */
  lemma GetValsAgree(d: Dict, e: Dict, ks: seq<string>)
    requires forall x :: x in ks ==> x in d.vals && x in e.vals && d.vals[x] == e.vals[x]
    ensures GetVals(d, ks) == GetVals(e, ks)
  {
  }

  /** A key listed once in a list of distinct keys occurs in it exactly once. */
  lemma {:induction false} DistinctOnce(ks: seq<string>, y: string)
    requires forall i, j :: 0 <= i < j < |ks| ==> ks[i] != ks[j]
    requires y in ks
    ensures multiset(ks)[y] == 1
    decreases |ks|
  {
    var init, last := ks[..|ks| - 1], ks[|ks| - 1];
    assert ks == init + [last];
    if last == y {
      assert y !in init by {
        forall i | 0 <= i < |init| ensures init[i] != y {
          assert init[i] == ks[i];
        }
      }
    } else {
      assert y in init;
      forall i, j | 0 <= i < j < |init| ensures init[i] != init[j] {
        assert init[i] == ks[i] && init[j] == ks[j];
      }
      DistinctOnce(init, y);
    }
  }

  /** Bumping the count of a key that is listed exactly once raises the sum
      of the listed counts by one. */
  lemma {:induction false} SumBump(d: Dict, e: Dict, ks: seq<string>, y: string)
    requires forall k :: k in ks ==> k in d.vals
    requires y in d.vals && e.vals == d.vals[y := d.vals[y] + 1]
    requires multiset(ks)[y] == 1
    ensures Sum(GetVals(e, ks)) == Sum(GetVals(d, ks)) + 1
    decreases |ks|
  {
    var init, last := ks[..|ks| - 1], ks[|ks| - 1];
    assert ks == init + [last];
    assert forall x :: x in init ==> x in ks;
    GetValsAppend(d, init, last);
    GetValsAppend(e, init, last);
    if last == y {
      assert multiset(init)[y] == 0;
      GetValsAgree(d, e, init);
    } else {
      assert multiset(init)[y] == 1;
      SumBump(d, e, init, y);
    }
  }

  /** The counts of a counted list add up to its length. */
  lemma {:induction false} CountAllTotal(xs: seq<string>)
    ensures Sum(GetVals(CountAll(xs), GetKeys(CountAll(xs)))) == |xs|
    decreases |xs|
  {
    if |xs| > 0 {
      var init := xs[..|xs| - 1];
      var y := xs[|xs| - 1];
      var d := CountAll(init);
      var e := CountAll(xs);
      CountAllTotal(init);
      assert e == Inc(d, y);
      if y in d.vals {
        assert e.keys == d.keys;
        DistinctOnce(d.keys, y);
        SumBump(d, e, d.keys, y);
      } else {
        assert e.keys == d.keys + [y];
        GetValsAgree(d, e, d.keys);
        GetValsAppend(e, d.keys, y);
      }
    }
  }
}
