/**
 * The find-or-push yearly grouping both chart views use: items are folded
 * left to right into a list of buckets; an item joins the first bucket
 * whose year is `===` its own, or else opens a new bucket at the end.
 * The fold is proved equal to a reference that does not fold: one bucket
 * per position whose year has not occurred before, in that order.
 */
module YearGrouping {
  import opened Wrappers
  import opened Dates
  import opened FirstAppearance

  /** How a view groups its items: an item's year, the bucket value it opens, and how it joins one. */
  datatype Grouping<!T, !V> = Grouping(key: T -> Year, open: T -> V, merge: (V, T) -> V)

  /** A bucket of the result: its `year` and the value built so far. */
  datatype Bucket<V> = Bucket(year: Year, value: V)

  function Keys<T, V>(g: Grouping<T, V>, s: seq<T>): (ks: seq<Year>)
    ensures |ks| == |s|
    ensures forall i :: 0 <= i < |s| ==> ks[i] == g.key(s[i])
  {
    seq(|s|, i requires 0 <= i < |s| => g.key(s[i]))
  }

  /** `acc.find((d) => d.year === year)`, as the index of the bucket found. */
  function FindYear<V>(acc: seq<Bucket<V>>, y: Year): (r: Option<nat>)
    ensures r.Some? ==> r.value < |acc| && SameYear(acc[r.value].year, y)
    ensures r.Some? ==> forall k :: 0 <= k < r.value ==> !SameYear(acc[k].year, y)
    ensures r.None? <==> forall k :: 0 <= k < |acc| ==> !SameYear(acc[k].year, y)
    decreases |acc|
  {
    if |acc| == 0 then None
    else if SameYear(acc[0].year, y) then Some(0)
    else match FindYear(acc[1..], y)
      case Some(k) => Some(k + 1)
      case None => None
  }

  /** One call of the reducer: merge x into the bucket of its year, or open one at the end. */
  function Step<T, V>(g: Grouping<T, V>, acc: seq<Bucket<V>>, x: T): seq<Bucket<V>> {
    match FindYear(acc, g.key(x))
    case Some(k) => acc[k := Bucket(acc[k].year, g.merge(acc[k].value, x))]
    case None => acc + [Bucket(g.key(x), g.open(x))]
  }

  /** `s.reduce(reducer, [])`: the reducer applied left to right. */
  function Accumulate<T, V>(g: Grouping<T, V>, s: seq<T>): seq<Bucket<V>>
    decreases |s|
  {
    if |s| == 0 then [] else Step(g, Accumulate(g, s[..|s| - 1]), s[|s| - 1])
  }

  // ------------------------------------------------- reference definition

  /**
   * The value of the bucket s[i] opens: s[i] opened, then every later item
   * of the same year merged in, in order. A NaN year collects nothing more.
   */
  function Collected<T, V>(g: Grouping<T, V>, s: seq<T>, i: nat): V
    requires i < |s|
    decreases |s|
  {
    if i == |s| - 1 then g.open(s[i])
    else
      var v := Collected(g, s[..|s| - 1], i);
      if SameYear(g.key(s[|s| - 1]), g.key(s[i])) then g.merge(v, s[|s| - 1]) else v
  }

  /** The grouping stated without the fold: one bucket per position that opens a year, in order. */
  function ReferenceBuckets<T, V>(g: Grouping<T, V>, s: seq<T>): (r: seq<Bucket<V>>)
    ensures |r| == |FirstIndices(Keys(g, s))|
  {
    var F := FirstIndices(Keys(g, s));
    seq(|F|, k requires 0 <= k < |F| => Bucket(g.key(s[F[k]]), Collected(g, s, F[k])))
  }

  // ------------------------------------------ the fold meets the reference

  lemma FirstIndicesSnoc<T, V>(g: Grouping<T, V>, p: seq<T>, x: T)
    ensures Keys(g, p + [x]) == Keys(g, p) + [g.key(x)]
    ensures FirstIndices(Keys(g, p + [x]))
         == FirstIndices(Keys(g, p)) + (if IsFirstOfYear(Keys(g, p + [x]), |p|) then [|p|] else [])
  {
    var ks := Keys(g, p + [x]);
    assert ks == Keys(g, p) + [g.key(x)];
    assert ks[..|ks| - 1] == Keys(g, p);
  }

  /** Appending an item leaves each existing reference bucket in place, merging x only into its own year. */
  lemma ReferenceSnoc<T, V>(g: Grouping<T, V>, p: seq<T>, x: T, k: nat)
    requires k < |ReferenceBuckets(g, p)|
    ensures k < |ReferenceBuckets(g, p + [x])|
    ensures ReferenceBuckets(g, p + [x])[k]
         == var b := ReferenceBuckets(g, p)[k];
            if SameYear(b.year, g.key(x)) then Bucket(b.year, g.merge(b.value, x)) else b
  {
    var s := p + [x];
    FirstIndicesSnoc(g, p, x);
    var F := FirstIndices(Keys(g, p));
    assert FirstIndices(Keys(g, s))[k] == F[k];
    assert s[F[k]] == p[F[k]];
    assert s[..|s| - 1] == p;
  }

  /** An item whose year is new opens the last reference bucket, holding only itself. */
  lemma ReferenceNewYear<T, V>(g: Grouping<T, V>, p: seq<T>, x: T)
    requires IsFirstOfYear(Keys(g, p + [x]), |p|)
    ensures |ReferenceBuckets(g, p + [x])| == |ReferenceBuckets(g, p)| + 1
    ensures ReferenceBuckets(g, p + [x])[|ReferenceBuckets(g, p)|] == Bucket(g.key(x), g.open(x))
  {
    FirstIndicesSnoc(g, p, x);
  }

  /** Reference bucket years are those of the positions opening them. */
  lemma ReferenceYears<T, V>(g: Grouping<T, V>, p: seq<T>)
    ensures forall k :: 0 <= k < |ReferenceBuckets(g, p)| ==>
      ReferenceBuckets(g, p)[k].year == Keys(g, p)[FirstIndices(Keys(g, p))[k]]
  {
  }

  /** No existing bucket has the year of an item that opens one. */
  lemma NoBucketOfYear<T, V>(g: Grouping<T, V>, p: seq<T>, x: T)
    requires IsFirstOfYear(Keys(g, p + [x]), |p|)
    ensures FindYear(ReferenceBuckets(g, p), g.key(x)).None?
  {
    var acc := ReferenceBuckets(g, p);
    var F := FirstIndices(Keys(g, p));
    FirstIndicesSnoc(g, p, x);
    ReferenceYears(g, p);
    forall k | 0 <= k < |acc|
      ensures !SameYear(acc[k].year, g.key(x))
    {
      assert Keys(g, p + [x])[F[k]] == acc[k].year;
    }
  }

  lemma StepIntoNewBucket<T, V>(g: Grouping<T, V>, acc: seq<Bucket<V>>, x: T)
    requires FindYear(acc, g.key(x)).None?
    ensures Step(g, acc, x) == acc + [Bucket(g.key(x), g.open(x))]
  {
  }

  lemma StepIntoBucket<T, V>(g: Grouping<T, V>, acc: seq<Bucket<V>>, x: T, k: nat)
    requires FindYear(acc, g.key(x)) == Some(k)
    ensures Step(g, acc, x) == acc[k := Bucket(acc[k].year, g.merge(acc[k].value, x))]
  {
  }

  /** An item whose year is new opens a bucket at the end. */
  lemma StepOpensYear<T, V>(g: Grouping<T, V>, p: seq<T>, x: T)
    requires IsFirstOfYear(Keys(g, p + [x]), |p|)
    ensures Step(g, ReferenceBuckets(g, p), x) == ReferenceBuckets(g, p + [x])
  {
    var acc := ReferenceBuckets(g, p);
    NoBucketOfYear(g, p, x);
    StepIntoNewBucket(g, acc, x);
    ReferenceNewYear(g, p, x);
    var R := ReferenceBuckets(g, p + [x]);
    forall k | 0 <= k < |acc|
      ensures R[k] == acc[k]
    {
      ReferenceSnoc(g, p, x, k);
    }
    assert R == acc + [Bucket(g.key(x), g.open(x))];
  }

  /** Of the reference buckets, exactly one has the year of an item that does not open one. */
  lemma OnlyBucketOfYear<T, V>(g: Grouping<T, V>, p: seq<T>, x: T) returns (k0: nat)
    requires !IsFirstOfYear(Keys(g, p + [x]), |p|)
    ensures k0 < |ReferenceBuckets(g, p)|
    ensures FindYear(ReferenceBuckets(g, p), g.key(x)) == Some(k0)
    ensures forall k :: 0 <= k < |ReferenceBuckets(g, p)| && k != k0 ==>
              !SameYear(ReferenceBuckets(g, p)[k].year, g.key(x))
  {
    var acc := ReferenceBuckets(g, p);
    var ks := Keys(g, p);
    var F := FirstIndices(ks);
    FirstIndicesSnoc(g, p, x);
    ReferenceYears(g, p);
    var ks' := Keys(g, p + [x]);
    assert ks'[|p|] == g.key(x);
    var j :| 0 <= j < |p| && SameYear(ks'[j], ks'[|p|]);
    assert ks[j] == ks'[j];
    k0 := KnownYearHasFirst(ks, j);
    assert acc[k0].year == ks[F[k0]];
    assert SameYear(acc[k0].year, g.key(x));
    forall k | 0 <= k < |acc| && k != k0
      ensures !SameYear(acc[k].year, g.key(x))
    {
      if k < k0 {
        FirstYearsDistinct(ks, k, k0);
      } else {
        FirstYearsDistinct(ks, k0, k);
      }
    }
    var r := FindYear(acc, g.key(x));
    assert r.Some?;
    assert r.value == k0;
  }

  /** An item that does not open a year leaves the number of buckets unchanged. */
  lemma ReferenceSameCount<T, V>(g: Grouping<T, V>, p: seq<T>, x: T)
    requires !IsFirstOfYear(Keys(g, p + [x]), |p|)
    ensures |ReferenceBuckets(g, p + [x])| == |ReferenceBuckets(g, p)|
  {
    FirstIndicesSnoc(g, p, x);
  }

  /** An item of a year already seen is merged into that year's bucket only. */
  lemma StepJoinsYear<T, V>(g: Grouping<T, V>, p: seq<T>, x: T)
    requires !IsFirstOfYear(Keys(g, p + [x]), |p|)
    ensures Step(g, ReferenceBuckets(g, p), x) == ReferenceBuckets(g, p + [x])
  {
    var acc := ReferenceBuckets(g, p);
    var k0 := OnlyBucketOfYear(g, p, x);
    StepIntoBucket(g, acc, x, k0);
    var acc' := acc[k0 := Bucket(acc[k0].year, g.merge(acc[k0].value, x))];
    var R := ReferenceBuckets(g, p + [x]);
    ReferenceSameCount(g, p, x);
    forall k | 0 <= k < |acc|
      ensures R[k] == acc'[k]
    {
      ReferenceSnoc(g, p, x, k);
    }
    assert R == acc';
  }

  /** The fold computes the reference grouping. */
  lemma {:induction false} MatchesReference<T, V>(g: Grouping<T, V>, s: seq<T>)
    ensures Accumulate(g, s) == ReferenceBuckets(g, s)
    decreases |s|
  {
    if |s| > 0 {
      var p, x := s[..|s| - 1], s[|s| - 1];
      assert s == p + [x];
      MatchesReference(g, p);
      if IsFirstOfYear(Keys(g, p + [x]), |p|) {
        StepOpensYear(g, p, x);
      } else {
        StepJoinsYear(g, p, x);
      }
    }
  }

  // --------------------------------------------- properties of the result

  /** No two buckets have the same year. */
  lemma YearsDistinct<T, V>(g: Grouping<T, V>, s: seq<T>)
    ensures forall k, l :: 0 <= k < l < |Accumulate(g, s)| ==>
              !SameYear(Accumulate(g, s)[k].year, Accumulate(g, s)[l].year)
  {
    MatchesReference(g, s);
    var ks := Keys(g, s);
    var r := Accumulate(g, s);
    forall k, l | 0 <= k < l < |r|
      ensures !SameYear(r[k].year, r[l].year)
    {
      FirstYearsDistinct(ks, k, l);
    }
  }

  /** Every item with a known year has the bucket of its year. */
  lemma CoversEveryYear<T, V>(g: Grouping<T, V>, s: seq<T>)
    ensures forall i :: 0 <= i < |s| && g.key(s[i]).Known? ==>
              exists k :: 0 <= k < |Accumulate(g, s)| && Accumulate(g, s)[k].year == g.key(s[i])
  {
    MatchesReference(g, s);
    var ks := Keys(g, s);
    forall i | 0 <= i < |s| && g.key(s[i]).Known?
      ensures exists k :: 0 <= k < |Accumulate(g, s)| && Accumulate(g, s)[k].year == g.key(s[i])
    {
      var k := KnownYearHasFirst(ks, i);
      assert Accumulate(g, s)[k].year == g.key(s[i]);
    }
  }

  /** Bucket k holds the item that opened it, an item sharing its year with no earlier item. */
  lemma OpenedBy<T, V>(g: Grouping<T, V>, s: seq<T>, k: nat) returns (i: nat)
    requires k < |Accumulate(g, s)|
    ensures i < |s| && IsFirstOfYear(Keys(g, s), i)
    ensures Accumulate(g, s)[k] == Bucket(g.key(s[i]), Collected(g, s, i))
  {
    MatchesReference(g, s);
    i := FirstIndices(Keys(g, s))[k];
  }

  /** Buckets come in the order their opening items appear in the input. */
  lemma FirstAppearanceOrder<T, V>(g: Grouping<T, V>, s: seq<T>, k: nat, l: nat)
    requires k < l < |Accumulate(g, s)|
    ensures exists i, j :: (0 <= i < j < |s|
      && IsFirstOfYear(Keys(g, s), i) && IsFirstOfYear(Keys(g, s), j)
      && Accumulate(g, s)[k] == Bucket(g.key(s[i]), Collected(g, s, i))
      && Accumulate(g, s)[l] == Bucket(g.key(s[j]), Collected(g, s, j)))
  {
    MatchesReference(g, s);
    var F := FirstIndices(Keys(g, s));
    assert F[k] < F[l];
    assert Accumulate(g, s)[k] == Bucket(g.key(s[F[k]]), Collected(g, s, F[k]));
    assert Accumulate(g, s)[l] == Bucket(g.key(s[F[l]]), Collected(g, s, F[l]));
  }
}
