/**
 The weighted, per-device stable pick among a campaign's variants
 (app/routers/promo.py). A variant is its weight here; the bucket is a hash of
 campaign and device, taken modulo the total weight.
 */
module PromoVariants {
  import opened Options

  /** max(int(weight), 0), position by position. */
  function Clamp(w: int): nat {
    if w < 0 then 0 else w
  }

  /** The total weight of the first `n` variants. */
  function Upto(ws: seq<int>, n: nat): nat
    requires n <= |ws|
  {
    if n == 0 then 0 else Upto(ws, n - 1) + Clamp(ws[n - 1])
  }

  /** Upto adds up the weights in order, a negative one as nothing. */
  lemma {:induction false} UptoIsSum(ws: seq<int>, n: nat)
    requires n < |ws|
    ensures Upto(ws, 0) == 0 && Upto(ws, n + 1) == Upto(ws, n) + if ws[n] > 0 then ws[n] else 0
  {
  }

  function Total(ws: seq<int>): nat {
    Upto(ws, |ws|)
  }

  /** The position whose stretch of the number line holds the bucket. */
  predicate Holds(ws: seq<int>, i: nat, bucket: nat)
    requires i < |ws|
  {
    Upto(ws, i) <= bucket < Upto(ws, i + 1)
  }

  lemma {:induction false} UptoMonotone(ws: seq<int>, i: nat, j: nat)
    requires i <= j <= |ws|
    ensures Upto(ws, i) <= Upto(ws, j)
    decreases j - i
  {
    if i < j {
      UptoMonotone(ws, i, j - 1);
    }
  }

  lemma HoldsOnce(ws: seq<int>, i: nat, j: nat, bucket: nat)
    requires i < |ws| && j < |ws| && Holds(ws, i, bucket) && Holds(ws, j, bucket)
    ensures i == j
  {
    if i < j {
      UptoMonotone(ws, i + 1, j);
    } else if j < i {
      UptoMonotone(ws, j + 1, i);
    }
  }

  /** Every bucket below the total is held by some position, of positive weight. */
  function Holder(ws: seq<int>, n: nat, bucket: nat): (i: nat)
    requires n <= |ws| && bucket < Upto(ws, n)
    ensures i < n && Holds(ws, i, bucket) && ws[i] > 0
  {
    if bucket < Upto(ws, n - 1) then Holder(ws, n - 1, bucket) else n - 1
  }

  /** The position picked; the first one when nothing has weight. */
  function Picked(ws: seq<int>, hash: nat): Option<nat> {
    if ws == [] then None
    else if Total(ws) == 0 then Some(0)
    else Some(Holder(ws, |ws|, hash % Total(ws)))
  }

  /** _pick_variant. With a positive total the loop always returns: the statement after it
      is dead. */
  method Pick(ws: seq<int>, hash: nat) returns (pos: Option<nat>)
    ensures pos == Picked(ws, hash)
    ensures pos.None? <==> ws == []
    ensures pos.Some? ==> pos.value < |ws|
    ensures Upto(ws, |ws|) == 0 && ws != [] ==> pos == Some(0)
    ensures Upto(ws, |ws|) > 0 ==> pos.Some? && ws[pos.value] > 0
                                   && Upto(ws, pos.value) <= hash % Upto(ws, |ws|) < Upto(ws, pos.value + 1)
  {
    var total := 0;
    for i := 0 to |ws|
      invariant total == Upto(ws, i)
    {
      total := total + Clamp(ws[i]);
    }
    if total <= 0 {
      return if ws == [] then None else Some(0);
    }
    var bucket := hash % total;
    var acc := 0;
    for i := 0 to |ws|
      invariant acc == Upto(ws, i) && acc <= bucket
    {
      acc := acc + Clamp(ws[i]);
      if bucket < acc {
        HoldsOnce(ws, i, Holder(ws, |ws|, bucket), bucket);
        return Some(i);
      }
    }
    assert false;
  }

  /** The residues that pick a given position. */
  function Buckets(ws: seq<int>, i: nat): set<nat>
    requires i < |ws|
  {
    set b: nat | 0 <= b < Total(ws) && Holds(ws, i, b)
  }

  function Interval(lo: nat, hi: nat): set<nat> {
    if lo >= hi then {} else Interval(lo, hi - 1) + {hi - 1}
  }

  lemma {:induction false} IntervalSize(lo: nat, hi: nat)
    requires lo <= hi
    ensures |Interval(lo, hi)| == hi - lo
    ensures forall b: nat :: b in Interval(lo, hi) <==> lo <= b < hi
  {
    if lo < hi {
      IntervalSize(lo, hi - 1);
    }
  }

  /** The pick is exactly proportional: of the residues below the total, exactly as many as
      its weight select each position. */
  lemma PickIsProportional(ws: seq<int>, i: nat)
    requires i < |ws|
    ensures |Buckets(ws, i)| == if ws[i] > 0 then ws[i] else 0
  {
    UptoMonotone(ws, i + 1, |ws|);
    IntervalSize(Upto(ws, i), Upto(ws, i + 1));
    forall b: nat
      ensures b in Buckets(ws, i) <==> b in Interval(Upto(ws, i), Upto(ws, i + 1))
    {
      assert b in Buckets(ws, i) <==> b < Total(ws) && Holds(ws, i, b);
    }
    assert Buckets(ws, i) == Interval(Upto(ws, i), Upto(ws, i + 1));
  }

  lemma {:induction false} WeightedHasTotal(ws: seq<int>, i: nat)
    requires i < |ws| && ws[i] > 0
    ensures Total(ws) > 0
  {
    UptoMonotone(ws, i + 1, |ws|);
  }
}
