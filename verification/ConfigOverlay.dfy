/**
 The two walks over a bundled config and its runtime overlay
 (app/routers/config.py): hydration adds what the overlay lacks, drift reports
 what both hold and differs. Both descend by the same rules: into two
 dictionaries key by key, into two lists of dictionaries of equal length
 element by element, and nowhere else.

 `Hydrate`, `Added` and `Drifted` specify the walks; the methods are the walks
 with their loops and accumulators.
 */
module ConfigOverlay {
  import opened Json
  import opened Options

  /** Two lists are walked only when equally long and made of dictionaries. */
  predicate Elementwise(b: Json, o: Json) {
    && b.Arr? && o.Arr? && |b.items| == |o.items|
    && forall i :: 0 <= i < |b.items| ==> b.items[i].Obj? && o.items[i].Obj?
  }

  predicate Descends(b: Json, o: Json) {
    (b.Obj? && o.Obj?) || Elementwise(b, o)
  }

  /** The overlay after hydration. */
  function Hydrate(b: Json, o: Json): (h: Json)
    ensures o.Obj? ==> h.Obj?
    decreases b
  {
    if b.Obj? && o.Obj? then
      Obj(map k | k in b.fields.Keys + o.fields.Keys ::
            if k !in o.fields then b.fields[k]
            else if k in b.fields then Hydrate(b.fields[k], o.fields[k])
            else o.fields[k])
    else if Elementwise(b, o) then
      Arr(seq(|b.items|, i requires 0 <= i < |b.items| == |o.items| => Hydrate(b.items[i], o.items[i])))
    else o
  }

  function Decimals(n: nat): (r: seq<string>)
    ensures |r| == n && forall i :: 0 <= i < n ==> r[i] == Decimal(i)
  {
    seq(n, i requires 0 <= i < n => Decimal(i))
  }

  /** The tokens a walk visits below a container, in order. */
  function Tokens(ord: KeyOrder, b: Json, p: Path): seq<string> {
    match b
    case Obj(fields) => ord(p, fields)
    case Arr(items) => Decimals(|items|)
    case _ => []
  }

  /** The paths hydration reports, in order. */
  function Added(ord: KeyOrder, b: Json, o: Json, p: Path): seq<Path>
    decreases b
  {
    if Descends(b, o) then AddedBelow(ord, b, o, p, Tokens(ord, b, p)) else []
  }

  function AddedBelow(ord: KeyOrder, b: Json, o: Json, p: Path, toks: seq<string>): seq<Path>
    decreases b, |toks|
  {
    if toks == [] then [] else
      (match (Child(b, toks[0]), Child(o, toks[0]))
       case (Some(bc), Some(oc)) => Added(ord, bc, oc, p + [toks[0]])
       case (Some(_), None) => [p + [toks[0]]]
       case _ => [])
      + AddedBelow(ord, b, o, p, toks[1..])
  }

  /** The paths the drift detector reports, in order. */
  function Drifted(ord: KeyOrder, b: Json, o: Json, p: Path): seq<Path>
    decreases b
  {
    if Descends(b, o) then DriftedBelow(ord, b, o, p, Tokens(ord, b, p))
    else if b != o then [p]
    else []
  }

  function DriftedBelow(ord: KeyOrder, b: Json, o: Json, p: Path, toks: seq<string>): seq<Path>
    decreases b, |toks|
  {
    if toks == [] then [] else
      (match (Child(b, toks[0]), Child(o, toks[0]))
       case (Some(bc), Some(oc)) => Drifted(ord, bc, oc, p + [toks[0]])
       case _ => [])
      + DriftedBelow(ord, b, o, p, toks[1..])
  }

  // --------------------------------------------------- hydration, child by child

  lemma HydrateChild(b: Json, o: Json, tok: string)
    requires Descends(b, o)
    ensures Child(Hydrate(b, o), tok) ==
            match (Child(b, tok), Child(o, tok))
            case (Some(bc), Some(oc)) => Some(Hydrate(bc, oc))
            case (bc, None) => bc
            case (None, oc) => oc
  {
  }

  lemma HydrateDescends(b: Json, o: Json)
    ensures Descends(b, Hydrate(b, o)) <==> Descends(b, o)
  {
  }

  // ------------------------------------------------ where the walks go

  /** At anything but two dictionaries or two lists of equal length whose items are dictionaries
      throughout, both walks stop: the overlay wins, and differing values are one drift. */
  lemma WalksStopElsewhere(ord: KeyOrder, b: Json, o: Json, p: Path)
    requires !(b.Obj? && o.Obj?)
    requires b.Arr? && o.Arr? ==>
               || |b.items| != |o.items|
               || (exists i :: 0 <= i < |b.items| && !(b.items[i].Obj? && o.items[i].Obj?))
    ensures Hydrate(b, o) == o && Added(ord, b, o, p) == []
    ensures Drifted(ord, b, o, p) == if b != o then [p] else []
  {
  }

  function Flat(parts: seq<seq<Path>>): seq<Path> {
    if parts == [] then [] else parts[0] + Flat(parts[1..])
  }

  lemma {:induction false} AddedBelowIsFlat(ord: KeyOrder, b: Json, o: Json, p: Path, toks: seq<string>,
                                            parts: seq<seq<Path>>)
    requires |parts| == |toks|
    requires forall i :: 0 <= i < |toks| ==> parts[i] == AddedFrom(ord, b, o, p, toks[i])
    ensures AddedBelow(ord, b, o, p, toks) == Flat(parts)
    decreases |toks|
  {
    if toks != [] {
      AddedBelowIsFlat(ord, b, o, p, toks[1..], parts[1..]);
    }
  }

  lemma {:induction false} DriftedBelowIsFlat(ord: KeyOrder, b: Json, o: Json, p: Path, toks: seq<string>,
                                              parts: seq<seq<Path>>)
    requires |parts| == |toks|
    requires forall i :: 0 <= i < |toks| ==> parts[i] == DriftedFrom(ord, b, o, p, toks[i])
    ensures DriftedBelow(ord, b, o, p, toks) == Flat(parts)
    decreases |toks|
  {
    if toks != [] {
      DriftedBelowIsFlat(ord, b, o, p, toks[1..], parts[1..]);
    }
  }

  /** Equally long lists of dictionaries are walked item by item, in order. */
  lemma ListsAreWalkedByItem(ord: KeyOrder, b: Json, o: Json, p: Path, added: seq<seq<Path>>, drifted: seq<seq<Path>>)
    requires b.Arr? && o.Arr? && |b.items| == |o.items| == |added| == |drifted|
    requires forall i :: 0 <= i < |b.items| ==> b.items[i].Obj? && o.items[i].Obj?
    requires forall i :: 0 <= i < |b.items| ==>
               && added[i] == Added(ord, b.items[i], o.items[i], p + [Decimal(i)])
               && drifted[i] == Drifted(ord, b.items[i], o.items[i], p + [Decimal(i)])
    ensures Added(ord, b, o, p) == Flat(added) && Drifted(ord, b, o, p) == Flat(drifted)
    ensures Hydrate(b, o).Arr? && |Hydrate(b, o).items| == |o.items|
    ensures forall i :: 0 <= i < |o.items| ==> Hydrate(b, o).items[i] == Hydrate(b.items[i], o.items[i])
  {
    var toks := Decimals(|b.items|);
    forall i | 0 <= i < |toks|
      ensures added[i] == AddedFrom(ord, b, o, p, toks[i]) && drifted[i] == DriftedFrom(ord, b, o, p, toks[i])
    {
      DecimalRoundTrip(i);
    }
    AddedBelowIsFlat(ord, b, o, p, toks, added);
    DriftedBelowIsFlat(ord, b, o, p, toks, drifted);
  }

  /** Two dictionaries are walked by the bundle's keys, in its order: a missing key is added
      whole and is no drift, a common one is walked, any other key of the overlay is left. */
  lemma DictsAreWalkedByKey(ord: KeyOrder, b: Json, o: Json, p: Path, keys: seq<string>,
                            added: seq<seq<Path>>, drifted: seq<seq<Path>>)
    requires Enumerates(ord) && b.Obj? && o.Obj? && keys == ord(p, b.fields) && |keys| == |added| == |drifted|
    requires forall i :: 0 <= i < |keys| ==>
               var k := keys[i];
               if k in b.fields && k in o.fields then
                 && added[i] == Added(ord, b.fields[k], o.fields[k], p + [k])
                 && drifted[i] == Drifted(ord, b.fields[k], o.fields[k], p + [k])
               else added[i] == [p + [k]] && drifted[i] == []
    ensures Added(ord, b, o, p) == Flat(added) && Drifted(ord, b, o, p) == Flat(drifted)
    ensures Hydrate(b, o).Obj? && Hydrate(b, o).fields.Keys == b.fields.Keys + o.fields.Keys
    ensures forall k :: k in Hydrate(b, o).fields ==>
              Hydrate(b, o).fields[k] == if k !in o.fields then b.fields[k]
                                         else if k in b.fields then Hydrate(b.fields[k], o.fields[k])
                                         else o.fields[k]
  {
    assert Lists(keys, b.fields);
    forall i | 0 <= i < |keys|
      ensures added[i] == AddedFrom(ord, b, o, p, keys[i]) && drifted[i] == DriftedFrom(ord, b, o, p, keys[i])
    {
      assert keys[i] in keys;
    }
    AddedBelowIsFlat(ord, b, o, p, keys, added);
    DriftedBelowIsFlat(ord, b, o, p, keys, drifted);
  }

  // -------------------------------------------- hydration and drift commute

  lemma {:induction false} NothingAgainstItself(ord: KeyOrder, b: Json, p: Path)
    ensures Added(ord, b, b, p) == [] && Drifted(ord, b, b, p) == []
    decreases b
  {
    if Descends(b, b) {
      NothingBelowItself(ord, b, p, Tokens(ord, b, p));
    }
  }

  lemma {:induction false} NothingBelowItself(ord: KeyOrder, b: Json, p: Path, toks: seq<string>)
    ensures AddedBelow(ord, b, b, p, toks) == [] && DriftedBelow(ord, b, b, p, toks) == []
    decreases b, |toks|
  {
    if toks != [] {
      if Child(b, toks[0]).Some? {
        NothingAgainstItself(ord, Child(b, toks[0]).value, p + [toks[0]]);
      }
      NothingBelowItself(ord, b, p, toks[1..]);
    }
  }

  /** Hydrating leaves the drift report against that bundle identical, and leaves
      nothing more to add. */
  lemma {:induction false} HydrationKeepsDrift(ord: KeyOrder, b: Json, o: Json, p: Path)
    ensures Drifted(ord, b, Hydrate(b, o), p) == Drifted(ord, b, o, p)
    ensures Added(ord, b, Hydrate(b, o), p) == []
    decreases b
  {
    HydrateDescends(b, o);
    if Descends(b, o) {
      HydrationKeepsDriftBelow(ord, b, o, p, Tokens(ord, b, p));
    }
  }

  lemma {:induction false} HydrationKeepsDriftBelow(ord: KeyOrder, b: Json, o: Json, p: Path, toks: seq<string>)
    requires Descends(b, o)
    ensures DriftedBelow(ord, b, Hydrate(b, o), p, toks) == DriftedBelow(ord, b, o, p, toks)
    ensures AddedBelow(ord, b, Hydrate(b, o), p, toks) == []
    decreases b, |toks|
  {
    if toks != [] {
      HydrateChild(b, o, toks[0]);
      match (Child(b, toks[0]), Child(o, toks[0])) {
        case (Some(bc), Some(oc)) => HydrationKeepsDrift(ord, bc, oc, p + [toks[0]]);
        case (Some(bc), None) => NothingAgainstItself(ord, bc, p + [toks[0]]);
        case _ =>
      }
      HydrationKeepsDriftBelow(ord, b, o, p, toks[1..]);
    }
  }

  // --------------------------------------------- what an overlay must hold

  /** The overlay holds all of the bundle, under the descent rules. */
  ghost predicate Covers(b: Json, o: Json)
    decreases b
  {
    if Descends(b, o) then
      forall tok :: Child(b, tok).Some? ==> Child(o, tok).Some? && Covers(Child(b, tok).value, Child(o, tok).value)
    else b == o
  }

  lemma TokensListChildren(ord: KeyOrder, b: Json, p: Path)
    requires Enumerates(ord) && (b.Obj? || b.Arr?)
    ensures forall tok :: tok in Tokens(ord, b, p) <==> Child(b, tok).Some?
    ensures forall i, j :: 0 <= i < j < |Tokens(ord, b, p)| ==> Tokens(ord, b, p)[i] != Tokens(ord, b, p)[j]
  {
    if !b.Obj? {
      forall tok
        ensures tok in Decimals(|b.items|) <==> Child(b, tok).Some?
      {
        DecimalsListItems(b, tok);
      }
      DecimalsAreDistinct(|b.items|);
    }
  }

  lemma DecimalsListItems(b: Json, tok: string)
    requires b.Arr?
    ensures tok in Decimals(|b.items|) <==> Child(b, tok).Some?
  {
    var ds := Decimals(|b.items|);
    if tok in ds {
      var i :| 0 <= i < |ds| && ds[i] == tok;
      DecimalRoundTrip(i);
    }
    if Child(b, tok).Some? {
      IndexRoundTrip(tok);
      assert ds[Value(tok)] == tok;
    }
  }

  lemma DecimalsAreDistinct(n: nat)
    ensures forall i, j :: 0 <= i < j < n ==> Decimals(n)[i] != Decimals(n)[j]
  {
    forall i, j | 0 <= i < j < n
      ensures Decimals(n)[i] != Decimals(n)[j]
    {
      DecimalRoundTrip(i);
      DecimalRoundTrip(j);
    }
  }

  /** Nothing added and no drift: exactly when the overlay covers the bundle. */
  lemma {:induction false} QuietIffCovered(ord: KeyOrder, b: Json, o: Json, p: Path)
    requires Enumerates(ord)
    ensures Added(ord, b, o, p) == [] && Drifted(ord, b, o, p) == [] <==> Covers(b, o)
    decreases b
  {
    if Descends(b, o) {
      TokensListChildren(ord, b, p);
      QuietBelowIffCovered(ord, b, o, p, Tokens(ord, b, p));
    }
  }

  lemma {:induction false} QuietBelowIffCovered(ord: KeyOrder, b: Json, o: Json, p: Path, toks: seq<string>)
    requires Enumerates(ord) && forall tok :: tok in toks ==> Child(b, tok).Some?
    ensures AddedBelow(ord, b, o, p, toks) == [] && DriftedBelow(ord, b, o, p, toks) == [] <==>
            forall tok :: tok in toks ==> Child(o, tok).Some? && Covers(Child(b, tok).value, Child(o, tok).value)
    decreases b, |toks|
  {
    if toks != [] {
      var tok := toks[0];
      if Child(o, tok).Some? {
        QuietIffCovered(ord, Child(b, tok).value, Child(o, tok).value, p + [tok]);
      }
      QuietBelowIffCovered(ord, b, o, p, toks[1..]);
    }
  }

  // --------------------------------------------------- nothing is overwritten

  /** A value kept: scalars as they were, lists as long as they were, dictionaries with all their keys. */
  predicate Kept(v: Json, w: Json) {
    match v
    case Arr(items) => w.Arr? && |w.items| == |items|
    case Obj(fields) => w.Obj? && fields.Keys <= w.fields.Keys
    case _ => w == v
  }

  /** Whatever the overlay held, at whatever path, is still there. */
  lemma {:induction false} HydrationKeepsValues(b: Json, o: Json, p: Path)
    requires Lookup(o, p).Some?
    ensures Lookup(Hydrate(b, o), p).Some? && Kept(Lookup(o, p).value, Lookup(Hydrate(b, o), p).value)
    decreases |p|
  {
    if p != [] && Descends(b, o) {
      HydrateChild(b, o, p[0]);
      if Child(b, p[0]).Some? {
        HydrationKeepsValues(Child(b, p[0]).value, Child(o, p[0]).value, p[1..]);
      }
    }
  }

  lemma SameChildrenSame(b: Json, o: Json)
    requires Descends(b, o)
    requires forall tok :: Child(Hydrate(b, o), tok) == Child(o, tok)
    ensures Hydrate(b, o) == o
  {
    var h := Hydrate(b, o);
    if o.Obj? {
      forall k
        ensures k in h.fields <==> k in o.fields
        ensures k in h.fields && k in o.fields ==> h.fields[k] == o.fields[k]
      {
        assert Child(h, k) == Child(o, k);
      }
    } else {
      forall i | 0 <= i < |o.items|
        ensures h.items[i] == o.items[i]
      {
        DecimalRoundTrip(i);
        assert Child(h, Decimal(i)) == Child(o, Decimal(i));
      }
    }
  }

  /** Reporting nothing and changing nothing are the same. */
  lemma {:induction false} NothingAddedIffUnchanged(ord: KeyOrder, b: Json, o: Json, p: Path)
    requires Enumerates(ord)
    ensures Added(ord, b, o, p) == [] <==> Hydrate(b, o) == o
    decreases b
  {
    if Hydrate(b, o) == o {
      HydrationKeepsDrift(ord, b, o, p);
    }
    if Added(ord, b, o, p) == [] && Descends(b, o) {
      TokensListChildren(ord, b, p);
      forall tok
        ensures Child(Hydrate(b, o), tok) == Child(o, tok)
      {
        HydrateChild(b, o, tok);
        if Child(b, tok).Some? {
          NothingBelow(ord, b, o, p, Tokens(ord, b, p), tok);
          NothingAddedIffUnchanged(ord, Child(b, tok).value, Child(o, tok).value, p + [tok]);
        }
      }
      SameChildrenSame(b, o);
    }
  }

  lemma {:induction false} NothingBelow(ord: KeyOrder, b: Json, o: Json, p: Path, toks: seq<string>, tok: string)
    requires AddedBelow(ord, b, o, p, toks) == [] && tok in toks && Child(b, tok).Some?
    ensures Child(o, tok).Some? && Added(ord, Child(b, tok).value, Child(o, tok).value, p + [tok]) == []
  {
    if toks[0] != tok {
      NothingBelow(ord, b, o, p, toks[1..], tok);
    }
  }

  lemma HydrateIsIdempotent(ord: KeyOrder, b: Json, o: Json)
    requires Enumerates(ord)
    ensures Hydrate(b, Hydrate(b, o)) == Hydrate(b, o)
  {
    HydrationKeepsDrift(ord, b, o, []);
    NothingAddedIffUnchanged(ord, b, Hydrate(b, o), []);
  }

  // ------------------------------------------------- the report is exact

  /** A path is added when the walk descends to its parent and the overlay stops there. */
  predicate AddedAt(b: Json, o: Json, q: Path)
    decreases |q|
  {
    && q != [] && Descends(b, o) && Child(b, q[0]).Some?
    && (if Child(o, q[0]).None? then |q| == 1
        else AddedAt(Child(b, q[0]).value, Child(o, q[0]).value, q[1..]))
  }

  /** The report lists exactly the added paths. */
  lemma {:induction false} AddedListsAddedPaths(ord: KeyOrder, b: Json, o: Json, p: Path, q: Path)
    requires Enumerates(ord)
    ensures q in Added(ord, b, o, p) <==> p <= q && AddedAt(b, o, q[|p|..])
    decreases b
  {
    if Descends(b, o) {
      TokensListChildren(ord, b, p);
      AddedBelowListsAddedPaths(ord, b, o, p, Tokens(ord, b, p), q);
    }
  }

  lemma {:induction false} AddedBelowListsAddedPaths(ord: KeyOrder, b: Json, o: Json, p: Path,
                                                     toks: seq<string>, q: Path)
    requires Enumerates(ord) && Descends(b, o) && forall tok :: tok in toks ==> Child(b, tok).Some?
    ensures q in AddedBelow(ord, b, o, p, toks) <==>
            p <= q && |q| > |p| && q[|p|] in toks && AddedAt(b, o, q[|p|..])
    decreases b, |toks|
  {
    if toks != [] {
      var tok := toks[0];
      AddedBelowListsAddedPaths(ord, b, o, p, toks[1..], q);
      AddedFromListsAddedPaths(ord, b, o, p, tok, q);
      assert q in AddedBelow(ord, b, o, p, toks) <==>
             q in AddedFrom(ord, b, o, p, tok) || q in AddedBelow(ord, b, o, p, toks[1..]);
    }
  }

  /** The part of the report that comes from one token. */
  function AddedFrom(ord: KeyOrder, b: Json, o: Json, p: Path, tok: string): seq<Path> {
    match (Child(b, tok), Child(o, tok))
    case (Some(bc), Some(oc)) => Added(ord, bc, oc, p + [tok])
    case (Some(_), None) => [p + [tok]]
    case _ => []
  }

  lemma {:induction false} AddedFromListsAddedPaths(ord: KeyOrder, b: Json, o: Json, p: Path, tok: string, q: Path)
    requires Enumerates(ord) && Descends(b, o) && Child(b, tok).Some?
    ensures q in AddedFrom(ord, b, o, p, tok) <==>
            p <= q && |q| > |p| && q[|p|] == tok && AddedAt(b, o, q[|p|..])
    decreases b, 0
  {
    StepInto(p, tok, q);
    if Child(o, tok).Some? {
      AddedListsAddedPaths(ord, Child(b, tok).value, Child(o, tok).value, p + [tok], q);
    }
  }

  /** A path that goes on with a token: seen from the parent, and from one step further. */
  lemma StepInto(p: Path, tok: string, q: Path)
    ensures p + [tok] <= q <==> p <= q && |q| > |p| && q[|p|] == tok
    ensures q == p + [tok] <==> p <= q && |q| == |p| + 1 && q[|p|] == tok
    ensures |q| > |p| ==> q[|p|..] != [] && q[|p|..][0] == q[|p|] && q[|p|..][1..] == q[|p| + 1..]
  {
  }

  lemma {:induction false} AddedBelowDistinct(ord: KeyOrder, b: Json, o: Json, p: Path, toks: seq<string>)
    requires Enumerates(ord) && Descends(b, o) && forall tok :: tok in toks ==> Child(b, tok).Some?
    requires forall i, j :: 0 <= i < j < |toks| ==> toks[i] != toks[j]
    ensures Distinct(AddedBelow(ord, b, o, p, toks))
    decreases b, |toks|
  {
    if toks != [] {
      var tok, rest := toks[0], toks[1..];
      var xs, ys := AddedFrom(ord, b, o, p, tok), AddedBelow(ord, b, o, p, rest);
      AddedBelowDistinct(ord, b, o, p, rest);
      if Child(o, tok).Some? {
        AddedIsDistinct(ord, Child(b, tok).value, Child(o, tok).value, p + [tok]);
      }
      forall x | x in xs
        ensures x !in ys
      {
        AddedFromListsAddedPaths(ord, b, o, p, tok, x);
        AddedBelowListsAddedPaths(ord, b, o, p, rest, x);
      }
      DistinctConcat(xs, ys);
    }
  }

  ghost predicate Distinct<T>(xs: seq<T>) {
    forall i, j :: 0 <= i < j < |xs| ==> xs[i] != xs[j]
  }

  lemma DistinctConcat<T>(xs: seq<T>, ys: seq<T>)
    requires Distinct(xs) && Distinct(ys) && forall x :: x in xs ==> x !in ys
    ensures Distinct(xs + ys)
  {
    var zs := xs + ys;
    forall i, j | 0 <= i < j < |zs|
      ensures zs[i] != zs[j]
    {
      if i < |xs| <= j {
        assert zs[i] in xs && zs[j] in ys;
      }
    }
  }

  /** No path is reported twice. */
  lemma {:induction false} AddedIsDistinct(ord: KeyOrder, b: Json, o: Json, p: Path)
    requires Enumerates(ord)
    ensures Distinct(Added(ord, b, o, p))
    decreases b
  {
    if Descends(b, o) {
      TokensListChildren(ord, b, p);
      AddedBelowDistinct(ord, b, o, p, Tokens(ord, b, p));
    }
  }

  /** No added path lies inside another. */
  lemma {:induction false} AddedPathsDoNotNest(b: Json, o: Json, q: Path, r: Path)
    requires AddedAt(b, o, q) && AddedAt(b, o, r) && q <= r
    ensures q == r
    decreases |q|
  {
    if Child(o, q[0]).Some? {
      AddedPathsDoNotNest(Child(b, q[0]).value, Child(o, q[0]).value, q[1..], r[1..]);
    }
  }

  /** An added path was absent, its parent was present, and it now holds the bundle's subtree. */
  lemma {:induction false} AddedPathHoldsBundle(b: Json, o: Json, q: Path)
    requires AddedAt(b, o, q)
    ensures Lookup(o, q).None? && Lookup(o, q[..|q| - 1]).Some?
    ensures Lookup(b, q).Some? && Lookup(Hydrate(b, o), q) == Lookup(b, q)
    decreases |q|
  {
    HydrateChild(b, o, q[0]);
    if Child(o, q[0]).Some? {
      AddedPathHoldsBundle(Child(b, q[0]).value, Child(o, q[0]).value, q[1..]);
      assert q[..|q| - 1][0] == q[0] && q[..|q| - 1][1..] == q[1..][..|q| - 2];
    }
  }

  /** Everything that is new lies at or below a reported path. */
  lemma {:induction false} EveryAdditionIsReported(b: Json, o: Json, q: Path) returns (k: nat)
    requires Lookup(o, q).None? && Lookup(Hydrate(b, o), q).Some?
    ensures k <= |q| && AddedAt(b, o, q[..k])
    decreases |q|
  {
    assert q != [] && Descends(b, o);
    HydrateChild(b, o, q[0]);
    if Child(o, q[0]).None? {
      k := 1;
    } else {
      var k' := EveryAdditionIsReported(Child(b, q[0]).value, Child(o, q[0]).value, q[1..]);
      k := k' + 1;
      assert q[..k][0] == q[0] && q[..k][1..] == q[1..][..k'];
    }
  }

  // ------------------------------------------------------------ the methods

  function Pointers(ps: seq<Path>): (r: seq<string>) {
    if ps == [] then [] else [Encode(ps[0])] + Pointers(ps[1..])
  }

  lemma {:induction false} PointersConcat(ps: seq<Path>, qs: seq<Path>)
    ensures Pointers(ps + qs) == Pointers(ps) + Pointers(qs)
  {
    if ps == [] {
      assert ps + qs == qs;
    } else {
      assert (ps + qs)[1..] == ps[1..] + qs;
      PointersConcat(ps[1..], qs);
    }
  }

  lemma {:induction false} PointersAt(ps: seq<Path>, i: nat)
    requires i < |ps|
    ensures |Pointers(ps)| == |ps| && Pointers(ps)[i] == Encode(ps[i])
  {
    if i > 0 {
      PointersAt(ps[1..], i - 1);
    } else if |ps| > 1 {
      PointersAt(ps[1..], 0);
    }
  }

  /** The pointers a hydration reports are pairwise distinct and none names a place
      inside another; each decodes to a path that was absent from the overlay and now
      holds what the bundle holds there. */
  lemma ReportedPointersAreExact(ord: KeyOrder, b: Json, o: Json, i: nat, j: nat)
    requires Enumerates(ord)
    requires i < |Added(ord, b, o, [])| && j < |Added(ord, b, o, [])|
    ensures var ptrs := Pointers(Added(ord, b, o, []));
            && |ptrs| == |Added(ord, b, o, [])|
            && (ptrs[i] == ptrs[j] ==> i == j)
            && (Decode(ptrs[i]) <= Decode(ptrs[j]) ==> i == j)
            && Lookup(o, Decode(ptrs[i])).None?
            && Lookup(b, Decode(ptrs[i])).Some?
            && Lookup(Hydrate(b, o), Decode(ptrs[i])) == Lookup(b, Decode(ptrs[i]))
  {
    var ps := Added(ord, b, o, []);
    PointersAt(ps, i);
    PointersAt(ps, j);
    PointerRoundTrip(ps[i]);
    PointerRoundTrip(ps[j]);
    AddedIsDistinct(ord, b, o, []);
    AddedListsAddedPaths(ord, b, o, [], ps[i]);
    AddedListsAddedPaths(ord, b, o, [], ps[j]);
    AddedPathHoldsBundle(b, o, ps[i]);
    if ps[i] <= ps[j] {
      AddedPathsDoNotNest(b, o, ps[i], ps[j]);
    }
  }

  /** The pointers still to come once the first `i` tokens have been visited. */
  function Pending(ord: KeyOrder, b: Json, o: Json, p: Path, toks: seq<string>, i: nat): seq<string>
    requires i <= |toks|
  {
    Pointers(AddedBelow(ord, b, o, p, toks[i..]))
  }

  lemma PendingStep(ord: KeyOrder, b: Json, o: Json, p: Path, toks: seq<string>, i: nat)
    requires i < |toks|
    ensures Pending(ord, b, o, p, toks, i) ==
            Pointers(AddedFrom(ord, b, o, p, toks[i])) + Pending(ord, b, o, p, toks, i + 1)
  {
    var rest := toks[i..];
    assert rest[0] == toks[i] && rest[1..] == toks[i + 1..];
    PointersConcat(AddedFrom(ord, b, o, p, toks[i]), AddedBelow(ord, b, o, p, toks[i + 1..]));
  }

  lemma Reassociate(done: seq<string>, x: seq<string>, rest: seq<string>)
    ensures done + (x + rest) == (done + x) + rest
  {
  }

  /** The overlay dictionary while the bundle's keys are being visited. */
  function PartlyHydrated(b: Json, o: Json, done: set<string>): map<string, Json>
    requires b.Obj? && o.Obj?
  {
    map k | k in (b.fields.Keys * done) + o.fields.Keys ::
      if k in done && k in b.fields then Hydrate(b, o).fields[k] else o.fields[k]
  }

  lemma PartlyHydratedStep(b: Json, o: Json, done: set<string>, key: string)
    requires b.Obj? && o.Obj? && key in b.fields && key !in done
    ensures key in PartlyHydrated(b, o, done) <==> key in o.fields
    ensures key in o.fields ==> PartlyHydrated(b, o, done)[key] == o.fields[key]
    ensures PartlyHydrated(b, o, done + {key}) ==
            PartlyHydrated(b, o, done)[key := if key in o.fields then Hydrate(b.fields[key], o.fields[key])
                                       else b.fields[key]]
  {
  }

  lemma PartlyHydratedEnds(b: Json, o: Json, done: set<string>)
    requires b.Obj? && o.Obj?
    ensures PartlyHydrated(b, o, {}) == o.fields
    ensures done == b.fields.Keys ==> PartlyHydrated(b, o, done) == Hydrate(b, o).fields
  {
  }

  method HydrateWalk(ord: KeyOrder, b: Json, o: Json, p: Path, ptr: string, added: seq<string>)
    returns (o': Json, added': seq<string>)
    requires Enumerates(ord) && ptr == Encode(p)
    ensures o' == Hydrate(b, o)
    ensures added' == added + Pointers(Added(ord, b, o, p))
    decreases b, 1
  {
    if b.Obj? && o.Obj? {
      o', added' := HydrateDict(ord, b, o, p, ptr, added);
    } else if Elementwise(b, o) {
      o', added' := HydrateList(ord, b, o, p, ptr, added);
    } else {
      o', added' := o, added;
    }
  }

  /** The dictionary branch: add a missing key, recurse into a shared one. */
  method HydrateDict(ord: KeyOrder, b: Json, o: Json, p: Path, ptr: string, added: seq<string>)
    returns (o': Json, added': seq<string>)
    requires Enumerates(ord) && ptr == Encode(p) && b.Obj? && o.Obj?
    ensures o' == Hydrate(b, o)
    ensures added' == added + Pointers(AddedBelow(ord, b, o, p, Tokens(ord, b, p)))
    decreases b, 0
  {
    var keys, fields := ord(p, b.fields), o.fields;
    added' := added;
    ghost var done: set<string> := {};
    for i := 0 to |keys|
      invariant done <= b.fields.Keys
      invariant forall j :: 0 <= j < |keys| ==> (keys[j] in done <==> j < i)
      invariant fields == PartlyHydrated(b, o, done)
      invariant added' + Pending(ord, b, o, p, keys, i) == added + Pending(ord, b, o, p, keys, 0)
    {
      var key := keys[i];
      var subPtr := ptr + "/" + Escape(key);
      PartlyHydratedStep(b, o, done, key);
      DictStep(ord, b, o, p, keys, i, added');
      if key !in fields {
        fields, added' := fields[key := b.fields[key]], added' + [subPtr];
      } else {
        var v;
        v, added' := HydrateWalk(ord, b.fields[key], fields[key], p + [key], subPtr, added');
        fields := fields[key := v];
      }
      done := done + {key};
    }
    PartlyHydratedEnds(b, o, done);
    o' := Obj(fields);
  }

  lemma DictStep(ord: KeyOrder, b: Json, o: Json, p: Path, keys: seq<string>, i: nat, sofar: seq<string>)
    requires b.Obj? && o.Obj? && i < |keys| && keys[i] in b.fields
    ensures Encode(p + [keys[i]]) == Encode(p) + "/" + Escape(keys[i])
    ensures sofar + Pending(ord, b, o, p, keys, i) ==
            (if keys[i] in o.fields
             then sofar + Pointers(Added(ord, b.fields[keys[i]], o.fields[keys[i]], p + [keys[i]]))
             else sofar + [Encode(p + [keys[i]])])
            + Pending(ord, b, o, p, keys, i + 1)
  {
    var key := keys[i];
    EncodeAppend(p, key);
    PendingStep(ord, b, o, p, keys, i);
    assert Pointers([p + [key]]) == [Encode(p + [key])];
    Reassociate(sofar, Pointers(AddedFrom(ord, b, o, p, key)), Pending(ord, b, o, p, keys, i + 1));
  }

  lemma ListStep(ord: KeyOrder, b: Json, o: Json, p: Path, i: nat, sofar: seq<string>)
    requires Elementwise(b, o) && i < |b.items|
    ensures Encode(p + [Decimal(i)]) == Encode(p) + "/" + Decimal(i)
    ensures sofar + Pending(ord, b, o, p, Decimals(|b.items|), i) ==
            sofar + Pointers(Added(ord, b.items[i], o.items[i], p + [Decimal(i)]))
            + Pending(ord, b, o, p, Decimals(|b.items|), i + 1)
  {
    DecimalRoundTrip(i);
    EscapeDigits(Decimal(i));
    EncodeAppend(p, Decimal(i));
    var toks := Decimals(|b.items|);
    PendingStep(ord, b, o, p, toks, i);
    Reassociate(sofar, Pointers(AddedFrom(ord, b, o, p, Decimal(i))), Pending(ord, b, o, p, toks, i + 1));
  }

  /** The list branch: equally long lists of dictionaries, element by element. */
  method HydrateList(ord: KeyOrder, b: Json, o: Json, p: Path, ptr: string, added: seq<string>)
    returns (o': Json, added': seq<string>)
    requires Enumerates(ord) && ptr == Encode(p) && Elementwise(b, o)
    ensures o' == Hydrate(b, o)
    ensures added' == added + Pointers(AddedBelow(ord, b, o, p, Tokens(ord, b, p)))
    decreases b, 0
  {
    var items, n := o.items, |b.items|;
    ghost var toks := Decimals(n);
    added' := added;
    for i := 0 to n
      invariant |items| == n
      invariant forall k :: 0 <= k < i ==> items[k] == Hydrate(b.items[k], o.items[k])
      invariant forall k :: i <= k < n ==> items[k] == o.items[k]
      invariant added' + Pending(ord, b, o, p, toks, i) == added + Pending(ord, b, o, p, toks, 0)
    {
      ListStep(ord, b, o, p, i, added');
      var v;
      v, added' := HydrateWalk(ord, b.items[i], items[i], p + [Decimal(i)], ptr + "/" + Decimal(i), added');
      items := items[i := v];
    }
    o' := Arr(items);
  }

  // ----------------------------------------------------------- the drift walk

  /** `ptr or "/"` */
  function DriftPointers(ps: seq<Path>): seq<string> {
    if ps == [] then [] else [if Encode(ps[0]) == "" then "/" else Encode(ps[0])] + DriftPointers(ps[1..])
  }

  lemma {:induction false} DriftPointersConcat(ps: seq<Path>, qs: seq<Path>)
    ensures DriftPointers(ps + qs) == DriftPointers(ps) + DriftPointers(qs)
  {
    if ps == [] {
      assert ps + qs == qs;
    } else {
      assert (ps + qs)[1..] == ps[1..] + qs;
      DriftPointersConcat(ps[1..], qs);
    }
  }

  /** The root is reported as a slash, every other place by its pointer. */
  lemma {:induction false} DriftPointersAt(ps: seq<Path>, i: nat)
    requires i < |ps|
    ensures |DriftPointers(ps)| == |ps|
    ensures DriftPointers(ps)[i] == if ps[i] == [] then "/" else Encode(ps[i])
  {
    if i > 0 {
      DriftPointersAt(ps[1..], i - 1);
    } else if |ps| > 1 {
      DriftPointersAt(ps[1..], 0);
    }
  }

  function DriftedFrom(ord: KeyOrder, b: Json, o: Json, p: Path, tok: string): seq<Path> {
    match (Child(b, tok), Child(o, tok))
    case (Some(bc), Some(oc)) => Drifted(ord, bc, oc, p + [tok])
    case _ => []
  }

  function DriftPending(ord: KeyOrder, b: Json, o: Json, p: Path, toks: seq<string>, i: nat): seq<string>
    requires i <= |toks|
  {
    DriftPointers(DriftedBelow(ord, b, o, p, toks[i..]))
  }

  lemma DriftPendingStep(ord: KeyOrder, b: Json, o: Json, p: Path, toks: seq<string>, i: nat)
    requires i < |toks|
    ensures DriftPending(ord, b, o, p, toks, i) ==
            DriftPointers(DriftedFrom(ord, b, o, p, toks[i])) + DriftPending(ord, b, o, p, toks, i + 1)
  {
    var rest := toks[i..];
    assert rest[0] == toks[i] && rest[1..] == toks[i + 1..];
    DriftPointersConcat(DriftedFrom(ord, b, o, p, toks[i]), DriftedBelow(ord, b, o, p, toks[i + 1..]));
  }

  method DriftWalk(ord: KeyOrder, b: Json, o: Json, p: Path, ptr: string, drifted: seq<string>)
    returns (drifted': seq<string>)
    requires Enumerates(ord) && ptr == Encode(p)
    ensures drifted' == drifted + DriftPointers(Drifted(ord, b, o, p))
    decreases b, 1
  {
    if b.Obj? && o.Obj? {
      drifted' := DriftDict(ord, b, o, p, ptr, drifted);
    } else if Elementwise(b, o) {
      drifted' := DriftList(ord, b, o, p, ptr, drifted);
    } else if b != o {
      drifted' := drifted + [if ptr == "" then "/" else ptr];
    } else {
      drifted' := drifted;
    }
  }

  method DriftDict(ord: KeyOrder, b: Json, o: Json, p: Path, ptr: string, drifted: seq<string>)
    returns (drifted': seq<string>)
    requires Enumerates(ord) && ptr == Encode(p) && b.Obj? && o.Obj?
    ensures drifted' == drifted + DriftPointers(DriftedBelow(ord, b, o, p, Tokens(ord, b, p)))
    decreases b, 0
  {
    var keys := ord(p, b.fields);
    drifted' := drifted;
    assert Lists(keys, b.fields) && keys[0..] == keys;
    for i := 0 to |keys|
      invariant drifted' + DriftPending(ord, b, o, p, keys, i) == drifted + DriftPending(ord, b, o, p, keys, 0)
    {
      var key := keys[i];
      assert key in keys && key in b.fields;
      EncodeAppend(p, key);
      DriftPendingStep(ord, b, o, p, keys, i);
      Reassociate(drifted', DriftPointers(DriftedFrom(ord, b, o, p, key)), DriftPending(ord, b, o, p, keys, i + 1));
      if key in o.fields {
        drifted' := DriftWalk(ord, b.fields[key], o.fields[key], p + [key], ptr + "/" + Escape(key), drifted');
      }
    }
    assert keys[|keys|..] == [];
  }

  method DriftList(ord: KeyOrder, b: Json, o: Json, p: Path, ptr: string, drifted: seq<string>)
    returns (drifted': seq<string>)
    requires Enumerates(ord) && ptr == Encode(p) && Elementwise(b, o)
    ensures drifted' == drifted + DriftPointers(DriftedBelow(ord, b, o, p, Tokens(ord, b, p)))
    decreases b, 0
  {
    var n := |b.items|;
    ghost var toks := Decimals(n);
    drifted' := drifted;
    for i := 0 to n
      invariant drifted' + DriftPending(ord, b, o, p, toks, i) == drifted + DriftPending(ord, b, o, p, toks, 0)
    {
      DecimalRoundTrip(i);
      EscapeDigits(Decimal(i));
      EncodeAppend(p, Decimal(i));
      DriftPendingStep(ord, b, o, p, toks, i);
      Reassociate(drifted', DriftPointers(DriftedFrom(ord, b, o, p, toks[i])), DriftPending(ord, b, o, p, toks, i + 1));
      drifted' := DriftWalk(ord, b.items[i], o.items[i], p + [Decimal(i)], ptr + "/" + Decimal(i), drifted');
    }
  }
}
