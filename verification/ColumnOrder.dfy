/**
 The order of columns after a migration sweep, and with it exactly when one sweep
 is enough (app/database.py). A column that is dropped and added again goes to
 the end of its table, so whether a second sweep moves anything depends on what
 the table gets afterwards. It is decided table by table, on the statements about
 that table alone.
 */
module ColumnOrder {
  import opened SchemaSweep

  // ------------------------------------------------------------- one table

  function DroppedNames(steps: seq<Step>, t: Name): set<Name> {
    set b | b in steps && b.DropColumn? && b.table == t :: b.name
  }

  /** No DROP of the list removes the column: it was pinned where its table came from, or is
      indexed by something outside the list. */
  predicate Held(steps: seq<Step>, s: Schema, t: Name, n: Name) {
    Pinned(Origin(steps, s, t), n) || Indexed(s, t, n)
  }

  function HeldNames(steps: seq<Step>, s: Schema, t: Name): set<Name> {
    set n | n in DroppedNames(steps, t) && Held(steps, s, t, n)
  }

  /** What one statement makes of the columns of an existing table. */
  function TableAfter(step: Step, cols: seq<Column>, t: Name, held: set<Name>): seq<Column> {
    if step.AddColumn? && step.table == t then
      if step.name in Names(cols) then cols else cols + [Column(step.name, step.decl, false)]
    else if step.DropColumn? && step.table == t then
      if step.name in held then cols else Without(cols, step.name)
    else cols
  }

  function TableRun(steps: seq<Step>, cols: seq<Column>, t: Name, held: set<Name>): seq<Column>
    decreases |steps|
  {
    if steps == [] then cols else TableRun(steps[1..], TableAfter(steps[0], cols, t, held), t, held)
  }

  lemma {:induction false} WithoutAbsent(cols: seq<Column>, n: Name)
    requires n !in Names(cols)
    ensures Without(cols, n) == cols
  {
    if cols != [] {
      assert cols[0] in cols;
      assert forall c :: c in cols[1..] ==> c in cols;
      WithoutAbsent(cols[1..], n);
    }
  }

  lemma ExecOnTable(step: Step, s: Schema, t: Name, held: set<Name>)
    requires t in s.tables
    requires step.DropColumn? && step.table == t ==>
               (step.name in held <==> Pinned(s.tables[t], step.name) || Indexed(s, t, step.name))
    ensures t in Exec(step, s).schema.tables
    ensures Exec(step, s).schema.tables[t] == TableAfter(step, s.tables[t], t, held)
  {
    if step.DropColumn? && step.table == t && step.name !in Names(s.tables[t]) {
      WithoutAbsent(s.tables[t], step.name);
    }
  }

  lemma StepKeepsPinned(step: Step, s: Schema, t: Name, n: Name)
    requires t in s.tables
    ensures t in Exec(step, s).schema.tables
    ensures Pinned(Exec(step, s).schema.tables[t], n) <==> Pinned(s.tables[t], n)
  {
    ExecOnCell(step, s, t, n);
    NamedMembers(s.tables[t], n);
    NamedMembers(Exec(step, s).schema.tables[t], n);
  }

  lemma HeldInRest(steps: seq<Step>, s: Schema, t: Name, n: Name)
    requires steps != [] && WellOrdered(steps) && n in DroppedNames(steps[1..], t) && t in Sweep(steps, s).tables
    ensures Held(steps[1..], Exec(steps[0], s).schema, t, n) <==> Held(steps, s, t, n)
  {
    var d :| d in steps[1..] && Drops(d, t, n);
    assert !IndexesColumn(steps[0], t, n);
    assert Sweep([steps[0]], s) == Exec(steps[0], s).schema;
    IndexedStays([steps[0]], s, t, n);
    if t in s.tables {
      StepKeepsPinned(steps[0], s, t, n);
    } else {
      OriginStep(steps, s, t);
    }
  }

  lemma {:induction false} TableRunsFrom(steps: seq<Step>, s: Schema, t: Name, held: set<Name>)
    requires WellOrdered(steps) && t in Sweep(steps, s).tables
    requires forall n :: n in DroppedNames(steps, t) ==> (n in held <==> Held(steps, s, t, n))
    ensures Sweep(steps, s).tables[t] == TableRun(steps, Origin(steps, s, t), t, held)
  {
    if steps != [] {
      var step, rest, s' := steps[0], steps[1..], Exec(steps[0], s).schema;
      forall n | n in DroppedNames(rest, t)
        ensures n in held <==> Held(rest, s', t, n)
      {
        var d :| d in rest && Drops(d, t, n);
        assert d in steps;
        HeldInRest(steps, s, t, n);
      }
      TableRunsFrom(rest, s', t, held);
      if t in s.tables {
        assert step in steps;
        ExecOnTable(step, s, t, held);
      } else {
        OriginStep(steps, s, t);
        if NamesTable(step, t) {
          TablesAreCreated(rest, s', t);
        }
      }
    }
  }

  /** A table after a sweep is what the statements about it alone make of it. */
  lemma TableIsReplayed(steps: seq<Step>, s: Schema, t: Name)
    requires WellOrdered(steps) && t in Sweep(steps, s).tables
    ensures Sweep(steps, s).tables[t] == TableRun(steps, Origin(steps, s, t), t, HeldNames(steps, s, t))
  {
    TableRunsFrom(steps, s, t, HeldNames(steps, s, t));
  }

  lemma {:induction false} PinnedAsAtOrigin(steps: seq<Step>, s: Schema, t: Name, n: Name)
    requires t in Sweep(steps, s).tables
    ensures Pinned(Sweep(steps, s).tables[t], n) <==> Pinned(Origin(steps, s, t), n)
  {
    if steps != [] {
      PinnedAsAtOrigin(steps[1..], Exec(steps[0], s).schema, t, n);
      if t in s.tables {
        StepKeepsPinned(steps[0], s, t, n);
      } else {
        OriginStep(steps, s, t);
      }
    }
  }

  /** The second sweep meets the same refusals as the first. */
  lemma HeldAgain(steps: seq<Step>, s: Schema, t: Name)
    requires WellOrdered(steps) && t in Sweep(steps, s).tables
    ensures HeldNames(steps, Sweep(steps, s), t) == HeldNames(steps, s, t)
  {
    forall n | n in DroppedNames(steps, t)
      ensures Held(steps, Sweep(steps, s), t, n) <==> Held(steps, s, t, n)
    {
      var d :| d in steps && d.DropColumn? && d.table == t && d.name == n;
      DroppedIsNotIndexed(steps, d);
      IndexedStays(steps, s, t, n);
      PinnedAsAtOrigin(steps, s, t, n);
    }
  }

  // ---------------------------------------------------------- column order

  predicate AddsIn(steps: seq<Step>, t: Name, n: Name) {
    exists b :: b in steps && Adds(b, t, n)
  }

  lemma {:induction false} TableRunAppend(xs: seq<Step>, ys: seq<Step>, cols: seq<Column>, t: Name, held: set<Name>)
    ensures TableRun(xs + ys, cols, t, held) == TableRun(ys, TableRun(xs, cols, t, held), t, held)
    decreases |xs|
  {
    if xs == [] {
      assert xs + ys == ys;
    } else {
      assert (xs + ys)[1..] == xs[1..] + ys;
      TableRunAppend(xs[1..], ys, TableAfter(xs[0], cols, t, held), t, held);
    }
  }

  lemma TableRunNext(steps: seq<Step>, j: nat, cols: seq<Column>, t: Name, held: set<Name>)
    requires j < |steps|
    ensures TableRun(steps[..j + 1], cols, t, held) ==
            TableAfter(steps[j], TableRun(steps[..j], cols, t, held), t, held)
  {
    assert steps[..j + 1] == steps[..j] + [steps[j]];
    TableRunAppend(steps[..j], [steps[j]], cols, t, held);
  }

  lemma NamesAfter(step: Step, cols: seq<Column>, t: Name, held: set<Name>, n: Name)
    ensures n in Names(TableAfter(step, cols, t, held)) <==>
            if Adds(step, t, n) then true
            else if Drops(step, t, n) && n !in held then false
            else n in Names(cols)
  {
    var after := TableAfter(step, cols, t, held);
    if step.DropColumn? {
      WithoutNames(cols, step.name);
    }
    if step.AddColumn? && after != cols {
      assert after[|cols|] in after;
    }
    if n in Names(cols) {
      var c :| c in cols && c.name == n;
      assert after != Without(cols, n) ==> c in after;
    }
  }

  /** A column no DROP removes is there exactly if it was, or if some statement adds it. */
  lemma {:induction false} StayerIsPresent(steps: seq<Step>, cols: seq<Column>, t: Name, held: set<Name>, n: Name)
    requires n in DroppedNames(steps, t) ==> n in held
    ensures n in Names(TableRun(steps, cols, t, held)) <==> n in Names(cols) || AddsIn(steps, t, n)
    decreases |steps|
  {
    if steps != [] {
      var rest := steps[1..];
      assert steps[0] in steps && forall b :: b in steps <==> b == steps[0] || b in rest;
      NamesAfter(steps[0], cols, t, held, n);
      StayerIsPresent(rest, TableAfter(steps[0], cols, t, held), t, held, n);
    }
  }

  /** A column is gone only because a DROP was the last word on it. */
  lemma {:induction false} DropWasLastWord(steps: seq<Step>, j: nat, cols: seq<Column>, t: Name, held: set<Name>,
                                           n: Name) returns (i: nat)
    requires j <= |steps| && n !in held && n in DroppedNames(steps[..j], t)
    requires n !in Names(TableRun(steps[..j], cols, t, held))
    ensures i < j && Drops(steps[i], t, n)
    ensures forall m :: i < m < j ==> !Adds(steps[m], t, n) && !Drops(steps[m], t, n)
    decreases j
  {
    var last := steps[j - 1];
    assert steps[..j] == steps[..j - 1] + [last];
    TableRunNext(steps, j - 1, cols, t, held);
    NamesAfter(last, TableRun(steps[..j - 1], cols, t, held), t, held, n);
    if Drops(last, t, n) {
      i := j - 1;
    } else {
      i := DropWasLastWord(steps, j - 1, cols, t, held, n);
    }
  }

  /** The columns whose names are not hidden, in order. */
  function Hide(cols: seq<Column>, hidden: set<Name>): seq<Column> {
    if cols == [] then []
    else if cols[0].name in hidden then Hide(cols[1..], hidden)
    else [cols[0]] + Hide(cols[1..], hidden)
  }

  lemma {:induction false} HideConcat(xs: seq<Column>, ys: seq<Column>, hidden: set<Name>)
    ensures Hide(xs + ys, hidden) == Hide(xs, hidden) + Hide(ys, hidden)
  {
    if xs == [] {
      assert xs + ys == ys;
    } else {
      assert (xs + ys)[1..] == xs[1..] + ys;
      HideConcat(xs[1..], ys, hidden);
    }
  }

  lemma {:induction false} HideWithout(cols: seq<Column>, n: Name, hidden: set<Name>)
    ensures Hide(Without(cols, n), hidden) == Hide(cols, hidden + {n})
  {
    if cols != [] {
      HideWithout(cols[1..], n, hidden);
      HideConcat([cols[0]], Without(cols[1..], n), hidden);
    }
  }

  lemma {:induction false} HideMembers(cols: seq<Column>, hidden: set<Name>)
    ensures forall c :: c in Hide(cols, hidden) <==> c in cols && c.name !in hidden
  {
    if cols != [] {
      HideMembers(cols[1..], hidden);
      assert forall c :: c in cols <==> c == cols[0] || c in cols[1..];
    }
  }

  lemma {:induction false} HideNothing(cols: seq<Column>)
    ensures Hide(cols, {}) == cols
  {
    if cols != [] {
      HideNothing(cols[1..]);
    }
  }

  /** The columns a list brings to stay: first ADDs of names that are neither present nor
      going to be dropped. */
  function Newcomers(steps: seq<Step>, t: Name, present: set<Name>, gone: set<Name>): seq<Column>
    decreases |steps|
  {
    if steps == [] then []
    else if steps[0].AddColumn? && steps[0].table == t && steps[0].name !in gone && steps[0].name !in present then
      [Column(steps[0].name, steps[0].decl, false)] + Newcomers(steps[1..], t, present + {steps[0].name}, gone)
    else Newcomers(steps[1..], t, present, gone)
  }

  lemma {:induction false} NewcomersIgnoreGone(steps: seq<Step>, t: Name, p: set<Name>, q: set<Name>, gone: set<Name>)
    requires p - gone == q - gone
    ensures Newcomers(steps, t, p, gone) == Newcomers(steps, t, q, gone)
    decreases |steps|
  {
    if steps != [] {
      var more := if steps[0].AddColumn? then {steps[0].name} else {};
      assert forall n :: n !in gone ==> (n in p <==> n in p - gone) && (n in q <==> n in q - gone);
      assert forall n :: n in (p + more) - gone <==> n in (q + more) - gone;
      NewcomersIgnoreGone(steps[1..], t, p, q, gone);
      NewcomersIgnoreGone(steps[1..], t, p + more, q + more, gone);
    }
  }

  /** A newcomer is a first ADD. */
  lemma {:induction false} NewcomerIsFirstAdd(steps: seq<Step>, t: Name, present: set<Name>, gone: set<Name>)
    returns (k: nat)
    requires Newcomers(steps, t, present, gone) != []
    ensures k < |steps| && steps[k].AddColumn? && steps[k].table == t
    ensures steps[k].name !in gone && steps[k].name !in present
    ensures forall m :: 0 <= m < k ==> !Adds(steps[m], t, steps[k].name)
    decreases |steps|
  {
    if steps[0].AddColumn? && steps[0].table == t && steps[0].name !in gone && steps[0].name !in present {
      k := 0;
    } else {
      var rest := NewcomerIsFirstAdd(steps[1..], t, present, gone);
      k := rest + 1;
    }
  }

  lemma NamesOfConcat(xs: seq<Column>, c: Column)
    ensures Names(xs + [c]) == Names(xs) + {c.name}
  {
    assert forall d :: d in xs + [c] <==> d in xs || d == c;
    assert c in xs + [c];
  }

  lemma NamesOfWithout(cols: seq<Column>, n: Name)
    ensures Names(Without(cols, n)) == Names(cols) - {n}
  {
    WithoutNames(cols, n);
  }

  /** Newcomers line up behind the columns that stay. */
  lemma {:induction false} StayersThenNewcomers(steps: seq<Step>, cols: seq<Column>, t: Name, held: set<Name>,
                                                gone: set<Name>)
    requires DroppedNames(steps, t) - held <= gone
    ensures Hide(TableRun(steps, cols, t, held), gone) ==
            Hide(cols, gone) + Newcomers(steps, t, Names(cols), gone)
    decreases |steps|
  {
    if steps != [] {
      var step, rest := steps[0], steps[1..];
      var after := TableAfter(step, cols, t, held);
      assert step in steps && forall b :: b in rest ==> b in steps;
      StayersThenNewcomers(rest, after, t, held, gone);
      StayersAfter(step, rest, cols, t, held, gone);
    }
  }

  lemma StayersAfter(step: Step, rest: seq<Step>, cols: seq<Column>, t: Name, held: set<Name>, gone: set<Name>)
    requires step.DropColumn? && step.table == t ==> step.name in held + gone
    ensures var after := TableAfter(step, cols, t, held);
            Hide(after, gone) + Newcomers(rest, t, Names(after), gone) ==
            Hide(cols, gone) + Newcomers([step] + rest, t, Names(cols), gone)
  {
    var after := TableAfter(step, cols, t, held);
    assert ([step] + rest)[1..] == rest;
    if after != cols {
      if step.AddColumn? {
        var c := Column(step.name, step.decl, false);
        NamesOfConcat(cols, c);
        HideConcat(cols, [c], gone);
        if step.name in gone {
          NewcomersIgnoreGone(rest, t, Names(cols), Names(after), gone);
        }
      } else {
        HideWithout(cols, step.name, gone);
        assert gone + {step.name} == gone;
        NamesOfWithout(cols, step.name);
        NewcomersIgnoreGone(rest, t, Names(cols), Names(after), gone);
      }
    }
  }

  /** A column is dropped for the last time at `i` and added again at `j`. */
  predicate ReaddedAt(steps: seq<Step>, t: Name, c: Name, i: nat, j: nat) {
    && i < j < |steps| && Drops(steps[i], t, c) && Adds(steps[j], t, c)
    && (forall m :: i < m < |steps| ==> !Drops(steps[m], t, c))
    && (forall m :: i < m < j ==> !Adds(steps[m], t, c))
  }

  predicate FirstAddAt(steps: seq<Step>, t: Name, d: Name, k: nat) {
    k < |steps| && Adds(steps[k], t, d) && forall m :: 0 <= m < k ==> !Adds(steps[m], t, d)
  }

  /** `c` is dropped and added again, and after that the table gets `d`, to stay. */
  ghost predicate Overtakes(steps: seq<Step>, from: seq<Column>, t: Name, held: set<Name>,
                            c: Name, d: Name, i: nat, j: nat, k: nat) {
    && ReaddedAt(steps, t, c, i, j) && c !in held
    && j < k && FirstAddAt(steps, t, d, k)
    && d !in Names(from) && d !in DroppedNames(steps, t) - held
  }

  ghost predicate Overtaken(steps: seq<Step>, from: seq<Column>, t: Name, held: set<Name>) {
    exists c, d, i, j, k :: Overtakes(steps, from, t, held, c, d, i, j, k)
  }

  /** The names that a DROP from `j` on removes. */
  function Loose(steps: seq<Step>, j: nat, t: Name, held: set<Name>): set<Name>
    requires j <= |steps|
  {
    DroppedNames(steps[j..], t) - held
  }

  lemma LooseStep(steps: seq<Step>, j: nat, t: Name, held: set<Name>)
    requires j < |steps|
    ensures Loose(steps, j, t, held) == Loose(steps, j + 1, t, held)
            + if steps[j].DropColumn? && steps[j].table == t && steps[j].name !in held then {steps[j].name} else {}
  {
    assert forall b :: b in steps[j..] <==> b == steps[j] || b in steps[j + 1..];
  }

  lemma InTail(steps: seq<Step>, j: nat, m: nat)
    requires j <= |steps| && m < |steps|
    ensures m >= j ==> steps[m] in steps[j..]
  {
    if m >= j {
      assert steps[j..][m - j] == steps[m];
    }
  }

  lemma AddedForGood(steps: seq<Step>, j: nat, from: seq<Column>, t: Name, held: set<Name>) returns (i: nat)
    requires j < |steps| && steps[j].AddColumn? && steps[j].table == t
    requires steps[j].name in Loose(steps, 0, t, held) && steps[j].name !in Loose(steps, j + 1, t, held)
    requires steps[j].name !in Names(TableRun(steps[..j], from, t, held))
    ensures ReaddedAt(steps, t, steps[j].name, i, j)
  {
    var c := steps[j].name;
    var b :| b in steps[0..] && b.DropColumn? && b.table == t && b.name == c;
    var m :| 0 <= m < |steps| && steps[m] == b;
    assert m <= j by { InTail(steps, j + 1, m); }
    assert b == steps[..j][m];
    i := DropWasLastWord(steps, j, from, t, held, c);
    forall m | j < m < |steps|
      ensures !Drops(steps[m], t, c)
    {
      InTail(steps, j + 1, m);
    }
  }

  /** Where a column that was dropped is added for good, while a newcomer is still to come,
      the newcomer overtakes it. */
  lemma LateNewcomerOvertakes(steps: seq<Step>, j: nat, from: seq<Column>, t: Name, held: set<Name>)
    requires j < |steps| && steps[j].AddColumn? && steps[j].table == t
    requires steps[j].name in Loose(steps, 0, t, held) && steps[j].name !in Loose(steps, j + 1, t, held)
    requires steps[j].name !in Names(TableRun(steps[..j], from, t, held))
    requires Newcomers(steps[j + 1..], t, Names(TableRun(steps[..j], from, t, held)), Loose(steps, 0, t, held)) != []
    ensures Overtaken(steps, from, t, held)
  {
    var i := AddedForGood(steps, j, from, t, held);
    var now, gone := TableRun(steps[..j], from, t, held), Loose(steps, 0, t, held);
    var q := NewcomerIsFirstAdd(steps[j + 1..], t, Names(now), gone);
    var k, d := q + j + 1, steps[q + j + 1].name;
    assert steps[0..] == steps && forall b :: b in steps[..j] ==> b in steps;
    StayerIsPresent(steps[..j], from, t, held, d);
    forall m | 0 <= m < k
      ensures !Adds(steps[m], t, d)
    {
      if m < j {
        assert steps[..j][m] in steps[..j];
      } else if m > j {
        assert steps[m] == steps[j + 1..][m - j - 1];
      }
    }
    assert Overtakes(steps, from, t, held, steps[j].name, d, i, j, k);
  }

  /** The second sweep of a table keeps step with the first: what neither still has to drop
      stands in the same order, and the second is only ahead by the newcomers. */
  ghost predicate InStep(steps: seq<Step>, j: nat, first: seq<Column>, second: seq<Column>, t: Name, held: set<Name>)
    requires j <= |steps|
  {
    var loose := Loose(steps, j, t, held);
    Hide(second, loose) == Hide(first, loose) + Newcomers(steps[j..], t, Names(first), Loose(steps, 0, t, held))
  }

  lemma {:induction false} SecondKeepsStep(steps: seq<Step>, j: nat, from: seq<Column>, t: Name, held: set<Name>)
    requires j <= |steps| && !Overtaken(steps, from, t, held)
    ensures InStep(steps, j, TableRun(steps[..j], from, t, held),
                   TableRun(steps[..j], TableRun(steps, from, t, held), t, held), t, held)
  {
    if j == 0 {
      assert steps[0..] == steps && steps[..0] == [];
      StayersThenNewcomers(steps, from, t, held, Loose(steps, 0, t, held));
    } else {
      var i := j - 1;
      var final := TableRun(steps, from, t, held);
      var f, g := TableRun(steps[..i], from, t, held), TableRun(steps[..i], final, t, held);
      SecondKeepsStep(steps, i, from, t, held);
      TableRunNext(steps, i, from, t, held);
      TableRunNext(steps, i, final, t, held);
      LooseStep(steps, i, t, held);
      assert steps[i..][0] == steps[i] && steps[i..][1..] == steps[j..];
      if steps[i].AddColumn? && steps[i].table == t {
        if steps[i].name in Loose(steps, 0, t, held) && steps[i].name !in Loose(steps, j, t, held)
           && steps[i].name !in Names(f) && Newcomers(steps[j..], t, Names(f), Loose(steps, 0, t, held)) != [] {
          LateNewcomerOvertakes(steps, i, from, t, held);
        }
        AddKeepsStep(steps, i, f, g, t, held);
      } else if steps[i].DropColumn? && steps[i].table == t && steps[i].name !in held {
        DropKeepsStep(steps, i, f, g, t, held);
      } else {
        assert Loose(steps, i, t, held) == Loose(steps, j, t, held);
      }
    }
  }

  lemma DropKeepsStep(steps: seq<Step>, j: nat, f: seq<Column>, g: seq<Column>, t: Name, held: set<Name>)
    requires j < |steps| && InStep(steps, j, f, g, t, held)
    requires steps[j].DropColumn? && steps[j].table == t && steps[j].name !in held
    ensures InStep(steps, j + 1, Without(f, steps[j].name), Without(g, steps[j].name), t, held)
  {
    var n, gone := steps[j].name, Loose(steps, 0, t, held);
    LooseStep(steps, j, t, held);
    HideWithout(f, n, Loose(steps, j + 1, t, held));
    HideWithout(g, n, Loose(steps, j + 1, t, held));
    assert steps[j..][0] == steps[j] && steps[j..][1..] == steps[j + 1..];
    NamesOfWithout(f, n);
    assert n in gone by { assert steps[0..] == steps && steps[j] in steps; }
    NewcomersIgnoreGone(steps[j + 1..], t, Names(f), Names(Without(f, n)), gone);
  }

  lemma AddKeepsStep(steps: seq<Step>, j: nat, f: seq<Column>, g: seq<Column>, t: Name, held: set<Name>)
    requires j < |steps| && InStep(steps, j, f, g, t, held) && steps[j].AddColumn? && steps[j].table == t
    requires var n, gone := steps[j].name, Loose(steps, 0, t, held);
             n in gone && n !in Loose(steps, j + 1, t, held) && n !in Names(f) ==>
               Newcomers(steps[j + 1..], t, Names(f), gone) == []
    ensures InStep(steps, j + 1, TableAfter(steps[j], f, t, held), TableAfter(steps[j], g, t, held), t, held)
  {
    var gone, loose, rest := Loose(steps, 0, t, held), Loose(steps, j, t, held), steps[j + 1..];
    LooseStep(steps, j, t, held);
    assert Loose(steps, j + 1, t, held) == loose;
    assert steps[j..] == [steps[j]] + rest;
    if steps[j].name in loose {
      assert steps[j].name in gone by { assert steps[0..] == steps && forall b :: b in steps[j..] ==> b in steps; }
      AddLoose(steps[j], rest, f, g, t, held, loose, gone);
    } else if steps[j].name in gone {
      AddAgain(steps[j], rest, f, g, t, held, loose, gone);
    } else {
      AddNewcomer(steps[j], rest, f, g, t, held, loose, gone);
    }
  }

  /** A column that is still to be dropped does not show. */
  lemma AddLoose(step: Step, rest: seq<Step>, f: seq<Column>, g: seq<Column>, t: Name, held: set<Name>,
                 loose: set<Name>, gone: set<Name>)
    requires step.AddColumn? && step.table == t && step.name in loose && step.name in gone
    requires Hide(g, loose) == Hide(f, loose) + Newcomers([step] + rest, t, Names(f), gone)
    ensures var f', g' := TableAfter(step, f, t, held), TableAfter(step, g, t, held);
            Hide(g', loose) == Hide(f', loose) + Newcomers(rest, t, Names(f'), gone)
  {
    var c := Column(step.name, step.decl, false);
    assert ([step] + rest)[1..] == rest;
    HideConcat(f, [c], loose);
    HideConcat(g, [c], loose);
    NamesOfConcat(f, c);
    NewcomersIgnoreGone(rest, t, Names(f), Names(f) + {c.name}, gone);
  }

  /** A column that was dropped goes to the end of both. */
  lemma AddAgain(step: Step, rest: seq<Step>, f: seq<Column>, g: seq<Column>, t: Name, held: set<Name>,
                 loose: set<Name>, gone: set<Name>)
    requires step.AddColumn? && step.table == t && step.name !in loose && step.name in gone
    requires Hide(g, loose) == Hide(f, loose) + Newcomers([step] + rest, t, Names(f), gone)
    requires step.name !in Names(f) ==> Newcomers(rest, t, Names(f), gone) == []
    ensures var f', g' := TableAfter(step, f, t, held), TableAfter(step, g, t, held);
            Hide(g', loose) == Hide(f', loose) + Newcomers(rest, t, Names(f'), gone)
  {
    var c := Column(step.name, step.decl, false);
    assert ([step] + rest)[1..] == rest;
    PresentInSecond(f, g, c.name, loose, Newcomers(rest, t, Names(f), gone));
    if c.name !in Names(f) {
      HideConcat(f, [c], loose);
      HideConcat(g, [c], loose);
      NamesOfConcat(f, c);
      NewcomersIgnoreGone(rest, t, Names(f), Names(f) + {c.name}, gone);
    }
  }

  /** A newcomer comes to the first; the second has it already. */
  lemma AddNewcomer(step: Step, rest: seq<Step>, f: seq<Column>, g: seq<Column>, t: Name, held: set<Name>,
                    loose: set<Name>, gone: set<Name>)
    requires step.AddColumn? && step.table == t && step.name !in loose && step.name !in gone
    requires Hide(g, loose) == Hide(f, loose) + Newcomers([step] + rest, t, Names(f), gone)
    ensures var f', g' := TableAfter(step, f, t, held), TableAfter(step, g, t, held);
            Hide(g', loose) == Hide(f', loose) + Newcomers(rest, t, Names(f'), gone)
  {
    var c := Column(step.name, step.decl, false);
    var news := Newcomers([step] + rest, t, Names(f), gone);
    assert ([step] + rest)[1..] == rest;
    PresentInSecond(f, g, c.name, loose, news);
    if c.name !in Names(f) {
      var later := Newcomers(rest, t, Names(f) + {c.name}, gone);
      assert news == [c] + later && news[0] == c;
      assert c.name in Names(g) && TableAfter(step, g, t, held) == g;
      HideConcat(f, [c], loose);
      assert Hide([c], loose) == [c];
      NamesOfConcat(f, c);
      assert Hide(f, loose) + ([c] + later) == Hide(f, loose) + [c] + later;
    } else {
      assert TableAfter(step, g, t, held) == g && TableAfter(step, f, t, held) == f;
      assert news == Newcomers(rest, t, Names(f), gone);
    }
  }

  lemma PresentInSecond(f: seq<Column>, g: seq<Column>, n: Name, loose: set<Name>, news: seq<Column>)
    requires Hide(g, loose) == Hide(f, loose) + news && n !in loose
    ensures n in Names(g) <==> n in Names(f) || n in Names(news)
  {
    HideMembers(f, loose);
    HideMembers(g, loose);
    assert forall c :: c in Hide(g, loose) <==> c in Hide(f, loose) || c in news;
  }

  lemma TableSettles(steps: seq<Step>, from: seq<Column>, t: Name, held: set<Name>)
    requires !Overtaken(steps, from, t, held)
    ensures var once := TableRun(steps, from, t, held); TableRun(steps, once, t, held) == once
  {
    var once := TableRun(steps, from, t, held);
    SecondKeepsStep(steps, |steps|, from, t, held);
    assert steps[..|steps|] == steps && steps[|steps|..] == [];
    assert Loose(steps, |steps|, t, held) == {};
    HideNothing(once);
    HideNothing(TableRun(steps, once, t, held));
  }

  // ---------------------------------------------- when the order does change

  /** `x` stands before every `y`. */
  ghost predicate Ahead(cols: seq<Column>, x: Name, y: Name) {
    exists k :: 0 <= k <= |cols| && x in Names(cols[..k]) && y !in Names(cols[..k])
  }

  lemma PrefixNames(cols: seq<Column>, m: nat, k: nat)
    requires m <= |cols| && k <= |cols|
    ensures m <= k ==> Names(cols[..m]) <= Names(cols[..k])
  {
    if m <= k {
      assert forall c :: c in cols[..m] ==> c in cols[..k];
    }
  }

  lemma AheadOneWay(cols: seq<Column>, x: Name, y: Name)
    requires Ahead(cols, x, y)
    ensures !Ahead(cols, y, x)
  {
    var k :| 0 <= k <= |cols| && x in Names(cols[..k]) && y !in Names(cols[..k]);
    forall m | 0 <= m <= |cols| && y in Names(cols[..m])
      ensures x in Names(cols[..m])
    {
      PrefixNames(cols, m, k);
      PrefixNames(cols, k, m);
    }
  }

  lemma {:induction false} WithoutConcat(xs: seq<Column>, ys: seq<Column>, n: Name)
    ensures Without(xs + ys, n) == Without(xs, n) + Without(ys, n)
  {
    if xs == [] {
      assert xs + ys == ys;
    } else {
      assert (xs + ys)[1..] == xs[1..] + ys;
      WithoutConcat(xs[1..], ys, n);
    }
  }

  lemma StepKeepsAhead(step: Step, cols: seq<Column>, t: Name, held: set<Name>, x: Name, y: Name)
    requires Ahead(cols, x, y) && (Drops(step, t, x) ==> x in held)
    ensures Ahead(TableAfter(step, cols, t, held), x, y)
  {
    var after := TableAfter(step, cols, t, held);
    var k :| 0 <= k <= |cols| && x in Names(cols[..k]) && y !in Names(cols[..k]);
    if step.DropColumn? && step.table == t && step.name !in held {
      var front := Without(cols[..k], step.name);
      assert cols == cols[..k] + cols[k..];
      WithoutConcat(cols[..k], cols[k..], step.name);
      NamesOfWithout(cols[..k], step.name);
      assert after[..|front|] == front;
    } else {
      assert after[..k] == cols[..k];
    }
  }

  lemma {:induction false} AheadStays(steps: seq<Step>, cols: seq<Column>, t: Name, held: set<Name>, x: Name, y: Name)
    requires Ahead(cols, x, y) && forall b :: b in steps ==> Drops(b, t, x) ==> x in held
    ensures Ahead(TableRun(steps, cols, t, held), x, y)
    decreases |steps|
  {
    if steps != [] {
      assert steps[0] in steps;
      StepKeepsAhead(steps[0], cols, t, held, x, y);
      AheadStays(steps[1..], TableAfter(steps[0], cols, t, held), t, held, x, y);
    }
  }

  lemma AloneIsAhead(cols: seq<Column>, x: Name, y: Name)
    requires x in Names(cols) && y !in Names(cols)
    ensures Ahead(cols, x, y)
  {
    assert cols[..|cols|] == cols;
  }

  /** Right after an ADD the column is there, right after a DROP that nothing refuses it is not. */
  lemma JustNow(steps: seq<Step>, j: nat, cols: seq<Column>, t: Name, held: set<Name>, c: Name)
    requires j < |steps|
    ensures Adds(steps[j], t, c) ==> c in Names(TableRun(steps[..j + 1], cols, t, held))
    ensures Drops(steps[j], t, c) && c !in held ==> c !in Names(TableRun(steps[..j + 1], cols, t, held))
  {
    TableRunNext(steps, j, cols, t, held);
    NamesAfter(steps[j], TableRun(steps[..j], cols, t, held), t, held, c);
  }

  lemma AheadInTheEnd(steps: seq<Step>, j: nat, cols: seq<Column>, t: Name, held: set<Name>, x: Name, y: Name)
    requires j <= |steps| && Ahead(TableRun(steps[..j], cols, t, held), x, y)
    requires forall b :: b in steps[j..] ==> Drops(b, t, x) ==> x in held
    ensures Ahead(TableRun(steps, cols, t, held), x, y)
  {
    AheadStays(steps[j..], TableRun(steps[..j], cols, t, held), t, held, x, y);
    assert steps[..j] + steps[j..] == steps;
    TableRunAppend(steps[..j], steps[j..], cols, t, held);
  }

  lemma NotYetThere(steps: seq<Step>, j: nat, from: seq<Column>, t: Name, held: set<Name>, d: Name, k: nat)
    requires j < k && FirstAddAt(steps, t, d, k) && d !in Names(from) && d !in DroppedNames(steps, t) - held
    ensures d !in Names(TableRun(steps[..j + 1], from, t, held))
  {
    var front := steps[..j + 1];
    assert forall b :: b in front ==> b in steps;
    assert !AddsIn(front, t, d) by {
      assert forall m :: 0 <= m < |front| ==> front[m] == steps[m];
    }
    StayerIsPresent(front, from, t, held, d);
  }

  lemma FirstSweepPutsReaddedAhead(steps: seq<Step>, from: seq<Column>, t: Name, held: set<Name>,
                                   c: Name, d: Name, i: nat, j: nat, k: nat)
    requires Overtakes(steps, from, t, held, c, d, i, j, k)
    ensures Ahead(TableRun(steps, from, t, held), c, d)
  {
    JustNow(steps, j, from, t, held, c);
    NotYetThere(steps, j, from, t, held, d, k);
    AloneIsAhead(TableRun(steps[..j + 1], from, t, held), c, d);
    forall b | b in steps[j + 1..]
      ensures !Drops(b, t, c)
    {
      var m :| 0 <= m < |steps[j + 1..]| && steps[j + 1..][m] == b;
      assert steps[m + j + 1] == b;
    }
    AheadInTheEnd(steps, j + 1, from, t, held, c, d);
  }

  lemma AlwaysThere(steps: seq<Step>, i: nat, from: seq<Column>, t: Name, held: set<Name>, d: Name, k: nat)
    requires i < |steps| && FirstAddAt(steps, t, d, k) && d !in DroppedNames(steps, t) - held
    ensures d in Names(TableRun(steps[..i + 1], TableRun(steps, from, t, held), t, held))
  {
    assert steps[k] in steps && AddsIn(steps, t, d);
    StayerIsPresent(steps, from, t, held, d);
    assert forall b :: b in steps[..i + 1] ==> b in steps;
    StayerIsPresent(steps[..i + 1], TableRun(steps, from, t, held), t, held, d);
  }

  lemma SecondSweepPutsReaddedBehind(steps: seq<Step>, from: seq<Column>, t: Name, held: set<Name>,
                                     c: Name, d: Name, i: nat, j: nat, k: nat)
    requires Overtakes(steps, from, t, held, c, d, i, j, k)
    ensures Ahead(TableRun(steps, TableRun(steps, from, t, held), t, held), d, c)
  {
    var final := TableRun(steps, from, t, held);
    JustNow(steps, i, final, t, held, c);
    AlwaysThere(steps, i, from, t, held, d, k);
    AloneIsAhead(TableRun(steps[..i + 1], final, t, held), d, c);
    forall b | b in steps[i + 1..] && Drops(b, t, d)
      ensures d in held
    {
      assert b in steps && d in DroppedNames(steps, t);
    }
    AheadInTheEnd(steps, i + 1, final, t, held, d, c);
  }

  /** Running a list over a table twice is running it once, exactly if no column overtakes. */
  lemma TableSettlesIff(steps: seq<Step>, from: seq<Column>, t: Name, held: set<Name>)
    ensures var once := TableRun(steps, from, t, held);
            TableRun(steps, once, t, held) == once <==> !Overtaken(steps, from, t, held)
  {
    var once := TableRun(steps, from, t, held);
    if Overtaken(steps, from, t, held) {
      var c, d, i, j, k :| Overtakes(steps, from, t, held, c, d, i, j, k);
      FirstSweepPutsReaddedAhead(steps, from, t, held, c, d, i, j, k);
      SecondSweepPutsReaddedBehind(steps, from, t, held, c, d, i, j, k);
      AheadOneWay(once, c, d);
    } else {
      TableSettles(steps, from, t, held);
    }
  }

  // ------------------------------------------------------- whole schemas

  /** Some table gets a column to stay after another one was dropped and added again. */
  ghost predicate Reorders(steps: seq<Step>, s: Schema) {
    exists t :: t in Sweep(steps, s).tables && Overtaken(steps, Origin(steps, s, t), t, HeldNames(steps, s, t))
  }

  /** A second sweep changes nothing at all exactly if no column overtakes one that was
      dropped and added again. */
  lemma SweepIsIdempotentIff(steps: seq<Step>, s: Schema)
    requires WellOrdered(steps)
    ensures Sweep(steps, Sweep(steps, s)) == Sweep(steps, s) <==> !Reorders(steps, s)
  {
    var final := Sweep(steps, s);
    var second := Sweep(steps, final);
    SweepConverges(steps, s);
    forall t | t in final.tables
      ensures second.tables[t] == final.tables[t] <==>
              !Overtaken(steps, Origin(steps, s, t), t, HeldNames(steps, s, t))
    {
      TableIsReplayed(steps, s, t);
      TableIsReplayed(steps, final, t);
      HeldAgain(steps, s, t);
      TableSettlesIff(steps, Origin(steps, s, t), t, HeldNames(steps, s, t));
    }
  }

  /** A third sweep never changes anything, from any schema. */
  lemma ThirdSweepChangesNothing(steps: seq<Step>, s: Schema)
    requires WellOrdered(steps)
    ensures Sweep(steps, Sweep(steps, Sweep(steps, s))) == Sweep(steps, Sweep(steps, s))
  {
    var final := Sweep(steps, s);
    SweepIsIdempotentIff(steps, final);
    SweepConverges(steps, s);
    forall t | t in Sweep(steps, final).tables
      ensures !Overtaken(steps, Origin(steps, final, t), t, HeldNames(steps, final, t))
    {
      TableIsReplayed(steps, s, t);
      HeldAgain(steps, s, t);
      var from, held := Origin(steps, s, t), HeldNames(steps, s, t);
      forall c, d, i: nat, j: nat, k: nat | Overtakes(steps, final.tables[t], t, held, c, d, i, j, k)
        ensures false
      {
        assert steps[k] in steps && AddsIn(steps, t, d);
        StayerIsPresent(steps, from, t, held, d);
      }
    }
  }

  /** The list alone: a column that no statement drops first comes after another one of the
      same table was dropped for the last time and added again. */
  ghost predicate Unsettled(steps: seq<Step>, t: Name, c: Name, d: Name, i: nat, j: nat, k: nat) {
    ReaddedAt(steps, t, c, i, j) && j < k && FirstAddAt(steps, t, d, k) && d !in DroppedNames(steps, t)
  }

  ghost predicate Settles(steps: seq<Step>) {
    forall t, c, d, i: nat, j: nat, k: nat :: !Unsettled(steps, t, c, d, i, j, k)
  }

  lemma SettlesOnSound(steps: seq<Step>, s: Schema)
    requires WellOrdered(steps) && Sound(s) && Settles(steps)
    ensures Sweep(steps, Sweep(steps, s)) == Sweep(steps, s)
  {
    SweepIsIdempotentIff(steps, s);
    forall t | t in Sweep(steps, s).tables
      ensures !Overtaken(steps, Origin(steps, s, t), t, HeldNames(steps, s, t))
    {
      var from, held := Origin(steps, s, t), HeldNames(steps, s, t);
      forall c, d, i: nat, j: nat, k: nat | Overtakes(steps, from, t, held, c, d, i, j, k)
        ensures Unsettled(steps, t, c, d, i, j, k)
      {
        if d in held {
          HeldIsThere(steps, s, t, d);
        }
      }
    }
  }

  lemma HeldIsThere(steps: seq<Step>, s: Schema, t: Name, n: Name)
    requires Sound(s) && Held(steps, s, t, n)
    ensures n in Names(Origin(steps, s, t))
  {
  }

  lemma StepKeepsSound(step: Step, s: Schema)
    requires Sound(s)
    ensures Sound(Exec(step, s).schema)
  {
    var s' := Exec(step, s).schema;
    if step.DropColumn? {
      forall i | i in s'.indexes
        ensures s'.indexes[i].table in s'.tables && s'.indexes[i].columns <= Names(s'.tables[s'.indexes[i].table])
      {
        var t := s.indexes[i].table;
        forall n | n in s.indexes[i].columns
          ensures n in Names(s'.tables[t])
        {
          var c :| c in s.tables[t] && c.name == n;
          StepKeepsColumn(step, s, t, c);
        }
      }
    }
  }

  lemma {:induction false} SweepKeepsSound(steps: seq<Step>, s: Schema)
    requires Sound(s)
    ensures Sound(Sweep(steps, s))
  {
    if steps != [] {
      StepKeepsSound(steps[0], s);
      SweepKeepsSound(steps[1..], Exec(steps[0], s).schema);
    }
  }

  /** The table that shows it: one without columns. */
  function EmptyTable(t: Name): Schema {
    Schema(map[t := []], map[])
  }

  lemma UnsettledReorders(steps: seq<Step>, t: Name, c: Name, d: Name, i: nat, j: nat, k: nat)
    requires WellOrdered(steps) && Unsettled(steps, t, c, d, i, j, k)
    ensures Sound(EmptyTable(t))
    ensures Sweep(steps, Sweep(steps, EmptyTable(t))) != Sweep(steps, EmptyTable(t))
  {
    var s := EmptyTable(t);
    SweepIsIdempotentIff(steps, s);
    SweepGrows(steps, s);
    assert HeldNames(steps, s, t) == {};
    assert Overtakes(steps, [], t, {}, c, d, i, j, k);
  }

  /** One sweep is enough from every sound schema exactly for the lists that settle. */
  lemma SettlesIff(steps: seq<Step>)
    requires WellOrdered(steps)
    ensures Settles(steps) <==> forall s :: Sound(s) ==> Sweep(steps, Sweep(steps, s)) == Sweep(steps, s)
  {
    if Settles(steps) {
      forall s | Sound(s)
        ensures Sweep(steps, Sweep(steps, s)) == Sweep(steps, s)
      {
        SettlesOnSound(steps, s);
      }
    } else {
      var t, c, d, i: nat, j: nat, k: nat :| Unsettled(steps, t, c, d, i, j, k);
      UnsettledReorders(steps, t, c, d, i, j, k);
    }
  }
}
