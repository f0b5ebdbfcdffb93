/**
 The migration sweep of app/database.py as a state machine over schemas.

 A schema is what sqlite_master shows: tables with their columns in order, and
 indexes. A sweep executes every statement and swallows every failure; whether
 a statement fails is decided by the schema it meets. The results are that the
 sweep converges: each column ends present or absent according to the last
 statement about it, and a second sweep changes nothing but perhaps the order of
 columns. When it changes even that is the subject of `ColumnOrder`.

 What a sweep does to one column of one table depends on nothing but the
 statements about that column (`CellIsReplayed`); the theorems rest on that.
 */
module SchemaSweep {
  import opened Options

  datatype Name = Name(text: string)

  /** `pinned` marks a PRIMARY KEY or UNIQUE column, which SQLite refuses to drop. */
  datatype Column = Column(name: Name, decl: string, pinned: bool)
  datatype Index = Index(table: Name, columns: set<Name>, decl: string)
  datatype Schema = Schema(tables: map<Name, seq<Column>>, indexes: map<Name, Index>)

  /** CREATE statements carry IF NOT EXISTS. `Data` is a statement on rows only. */
  datatype Step =
    | CreateTable(table: Name, columns: seq<Column>)
    | AddColumn(table: Name, name: Name, decl: string)
    | DropColumn(table: Name, name: Name)
    | CreateIndex(index: Name, def: Index)
    | Data(succeeds: bool)

  /** How the loop counts a statement: `ran`, `already` or `failed`. */
  datatype Outcome = Ran | Already | Failed

  datatype Result = Result(schema: Schema, outcome: Outcome)

  // -------------------------------------------------------------- statements

  function Names(cols: seq<Column>): set<Name> {
    set c | c in cols :: c.name
  }

  function Without(cols: seq<Column>, n: Name): seq<Column> {
    if cols == [] then []
    else if cols[0].name == n then Without(cols[1..], n)
    else [cols[0]] + Without(cols[1..], n)
  }

  predicate HasColumn(s: Schema, t: Name, n: Name) {
    t in s.tables && n in Names(s.tables[t])
  }

  predicate Pinned(cols: seq<Column>, n: Name) {
    exists c :: c in cols && c.name == n && c.pinned
  }

  predicate Indexed(s: Schema, t: Name, n: Name) {
    exists i :: i in s.indexes && s.indexes[i].table == t && n in s.indexes[i].columns
  }

  predicate Droppable(s: Schema, t: Name, n: Name) {
    HasColumn(s, t, n) && !Pinned(s.tables[t], n) && !Indexed(s, t, n)
  }

  function Exec(step: Step, s: Schema): Result {
    match step
    case CreateTable(t, cols) =>
      if t in s.tables then Result(s, Ran)
      else if t in s.indexes then Result(s, Failed)
      else Result(s.(tables := s.tables[t := cols]), Ran)
    case AddColumn(t, n, decl) =>
      if t !in s.tables then Result(s, Failed)
      else if HasColumn(s, t, n) then Result(s, Already)
      else Result(s.(tables := s.tables[t := s.tables[t] + [Column(n, decl, false)]]), Ran)
    case DropColumn(t, n) =>
      if !Droppable(s, t, n) then Result(s, Failed)
      else Result(s.(tables := s.tables[t := Without(s.tables[t], n)]), Ran)
    case CreateIndex(i, def) =>
      if def.table !in s.tables || i in s.tables then Result(s, Failed)
      else if i in s.indexes then Result(s, Ran)
      else if !(def.columns <= Names(s.tables[def.table])) then Result(s, Failed)
      else Result(s.(indexes := s.indexes[i := def]), Ran)
    case Data(ok) => Result(s, if ok then Ran else Failed)
  }

  /** The schema after every statement has been tried once, in order. */
  function Sweep(steps: seq<Step>, s: Schema): Schema {
    if steps == [] then s else Sweep(steps[1..], Exec(steps[0], s).schema)
  }

  // ---------------------------------------------------- the shape of the list

  predicate NamesTable(step: Step, t: Name) {
    match step
    case AddColumn(u, _, _) => u == t
    case DropColumn(u, _) => u == t
    case CreateIndex(_, def) => def.table == t
    case _ => false
  }

  predicate IndexesColumn(step: Step, t: Name, n: Name) {
    step.CreateIndex? && step.def.table == t && n in step.def.columns
  }

  predicate Adds(step: Step, t: Name, n: Name) {
    step.AddColumn? && step.table == t && step.name == n
  }

  predicate Drops(step: Step, t: Name, n: Name) {
    step.DropColumn? && step.table == t && step.name == n
  }

  /** `b` may come after `a`: nothing `a` names is created only at `b`, and no dropped
      column is indexed. */
  predicate MayFollow(a: Step, b: Step) {
    match b
    case CreateTable(t, _) => !NamesTable(a, t)
    case AddColumn(t, n, _) => !IndexesColumn(a, t, n)
    case DropColumn(t, n) => !IndexesColumn(a, t, n)
    case CreateIndex(_, def) => !(a.DropColumn? && a.table == def.table && a.name in def.columns)
    case Data(_) => true
  }

  predicate WellOrdered(steps: seq<Step>) {
    steps == [] || ((forall b :: b in steps[1..] ==> MayFollow(steps[0], b)) && WellOrdered(steps[1..]))
  }

  /** Of any two statements, the later one creates no table the earlier names; it adds or drops
      no column the earlier indexes; and it indexes no column the earlier drops. */
  lemma {:induction false} WellOrderedMeans(steps: seq<Step>)
    ensures WellOrdered(steps) <==> forall i, j :: 0 <= i < j < |steps| ==>
              && (steps[j].CreateTable? ==> !NamesTable(steps[i], steps[j].table))
              && (steps[j].AddColumn? || steps[j].DropColumn? ==>
                    !IndexesColumn(steps[i], steps[j].table, steps[j].name))
              && (steps[j].CreateIndex? && steps[i].DropColumn? && steps[i].table == steps[j].def.table ==>
                    steps[i].name !in steps[j].def.columns)
  {
    if steps != [] {
      var rest := steps[1..];
      WellOrderedMeans(rest);
      assert forall i :: 0 <= i < |rest| ==> rest[i] == steps[i + 1];
      assert forall b :: b in rest <==> exists j :: 0 < j < |steps| && steps[j] == b;
      if WellOrdered(steps) {
        forall i, j | 0 <= i < j < |steps|
          ensures MayFollow(steps[i], steps[j])
        {
          if i == 0 {
            assert steps[j] == rest[j - 1];
          } else {
            assert steps[i] == rest[i - 1] && steps[j] == rest[j - 1];
            PairMayFollow(rest, i - 1, j - 1);
          }
        }
      }
    }
  }

  lemma {:induction false} PairMayFollow(steps: seq<Step>, i: nat, j: nat)
    requires WellOrdered(steps) && i < j < |steps|
    ensures MayFollow(steps[i], steps[j])
  {
    if i == 0 {
      assert steps[j] == steps[1..][j - 1];
    } else {
      PairMayFollow(steps[1..], i - 1, j - 1);
    }
  }

  // ------------------------------------------------- what one statement does

  /** The schema shows this column in this table. */
  predicate Shows(s: Schema, t: Name, c: Column) {
    t in s.tables && c in s.tables[t]
  }

  /** Column by column: CREATE gives a new table its columns, ADD adds one that was missing,
      DROP takes one away unless it is pinned or indexed, and nothing else changes. */
  lemma StatementMovesColumns(step: Step, s: Schema, t: Name, c: Column)
    ensures Shows(Exec(step, s).schema, t, c) <==>
            match step
            case CreateTable(u, cols) =>
              if u == t && t !in s.tables && t !in s.indexes then c in cols else Shows(s, t, c)
            case AddColumn(u, n, decl) =>
              || Shows(s, t, c)
              || (u == t && t in s.tables && c == Column(n, decl, false)
                  && forall d :: d in s.tables[t] ==> d.name != n)
            case DropColumn(u, n) =>
              && Shows(s, t, c)
              && (u == t && c.name == n ==>
                    || (exists d :: d in s.tables[t] && d.name == n && d.pinned)
                    || (exists i :: i in s.indexes && s.indexes[i].table == t && n in s.indexes[i].columns))
            case _ => Shows(s, t, c)
  {
    if step.DropColumn? && step.table in s.tables {
      WithoutNames(s.tables[step.table], step.name);
    }
  }

  /** And in order: a created table has the columns of its CREATE, an ADD goes to the end, and a
      DROP closes its gap. */
  lemma StatementInOrder(step: Step, s: Schema, t: Name)
    ensures var s' := Exec(step, s).schema;
            && (step.CreateTable? && step.table == t && t !in s.tables && t !in s.indexes ==>
                  t in s'.tables && s'.tables[t] == step.columns)
            && (step.AddColumn? && step.table == t && t in s.tables
                && (forall c :: c in s.tables[t] ==> c.name != step.name) ==>
                  t in s'.tables && s'.tables[t] == s.tables[t] + [Column(step.name, step.decl, false)])
            && (t in s.tables && !(step.AddColumn? && step.table == t) && !(step.DropColumn? && step.table == t) ==>
                  t in s'.tables && s'.tables[t] == s.tables[t])
  {
  }

  lemma DropInOrder(step: Step, s: Schema, t: Name, p: nat)
    requires step.DropColumn? && step.table == t && t in s.tables && p < |s.tables[t]|
    requires s.tables[t][p].name == step.name && !s.tables[t][p].pinned
    requires forall q :: 0 <= q < |s.tables[t]| && q != p ==> s.tables[t][q].name != step.name
    requires forall i :: i in s.indexes ==> !(s.indexes[i].table == t && step.name in s.indexes[i].columns)
    ensures var s' := Exec(step, s).schema;
            t in s'.tables && s'.tables[t] == s.tables[t][..p] + s.tables[t][p + 1..]
  {
    DropKeepsOrder(s.tables[t], p);
    assert s.tables[t][p] in s.tables[t];
  }

  /** How a statement is counted: already applied exactly if the column to add is there, failed
      exactly if SQLite refuses it for any other reason. */
  lemma StatementIsCounted(step: Step, s: Schema)
    ensures Exec(step, s).outcome == Already <==>
            step.AddColumn? && step.table in s.tables && exists c :: c in s.tables[step.table] && c.name == step.name
    ensures Exec(step, s).outcome == Failed <==>
            match step
            case CreateTable(t, _) => t !in s.tables && t in s.indexes
            case AddColumn(t, _, _) => t !in s.tables
            case DropColumn(t, n) =>
              || t !in s.tables || (forall c :: c in s.tables[t] ==> c.name != n)
              || (exists c :: c in s.tables[t] && c.name == n && c.pinned)
              || (exists i :: i in s.indexes && s.indexes[i].table == t && n in s.indexes[i].columns)
            case CreateIndex(i, def) =>
              || def.table !in s.tables || i in s.tables
              || (i !in s.indexes
                  && exists n :: n in def.columns && forall c :: c in s.tables[def.table] ==> c.name != n)
            case Data(succeeds) => !succeeds
  {
  }

  /** A DROP closes the gap and keeps the order. */
  lemma {:induction false} DropKeepsOrder(cols: seq<Column>, p: nat)
    requires p < |cols| && forall q :: 0 <= q < |cols| && q != p ==> cols[q].name != cols[p].name
    ensures Without(cols, cols[p].name) == cols[..p] + cols[p + 1..]
  {
    if p == 0 {
      NoneToDrop(cols[1..], cols[0].name);
    } else {
      DropKeepsOrder(cols[1..], p - 1);
      assert cols[..p] == [cols[0]] + cols[1..][..p - 1];
    }
  }

  lemma {:induction false} NoneToDrop(cols: seq<Column>, n: Name)
    requires forall q :: 0 <= q < |cols| ==> cols[q].name != n
    ensures Without(cols, n) == cols
  {
    if cols != [] {
      NoneToDrop(cols[1..], n);
    }
  }

  // --------------------------------------------- what the rest of a sweep does

  lemma WithoutNames(cols: seq<Column>, n: Name)
    ensures forall c :: c in Without(cols, n) <==> c in cols && c.name != n
  {
  }

  /** Tables and indexes are never removed. */
  lemma {:induction false} SweepGrows(steps: seq<Step>, s: Schema)
    ensures s.tables.Keys <= Sweep(steps, s).tables.Keys
    ensures forall i :: i in s.indexes ==> i in Sweep(steps, s).indexes && Sweep(steps, s).indexes[i] == s.indexes[i]
  {
    if steps != [] {
      SweepGrows(steps[1..], Exec(steps[0], s).schema);
    }
  }

  lemma {:induction false} TablesAreCreated(steps: seq<Step>, s: Schema, t: Name)
    requires t in Sweep(steps, s).tables && t !in s.tables
    ensures exists b :: b in steps && b.CreateTable? && b.table == t
  {
    var s' := Exec(steps[0], s).schema;
    if t !in s'.tables {
      TablesAreCreated(steps[1..], s', t);
    }
  }

  lemma {:induction false} IndexesAreCreated(steps: seq<Step>, s: Schema, i: Name)
    requires i in Sweep(steps, s).indexes && i !in s.indexes
    ensures CreateIndex(i, Sweep(steps, s).indexes[i]) in steps
  {
    var s' := Exec(steps[0], s).schema;
    if i in s'.indexes {
      SweepGrows(steps[1..], s');
    } else {
      IndexesAreCreated(steps[1..], s', i);
    }
  }

  /** A column of a table that is already there can only come from an ADD. */
  lemma {:induction false} ColumnsAreAdded(steps: seq<Step>, s: Schema, t: Name, c: Column)
    requires t in s.tables
    requires forall b :: b in steps ==> !Adds(b, t, c.name)
    ensures t in Sweep(steps, s).tables && (c in Sweep(steps, s).tables[t] ==> c in s.tables[t])
  {
    if steps != [] {
      assert !Adds(steps[0], t, c.name);
      WithoutNames(s.tables[t], if steps[0].DropColumn? then steps[0].name else c.name);
      ColumnsAreAdded(steps[1..], Exec(steps[0], s).schema, t, c);
    }
  }

  lemma StepKeepsColumn(step: Step, s: Schema, t: Name, c: Column)
    requires t in s.tables && c in s.tables[t]
    requires Drops(step, t, c.name) ==> !Droppable(s, t, c.name)
    ensures var s' := Exec(step, s).schema; t in s'.tables && c in s'.tables[t]
  {
    if step.DropColumn? && step.table == t {
      WithoutNames(s.tables[t], step.name);
    }
  }

  /** A pinned or indexed column survives every sweep, unchanged. */
  lemma {:induction false} HeldColumnsStay(steps: seq<Step>, s: Schema, t: Name, c: Column)
    requires t in s.tables && c in s.tables[t] && (c.pinned || Indexed(s, t, c.name))
    ensures var final := Sweep(steps, s); t in final.tables && c in final.tables[t]
  {
    if steps != [] {
      var s' := Exec(steps[0], s).schema;
      StepKeepsColumn(steps[0], s, t, c);
      if Indexed(s, t, c.name) {
        var i :| i in s.indexes && s.indexes[i].table == t && c.name in s.indexes[i].columns;
        assert s'.indexes[i] == s.indexes[i];
      }
      HeldColumnsStay(steps[1..], s', t, c);
    }
  }

  // ---------------------------------------------------------- one column

  /** The columns of that name: one, or none. */
  function Named(cols: seq<Column>, n: Name): seq<Column> {
    if cols == [] then []
    else if cols[0].name == n then [cols[0]] + Named(cols[1..], n)
    else Named(cols[1..], n)
  }

  function Cell(s: Schema, t: Name, n: Name): seq<Column>
    requires t in s.tables
  {
    Named(s.tables[t], n)
  }

  /** What one statement makes of one column of an existing table. */
  function CellAfter(step: Step, x: seq<Column>, t: Name, n: Name, indexed: bool): seq<Column> {
    if Adds(step, t, n) then if x == [] then [Column(n, step.decl, false)] else x
    else if Drops(step, t, n) then if indexed || Pinned(x, n) then x else []
    else x
  }

  function Replay(steps: seq<Step>, x: seq<Column>, t: Name, n: Name, indexed: bool): seq<Column>
    decreases |steps|
  {
    if steps == [] then x else Replay(steps[1..], CellAfter(steps[0], x, t, n, indexed), t, n, indexed)
  }

  lemma {:induction false} NamedMembers(cols: seq<Column>, n: Name)
    ensures forall c :: c in Named(cols, n) <==> c in cols && c.name == n
    ensures n in Names(cols) <==> Named(cols, n) != []
    ensures Pinned(Named(cols, n), n) <==> Pinned(cols, n)
  {
    if cols != [] {
      NamedMembers(cols[1..], n);
      assert forall c :: c in cols <==> c == cols[0] || c in cols[1..];
    }
    assert Named(cols, n) != [] ==> Named(cols, n)[0] in Named(cols, n);
  }

  lemma {:induction false} NamedConcat(xs: seq<Column>, ys: seq<Column>, n: Name)
    ensures Named(xs + ys, n) == Named(xs, n) + Named(ys, n)
  {
    if xs == [] {
      assert xs + ys == ys;
    } else {
      assert (xs + ys)[1..] == xs[1..] + ys;
      NamedConcat(xs[1..], ys, n);
    }
  }

  lemma {:induction false} NamedWithout(cols: seq<Column>, m: Name, n: Name)
    ensures Named(Without(cols, m), n) == if m == n then [] else Named(cols, n)
  {
    if cols != [] {
      NamedWithout(cols[1..], m, n);
      NamedConcat([cols[0]], Without(cols[1..], m), n);
    }
  }

  lemma ExecOnCell(step: Step, s: Schema, t: Name, n: Name)
    requires t in s.tables
    ensures t in Exec(step, s).schema.tables
    ensures Cell(Exec(step, s).schema, t, n) == CellAfter(step, Cell(s, t, n), t, n, Indexed(s, t, n))
  {
    NamedMembers(s.tables[t], n);
    match step {
      case AddColumn(_, m, decl) => NamedConcat(s.tables[t], [Column(m, decl, false)], n);
      case DropColumn(_, m) => NamedWithout(s.tables[t], m, n);
      case _ =>
    }
  }

  function FirstCreate(steps: seq<Step>, t: Name): seq<Column> {
    if steps == [] then []
    else if steps[0].CreateTable? && steps[0].table == t then steps[0].columns
    else FirstCreate(steps[1..], t)
  }

  /** The columns a table starts from: those it has, else those of the list's first CREATE. */
  function Origin(steps: seq<Step>, s: Schema, t: Name): seq<Column> {
    if t in s.tables then s.tables[t] else FirstCreate(steps, t)
  }

  lemma OriginStep(steps: seq<Step>, s: Schema, t: Name)
    requires steps != [] && t !in s.tables && t in Sweep(steps, s).tables
    ensures Origin(steps[1..], Exec(steps[0], s).schema, t) == Origin(steps, s, t)
  {
    if t in s.indexes {
      TakenNameBlocksTable(steps, s, t);
    }
  }

  /** Only the list's own indexes can be new. */
  lemma IndexedStays(steps: seq<Step>, s: Schema, t: Name, n: Name)
    requires forall b :: b in steps ==> !IndexesColumn(b, t, n)
    ensures Indexed(Sweep(steps, s), t, n) <==> Indexed(s, t, n)
  {
    SweepGrows(steps, s);
    var final := Sweep(steps, s);
    if Indexed(final, t, n) {
      var i :| i in final.indexes && final.indexes[i].table == t && n in final.indexes[i].columns;
      if i !in s.indexes {
        IndexesAreCreated(steps, s, i);
      }
    }
    if Indexed(s, t, n) {
      var i :| i in s.indexes && s.indexes[i].table == t && n in s.indexes[i].columns;
      assert final.indexes[i] == s.indexes[i];
    }
  }

  /** A column after a sweep is what the statements about it alone make of it. */
  lemma {:induction false} CellIsReplayed(steps: seq<Step>, s: Schema, t: Name, n: Name)
    requires WellOrdered(steps) && t in Sweep(steps, s).tables
    ensures Cell(Sweep(steps, s), t, n) ==
            Replay(steps, Named(Origin(steps, s, t), n), t, n, Indexed(Sweep(steps, s), t, n))
  {
    if steps != [] {
      var step, rest, s' := steps[0], steps[1..], Exec(steps[0], s).schema;
      CellIsReplayed(rest, s', t, n);
      if t in s.tables {
        ExecOnCell(step, s, t, n);
        if Drops(step, t, n) {
          assert forall b :: b in steps ==> b == step || b in rest;
          IndexedStays(steps, s, t, n);
        }
      } else {
        OriginStep(steps, s, t);
        if NamesTable(step, t) {
          TablesAreCreated(rest, s', t);
        }
      }
    }
  }

  // ------------------------------------------------- which columns remain

  /** The last statement of the list about one column, if any. */
  function LastWord(steps: seq<Step>, t: Name, n: Name): Option<Step> {
    if steps == [] then None
    else
      var later := LastWord(steps[1..], t, n);
      if later.Some? then later
      else if Adds(steps[0], t, n) || Drops(steps[0], t, n) then Some(steps[0])
      else None
  }

  lemma {:induction false} LastWordIsThere(steps: seq<Step>, t: Name, n: Name)
    ensures match LastWord(steps, t, n)
            case Some(w) => w in steps && (Adds(w, t, n) || Drops(w, t, n))
            case None => forall b :: b in steps ==> !Adds(b, t, n) && !Drops(b, t, n)
  {
    if steps != [] {
      LastWordIsThere(steps[1..], t, n);
    }
  }

  lemma {:induction false} ReplayKeeps(steps: seq<Step>, x: seq<Column>, t: Name, n: Name, indexed: bool)
    requires forall b :: b in steps ==> Adds(b, t, n) ==> x != []
    requires forall b :: b in steps ==> Drops(b, t, n) ==> indexed || Pinned(x, n)
    ensures Replay(steps, x, t, n, indexed) == x
    decreases |steps|
  {
    if steps != [] {
      assert steps[0] in steps;
      ReplayKeeps(steps[1..], x, t, n, indexed);
    }
  }

  /** The last word decides, but for a column that a DROP cannot remove. */
  lemma {:induction false} ReplayFollowsLastWord(steps: seq<Step>, x: seq<Column>, t: Name, n: Name, indexed: bool)
    requires LastWord(steps, t, n).Some?
    ensures LastWord(steps, t, n).value.AddColumn? ==> Replay(steps, x, t, n, indexed) != []
    ensures LastWord(steps, t, n).value.DropColumn? && (indexed ==> x != []) ==>
              (Replay(steps, x, t, n, indexed) != [] <==> indexed || Pinned(x, n))
    decreases |steps|
  {
    var x', rest := CellAfter(steps[0], x, t, n, indexed), steps[1..];
    if LastWord(rest, t, n).Some? {
      ReplayFollowsLastWord(rest, x', t, n, indexed);
    } else {
      LastWordIsThere(rest, t, n);
      ReplayKeeps(rest, x', t, n, indexed);
    }
  }

  /** Every index of the schema names columns that exist. */
  ghost predicate Sound(s: Schema) {
    forall i :: i in s.indexes ==>
      s.indexes[i].table in s.tables && s.indexes[i].columns <= Names(s.tables[s.indexes[i].table])
  }

  lemma {:induction false} DroppedIsNotIndexed(steps: seq<Step>, d: Step)
    requires WellOrdered(steps) && d in steps && d.DropColumn?
    ensures forall b :: b in steps ==> !IndexesColumn(b, d.table, d.name)
  {
    var head, rest := steps[0], steps[1..];
    assert forall b :: b in steps ==> b == head || b in rest;
    if d in rest {
      DroppedIsNotIndexed(rest, d);
    }
  }

  /** After one sweep from any starting schema, a column the list adds or drops is
      present exactly when the last such statement adds it, or when its DROP was
      impossible: the column was pinned where the table came from, or indexed
      by something outside the list. */
  lemma ColumnFollowsLastWord(steps: seq<Step>, s: Schema, t: Name, n: Name)
    requires WellOrdered(steps) && Sound(s) && t in Sweep(steps, s).tables
    requires LastWord(steps, t, n).Some?
    ensures HasColumn(Sweep(steps, s), t, n) <==>
            LastWord(steps, t, n).value.AddColumn? || Pinned(Origin(steps, s, t), n) || Indexed(s, t, n)
  {
    var final, from, word := Sweep(steps, s), Origin(steps, s, t), LastWord(steps, t, n).value;
    LastWordIsThere(steps, t, n);
    CellIsReplayed(steps, s, t, n);
    NamedMembers(final.tables[t], n);
    NamedMembers(from, n);
    if word.DropColumn? {
      DroppedIsNotIndexed(steps, word);
      IndexedStays(steps, s, t, n);
    }
    ReplayFollowsLastWord(steps, Named(from, n), t, n, Indexed(final, t, n));
  }

  /** `j` is the first ADD of the column since its last DROP, if it was dropped at all. */
  predicate FirstAddSince(steps: seq<Step>, t: Name, n: Name, j: nat) {
    && j < |steps| && Adds(steps[j], t, n)
    && (forall m :: j < m < |steps| ==> !Drops(steps[m], t, n))
    && (forall m :: 0 <= m < j && Adds(steps[m], t, n) ==> exists q :: m < q < j && Drops(steps[q], t, n))
  }

  lemma {:induction false} ReplayEndsWithAdd(steps: seq<Step>, t: Name, n: Name, j: nat)
    requires FirstAddSince(steps, t, n, j)
    ensures Replay(steps, [], t, n, false) == [Column(n, steps[j].decl, false)]
    decreases |steps|
  {
    var rest := steps[1..];
    var x := CellAfter(steps[0], [], t, n, false);
    if j == 0 {
      ReplayKeeps(rest, x, t, n, false);
    } else {
      if Adds(steps[0], t, n) {
        var q :| 0 < q < j && Drops(steps[q], t, n);
        assert rest[q - 1] in rest;
        ReplayForgets(rest, x, t, n);
      }
      FirstAddSinceInRest(steps, t, n, j);
      ReplayEndsWithAdd(rest, t, n, j - 1);
    }
  }

  lemma FirstAddSinceInRest(steps: seq<Step>, t: Name, n: Name, j: nat)
    requires FirstAddSince(steps, t, n, j) && j > 0
    ensures FirstAddSince(steps[1..], t, n, j - 1)
  {
    var rest := steps[1..];
    forall m | 0 <= m < j - 1 && Adds(rest[m], t, n)
      ensures exists q :: m < q < j - 1 && Drops(rest[q], t, n)
    {
      var q :| m + 1 < q < j && Drops(steps[q], t, n);
      assert Drops(rest[q - 1], t, n);
    }
  }

  lemma {:induction false} UndroppedIgnoresIndexes(steps: seq<Step>, x: seq<Column>, t: Name, n: Name, indexed: bool)
    requires forall b :: b in steps ==> !Drops(b, t, n)
    ensures Replay(steps, x, t, n, indexed) == Replay(steps, x, t, n, false)
    decreases |steps|
  {
    if steps != [] {
      assert steps[0] in steps;
      UndroppedIgnoresIndexes(steps[1..], CellAfter(steps[0], x, t, n, indexed), t, n, indexed);
    }
  }

  /** Some statement drops the column, and nothing keeps SQLite from doing so. */
  predicate Dropped(steps: seq<Step>, s: Schema, t: Name, n: Name) {
    (exists b :: b in steps && b.DropColumn? && b.table == t && b.name == n)
    && !Pinned(Origin(steps, s, t), n) && !Indexed(s, t, n)
  }

  /** A column the list does not drop, or cannot, stays as it was where its table came from:
      in the schema at hand, or in the list's CREATE. */
  lemma UndroppedColumnIsTheOrigin(steps: seq<Step>, s: Schema, t: Name, c: Column)
    requires WellOrdered(steps) && t in Sweep(steps, s).tables
    requires c in Origin(steps, s, t) && !Dropped(steps, s, t, c.name)
    ensures Named(Sweep(steps, s).tables[t], c.name) == Named(Origin(steps, s, t), c.name)
    ensures c in Sweep(steps, s).tables[t]
  {
    var final, from, n := Sweep(steps, s), Origin(steps, s, t), c.name;
    CellIsReplayed(steps, s, t, n);
    NamedMembers(from, n);
    NamedMembers(final.tables[t], n);
    assert c in Named(from, n);
    if d :| d in steps && d.DropColumn? && d.table == t && d.name == n {
      DroppedIsNotIndexed(steps, d);
      IndexedStays(steps, s, t, n);
    }
    ReplayKeeps(steps, Named(from, n), t, n, Indexed(final, t, n));
  }

  /** Any other column the finished table has is as its first ADD since its last DROP says. */
  lemma AddedColumnIsItsFirstAdd(steps: seq<Step>, s: Schema, t: Name, n: Name, j: nat)
    requires WellOrdered(steps) && Sound(s) && t in Sweep(steps, s).tables && FirstAddSince(steps, t, n, j)
    requires n !in Names(Origin(steps, s, t)) || Dropped(steps, s, t, n)
    ensures Named(Sweep(steps, s).tables[t], n) == [Column(n, steps[j].decl, false)]
  {
    var final, from := Sweep(steps, s), Origin(steps, s, t);
    CellIsReplayed(steps, s, t, n);
    NamedMembers(from, n);
    if d :| d in steps && d.DropColumn? && d.table == t && d.name == n {
      DroppedIsNotIndexed(steps, d);
      IndexedStays(steps, s, t, n);
      assert !Pinned(Named(from, n), n);
      assert !Indexed(s, t, n);
      ReplayForgets(steps, Named(from, n), t, n);
    } else {
      UndroppedIgnoresIndexes(steps, Named(from, n), t, n, Indexed(final, t, n));
    }
    ReplayEndsWithAdd(steps, t, n, j);
  }

  /** A column no statement names is in the finished table exactly if it was in the origin. */
  lemma UnnamedColumnIsTheOrigin(steps: seq<Step>, s: Schema, t: Name, c: Column)
    requires WellOrdered(steps) && t in Sweep(steps, s).tables && LastWord(steps, t, c.name).None?
    ensures c in Sweep(steps, s).tables[t] <==>
            c in if t in s.tables then s.tables[t] else FirstCreate(steps, t)
  {
    LastWordIsThere(steps, t, c.name);
    CellIsReplayed(steps, s, t, c.name);
    ReplayKeeps(steps, Named(Origin(steps, s, t), c.name), t, c.name, Indexed(Sweep(steps, s), t, c.name));
    NamedMembers(Origin(steps, s, t), c.name);
    NamedMembers(Sweep(steps, s).tables[t], c.name);
  }

  // ----------------------------------------------------------- convergence

  /** The same tables, columns and indexes; columns may stand in another order. */
  ghost predicate SameButOrder(a: Schema, b: Schema) {
    && a.indexes == b.indexes
    && a.tables.Keys == b.tables.Keys
    && forall t :: t in a.tables ==> multiset(a.tables[t]) == multiset(b.tables[t])
  }

  lemma {:induction false} ReplayNeverPins(steps: seq<Step>, x: seq<Column>, t: Name, n: Name, indexed: bool)
    requires !Pinned(x, n)
    ensures !Pinned(Replay(steps, x, t, n, indexed), n)
    decreases |steps|
  {
    if steps != [] {
      ReplayNeverPins(steps[1..], CellAfter(steps[0], x, t, n, indexed), t, n, indexed);
    }
  }

  /** A DROP that can be carried out makes the outcome independent of the start. */
  lemma {:induction false} ReplayForgets(steps: seq<Step>, x: seq<Column>, t: Name, n: Name)
    requires !Pinned(x, n) && exists d :: d in steps && Drops(d, t, n)
    ensures Replay(steps, x, t, n, false) == Replay(steps, [], t, n, false)
    decreases |steps|
  {
    if !Drops(steps[0], t, n) {
      ReplayForgets(steps[1..], CellAfter(steps[0], x, t, n, false), t, n);
      ReplayForgets(steps[1..], CellAfter(steps[0], [], t, n, false), t, n);
    }
  }

  lemma ReplayIsIdempotent(steps: seq<Step>, x: seq<Column>, t: Name, n: Name, indexed: bool)
    ensures var y := Replay(steps, x, t, n, indexed); Replay(steps, y, t, n, indexed) == y
  {
    var y := Replay(steps, x, t, n, indexed);
    if Pinned(x, n) || indexed || !exists d :: d in steps && Drops(d, t, n) {
      if x != [] {
        ReplayKeeps(steps, x, t, n, indexed);
      } else if y != [] {
        ReplayKeeps(steps, y, t, n, indexed);
      }
    } else {
      ReplayNeverPins(steps, x, t, n, indexed);
      ReplayForgets(steps, x, t, n);
      ReplayForgets(steps, y, t, n);
    }
  }

  /** A CREATE TABLE leaves its table, or an index that had taken the name. */
  lemma {:induction false} NameIsTaken(steps: seq<Step>, s: Schema, b: Step)
    requires b in steps && b.CreateTable?
    ensures b.table in Sweep(steps, s).tables || b.table in Sweep(steps, s).indexes
  {
    var s' := Exec(steps[0], s).schema;
    if b == steps[0] {
      SweepGrows(steps[1..], s');
    } else {
      NameIsTaken(steps[1..], s', b);
    }
  }

  lemma {:induction false} TakenNameBlocksTable(steps: seq<Step>, s: Schema, t: Name)
    requires t in s.indexes && t !in s.tables
    ensures t !in Sweep(steps, s).tables
  {
    if steps != [] {
      TakenNameBlocksTable(steps[1..], Exec(steps[0], s).schema, t);
    }
  }

  lemma SecondSweepKeepsTables(steps: seq<Step>, s: Schema)
    ensures Sweep(steps, Sweep(steps, s)).tables.Keys == Sweep(steps, s).tables.Keys
  {
    var final := Sweep(steps, s);
    var second := Sweep(steps, final);
    SweepGrows(steps, final);
    forall t | t in second.tables
      ensures t in final.tables
    {
      if t !in final.tables {
        TablesAreCreated(steps, final, t);
        var b :| b in steps && b.CreateTable? && b.table == t;
        NameIsTaken(steps, s, b);
        TakenNameBlocksTable(steps, final, t);
      }
    }
  }

  /** The columns are there for the index to be built on. */
  predicate Backed(s: Schema, i: Name, def: Index) {
    i !in s.tables && def.table in s.tables && def.columns <= Names(s.tables[def.table])
  }

  lemma {:induction false} UndroppedStays(steps: seq<Step>, s: Schema, t: Name, c: Column)
    requires t in s.tables && c in s.tables[t]
    requires forall b :: b in steps ==> !Drops(b, t, c.name)
    ensures var final := Sweep(steps, s); t in final.tables && c in final.tables[t]
  {
    if steps != [] {
      StepKeepsColumn(steps[0], s, t, c);
      UndroppedStays(steps[1..], Exec(steps[0], s).schema, t, c);
    }
  }

  /** A new index still has its columns at the end. */
  lemma {:induction false} NewIndexIsBacked(steps: seq<Step>, s: Schema, i: Name)
    requires WellOrdered(steps) && i in Sweep(steps, s).indexes && i !in s.indexes
    ensures Backed(Sweep(steps, s), i, Sweep(steps, s).indexes[i])
  {
    var step, rest, s' := steps[0], steps[1..], Exec(steps[0], s).schema;
    if i !in s'.indexes {
      NewIndexIsBacked(rest, s', i);
    } else {
      var final, def := Sweep(rest, s'), s'.indexes[i];
      SweepGrows(rest, s');
      TakenNameBlocksTable(rest, s', i);
      forall n | n in def.columns
        ensures n in Names(final.tables[def.table])
      {
        var c :| c in s.tables[def.table] && c.name == n;
        UndroppedStays(rest, s', def.table, c);
      }
    }
  }

  /** An index whose columns are there at the end has been built. */
  lemma {:induction false} BackedIndexIsBuilt(steps: seq<Step>, s: Schema, i: Name, def: Index)
    requires WellOrdered(steps) && CreateIndex(i, def) in steps && Backed(Sweep(steps, s), i, def)
    ensures i in Sweep(steps, s).indexes
  {
    var step, rest, s' := steps[0], steps[1..], Exec(steps[0], s).schema;
    if step != CreateIndex(i, def) {
      BackedIndexIsBuilt(rest, s', i, def);
    } else {
      SweepGrows(rest, s');
      if def.table !in s.tables {
        TablesAreCreated(rest, s', def.table);
      }
      forall n | n in def.columns
        ensures n in Names(s'.tables[def.table])
      {
        var c :| c in Sweep(rest, s').tables[def.table] && c.name == n;
        ColumnsAreAdded(rest, s', def.table, c);
      }
    }
  }

  /** A column the list indexes is not new to the second sweep. */
  lemma IndexedIsNotNew(steps: seq<Step>, s: Schema, t: Name, n: Name, b: Step)
    requires WellOrdered(steps) && b in steps && IndexesColumn(b, t, n) && t in Sweep(steps, s).tables
    requires HasColumn(Sweep(steps, Sweep(steps, s)), t, n)
    ensures HasColumn(Sweep(steps, s), t, n)
  {
    var final := Sweep(steps, s);
    LastWordIsThere(steps, t, n);
    if LastWord(steps, t, n).None? {
      var c :| c in Sweep(steps, final).tables[t] && c.name == n;
      ColumnsAreAdded(steps, final, t, c);
    } else {
      var word := LastWord(steps, t, n).value;
      if word.DropColumn? {
        DroppedIsNotIndexed(steps, word);
      }
      CellIsReplayed(steps, s, t, n);
      ReplayFollowsLastWord(steps, Named(Origin(steps, s, t), n), t, n, Indexed(final, t, n));
      NamedMembers(final.tables[t], n);
    }
  }

  lemma SecondSweepKeepsIndexes(steps: seq<Step>, s: Schema)
    requires WellOrdered(steps)
    ensures Sweep(steps, Sweep(steps, s)).indexes == Sweep(steps, s).indexes
  {
    var final := Sweep(steps, s);
    var second := Sweep(steps, final);
    SweepGrows(steps, final);
    SecondSweepKeepsTables(steps, s);
    forall i | i in second.indexes
      ensures i in final.indexes
    {
      if i !in final.indexes {
        var def := second.indexes[i];
        IndexesAreCreated(steps, final, i);
        NewIndexIsBacked(steps, final, i);
        forall n | n in def.columns
          ensures n in Names(final.tables[def.table])
        {
          IndexedIsNotNew(steps, s, def.table, n, CreateIndex(i, def));
        }
        BackedIndexIsBuilt(steps, s, i, def);
      }
    }
  }

  /** An index is there after the sweep exactly if it was before, or the list has one of that
      name whose table and columns are there and whose name no table has. */
  lemma BuiltIndexes(steps: seq<Step>, s: Schema, i: Name)
    requires WellOrdered(steps)
    ensures i in Sweep(steps, s).indexes <==>
            i in s.indexes || exists def :: CreateIndex(i, def) in steps && Backed(Sweep(steps, s), i, def)
    ensures i in s.indexes ==> i in Sweep(steps, s).indexes && Sweep(steps, s).indexes[i] == s.indexes[i]
    ensures i in Sweep(steps, s).indexes && i !in s.indexes ==> CreateIndex(i, Sweep(steps, s).indexes[i]) in steps
  {
    SweepGrows(steps, s);
    if i in Sweep(steps, s).indexes && i !in s.indexes {
      IndexesAreCreated(steps, s, i);
      NewIndexIsBacked(steps, s, i);
    }
    if def :| CreateIndex(i, def) in steps && Backed(Sweep(steps, s), i, def) {
      BackedIndexIsBuilt(steps, s, i, def);
    }
  }

  lemma {:induction false} NamedCounts(cols: seq<Column>, c: Column)
    ensures multiset(cols)[c] == multiset(Named(cols, c.name))[c]
  {
    if cols != [] {
      NamedCounts(cols[1..], c);
      assert cols == [cols[0]] + cols[1..];
    }
  }

  lemma SameCellsSameColumns(xs: seq<Column>, ys: seq<Column>)
    requires forall n :: Named(xs, n) == Named(ys, n)
    ensures multiset(xs) == multiset(ys)
  {
    forall c: Column
      ensures multiset(xs)[c] == multiset(ys)[c]
    {
      NamedCounts(xs, c);
      NamedCounts(ys, c);
    }
  }

  /** One sweep converges, from any starting schema: a second one changes nothing but, at
      most, the order of columns. */
  lemma SweepConverges(steps: seq<Step>, s: Schema)
    requires WellOrdered(steps)
    ensures SameButOrder(Sweep(steps, Sweep(steps, s)), Sweep(steps, s))
  {
    var final := Sweep(steps, s);
    var second := Sweep(steps, final);
    SecondSweepKeepsTables(steps, s);
    SecondSweepKeepsIndexes(steps, s);
    forall t | t in final.tables
      ensures multiset(second.tables[t]) == multiset(final.tables[t])
    {
      forall n: Name
        ensures Named(second.tables[t], n) == Named(final.tables[t], n)
      {
        CellIsReplayed(steps, s, t, n);
        CellIsReplayed(steps, final, t, n);
        ReplayIsIdempotent(steps, Named(Origin(steps, s, t), n), t, n, Indexed(final, t, n));
      }
      SameCellsSameColumns(second.tables[t], final.tables[t]);
    }
  }

  /** A table the list creates is there after the sweep, unless an index has taken its name. */
  lemma {:induction false} CreatedTableIsThere(steps: seq<Step>, s: Schema, t: Name)
    requires t !in s.indexes && forall b :: b in steps && b.CreateIndex? ==> b.index != t
    ensures t in Sweep(steps, s).tables <==> t in s.tables || exists b :: b in steps && b.CreateTable? && b.table == t
  {
    if t in s.tables {
      SweepGrows(steps, s);
    } else if steps != [] {
      CreatedTableIsThere(steps[1..], Exec(steps[0], s).schema, t);
      if b :| b in steps && b.CreateTable? && b.table == t {
        assert b == steps[0] || b in steps[1..];
      }
    }
  }
}
