/**
 Boots of the database: the fingerprint record that lets `apply_migrations`
 skip the sweep, and why skipping is the same as sweeping (app/database.py).

 SHA-256 is any injective function, the text of a statement decides what it
 does to a schema, and sqlite_master tells two schemas apart. Given that, the
 joined texts that are hashed lose nothing, and over every run of boots,
 crashes and outside schema changes the fast path is taken only on a schema
 the full sweep would leave as it is, up to the order of columns if the list
 is one of those that need two sweeps to settle.
 */
module SchemaBoot {
  import opened SchemaSweep
  import opened ColumnOrder
  import opened Options
  import opened Text

  /** The pure helpers the fingerprints are built from. `dump` lists sqlite_master
      (name, normalised sql) in name order, without schema_state. */
  datatype Codec = Codec(hash: string -> string, text: Step -> string, dump: Schema -> seq<(string, string)>)

  // ------------------------------------------------------------ fingerprints

  /** "\n".join(lines) */
  function Join(lines: seq<string>): string {
    if lines == [] then "" else if |lines| == 1 then lines[0] else lines[0] + "\n" + Join(lines[1..])
  }

  function Lines<T>(f: T -> string, xs: seq<T>): (r: seq<string>)
    ensures |r| == |xs| && forall i :: 0 <= i < |xs| ==> r[i] == f(xs[i])
  {
    seq(|xs|, i requires 0 <= i < |xs| => f(xs[i]))
  }

  function RowText(row: (string, string)): string {
    row.0 + "=" + row.1
  }

  function MigrationsFingerprint(c: Codec, steps: seq<Step>): string {
    c.hash(Join(Lines(c.text, steps)))
  }

  function SchemaFingerprint(c: Codec, s: Schema): string {
    c.hash(Join(Lines(RowText, c.dump(s))))
  }

  ghost predicate OneLine(s: string) {
    s != "" && '\n' !in s
  }

  ghost predicate GoodRow(row: (string, string)) {
    '\n' !in row.0 && '=' !in row.0 && '\n' !in row.1
  }

  ghost predicate Faithful(c: Codec) {
    && (forall x, y :: c.hash(x) == c.hash(y) ==> x == y)
    && (forall a :: OneLine(c.text(a)))
    && (forall a, b, s :: c.text(a) == c.text(b) ==> Exec(a, s).schema == Exec(b, s).schema)
    && (forall s, i :: 0 <= i < |c.dump(s)| ==> GoodRow(c.dump(s)[i]))
    && (forall s, t :: c.dump(s) == c.dump(t) ==> s == t)
  }

  lemma JoinHead(lines: seq<string>)
    requires |lines| > 1
    ensures '\n' in Join(lines)
  {
  }

  /** Joining lines with a newline loses nothing. */
  lemma {:induction false} JoinInjective(xs: seq<string>, ys: seq<string>)
    requires forall i :: 0 <= i < |xs| ==> OneLine(xs[i])
    requires forall i :: 0 <= i < |ys| ==> OneLine(ys[i])
    requires Join(xs) == Join(ys)
    ensures xs == ys
  {
    if |xs| > 1 { JoinHead(xs); }
    if |ys| > 1 { JoinHead(ys); }
    if |xs| > 1 && |ys| > 1 {
      SplitOnce(xs[0], Join(xs[1..]), ys[0], Join(ys[1..]), '\n');
      JoinInjective(xs[1..], ys[1..]);
    }
  }

  /** Equal migration fingerprints mean lists that sweep every schema alike, and that
      agree on whether one sweep is enough. */
  lemma MigrationsFingerprintDecides(c: Codec, xs: seq<Step>, ys: seq<Step>, s: Schema)
    requires Faithful(c) && MigrationsFingerprint(c, xs) == MigrationsFingerprint(c, ys)
    ensures Sweep(xs, s) == Sweep(ys, s)
    ensures Settles(xs) <==> Settles(ys)
  {
    JoinInjective(Lines(c.text, xs), Lines(c.text, ys));
    assert forall i :: 0 <= i < |xs| ==> c.text(xs[i]) == c.text(ys[i]);
    SameTextsSweepAlike(c, xs, ys, s);
    if Settles(xs) {
      SameTextsSettleAlike(c, xs, ys);
    } else if Settles(ys) {
      SameTextsSettleAlike(c, ys, xs);
    }
  }

  /** A statement that acts like an ADD or a DROP on every schema is that ADD or DROP. */
  lemma SameEffectSameWord(a: Step, b: Step)
    requires forall s :: Exec(a, s).schema == Exec(b, s).schema
    ensures a.AddColumn? ==> Adds(b, a.table, a.name)
    ensures a.DropColumn? ==> Drops(b, a.table, a.name)
  {
    if a.AddColumn? {
      var s := Schema(map[a.table := []], map[]);
      var added := Exec(a, s).schema.tables[a.table];
      assert added[0].name == a.name && Exec(b, s).schema.tables[a.table] == added;
      assert b.AddColumn? && b.table == a.table && added == [] + [Column(b.name, b.decl, false)];
    } else if a.DropColumn? {
      var s := Schema(map[a.table := [Column(a.name, "", false)]], map[]);
      WithoutNames(s.tables[a.table], a.name);
      assert Column(a.name, "", false) in s.tables[a.table];
      assert Exec(b, s).schema == Exec(a, s).schema != s;
    }
  }

  lemma SameDrops(xs: seq<Step>, ys: seq<Step>, t: Name)
    requires |xs| == |ys| && forall m, n :: 0 <= m < |xs| ==> (Drops(xs[m], t, n) <==> Drops(ys[m], t, n))
    ensures DroppedNames(xs, t) <= DroppedNames(ys, t)
  {
    forall n | n in DroppedNames(xs, t)
      ensures n in DroppedNames(ys, t)
    {
      var m :| 0 <= m < |xs| && xs[m].DropColumn? && xs[m].table == t && xs[m].name == n;
      assert Drops(xs[m], t, n) && Drops(ys[m], t, n);
      assert ys[m] in ys;
    }
  }

  lemma SameTextsSettleAlike(c: Codec, xs: seq<Step>, ys: seq<Step>)
    requires Faithful(c) && |xs| == |ys| && Settles(xs)
    requires forall i :: 0 <= i < |xs| ==> c.text(xs[i]) == c.text(ys[i])
    ensures Settles(ys)
  {
    forall m | 0 <= m < |xs|
      ensures forall t, n :: Adds(xs[m], t, n) <==> Adds(ys[m], t, n)
      ensures forall t, n :: Drops(xs[m], t, n) <==> Drops(ys[m], t, n)
    {
      SameEffectSameWord(xs[m], ys[m]);
      SameEffectSameWord(ys[m], xs[m]);
    }
    forall t, e, d, i: nat, j: nat, k: nat | Unsettled(ys, t, e, d, i, j, k)
      ensures Unsettled(xs, t, e, d, i, j, k)
    {
      SameDrops(xs, ys, t);
    }
  }

  lemma {:induction false} SameTextsSweepAlike(c: Codec, xs: seq<Step>, ys: seq<Step>, s: Schema)
    requires Faithful(c) && |xs| == |ys|
    requires forall i :: 0 <= i < |xs| ==> c.text(xs[i]) == c.text(ys[i])
    ensures Sweep(xs, s) == Sweep(ys, s)
  {
    if xs != [] {
      SameTextsSweepAlike(c, xs[1..], ys[1..], Exec(xs[0], s).schema);
    }
  }

  /** Equal schema fingerprints mean equal schemas. */
  lemma SchemaFingerprintDecides(c: Codec, s: Schema, t: Schema)
    requires Faithful(c) && SchemaFingerprint(c, s) == SchemaFingerprint(c, t)
    ensures s == t
  {
    var xs, ys := c.dump(s), c.dump(t);
    var ls, ms := Lines(RowText, xs), Lines(RowText, ys);
    assert forall i :: 0 <= i < |xs| ==> OneLine(ls[i]);
    assert forall i :: 0 <= i < |ys| ==> OneLine(ms[i]);
    JoinInjective(ls, ms);
    forall i | 0 <= i < |xs|
      ensures xs[i] == ys[i]
    {
      SplitOnce(xs[i].0, xs[i].1, ys[i].0, ys[i].1, '=');
    }
  }

  // ------------------------------------------------------------------- a boot

  datatype Record = Record(schema: string, migrations: string)
  datatype Report = Report(skipped: bool, ran: nat, total: nat, already: nat, failed: nat)

  function Count(steps: seq<Step>, s: Schema, o: Outcome): nat {
    if steps == [] then 0
    else (if Exec(steps[0], s).outcome == o then 1 else 0) + Count(steps[1..], Exec(steps[0], s).schema, o)
  }

  /** The positions whose statement, met with the schema at that point, has that outcome. */
  function Positions(steps: seq<Step>, s: Schema, o: Outcome): set<nat> {
    set i: nat | 0 <= i < |steps| && Exec(steps[i], Sweep(steps[..i], s)).outcome == o
  }

  lemma PositionsSplit(steps: seq<Step>, s: Schema, o: Outcome)
    requires steps != []
    ensures Positions(steps, s, o) == (if Exec(steps[0], s).outcome == o then {0} else {})
            + Shifted(Positions(steps[1..], Exec(steps[0], s).schema, o))
  {
    var s', rest := Exec(steps[0], s).schema, steps[1..];
    var later := Shifted(Positions(rest, s', o));
    forall i: nat | 0 < i < |steps|
      ensures Sweep(steps[..i], s) == Sweep(rest[..i - 1], s')
    {
      assert steps[..i][1..] == rest[..i - 1];
    }
    forall i: nat | 0 < i < |steps|
      ensures i in Positions(steps, s, o) <==> i in later
    {
      assert steps[i] == rest[i - 1];
      assert i - 1 in Positions(rest, s', o) ==> i in later;
    }
    assert Sweep(steps[..0], s) == s;
  }

  /** Count counts them. */
  lemma {:induction false} CountIsPositions(steps: seq<Step>, s: Schema, o: Outcome)
    ensures Count(steps, s, o) == |Positions(steps, s, o)|
  {
    if steps != [] {
      var s', rest := Exec(steps[0], s).schema, steps[1..];
      CountIsPositions(rest, s', o);
      ShiftedSize(Positions(rest, s', o));
      PositionsSplit(steps, s, o);
    }
  }

  function Shifted(a: set<nat>): set<nat> {
    set i: nat | i in a :: i + 1
  }

  lemma {:induction false} ShiftedSize(a: set<nat>)
    ensures |Shifted(a)| == |a|
    decreases a
  {
    if x :| x in a {
      var rest := a - {x};
      ShiftedSize(rest);
      forall y: nat
        ensures y in Shifted(a) <==> y in Shifted(rest) || y == x + 1
      {
        assert y > 0 ==> (y - 1 in a <==> y - 1 in rest || y - 1 == x);
      }
      assert Shifted(a) == Shifted(a - {x}) + {x + 1};
    }
  }

  predicate FastPath(c: Codec, schema: Schema, record: Option<Record>, steps: seq<Step>) {
    record == Some(Record(SchemaFingerprint(c, schema), MigrationsFingerprint(c, steps)))
  }

  /** The database file: its schema and the one row of schema_state. */
  class Database {
    var schema: Schema
    var record: Option<Record>

    constructor (schema: Schema)
      ensures this.schema == schema && record == None
    {
      this.schema, record := schema, None;
    }

    method ApplyMigrations(c: Codec, steps: seq<Step>) returns (report: Report)
      modifies this
      ensures report.skipped <==> FastPath(c, old(schema), old(record), steps)
      ensures report.total == |steps|
      ensures report.skipped ==> schema == old(schema) && record == old(record)
                                 && report.ran == report.already == report.failed == 0
      ensures !report.skipped ==>
                && schema == Sweep(steps, old(schema))
                && record == Some(Record(SchemaFingerprint(c, schema), MigrationsFingerprint(c, steps)))
                && report.ran == Count(steps, old(schema), Ran)
                && report.already == Count(steps, old(schema), Already)
                && report.failed == Count(steps, old(schema), Failed)
                && report.ran + report.already + report.failed == report.total
    {
      var want, have := MigrationsFingerprint(c, steps), SchemaFingerprint(c, schema);
      if record == Some(Record(have, want)) {
        return Report(true, 0, |steps|, 0, 0);
      }
      var ran, already, failed := 0, 0, 0;
      for i := 0 to |steps|
        invariant Sweep(steps[i..], schema) == Sweep(steps, old(schema))
        invariant ran + already + failed == i
        invariant ran + Count(steps[i..], schema, Ran) == Count(steps, old(schema), Ran)
        invariant already + Count(steps[i..], schema, Already) == Count(steps, old(schema), Already)
        invariant failed + Count(steps[i..], schema, Failed) == Count(steps, old(schema), Failed)
        invariant record == old(record)
      {
        var result := Exec(steps[i], schema);
        schema := result.schema;
        match result.outcome {
          case Ran => ran := ran + 1;
          case Already => already := already + 1;
          case Failed => failed := failed + 1;
        }
      }
      record := Some(Record(SchemaFingerprint(c, schema), want));
      return Report(false, ran, |steps|, already, failed);
    }
  }

  // ---------------------------------------------------------- runs of boots

  datatype World = World(schema: Schema, record: Option<Record>)

  /** A boot may finish, or die after some statements and before the record is
      written. In between, anything may happen to the schema, or the file may be
      replaced by another one that the same program wrote. */
  datatype Event =
    | Boot(steps: seq<Step>)
    | DiedAfter(steps: seq<Step>, done: nat)
    | OutsideChange(schema: Schema)
    | Restored(world: World)

  ghost function Next(c: Codec, w: World, e: Event): World {
    match e
    case Boot(steps) =>
      if FastPath(c, w.schema, w.record, steps) then w
      else
        var s := Sweep(steps, w.schema);
        World(s, Some(Record(SchemaFingerprint(c, s), MigrationsFingerprint(c, steps))))
    case DiedAfter(steps, done) => World(Sweep(if done <= |steps| then steps[..done] else steps, w.schema), w.record)
    case OutsideChange(s) => World(s, w.record)
    case Restored(v) => v
  }

  ghost function After(c: Codec, w: World, es: seq<Event>): World
    decreases |es|
  {
    if es == [] then w else After(c, Next(c, w, es[0]), es[1..])
  }

  /** The record, if any, was written by a finished sweep of a well-ordered list. With
      `sound`, the run has only met schemas whose indexes have their columns. */
  ghost predicate Honest(c: Codec, record: Option<Record>, sound: bool) {
    record.Some? ==> exists steps, s :: WrittenBy(c, record.value, steps, s, sound)
  }

  ghost predicate WrittenBy(c: Codec, r: Record, steps: seq<Step>, s: Schema, sound: bool) {
    && WellOrdered(steps)
    && (sound ==> Sound(s))
    && r == Record(SchemaFingerprint(c, Sweep(steps, s)), MigrationsFingerprint(c, steps))
  }

  ghost predicate Trusted(c: Codec, w: World, sound: bool) {
    Honest(c, w.record, sound) && (sound ==> Sound(w.schema))
  }

  ghost predicate Possible(c: Codec, e: Event, sound: bool) {
    match e
    case Boot(steps) => WellOrdered(steps)
    case DiedAfter(_, _) => true
    case OutsideChange(s) => sound ==> Sound(s)
    case Restored(v) => Trusted(c, v, sound)
  }

  lemma NextStaysTrusted(c: Codec, w: World, e: Event, sound: bool)
    requires Trusted(c, w, sound) && Possible(c, e, sound)
    ensures Trusted(c, Next(c, w, e), sound)
  {
    if e.Boot? && !FastPath(c, w.schema, w.record, e.steps) {
      assert WrittenBy(c, Next(c, w, e).record.value, e.steps, w.schema, sound);
    }
    if sound {
      match e {
        case Boot(steps) => SweepKeepsSound(steps, w.schema);
        case DiedAfter(steps, done) =>
          SweepKeepsSound(if done <= |steps| then steps[..done] else steps, w.schema);
        case _ =>
      }
    }
  }

  lemma {:induction false} RecordStaysHonest(c: Codec, w: World, es: seq<Event>, sound: bool)
    requires Trusted(c, w, sound) && forall i :: 0 <= i < |es| ==> Possible(c, es[i], sound)
    ensures Trusted(c, After(c, w, es), sound)
    decreases |es|
  {
    if es != [] {
      NextStaysTrusted(c, w, es[0], sound);
      RecordStaysHonest(c, Next(c, w, es[0]), es[1..], sound);
    }
  }

  /** Skipping is the same as sweeping: after any run, whenever a boot takes the fast path,
      the full sweep of its list would change nothing but, at most, the order of columns,
      and over sound schemas not even that if the list settles. */
  lemma SkippingIsSweeping(c: Codec, w: World, es: seq<Event>, steps: seq<Step>, sound: bool)
    requires Faithful(c) && Trusted(c, w, sound) && forall i :: 0 <= i < |es| ==> Possible(c, es[i], sound)
    requires FastPath(c, After(c, w, es).schema, After(c, w, es).record, steps)
    ensures SameButOrder(Sweep(steps, After(c, w, es).schema), After(c, w, es).schema)
    ensures sound && Settles(steps) ==> Sweep(steps, After(c, w, es).schema) == After(c, w, es).schema
  {
    RecordStaysHonest(c, w, es, sound);
    var v := After(c, w, es);
    var steps', s :| WrittenBy(c, v.record.value, steps', s, sound);
    SchemaFingerprintDecides(c, v.schema, Sweep(steps', s));
    MigrationsFingerprintDecides(c, steps, steps', v.schema);
    SweepConverges(steps', s);
    if sound && Settles(steps) {
      SettlesOnSound(steps', s);
    }
  }

  /** And only then: for a list that does not settle there is a fresh file on which the first
      boot sweeps, the second skips, and sweeping would have moved a column. */
  lemma SkippingMayLag(c: Codec, steps: seq<Step>) returns (w: World)
    requires Faithful(c) && WellOrdered(steps) && !Settles(steps)
    ensures Sound(w.schema) && w.record == None
    ensures var v := Next(c, w, Boot(steps));
            FastPath(c, v.schema, v.record, steps) && Sweep(steps, v.schema) != v.schema
  {
    var t, e, d, i: nat, j: nat, k: nat :| Unsettled(steps, t, e, d, i, j, k);
    UnsettledReorders(steps, t, e, d, i, j, k);
    w := World(EmptyTable(t), None);
  }

  /** A finished boot makes the next one fast, unless the list or the schema changed:
      with faithful fingerprints the next boot skips only if the sweep had nothing to do. */
  lemma FinishedBootThenSkips(c: Codec, w: World, steps: seq<Step>, s: Schema, steps': seq<Step>)
    requires Faithful(c) && !FastPath(c, w.schema, w.record, steps)
    ensures var v := Next(c, Next(c, w, Boot(steps)), OutsideChange(s));
            && (s == Sweep(steps, w.schema) ==> FastPath(c, v.schema, v.record, steps))
            && (s != Sweep(steps, w.schema) ==> !FastPath(c, v.schema, v.record, steps'))
  {
    var v := Next(c, Next(c, w, Boot(steps)), OutsideChange(s));
    if FastPath(c, v.schema, v.record, steps') {
      SchemaFingerprintDecides(c, s, Sweep(steps, w.schema));
    }
  }
}
