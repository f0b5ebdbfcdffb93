/**
 One transcript per (user, meeting): the dedupe that runs just before the
 unique index is created (app/database.py, v41).

 The single DELETE is `Survivors`. The method deletes losing rows one at a
 time, whichever it meets first, and is proved to end in the same table, on
 which the unique index cannot fail.
 */
module TranscriptDedupe {

  type RowId = nat

  datatype Row = Row(user: string, meeting: string, createdAt: int, transcript: string)

  type Table = map<RowId, Row>

  predicate SameMeeting(t: Table, a: RowId, b: RowId)
    requires a in t && b in t
  {
    t[a].user == t[b].user && t[a].meeting == t[b].meeting
  }

  /** `a` is the later of two rows: by created_at, ties by rowid. */
  predicate Later(t: Table, a: RowId, b: RowId)
    requires a in t && b in t
  {
    t[a].createdAt > t[b].createdAt || (t[a].createdAt == t[b].createdAt && a > b)
  }

  predicate Beats(t: Table, a: RowId, b: RowId) {
    a in t && b in t && SameMeeting(t, a, b) && Later(t, a, b)
  }

  predicate Loses(t: Table, r: RowId) {
    exists o :: o in t && Beats(t, o, r)
  }

  /** The table after the one DELETE statement. */
  function Survivors(t: Table): Table {
    map r | r in t && !Loses(t, r) :: t[r]
  }

  predicate OnePerMeeting(t: Table) {
    forall a, b :: a in t && b in t && SameMeeting(t, a, b) ==> a == b
  }

  /** The rows that beat a given row; it shrinks as the row gets later. */
  function Above(t: Table, r: RowId): set<RowId> {
    set o | o in t && Beats(t, o, r)
  }

  /** Every row has a surviving row of its meeting that no row beats. */
  lemma {:induction false} SurvivorAbove(t: Table, r: RowId) returns (w: RowId)
    requires r in t
    ensures w in Survivors(t) && SameMeeting(t, w, r) && (w == r || Beats(t, w, r))
    decreases |Above(t, r)|
  {
    if !Loses(t, r) {
      w := r;
    } else {
      var o :| o in t && Beats(t, o, r);
      SubsetIsSmaller(Above(t, o), Above(t, r), o);
      w := SurvivorAbove(t, o);
    }
  }

  lemma SubsetIsSmaller(a: set<RowId>, b: set<RowId>, x: RowId)
    requires a <= b && x in b && x !in a
    ensures |a| < |b|
  {
    assert a <= b - {x};
    SubsetIsNoLarger(a, b - {x});
  }

  lemma {:induction false} SubsetIsNoLarger(a: set<RowId>, b: set<RowId>)
    requires a <= b
    ensures |a| <= |b|
  {
    if a != {} {
      var x :| x in a;
      SubsetIsNoLarger(a - {x}, b - {x});
    }
  }

  /** Deleting one losing row does not change who survives. */
  lemma LoserIsIrrelevant(t: Table, r: RowId)
    requires r in t && Loses(t, r)
    ensures Survivors(t - {r}) == Survivors(t)
  {
    var t' := t - {r};
    forall x | x in t'
      ensures Loses(t', x) <==> Loses(t, x)
    {
      if Loses(t, x) {
        var w := SurvivorAbove(t, x);
        assert w in t' && Beats(t', w, x);
      }
      if Loses(t', x) {
        var o :| o in t' && Beats(t', o, x);
      }
    }
  }

  /** Deleting row after row, each one losing at the time. */
  ghost predicate DeletesLosers(t: Table, order: seq<RowId>) {
    order == [] || (order[0] in t && Loses(t, order[0]) && DeletesLosers(t - {order[0]}, order[1..]))
  }

  ghost function Deleted(t: Table, order: seq<RowId>): Table {
    if order == [] then t else Deleted(t - {order[0]}, order[1..])
  }

  ghost predicate Settled(t: Table) {
    forall r :: r in t ==> !Loses(t, r)
  }

  /** The order of deletion does not matter: when no row loses any more, what is
      left is what the single statement leaves, after as many deletions. */
  lemma {:induction false} AnyOrderEndsInSurvivors(t: Table, order: seq<RowId>)
    requires DeletesLosers(t, order) && Settled(Deleted(t, order))
    ensures Deleted(t, order) == Survivors(t)
    ensures |t| == |Survivors(t)| + |order|
    decreases |order|
  {
    if order != [] {
      LoserIsIrrelevant(t, order[0]);
      AnyOrderEndsInSurvivors(t - {order[0]}, order[1..]);
      OneRowFewer(t, order[0]);
    }
  }

  lemma OneRowFewer(t: Table, r: RowId)
    requires r in t
    ensures |t - {r}| == |t| - 1
  {
  }

  /** Exactly one row per user and meeting survives, unchanged: the latest by created_at, and
      among equals the one with the highest rowid. */
  lemma SurvivorIsTheLatest(t: Table, r: RowId)
    requires r in t
    ensures forall a, b :: a in Survivors(t) && b in Survivors(t) ==>
              t[a].user == t[b].user && t[a].meeting == t[b].meeting ==> a == b
    ensures exists w :: w in Survivors(t) && w in t && Survivors(t)[w] == t[w]
                        && IsLatest(t, w, t[r].user, t[r].meeting)
  {
    SurvivorsAreUnique(t);
    assert forall a, b :: a in Survivors(t) && b in Survivors(t) && a != b ==> !SameMeeting(Survivors(t), a, b);
    var w := SurvivorAbove(t, r);
    assert forall x :: x in t && SameMeeting(t, x, r) ==> x == w || Beats(t, w, x);
  }

  ghost predicate IsLatest(t: Table, w: RowId, user: string, meeting: string) {
    && w in t && t[w].user == user && t[w].meeting == meeting
    && forall x :: x in t && t[x].user == user && t[x].meeting == meeting ==>
         t[x].createdAt < t[w].createdAt || (t[x].createdAt == t[w].createdAt && x <= w)
  }

  lemma SurvivorsAreUnique(t: Table)
    ensures OnePerMeeting(Survivors(t))
  {
  }

  /** The meeting_transcripts table and whether it has its unique index. */
  class Transcripts {
    var rows: Table
    var uniqueIndex: bool

    constructor (rows: Table)
      ensures this.rows == rows && !uniqueIndex
    {
      this.rows, uniqueIndex := rows, false;
    }

    /** CREATE UNIQUE INDEX fails on a duplicate. */
    method CreateUniqueIndex() returns (ok: bool)
      modifies this`uniqueIndex
      ensures ok <==> OnePerMeeting(rows)
      ensures uniqueIndex == (ok || old(uniqueIndex))
    {
      ok := forall a, b :: a in rows.Keys && b in rows.Keys && SameMeeting(rows, a, b) ==> a == b;
      uniqueIndex := uniqueIndex || ok;
    }

    method DeleteLosers() returns (deleted: nat)
      modifies this`rows
      ensures rows == Survivors(old(rows))
      ensures deleted == |old(rows)| - |rows|
    {
      deleted := 0;
      while exists r :: r in rows.Keys && Loses(rows, r)
        invariant Survivors(rows) == Survivors(old(rows))
        invariant deleted + |rows| == |old(rows)|
        decreases |rows|
      {
        var r :| r in rows.Keys && Loses(rows, r);
        LoserIsIrrelevant(rows, r);
        assert (rows - {r}).Keys == rows.Keys - {r};
        rows := rows - {r};
        deleted := deleted + 1;
      }
    }

    /** The v41 step: the index is always created, and rows are lost only if some
        meeting had two. */
    method DedupeThenIndex() returns (deleted: nat)
      modifies this
      ensures rows == Survivors(old(rows)) && uniqueIndex
      ensures deleted == |old(rows)| - |rows|
      ensures deleted == 0 <==> OnePerMeeting(old(rows))
    {
      deleted := DeleteLosers();
      SurvivorsAreUnique(old(rows));
      NothingLostIffUnique(old(rows));
      var ok := CreateUniqueIndex();
    }
  }

  lemma NothingLostIffUnique(t: Table)
    ensures |Survivors(t)| == |t| <==> OnePerMeeting(t)
  {
    if Survivors(t).Keys != t.Keys {
      var x :| x in t.Keys && x !in Survivors(t).Keys;
      SubsetIsSmaller(Survivors(t).Keys, t.Keys, x);
      var o :| o in t && Beats(t, o, x);
    }
  }
}
