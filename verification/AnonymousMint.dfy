/**
 Anonymous accounts (app/routers/auth.py): the subject an install is known by,
 and the read / try-insert / re-read sequence that mints its account while
 other requests for the same install may be anywhere in the same sequence,
 accounts are closed by merges, and anonymous accounts become Apple accounts.
 */
module AnonymousMint {
  import opened Options
  import opened Text

  // -------------------------------------------------------------- the subject

  /** SHA-256, and strip().lower() on the install id. */
  datatype Codec = Codec(hash: string -> string, norm: string -> string)

  ghost predicate Injective(hash: string -> string) {
    forall x, y :: hash(x) == hash(y) ==> x == y
  }

  const PREFIX := "anonymous:"
  const FIRST_APP := "shouldersurf"

  function SubjectKey(c: Codec, install: string, app: string): string {
    if app == FIRST_APP then c.norm(install) else app + ":" + c.norm(install)
  }

  /** anonymous_sub: namespaced by app for every app after the first. */
  function Subject(c: Codec, install: string, app: string): string {
    PREFIX + c.hash(SubjectKey(c, install, app))
  }

  /** The text that is hashed: the folded install id, behind the app's name for every app but
      the first. */
  lemma SubjectSpelled(c: Codec, install: string, app: string)
    ensures Subject(c, install, "shouldersurf") == "anonymous:" + c.hash(c.norm(install))
    ensures app != "shouldersurf" ==> Subject(c, install, app) == "anonymous:" + c.hash(app + ":" + c.norm(install))
  {
  }

  /** A request the endpoint accepts: neither an app id nor a UUID contains a colon. */
  ghost predicate Acceptable(c: Codec, install: string, app: string) {
    ':' !in c.norm(install) && ':' !in app
  }

  /** Two requests name the same subject exactly when the app and the folded install id agree. */
  lemma SameSubjectIffSameInstall(c: Codec, i1: string, a1: string, i2: string, a2: string)
    requires Injective(c.hash) && Acceptable(c, i1, a1) && Acceptable(c, i2, a2)
    ensures Subject(c, i1, a1) == Subject(c, i2, a2) <==> a1 == a2 && c.norm(i1) == c.norm(i2)
  {
    var k1, k2 := SubjectKey(c, i1, a1), SubjectKey(c, i2, a2);
    if Subject(c, i1, a1) == Subject(c, i2, a2) {
      assert c.hash(k1) == Subject(c, i1, a1)[|PREFIX|..] == c.hash(k2);
      if a1 != FIRST_APP && a2 != FIRST_APP {
        SplitOnce(a1, c.norm(i1), a2, c.norm(i2), ':');
      }
    }
  }

  // ----------------------------------------------------------------- the race

  datatype Row = Row(id: string, sub: string, active: bool)

  /** Where a mint request is. Answered carries the account id the response names. */
  datatype Phase =
    | Reading(sub: string)
    | Inserting(sub: string, newId: string)
    | Rereading(sub: string)
    | Answered(sub: string, id: string)
    | Gone(sub: string)      // 410: the account was closed by a merge
    | Crashed(sub: string)   // no row after all: the handler fails

  /** `born` records the subject each row was first stored with. */
  datatype World = World(rows: seq<Row>, born: map<string, string>, requests: map<nat, Phase>)

  /** Convert is the sign-in that turns an anonymous row into an Apple account, in place. */
  datatype Action =
    | Arrive(request: nat, sub: string)
    | Read(request: nat, newId: string)
    | TryInsert(request: nat)
    | Reread(request: nat)
    | Close(id: string)
    | Convert(id: string, sub: string)

  /** The subject of an install. Apple's own subjects do not look like this. */
  predicate Anonymous(sub: string) {
    PREFIX <= sub
  }

  predicate TakenId(rows: seq<Row>, id: string) {
    exists i :: 0 <= i < |rows| && rows[i].id == id
  }

  predicate TakenSub(rows: seq<Row>, sub: string) {
    exists i :: 0 <= i < |rows| && rows[i].sub == sub
  }

  /** SELECT ... WHERE apple_sub = ? */
  function Select(rows: seq<Row>, sub: string): (r: Option<Row>)
    ensures r.Some? <==> TakenSub(rows, sub)
    ensures r.Some? ==> r.value in rows && r.value.sub == sub
  {
    if rows == [] then None
    else if rows[0].sub == sub then Some(rows[0])
    else
      assert forall i :: 0 < i < |rows| ==> rows[i] == rows[1..][i - 1];
      Select(rows[1..], sub)
  }

  function Closed(rows: seq<Row>, id: string): (r: seq<Row>)
    ensures |r| == |rows|
    ensures forall i :: 0 <= i < |r| ==> r[i].id == rows[i].id && r[i].sub == rows[i].sub
    ensures forall i :: 0 <= i < |r| ==> (r[i].active <==> rows[i].active && rows[i].id != id)
  {
    seq(|rows|, i requires 0 <= i < |rows| => if rows[i].id == id then rows[i].(active := false) else rows[i])
  }

  function Converted(rows: seq<Row>, id: string, sub: string): (r: seq<Row>)
    ensures |r| == |rows|
    ensures forall i :: 0 <= i < |r| ==> r[i].id == rows[i].id && r[i].active == rows[i].active
    ensures forall i :: 0 <= i < |r| ==> r[i].sub == if rows[i].id == id then sub else rows[i].sub
  {
    seq(|rows|, i requires 0 <= i < |rows| => if rows[i].id == id then rows[i].(sub := sub) else rows[i])
  }

  function Answer(found: Option<Row>, sub: string): Phase {
    match found
    case None => Crashed(sub)
    case Some(row) => if row.active then Answered(sub, row.id) else Gone(sub)
  }

  /** One step; a step the request is not ready for, or that a UNIQUE column refuses, does nothing. */
  function Next(w: World, a: Action): World {
    match a
    case Arrive(t, sub) =>
      if t in w.requests || !Anonymous(sub) then w else w.(requests := w.requests[t := Reading(sub)])
    case Close(id) => w.(rows := Closed(w.rows, id))
    case Convert(id, sub) =>
      if Anonymous(sub) || TakenSub(w.rows, sub) then w else w.(rows := Converted(w.rows, id, sub))
    case Read(t, newId) =>
      if t !in w.requests || !w.requests[t].Reading? then w
      else
        var sub := w.requests[t].sub;
        var found := Select(w.rows, sub);
        w.(requests := w.requests[t := if found.None? then Inserting(sub, newId) else Answer(found, sub)])
    case TryInsert(t) =>
      if t !in w.requests || !w.requests[t].Inserting? then w
      else
        var p := w.requests[t];
        Inserted(w, p.newId, p.sub).(requests := w.requests[t := Rereading(p.sub)])
    case Reread(t) =>
      if t !in w.requests || !w.requests[t].Rereading? then w
      else
        var sub := w.requests[t].sub;
        w.(requests := w.requests[t := Answer(Select(w.rows, sub), sub)])
  }

  function Inserted(w: World, id: string, sub: string): World {
    if TakenId(w.rows, id) || TakenSub(w.rows, sub) then w
    else w.(rows := w.rows + [Row(id, sub, true)], born := w.born[id := sub])
  }

  function Run(w: World, actions: seq<Action>): World
    decreases |actions|
  {
    if actions == [] then w else Run(Next(w, actions[0]), actions[1..])
  }

  // ------------------------------------------------------------- what is kept

  /** The UNIQUE columns of the users table. */
  ghost predicate Unique(rows: seq<Row>) {
    forall i, j :: 0 <= i < j < |rows| ==> rows[i].id != rows[j].id && rows[i].sub != rows[j].sub
  }

  ghost predicate Minted(rows: seq<Row>, id: string, sub: string) {
    exists i :: 0 <= i < |rows| && rows[i].id == id && rows[i].sub == sub
  }

  /** A row under an install's subject was born under it. */
  ghost predicate GoodRow(w: World, row: Row) {
    row.id in w.born && (Anonymous(row.sub) ==> w.born[row.id] == row.sub)
  }

  ghost predicate GoodRequest(w: World, p: Phase) {
    Anonymous(p.sub) && (p.Answered? ==> p.id in w.born && w.born[p.id] == p.sub)
  }

  ghost predicate Inv(w: World) {
    && Unique(w.rows)
    && (forall id :: id in w.born <==> TakenId(w.rows, id))
    && (forall i :: 0 <= i < |w.rows| ==> GoodRow(w, w.rows[i]))
    && (forall t :: t in w.requests ==> GoodRequest(w, w.requests[t]))
  }

  lemma AnswerIsGood(w: World, sub: string)
    requires Inv(w) && Anonymous(sub)
    ensures GoodRequest(w, Answer(Select(w.rows, sub), sub))
  {
    var found := Select(w.rows, sub);
    if found.Some? {
      var i :| 0 <= i < |w.rows| && w.rows[i] == found.value;
      assert GoodRow(w, w.rows[i]);
    }
  }

  lemma RequestKeepsInv(w: World, t: nat, p: Phase)
    requires Inv(w) && GoodRequest(w, p)
    ensures Inv(w.(requests := w.requests[t := p]))
  {
  }

  lemma RenamingKeepsInv(w: World, rows: seq<Row>)
    requires Inv(w) && |rows| == |w.rows| && Unique(rows)
    requires forall i :: 0 <= i < |rows| ==>
               rows[i].id == w.rows[i].id && (rows[i].sub == w.rows[i].sub || !Anonymous(rows[i].sub))
    ensures Inv(w.(rows := rows))
  {
    forall id
      ensures TakenId(rows, id) <==> TakenId(w.rows, id)
    {
      if TakenId(w.rows, id) {
        var i :| 0 <= i < |w.rows| && w.rows[i].id == id;
        assert rows[i].id == id;
      }
    }
    forall i | 0 <= i < |rows|
      ensures GoodRow(w, rows[i])
    {
      assert GoodRow(w, w.rows[i]);
    }
  }

  lemma InsertKeepsInv(w: World, id: string, sub: string)
    requires Inv(w)
    ensures Inv(Inserted(w, id, sub))
  {
    var v := Inserted(w, id, sub);
    if v != w {
      assert id !in w.born;
      forall k
        ensures TakenId(v.rows, k) <==> TakenId(w.rows, k) || k == id
      {
        assert v.rows[|w.rows|].id == id;
        if TakenId(w.rows, k) {
          var i :| 0 <= i < |w.rows| && w.rows[i].id == k;
          assert v.rows[i].id == k;
        }
      }
      forall i | 0 <= i < |v.rows|
        ensures GoodRow(v, v.rows[i])
      {
        if i < |w.rows| {
          assert GoodRow(w, w.rows[i]) && TakenId(w.rows, w.rows[i].id);
        }
      }
      forall t | t in w.requests
        ensures GoodRequest(v, w.requests[t])
      {
        assert GoodRequest(w, w.requests[t]);
      }
    }
  }

  lemma RowStepKeepsInv(w: World, a: Action)
    requires Inv(w) && (a.Close? || a.Convert?)
    ensures Inv(Next(w, a))
  {
    if a.Close? {
      RenamingKeepsInv(w, Closed(w.rows, a.id));
    } else if !Anonymous(a.sub) && !TakenSub(w.rows, a.sub) {
      RenamingKeepsInv(w, Converted(w.rows, a.id, a.sub));
    }
  }

  lemma RequestStepKeepsInv(w: World, a: Action, t: nat)
    requires Inv(w) && t in w.requests && (a == Reread(t) || (a.Read? && a.request == t) || a == TryInsert(t))
    ensures Inv(Next(w, a))
  {
    var p := w.requests[t];
    assert GoodRequest(w, p);
    if a.TryInsert? && p.Inserting? {
      InsertKeepsInv(w, p.newId, p.sub);
      RequestKeepsInv(Inserted(w, p.newId, p.sub), t, Rereading(p.sub));
    } else if !a.TryInsert? {
      AnswerIsGood(w, p.sub);
      RequestKeepsInv(w, t, Answer(Select(w.rows, p.sub), p.sub));
      if a.Read? {
        RequestKeepsInv(w, t, Inserting(p.sub, a.newId));
      }
    }
  }

  lemma StepKeepsInv(w: World, a: Action)
    requires Inv(w)
    ensures Inv(Next(w, a))
  {
    if a.Close? || a.Convert? {
      RowStepKeepsInv(w, a);
    } else if a.Arrive? {
      if Anonymous(a.sub) {
        RequestKeepsInv(w, a.request, Reading(a.sub));
      }
    } else if a.request in w.requests {
      RequestStepKeepsInv(w, a, a.request);
    }
  }

  lemma {:induction false} RunKeepsInv(w: World, actions: seq<Action>)
    requires Inv(w)
    ensures Inv(Run(w, actions))
    decreases |actions|
  {
    if actions != [] {
      StepKeepsInv(w, actions[0]);
      RunKeepsInv(Next(w, actions[0]), actions[1..]);
    }
  }

  // --------------------------------------------------------------- the answers

  predicate HasAnswer(w: World, t: nat) {
    t in w.requests && w.requests[t].Answered?
  }

  predicate Converts(actions: seq<Action>, id: string) {
    exists i :: 0 <= i < |actions| && actions[i].Convert? && actions[i].id == id
  }

  lemma ConvertsSplit(actions: seq<Action>, id: string)
    requires actions != []
    ensures Converts(actions, id) <==> (actions[0].Convert? && actions[0].id == id) || Converts(actions[1..], id)
  {
    var rest := actions[1..];
    assert forall i :: 0 <= i < |rest| ==> rest[i] == actions[i + 1];
    assert forall i :: 0 < i < |actions| ==> actions[i] == rest[i - 1];
  }

  /** What a request was answered is still what the table says. */
  ghost predicate Current(w: World, t: nat)
    requires HasAnswer(w, t)
  {
    Minted(w.rows, w.requests[t].id, w.requests[t].sub)
  }

  lemma StepKeepsRow(w: World, a: Action, id: string, sub: string)
    requires Minted(w.rows, id, sub) && !(a.Convert? && a.id == id)
    ensures Minted(Next(w, a).rows, id, sub)
  {
    var i :| 0 <= i < |w.rows| && w.rows[i].id == id && w.rows[i].sub == sub;
    var rows := Next(w, a).rows;
    assert rows[i].id == id && rows[i].sub == sub;
  }

  /** A new answer names the row that is there. */
  lemma NewAnswerIsCurrent(w: World, a: Action, t: nat)
    requires HasAnswer(Next(w, a), t)
    ensures (HasAnswer(w, t) && w.requests[t] == Next(w, a).requests[t])
            || (Next(w, a).rows == w.rows && Current(Next(w, a), t))
  {
    var v := Next(w, a);
    if !HasAnswer(w, t) {
      var row := Select(w.rows, v.requests[t].sub).value;
      var i :| 0 <= i < |w.rows| && w.rows[i] == row;
      assert v.rows[i].id == v.requests[t].id;
    }
  }

  lemma {:induction false} UnconvertedStaysCurrent(w: World, actions: seq<Action>, t: nat)
    requires HasAnswer(w, t) ==> Current(w, t)
    requires HasAnswer(Run(w, actions), t) && !Converts(actions, Run(w, actions).requests[t].id)
    ensures Current(Run(w, actions), t)
    decreases |actions|
  {
    if actions != [] {
      var a, v := actions[0], Next(w, actions[0]);
      var id := Run(w, actions).requests[t].id;
      AnswersLast(w, actions, t);
      ConvertsSplit(actions, id);
      if HasAnswer(v, t) {
        AnswersLast(v, actions[1..], t);
        NewAnswerIsCurrent(w, a, t);
        if HasAnswer(w, t) {
          StepKeepsRow(w, a, w.requests[t].id, w.requests[t].sub);
        }
      }
      UnconvertedStaysCurrent(v, actions[1..], t);
    }
  }

  /** A request is answered once. */
  lemma {:induction false} AnswersLast(w: World, actions: seq<Action>, t: nat)
    ensures HasAnswer(w, t) ==> HasAnswer(Run(w, actions), t) && Run(w, actions).requests[t] == w.requests[t]
    decreases |actions|
  {
    if actions != [] {
      AnswersLast(Next(w, actions[0]), actions[1..], t);
    }
  }

  /** Over every run, conversions included, each subject has at most one row, and an account
      is never given to two installs. */
  lemma OneSubjectPerAccount(w: World, actions: seq<Action>, s: nat, t: nat)
    requires Inv(w)
    ensures var v := Run(w, actions);
            && Unique(v.rows)
            && (HasAnswer(v, s) && HasAnswer(v, t) && v.requests[s].id == v.requests[t].id ==>
                  v.requests[s].sub == v.requests[t].sub)
  {
    RunKeepsInv(w, actions);
    var v := Run(w, actions);
    if HasAnswer(v, s) && HasAnswer(v, t) {
      assert GoodRequest(v, v.requests[s]) && GoodRequest(v, v.requests[t]);
    }
  }

  /** Over every interleaving of mint requests, closings and conversions, two answered requests
      name the same account exactly when they ask for the same subject, as long as
      neither of the accounts they name was converted in the run. */
  lemma MintIsIdempotent(w: World, actions: seq<Action>, s: nat, t: nat)
    requires Inv(w) && (HasAnswer(w, s) ==> Current(w, s)) && (HasAnswer(w, t) ==> Current(w, t))
    ensures var v := Run(w, actions);
            HasAnswer(v, s) && HasAnswer(v, t)
            && !Converts(actions, v.requests[s].id) && !Converts(actions, v.requests[t].id) ==>
              (v.requests[s].id == v.requests[t].id <==> v.requests[s].sub == v.requests[t].sub)
  {
    OneSubjectPerAccount(w, actions, s, t);
    var v := Run(w, actions);
    if HasAnswer(v, s) && HasAnswer(v, t)
       && !Converts(actions, v.requests[s].id) && !Converts(actions, v.requests[t].id) {
      UnconvertedStaysCurrent(w, actions, s);
      UnconvertedStaysCurrent(w, actions, t);
    }
  }

  /** What the table holds for a subject is what every later request for it is told, until that
      account is converted. */
  lemma {:induction false} AnswersAgreeUntilConverted(w: World, actions: seq<Action>, id: string, sub: string, t: nat)
    requires Inv(w) && Minted(w.rows, id, sub) && !HasAnswer(w, t) && !Converts(actions, id)
    ensures var v := Run(w, actions);
            HasAnswer(v, t) ==> (v.requests[t].id == id <==> v.requests[t].sub == sub)
    decreases |actions|
  {
    if actions != [] {
      var a, v := actions[0], Next(w, actions[0]);
      StepKeepsInv(w, a);
      ConvertsSplit(actions, id);
      StepKeepsRow(w, a, id, sub);
      if HasAnswer(v, t) {
        NewAnswerIsCurrent(w, a, t);
        AnswersLast(v, actions[1..], t);
      } else {
        AnswersAgreeUntilConverted(v, actions[1..], id, sub, t);
      }
    }
  }

  /** The account carries a subject of Apple's. */
  ghost predicate IsApple(rows: seq<Row>, id: string) {
    exists i :: 0 <= i < |rows| && rows[i].id == id && !Anonymous(rows[i].sub)
  }

  lemma StepKeepsApple(w: World, a: Action, id: string)
    requires IsApple(w.rows, id)
    ensures IsApple(Next(w, a).rows, id)
  {
    var i :| 0 <= i < |w.rows| && w.rows[i].id == id && !Anonymous(w.rows[i].sub);
    var rows := Next(w, a).rows;
    assert rows[i].id == id && !Anonymous(rows[i].sub);
  }

  /** And once it is converted, no later mint request is ever answered with it. */
  lemma {:induction false} ConvertedIsNeverAnswered(w: World, actions: seq<Action>, id: string, t: nat)
    requires Inv(w) && IsApple(w.rows, id) && !HasAnswer(w, t)
    ensures HasAnswer(Run(w, actions), t) ==> Run(w, actions).requests[t].id != id
    decreases |actions|
  {
    if actions != [] {
      var a, v := actions[0], Next(w, actions[0]);
      StepKeepsInv(w, a);
      StepKeepsApple(w, a, id);
      if HasAnswer(v, t) {
        NewAnswerIsCurrent(w, a, t);
        assert GoodRequest(v, v.requests[t]);
        AnswersLast(v, actions[1..], t);
      } else {
        ConvertedIsNeverAnswered(v, actions[1..], id, t);
      }
    }
  }

  /** A request that runs undisturbed and finds no row is answered with its new id. */
  lemma MintsWhenFree(w: World, sub: string, t: nat, newId: string)
    requires Anonymous(sub) && t !in w.requests && !TakenSub(w.rows, sub) && !TakenId(w.rows, newId)
    ensures var v := Next(Next(Next(Next(w, Arrive(t, sub)), Read(t, newId)), TryInsert(t)), Reread(t));
            t in v.requests && v.requests[t] == Answered(sub, newId)
  {
    var w1 := Next(w, Arrive(t, sub));
    var w2 := Next(w1, Read(t, newId));
    assert w2.rows == w.rows && w2.requests[t] == Inserting(sub, newId);
    var w3 := Next(w2, TryInsert(t));
    assert w3.rows == w.rows + [Row(newId, sub, true)] && w3.requests[t] == Rereading(sub);
    assert w3.rows[|w.rows|].sub == sub;
  }

  lemma ConvertedRows(rows: seq<Row>, i: nat, apple: string)
    requires i < |rows| && Unique(rows) && rows[i].sub != apple
    ensures var after := Converted(rows, rows[i].id, apple);
            && after[i].sub == apple && !TakenSub(after, rows[i].sub)
            && forall k :: TakenId(after, k) ==> TakenId(rows, k)
  {
    var after := Converted(rows, rows[i].id, apple);
    forall j | 0 <= j < |after|
      ensures after[j].sub != rows[i].sub
    {
      if j < i {
        assert rows[j].sub != rows[i].sub;
      } else if i < j {
        assert rows[i].sub != rows[j].sub;
      }
    }
    forall k | TakenId(after, k)
      ensures TakenId(rows, k)
    {
      var j :| 0 <= j < |after| && after[j].id == k;
      assert rows[j].id == k;
    }
  }

  lemma ConversionFreesSubject(w: World, id: string, sub: string, apple: string)
    requires Unique(w.rows) && Minted(w.rows, id, sub) && Anonymous(sub)
    requires !Anonymous(apple) && !TakenSub(w.rows, apple)
    ensures var rows := Next(w, Convert(id, apple)).rows;
            IsApple(rows, id) && !TakenSub(rows, sub) && forall k :: TakenId(rows, k) ==> TakenId(w.rows, k)
  {
    var i :| 0 <= i < |w.rows| && w.rows[i].id == id && w.rows[i].sub == sub;
    ConvertedRows(w.rows, i, apple);
  }

  /** The same install is given a second account after the first was converted. */
  lemma ConvertedInstallMintsAgain(w: World, id: string, sub: string, apple: string, t: nat, newId: string)
    requires Inv(w) && Minted(w.rows, id, sub) && Anonymous(sub) && t !in w.requests
    requires !Anonymous(apple) && !TakenSub(w.rows, apple) && !TakenId(w.rows, newId)
    ensures var w1 := Next(w, Convert(id, apple));
            var v := Run(w1, [Arrive(t, sub), Read(t, newId), TryInsert(t), Reread(t)]);
            IsApple(w1.rows, id) && HasAnswer(v, t) && v.requests[t] == Answered(sub, newId) && newId != id
  {
    var w1 := Next(w, Convert(id, apple));
    ConversionFreesSubject(w, id, sub, apple);
    MintsWhenFree(w1, sub, t, newId);
    FourSteps(w1, Arrive(t, sub), Read(t, newId), TryInsert(t), Reread(t));
  }

  lemma FourSteps(w: World, a: Action, b: Action, c: Action, d: Action)
    ensures Run(w, [a, b, c, d]) == Next(Next(Next(Next(w, a), b), c), d)
  {
    var w2 := Next(Next(w, a), b);
    assert [a, b, c, d][1..] == [b, c, d] && [b, c, d][1..] == [c, d] && [c, d][1..] == [d];
    assert Run(w2, [c, d]) == Run(Next(w2, c), [d]) == Next(Next(w2, c), d);
  }

  // ---------------------------------------------------------------- installs

  /** One account per app and folded install id, and none shared. */
  lemma OneAccountPerInstall(c: Codec, w: World, actions: seq<Action>, s: nat, t: nat,
                             i1: string, a1: string, i2: string, a2: string)
    requires Injective(c.hash) && Acceptable(c, i1, a1) && Acceptable(c, i2, a2)
    requires Inv(w) && (HasAnswer(w, s) ==> Current(w, s)) && (HasAnswer(w, t) ==> Current(w, t))
    requires var v := Run(w, actions);
             && HasAnswer(v, s) && v.requests[s].sub == Subject(c, i1, a1) && !Converts(actions, v.requests[s].id)
             && HasAnswer(v, t) && v.requests[t].sub == Subject(c, i2, a2) && !Converts(actions, v.requests[t].id)
    ensures Run(w, actions).requests[s].id == Run(w, actions).requests[t].id <==> a1 == a2 && c.norm(i1) == c.norm(i2)
  {
    MintIsIdempotent(w, actions, s, t);
    SameSubjectIffSameInstall(c, i1, a1, i2, a2);
  }

  /** What a read or a re-read is told: the account of an open row, that the account is closed,
      or nothing. */
  lemma ReadSeesTheRow(w: World, t: nat, newId: string, i: nat)
    requires Unique(w.rows) && t in w.requests && (w.requests[t].Reading? || w.requests[t].Rereading?)
    requires i < |w.rows| && w.rows[i].sub == w.requests[t].sub
    ensures var a := if w.requests[t].Reading? then Read(t, newId) else Reread(t);
            var p, v := w.requests[t], Next(w, a);
            && v.rows == w.rows && t in v.requests
            && v.requests[t] == if w.rows[i].active then Answered(p.sub, w.rows[i].id) else Gone(p.sub)
  {
    var row := Select(w.rows, w.requests[t].sub).value;
    var j :| 0 <= j < |w.rows| && w.rows[j] == row;
  }

  /** With no row under the subject a read goes on to insert and a re-read fails. */
  lemma ReadSeesNoRow(w: World, t: nat, newId: string)
    requires t in w.requests && (w.requests[t].Reading? || w.requests[t].Rereading?)
    requires forall i :: 0 <= i < |w.rows| ==> w.rows[i].sub != w.requests[t].sub
    ensures var a := if w.requests[t].Reading? then Read(t, newId) else Reread(t);
            var p, v := w.requests[t], Next(w, a);
            && v.rows == w.rows && t in v.requests
            && v.requests[t] == if p.Reading? then Inserting(p.sub, newId) else Crashed(p.sub)
  {
  }

  /** The insert stores one open row, unless its id or its subject is taken. */
  lemma InsertStoresOneRow(w: World, t: nat)
    requires t in w.requests && w.requests[t].Inserting?
    ensures var p, v := w.requests[t], Next(w, TryInsert(t));
            && t in v.requests && v.requests[t] == Rereading(p.sub)
            && v.rows == if exists i :: 0 <= i < |w.rows| && (w.rows[i].id == p.newId || w.rows[i].sub == p.sub)
                         then w.rows else w.rows + [Row(p.newId, p.sub, true)]
  {
  }

  /** A request arrives once; closing an account closes its row alone; a conversion renames its
      row alone, to a subject of Apple's that nobody has. */
  lemma OtherStepsDo(w: World, t: nat, sub: string, id: string, apple: string, i: nat)
    requires i < |w.rows|
    ensures Anonymous(sub) && t !in w.requests ==>
              Next(w, Arrive(t, sub)) == w.(requests := w.requests[t := Reading(sub)])
    ensures var rows := Next(w, Close(id)).rows;
            |rows| == |w.rows| && rows[i] == w.rows[i].(active := w.rows[i].active && w.rows[i].id != id)
    ensures var rows := Next(w, Convert(id, apple)).rows;
            && |rows| == |w.rows|
            && rows[i] == w.rows[i].(sub := if w.rows[i].id == id && !Anonymous(apple)
                                               && (forall j :: 0 <= j < |w.rows| ==> w.rows[j].sub != apple)
                                            then apple else w.rows[i].sub)
    ensures Next(w, Close(id)).requests == Next(w, Convert(id, apple)).requests == w.requests
    ensures Anonymous(sub) <==> |sub| >= 10 && sub[..10] == "anonymous:"
  {
  }

  // --------------------------------------------------- requests that fail

  /** Directly after the insert attempt there is a row to read, unless the fresh id was already
      somebody else's and nobody had the subject. */
  lemma InsertLeavesARow(w: World, t: nat)
    requires t in w.requests && w.requests[t].Inserting?
    ensures var p := w.requests[t]; var v := Next(w, TryInsert(t));
            Select(v.rows, p.sub) == None <==> !TakenSub(w.rows, p.sub) && TakenId(w.rows, p.newId)
  {
    var p, v := w.requests[t], Next(w, TryInsert(t));
    if !TakenId(w.rows, p.newId) && !TakenSub(w.rows, p.sub) {
      assert v.rows[|w.rows|].sub == p.sub;
    }
  }

  /** The step stores a row under the subject. */
  ghost predicate Fills(w: World, a: Action, sub: string) {
    a.TryInsert? && a.request in w.requests && w.requests[a.request].Inserting? && w.requests[a.request].sub == sub
    && !TakenSub(w.rows, sub) && !TakenId(w.rows, w.requests[a.request].newId)
  }

  /** The step converts the row under the subject. */
  ghost predicate Frees(w: World, a: Action, sub: string) {
    a.Convert? && !Anonymous(a.sub) && !TakenSub(w.rows, a.sub) && Minted(w.rows, a.id, sub)
  }

  lemma ConvertOnSubject(w: World, id: string, apple: string, sub: string)
    requires Unique(w.rows) && Anonymous(sub) && !Anonymous(apple) && !TakenSub(w.rows, apple)
    ensures TakenSub(Converted(w.rows, id, apple), sub) <==> TakenSub(w.rows, sub) && !Minted(w.rows, id, sub)
  {
    var rows := Converted(w.rows, id, apple);
    if TakenSub(w.rows, sub) {
      var i :| 0 <= i < |w.rows| && w.rows[i].sub == sub;
      if w.rows[i].id == id {
        ConvertedRows(w.rows, i, apple);
        assert Minted(w.rows, id, sub);
      } else {
        assert rows[i].sub == sub;
      }
    }
    if TakenSub(rows, sub) {
      var i :| 0 <= i < |rows| && rows[i].sub == sub;
      assert w.rows[i].sub == sub && w.rows[i].id != id;
    }
  }

  lemma SubjectAfterStep(w: World, a: Action, sub: string)
    requires Inv(w) && Anonymous(sub)
    ensures TakenSub(Next(w, a).rows, sub) <==> Fills(w, a, sub) || (TakenSub(w.rows, sub) && !Frees(w, a, sub))
  {
    var rows := Next(w, a).rows;
    match a {
      case Convert(id, apple) =>
        if rows != w.rows {
          ConvertOnSubject(w, id, apple, sub);
        }
      case Close(id) =>
        if TakenSub(w.rows, sub) {
          var i :| 0 <= i < |w.rows| && w.rows[i].sub == sub;
          assert rows[i].sub == sub;
        }
      case TryInsert(t) =>
        if rows != w.rows {
          assert rows[|w.rows|].sub == w.requests[t].sub;
          if TakenSub(w.rows, sub) {
            var i :| 0 <= i < |w.rows| && w.rows[i].sub == sub;
            assert rows[i].sub == sub;
          }
        }
      case _ =>
    }
  }

  /** From the `m`th step on nobody stores a row under the subject. */
  ghost predicate Unfilled(w: World, actions: seq<Action>, m: nat, sub: string) {
    forall q :: m <= q < |actions| ==> !Fills(Run(w, actions[..q]), actions[q], sub)
  }

  /** The `m`th step is a conversion that frees the subject, and it stays free. */
  ghost predicate FreedAt(w: World, actions: seq<Action>, m: nat, sub: string) {
    m < |actions| && Frees(Run(w, actions[..m]), actions[m], sub) && Unfilled(w, actions, m, sub)
  }

  lemma {:induction false} RunAppend(w: World, xs: seq<Action>, ys: seq<Action>)
    ensures Run(w, xs + ys) == Run(Run(w, xs), ys)
    decreases |xs|
  {
    if xs == [] {
      assert xs + ys == ys;
    } else {
      assert (xs + ys)[1..] == xs[1..] + ys;
      RunAppend(Next(w, xs[0]), xs[1..], ys);
    }
  }

  lemma UnfilledInit(w: World, actions: seq<Action>, m: nat, sub: string)
    requires actions != []
    ensures var n := |actions| - 1;
            Unfilled(w, actions, m, sub) <==>
              Unfilled(w, actions[..n], m, sub) && (m <= n ==> !Fills(Run(w, actions[..n]), actions[n], sub))
  {
    var n := |actions| - 1;
    var init := actions[..n];
    assert forall q :: 0 <= q < n ==> init[..q] == actions[..q];
  }

  /** After a run nobody has the subject exactly if nobody had it at the start or a conversion
      freed it on the way, and nobody has stored a row under it since. */
  lemma {:induction false} FreeAfterRunIff(w: World, actions: seq<Action>, sub: string)
    requires Inv(w) && Anonymous(sub)
    ensures !TakenSub(Run(w, actions).rows, sub) <==>
            || (!TakenSub(w.rows, sub) && Unfilled(w, actions, 0, sub))
            || (exists m :: FreedAt(w, actions, m, sub))
    decreases |actions|
  {
    if actions != [] {
      var n := |actions| - 1;
      var init, last := actions[..n], actions[n];
      var v := Run(w, init);
      FreeAfterRunIff(w, init, sub);
      RunKeepsInv(w, init);
      assert actions == init + [last];
      RunAppend(w, init, [last]);
      assert Run(v, [last]) == Next(v, last);
      SubjectAfterStep(v, last, sub);
      UnfilledInit(w, actions, 0, sub);
      FreedInit(w, actions, sub);
    }
  }

  lemma FreedInit(w: World, actions: seq<Action>, sub: string)
    requires actions != []
    ensures var n := |actions| - 1;
            (exists m :: FreedAt(w, actions, m, sub)) <==>
              || ((exists m :: FreedAt(w, actions[..n], m, sub)) && !Fills(Run(w, actions[..n]), actions[n], sub))
              || Frees(Run(w, actions[..n]), actions[n], sub)
  {
    var n := |actions| - 1;
    var init := actions[..n];
    assert forall q :: 0 <= q < n ==> init[..q] == actions[..q];
    if m: nat :| FreedAt(w, actions, m, sub) {
      UnfilledInit(w, actions, m, sub);
      assert m < n ==> FreedAt(w, init, m, sub);
    }
    if m: nat :| FreedAt(w, init, m, sub) {
      UnfilledInit(w, actions, m, sub);
      assert !Fills(Run(w, init), actions[n], sub) ==> FreedAt(w, actions, m, sub);
    }
    if Frees(Run(w, init), actions[n], sub) {
      assert FreedAt(w, actions, n, sub);
    }
  }

  lemma {:induction false} WaitsForReread(w: World, actions: seq<Action>, t: nat)
    requires t in w.requests && w.requests[t].Rereading? && forall i :: 0 <= i < |actions| ==> actions[i] != Reread(t)
    ensures t in Run(w, actions).requests && Run(w, actions).requests[t] == w.requests[t]
    decreases |actions|
  {
    if actions != [] {
      WaitsForReread(Next(w, actions[0]), actions[1..], t);
    }
  }

  lemma {:induction false} CrashedLasts(w: World, actions: seq<Action>, t: nat)
    requires t in w.requests && (w.requests[t].Answered? || w.requests[t].Gone? || w.requests[t].Crashed?)
    ensures t in Run(w, actions).requests && Run(w, actions).requests[t] == w.requests[t]
    decreases |actions|
  {
    if actions != [] {
      CrashedLasts(Next(w, actions[0]), actions[1..], t);
    }
  }

  /** A request crashes in one step only: a re-read that finds nobody under its subject. */
  lemma CrashIsAReread(w: World, a: Action, t: nat)
    requires t in w.requests && !w.requests[t].Crashed?
    ensures t in Next(w, a).requests
    ensures Next(w, a).requests[t].Crashed? <==>
            a == Reread(t) && w.requests[t].Rereading? && !TakenSub(w.rows, w.requests[t].sub)
  {
  }

  lemma RereadDecides(w: World, t: nat, later: seq<Action>)
    requires t in w.requests && w.requests[t].Rereading?
    ensures var v := Run(Next(w, Reread(t)), later);
            && t in v.requests
            && (v.requests[t] == Crashed(w.requests[t].sub) <==> !TakenSub(w.rows, w.requests[t].sub))
  {
    CrashedLasts(Next(w, Reread(t)), later, t);
  }

  /** Over every run a request ends in a crash exactly if its fresh id was taken at the insert
      while nobody had its subject, or the row under its subject was converted between
      insert and re-read; and nobody has stored a new row under the subject since. */
  lemma CrashedIff(w: World, t: nat, between: seq<Action>, later: seq<Action>)
    requires Inv(w) && t in w.requests && w.requests[t].Inserting?
    requires forall i :: 0 <= i < |between| ==> between[i] != Reread(t)
    ensures var p, w1 := w.requests[t], Next(w, TryInsert(t));
            var v := Run(w, [TryInsert(t)] + between + [Reread(t)] + later);
            && t in v.requests
            && (v.requests[t] == Crashed(p.sub) <==>
                  || (TakenId(w.rows, p.newId) && !TakenSub(w.rows, p.sub) && Unfilled(w1, between, 0, p.sub))
                  || (exists m :: FreedAt(w1, between, m, p.sub)))
  {
    var p, w1 := w.requests[t], Next(w, TryInsert(t));
    var w2 := Run(w1, between);
    StepKeepsInv(w, TryInsert(t));
    assert GoodRequest(w, p);
    InsertLeavesARow(w, t);
    FreeAfterRunIff(w1, between, p.sub);
    WaitsForReread(w1, between, t);
    RereadDecides(w2, t, later);
    RunInParts(w, TryInsert(t), between, Reread(t), later);
  }

  lemma RunInParts(w: World, a: Action, between: seq<Action>, b: Action, later: seq<Action>)
    ensures Run(w, [a] + between + [b] + later) == Run(Next(Run(Next(w, a), between), b), later)
  {
    RunAppend(w, [a] + between + [b], later);
    RunAppend(w, [a] + between, [b]);
    RunAppend(w, [a], between);
    assert Run(w, [a]) == Next(w, a);
    var w2 := Run(Next(w, a), between);
    assert Run(w2, [b]) == Next(w2, b);
  }

  /** Such a run: the row is there at the insert and converted before the re-read. */
  lemma ConversionCrashesReread(w: World, t: nat, id: string, apple: string)
    requires Inv(w) && t in w.requests && w.requests[t].Inserting? && Minted(w.rows, id, w.requests[t].sub)
    requires !Anonymous(apple) && !TakenSub(w.rows, apple)
    ensures var v := Run(w, [TryInsert(t)] + [Convert(id, apple)] + [Reread(t)] + []);
            t in v.requests && v.requests[t] == Crashed(w.requests[t].sub)
  {
    var sub, w1 := w.requests[t].sub, Next(w, TryInsert(t));
    StepKeepsRow(w, TryInsert(t), id, sub);
    assert TakenSub(w.rows, sub);
    assert w1.rows == w.rows;
    CrashedIff(w, t, [Convert(id, apple)], []);
    assert Run(w1, [Convert(id, apple)][..0]) == w1;
    assert FreedAt(w1, [Convert(id, apple)], 0, sub);
  }
}
