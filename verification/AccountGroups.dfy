/**
 Which accounts are one person: the link table and the union-find that groups
 the accounts its rows connect (app/services/account_groups.py).

 `GroupKeys` is the simple specification, a map from account to key rewritten
 wholesale by every link. `Groups` is the program: parent pointers,
 path halving inside every `Find`, directed union without ranks. The method is
 proved equal to the specification, and what the design promises (the keys are
 exactly the connected components, and name the final destination) is proved
 of the specification.
 */
module AccountGroups {

  datatype Account = Account(id: string)

  /** A row of account_links: a hop from one account to another. */
  datatype Link = Link(from: Account, to: Account)

  // ---------------------------------------------------------------- the table

  /** The link table: PRIMARY KEY (from_user_id, to_user_id), filled by INSERT OR IGNORE. */
  class LinkTable {
    var rows: seq<Link>

    ghost predicate Valid()
      reads this
    {
      && (forall i :: 0 <= i < |rows| ==> rows[i].from.id != "" && rows[i].to.id != "" && rows[i].from != rows[i].to)
      && (forall i, j :: 0 <= i < j < |rows| ==> rows[i] != rows[j])
    }

    constructor ()
      ensures Valid() && rows == []
    {
      rows := [];
    }

    /** Recording a hop is idempotent, and refuses blanks and self-links. */
    method Record(from: Account, to: Account)
      requires Valid()
      modifies this
      ensures Valid()
      ensures old(rows) <= rows
      ensures Link(from, to) in rows <==> from.id != "" && to.id != "" && from != to
      ensures from.id == "" || to.id == "" || from == to || Link(from, to) in old(rows) ==> rows == old(rows)
      ensures forall l :: l in rows && l != Link(from, to) ==> l in old(rows)
    {
      if from.id == "" || to.id == "" || from == to {
        return;
      }
      if Link(from, to) !in rows {
        rows := rows + [Link(from, to)];
      }
    }
  }

  // -------------------------------------------------------- the specification

  type Keys = map<Account, Account>

  function WithDefault(m: Keys, x: Account): Keys {
    if x in m then m else m[x := x]
  }

  /** One link: whoever was keyed like the source is now keyed like the destination. */
  function Merge(m: Keys, l: Link): Keys {
    var d := WithDefault(WithDefault(m, l.from), l.to);
    Redirected(d, d[l.from], d[l.to])
  }

  function Redirected(d: Keys, a: Account, b: Account): Keys {
    map x | x in d :: if d[x] == a then b else d[x]
  }

  function GroupKeys(links: seq<Link>): Keys {
    if links == [] then map[] else Merge(GroupKeys(links[..|links| - 1]), links[|links| - 1])
  }

  /** The account is an endpoint of some link. */
  ghost predicate InALink(links: seq<Link>, x: Account) {
    exists l :: l in links && (l.from == x || l.to == x)
  }

  // ------------------------------------------------------------------- walks

  /** Links connect the two accounts, ignoring direction. */
  ghost predicate Connected(links: seq<Link>, x: Account, y: Account) {
    exists p :: Walk(links, p) && p[0] == x && p[|p| - 1] == y
  }

  /** A walk may take each link in either direction. */
  ghost predicate Walk(links: seq<Link>, p: seq<Account>) {
    |p| > 0 && forall i :: 0 <= i < |p| - 1 ==> Adjacent(links, p[i], p[i + 1])
  }

  ghost predicate Adjacent(links: seq<Link>, x: Account, y: Account) {
    Link(x, y) in links || Link(y, x) in links
  }

  /** A forward walk follows the links as they were recorded. */
  ghost predicate Forward(links: seq<Link>, p: seq<Account>) {
    |p| > 0 && forall i :: 0 <= i < |p| - 1 ==> Link(p[i], p[i + 1]) in links
  }

  ghost predicate Leads(links: seq<Link>, x: Account, y: Account) {
    exists p :: Forward(links, p) && p[0] == x && p[|p| - 1] == y
  }

  ghost predicate Terminal(links: seq<Link>, x: Account) {
    forall l :: l in links ==> l.from != x
  }

  /** Every account moved on at most once. */
  ghost predicate SingleOut(links: seq<Link>) {
    forall l, k :: l in links && k in links && l.from == k.from ==> l == k
  }

  ghost predicate Acyclic(links: seq<Link>) {
    forall p :: Forward(links, p) && |p| >= 2 ==> p[0] != p[|p| - 1]
  }

  lemma ConnectedSelf(links: seq<Link>, x: Account)
    ensures Connected(links, x, x)
  {
    assert Walk(links, [x]);
  }

  lemma ConnectedAdjacent(links: seq<Link>, x: Account, y: Account)
    requires Adjacent(links, x, y)
    ensures Connected(links, x, y)
  {
    assert Walk(links, [x, y]);
  }

  lemma ConnectedSymmetric(links: seq<Link>, x: Account, y: Account)
    requires Connected(links, x, y)
    ensures Connected(links, y, x)
  {
    var p :| Walk(links, p) && p[0] == x && p[|p| - 1] == y;
    var q := seq(|p|, i requires 0 <= i < |p| => p[|p| - 1 - i]);
    forall i | 0 <= i < |q| - 1
      ensures Adjacent(links, q[i], q[i + 1])
    {
      var j := |p| - 2 - i;
      assert Adjacent(links, p[j], p[j + 1]);
    }
    assert Walk(links, q);
  }

  lemma ConnectedTransitive(links: seq<Link>, x: Account, y: Account, z: Account)
    requires Connected(links, x, y) && Connected(links, y, z)
    ensures Connected(links, x, z)
  {
    var p :| Walk(links, p) && p[0] == x && p[|p| - 1] == y;
    var q :| Walk(links, q) && q[0] == y && q[|q| - 1] == z;
    var r := p + q[1..];
    forall i | 0 <= i < |r| - 1
      ensures Adjacent(links, r[i], r[i + 1])
    {
      if i < |p| - 1 {
        assert Adjacent(links, p[i], p[i + 1]);
      } else {
        var j := i - (|p| - 1);
        assert r[i] == q[j] && r[i + 1] == q[j + 1];
        assert Adjacent(links, q[j], q[j + 1]);
      }
    }
    assert Walk(links, r);
  }

  lemma LeadsTransitive(links: seq<Link>, x: Account, y: Account, z: Account)
    requires Leads(links, x, y) && Leads(links, y, z)
    ensures Leads(links, x, z)
  {
    var p :| Forward(links, p) && p[0] == x && p[|p| - 1] == y;
    var q :| Forward(links, q) && q[0] == y && q[|q| - 1] == z;
    var r := p + q[1..];
    forall i | 0 <= i < |r| - 1
      ensures Link(r[i], r[i + 1]) in links
    {
      if i < |p| - 1 {
        assert Link(p[i], p[i + 1]) in links;
      } else {
        var j := i - (|p| - 1);
        assert r[i] == q[j] && r[i + 1] == q[j + 1];
      }
    }
    assert Forward(links, r);
  }

  // ------------------------------------------------- the keys are components

  /** Exactly the linked accounts are keyed. */
  lemma {:induction false} KeysDomain(links: seq<Link>, x: Account)
    ensures x in GroupKeys(links) <==> InALink(links, x)
  {
    if links != [] {
      var init, last := links[..|links| - 1], links[|links| - 1];
      assert links == init + [last];
      KeysDomain(init, x);
      if InALink(links, x) {
        var l :| l in links && (l.from == x || l.to == x);
        assert l in init || l == last;
      }
      if InALink(init, x) {
        var l :| l in init && (l.from == x || l.to == x);
        assert l in links;
      }
      assert last in links;
    }
  }

  /** A key is an account of the group and is its own key. */
  lemma {:induction false} KeyKeysItself(links: seq<Link>, x: Account)
    requires x in GroupKeys(links)
    ensures var m := GroupKeys(links); m[x] in m && m[m[x]] == m[x]
  {
    var init, last := links[..|links| - 1], links[|links| - 1];
    var m := GroupKeys(init);
    if x in m {
      KeyKeysItself(init, x);
    }
    if last.to in m {
      KeyKeysItself(init, last.to);
    }
  }

  lemma {:induction false} KeysFollowLinks(links: seq<Link>, l: Link)
    requires l in links
    ensures l.from in GroupKeys(links) && l.to in GroupKeys(links)
    ensures GroupKeys(links)[l.from] == GroupKeys(links)[l.to]
  {
    var init, last := links[..|links| - 1], links[|links| - 1];
    if l != last {
      KeysFollowLinks(init, l);
    }
  }

  lemma {:induction false} KeyIsConnected(links: seq<Link>, x: Account)
    requires x in GroupKeys(links)
    ensures Connected(links, x, GroupKeys(links)[x])
  {
    var init, last := links[..|links| - 1], links[|links| - 1];
    var m := GroupKeys(init);
    var d := WithDefault(WithDefault(m, last.from), last.to);
    forall y | y in d
      ensures Connected(links, y, d[y])
    {
      if y in m {
        KeyIsConnected(init, y);
      } else {
        ConnectedSelf(links, y);
      }
    }
    if d[x] == d[last.from] {
      ConnectedSymmetric(links, last.from, d[last.from]);
      ConnectedTransitive(links, x, d[x], last.from);
      ConnectedAdjacent(links, last.from, last.to);
      ConnectedTransitive(links, x, last.from, last.to);
      ConnectedTransitive(links, x, last.to, d[last.to]);
    }
  }

  lemma {:induction false} WalkKeepsKey(links: seq<Link>, p: seq<Account>)
    requires Walk(links, p) && p[0] in GroupKeys(links)
    ensures p[|p| - 1] in GroupKeys(links) && GroupKeys(links)[p[|p| - 1]] == GroupKeys(links)[p[0]]
  {
    if |p| > 1 {
      var l := if Link(p[0], p[1]) in links then Link(p[0], p[1]) else Link(p[1], p[0]);
      KeysFollowLinks(links, l);
      var q := p[1..];
      WalkKeepsKey(links, q);
    }
  }

  /** The grouping is exact: the same key if and only if the links connect the accounts. */
  lemma SameKeyIffConnected(links: seq<Link>, x: Account, y: Account)
    requires x in GroupKeys(links) && y in GroupKeys(links)
    ensures GroupKeys(links)[x] == GroupKeys(links)[y] <==> Connected(links, x, y)
  {
    if GroupKeys(links)[x] == GroupKeys(links)[y] {
      KeyIsConnected(links, x);
      KeyIsConnected(links, y);
      ConnectedSymmetric(links, y, GroupKeys(links)[y]);
      ConnectedTransitive(links, x, GroupKeys(links)[x], y);
    }
    if Connected(links, x, y) {
      var p :| Walk(links, p) && p[0] == x && p[|p| - 1] == y;
      WalkKeepsKey(links, p);
    }
  }

  // --------------------------------------------- the key is the destination

  lemma {:induction false} KeyIsReachedTerminal(links: seq<Link>, x: Account)
    requires SingleOut(links) && Acyclic(links)
    requires x in GroupKeys(links)
    ensures Leads(links, x, GroupKeys(links)[x]) && Terminal(links, GroupKeys(links)[x])
    decreases |links|, 0
  {
    var init, last := links[..|links| - 1], links[|links| - 1];
    assert links == init + [last];
    var d := Defaulted(init, last);
    PrefixInherits(init, last);
    if last in init {
      KeysFollowLinks(init, last);
      KeyIsReachedTerminal(init, x);
    } else {
      DefaultedReachesTerminal(init, last, x);
      DefaultedReachesTerminal(init, last, last.from);
      DefaultedReachesTerminal(init, last, last.to);
      NewHopIsOpen(init, last);
      if d[x] == last.from {
        LeadsTransitive(links, x, last.from, d[last.to]);
      }
    }
  }

  function Defaulted(init: seq<Link>, last: Link): Keys {
    WithDefault(WithDefault(GroupKeys(init), last.from), last.to)
  }

  lemma PrefixInherits(init: seq<Link>, last: Link)
    requires SingleOut(init + [last]) && Acyclic(init + [last])
    ensures SingleOut(init) && Acyclic(init)
  {
  }

  lemma {:induction false} DefaultedReachesTerminal(init: seq<Link>, last: Link, y: Account)
    requires SingleOut(init + [last]) && Acyclic(init + [last])
    requires y in Defaulted(init, last)
    ensures var z := Defaulted(init, last)[y];
            Leads(init, y, z) && Leads(init + [last], y, z) && Terminal(init, z)
    decreases |init|, 1
  {
    PrefixInherits(init, last);
    var m := GroupKeys(init);
    if y in m {
      KeyIsReachedTerminal(init, y);
    } else {
      assert Forward(init, [y]) && Forward(init + [last], [y]);
      KeysDomain(init, y);
    }
  }

  lemma LongWalkStartsBeforeTerminal(links: seq<Link>, p: seq<Account>)
    requires Forward(links, p)
    ensures |p| > 1 ==> !Terminal(links, p[0])
  {
    assert |p| > 1 ==> Link(p[0], p[1]) in links;
  }

  /** The source of a new hop never moved before, so it is still its own key, and
      the hop does not close a cycle. */
  lemma NewHopIsOpen(init: seq<Link>, last: Link)
    requires SingleOut(init + [last]) && Acyclic(init + [last]) && last !in init
    requires Leads(init, last.from, Defaulted(init, last)[last.from])
    requires Leads(init + [last], last.to, Defaulted(init, last)[last.to])
    ensures Defaulted(init, last)[last.from] == last.from
    ensures Defaulted(init, last)[last.to] != last.from
    ensures Leads(init + [last], last.from, Defaulted(init, last)[last.to])
  {
    var links, d := init + [last], Defaulted(init, last);
    assert last in links && forall l :: l in init ==> l in links;
    assert Terminal(init, last.from);
    var p :| Forward(init, p) && p[0] == last.from && p[|p| - 1] == d[last.from];
    LongWalkStartsBeforeTerminal(init, p);
    assert Forward(links, [last.from, last.to]);
    LeadsTransitive(links, last.from, last.to, d[last.to]);
    var q :| Forward(links, q) && q[0] == last.to && q[|q| - 1] == d[last.to];
    var r := [last.from] + q;
    assert forall i :: 0 < i < |r| - 1 ==> r[i] == q[i - 1] && r[i + 1] == q[i];
    assert Forward(links, r);
  }

  /** Following single links forward, at most one terminal account is ever reached. */
  lemma {:induction false} OneTerminal(links: seq<Link>, p: seq<Account>, q: seq<Account>)
    requires SingleOut(links) && Forward(links, p) && Forward(links, q) && p[0] == q[0]
    requires Terminal(links, p[|p| - 1]) && Terminal(links, q[|q| - 1])
    ensures p[|p| - 1] == q[|q| - 1]
  {
    assert |p| > 1 ==> Link(p[0], p[1]) in links;
    assert |q| > 1 ==> Link(q[0], q[1]) in links;
    if |p| > 1 && |q| > 1 {
      OneTerminal(links, p[1..], q[1..]);
    }
  }

  /** With at most one outgoing link per account and no cycle, the key is the account
      at the end of the hops, and only that account. */
  lemma KeyIsFinalDestination(links: seq<Link>, x: Account, y: Account)
    requires SingleOut(links) && Acyclic(links)
    requires x in GroupKeys(links)
    ensures GroupKeys(links)[x] == y <==> Leads(links, x, y) && Terminal(links, y)
  {
    KeyIsReachedTerminal(links, x);
    if Leads(links, x, y) && Terminal(links, y) {
      var p :| Forward(links, p) && p[0] == x && p[|p| - 1] == GroupKeys(links)[x];
      var q :| Forward(links, q) && q[0] == x && q[|q| - 1] == y;
      OneTerminal(links, p, q);
    }
  }

  /** So the order in which such links are processed does not matter. */
  lemma OrderOfHopsIsIrrelevant(links: seq<Link>, other: seq<Link>)
    requires SingleOut(links) && Acyclic(links)
    requires forall l :: l in links <==> l in other
    ensures GroupKeys(links) == GroupKeys(other)
  {
    var m, n := GroupKeys(links), GroupKeys(other);
    assert SingleOut(other);
    forall x
      ensures x in m <==> x in n
      ensures x in m ==> m[x] == n[x]
    {
      KeysDomain(links, x);
      KeysDomain(other, x);
      if x in m {
        KeyIsFinalDestination(other, x, n[x]);
        KeyIsFinalDestination(links, x, n[x]);
      }
    }
  }

  /** What one more hop does to the keys: source and destination share the key the destination
      had, the source's whole group comes along, and everyone else keeps their key. */
  lemma HopMovesTheSourceGroup(links: seq<Link>, a: Account, b: Account)
    ensures var m, n := GroupKeys(links), GroupKeys(links + [Link(a, b)]);
            && n.Keys == m.Keys + {a, b}
            && n[a] == n[b] == (if b in m then m[b] else b)
            && forall x :: x in m ==> n[x] == if a in m && m[x] == m[a] then n[b] else m[x]
  {
    var m := GroupKeys(links);
    assert (links + [Link(a, b)])[..|links|] == links;
    var d := WithDefault(WithDefault(m, a), b);
    assert GroupKeys(links + [Link(a, b)]) == Redirected(d, d[a], d[b]);
    assert d.Keys == m.Keys + {a, b};
    forall x | x in m
      ensures d[x] == m[x] && (a !in m ==> m[x] != a)
    {
      KeyKeysItself(links, x);
    }
  }

  /** Without that premise the key is the newest destination exactly when that
      account was still its own key before the hop. */
  lemma NewestDestinationHoldsKey(links: seq<Link>, a: Account, b: Account)
    ensures var m := GroupKeys(links); var n := GroupKeys(links + [Link(a, b)]);
            a in n && b in n && n[a] == n[b] && (n[a] == b <==> b !in m || m[b] == b)
  {
  }

  /** A plan that went out and came back: the key stays behind with the other account. */
  lemma ReturningHopLeavesKeyBehind()
    ensures var a, b := Account("a"), Account("b");
            GroupKeys([Link(a, b), Link(b, a)]) == map[a := b, b := b]
  {
    var a, b := Account("a"), Account("b");
    var all := [Link(a, b), Link(b, a)];
    assert GroupKeys(all[..1]) == map[a := b, b := b];
  }

  // -------------------------------------------------------------- the program

  /** What holds of one account in a well-formed forest: its key is a root, its parent has the
      same key, and ranks grow strictly along parent pointers, so there is no cycle. */
  ghost predicate NodeOk(parent: Keys, keys: Keys, rank: map<Account, nat>, height: nat, x: Account) {
    && x in parent && x in keys && x in rank
    && parent[x] in parent && parent[x] in keys && parent[x] in rank
    && keys[x] in parent && parent[keys[x]] == keys[x]
    && keys[parent[x]] == keys[x]
    && rank[x] <= height
    && (if parent[x] == x then keys[x] == x else rank[x] < rank[parent[x]])
  }

  ghost predicate ForestOk(parent: Keys, keys: Keys, rank: map<Account, nat>, height: nat) {
    && keys.Keys == parent.Keys == rank.Keys
    && forall x {:trigger NodeOk(parent, keys, rank, height, x)} ::
         x in parent ==> NodeOk(parent, keys, rank, height, x)
  }

  lemma DefaultKeepsForest(parent: Keys, keys: Keys, rank: map<Account, nat>, height: nat, x: Account)
    requires ForestOk(parent, keys, rank, height) && x !in parent
    ensures ForestOk(parent[x := x], keys[x := x], rank[x := 0], height)
  {
    var parent' := parent[x := x];
    forall y | y in parent'
      ensures NodeOk(parent', keys[x := x], rank[x := 0], height, y)
    {
      assert y in parent ==> NodeOk(parent, keys, rank, height, y);
    }
  }

  /** Path halving keeps the forest, with the very same keys and ranks. */
  lemma HalvingKeepsForest(parent: Keys, keys: Keys, rank: map<Account, nat>, height: nat, x: Account, g: Account)
    requires ForestOk(parent, keys, rank, height)
    requires x in parent && parent[x] in parent && parent[x] != x && g == parent[parent[x]]
    ensures ForestOk(parent[x := g], keys, rank, height)
    ensures g in parent && keys[g] == keys[x] && rank[x] < rank[g] <= height
  {
    assert NodeOk(parent, keys, rank, height, x) && NodeOk(parent, keys, rank, height, parent[x]);
    assert NodeOk(parent, keys, rank, height, g);
    var parent' := parent[x := g];
    forall y | y in parent'
      ensures NodeOk(parent', keys, rank, height, y)
    {
      assert NodeOk(parent, keys, rank, height, y);
    }
  }

  /** Hanging one root below another keeps the forest. */
  lemma UnionKeepsForest(parent: Keys, keys: Keys, rank: map<Account, nat>, height: nat, ra: Account, rb: Account)
    requires ForestOk(parent, keys, rank, height)
    requires ra in parent && rb in parent && parent[ra] == ra && parent[rb] == rb && ra != rb
    ensures ForestOk(parent[ra := rb], Redirected(keys, ra, rb),
                     rank[rb := rank[ra] + rank[rb] + 1], height + height + 1)
  {
    var parent', keys' := parent[ra := rb], Redirected(keys, ra, rb);
    var rank', height' := rank[rb := rank[ra] + rank[rb] + 1], height + height + 1;
    assert parent'.Keys == parent.Keys && keys'.Keys == keys.Keys && rank'.Keys == rank.Keys;
    forall y | y in parent'
      ensures NodeOk(parent', keys', rank', height', y)
    {
      UnionKeepsNode(parent, keys, rank, height, ra, rb, y);
    }
  }

  lemma UnionKeepsNode(parent: Keys, keys: Keys, rank: map<Account, nat>, height: nat,
                       ra: Account, rb: Account, y: Account)
    requires NodeOk(parent, keys, rank, height, y) && keys.Keys == parent.Keys == rank.Keys
    requires NodeOk(parent, keys, rank, height, ra) && NodeOk(parent, keys, rank, height, rb)
    requires parent[ra] == ra && parent[rb] == rb && ra != rb
    ensures NodeOk(parent[ra := rb], Redirected(keys, ra, rb),
                   rank[rb := rank[ra] + rank[rb] + 1], height + height + 1, y)
  {
  }

  /** The `parent` dictionary and the closure `find` over it. */
  class Forest {
    var parent: map<Account, Account>
    ghost var keys: Keys
    ghost var rank: map<Account, nat>
    ghost var height: nat

    ghost predicate Valid()
      reads this
    {
      ForestOk(parent, keys, rank, height)
    }

    constructor ()
      ensures Valid() && keys == map[]
    {
      parent, keys, rank, height := map[], map[], map[], 0;
    }

    /** Path halving moves pointers, never keys. */
    method Find(x: Account) returns (r: Account)
      requires Valid()
      modifies this
      ensures Valid()
      ensures keys == WithDefault(old(keys), x)
      ensures r in parent && r == keys[x] && parent[r] == r
    {
      if x !in parent {
        DefaultKeepsForest(parent, keys, rank, height, x);
        parent, keys, rank := parent[x := x], keys[x := x], rank[x := 0];
      }
      r := x;
      while parent[r] != r
        invariant Valid() && keys == WithDefault(old(keys), x)
        invariant r in parent && keys[r] == keys[x]
        invariant NodeOk(parent, keys, rank, height, r)
        decreases height - rank[r]
      {
        HalvingKeepsForest(parent, keys, rank, height, r, parent[parent[r]]);
        parent := parent[r := parent[parent[r]]];
        r := parent[r];
      }
    }

    /** One row: point the source's root at the destination's. */
    method Union(l: Link)
      requires Valid()
      modifies this
      ensures Valid() && keys == Merge(old(keys), l)
    {
      var ra := Find(l.from);
      var rb := Find(l.to);
      assert NodeOk(parent, keys, rank, height, l.from);
      Hang(ra, rb);
    }

    /** The union proper: the source's root goes under the destination's, unless they are one. */
    method Hang(ra: Account, rb: Account)
      requires Valid() && ra in parent && rb in parent && parent[ra] == ra && parent[rb] == rb
      modifies this
      ensures Valid() && keys == Redirected(old(keys), ra, rb)
    {
      if ra != rb {
        UnionKeepsForest(parent, keys, rank, height, ra, rb);
        rank, height := rank[rb := rank[ra] + rank[rb] + 1], height + height + 1;
        parent := parent[ra := rb];
        keys := Redirected(keys, ra, rb);
      }
    }
  }

  /** `groups`: every row through the forest, then every account's root. */
  method Groups(links: seq<Link>) returns (m: Keys)
    ensures m == GroupKeys(links)
  {
    var f := new Forest();
    for i := 0 to |links|
      invariant f.Valid() && fresh(f) && f.keys == GroupKeys(links[..i])
    {
      f.Union(links[i]);
      assert links[..i + 1][..i] == links[..i];
    }
    assert links[..|links|] == links;
    m := Flatten(f);
  }

  /** The final comprehension: its own finds still halve paths under it. */
  method Flatten(f: Forest) returns (m: Keys)
    requires f.Valid()
    modifies f
    ensures f.Valid() && m == f.keys == old(f.keys)
  {
    m := map[];
    var todo := f.parent.Keys;
    while todo != {}
      invariant f.Valid() && f.keys == old(f.keys)
      invariant m.Keys + todo == f.keys.Keys
      invariant forall u :: u in m ==> m[u] == f.keys[u]
      decreases todo
    {
      var u :| u in todo;
      var r := f.Find(u);
      m, todo := m[u := r], todo - {u};
    }
  }
}
