/**
 Which promo a device is shown (app/routers/promo.py): the priority of a
 campaign for the moment asked about, the stable re-ordering by it, the first
 eligible campaign and its card, and the per-device presentation rows that the
 client's events move and that frequency caps and convert suppression read.
 */
module PromoResolve {
  import opened Options
  import opened PromoVariants

  /** One entry of `placements`; Malformed is one that is not a dictionary. */
  datatype Entry = Malformed | Entry(placement: Option<string>, feature: Option<string>, priority: Option<int>)

  /** An entry of `variants`: a card, an empty dictionary, or no dictionary at all. */
  datatype Variant = NotADict | Empty | Card(name: string, weight: int, minVersion: Option<string>)

  datatype Campaign = Campaign(
    id: string,
    priority: int,
    placements: seq<Entry>,
    variants: seq<Variant>,
    startsAt: Option<int>,
    expiresAt: Option<int>,
    geo: bool,             // constrains countries, regions or cities
    minAudience: int,
    maxImpressions: Option<int>,
    repeatAfterConvert: bool)

  const LAUNCH := "launch"
  const GEO_FLOOR := 25

  // ------------------------------------------------------ placement priority

  /** The entry is about this moment. No placement asked means launch, whatever the gate. */
  predicate Wants(e: Entry, placement: Option<string>, feature: Option<string>) {
    && e.Entry?
    && (if placement.None? then e.placement == Some(LAUNCH)
        else e.placement == placement && (e.feature.None? || e.feature == feature))
  }

  function EntryPriority(c: Campaign, e: Entry): int {
    if e.Entry? && e.priority.Some? then e.priority.value else c.priority
  }

  /** What the documentation promises of the effective priority: without entries it is the
      campaign's; else the highest among the entries for the placement asked about, launch if
      none was, that name no gate or, if a placement was asked, the gate on screen. */
  ghost predicate IsPriority(c: Campaign, placement: Option<string>, feature: Option<string>, r: Option<int>) {
    if c.placements == [] then r == Some(c.priority)
    else match r
      case None => forall e :: e in c.placements ==> !IsAbout(e, placement, feature)
      case Some(v) =>
        && (exists e :: e in c.placements && IsAbout(e, placement, feature)
                        && v == if e.priority.Some? then e.priority.value else c.priority)
        && (forall e :: e in c.placements && IsAbout(e, placement, feature) ==>
              (if e.priority.Some? then e.priority.value else c.priority) <= v)
  }

  ghost predicate IsAbout(e: Entry, placement: Option<string>, feature: Option<string>) {
    match placement
    case None => e.Entry? && e.placement == Some("launch")
    case Some(_) => e.Entry? && e.placement == placement && (e.feature == None || e.feature == feature)
  }

  function Best(c: Campaign, es: seq<Entry>, placement: Option<string>, feature: Option<string>): Option<int> {
    if es == [] then None
    else
      var best, e := Best(c, es[..|es| - 1], placement, feature), es[|es| - 1];
      if Wants(e, placement, feature) && (best.None? || EntryPriority(c, e) > best.value)
      then Some(EntryPriority(c, e)) else best
  }

  function Priority(c: Campaign, placement: Option<string>, feature: Option<string>): Option<int> {
    if c.placements == [] then Some(c.priority) else Best(c, c.placements, placement, feature)
  }

  lemma {:induction false} BestIsMaximum(c: Campaign, es: seq<Entry>,
                                         placement: Option<string>, feature: Option<string>)
    ensures match Best(c, es, placement, feature)
            case None => forall e :: e in es ==> !Wants(e, placement, feature)
            case Some(v) =>
              && (exists e :: e in es && Wants(e, placement, feature) && EntryPriority(c, e) == v)
              && (forall e :: e in es && Wants(e, placement, feature) ==> EntryPriority(c, e) <= v)
  {
    if es != [] {
      BestIsMaximum(c, es[..|es| - 1], placement, feature);
    }
  }

  lemma PriorityIsAsPromised(c: Campaign, placement: Option<string>, feature: Option<string>)
    ensures IsPriority(c, placement, feature, Priority(c, placement, feature))
  {
    BestIsMaximum(c, c.placements, placement, feature);
    assert forall e :: Wants(e, placement, feature) <==> IsAbout(e, placement, feature);
  }

  /** _placement_priority */
  method PlacementPriority(c: Campaign, placement: Option<string>, feature: Option<string>) returns (best: Option<int>)
    ensures best == Priority(c, placement, feature)
    ensures IsPriority(c, placement, feature, best)
  {
    PriorityIsAsPromised(c, placement, feature);
    if c.placements == [] {
      return Some(c.priority);
    }
    best := None;
    for i := 0 to |c.placements|
      invariant best == Best(c, c.placements[..i], placement, feature)
    {
      var e := c.placements[i];
      assert c.placements[..i + 1][..i] == c.placements[..i];
      if Wants(e, placement, feature) {
        var pri := EntryPriority(c, e);
        if best.None? || pri > best.value {
          best := Some(pri);
        }
      }
    }
    assert c.placements[..|c.placements|] == c.placements;
  }

  // ------------------------------------------------------------ presentations

  datatype Pair = Pair(device: string, campaign: string)
  datatype Presentation = Presentation(shown: nat, converted: bool)
  type Presentations = map<Pair, Presentation>

  /** The frequency cap and convert suppression. A cap of 0 is no cap. */
  predicate Suppressed(rows: Presentations, device: string, c: Campaign) {
    var at := Pair(device, c.id);
    at in rows
    && ((rows[at].converted && !c.repeatAfterConvert)
        || (c.maxImpressions.Some? && c.maxImpressions.value != 0 && rows[at].shown >= c.maxImpressions.value))
  }

  // ---------------------------------------------------------------- resolving

  /** What one request brings: the time, the outcomes of the checks that look outside, which
      minimum versions this build meets, and the hash of campaign and device. */
  datatype Ask = Ask(device: string, placement: Option<string>, feature: Option<string>, now: int,
                     targets: Campaign -> bool, audience: Campaign -> nat,
                     meets: string -> bool, hash: string -> nat)

  predicate InWindow(c: Campaign, now: int) {
    !(c.startsAt.Some? && now < c.startsAt.value) && !(c.expiresAt.Some? && now > c.expiresAt.value)
  }

  function GeoFloor(c: Campaign): int {
    if c.minAudience > GEO_FLOOR then c.minAudience else GEO_FLOOR
  }

  /** The checks on the campaign itself. */
  predicate Admitted(q: Ask, rows: Presentations, c: Campaign) {
    && InWindow(c, q.now)
    && q.targets(c)
    && (c.geo ==> q.audience(c) >= GeoFloor(c))
    && !Suppressed(rows, q.device, c)
  }

  /** _variant_renderable: an ungated variant renders everywhere. */
  predicate Renderable(q: Ask, v: Variant) {
    v.Empty? || (v.Card? && (v.minVersion.None? || v.minVersion.value == "" || q.meets(v.minVersion.value)))
  }

  function Weight(v: Variant): int {
    if v.Card? then v.weight else 0
  }

  function Capable(q: Ask, vs: seq<Variant>): (r: seq<Variant>)
    ensures forall v :: v in r <==> v in vs && Renderable(q, v)
  {
    if vs == [] then [] else (if Renderable(q, vs[0]) then [vs[0]] else []) + Capable(q, vs[1..])
  }

  function Weights(vs: seq<Variant>): (ws: seq<int>)
    ensures |ws| == |vs| && forall i :: 0 <= i < |vs| ==> ws[i] == Weight(vs[i])
  {
    seq(|vs|, i requires 0 <= i < |vs| => Weight(vs[i]))
  }

  /** The card the campaign yields: the pick among what this build can render. Picking the
      empty dictionary yields nothing. */
  function Yield(q: Ask, c: Campaign): (r: Option<Variant>) {
    var capable := Capable(q, c.variants);
    match Picked(Weights(capable), q.hash(c.id))
    case None => None
    case Some(i) => if capable[i].Empty? then None else Some(capable[i])
  }

  /** The build can render the variant: a dictionary without a minimum version, or with one
      that the build meets. */
  ghost predicate CanRender(q: Ask, v: Variant) {
    match v
    case NotADict => false
    case Empty => true
    case Card(_, _, minVersion) => minVersion.None? || minVersion.value == "" || q.meets(minVersion.value)
  }

  ghost predicate HasWeight(v: Variant) {
    v.Card? && v.weight > 0
  }

  /** A card of the campaign that this build can render, with weight whenever something
      renderable has any. */
  ghost predicate Showable(q: Ask, c: Campaign, v: Variant) {
    && v.Card? && v in c.variants && CanRender(q, v)
    && (HasWeight(v) || forall u :: u in c.variants && CanRender(q, u) ==> !HasWeight(u))
  }

  lemma RenderableIff(q: Ask, v: Variant)
    ensures Renderable(q, v) <==> CanRender(q, v)
  {
  }

  lemma CapableIff(q: Ask, vs: seq<Variant>)
    ensures forall v :: v in Capable(q, vs) <==> v in vs && CanRender(q, v)
  {
    forall v
      ensures Renderable(q, v) <==> CanRender(q, v)
    {
      RenderableIff(q, v);
    }
  }

  lemma WeightedIsPicked(q: Ask, vs: seq<Variant>, u: Variant, hash: nat)
    requires u in vs && HasWeight(u)
    ensures Picked(Weights(vs), hash).Some? && HasWeight(vs[Picked(Weights(vs), hash).value])
  {
    var k :| 0 <= k < |vs| && vs[k] == u;
    var ws := Weights(vs);
    assert ws[k] == Weight(vs[k]) > 0;
    WeightedHasTotal(ws, k);
    var i := Holder(ws, |ws|, hash % Total(ws));
    assert Picked(ws, hash) == Some(i) && ws[i] == Weight(vs[i]) > 0;
  }

  /** A yielded card is showable. Nothing is yielded exactly if nothing can be rendered, or if
      nothing renderable has weight and the first of it is empty. */
  lemma YieldIsShowable(q: Ask, c: Campaign)
    ensures Yield(q, c).Some? ==> Showable(q, c, Yield(q, c).value)
    ensures var capable := Capable(q, c.variants);
            Yield(q, c).None? <==>
              capable == [] || (capable[0].Empty? && forall u :: u in capable ==> !HasWeight(u))
  {
    var capable := Capable(q, c.variants);
    CapableIff(q, c.variants);
    if capable != [] {
      var i := Picked(Weights(capable), q.hash(c.id)).value;
      assert capable[i] in capable;
      if u :| u in capable && HasWeight(u) {
        WeightedIsPicked(q, capable, u, q.hash(c.id));
      }
    }
  }

  /** With weight to share out, the yielded card is the one in whose stretch the bucket falls. */
  lemma YieldHoldsBucket(q: Ask, c: Campaign)
    requires Total(Weights(Capable(q, c.variants))) > 0
    ensures var capable := Capable(q, c.variants); var ws := Weights(capable);
            exists i :: 0 <= i < |ws| && Yield(q, c) == Some(capable[i])
                        && Upto(ws, i) <= q.hash(c.id) % Upto(ws, |ws|) < Upto(ws, i + 1)
  {
    var capable := Capable(q, c.variants);
    var ws := Weights(capable);
    var i := Holder(ws, |ws|, q.hash(c.id) % Total(ws));
    assert Picked(ws, q.hash(c.id)) == Some(i) && ws[i] == Weight(capable[i]) > 0;
    assert Yield(q, c) == Some(capable[i]) && Holds(ws, i, q.hash(c.id) % Total(ws));
  }

  /** What can be rendered keeps its order. */
  lemma {:induction false} CapableInOrder(q: Ask, vs: seq<Variant>, v: Variant)
    ensures Capable(q, []) == []
    ensures Capable(q, vs + [v]) == Capable(q, vs) + if CanRender(q, v) then [v] else []
  {
    if vs == [] {
      RenderableIff(q, v);
      assert vs + [v] == [v] && [v][1..] == [];
    } else {
      assert (vs + [v])[0] == vs[0] && (vs + [v])[1..] == vs[1..] + [v];
      CapableInOrder(q, vs[1..], v);
    }
  }

  /** And its weights; anything but a card weighs nothing. */
  lemma WeightsInOrder(vs: seq<Variant>, v: Variant)
    ensures Weights([]) == []
    ensures Weights(vs + [v]) == Weights(vs) + [if v.Card? then v.weight else 0]
  {
  }

  predicate Eligible(q: Ask, rows: Presentations, c: Campaign) {
    Admitted(q, rows, c) && Yield(q, c).Some?
  }

  /** A campaign that wants this moment: its priority for it and its place in query order. */
  datatype Scoped = Scoped(priority: int, place: nat)

  predicate Before(a: Scoped, b: Scoped) {
    a.priority > b.priority || (a.priority == b.priority && a.place < b.place)
  }

  ghost predicate Ordered(s: seq<Scoped>) {
    forall i, j :: 0 <= i < j < |s| ==> Before(s[i], s[j])
  }

  /** One step of a stable sort by descending priority: behind everything not smaller. */
  function Insert(s: seq<Scoped>, x: Scoped): seq<Scoped> {
    if s == [] || x.priority > s[0].priority then [x] + s else [s[0]] + Insert(s[1..], x)
  }

  lemma {:induction false} InsertKeepsOrder(s: seq<Scoped>, x: Scoped)
    requires Ordered(s) && forall y :: y in s ==> y.place < x.place
    ensures Ordered(Insert(s, x))
    ensures forall y :: y in Insert(s, x) <==> y in s || y == x
  {
    if s != [] {
      if x.priority > s[0].priority {
        assert forall y :: y in s ==> Before(x, y);
      } else {
        InsertKeepsOrder(s[1..], x);
        var rest := Insert(s[1..], x);
        assert forall y :: y in rest ==> Before(s[0], y);
      }
    }
  }

  /** The campaigns that want this moment, in the order they are tried. */
  method Scope(q: Ask, cs: seq<Campaign>) returns (s: seq<Scoped>)
    ensures Ordered(s)
    ensures forall x :: x in s <==> x.place < |cs| && Priority(cs[x.place], q.placement, q.feature) == Some(x.priority)
  {
    s := [];
    for i := 0 to |cs|
      invariant Ordered(s)
      invariant forall x :: x in s <==> x.place < i && Priority(cs[x.place], q.placement, q.feature) == Some(x.priority)
    {
      var pri := PlacementPriority(cs[i], q.placement, q.feature);
      if pri.Some? {
        InsertKeepsOrder(s, Scoped(pri.value, i));
        s := Insert(s, Scoped(pri.value, i));
      }
    }
  }

  /** The campaign wants this moment and may be shown to this device now. */
  predicate Candidate(q: Ask, rows: Presentations, cs: seq<Campaign>, i: nat) {
    i < |cs| && Priority(cs[i], q.placement, q.feature).Some? && Eligible(q, rows, cs[i])
  }

  predicate Outranks(q: Ask, cs: seq<Campaign>, i: nat, j: nat)
    requires i < |cs| && Priority(cs[i], q.placement, q.feature).Some?
    requires j < |cs| && Priority(cs[j], q.placement, q.feature).Some?
  {
    Before(Scoped(Priority(cs[i], q.placement, q.feature).value, i),
           Scoped(Priority(cs[j], q.placement, q.feature).value, j))
  }

  /** The campaign is on, for this audience, and this device has not had enough of it. */
  ghost predicate MayBeShown(q: Ask, rows: Presentations, c: Campaign) {
    var at := Pair(q.device, c.id);
    && (c.startsAt == None || c.startsAt.value <= q.now)
    && (c.expiresAt == None || q.now <= c.expiresAt.value)
    && q.targets(c)
    && (c.geo ==> q.audience(c) >= 25 && q.audience(c) >= c.minAudience)
    && (at in rows && rows[at].converted ==> c.repeatAfterConvert)
    && (at in rows && c.maxImpressions.Some? ==> c.maxImpressions.value == 0 || rows[at].shown < c.maxImpressions.value)
  }

  /** Eligible is just that: it may be shown and yields a card. */
  lemma EligibleIff(q: Ask, rows: Presentations, c: Campaign)
    ensures Eligible(q, rows, c) <==> MayBeShown(q, rows, c) && Yield(q, c).Some?
  {
  }

  /** What the answer means, on the campaigns' own fields. One that is served wants the moment,
      may be shown, and no other such campaign with a card has a higher priority, nor the same
      and an earlier place. With no answer, every campaign that wants the moment may not be
      shown or has no card. */
  lemma ServedMeans(q: Ask, rows: Presentations, cs: seq<Campaign>, r: Option<nat>, j: nat, v: int)
    requires IsBest(q, rows, cs, r)
    requires j < |cs| && IsPriority(cs[j], q.placement, q.feature, Some(v))
    requires MayBeShown(q, rows, cs[j]) && Yield(q, cs[j]).Some?
    ensures r.Some? && r.value < |cs|
    ensures MayBeShown(q, rows, cs[r.value]) && Yield(q, cs[r.value]).Some?
    ensures exists w :: IsPriority(cs[r.value], q.placement, q.feature, Some(w)) && (w > v || (w == v && r.value <= j))
  {
    EligibleIff(q, rows, cs[j]);
    PriorityIsAsPromised(cs[j], q.placement, q.feature);
    PriorityIsOne(cs[j], q.placement, q.feature, Some(v), Priority(cs[j], q.placement, q.feature));
    assert Candidate(q, rows, cs, j);
    var i := r.value;
    EligibleIff(q, rows, cs[i]);
    PriorityIsAsPromised(cs[i], q.placement, q.feature);
    var w := Priority(cs[i], q.placement, q.feature).value;
    assert IsPriority(cs[i], q.placement, q.feature, Some(w));
  }

  /** A served campaign always wants the moment and may be shown. */
  lemma ServedMayBeShown(q: Ask, rows: Presentations, cs: seq<Campaign>, i: nat)
    requires IsBest(q, rows, cs, Some(i))
    ensures i < |cs| && MayBeShown(q, rows, cs[i]) && Yield(q, cs[i]).Some?
    ensures !IsPriority(cs[i], q.placement, q.feature, None)
  {
    EligibleIff(q, rows, cs[i]);
    PriorityIsAsPromised(cs[i], q.placement, q.feature);
    if IsPriority(cs[i], q.placement, q.feature, None) {
      PriorityIsOne(cs[i], q.placement, q.feature, None, Priority(cs[i], q.placement, q.feature));
    }
  }

  lemma PriorityIsOne(c: Campaign, placement: Option<string>, feature: Option<string>, r: Option<int>, u: Option<int>)
    requires IsPriority(c, placement, feature, r) && IsPriority(c, placement, feature, u)
    ensures r == u
  {
  }

  /** The answer resolve must give: the candidate that outranks all others, if there is any. */
  ghost predicate IsBest(q: Ask, rows: Presentations, cs: seq<Campaign>, r: Option<nat>) {
    match r
    case None => forall i :: !Candidate(q, rows, cs, i)
    case Some(i) => Candidate(q, rows, cs, i)
                    && forall j :: Candidate(q, rows, cs, j) && j != i ==> Outranks(q, cs, i, j)
  }

  /** There is at most one such answer. */
  lemma BestIsUnique(q: Ask, rows: Presentations, cs: seq<Campaign>, r: Option<nat>, s: Option<nat>)
    requires IsBest(q, rows, cs, r) && IsBest(q, rows, cs, s)
    ensures r == s
  {
  }

  datatype Served = Served(place: nat, card: Variant)

  function PlaceOf(r: Option<Served>): Option<nat> {
    if r.Some? then Some(r.value.place) else None
  }

  /** The capability gate and the weighted pick among what passes it. */
  method PickCard(q: Ask, c: Campaign) returns (card: Option<Variant>)
    ensures card == Yield(q, c)
    ensures card.Some? ==> Showable(q, c, card.value)
  {
    YieldIsShowable(q, c);
    var capable := Capable(q, c.variants);
    var pos := Pick(Weights(capable), q.hash(c.id));
    return if pos.Some? && !capable[pos.value].Empty? then Some(capable[pos.value]) else None;
  }

  /** The selection of resolve_promo: the best campaign and the card it yields, or None. */
  method Resolve(q: Ask, rows: Presentations, cs: seq<Campaign>) returns (r: Option<Served>)
    ensures IsBest(q, rows, cs, PlaceOf(r))
    ensures r.Some? ==> Yield(q, cs[r.value.place]) == Some(r.value.card)
    ensures r.Some? ==> Showable(q, cs[r.value.place], r.value.card)
  {
    var s := Scope(q, cs);
    for k := 0 to |s|
      invariant forall m :: 0 <= m < k ==> !Eligible(q, rows, cs[s[m].place])
    {
      var i := s[k].place;
      if Admitted(q, rows, cs[i]) {
        var card := PickCard(q, cs[i]);
        if card.Some? {
          FirstEligibleIsBest(q, rows, cs, s, k);
          return Some(Served(i, card.value));
        }
      }
    }
    NoneEligibleIsBest(q, rows, cs, s);
    return None;
  }

  lemma NoneEligibleIsBest(q: Ask, rows: Presentations, cs: seq<Campaign>, s: seq<Scoped>)
    requires forall x :: x in s <==> x.place < |cs| && Priority(cs[x.place], q.placement, q.feature) == Some(x.priority)
    requires forall m :: 0 <= m < |s| ==> !Eligible(q, rows, cs[s[m].place])
    ensures IsBest(q, rows, cs, None)
  {
    forall j: nat
      ensures !Candidate(q, rows, cs, j)
    {
      if j < |cs| && Priority(cs[j], q.placement, q.feature).Some? {
        assert Scoped(Priority(cs[j], q.placement, q.feature).value, j) in s;
      }
    }
  }

  lemma FirstEligibleIsBest(q: Ask, rows: Presentations, cs: seq<Campaign>, s: seq<Scoped>, k: nat)
    requires Ordered(s) && k < |s|
    requires forall x :: x in s <==> x.place < |cs| && Priority(cs[x.place], q.placement, q.feature) == Some(x.priority)
    requires Eligible(q, rows, cs[s[k].place]) && forall m :: 0 <= m < k ==> !Eligible(q, rows, cs[s[m].place])
    ensures IsBest(q, rows, cs, Some(s[k].place))
  {
    var i := s[k].place;
    assert s[k] in s;
    forall j: nat | Candidate(q, rows, cs, j) && j != i
      ensures Outranks(q, cs, i, j)
    {
      var x := Scoped(Priority(cs[j], q.placement, q.feature).value, j);
      var m :| 0 <= m < |s| && s[m] == x;
    }
  }

  // ---------------------------------------------------- presentations in time

  datatype Kind = Impression | Click | Dismiss | Convert

  /** A client event; one about no campaign leaves the presentation rows alone. */
  datatype ClientEvent = ClientEvent(kind: Kind, device: string, campaign: Option<string>)

  function Ingested(rows: Presentations, e: ClientEvent): Presentations {
    if e.campaign.None? || e.campaign.value == "" then rows
    else
      var at := Pair(e.device, e.campaign.value);
      match e.kind
      case Impression =>
        rows[at := if at in rows then rows[at].(shown := rows[at].shown + 1) else Presentation(1, false)]
      case Convert => if at in rows then rows[at := rows[at].(converted := true)] else rows
      case _ => rows
  }

  /** The rows after a history of events, from an empty table. */
  function Recorded(es: seq<ClientEvent>): Presentations
    decreases |es|
  {
    if es == [] then map[] else Ingested(Recorded(es[..|es| - 1]), es[|es| - 1])
  }

  predicate About(e: ClientEvent, kind: Kind, at: Pair) {
    at.campaign != "" && e == ClientEvent(kind, at.device, Some(at.campaign))
  }

  function Impressions(es: seq<ClientEvent>, at: Pair): nat
    decreases |es|
  {
    if es == [] then 0
    else Impressions(es[..|es| - 1], at) + if About(es[|es| - 1], Impression, at) then 1 else 0
  }

  /** The device converted on the campaign after having seen it. */
  ghost predicate ConvertedIn(es: seq<ClientEvent>, at: Pair) {
    exists i, j :: 0 <= i < j < |es| && About(es[i], Impression, at) && About(es[j], Convert, at)
  }

  lemma {:induction false} NoImpressions(es: seq<ClientEvent>, at: Pair)
    ensures Impressions(es, at) > 0 <==> exists i :: 0 <= i < |es| && About(es[i], Impression, at)
    decreases |es|
  {
    if es != [] {
      var init := es[..|es| - 1];
      NoImpressions(init, at);
      if Impressions(init, at) > 0 {
        var i :| 0 <= i < |init| && About(init[i], Impression, at);
        assert About(es[i], Impression, at);
      }
      if i :| 0 <= i < |es| && About(es[i], Impression, at) {
        assert i < |init| ==> About(init[i], Impression, at);
      }
    }
  }

  /** What a row says about the events: it exists exactly if the pair had an impression, counts
      the impressions, and is converted exactly if a convert followed one of them. */
  ghost predicate Tells(rows: Presentations, es: seq<ClientEvent>, at: Pair) {
    && (at in rows <==> Impressions(es, at) > 0)
    && (at in rows ==> rows[at].shown == Impressions(es, at) && (rows[at].converted <==> ConvertedIn(es, at)))
  }

  lemma IngestTells(rows: Presentations, es: seq<ClientEvent>, e: ClientEvent, at: Pair)
    requires Tells(rows, es, at)
    ensures Tells(Ingested(rows, e), es + [e], at)
  {
    var more := es + [e];
    assert more[..|more| - 1] == es;
    NoImpressions(es, at);
    ConvertedStep(es, e, at);
  }

  lemma ConvertedStep(es: seq<ClientEvent>, e: ClientEvent, at: Pair)
    ensures ConvertedIn(es + [e], at) <==> ConvertedIn(es, at) || (About(e, Convert, at) && Impressions(es, at) > 0)
  {
    var more := es + [e];
    NoImpressions(es, at);
    if ConvertedIn(es, at) {
      var i, j :| 0 <= i < j < |es| && About(es[i], Impression, at) && About(es[j], Convert, at);
      assert About(more[i], Impression, at) && About(more[j], Convert, at);
    }
    if About(e, Convert, at) && Impressions(es, at) > 0 {
      var i :| 0 <= i < |es| && About(es[i], Impression, at);
      assert About(more[i], Impression, at) && About(more[|es|], Convert, at);
    }
    if ConvertedIn(more, at) {
      var i, j :| 0 <= i < j < |more| && About(more[i], Impression, at) && About(more[j], Convert, at);
      assert About(es[i], Impression, at);
    }
  }

  lemma {:induction false} RowsTellHistory(es: seq<ClientEvent>, at: Pair)
    ensures Tells(Recorded(es), es, at)
    decreases |es|
  {
    if es != [] {
      var init := es[..|es| - 1];
      RowsTellHistory(init, at);
      IngestTells(Recorded(init), init, es[|es| - 1], at);
      assert init + [es[|es| - 1]] == es;
    }
  }

  /** The promo_presentations table; `history` is every event it was told of. */
  class PresentationTable {
    var rows: Presentations
    ghost var history: seq<ClientEvent>

    ghost predicate Valid()
      reads this
    {
      rows == Recorded(history)
    }

    constructor ()
      ensures Valid() && rows == map[] && history == []
    {
      rows, history := map[], [];
    }

    /** The upserts of ingest_promo_event. The table goes on telling the history; no row is
        lost, no count falls, no conversion is undone, and no other pair's row moves. */
    method Ingest(e: ClientEvent)
      requires Valid()
      modifies this
      ensures Valid() && history == old(history) + [e] && forall at :: Tells(rows, history, at)
      ensures rows == Ingested(old(rows), e)
      ensures forall at :: at in old(rows) ==>
                && at in rows && rows[at].shown >= old(rows)[at].shown
                && (old(rows)[at].converted ==> rows[at].converted)
      ensures forall at: Pair :: e.campaign != Some(at.campaign) || e.device != at.device ==>
                (at in rows <==> at in old(rows)) && (at in rows ==> rows[at] == old(rows)[at])
    {
      history := history + [e];
      assert history[..|history| - 1] == old(history);
      forall at: Pair
        ensures Tells(Recorded(history), history, at)
      {
        RowsTellHistory(history, at);
      }
      if e.campaign.None? || e.campaign.value == "" {
        return;
      }
      var at := Pair(e.device, e.campaign.value);
      if e.kind.Impression? {
        if at in rows {
          rows := rows[at := rows[at].(shown := rows[at].shown + 1)];
        } else {
          rows := rows[at := Presentation(1, false)];
        }
      } else if e.kind.Convert? && at in rows {
        rows := rows[at := rows[at].(converted := true)];
      }
    }
  }

  /** An impression followed by a convert suppresses the campaign for that device, for ever and
      against every request, whatever else the clients report, unless the campaign repeats. */
  lemma ConvertedIsNeverServed(history: seq<ClientEvent>, i: nat, j: nat, at: Pair,
                               q: Ask, cs: seq<Campaign>, r: Option<nat>)
    requires i < j < |history| && About(history[i], Impression, at) && About(history[j], Convert, at)
    requires q.device == at.device && IsBest(q, Recorded(history), cs, r)
    ensures r.Some? && cs[r.value].id == at.campaign ==> cs[r.value].repeatAfterConvert
  {
    RowsTellHistory(history, at);
    NoImpressions(history, at);
  }

  /** A convert counts exactly if an impression of the pair came before it; else it is lost. */
  lemma ConvertNeedsAnImpression(history: seq<ClientEvent>, e: ClientEvent, at: Pair)
    requires About(e, Convert, at)
    ensures ConvertedIn(history + [e], at) <==> Impressions(history, at) > 0
    ensures Impressions(history, at) == 0 ==> Recorded(history + [e]) == Recorded(history)
  {
    assert (history + [e])[..|history|] == history;
    RowsTellHistory(history, at);
    ConvertedStep(history, e, at);
    ConvertedHadImpression(history, at);
  }

  lemma ConvertedHadImpression(es: seq<ClientEvent>, at: Pair)
    ensures ConvertedIn(es, at) ==> Impressions(es, at) > 0
  {
    NoImpressions(es, at);
  }

  // -------------------------------------------------------------- the cap

  /** Rows together with the cards that were served and not yet reported as seen. */
  datatype World = World(rows: Presentations, pending: set<Pair>)

  /** A served card, or a client event. */
  datatype Action = Serve(q: Ask, cs: seq<Campaign>, place: nat) | Report(event: ClientEvent)

  /** Serves are answers of resolve; impressions of the watched campaign alternate with them:
      one impression per served card. */
  ghost predicate Possible(w: World, a: Action, at: Pair) {
    match a
    case Serve(q, cs, place) => IsBest(q, w.rows, cs, Some(place))
    case Report(e) =>
      e.kind.Impression? && e.campaign.Some? && Pair(e.device, e.campaign.value) == at ==> at in w.pending
  }

  function Next(w: World, a: Action): World {
    match a
    case Serve(q, cs, place) =>
      if place < |cs| then w.(pending := w.pending + {Pair(q.device, cs[place].id)}) else w
    case Report(e) =>
      var seen := if e.kind.Impression? && e.campaign.Some? then {Pair(e.device, e.campaign.value)} else {};
      World(Ingested(w.rows, e), w.pending - seen)
  }

  /** A served card may be reported as seen, once; the report clears it. */
  lemma ServedMayBeReported(w: World, q: Ask, cs: seq<Campaign>, place: nat)
    requires place < |cs|
    ensures var at, seen := Pair(q.device, cs[place].id), Report(ClientEvent(Impression, q.device, Some(cs[place].id)));
            var v := Next(w, Serve(q, cs, place));
            && v.rows == w.rows && v.pending == w.pending + {at}
            && Possible(v, seen, at) && Next(v, seen).pending == w.pending - {at}
  {
  }

  function After(w: World, actions: seq<Action>): World
    decreases |actions|
  {
    if actions == [] then w else After(Next(w, actions[0]), actions[1..])
  }

  ghost predicate AllPossible(w: World, actions: seq<Action>, at: Pair)
    decreases |actions|
  {
    actions == [] || (Possible(w, actions[0], at) && AllPossible(Next(w, actions[0]), actions[1..], at))
  }

  /** The campaign carries one cap wherever it is offered. */
  ghost predicate CapIs(actions: seq<Action>, campaign: string, cap: int) {
    forall i, k :: 0 <= i < |actions| && actions[i].Serve? && 0 <= k < |actions[i].cs| ==>
      actions[i].cs[k].id == campaign ==> actions[i].cs[k].maxImpressions == Some(cap)
  }

  function Shown(w: World, at: Pair): nat {
    (if at in w.rows then w.rows[at].shown else 0) + (if at in w.pending then 1 else 0)
  }

  /** While serve and impression alternate, the shown count never passes the cap. */
  lemma {:induction false} CapHolds(w: World, actions: seq<Action>, at: Pair, cap: int)
    requires cap > 0 && Shown(w, at) <= cap && AllPossible(w, actions, at) && CapIs(actions, at.campaign, cap)
    ensures Shown(After(w, actions), at) <= cap
    decreases |actions|
  {
    if actions != [] {
      CapStep(w, actions[0], at, cap);
      CapHolds(Next(w, actions[0]), actions[1..], at, cap);
    }
  }

  lemma CapStep(w: World, a: Action, at: Pair, cap: int)
    requires cap > 0 && Shown(w, at) <= cap && Possible(w, a, at) && CapIs([a], at.campaign, cap)
    ensures Shown(Next(w, a), at) <= cap
  {
    if a.Serve? {
      var c := a.cs[a.place];
      if Pair(a.q.device, c.id) == at {
        assert [a][0].cs[a.place].maxImpressions == Some(cap);
      }
    }
  }
}
