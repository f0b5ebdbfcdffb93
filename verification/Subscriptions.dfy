/**
 The App Store notification webhook as a state machine over user rows and the
 append-only subscription history (app/routers/apple_webhooks.py).

 Signature verification, the purchase ledger, the one-time unlocks and the
 status row are outside; what they decide arrives with the notification or the
 configuration. Rows are kept in table order, so a SELECT returns the first.
 */
module Subscriptions {
  import opened Options

  datatype Tier = Tier(name: string, costLimit: real, products: seq<string>)

  datatype User = User(
    id: string,
    tier: string,
    isTrial: bool,
    otid: Option<string>,           // original_transaction_id
    costLimit: real,
    used: real,
    overage: real,
    searches: nat,
    resetsAt: int,
    trial: Option<(int, int)>,
    simulatedTier: Option<string>,
    simulatedExhausted: bool)

  datatype Event = Event(user: string, kind: string, from: string, to: string)

  /** A decoded notification; `decoded` is false when its transaction could not be read.
      A missing originalTransactionId is the empty string. */
  datatype Notification = Notification(
    bundle: Option<string>, kind: string, decoded: bool, product: Option<string>,
    otid: string, token: Option<string>, expires: Option<int>)

  datatype Config = Config(
    ours: set<Option<string>>, ledger: set<Option<string>>, mainBundle: Option<string>,
    tiers: seq<Tier>, isUnlock: string -> bool, lower: string -> string, nextReset: (int, Option<int>) -> int)

  datatype Store = Store(users: seq<User>, events: seq<Event>)

  const FREE := "free"

  // ----------------------------------------------------------------- tiers

  function Products(t: Tier): map<string, string> {
    map p | p in t.products && p != "" :: t.name
  }

  /** Later tiers overwrite earlier ones. */
  function ProductMap(tiers: seq<Tier>): map<string, string> {
    if tiers == [] then map[] else ProductMap(tiers[..|tiers| - 1]) + Products(tiers[|tiers| - 1])
  }

  predicate Known(tiers: seq<Tier>, name: string) {
    exists i :: 0 <= i < |tiers| && tiers[i].name == name
  }

  /** tier_config.tiers.get(name) */
  function TierNamed(tiers: seq<Tier>, name: string): (r: Option<Tier>)
    ensures r.Some? <==> Known(tiers, name)
    ensures r.Some? ==> r.value in tiers && r.value.name == name
  {
    if tiers == [] then None
    else if tiers[0].name == name then Some(tiers[0])
    else TierNamed(tiers[1..], name)
  }

  /** A product only ever maps to a configured tier, and only products some tier lists map at all. */
  lemma {:induction false} ProductsMapToKnownTiers(tiers: seq<Tier>, p: string)
    ensures p in ProductMap(tiers) <==> p != "" && exists t :: t in tiers && p in t.products
    ensures p in ProductMap(tiers) ==> Known(tiers, ProductMap(tiers)[p])
  {
    if tiers != [] {
      var init := tiers[..|tiers| - 1];
      ProductsMapToKnownTiers(init, p);
      if p in ProductMap(init) {
        var i :| 0 <= i < |init| && init[i].name == ProductMap(init)[p];
      }
    }
  }

  /** A product maps to the last tier that lists it. */
  lemma {:induction false} LastTierWins(tiers: seq<Tier>, p: string, i: nat)
    requires p != "" && i < |tiers| && p in tiers[i].products
    requires forall j :: i < j < |tiers| ==> p !in tiers[j].products
    ensures p in ProductMap(tiers) && ProductMap(tiers)[p] == tiers[i].name
  {
    var n := |tiers| - 1;
    if i < n {
      LastTierWins(tiers[..n], p, i);
    }
  }

  /** _build_product_to_tier */
  method BuildProductToTier(tiers: seq<Tier>) returns (m: map<string, string>)
    ensures m == ProductMap(tiers)
  {
    m := map[];
    for i := 0 to |tiers|
      invariant m == ProductMap(tiers[..i])
    {
      m := AddProducts(m, tiers[i]);
      assert tiers[..i + 1][..i] == tiers[..i];
    }
    assert tiers[..|tiers|] == tiers;
  }

  method AddProducts(was: map<string, string>, t: Tier) returns (m: map<string, string>)
    ensures m == was + Products(t)
  {
    m := was;
    for j := 0 to |t.products|
      invariant m == was + Products(t.(products := t.products[..j]))
    {
      OneMoreProduct(was, t, j);
      if t.products[j] != "" {
        m := m[t.products[j] := t.name];
      }
    }
    assert t.products[..|t.products|] == t.products;
  }

  lemma OneMoreProduct(was: map<string, string>, t: Tier, j: nat)
    requires j < |t.products|
    ensures var now := was + Products(t.(products := t.products[..j]));
            was + Products(t.(products := t.products[..j + 1])) ==
            if t.products[j] != "" then now[t.products[j] := t.name] else now
  {
    var before, after := t.products[..j], t.products[..j + 1];
    assert forall p :: p in after <==> p in before || p == t.products[j];
  }

  // ---------------------------------------------------------------- matching

  /** The place of the first row with that transaction id, or |users|. */
  function FindOtid(users: seq<User>, otid: string): (i: nat)
    ensures i <= |users| && (i < |users| ==> users[i].otid == Some(otid))
    ensures forall j :: 0 <= j < i ==> users[j].otid != Some(otid)
  {
    if users == [] || users[0].otid == Some(otid) then 0 else 1 + FindOtid(users[1..], otid)
  }

  function FindId(users: seq<User>, id: string): (i: nat)
    ensures i <= |users| && (i < |users| ==> users[i].id == id)
    ensures forall j :: 0 <= j < i ==> users[j].id != id
  {
    if users == [] || users[0].id == id then 0 else 1 + FindId(users[1..], id)
  }

  predicate MatchesOtid(users: seq<User>, n: Notification) {
    n.otid != "" && FindOtid(users, n.otid) < |users|
  }

  /** By transaction id first, then by the account token, which is a user id. */
  function Match(cfg: Config, users: seq<User>, n: Notification): (i: nat)
    ensures i <= |users|
  {
    if MatchesOtid(users, n) then FindOtid(users, n.otid)
    else if n.token.Some? && n.token.value != "" then FindId(users, cfg.lower(n.token.value))
    else |users|
  }

  // ---------------------------------------------------------------- dispatch

  datatype Action =
    | Foreign | Ledger | Undecoded | Unlock | NotATierProduct | UserNotFound | UnknownProduct
    | Renewed | Upgraded | AlreadyFree | Downgraded | Refunded | BillingRetry | RenewalStatus | Tested | Ignored

  /** The exits before any user is looked up. */
  function Screen(cfg: Config, n: Notification): Option<Action> {
    if n.bundle in cfg.ledger && n.bundle !in cfg.ours then Some(if n.decoded then Ledger else Undecoded)
    else if n.bundle !in cfg.ours then Some(Foreign)
    else if !n.decoded then Some(Undecoded)
    else
      var product := if n.product.Some? then n.product.value else "unknown";
      if cfg.isUnlock(product) then Some(Unlock)
      else if n.bundle != cfg.mainBundle && product !in ProductMap(cfg.tiers) then Some(NotATierProduct)
      else None
  }

  predicate IsUpgrade(kind: string) { kind == "SUBSCRIBED" || kind == "DID_RENEW" }
  predicate IsDowngrade(kind: string) { kind == "EXPIRED" || kind == "REVOKE" || kind == "GRACE_PERIOD_EXPIRED" }
  predicate IsRefund(kind: string) { kind == "REFUND" }

  /** The limit of the free tier, or what stands in for it when none is configured. */
  function FreeLimit(tiers: seq<Tier>): real {
    match TierNamed(tiers, FREE)
    case Some(free) => free.costLimit
    case None => 0.05
  }

  /** No trial is running and no tier is being simulated. */
  function Plain(u: User): User {
    u.(isTrial := false, trial := None, simulatedTier := None, simulatedExhausted := false)
  }

  function Freed(cfg: Config, u: User): User {
    Plain(u).(tier := FREE, costLimit := FreeLimit(cfg.tiers), used := FreeLimit(cfg.tiers), overage := 0.0)
  }

  function Raised(cfg: Config, u: User, name: string, now: int, expires: Option<int>): User {
    match TierNamed(cfg.tiers, name)
    case None => u
    case Some(tier) => Plain(RolledOver(cfg, u, now, expires)).(tier := name, costLimit := tier.costLimit)
  }

  function RolledOver(cfg: Config, u: User, now: int, expires: Option<int>): User {
    u.(used := 0.0, overage := 0.0, searches := 0, resetsAt := cfg.nextReset(now, expires))
  }

  function Adopted(cfg: Config, users: seq<User>, u: User, n: Notification): User {
    if !MatchesOtid(users, n) && n.otid != "" then u.(otid := Some(n.otid)) else u
  }

  /** What a screened notification does to the user it matched. */
  datatype Effect = Effect(action: Action, user: User, events: seq<Event>)

  /** The tier the product stands for: a renewal of it, or a move to it. */
  function Moved(cfg: Config, u: User, name: string, now: int, expires: Option<int>): Effect {
    if u.tier == name && !u.isTrial then
      Effect(Renewed, RolledOver(cfg, u, now, expires), [Event(u.id, "renewed", u.tier, u.tier)])
    else
      Effect(Upgraded, Raised(cfg, u, name, now, expires),
             [Event(u.id, if u.tier == FREE then "subscribed" else "upgraded", u.tier, name)])
  }

  /** SUBSCRIBED and DID_RENEW. */
  function ApplyUpgrade(cfg: Config, users: seq<User>, u: User, n: Notification, now: int): Effect {
    var product := if n.product.Some? then n.product.value else "";
    if product !in ProductMap(cfg.tiers) then Effect(UnknownProduct, u, [])
    else Moved(cfg, Adopted(cfg, users, u, n), ProductMap(cfg.tiers)[product], now, n.expires)
  }

  function Apply(cfg: Config, users: seq<User>, u: User, n: Notification, now: int): Effect {
    if IsUpgrade(n.kind) then ApplyUpgrade(cfg, users, u, n, now)
    else if IsDowngrade(n.kind) then
      if u.tier == FREE then Effect(AlreadyFree, u, [])
      else
        Effect(Downgraded, Freed(cfg, u),
               [Event(u.id, if n.kind == "REVOKE" then "revoked" else "expired", u.tier, FREE)])
    else if IsRefund(n.kind) then
      if u.tier == FREE then Effect(AlreadyFree, u, [])
      else Effect(Refunded, Freed(cfg, u), [Event(u.id, "refunded", u.tier, FREE)])
    else if n.kind == "DID_FAIL_TO_RENEW" then
      Effect(BillingRetry, u, [Event(u.id, "billing_failed", u.tier, u.tier)])
    else if n.kind == "DID_CHANGE_RENEWAL_STATUS" then
      Effect(RenewalStatus, u, [Event(u.id, "renewal_status_changed", u.tier, u.tier)])
    else if n.kind == "TEST" then Effect(Tested, u, [])
    else Effect(Ignored, u, [])
  }

  function Step(cfg: Config, s: Store, n: Notification, now: int): Store {
    var i := Match(cfg, s.users, n);
    if Screen(cfg, n).Some? || i == |s.users| then s
    else
      var e := Apply(cfg, s.users, s.users[i], n, now);
      Store(s.users[i := e.user], s.events + e.events)
  }

  /** The users table and the history, as the endpoint changes them. */
  class Webhook {
    var users: seq<User>
    var events: seq<Event>

    constructor (users: seq<User>)
      ensures this.users == users && events == []
    {
      this.users, events := users, [];
    }

    /** _downgrade_to_free: whatever the row held, nothing is left to spend, no trial or
        simulation runs, and no other row moves. */
    method DowngradeToFree(cfg: Config, i: nat) returns (tier: string)
      requires i < |users|
      modifies this`users
      ensures users == old(users)[i := Freed(cfg, old(users)[i])]
      ensures tier == users[i].tier == FREE && Remaining(users[i]) == 0.0 && Plain(users[i]) == users[i]
      ensures SameIds(old(users), users) && forall j :: 0 <= j < |users| && j != i ==> users[j] == old(users)[j]
    {
      var u := users[i];
      var free := TierNamed(cfg.tiers, FREE);
      var limit := if free.Some? then free.value.costLimit else 0.05;
      u := u.(tier := FREE, costLimit := limit, used := limit, overage := 0.0);
      u := u.(isTrial := false, trial := None, simulatedTier := None, simulatedExhausted := false);
      users, tier := users[i := u], FREE;
    }

    /** _upgrade_to_tier: the row has the whole allowance of its tier, whatever it held; a tier
        that is not configured is reported back but not written. */
    method UpgradeToTier(cfg: Config, i: nat, name: string, now: int, expires: Option<int>) returns (tier: string)
      requires i < |users|
      modifies this`users
      ensures users == old(users)[i := Raised(cfg, old(users)[i], name, now, expires)] && tier == name
      ensures !Known(cfg.tiers, name) ==> users == old(users)
      ensures Known(cfg.tiers, name) ==>
                && users[i].tier == tier && Plain(users[i]) == users[i]
                && exists t :: t in cfg.tiers && t.name == tier && Remaining(users[i]) == t.costLimit
      ensures SameIds(old(users), users) && forall j :: 0 <= j < |users| && j != i ==> users[j] == old(users)[j]
    {
      tier := name;
      var found := TierNamed(cfg.tiers, name);
      if found.Some? {
        var u := users[i];
        u := u.(tier := name, costLimit := found.value.costLimit, used := 0.0, overage := 0.0, searches := 0);
        u := u.(resetsAt := cfg.nextReset(now, expires));
        u := u.(isTrial := false, trial := None, simulatedTier := None, simulatedExhausted := false);
        users := users[i := u];
      }
    }

    /** apple_notifications, from the decoded notification on. */
    method Handle(cfg: Config, n: Notification, now: int) returns (action: Action)
      modifies this
      ensures Store(users, events) == Step(cfg, Store(old(users), old(events)), n, now)
      ensures Screen(cfg, n).Some? ==> action == Screen(cfg, n).value
      ensures Screen(cfg, n).None? ==>
                var us := old(users);
                var i := Match(cfg, us, n);
                action == if i == |us| then UserNotFound else Apply(cfg, us, us[i], n, now).action
    {
      var early := Screen(cfg, n);
      if early.Some? {
        return early.value;
      }
      var i := if n.otid != "" then FindOtid(users, n.otid) else |users|;
      var byToken := false;
      if i == |users| && n.token.Some? && n.token.value != "" {
        i := FindId(users, cfg.lower(n.token.value));
        byToken := i < |users|;
      }
      if i == |users| {
        return UserNotFound;
      }
      var u := users[i];
      if IsUpgrade(n.kind) {
        action := Upgrade(cfg, i, byToken, n, now);
      } else if IsDowngrade(n.kind) || IsRefund(n.kind) {
        if u.tier == FREE {
          return AlreadyFree;
        }
        var tier := DowngradeToFree(cfg, i);
        var kind := if IsRefund(n.kind) then "refunded" else if n.kind == "REVOKE" then "revoked" else "expired";
        events := events + [Event(u.id, kind, u.tier, tier)];
        action := if IsRefund(n.kind) then Refunded else Downgraded;
      } else if n.kind == "DID_FAIL_TO_RENEW" {
        events := events + [Event(u.id, "billing_failed", u.tier, u.tier)];
        action := BillingRetry;
      } else if n.kind == "DID_CHANGE_RENEWAL_STATUS" {
        events := events + [Event(u.id, "renewal_status_changed", u.tier, u.tier)];
        action := RenewalStatus;
      } else {
        action := if n.kind == "TEST" then Tested else Ignored;
      }
    }

    /** A user matched by the account token takes over the transaction id. */
    method Adopt(cfg: Config, i: nat, byToken: bool, n: Notification)
      requires i < |users| && (byToken <==> !MatchesOtid(users, n))
      modifies this`users
      ensures users == old(users)[i := Adopted(cfg, old(users), old(users)[i], n)]
    {
      if byToken && n.otid != "" {
        users := users[i := users[i].(otid := Some(n.otid))];
      }
    }

    /** _renew_same_tier */
    method RenewSameTier(cfg: Config, i: nat, now: int, expires: Option<int>)
      requires i < |users|
      modifies this`users
      ensures users == old(users)[i := RolledOver(cfg, old(users)[i], now, expires)]
      ensures Remaining(users[i]) == users[i].costLimit == old(users)[i].costLimit
      ensures users[i].tier == old(users)[i].tier
    {
      var u := users[i];
      u := u.(used := 0.0, overage := 0.0, searches := 0);
      users := users[i := u.(resetsAt := cfg.nextReset(now, expires))];
    }

    /** The SUBSCRIBED / DID_RENEW branch: adopt, then renew or move. */
    method Upgrade(cfg: Config, i: nat, byToken: bool, n: Notification, now: int) returns (action: Action)
      requires i < |users| && (byToken <==> !MatchesOtid(users, n))
      modifies this
      ensures var e := ApplyUpgrade(cfg, old(users), old(users)[i], n, now);
              users == old(users)[i := e.user] && events == old(events) + e.events && action == e.action
    {
      var product := if n.product.Some? then n.product.value else "";
      var m := BuildProductToTier(cfg.tiers);
      if product !in m {
        return UnknownProduct;
      }
      Adopt(cfg, i, byToken, n);
      action := RenewOrMove(cfg, i, m[product], now, n.expires);
    }

    method RenewOrMove(cfg: Config, i: nat, name: string, now: int, expires: Option<int>) returns (action: Action)
      requires i < |users|
      modifies this
      ensures var e := Moved(cfg, old(users)[i], name, now, expires);
              users == old(users)[i := e.user] && events == old(events) + e.events && action == e.action
    {
      var u := users[i];
      if u.tier == name && !u.isTrial {
        RenewSameTier(cfg, i, now, expires);
        events := events + [Event(u.id, "renewed", u.tier, u.tier)];
        return Renewed;
      }
      var tier := UpgradeToTier(cfg, i, name, now, expires);
      events := events + [Event(u.id, if u.tier == FREE then "subscribed" else "upgraded", u.tier, tier)];
      return Upgraded;
    }
  }

  // ------------------------------------- what each kind of notification does

  /** The notification is about row `i`: the first row with its transaction id or, when no row
      has that, the first row whose id the account token spells. */
  ghost predicate Concerns(cfg: Config, users: seq<User>, n: Notification, i: nat) {
    i < |users|
    && if n.otid != "" && exists j :: 0 <= j < |users| && users[j].otid == Some(n.otid) then
         users[i].otid == Some(n.otid) && forall j :: 0 <= j < i ==> users[j].otid != Some(n.otid)
       else
         && n.token.Some? && n.token.value != "" && users[i].id == cfg.lower(n.token.value)
         && forall j :: 0 <= j < i ==> users[j].id != cfg.lower(n.token.value)
  }

  /** It is one the endpoint acts on: ours, decoded, about no one-time unlock, and either from
      the main app or about a product some tier lists. */
  ghost predicate Listened(cfg: Config, n: Notification) {
    var product := if n.product.Some? then n.product.value else "unknown";
    && n.bundle in cfg.ours && n.decoded && !cfg.isUnlock(product)
    && (n.bundle == cfg.mainBundle || (product != "" && exists t :: t in cfg.tiers && product in t.products))
  }

  /** The answer to a notification that concerns row `i`. */
  function Answer(cfg: Config, s: Store, n: Notification, now: int, i: nat): Action
    requires i < |s.users|
  {
    if Screen(cfg, n).Some? then Screen(cfg, n).value else Apply(cfg, s.users, s.users[i], n, now).action
  }

  lemma MatchedIsConcerned(cfg: Config, users: seq<User>, n: Notification, i: nat)
    ensures Concerns(cfg, users, n, i) <==> i < |users| && Match(cfg, users, n) == i
  {
    if n.otid != "" && exists j :: 0 <= j < |users| && users[j].otid == Some(n.otid) {
      assert MatchesOtid(users, n);
    }
  }

  lemma ListenedIsNotScreened(cfg: Config, n: Notification)
    ensures Listened(cfg, n) <==> Screen(cfg, n).None?
  {
    ProductsMapToKnownTiers(cfg.tiers, if n.product.Some? then n.product.value else "unknown");
  }

  /** What the screen answers: a ledger bundle is recorded, a stranger refused, an undecoded
      transaction skipped, an unlock sent elsewhere, another app's product left alone. */
  lemma ScreenedBecause(cfg: Config, n: Notification)
    ensures var product := if n.product.Some? then n.product.value else "unknown";
            match Screen(cfg, n)
            case Some(Foreign) => n.bundle !in cfg.ours && n.bundle !in cfg.ledger
            case Some(Ledger) => n.bundle !in cfg.ours && n.bundle in cfg.ledger && n.decoded
            case Some(Undecoded) => (n.bundle in cfg.ours || n.bundle in cfg.ledger) && !n.decoded
            case Some(Unlock) => n.bundle in cfg.ours && n.decoded && cfg.isUnlock(product)
            case Some(NotATierProduct) =>
              && n.bundle in cfg.ours && n.decoded && !cfg.isUnlock(product) && n.bundle != cfg.mainBundle
              && (product == "" || forall t :: t in cfg.tiers ==> product !in t.products)
            case Some(_) => false
            case None => Listened(cfg, n)
  {
    ListenedIsNotScreened(cfg, n);
    ProductsMapToKnownTiers(cfg.tiers, if n.product.Some? then n.product.value else "unknown");
  }

  /** The row after a move to a tier: the whole of its limit, from now on, and no trial. */
  ghost predicate OnTier(v: User, u: User, t: Tier, otid: Option<string>, resetsAt: int) {
    v == User(u.id, t.name, false, otid, t.costLimit, 0.0, 0.0, 0, resetsAt, None, None, false)
  }

  /** SUBSCRIBED and DID_RENEW for a product whose last listing tier is the `k`th: the user is
      on that tier afterwards, with nothing used, and holds the transaction id if no one did. */
  lemma PaidProductSetsTier(cfg: Config, s: Store, n: Notification, now: int, i: nat, k: nat)
    requires Listened(cfg, n) && Concerns(cfg, s.users, n, i) && n.kind in {"SUBSCRIBED", "DID_RENEW"}
    requires n.product.Some? && n.product.value != "" && k < |cfg.tiers| && n.product.value in cfg.tiers[k].products
    requires forall j :: k < j < |cfg.tiers| ==> n.product.value !in cfg.tiers[j].products
    requires forall j :: 0 <= j < k ==> cfg.tiers[j].name != cfg.tiers[k].name
    ensures var u, t, v := s.users[i], cfg.tiers[k], Step(cfg, s, n, now);
            var otid := if n.otid != "" then Some(n.otid) else u.otid;
            var resetsAt := cfg.nextReset(now, n.expires);
            && |v.users| == |s.users|
            && if u.tier == t.name && !u.isTrial then
                 && v.users[i] == User(u.id, u.tier, false, otid, u.costLimit, 0.0, 0.0, 0, resetsAt,
                                       u.trial, u.simulatedTier, u.simulatedExhausted)
                 && v.events == s.events + [Event(u.id, "renewed", u.tier, u.tier)]
                 && Answer(cfg, s, n, now, i) == Renewed
               else
                 && OnTier(v.users[i], u, t, otid, resetsAt)
                 && v.events == s.events
                    + [Event(u.id, if u.tier == "free" then "subscribed" else "upgraded", u.tier, t.name)]
                 && Answer(cfg, s, n, now, i) == Upgraded
  {
    ListenedIsNotScreened(cfg, n);
    MatchedIsConcerned(cfg, s.users, n, i);
    LastTierWins(cfg.tiers, n.product.value, k);
    FirstOfItsName(cfg.tiers, k);
  }

  lemma {:induction false} FirstOfItsName(tiers: seq<Tier>, k: nat)
    requires k < |tiers| && forall j :: 0 <= j < k ==> tiers[j].name != tiers[k].name
    ensures TierNamed(tiers, tiers[k].name) == Some(tiers[k])
  {
    if k > 0 {
      FirstOfItsName(tiers[1..], k - 1);
    }
  }

  /** SUBSCRIBED and DID_RENEW for a product no tier lists change nothing. */
  lemma UnlistedProductChangesNothing(cfg: Config, s: Store, n: Notification, now: int, i: nat)
    requires Listened(cfg, n) && Concerns(cfg, s.users, n, i) && n.kind in {"SUBSCRIBED", "DID_RENEW"}
    requires n.product.None? || n.product.value == "" || forall t :: t in cfg.tiers ==> n.product.value !in t.products
    ensures Step(cfg, s, n, now) == s && Answer(cfg, s, n, now, i) == UnknownProduct
  {
    ListenedIsNotScreened(cfg, n);
    MatchedIsConcerned(cfg, s.users, n, i);
    ProductsMapToKnownTiers(cfg.tiers, if n.product.Some? then n.product.value else "");
  }

  /** The limit of the free tier, or five cents when none is configured. */
  ghost predicate IsFreeLimit(tiers: seq<Tier>, limit: real) {
    if k: nat :| k < |tiers| && tiers[k].name == "free" && forall j :: 0 <= j < k ==> tiers[j].name != "free"
    then limit == tiers[k].costLimit
    else limit == 0.05
  }

  /** EXPIRED, REVOKE, GRACE_PERIOD_EXPIRED and REFUND put a paying user on the free tier with
      its limit used up; a free user is left alone. */
  lemma EndedSubscriptionFrees(cfg: Config, s: Store, n: Notification, now: int, i: nat, limit: real)
    requires Listened(cfg, n) && Concerns(cfg, s.users, n, i) && IsFreeLimit(cfg.tiers, limit)
    requires n.kind in {"EXPIRED", "REVOKE", "GRACE_PERIOD_EXPIRED", "REFUND"}
    ensures var u, v := s.users[i], Step(cfg, s, n, now);
            var why := if n.kind == "REVOKE" then "revoked" else if n.kind == "REFUND" then "refunded" else "expired";
            if u.tier == "free" then v == s && Answer(cfg, s, n, now, i) == AlreadyFree
            else
              && |v.users| == |s.users|
              && v.users[i] == User(u.id, "free", false, u.otid, limit, limit, 0.0, u.searches, u.resetsAt,
                                    None, None, false)
              && v.events == s.events + [Event(u.id, why, u.tier, "free")]
              && Answer(cfg, s, n, now, i) == if n.kind == "REFUND" then Refunded else Downgraded
  {
    ListenedIsNotScreened(cfg, n);
    MatchedIsConcerned(cfg, s.users, n, i);
    FreeLimitIsThat(cfg.tiers, limit);
  }

  lemma FreeLimitIsThat(tiers: seq<Tier>, limit: real)
    requires IsFreeLimit(tiers, limit)
    ensures FreeLimit(tiers) == limit
  {
    if Known(tiers, "free") {
      var k := FirstNamed(tiers, "free");
      FirstOfItsName(tiers, k);
    }
  }

  lemma {:induction false} FirstNamed(tiers: seq<Tier>, name: string) returns (k: nat)
    requires Known(tiers, name)
    ensures k < |tiers| && tiers[k].name == name && forall j :: 0 <= j < k ==> tiers[j].name != name
  {
    if tiers[0].name == name {
      k := 0;
    } else {
      var i :| 0 <= i < |tiers| && tiers[i].name == name;
      assert tiers[1..][i - 1].name == name;
      var rest := FirstNamed(tiers[1..], name);
      k := rest + 1;
    }
  }

  /** A failed renewal and a changed renewal status are recorded and touch no row; every other
      kind, and a notification that concerns nobody, leaves no trace at all. */
  lemma OtherKindsTouchNoRow(cfg: Config, s: Store, n: Notification, now: int, i: nat)
    requires Listened(cfg, n)
    requires n.kind !in {"SUBSCRIBED", "DID_RENEW", "EXPIRED", "REVOKE", "GRACE_PERIOD_EXPIRED", "REFUND"}
    ensures Step(cfg, s, n, now).users == s.users
    ensures Concerns(cfg, s.users, n, i) ==>
              var u := s.users[i];
              && Step(cfg, s, n, now).events == s.events +
                 (if n.kind == "DID_FAIL_TO_RENEW" then [Event(u.id, "billing_failed", u.tier, u.tier)]
                  else if n.kind == "DID_CHANGE_RENEWAL_STATUS" then
                    [Event(u.id, "renewal_status_changed", u.tier, u.tier)]
                  else [])
              && Answer(cfg, s, n, now, i) ==
                 if n.kind == "DID_FAIL_TO_RENEW" then BillingRetry
                 else if n.kind == "DID_CHANGE_RENEWAL_STATUS" then RenewalStatus
                 else if n.kind == "TEST" then Tested
                 else Ignored
  {
    ListenedIsNotScreened(cfg, n);
    MatchedIsConcerned(cfg, s.users, n, i);
  }

  lemma UnmatchedChangesNothing(cfg: Config, s: Store, n: Notification, now: int)
    requires forall i :: !Concerns(cfg, s.users, n, i)
    ensures Step(cfg, s, n, now) == s
  {
    MatchedIsConcerned(cfg, s.users, n, Match(cfg, s.users, n));
  }

  // -------------------------------------------------------- one notification

  /** Notifications for a foreign or ledger bundle, about an unlock, or about a product that is
      no tier of the main app, change nothing at all. */
  lemma OutsidersChangeNothing(cfg: Config, s: Store, n: Notification, now: int)
    requires var product := if n.product.Some? then n.product.value else "unknown";
             n.bundle !in cfg.ours || !n.decoded || cfg.isUnlock(product)
             || (n.bundle != cfg.mainBundle && forall t :: t in cfg.tiers ==> product == "" || product !in t.products)
    ensures Step(cfg, s, n, now) == s
  {
    var product := if n.product.Some? then n.product.value else "unknown";
    ProductsMapToKnownTiers(cfg.tiers, product);
  }

  /** A notification changes at most the row it matches, and no identity. */
  lemma AtMostOneRowChanges(cfg: Config, s: Store, n: Notification, now: int, j: nat)
    requires j < |s.users|
    ensures |Step(cfg, s, n, now).users| == |s.users|
    ensures Step(cfg, s, n, now).users[j].id == s.users[j].id
    ensures j != Match(cfg, s.users, n) ==> Step(cfg, s, n, now).users[j] == s.users[j]
  {
  }

  ghost predicate UniqueIds(users: seq<User>) {
    forall i, j :: 0 <= i < j < |users| ==> users[i].id != users[j].id
  }

  ghost predicate UniqueOtids(users: seq<User>) {
    forall i, j :: 0 <= i < j < |users| && users[i].otid.Some? ==> users[i].otid != users[j].otid
  }

  /** A row keeps its transaction id, or takes over one that no row has. */
  lemma OtidIsKeptOrAdopted(cfg: Config, users: seq<User>, u: User, n: Notification, now: int)
    ensures var e := Apply(cfg, users, u, n, now);
            e.user.otid == u.otid || (e.user.otid == Some(n.otid) && n.otid != "" && !MatchesOtid(users, n))
  {
  }

  /** No two users ever hold the same transaction id, adoption included. */
  lemma StepKeepsUniqueOtids(cfg: Config, s: Store, n: Notification, now: int)
    requires UniqueOtids(s.users)
    ensures UniqueOtids(Step(cfg, s, n, now).users)
  {
    var i := Match(cfg, s.users, n);
    if Screen(cfg, n).None? && i < |s.users| {
      var u := Apply(cfg, s.users, s.users[i], n, now).user;
      OtidIsKeptOrAdopted(cfg, s.users, s.users[i], n, now);
      ReplacingKeepsUniqueOtids(s.users, i, u);
    }
  }

  lemma ReplacingKeepsUniqueOtids(users: seq<User>, i: nat, u: User)
    requires UniqueOtids(users) && i < |users|
    requires u.otid == users[i].otid || forall j :: 0 <= j < |users| ==> users[j].otid != u.otid
    ensures UniqueOtids(users[i := u])
  {
  }

  /** What is left of the month's limit. */
  function Remaining(u: User): real {
    u.costLimit - u.used
  }

  /** The allowance after each tier move: a downgrade leaves none; an upgrade all of the new
      tier's; a renewal all of the limit the row already had. Nothing else touches the row. */
  lemma AllowanceFollowsTier(cfg: Config, users: seq<User>, u: User, n: Notification, now: int)
    ensures var e := Apply(cfg, users, u, n, now);
            && (e.action in {Downgraded, Refunded} ==> e.user.tier == FREE && Remaining(e.user) == 0.0)
            && (e.action == Upgraded ==> !e.user.isTrial && e.user.searches == 0)
            && (e.action == Upgraded ==>
                  exists t :: t in cfg.tiers && t.name == e.user.tier && t.costLimit == Remaining(e.user))
            && (e.action == Renewed ==> e.user.tier == u.tier && e.user.searches == 0)
            && (e.action == Renewed ==> Remaining(e.user) == e.user.costLimit == u.costLimit)
            && (e.action !in {Downgraded, Refunded, Upgraded, Renewed} ==> e.user == u)
  {
    if IsUpgrade(n.kind) {
      ProductsMapToKnownTiers(cfg.tiers, if n.product.Some? then n.product.value else "");
    }
  }

  /** Tier moves leave no trace of each other: an upgrade after any downgrade, trial, renewal or
      upgrade gives the row it would have given without, and so does a downgrade, but for the
      search count and the reset date, which it does not touch. */
  lemma TierMovesForget(cfg: Config, u: User, name: string, now: int, expires: Option<int>,
                        other: string, earlier: int, until: Option<int>)
    requires Known(cfg.tiers, name)
    ensures Raised(cfg, Freed(cfg, u), name, now, expires) == Raised(cfg, u, name, now, expires)
    ensures Raised(cfg, RolledOver(cfg, u, earlier, until), name, now, expires) == Raised(cfg, u, name, now, expires)
    ensures Raised(cfg, Raised(cfg, u, other, earlier, until), name, now, expires) == Raised(cfg, u, name, now, expires)
    ensures var v := Raised(cfg, u, name, now, expires);
            Freed(cfg, v) == Freed(cfg, u).(searches := v.searches, resetsAt := v.resetsAt)
    ensures Freed(cfg, Freed(cfg, u)) == Freed(cfg, u)
  {
  }

  // -------------------------------------------------------------- whole runs

  datatype Arrival = Arrival(n: Notification, now: int)

  function Run(cfg: Config, s: Store, arrivals: seq<Arrival>): Store
    decreases |arrivals|
  {
    if arrivals == [] then s else Run(cfg, Step(cfg, s, arrivals[0].n, arrivals[0].now), arrivals[1..])
  }

  ghost predicate Identified(users: seq<User>) {
    UniqueIds(users) && UniqueOtids(users)
  }

  ghost predicate SameIds(users: seq<User>, users': seq<User>) {
    |users'| == |users| && forall i :: 0 <= i < |users| ==> users'[i].id == users[i].id
  }

  lemma StepKeepsIds(cfg: Config, s: Store, n: Notification, now: int)
    ensures SameIds(s.users, Step(cfg, s, n, now).users)
  {
    forall j | 0 <= j < |s.users|
      ensures Step(cfg, s, n, now).users[j].id == s.users[j].id
    {
      AtMostOneRowChanges(cfg, s, n, now, j);
    }
  }

  /** Over whole runs: the same rows, and never a shared transaction id. */
  lemma {:induction false} RunKeepsIdentities(cfg: Config, s: Store, arrivals: seq<Arrival>)
    requires Identified(s.users)
    ensures Identified(Run(cfg, s, arrivals).users) && SameIds(s.users, Run(cfg, s, arrivals).users)
    decreases |arrivals|
  {
    if arrivals != [] {
      StepKeepsIds(cfg, s, arrivals[0].n, arrivals[0].now);
      StepKeepsUniqueOtids(cfg, s, arrivals[0].n, arrivals[0].now);
      RunKeepsIdentities(cfg, Step(cfg, s, arrivals[0].n, arrivals[0].now), arrivals[1..]);
    }
  }

  /** The events of one user lead without a break from one tier to another. */
  ghost predicate Leads(events: seq<Event>, user: string, from: string, to: string) {
    if events == [] then from == to
    else if events[0].user != user then Leads(events[1..], user, from, to)
    else events[0].from == from && Leads(events[1..], user, events[0].to, to)
  }

  lemma {:induction false} LeadsAppend(events: seq<Event>, more: seq<Event>, user: string,
                                       from: string, mid: string, to: string)
    requires Leads(events, user, from, mid) && Leads(more, user, mid, to)
    ensures Leads(events + more, user, from, to)
  {
    if events == [] {
      assert events + more == more;
    } else {
      assert (events + more)[1..] == events[1..] + more;
      LeadsAppend(events[1..], more, user, if events[0].user == user then events[0].to else from, mid, to);
    }
  }

  /** At most one event is recorded, and it says what happened to the tier. */
  lemma RecordedAsApplied(cfg: Config, users: seq<User>, u: User, n: Notification, now: int)
    ensures var e := Apply(cfg, users, u, n, now);
            && |e.events| <= 1 && e.user.id == u.id
            && (if e.events == [] then e.user.tier == u.tier
                else e.events[0].user == u.id && e.events[0].from == u.tier && e.events[0].to == e.user.tier)
  {
    if IsUpgrade(n.kind) {
      ProductsMapToKnownTiers(cfg.tiers, if n.product.Some? then n.product.value else "");
    }
  }

  /** What is appended for one notification leads every user from the old tier to the new one. */
  lemma StepExtendsChain(cfg: Config, s: Store, n: Notification, now: int, j: nat) returns (more: seq<Event>)
    requires UniqueIds(s.users) && j < |s.users|
    ensures |Step(cfg, s, n, now).users| == |s.users|
    ensures Step(cfg, s, n, now).events == s.events + more
    ensures Leads(more, s.users[j].id, s.users[j].tier, Step(cfg, s, n, now).users[j].tier)
  {
    var i := Match(cfg, s.users, n);
    more := [];
    if Screen(cfg, n).None? && i < |s.users| {
      RecordedAsApplied(cfg, s.users, s.users[i], n, now);
      more := Apply(cfg, s.users, s.users[i], n, now).events;
    }
  }

  lemma JoinLogs(s: Store, t: Store, u: Store, first: seq<Event>, rest: seq<Event>, j: nat) returns (more: seq<Event>)
    requires j < |s.users| && j < |t.users| && j < |u.users| && t.users[j].id == s.users[j].id
    requires t.events == s.events + first && Leads(first, s.users[j].id, s.users[j].tier, t.users[j].tier)
    requires u.events == t.events + rest && Leads(rest, t.users[j].id, t.users[j].tier, u.users[j].tier)
    ensures u.events == s.events + more && Leads(more, s.users[j].id, s.users[j].tier, u.users[j].tier)
  {
    more := first + rest;
    LeadsAppend(first, rest, s.users[j].id, s.users[j].tier, t.users[j].tier, u.users[j].tier);
  }

  /** The log replays to the state: over every run each user's recorded events form an unbroken
      chain from the tier at the start to the tier now. */
  lemma {:induction false} LogReplaysToTier(cfg: Config, s: Store, arrivals: seq<Arrival>, j: nat)
    returns (more: seq<Event>)
    requires UniqueIds(s.users) && j < |s.users|
    ensures var t := Run(cfg, s, arrivals);
            j < |t.users| && t.events == s.events + more
            && Leads(more, s.users[j].id, s.users[j].tier, t.users[j].tier)
    decreases |arrivals|
  {
    if arrivals == [] {
      more := [];
    } else {
      var a := arrivals[0];
      var next := Step(cfg, s, a.n, a.now);
      StepKeepsIds(cfg, s, a.n, a.now);
      var first := StepExtendsChain(cfg, s, a.n, a.now, j);
      var rest := LogReplaysToTier(cfg, next, arrivals[1..], j);
      more := JoinLogs(s, next, Run(cfg, next, arrivals[1..]), first, rest, j);
    }
  }

  // ------------------------------------------------ the last decision counts

  /** The tier a notification asks for, if it asks for one. */
  function Decision(cfg: Config, n: Notification): Option<string> {
    if Screen(cfg, n).Some? then None
    else if IsUpgrade(n.kind) then
      var product := if n.product.Some? then n.product.value else "";
      if product in ProductMap(cfg.tiers) then Some(ProductMap(cfg.tiers)[product]) else None
    else if IsDowngrade(n.kind) || IsRefund(n.kind) then Some(FREE)
    else None
  }

  lemma StepFollowsDecision(cfg: Config, s: Store, n: Notification, now: int, j: nat)
    requires j < |s.users|
    ensures |Step(cfg, s, n, now).users| == |s.users|
    ensures Step(cfg, s, n, now).users[j].tier ==
            if j == Match(cfg, s.users, n) && Decision(cfg, n).Some? then Decision(cfg, n).value else s.users[j].tier
  {
    if IsUpgrade(n.kind) {
      ProductsMapToKnownTiers(cfg.tiers, if n.product.Some? then n.product.value else "");
    }
  }

  /** Row `j` was not decided upon by any of these notifications. */
  ghost predicate Undecided(cfg: Config, s: Store, arrivals: seq<Arrival>, j: nat)
    decreases |arrivals|
  {
    arrivals == []
    || ((Match(cfg, s.users, arrivals[0].n) == j ==> Decision(cfg, arrivals[0].n).None?)
        && Undecided(cfg, Step(cfg, s, arrivals[0].n, arrivals[0].now), arrivals[1..], j))
  }

  lemma {:induction false} UndecidedKeepsTier(cfg: Config, s: Store, arrivals: seq<Arrival>, j: nat)
    requires j < |s.users| && Undecided(cfg, s, arrivals, j)
    ensures j < |Run(cfg, s, arrivals).users| && Run(cfg, s, arrivals).users[j].tier == s.users[j].tier
    decreases |arrivals|
  {
    if arrivals != [] {
      StepFollowsDecision(cfg, s, arrivals[0].n, arrivals[0].now, j);
      UndecidedKeepsTier(cfg, Step(cfg, s, arrivals[0].n, arrivals[0].now), arrivals[1..], j);
    }
  }

  /** A user's tier is what the last tier-moving notification matched to that user asked for,
      whatever trials, tiers, adoptions and other users' notifications surround it. */
  lemma TierIsLastDecision(cfg: Config, s: Store, a: Arrival, later: seq<Arrival>, j: nat)
    requires j < |s.users| && Match(cfg, s.users, a.n) == j && Decision(cfg, a.n).Some?
    requires Undecided(cfg, Step(cfg, s, a.n, a.now), later, j)
    ensures j < |Run(cfg, s, [a] + later).users|
    ensures Run(cfg, s, [a] + later).users[j].tier == Decision(cfg, a.n).value
  {
    StepFollowsDecision(cfg, s, a.n, a.now, j);
    UndecidedKeepsTier(cfg, Step(cfg, s, a.n, a.now), later, j);
  }
}
