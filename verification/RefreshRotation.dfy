/**
 Refresh-token rotation for requests that run one after another
 (app/routers/auth.py): a refresh revokes the token it was given and issues
 a new one to the same user. Merging an account away revokes all its tokens, and
 deleting an account removes them.
 */
module RefreshRotation {
  import opened Options

  datatype Token = Token(hash: string, user: string, expires: int, revoked: bool)

  /** What the users table says of a user at the time of a request. */
  datatype Account = Absent | Closed | Active

  datatype Outcome = Invalid | Disabled | Rotated(user: string) | Ended

  /** A login issues a token; a refresh presents one and names the one to issue; a merge
      revokes the tokens of the account it closes; a deletion removes them. */
  datatype Request =
    | Login(user: string, hash: string, expires: int)
    | Refresh(presented: string, now: int, accounts: string -> Account, hash: string, expires: int)
    | RevokeAll(user: string)
    | DeleteAll(user: string)

  /** The SELECT joins the users table. */
  predicate Usable(t: Token, presented: string, now: int, accounts: string -> Account) {
    t.hash == presented && !t.revoked && t.expires > now && !accounts(t.user).Absent?
  }

  function Select(tokens: seq<Token>, presented: string, now: int, accounts: string -> Account): (r: Option<Token>)
    ensures r.None? <==> forall t :: t in tokens ==> !Usable(t, presented, now, accounts)
    ensures r.Some? ==> r.value in tokens && Usable(r.value, presented, now, accounts)
  {
    if tokens == [] then None
    else if Usable(tokens[0], presented, now, accounts) then Some(tokens[0])
    else Select(tokens[1..], presented, now, accounts)
  }

  function Revoke(tokens: seq<Token>, presented: string): (r: seq<Token>)
    ensures |r| == |tokens|
    ensures forall i :: 0 <= i < |r| ==>
              r[i] == if tokens[i].hash == presented then tokens[i].(revoked := true) else tokens[i]
  {
    seq(|tokens|, i requires 0 <= i < |tokens| =>
          if tokens[i].hash == presented then tokens[i].(revoked := true) else tokens[i])
  }

  function RevokedAll(tokens: seq<Token>, user: string): (r: seq<Token>)
    ensures |r| == |tokens|
    ensures forall i :: 0 <= i < |r| ==>
              r[i] == if tokens[i].user == user then tokens[i].(revoked := true) else tokens[i]
  {
    seq(|tokens|, i requires 0 <= i < |tokens| =>
          if tokens[i].user == user then tokens[i].(revoked := true) else tokens[i])
  }

  function DeletedAll(tokens: seq<Token>, user: string): (r: seq<Token>)
    ensures forall t :: t in r <==> t in tokens && t.user != user
  {
    if tokens == [] then []
    else (if tokens[0].user == user then [] else [tokens[0]]) + DeletedAll(tokens[1..], user)
  }

  function Verdict(tokens: seq<Token>, r: Request): Outcome {
    match r
    case Login(user, _, _) => Rotated(user)
    case RevokeAll(_) => Ended
    case DeleteAll(_) => Ended
    case Refresh(presented, now, accounts, _, _) =>
      match Select(tokens, presented, now, accounts)
      case None => Invalid
      case Some(t) => if accounts(t.user).Closed? then Disabled else Rotated(t.user)
  }

  function After(tokens: seq<Token>, r: Request): seq<Token> {
    match r
    case Login(user, hash, expires) => tokens + [Token(hash, user, expires, false)]
    case RevokeAll(user) => RevokedAll(tokens, user)
    case DeleteAll(user) => DeletedAll(tokens, user)
    case Refresh(presented, _, _, hash, expires) =>
      match Verdict(tokens, r)
      case Rotated(user) => Revoke(tokens, presented) + [Token(hash, user, expires, false)]
      case _ => tokens
  }

  function Run(tokens: seq<Token>, rs: seq<Request>): seq<Token>
    decreases |rs|
  {
    if rs == [] then tokens else Run(After(tokens, rs[0]), rs[1..])
  }

  /** Every hash in the table has been seen. */
  ghost predicate Knows(seen: set<string>, tokens: seq<Token>) {
    forall t :: t in tokens ==> t.hash in seen
  }

  function Issued(r: Request): set<string> {
    if r.Login? || r.Refresh? then {r.hash} else {}
  }

  /** Every issued token is new: random bytes, never seen before. */
  ghost predicate IssuesFresh(seen: set<string>, rs: seq<Request>)
    decreases |rs|
  {
    rs == [] || (Issued(rs[0]) !! seen && IssuesFresh(seen + Issued(rs[0]), rs[1..]))
  }

  lemma StepKnows(seen: set<string>, tokens: seq<Token>, r: Request)
    requires Knows(seen, tokens)
    ensures Knows(seen + Issued(r), After(tokens, r))
  {
  }

  // ---------------------------------------------------------------- single use

  /** Every token with that hash is revoked. */
  ghost predicate Spent(tokens: seq<Token>, hash: string) {
    forall t :: t in tokens && t.hash == hash ==> t.revoked
  }

  lemma RefreshSpends(tokens: seq<Token>, r: Request)
    requires r.Refresh? && Verdict(tokens, r).Rotated? && r.hash != r.presented
    ensures Spent(After(tokens, r), r.presented)
  {
  }

  lemma StepKeepsSpent(tokens: seq<Token>, r: Request, hash: string)
    requires Spent(tokens, hash) && hash !in Issued(r)
    ensures Spent(After(tokens, r), hash)
  {
  }

  lemma {:induction false} RunKeepsSpent(seen: set<string>, tokens: seq<Token>, rs: seq<Request>, hash: string)
    requires Spent(tokens, hash) && hash in seen && IssuesFresh(seen, rs)
    ensures Spent(Run(tokens, rs), hash)
    decreases |rs|
  {
    if rs != [] {
      StepKeepsSpent(tokens, rs[0], hash);
      RunKeepsSpent(seen + Issued(rs[0]), After(tokens, rs[0]), rs[1..], hash);
    }
  }

  /** Single use: once a token has been exchanged, presenting it again, after whatever else
      happened to tokens and accounts and at whatever time, is refused and changes nothing. */
  lemma ExchangedTokenIsRefused(seen: set<string>, tokens: seq<Token>, first: Request, rs: seq<Request>, again: Request)
    requires Knows(seen, tokens) && IssuesFresh(seen, [first] + rs)
    requires first.Refresh? && Verdict(tokens, first).Rotated?
    requires again.Refresh? && again.presented == first.presented
    ensures var later := Run(After(tokens, first), rs);
            Verdict(later, again) == Invalid && After(later, again) == later
  {
    assert first.presented in seen;
    RefreshSpends(tokens, first);
    RunKeepsSpent(seen + Issued(first), After(tokens, first), rs, first.presented);
  }

  // ------------------------------------------------------------------ sessions

  function Sessions(tokens: seq<Token>, user: string): nat {
    if tokens == [] then 0
    else (if tokens[0].user == user && !tokens[0].revoked then 1 else 0) + Sessions(tokens[1..], user)
  }

  lemma {:induction false} SessionsAppend(tokens: seq<Token>, t: Token, user: string)
    ensures Sessions(tokens + [t], user) == Sessions(tokens, user) + if t.user == user && !t.revoked then 1 else 0
  {
    if tokens != [] {
      assert (tokens + [t])[1..] == tokens[1..] + [t];
      SessionsAppend(tokens[1..], t, user);
    }
  }

  ghost predicate DistinctHashes(tokens: seq<Token>) {
    forall i, j :: 0 <= i < j < |tokens| ==> tokens[i].hash != tokens[j].hash
  }

  lemma {:induction false} SessionsRevoke(tokens: seq<Token>, i: nat, user: string)
    requires DistinctHashes(tokens) && i < |tokens|
    ensures Sessions(Revoke(tokens, tokens[i].hash), user) ==
            Sessions(tokens, user) - if tokens[i].user == user && !tokens[i].revoked then 1 else 0
    decreases i
  {
    var hash := tokens[i].hash;
    assert Revoke(tokens, hash)[1..] == Revoke(tokens[1..], hash);
    if i == 0 {
      assert Revoke(tokens[1..], hash) == tokens[1..];
    } else {
      SessionsRevoke(tokens[1..], i - 1, user);
    }
  }

  /** A rotation moves a session, it never creates or loses one. */
  lemma RotationConservesSessions(tokens: seq<Token>, r: Request, user: string)
    requires DistinctHashes(tokens) && r.Refresh?
    ensures Sessions(After(tokens, r), user) == Sessions(tokens, user)
  {
    if Verdict(tokens, r).Rotated? {
      var t := Select(tokens, r.presented, r.now, r.accounts).value;
      var i :| 0 <= i < |tokens| && tokens[i] == t;
      SessionsRevoke(tokens, i, user);
      SessionsAppend(Revoke(tokens, r.presented), Token(r.hash, t.user, r.expires, false), user);
    }
  }

  lemma {:induction false} SessionsRevokeAll(tokens: seq<Token>, gone: string, user: string)
    ensures Sessions(RevokedAll(tokens, gone), user) == if user == gone then 0 else Sessions(tokens, user)
  {
    if tokens != [] {
      assert RevokedAll(tokens, gone)[1..] == RevokedAll(tokens[1..], gone);
      SessionsRevokeAll(tokens[1..], gone, user);
    }
  }

  lemma {:induction false} SessionsDeleteAll(tokens: seq<Token>, gone: string, user: string)
    ensures Sessions(DeletedAll(tokens, gone), user) == if user == gone then 0 else Sessions(tokens, user)
  {
    if tokens != [] {
      SessionsDeleteAll(tokens[1..], gone, user);
      if tokens[0].user != gone {
        assert DeletedAll(tokens, gone)[1..] == DeletedAll(tokens[1..], gone);
      } else {
        assert DeletedAll(tokens, gone) == DeletedAll(tokens[1..], gone);
      }
    }
  }

  lemma {:induction false} DeletedKeepsDistinct(tokens: seq<Token>, gone: string)
    requires DistinctHashes(tokens)
    ensures DistinctHashes(DeletedAll(tokens, gone))
  {
    if tokens != [] {
      DeletedKeepsDistinct(tokens[1..], gone);
      var rest := DeletedAll(tokens[1..], gone);
      forall j | 0 <= j < |rest|
        ensures rest[j].hash != tokens[0].hash
      {
        assert rest[j] in tokens[1..];
      }
    }
  }

  /** One session more for each login, none after a merge or a deletion. */
  function Expected(n: nat, rs: seq<Request>, user: string): nat
    decreases |rs|
  {
    if rs == [] then n
    else
      Expected(match rs[0]
               case Login(u, _, _) => if u == user then n + 1 else n
               case RevokeAll(u) => if u == user then 0 else n
               case DeleteAll(u) => if u == user then 0 else n
               case _ => n, rs[1..], user)
  }

  lemma StepKeepsDistinct(seen: set<string>, tokens: seq<Token>, r: Request)
    requires DistinctHashes(tokens) && Knows(seen, tokens) && Issued(r) !! seen
    ensures DistinctHashes(After(tokens, r))
  {
    var after := After(tokens, r);
    if r.DeleteAll? {
      DeletedKeepsDistinct(tokens, r.user);
    } else {
      assert |after| <= |tokens| + 1;
      assert forall i :: 0 <= i < |tokens| ==> tokens[i] in tokens && after[i].hash == tokens[i].hash;
      assert |after| > |tokens| ==> after[|tokens|].hash in Issued(r);
    }
  }

  lemma StepCountsSessions(tokens: seq<Token>, r: Request, user: string)
    requires DistinctHashes(tokens)
    ensures Sessions(After(tokens, r), user) == Expected(Sessions(tokens, user), [r], user)
  {
    match r {
      case Refresh(_, _, _, _, _) => RotationConservesSessions(tokens, r, user);
      case Login(u, hash, expires) => SessionsAppend(tokens, Token(hash, u, expires, false), user);
      case RevokeAll(u) => SessionsRevokeAll(tokens, u, user);
      case DeleteAll(u) => SessionsDeleteAll(tokens, u, user);
    }
  }

  /** Over every run a user's sessions are one for each login since the account was last merged
      away or deleted, on top of those at the start if it never was, however often and by
      whomever tokens were exchanged. */
  lemma {:induction false} SessionsCountLogins(seen: set<string>, tokens: seq<Token>, rs: seq<Request>, user: string)
    requires DistinctHashes(tokens) && Knows(seen, tokens) && IssuesFresh(seen, rs)
    ensures DistinctHashes(Run(tokens, rs))
    ensures Sessions(Run(tokens, rs), user) == Expected(Sessions(tokens, user), rs, user)
    decreases |rs|
  {
    if rs != [] {
      StepKeepsDistinct(seen, tokens, rs[0]);
      StepKnows(seen, tokens, rs[0]);
      StepCountsSessions(tokens, rs[0], user);
      SessionsCountLogins(seen + Issued(rs[0]), After(tokens, rs[0]), rs[1..], user);
    }
  }

  /** The refresh_tokens table. */
  class TokenTable {
    var tokens: seq<Token>

    constructor ()
      ensures tokens == []
    {
      tokens := [];
    }

    /** refresh_token: select, check the account, revoke by hash, issue. After an exchange the
        presented token is spent and the new one usable by the same user; a refusal changes
        nothing; nobody's number of sessions changes either way. */
    method Exchange(presented: string, now: int, accounts: string -> Account, hash: string, expires: int)
      returns (r: Outcome)
      modifies this
      ensures DistinctHashes(old(tokens)) ==> forall user :: Sessions(tokens, user) == Sessions(old(tokens), user)
      ensures r.Rotated? ==> Token(hash, r.user, expires, false) in tokens
                             && exists t :: t in old(tokens) && t.user == r.user && t.hash == presented && !t.revoked
                                            && t.expires > now && accounts(t.user) == Active
      ensures r.Disabled? ==> exists t :: t in old(tokens) && t.hash == presented && !t.revoked
                                          && t.expires > now && accounts(t.user) == Closed
      ensures forall t :: t in old(tokens) && t.hash != presented ==> t in tokens
      ensures |tokens| == |old(tokens)| + if r.Rotated? then 1 else 0
      ensures r.Rotated? && hash != presented ==> Spent(tokens, presented)
      ensures r.Rotated? ==> exists t :: t in tokens && t.hash == presented && t.revoked
      ensures !r.Rotated? ==> tokens == old(tokens) && r != Ended
      ensures r.Invalid? <==> forall t :: t in old(tokens) && t.hash == presented ==>
                                t.revoked || t.expires <= now || accounts(t.user) == Absent
      ensures var request := Refresh(presented, now, accounts, hash, expires);
              r == Verdict(old(tokens), request) && tokens == After(old(tokens), request)
    {
      ghost var request := Refresh(presented, now, accounts, hash, expires);
      forall user: string | DistinctHashes(tokens)
        ensures Sessions(After(tokens, request), user) == Sessions(tokens, user)
      {
        RotationConservesSessions(tokens, request, user);
      }
      var found := Select(tokens, presented, now, accounts);
      if found.None? {
        return Invalid;
      }
      var user := found.value.user;
      if accounts(user).Closed? {
        return Disabled;
      }
      if hash != presented {
        RefreshSpends(tokens, request);
      }
      ghost var i :| 0 <= i < |tokens| && tokens[i] == found.value;
      tokens := Revoke(tokens, presented);
      assert tokens[i].hash == presented && tokens[i].revoked;
      tokens := tokens + [Token(hash, user, expires, false)];
      return Rotated(user);
    }
  }
}
