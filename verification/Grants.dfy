/** The authorization server of `mcp/oauth.py`. */
module Grants {
  import opened Common

  // Requests, consent, codes, tokens and grants.  Rows are only ever appended, so a row's id is its place in its
  // table.  A secret is a number minted once and never again, and stands for its own hash.  Time counts seconds.

  const ACCESS_TTL := 3600
  const REFRESH_TTL := 30 * 24 * 3600
  const REQUEST_TTL := 600
  const CODE_TTL := 300

  datatype Request = Request(client: nat, expires: nat, grant: Option<nat>, code: Option<nat>, codeExpires: nat, used: bool)

  datatype Kind = Access | Refresh

  datatype Token = Token(secret: nat, kind: Kind, grant: nat, client: nat, expires: nat, revoked: bool)

  /** `secret` is the token a grant made on the command line is itself; a consented one tells nobody its own. */
  datatype Grant = Grant(client: nat, secret: nat, expires: Option<nat>, revoked: bool)

  datatype State = State(requests: seq<Request>, grants: seq<Grant>, tokens: seq<Token>, minted: nat, now: nat)

  datatype Op =
    | Wait(seconds: nat)
    | Authorize(client: nat)
    | Consent(request: nat)
    | Redeem(client: nat, code: nat)
    | Exchange(client: nat, secret: nat)
    | RevokeToken(secret: nat)
    | RevokeGrant(grant: nat)
    | GrantByHand(client: nat, expires: Option<nat>)

  datatype Reply = Refused | Done | Code(code: nat) | Pair(access: nat, refresh: nat)

  const EMPTY := State([], [], [], 0, 0)

  // ------------------------------------------------------------------ looking rows up

  /** The row a code names, or the length of the table. */
  function RowOf(requests: seq<Request>, code: nat): (i: nat)
    ensures i <= |requests| && (i < |requests| ==> requests[i].code == Some(code))
    ensures forall j :: 0 <= j < i ==> requests[j].code != Some(code)
  {
    if requests == [] then 0
    else
      var i := RowOf(requests[..|requests| - 1], code);
      if i < |requests| - 1 then i
      else if Last(requests).code == Some(code) then |requests| - 1
      else |requests|
  }

  function TokenOf(tokens: seq<Token>, secret: nat): (i: nat)
    ensures i <= |tokens| && (i < |tokens| ==> tokens[i].secret == secret)
    ensures forall j :: 0 <= j < i ==> tokens[j].secret != secret
  {
    if tokens == [] then 0
    else
      var i := TokenOf(tokens[..|tokens| - 1], secret);
      if i < |tokens| - 1 then i
      else if Last(tokens).secret == secret then |tokens| - 1
      else |tokens|
  }

  function GrantOf(grants: seq<Grant>, secret: nat): (i: nat)
    ensures i <= |grants| && (i < |grants| ==> grants[i].secret == secret)
    ensures forall j :: 0 <= j < i ==> grants[j].secret != secret
  {
    if grants == [] then 0
    else
      var i := GrantOf(grants[..|grants| - 1], secret);
      if i < |grants| - 1 then i
      else if Last(grants).secret == secret then |grants| - 1
      else |grants|
  }

  predicate LiveToken(t: Token, now: nat) { !t.revoked && t.expires > now }

  predicate LiveGrant(g: Grant, now: nat) { !g.revoked && (g.expires.None? || g.expires.value > now) }

  /** `_pending`: the consent request, if it is still one. */
  predicate Pending(s: State, request: nat) {
    request < |s.requests| && s.requests[request].grant.None? && s.requests[request].expires > s.now
  }

  /** `load_access_token`: the grant a bearer secret resolves to. */
  function Resolve(s: State, secret: nat): Option<nat> {
    var i := TokenOf(s.tokens, secret);
    if i < |s.tokens| && s.tokens[i].kind == Access && LiveToken(s.tokens[i], s.now) then
      var g := s.tokens[i].grant;
      if g < |s.grants| && LiveGrant(s.grants[g], s.now) then Some(g) else None
    else
      var g := GrantOf(s.grants, secret);
      if g < |s.grants| && LiveGrant(s.grants[g], s.now) then Some(g) else None
  }

  // ------------------------------------------------------------------ the steps

  /** `_issue`: one access token and one refresh token, both pointing at the same grant. */
  function Issue(s: State, grant: nat, client: nat): State {
    s.(tokens := s.tokens + [Token(s.minted, Access, grant, client, s.now + ACCESS_TTL, false),
                             Token(s.minted + 1, Refresh, grant, client, s.now + REFRESH_TTL, false)],
       minted := s.minted + 2)
  }

  /** A code can be redeemed: it names a consented row of this client, unused and not too late. */
  predicate Redeemable(s: State, client: nat, code: nat) {
    var i := RowOf(s.requests, code);
    && i < |s.requests| && s.requests[i].client == client
    && !s.requests[i].used && s.requests[i].grant.Some? && s.requests[i].codeExpires >= s.now
  }

  predicate Exchangeable(s: State, client: nat, secret: nat) {
    var i := TokenOf(s.tokens, secret);
    && i < |s.tokens| && s.tokens[i].kind == Refresh && LiveToken(s.tokens[i], s.now) && s.tokens[i].client == client
    && s.tokens[i].grant < |s.grants| && !s.grants[s.tokens[i].grant].revoked
  }

  function Step(s: State, op: Op): (State, Reply) {
    match op
    case Wait(seconds) => (s.(now := s.now + seconds), Done)
    case Authorize(client) =>
      (s.(requests := s.requests + [Request(client, s.now + REQUEST_TTL, None, None, 0, false)]), Done)
    case Consent(i) =>
      if !Pending(s, i) then (s, Refused)
      else
        var row := s.requests[i];
        (s.(grants := s.grants + [Grant(row.client, s.minted, None, false)],
            requests := s.requests[i := row.(grant := Some(|s.grants|), code := Some(s.minted + 1), codeExpires := s.now + CODE_TTL)],
            minted := s.minted + 2),
         Code(s.minted + 1))
    case Redeem(client, code) =>
      if !Redeemable(s, client, code) then (s, Refused)
      else
        var i := RowOf(s.requests, code);
        var row := s.requests[i];
        (Issue(s.(requests := s.requests[i := row.(used := true)]), row.grant.value, row.client), Pair(s.minted, s.minted + 1))
    case Exchange(client, secret) =>
      if !Exchangeable(s, client, secret) then (s, Refused)
      else
        var i := TokenOf(s.tokens, secret);
        var row := s.tokens[i];
        (Issue(s.(tokens := s.tokens[i := row.(revoked := true)]), row.grant, row.client), Pair(s.minted, s.minted + 1))
    case RevokeToken(secret) =>
      var i := TokenOf(s.tokens, secret);
      if i == |s.tokens| then (s, Refused) else (s.(tokens := s.tokens[i := s.tokens[i].(revoked := true)]), Done)
    case RevokeGrant(g) =>
      if g >= |s.grants| then (s, Refused) else (s.(grants := s.grants[g := s.grants[g].(revoked := true)]), Done)
    case GrantByHand(client, expires) =>
      (s.(grants := s.grants + [Grant(client, s.minted, expires, false)], minted := s.minted + 1), Done)
  }

  function After(s: State, op: Op): State { Step(s, op).0 }

  function Run(s: State, ops: seq<Op>): State
    decreases ops
  {
    if ops == [] then s else Run(After(s, ops[0]), ops[1..])
  }

  // ------------------------------------------------------------------ the server as it runs

  /** `MailmindAuthorizationServer`, with its three tables. */
  class AuthorizationServer {
    var requests: seq<Request>
    var grants: seq<Grant>
    var tokens: seq<Token>
    var minted: nat
    var now: nat

    function Snapshot(): State
      reads this
    {
      State(requests, grants, tokens, minted, now)
    }

    constructor ()
      ensures Snapshot() == EMPTY
    {
      requests, grants, tokens, minted, now := [], [], [], 0, 0;
    }

    method FindRow(code: nat) returns (i: nat)
      ensures i == RowOf(requests, code)
    {
      i := 0;
      while i < |requests| && requests[i].code != Some(code)
        invariant i <= |requests| && forall j :: 0 <= j < i ==> requests[j].code != Some(code)
      {
        i := i + 1;
      }
    }

    method FindToken(secret: nat) returns (i: nat)
      ensures i == TokenOf(tokens, secret)
    {
      i := 0;
      while i < |tokens| && tokens[i].secret != secret
        invariant i <= |tokens| && forall j :: 0 <= j < i ==> tokens[j].secret != secret
      {
        i := i + 1;
      }
    }

    method AuthorizeClient(client: nat)
      modifies this
      ensures Snapshot() == After(old(Snapshot()), Authorize(client))
    {
      requests := requests + [Request(client, now + REQUEST_TTL, None, None, 0, false)];
    }

    method ConsentTo(request: nat) returns (reply: Reply)
      modifies this
      ensures (Snapshot(), reply) == Step(old(Snapshot()), Consent(request))
    {
      if request >= |requests| || requests[request].grant.Some? || requests[request].expires <= now {
        return Refused;
      }
      grants := grants + [Grant(requests[request].client, minted, None, false)];
      var code := minted + 1;
      minted := minted + 2;
      requests := requests[request := requests[request].(grant := Some(|grants| - 1), code := Some(code), codeExpires := now + CODE_TTL)];
      return Code(code);
    }

    method IssuePair(grant: nat, client: nat) returns (reply: Reply)
      modifies this
      ensures Snapshot() == Issue(old(Snapshot()), grant, client)
      ensures reply == Pair(old(minted), old(minted) + 1)
    {
      var access, refresh := minted, minted + 1;
      minted := minted + 2;
      tokens := tokens + [Token(access, Access, grant, client, now + ACCESS_TTL, false)];
      tokens := tokens + [Token(refresh, Refresh, grant, client, now + REFRESH_TTL, false)];
      return Pair(access, refresh);
    }

    method RedeemCode(client: nat, code: nat) returns (reply: Reply)
      modifies this
      ensures (Snapshot(), reply) == Step(old(Snapshot()), Redeem(client, code))
    {
      var i := FindRow(code);
      if i == |requests| || requests[i].client != client || requests[i].used || requests[i].grant.None? || requests[i].codeExpires < now {
        return Refused;
      }
      var row := requests[i];
      requests := requests[i := row.(used := true)];
      reply := IssuePair(row.grant.value, row.client);
    }

    method ExchangeRefreshToken(client: nat, secret: nat) returns (reply: Reply)
      modifies this
      ensures (Snapshot(), reply) == Step(old(Snapshot()), Exchange(client, secret))
    {
      var i := FindToken(secret);
      if i == |tokens| || tokens[i].kind != Refresh || !LiveToken(tokens[i], now) || tokens[i].client != client {
        return Refused;
      }
      var row := tokens[i];
      if row.grant >= |grants| || grants[row.grant].revoked {
        return Refused;
      }
      tokens := tokens[i := row.(revoked := true)];
      reply := IssuePair(row.grant, row.client);
    }

    method Revoke(secret: nat) returns (reply: Reply)
      modifies this
      ensures (Snapshot(), reply) == Step(old(Snapshot()), RevokeToken(secret))
    {
      var i := FindToken(secret);
      if i == |tokens| {
        return Refused;
      }
      tokens := tokens[i := tokens[i].(revoked := true)];
      return Done;
    }
  }

  // ------------------------------------------------------------------ what every state keeps

  ghost predicate RequestsHold(s: State) {
    && (forall i :: 0 <= i < |s.requests| ==>
          var r := s.requests[i];
          && (r.grant.Some? <==> r.code.Some?) && (r.used ==> r.grant.Some?)
          && (r.grant.Some? ==> r.grant.value < |s.grants| && s.grants[r.grant.value].client == r.client)
          && (r.code.Some? ==> r.code.value < s.minted))
    && (forall i, j :: 0 <= i < j < |s.requests| && s.requests[i].grant.Some? && s.requests[j].grant.Some? ==>
          s.requests[i].grant != s.requests[j].grant && s.requests[i].code != s.requests[j].code)
  }

  /** The request a token descends from. */
  ghost predicate Spent(s: State, grant: nat, i: int) {
    0 <= i < |s.requests| && s.requests[i].grant == Some(grant) && s.requests[i].used
  }

  ghost predicate FromConsent(s: State, grant: nat) { exists r :: Spent(s, grant, r) }

  ghost predicate TokenHolds(s: State, t: Token) {
    t.secret < s.minted && t.grant < |s.grants| && s.grants[t.grant].client == t.client && FromConsent(s, t.grant)
  }

  /** No secret stands for two things. */
  predicate SecretsDistinct(s: State) {
    && (forall i, j :: 0 <= i < j < |s.tokens| ==> s.tokens[i].secret != s.tokens[j].secret)
    && (forall g, h :: 0 <= g < h < |s.grants| ==> s.grants[g].secret != s.grants[h].secret)
    && (forall g :: 0 <= g < |s.grants| ==> s.grants[g].secret < s.minted)
    && (forall g, i :: 0 <= g < |s.grants| && 0 <= i < |s.tokens| ==> s.grants[g].secret != s.tokens[i].secret)
  }

  ghost predicate TokensHold(s: State) {
    (forall i :: 0 <= i < |s.tokens| ==> TokenHolds(s, s.tokens[i])) && SecretsDistinct(s)
  }

  predicate LiveRefresh(s: State, i: int, grant: nat) {
    0 <= i < |s.tokens| && s.tokens[i].kind == Refresh && !s.tokens[i].revoked && s.tokens[i].grant == grant
  }

  ghost predicate OneRefreshEach(s: State) {
    forall g, i, j :: LiveRefresh(s, i, g) && LiveRefresh(s, j, g) ==> i == j
  }

  ghost predicate Sound(s: State) { RequestsHold(s) && TokensHold(s) && OneRefreshEach(s) }

  /** Descent only needs the used requests to stay used. */
  lemma DescentStays(s: State, after: State, grant: nat)
    requires exists r :: Spent(s, grant, r)
    requires |after.requests| >= |s.requests|
    requires forall r :: Spent(s, grant, r) ==> Spent(after, grant, r)
    ensures exists r :: Spent(after, grant, r)
  {
    var r :| Spent(s, grant, r);
    assert Spent(after, grant, r);
  }

  ghost predicate Descent(s: State) { forall i :: 0 <= i < |s.tokens| ==> FromConsent(s, s.tokens[i].grant) }

  lemma IssueDescends(s: State, grant: nat, r: nat)
    requires Descent(s) && Spent(s, grant, r)
    ensures Descent(Issue(s, grant, s.requests[r].client))
  {
    var after := Issue(s, grant, s.requests[r].client);
    assert Spent(after, grant, r);
    forall i | 0 <= i < |after.tokens| ensures FromConsent(after, after.tokens[i].grant) {
      if i < |s.tokens| {
        assert FromConsent(s, s.tokens[i].grant);
        DescentStays(s, after, s.tokens[i].grant);
      } else {
        assert i == |s.tokens| || i == |s.tokens| + 1;
        assert after.tokens[i].grant == grant;
      }
    }
  }

  lemma IssueRefreshesOne(s: State, grant: nat, r: nat)
    requires OneRefreshEach(s) && Spent(s, grant, r) && forall i :: !LiveRefresh(s, i, grant)
    ensures OneRefreshEach(Issue(s, grant, s.requests[r].client))
  {
    var after := Issue(s, grant, s.requests[r].client);
    forall g: nat, i, j | LiveRefresh(after, i, g) && LiveRefresh(after, j, g) ensures i == j {
      assert i < |s.tokens| ==> LiveRefresh(s, i, g);
      assert j < |s.tokens| ==> LiveRefresh(s, j, g);
    }
  }

  lemma IssueIsDistinct(s: State, grant: nat, client: nat)
    requires SecretsDistinct(s) && forall i :: 0 <= i < |s.tokens| ==> s.tokens[i].secret < s.minted
    ensures SecretsDistinct(Issue(s, grant, client))
  {}

  lemma IssueHolds(s: State, grant: nat, r: nat)
    requires RequestsHold(s) && TokensHold(s) && Spent(s, grant, r) && Descent(Issue(s, grant, s.requests[r].client))
    ensures var after := Issue(s, grant, s.requests[r].client);
            forall i :: 0 <= i < |after.tokens| ==> TokenHolds(after, after.tokens[i])
  {
    var after := Issue(s, grant, s.requests[r].client);
    forall i | 0 <= i < |after.tokens| ensures TokenHolds(after, after.tokens[i]) {
      assert FromConsent(after, after.tokens[i].grant);
      assert i < |s.tokens| ==> TokenHolds(s, s.tokens[i]);
    }
  }

  lemma IssueKeepsRequests(s: State, grant: nat, r: nat)
    requires RequestsHold(s) && Spent(s, grant, r)
    ensures RequestsHold(Issue(s, grant, s.requests[r].client))
  {}

  lemma IssueIsSound(s: State, grant: nat, r: nat)
    requires RequestsHold(s) && TokensHold(s) && OneRefreshEach(s)
    requires Spent(s, grant, r) && forall i :: !LiveRefresh(s, i, grant)
    ensures Sound(Issue(s, grant, s.requests[r].client))
  {
    IssueDescends(s, grant, r);
    IssueRefreshesOne(s, grant, r);
    IssueKeepsRequests(s, grant, r);
    IssueHolds(s, grant, r);
    IssueIsDistinct(s, grant, s.requests[r].client);
  }

  lemma RedeemIsSound(s: State, client: nat, code: nat)
    requires Sound(s) && Redeemable(s, client, code)
    ensures Sound(After(s, Redeem(client, code)))
  {
    var i := RowOf(s.requests, code);
    var row := s.requests[i];
    var mid := s.(requests := s.requests[i := row.(used := true)]);
    forall k | 0 <= k < |s.tokens| ensures exists q :: Spent(mid, s.tokens[k].grant, q) {
      DescentStays(s, mid, s.tokens[k].grant);
    }
    assert forall q :: !Spent(s, row.grant.value, q);
    assert forall k :: !LiveRefresh(mid, k, row.grant.value);
    assert Spent(mid, row.grant.value, i);
    assert forall g, k :: LiveRefresh(mid, k, g) <==> LiveRefresh(s, k, g);
    IssueIsSound(mid, row.grant.value, i);
  }

  function WithRevoked(s: State, i: nat): State
    requires i < |s.tokens|
  {
    s.(tokens := s.tokens[i := s.tokens[i].(revoked := true)])
  }

  lemma RevokedIsSound(s: State, i: nat)
    requires Sound(s) && i < |s.tokens|
    ensures Sound(WithRevoked(s, i))
    ensures s.tokens[i].kind == Refresh && !s.tokens[i].revoked ==>
              forall j :: !LiveRefresh(WithRevoked(s, i), j, s.tokens[i].grant)
  {
    var after := WithRevoked(s, i);
    assert forall g, k :: LiveRefresh(after, k, g) ==> LiveRefresh(s, k, g) && k != i;
    forall k | 0 <= k < |after.tokens| ensures exists q :: Spent(after, after.tokens[k].grant, q) {
      assert after.tokens[k].grant == s.tokens[k].grant;
      DescentStays(s, after, s.tokens[k].grant);
    }
    if s.tokens[i].kind == Refresh && !s.tokens[i].revoked {
      assert LiveRefresh(s, i, s.tokens[i].grant);
    }
  }

  lemma ExchangeIsSound(s: State, client: nat, secret: nat)
    requires Sound(s) && Exchangeable(s, client, secret)
    ensures Sound(After(s, Exchange(client, secret)))
  {
    var i := TokenOf(s.tokens, secret);
    RevokedIsSound(s, i);
    var mid := WithRevoked(s, i);
    var r :| Spent(s, s.tokens[i].grant, r);
    assert Spent(mid, s.tokens[i].grant, r);
    IssueIsSound(mid, s.tokens[i].grant, r);
  }

  lemma ConsentIsSound(s: State, i: nat)
    requires Sound(s) && Pending(s, i)
    ensures Sound(After(s, Consent(i)))
  {
    var after := After(s, Consent(i));
    assert forall g, k :: LiveRefresh(after, k, g) <==> LiveRefresh(s, k, g);
    forall k | 0 <= k < |after.tokens| ensures exists q :: Spent(after, after.tokens[k].grant, q) {
      DescentStays(s, after, s.tokens[k].grant);
    }
  }

  lemma HandGrantIsSound(s: State, op: Op)
    requires Sound(s) && op.GrantByHand?
    ensures Sound(After(s, op))
  {
    var after := After(s, op);
    assert forall g, k :: LiveRefresh(after, k, g) <==> LiveRefresh(s, k, g);
    forall k | 0 <= k < |after.tokens| ensures FromConsent(after, after.tokens[k].grant) {
      DescentStays(s, after, s.tokens[k].grant);
    }
  }

  lemma OtherStepsAreSound(s: State, op: Op)
    requires Sound(s) && (op.Wait? || op.Authorize? || op.RevokeGrant?)
    ensures Sound(After(s, op))
  {
    var after := After(s, op);
    assert forall g, k :: LiveRefresh(after, k, g) <==> LiveRefresh(s, k, g);
    forall k | 0 <= k < |after.tokens| ensures exists q :: Spent(after, after.tokens[k].grant, q) {
      DescentStays(s, after, s.tokens[k].grant);
    }
  }

  lemma StepIsSound(s: State, op: Op)
    requires Sound(s)
    ensures Sound(After(s, op))
  {
    match op
    case Redeem(client, code) => if Redeemable(s, client, code) { RedeemIsSound(s, client, code); }
    case Exchange(client, secret) => if Exchangeable(s, client, secret) { ExchangeIsSound(s, client, secret); }
    case Consent(i) => if Pending(s, i) { ConsentIsSound(s, i); }
    case RevokeToken(secret) =>
      var i := TokenOf(s.tokens, secret);
      if i < |s.tokens| { RevokedIsSound(s, i); }
    case GrantByHand(_, _) => HandGrantIsSound(s, op);
    case _ => OtherStepsAreSound(s, op);
  }

  /** In every reachable state each consented grant belongs to one request, and has at most one refresh
      token that is not revoked; every token descends from a redeemed request of its own client. */
  lemma {:induction false} EveryStateIsSound(s: State, ops: seq<Op>)
    requires Sound(s)
    ensures Sound(Run(s, ops))
    decreases ops
  {
    if ops != [] {
      StepIsSound(s, ops[0]);
      EveryStateIsSound(After(s, ops[0]), ops[1..]);
    }
  }

  lemma ChainHolds(ops: seq<Op>)
    ensures Sound(Run(EMPTY, ops))
  {
    EveryStateIsSound(EMPTY, ops);
  }

  // ------------------------------------------------------------------ once and never again

  /** How many token pairs a code was redeemed for along a run. */
  function Redemptions(s: State, ops: seq<Op>, code: nat): nat
    decreases ops
  {
    if ops == [] then 0
    else
      (if ops[0].Redeem? && ops[0].code == code && Step(s, ops[0]).1.Pair? then 1 else 0)
      + Redemptions(After(s, ops[0]), ops[1..], code)
  }

  /** How many token pairs a refresh token was exchanged for along a run. */
  function Rotations(s: State, ops: seq<Op>, secret: nat): nat
    decreases ops
  {
    if ops == [] then 0
    else
      (if ops[0].Exchange? && ops[0].secret == secret && Step(s, ops[0]).1.Pair? then 1 else 0)
      + Rotations(After(s, ops[0]), ops[1..], secret)
  }

  predicate CodeSpent(s: State, code: nat) {
    RowOf(s.requests, code) < |s.requests| && s.requests[RowOf(s.requests, code)].used
  }

  predicate TokenSpent(s: State, secret: nat) {
    TokenOf(s.tokens, secret) < |s.tokens| && s.tokens[TokenOf(s.tokens, secret)].revoked
  }

  lemma CodeStaysSpent(s: State, op: Op, code: nat)
    requires Sound(s) && CodeSpent(s, code)
    ensures CodeSpent(After(s, op), code)
  {
    StepIsSound(s, op);
    var after, i := After(s, op), RowOf(s.requests, code);
    assert |after.requests| >= |s.requests| && after.requests[i].code == Some(code) && after.requests[i].used;
    assert RowOf(after.requests, code) == i;
  }

  lemma TokenStaysSpent(s: State, op: Op, secret: nat)
    requires Sound(s) && TokenSpent(s, secret)
    ensures TokenSpent(After(s, op), secret)
  {
    StepIsSound(s, op);
    var after, k := After(s, op), TokenOf(s.tokens, secret);
    assert |after.tokens| >= |s.tokens| && after.tokens[k].secret == secret && after.tokens[k].revoked;
    assert TokenOf(after.tokens, secret) == k;
  }

  /** A code yields at most one pair, and none once it is spent. */
  lemma {:induction false} CodeYieldsOnce(s: State, ops: seq<Op>, code: nat)
    requires Sound(s)
    ensures Redemptions(s, ops, code) <= (if CodeSpent(s, code) then 0 else 1)
    decreases ops
  {
    if ops != [] {
      StepIsSound(s, ops[0]);
      if CodeSpent(s, code) {
        CodeStaysSpent(s, ops[0], code);
      }
      CodeYieldsOnce(After(s, ops[0]), ops[1..], code);
      if ops[0].Redeem? && ops[0].code == code && Redeemable(s, ops[0].client, code) {
        var i, after := RowOf(s.requests, code), After(s, ops[0]);
        assert after.requests[i].code == Some(code) && after.requests[i].used;
        assert RowOf(after.requests, code) == i;
      }
    }
  }

  /** A refresh token is exchanged at most once, and never once it is revoked. */
  lemma {:induction false} RefreshRotatesOnce(s: State, ops: seq<Op>, secret: nat)
    requires Sound(s)
    ensures Rotations(s, ops, secret) <= (if TokenSpent(s, secret) then 0 else 1)
    decreases ops
  {
    if ops != [] {
      StepIsSound(s, ops[0]);
      if TokenSpent(s, secret) {
        TokenStaysSpent(s, ops[0], secret);
      }
      RefreshRotatesOnce(After(s, ops[0]), ops[1..], secret);
      if ops[0].Exchange? && ops[0].secret == secret && Exchangeable(s, ops[0].client, secret) {
        var i, after := TokenOf(s.tokens, secret), After(s, ops[0]);
        assert after.tokens[i].secret == secret && after.tokens[i].revoked;
        assert TokenOf(after.tokens, secret) == i;
      }
    }
  }

  /** Once a grant is revoked nothing resolves to it and no refresh token of it is exchanged, whatever
      happens next: not even with a code that was issued before and is redeemed after. */
  lemma {:induction false} RevokedGrantStaysDead(s: State, ops: seq<Op>, g: nat, secret: nat)
    requires g < |s.grants| && s.grants[g].revoked
    ensures var later := Run(s, ops);
            && g < |later.grants| && later.grants[g].revoked
            && Resolve(later, secret) != Some(g)
            && forall client :: Exchangeable(later, client, secret) ==> later.tokens[TokenOf(later.tokens, secret)].grant != g
    decreases ops
  {
    if ops != [] {
      assert After(s, ops[0]).grants[g].revoked;
      RevokedGrantStaysDead(After(s, ops[0]), ops[1..], g, secret);
    }
  }

  /** A secret handed out resolves to the grant its request was consented to, for the client that asked,
      exactly while the token and the grant both live. */
  lemma ResolvesToWhatWasConsented(s: State, i: nat)
    requires Sound(s) && i < |s.tokens| && s.tokens[i].kind == Access
    ensures var t := s.tokens[i];
            && (exists r :: Spent(s, t.grant, r) && s.requests[r].client == t.client)
            && t.grant < |s.grants|
            && Resolve(s, t.secret) == if LiveToken(t, s.now) && LiveGrant(s.grants[t.grant], s.now) then Some(t.grant) else None
  {
    var r :| Spent(s, s.tokens[i].grant, r);
    assert s.requests[r].client == s.tokens[i].client;
    assert TokenOf(s.tokens, s.tokens[i].secret) == i;
    assert GrantOf(s.grants, s.tokens[i].secret) == |s.grants|;
  }

  // ------------------------------------------------------------------ exactly what is answered

  /** The request is one whose code this client may still redeem. */
  predicate Presents(s: State, r: nat, client: nat, code: nat) {
    && r < |s.requests| && s.requests[r].code == Some(code) && s.requests[r].client == client
    && s.requests[r].grant.Some? && !s.requests[r].used && s.now <= s.requests[r].codeExpires
  }

  /** The token is one that this client may still exchange. */
  predicate Rotates(s: State, i: nat, client: nat, secret: nat) {
    && i < |s.tokens| && s.tokens[i].secret == secret && s.tokens[i].client == client
    && s.tokens[i].kind == Refresh && !s.tokens[i].revoked && s.now < s.tokens[i].expires
    && s.tokens[i].grant < |s.grants| && !s.grants[s.tokens[i].grant].revoked
  }

  /** Two tokens more, for this client and this grant, an hour's and thirty days', under secrets nothing had before. */
  predicate Paired(s: State, tokens: seq<Token>, after: State, reply: Reply, grant: nat, client: nat) {
    && reply.Pair? && reply.access != reply.refresh && after.now == s.now && after.grants == s.grants
    && after.tokens == tokens + [Token(reply.access, Access, grant, client, s.now + 3600, false),
                                 Token(reply.refresh, Refresh, grant, client, s.now + 2592000, false)]
    && (forall t <- s.tokens :: t.secret != reply.access && t.secret != reply.refresh)
    && (forall g <- s.grants :: g.secret != reply.access && g.secret != reply.refresh)
  }

  lemma FoundRow(s: State, r: nat, code: nat)
    requires Sound(s) && r < |s.requests| && s.requests[r].code == Some(code)
    ensures RowOf(s.requests, code) == r
  {}

  lemma FoundToken(s: State, i: nat, secret: nat)
    requires Sound(s) && i < |s.tokens| && s.tokens[i].secret == secret
    ensures TokenOf(s.tokens, secret) == i
  {}

  lemma MintedIsNew(s: State)
    requires Sound(s)
    ensures forall t <- s.tokens :: t.secret < s.minted
    ensures forall g <- s.grants :: g.secret < s.minted
  {}

  /** A code yields a pair if and only if some request holds it, is this client's own, consented to, not redeemed
      before, and not past its time; the pair is then for that request's grant, and the request is spent. */
  lemma RedeemedExactly(ops: seq<Op>, client: nat, code: nat)
    ensures var s := Run(EMPTY, ops);
            var (after, reply) := Step(s, Redeem(client, code));
            && (reply.Pair? <==> exists r: nat :: Presents(s, r, client, code))
            && (!reply.Pair? ==> after == s && reply == Refused)
            && forall r: nat :: Presents(s, r, client, code) ==>
                 && after.requests == s.requests[r := s.requests[r].(used := true)]
                 && Paired(s, s.tokens, after, reply, s.requests[r].grant.value, client)
  {
    var s := Run(EMPTY, ops);
    ChainHolds(ops);
    MintedIsNew(s);
    forall r: nat | Presents(s, r, client, code) ensures RowOf(s.requests, code) == r {
      FoundRow(s, r, code);
    }
    if Redeemable(s, client, code) {
      assert Presents(s, RowOf(s.requests, code), client, code);
    }
  }

  /** A refresh token yields a pair if and only if it is this client's own, not revoked, not past its time, and its
      grant is not revoked; the pair is then for that grant, and the token is revoked. */
  lemma ExchangedExactly(ops: seq<Op>, client: nat, secret: nat)
    ensures var s := Run(EMPTY, ops);
            var (after, reply) := Step(s, Exchange(client, secret));
            && (reply.Pair? <==> exists i: nat :: Rotates(s, i, client, secret))
            && (!reply.Pair? ==> after == s && reply == Refused)
            && forall i: nat :: Rotates(s, i, client, secret) ==>
                 && after.requests == s.requests
                 && Paired(s, s.tokens[i := s.tokens[i].(revoked := true)], after, reply, s.tokens[i].grant, client)
  {
    var s := Run(EMPTY, ops);
    ChainHolds(ops);
    MintedIsNew(s);
    forall i: nat | Rotates(s, i, client, secret) ensures TokenOf(s.tokens, secret) == i {
      FoundToken(s, i, secret);
    }
    if Exchangeable(s, client, secret) {
      assert Rotates(s, TokenOf(s.tokens, secret), client, secret);
    }
  }

  /** Someone may agree to a request if and only if it was parked within ten minutes and nobody has; the grant is then
      the client's that asked, and its code, new, is good for five minutes. */
  lemma ConsentedExactly(ops: seq<Op>, client: nat, later: seq<Op>, i: nat)
    requires i == |Run(EMPTY, ops).requests|
    ensures var asked := After(Run(EMPTY, ops), Authorize(client));
            var s := Run(asked, later);
            var (after, reply) := Step(s, Consent(i));
            && i < |s.requests| && s.requests[i].client == client
            && (reply.Code? <==> s.requests[i].grant.None? && s.now < asked.now + 600)
            && (!reply.Code? ==> after == s)
            && (reply.Code? ==>
                  && after.requests == s.requests[i := s.requests[i].(grant := Some(|s.grants|), code := Some(reply.code), codeExpires := s.now + 300)]
                  && |after.grants| == |s.grants| + 1 && after.grants[..|s.grants|] == s.grants && after.tokens == s.tokens
                  && Last(after.grants).client == client && Last(after.grants).expires.None? && !Last(after.grants).revoked
                  && forall r: nat :: r < |s.requests| ==> s.requests[r].code != Some(reply.code))
  {
    var asked := After(Run(EMPTY, ops), Authorize(client));
    ChainHolds(ops);
    StepIsSound(Run(EMPTY, ops), Authorize(client));
    EveryStateIsSound(asked, later);
    RequestStays(asked, later, i);
  }

  /** What a request was parked with it keeps. */
  lemma {:induction false} RequestStays(s: State, ops: seq<Op>, i: nat)
    requires i < |s.requests|
    ensures var after := Run(s, ops);
            && i < |after.requests| && after.requests[i].client == s.requests[i].client && after.requests[i].expires == s.requests[i].expires
            && s.now <= after.now
    decreases ops
  {
    if ops != [] {
      RequestStays(After(s, ops[0]), ops[1..], i);
    }
  }

  lemma FoundGrant(s: State, g: nat)
    requires Sound(s) && g < |s.grants|
    ensures GrantOf(s.grants, s.grants[g].secret) == g && TokenOf(s.tokens, s.grants[g].secret) == |s.tokens|
  {}

  /** The bearer of a secret is let in under a grant if and only if the grant lives, and the secret is its own or that
      of an access token for it that lives. */
  lemma ResolvesExactly(ops: seq<Op>, secret: nat, g: nat)
    ensures var s := Run(EMPTY, ops);
            Resolve(s, secret) == Some(g) <==>
              && g < |s.grants| && !s.grants[g].revoked && (s.grants[g].expires.Some? ==> s.now < s.grants[g].expires.value)
              && (s.grants[g].secret == secret
                  || exists i: nat :: i < |s.tokens| && s.tokens[i].secret == secret && s.tokens[i].kind == Access
                                      && !s.tokens[i].revoked && s.now < s.tokens[i].expires && s.tokens[i].grant == g)
  {
    var s := Run(EMPTY, ops);
    ChainHolds(ops);
    if g < |s.grants| {
      FoundGrant(s, g);
    }
    forall i: nat | i < |s.tokens| && s.tokens[i].secret == secret ensures TokenOf(s.tokens, secret) == i && GrantOf(s.grants, secret) == |s.grants| {
      FoundToken(s, i, secret);
    }
  }

  /** Revoking does revoke: the one credential, or the grant with everything that rests on it. */
  lemma RevokedExactly(ops: seq<Op>, secret: nat, g: nat)
    ensures var s := Run(EMPTY, ops);
            var after, gone := After(s, RevokeToken(secret)), After(s, RevokeGrant(g));
            && after == s.(tokens := after.tokens) && |after.tokens| == |s.tokens|
            && (forall i :: 0 <= i < |s.tokens| ==>
                  after.tokens[i] == s.tokens[i].(revoked := s.tokens[i].revoked || s.tokens[i].secret == secret))
            && gone == s.(grants := gone.grants) && |gone.grants| == |s.grants|
            && (forall h: nat :: h < |s.grants| ==> gone.grants[h] == s.grants[h].(revoked := s.grants[h].revoked || h == g))
  {
    var s := Run(EMPTY, ops);
    ChainHolds(ops);
  }

  /** A grant made by hand is its own secret, for as long as it was made for. */
  lemma HandGrantResolves(ops: seq<Op>, client: nat, expires: Option<nat>)
    ensures var s := Run(EMPTY, ops);
            var after := After(s, GrantByHand(client, expires));
            && |after.grants| == |s.grants| + 1 && after.tokens == s.tokens && after.requests == s.requests
            && Last(after.grants).client == client
            && Resolve(after, Last(after.grants).secret) == if expires.Some? && expires.value <= s.now then None else Some(|s.grants|)
  {
    ChainHolds(ops);
    MadeByHand(Run(EMPTY, ops), client, expires);
  }

  lemma MadeByHand(s: State, client: nat, expires: Option<nat>)
    requires Sound(s)
    ensures var after := After(s, GrantByHand(client, expires));
            && |after.grants| == |s.grants| + 1 && after.tokens == s.tokens && after.requests == s.requests
            && Last(after.grants).client == client
            && Resolve(after, Last(after.grants).secret) == if expires.Some? && expires.value <= s.now then None else Some(|s.grants|)
  {
    StepIsSound(s, GrantByHand(client, expires));
    FoundGrant(After(s, GrantByHand(client, expires)), |s.grants|);
  }
}
