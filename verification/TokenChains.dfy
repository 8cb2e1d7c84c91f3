/** What the token endpoint keeps over every run: the lineage of each chain, one chain per code, and
    the finality of a revocation (section 4.1.2 and section 10.4 of RFC 6749, section 4.14 of RFC 9700). */
module TokenChains {
  import opened Numeric
  import opened OAuth

  // ---- The invariant --------------------------------------------------------

  // The tokens of one kind on a chain.
  function Owned(tokens: map<string, Token>, c: string, kind: Kind): set<string> {
    set d | d in tokens && tokens[d].chain == c && tokens[d].kind == kind
  }

  predicate IsUnused(t: Token) {
    t.usedAt.None?
  }

  // The refresh tokens of a chain that were not redeemed yet.
  function Unused(tokens: map<string, Token>, c: string): set<string> {
    set d | d in Owned(tokens, c, Refresh) && IsUnused(tokens[d])
  }

  // Each chain has one unused refresh token, and as many access as refresh tokens.
  ghost predicate Lineage(s: Store) {
    forall c :: c in s.chains ==>
      |Unused(s.tokens, c)| == 1 && |Owned(s.tokens, c, Access)| == |Owned(s.tokens, c, Refresh)|
  }

  // A token is revoked with its chain and only with it.
  ghost predicate RevokedTogether(s: Store) {
    forall d :: d in s.tokens ==>
      s.tokens[d].chain in s.chains && (s.tokens[d].revokedAt.Some? <==> s.chains[s.tokens[d].chain].revokedAt.Some?)
  }

  // A redeemed code leads to one chain, which carries what was bound to the code.
  predicate Bound(s: Store, d: string)
    requires d in s.codes
  {
    (s.codes[d].usedAt.Some? <==> s.codes[d].chain.Some?) &&
    (s.codes[d].chain.Some? ==>
       var c := s.codes[d].chain.value;
       c in s.chains && s.chains[c].client == s.codes[d].client && s.chains[c].owner == s.codes[d].owner &&
       s.chains[c].ownerId == s.codes[d].ownerId && s.chains[c].resource == s.codes[d].resource)
  }

  ghost predicate CodesOk(s: Store) {
    (forall d :: d in s.codes ==> Bound(s, d)) &&
    (forall d, e :: d in s.codes && e in s.codes && s.codes[d].chain.Some? && s.codes[d].chain == s.codes[e].chain ==> d == e) &&
    (forall c :: c in s.chains ==> exists d :: d in s.codes && s.codes[d].chain == Some(c))
  }

  ghost predicate Inv(s: Store) {
    Lineage(s) && RevokedTogether(s) && CodesOk(s)
  }

  // ---- Counting -------------------------------------------------------------

  lemma OwnedAfterInsert(tokens: map<string, Token>, d: string, t: Token, c: string, kind: Kind)
    requires d !in tokens
    ensures Owned(tokens[d := t], c, kind) == Owned(tokens, c, kind) + if t.chain == c && t.kind == kind then {d} else {}
    ensures d !in Owned(tokens, c, kind)
  {
  }

  lemma UnusedAfterInsert(tokens: map<string, Token>, d: string, t: Token, c: string)
    requires d !in tokens
    ensures Unused(tokens[d := t], c) == Unused(tokens, c) + if t.chain == c && t.kind == Refresh && IsUnused(t) then {d} else {}
    ensures d !in Unused(tokens, c)
  {
  }

  // Spending a token changes what is unused and nothing else.
  lemma CountsAfterUse(tokens: map<string, Token>, d: string, now: int, c: string)
    requires d in tokens
    ensures var after := tokens[d := tokens[d].(usedAt := Some(now))];
            Unused(after, c) == Unused(tokens, c) - {d} &&
            forall kind :: Owned(after, c, kind) == Owned(tokens, c, kind)
  {
  }

  lemma CountsAfterRevoke(s: Store, c: string, now: int, b: string)
    ensures var after := ChainRevoked(s, c, now);
            Unused(after.tokens, b) == Unused(s.tokens, b) &&
            forall kind :: Owned(after.tokens, b, kind) == Owned(s.tokens, b, kind)
  {
  }

  predicate Paired(tokens: map<string, Token>, after: map<string, Token>, c: string, a: string, r: string) {
    a !in tokens && r !in tokens && a != r && a in after && r in after &&
    after[a].chain == after[r].chain == c && after[a].kind == Access && after[r].kind == Refresh && IsUnused(after[r]) &&
    after[a].revokedAt.None? && after[r].revokedAt.None? &&
    after == tokens[a := after[a]][r := after[r]]
  }

  lemma PairIs(cfg: Config, s: Store, c: string, draw: Draw, now: int)
    requires PairInserted(cfg, s, c, draw, now).Some?
    ensures var after := PairInserted(cfg, s, c, draw, now).value;
            c in s.chains && after.chains == s.chains && after.codes == s.codes &&
            Paired(s.tokens, after.tokens, c, cfg.hash(ACCESS_PREFIX + draw.access), cfg.hash(REFRESH_PREFIX + draw.refresh))
  {
  }

  // A pair adds one token of each kind to its chain, and one unused.
  lemma CountsAfterPair(tokens: map<string, Token>, after: map<string, Token>, c: string, a: string, r: string,
          b: string)
    requires Paired(tokens, after, c, a, r)
    ensures b != c ==> Unused(after, b) == Unused(tokens, b) && forall kind :: Owned(after, b, kind) == Owned(tokens, b, kind)
    ensures b == c ==> |Unused(after, c)| == |Unused(tokens, c)| + 1 && r in Unused(after, c)
    ensures b == c ==> forall kind :: |Owned(after, c, kind)| == |Owned(tokens, c, kind)| + 1
  {
    hide Owned, Unused;
    var mid := tokens[a := after[a]];
    forall kind: Kind
      ensures Owned(after, b, kind) == Owned(tokens, b, kind) + (if b == c then if kind == Access then {a} else {r} else {})
      ensures a !in Owned(tokens, b, kind) && r !in Owned(tokens, b, kind)
    {
      OwnedAfterPair(tokens, after, c, a, r, b, kind);
    }
    UnusedAfterInsert(tokens, a, after[a], b);
    UnusedAfterInsert(mid, r, after[r], b);
  }

  lemma OwnedAfterPair(tokens: map<string, Token>, after: map<string, Token>, c: string, a: string, r: string,
          b: string, kind: Kind)
    requires Paired(tokens, after, c, a, r)
    ensures Owned(after, b, kind) == Owned(tokens, b, kind) + (if b == c then if kind == Access then {a} else {r} else {})
    ensures a !in Owned(tokens, b, kind) && r !in Owned(tokens, b, kind)
  {
    hide Owned;
    OwnedAfterInsert(tokens, a, after[a], b, kind);
    OwnedAfterInsert(tokens[a := after[a]], r, after[r], b, kind);
  }

  // ---- Every request keeps it -----------------------------------------------

  lemma RevokeKeeps(s: Store, c: string, now: int)
    requires Inv(s)
    ensures Inv(ChainRevoked(s, c, now))
  {
    hide ChainRevoked, Lineage, RevokedTogether, CodesOk;
    RevokeKeepsLineage(s, c, now);
    RevokeStampsAll(s, c, now);
    RevokeKeepsCodes(s, c, now);
  }

  lemma RevokeKeepsLineage(s: Store, c: string, now: int)
    requires Lineage(s)
    ensures Lineage(ChainRevoked(s, c, now))
  {
    hide ChainRevoked, Owned, Unused;
    SameChains(s, c, now);
    var after := ChainRevoked(s, c, now);
    forall b | b in after.chains
      ensures |Unused(after.tokens, b)| == 1 && |Owned(after.tokens, b, Access)| == |Owned(after.tokens, b, Refresh)|
    {
      CountsAfterRevoke(s, c, now, b);
    }
  }

  lemma SameChains(s: Store, c: string, now: int)
    ensures ChainRevoked(s, c, now).chains.Keys == s.chains.Keys && ChainRevoked(s, c, now).codes == s.codes
  {
  }

  lemma RevokeStampsAll(s: Store, c: string, now: int)
    requires RevokedTogether(s)
    ensures RevokedTogether(ChainRevoked(s, c, now))
  {
  }

  lemma RevokeKeepsCodes(s: Store, c: string, now: int)
    requires CodesOk(s)
    ensures CodesOk(ChainRevoked(s, c, now))
  {
    var after := ChainRevoked(s, c, now);
    assert after.codes == s.codes && after.chains.Keys == s.chains.Keys;
    forall d | d in after.codes
      ensures Bound(after, d)
    {
      assert Bound(s, d);
    }
  }

  lemma IssueKeeps(cfg: Config, s: Store, body: string, code: Code, now: int)
    requires Inv(s)
    ensures Inv(CodeIssued(cfg, s, body, code, now))
  {
    hide Lineage, RevokedTogether, CodesOk;
    var after := CodeIssued(cfg, s, body, code, now);
    if after != s {
      IssueKeepsTables(s, after);
      NewCodeIsOk(s, after, cfg.hash(CODE_PREFIX + body));
    }
  }

  lemma NewCodeIsOk(s: Store, after: Store, digest: string)
    requires CodesOk(s) && digest !in s.codes && digest in after.codes && after.codes == s.codes[digest := after.codes[digest]]
    requires after.chains == s.chains && after.codes[digest].usedAt.None? && after.codes[digest].chain.None?
    ensures CodesOk(after)
  {
    forall d | d in after.codes
      ensures Bound(after, d)
    {
      if d != digest {
        assert Bound(s, d);
      }
    }
    hide Bound;
    forall c | c in after.chains
      ensures exists d :: d in after.codes && after.codes[d].chain == Some(c)
    {
      var d :| d in s.codes && s.codes[d].chain == Some(c);
      assert d in after.codes && after.codes[d].chain == Some(c);
    }
  }

  lemma IssueKeepsTables(s: Store, after: Store)
    requires Lineage(s) && RevokedTogether(s) && after.chains == s.chains && after.tokens == s.tokens
    ensures Lineage(after) && RevokedTogether(after)
  {
  }

  // A chain that does not exist has no tokens.
  lemma NoTokensYet(s: Store, c: string)
    requires RevokedTogether(s) && c !in s.chains
    ensures Unused(s.tokens, c) == {} && forall kind :: Owned(s.tokens, c, kind) == {}
  {
    assert forall d :: d in s.tokens ==> s.tokens[d].chain != c;
  }

  lemma ChainOpened(cfg: Config, s: Store, code: Code, draw: Draw, now: int)
    requires Lineage(s) && RevokedTogether(s) && ChainIssued(cfg, s, code, draw, now).Some?
    ensures var after := ChainIssued(cfg, s, code, draw, now).value;
            draw.chain !in s.chains && after.codes == s.codes && Lineage(after) && RevokedTogether(after) &&
            after.chains == s.chains[draw.chain := Chain(code.client, code.owner, code.ownerId, code.resource, now, None)]
  {
    hide Owned, Unused, PairInserted;
    var c := draw.chain;
    var opened' := s.(chains := s.chains[c := Chain(code.client, code.owner, code.ownerId, code.resource, now, None)]);
    PairIs(cfg, opened', c, draw, now);
    var after := ChainIssued(cfg, s, code, draw, now).value;
    var a, r := cfg.hash(ACCESS_PREFIX + draw.access), cfg.hash(REFRESH_PREFIX + draw.refresh);
    NoTokensYet(s, c);
    forall b | b in after.chains
      ensures |Unused(after.tokens, b)| == 1 && |Owned(after.tokens, b, Access)| == |Owned(after.tokens, b, Refresh)|
    {
      CountsAfterPair(s.tokens, after.tokens, c, a, r, b);
    }
  }

  lemma RedeemBinds(s: Store, after: Store, d: string, c: string, now: int)
    requires CodesOk(s) && d in s.codes && s.codes[d].chain.None? && c !in s.chains
    requires after.codes == s.codes[d := s.codes[d].(usedAt := Some(now), chain := Some(c))]
    requires var code := s.codes[d];
             after.chains == s.chains[c := Chain(code.client, code.owner, code.ownerId, code.resource, now, None)]
    ensures CodesOk(after)
  {
    forall e | e in after.codes
      ensures Bound(after, e)
      ensures e != d ==> after.codes[e].chain != Some(c)
    {
      if e != d {
        assert Bound(s, e);
      }
    }
    forall b | b in after.chains
      ensures exists e :: e in after.codes && after.codes[e].chain == Some(b)
    {
      if b == c {
        assert after.codes[d].chain == Some(b);
      } else {
        var e :| e in s.codes && s.codes[e].chain == Some(b);
        assert after.codes[e].chain == Some(b);
      }
    }
  }

  // What a redemption that succeeds found and did.
  lemma RedemptionIs(cfg: Config, s: Store, r: CodeRequest, draw: Draw, now: int, commits: bool)
    requires Redeemed(cfg, s, r, draw, now, commits).1.Issued?
    ensures var d := cfg.hash(r.code);
            var after := Redeemed(cfg, s, r, draw, now, commits).0;
            d in s.codes && s.codes[d].usedAt.None? && ChainIssued(cfg, s, s.codes[d], draw, now).Some? &&
            after == ChainIssued(cfg, s, s.codes[d], draw, now).value.(codes := s.codes[d := s.codes[d].(usedAt := Some(now), chain := Some(draw.chain))])
  {
    hide ChainIssued, ChainRevoked;
    ChainIssuedKeepsCodes(cfg, s, s.codes[cfg.hash(r.code)], draw, now);
  }

  lemma ChainIssuedKeepsCodes(cfg: Config, s: Store, code: Code, draw: Draw, now: int)
    requires ChainIssued(cfg, s, code, draw, now).Some?
    ensures ChainIssued(cfg, s, code, draw, now).value.codes == s.codes
  {
  }

  // A redemption that does not succeed changes nothing, or revokes the chain of a redeemed code.
  lemma RefusedRedemption(cfg: Config, s: Store, r: CodeRequest, draw: Draw, now: int, commits: bool)
    requires Redeemed(cfg, s, r, draw, now, commits).1.Refused?
    ensures var (after, answer) := Redeemed(cfg, s, r, draw, now, commits);
            after == s ||
            (answer.why == CodeReused && cfg.hash(r.code) in s.codes && s.codes[cfg.hash(r.code)].chain.Some? &&
             after == ChainRevoked(s, s.codes[cfg.hash(r.code)].chain.value, now))
  {
    hide ChainIssued, ChainRevoked;
  }

  lemma RedeemKeeps(cfg: Config, s: Store, r: CodeRequest, draw: Draw, now: int, commits: bool)
    requires Inv(s)
    ensures Inv(Redeemed(cfg, s, r, draw, now, commits).0)
  {
    var (after, answer) := Redeemed(cfg, s, r, draw, now, commits);
    hide Redeemed, ChainIssued, ChainRevoked, Lineage, RevokedTogether;
    if answer.Issued? {
      RedemptionIs(cfg, s, r, draw, now, commits);
      var d := cfg.hash(r.code);
      assert Bound(s, d);
      ChainOpened(cfg, s, s.codes[d], draw, now);
      IssueKeepsTables(ChainIssued(cfg, s, s.codes[d], draw, now).value, after);
      RedeemBinds(s, after, d, draw.chain, now);
    } else {
      RefusedRedemption(cfg, s, r, draw, now, commits);
      if after != s {
        RevokeKeeps(s, s.codes[cfg.hash(r.code)].chain.value, now);
      }
    }
  }

  // What a rotation that succeeds found and did.
  lemma RotationIs(cfg: Config, s: Store, refresh: string, client: string, draw: Draw, now: int, commits: bool)
    requires Rotated(cfg, s, refresh, client, draw, now, commits).1.Issued?
    ensures var d := cfg.hash(refresh);
            var (after, answer) := Rotated(cfg, s, refresh, client, draw, now, commits);
            FindsRefresh(cfg, s, refresh) && answer.chain == s.tokens[d].chain && s.tokens[d].usedAt.None? && s.tokens[d].revokedAt.None? &&
            s.chains[answer.chain].revokedAt.None? && s.chains[answer.chain].client == client &&
            Some(after) == PairInserted(cfg, s.(tokens := s.tokens[d := s.tokens[d].(usedAt := Some(now))]), answer.chain, draw, now)
  {
    hide PairInserted, ChainRevoked;
  }

  lemma RefusedRotation(cfg: Config, s: Store, refresh: string, client: string, draw: Draw, now: int, commits: bool)
    requires Rotated(cfg, s, refresh, client, draw, now, commits).1.Refused?
    ensures var (after, answer) := Rotated(cfg, s, refresh, client, draw, now, commits);
            after == s ||
            (answer.why == TokenReused && FindsRefresh(cfg, s, refresh) && after == ChainRevoked(s, s.tokens[cfg.hash(refresh)].chain, now))
  {
    hide PairInserted, ChainRevoked;
  }

  lemma RotationCounts(cfg: Config, s: Store, refresh: string, draw: Draw, now: int, after: Store)
    requires Lineage(s) && RevokedTogether(s) && FindsRefresh(cfg, s, refresh)
    requires var d := cfg.hash(refresh);
             s.tokens[d].usedAt.None? && s.tokens[d].revokedAt.None? &&
             Some(after) == PairInserted(cfg, s.(tokens := s.tokens[d := s.tokens[d].(usedAt := Some(now))]), s.tokens[d].chain, draw, now)
    ensures Lineage(after) && RevokedTogether(after) && after.codes == s.codes && after.chains == s.chains
    ensures var a, r := cfg.hash(ACCESS_PREFIX + draw.access), cfg.hash(REFRESH_PREFIX + draw.refresh);
            Unused(after.tokens, s.tokens[cfg.hash(refresh)].chain) == {r} && a !in s.tokens && r !in s.tokens
  {
    hide Owned, Unused, PairInserted, RevokedTogether;
    var d := cfg.hash(refresh);
    var c := s.tokens[d].chain;
    var spent := s.(tokens := s.tokens[d := s.tokens[d].(usedAt := Some(now))]);
    PairIs(cfg, spent, c, draw, now);
    var a, r := cfg.hash(ACCESS_PREFIX + draw.access), cfg.hash(REFRESH_PREFIX + draw.refresh);
    UnusedIsIn(s.tokens, d);
    OnlyOne(Unused(s.tokens, c), d);
    forall b | b in after.chains
      ensures |Unused(after.tokens, b)| == 1 && |Owned(after.tokens, b, Access)| == |Owned(after.tokens, b, Refresh)|
    {
      CountsAfterUse(s.tokens, d, now, b);
      if b != c {
        UnusedElsewhere(s.tokens, d, b);
      }
      CountsAfterPair(spent.tokens, after.tokens, c, a, r, b);
    }
    CountsAfterPair(spent.tokens, after.tokens, c, a, r, c);
    OnlyOne(Unused(after.tokens, c), r);
    LiveRotation(s, after, d, now, a, r);
  }

  lemma LiveRotation(s: Store, after: Store, d: string, now: int, a: string, r: string)
    requires RevokedTogether(s) && d in s.tokens && s.tokens[d].revokedAt.None? && after.chains == s.chains
    requires Paired(s.tokens[d := s.tokens[d].(usedAt := Some(now))], after.tokens, s.tokens[d].chain, a, r)
    ensures RevokedTogether(after)
  {
  }

  lemma UnusedIsIn(tokens: map<string, Token>, d: string)
    requires d in tokens && tokens[d].kind == Refresh && IsUnused(tokens[d])
    ensures d in Unused(tokens, tokens[d].chain)
  {
  }

  lemma UnusedElsewhere(tokens: map<string, Token>, d: string, b: string)
    requires d in tokens && tokens[d].chain != b
    ensures d !in Unused(tokens, b)
  {
  }

  lemma OnlyOne(s: set<string>, d: string)
    requires |s| == 1 && d in s
    ensures s == {d}
  {
    assert |s - {d}| == 0;
  }

  lemma RotateKeeps(cfg: Config, s: Store, refresh: string, client: string, draw: Draw, now: int, commits: bool)
    requires Inv(s)
    ensures Inv(Rotated(cfg, s, refresh, client, draw, now, commits).0)
  {
    var (after, answer) := Rotated(cfg, s, refresh, client, draw, now, commits);
    hide Rotated, PairInserted, ChainRevoked, Lineage, RevokedTogether, FindsRefresh;
    if answer.Issued? {
      RotationIs(cfg, s, refresh, client, draw, now, commits);
      FoundRefresh(cfg, s, refresh);
      RotationCounts(cfg, s, refresh, draw, now, after);
      RotateKeepsCodes(s, after);
    } else {
      RefusedRotation(cfg, s, refresh, client, draw, now, commits);
      if after != s {
        FoundRefresh(cfg, s, refresh);
        RevokeKeeps(s, s.tokens[cfg.hash(refresh)].chain, now);
      }
    }
  }

  lemma RotateKeepsCodes(s: Store, after: Store)
    requires CodesOk(s) && after.codes == s.codes && after.chains == s.chains
    ensures CodesOk(after)
  {
    forall d | d in after.codes
      ensures Bound(after, d)
    {
      assert Bound(s, d);
    }
  }

  lemma StepKeeps(cfg: Config, s: Store, a: Action)
    requires Inv(s)
    ensures Inv(Applied(cfg, s, a).0)
  {
    hide Inv, Redeemed, Rotated, CodeIssued, RevokeTarget, ChainRevoked;
    match a {
      case DoIssue(body, code, at) => IssueKeeps(cfg, s, body, code, at);
      case DoRedeem(r, draw, at, commits) => RedeemKeeps(cfg, s, r, draw, at, commits);
      case DoRotate(refresh, client, draw, at, commits) => RotateKeeps(cfg, s, refresh, client, draw, at, commits);
      case DoRevoke(token, at, commits) =>
        if RevokeTarget(cfg, s, token, at).Some? {
          RevokeKeeps(s, RevokeTarget(cfg, s, token, at).value, at);
        }
      case DoRevokeFound(c, at, commits) => RevokeKeeps(s, c, at);
      case DoRevokeGrant(c, owner, at, commits) => RevokeKeeps(s, c, at);
    }
  }

  lemma {:induction false} RunKeeps(cfg: Config, s: Store, actions: seq<Action>)
    requires Inv(s)
    ensures Inv(Run(cfg, s, actions))
    decreases |actions|
  {
    hide Inv, Applied;
    if actions != [] {
      RunKeeps(cfg, s, actions[..|actions| - 1]);
      StepKeeps(cfg, Run(cfg, s, actions[..|actions| - 1]), actions[|actions| - 1]);
    }
  }

  // The lineage of every chain, over every run from empty tables.
  lemma EveryRun(cfg: Config, actions: seq<Action>)
    ensures Inv(Run(cfg, EMPTY, actions))
  {
    RunKeeps(cfg, EMPTY, actions);
  }

  // ---- Finality -------------------------------------------------------------

  // What is over for good: a revoked chain, a redeemed code, a spent refresh token.
  predicate ChainOver(s: Store, c: string) {
    c in s.chains && s.chains[c].revokedAt.Some?
  }

  predicate CodeOver(s: Store, d: string) {
    d in s.codes && s.codes[d].usedAt.Some?
  }

  predicate TokenOver(s: Store, d: string) {
    d in s.tokens && s.tokens[d].usedAt.Some?
  }

  // What no step takes back: rows stay, chains keep what they carry, and what is over stays over. A
  // chain that is over gains no token.
  ghost predicate Advances(a: Store, b: Store) {
    (forall c :: c in a.chains ==>
       c in b.chains && b.chains[c] == a.chains[c].(revokedAt := b.chains[c].revokedAt) && (ChainOver(a, c) ==> b.chains[c] == a.chains[c])) &&
    (forall d :: d in a.tokens ==>
       d in b.tokens && b.tokens[d].chain == a.tokens[d].chain && b.tokens[d].kind == a.tokens[d].kind && (TokenOver(a, d) ==> TokenOver(b, d))) &&
    (forall d :: d in a.codes && CodeOver(a, d) ==> d in b.codes && b.codes[d] == a.codes[d]) &&
    (forall d :: d in b.tokens && d !in a.tokens ==> !ChainOver(a, b.tokens[d].chain))
  }

  lemma AdvancesTwice(a: Store, b: Store, c: Store)
    requires Advances(a, b) && Advances(b, c)
    ensures Advances(a, c)
  {
  }

  lemma RevokeAdvances(s: Store, c: string, now: int)
    ensures Advances(s, ChainRevoked(s, c, now))
    ensures c in s.chains ==> ChainOver(ChainRevoked(s, c, now), c)
  {
  }

  lemma RedeemAdvances(cfg: Config, s: Store, r: CodeRequest, draw: Draw, now: int, commits: bool)
    requires Inv(s)
    ensures Advances(s, Redeemed(cfg, s, r, draw, now, commits).0)
  {
    hide Redeemed, ChainRevoked, ChainIssued, Inv, Advances;
    var (after, answer) := Redeemed(cfg, s, r, draw, now, commits);
    if answer.Issued? {
      RedemptionIs(cfg, s, r, draw, now, commits);
      var code := s.codes[cfg.hash(r.code)];
      OpeningAdds(cfg, s, code, draw, now);
      OpeningAdvances(s, after, draw.chain, cfg.hash(r.code));
    } else {
      RefusedRedemption(cfg, s, r, draw, now, commits);
      StayAdvances(s);
      if after != s {
        RevokeAdvances(s, s.codes[cfg.hash(r.code)].chain.value, now);
      }
    }
  }

  lemma OpeningAdds(cfg: Config, s: Store, code: Code, draw: Draw, now: int)
    requires ChainIssued(cfg, s, code, draw, now).Some?
    ensures var after := ChainIssued(cfg, s, code, draw, now).value;
            draw.chain !in s.chains && draw.chain in after.chains && after.chains == s.chains[draw.chain := after.chains[draw.chain]] &&
            (forall d :: d in s.tokens ==> d in after.tokens && after.tokens[d] == s.tokens[d]) &&
            (forall d :: d in after.tokens && d !in s.tokens ==> after.tokens[d].chain == draw.chain)
  {
    hide PairInserted;
    var opening := s.(chains := s.chains[draw.chain := Chain(code.client, code.owner, code.ownerId, code.resource, now, None)]);
    PairIs(cfg, opening, draw.chain, draw, now);
    PairAdds(s.tokens, ChainIssued(cfg, s, code, draw, now).value.tokens, draw.chain, cfg.hash(ACCESS_PREFIX + draw.access), cfg.hash(REFRESH_PREFIX + draw.refresh));
    hide Paired;
  }

  lemma OpeningAdvances(s: Store, after: Store, c: string, digest: string)
    requires c !in s.chains && c in after.chains && after.chains == s.chains[c := after.chains[c]]
    requires forall d :: d in s.tokens ==> d in after.tokens && after.tokens[d] == s.tokens[d]
    requires forall d :: d in after.tokens && d !in s.tokens ==> after.tokens[d].chain == c
    requires digest in s.codes && s.codes[digest].usedAt.None? && digest in after.codes && after.codes == s.codes[digest := after.codes[digest]]
    ensures Advances(s, after)
  {
  }

  lemma PairAdds(tokens: map<string, Token>, after: map<string, Token>, c: string, a: string, r: string)
    requires Paired(tokens, after, c, a, r)
    ensures forall d :: d in tokens ==> d in after && after[d] == tokens[d]
    ensures forall d :: d in after && d !in tokens ==> after[d].chain == c
  {
  }

  lemma RotateAdvances(cfg: Config, s: Store, refresh: string, client: string, draw: Draw, now: int, commits: bool)
    requires Inv(s)
    ensures Advances(s, Rotated(cfg, s, refresh, client, draw, now, commits).0)
    ensures Rotated(cfg, s, refresh, client, draw, now, commits).1.Issued? ==>
              TokenOver(Rotated(cfg, s, refresh, client, draw, now, commits).0, cfg.hash(refresh))
  {
    var (after, answer) := Rotated(cfg, s, refresh, client, draw, now, commits);
    hide Rotated, ChainRevoked, Lineage, RevokedTogether, CodesOk, PairInserted, FindsRefresh;
    if answer.Issued? {
      RotationIs(cfg, s, refresh, client, draw, now, commits);
      FoundRefresh(cfg, s, refresh);
      var d := cfg.hash(refresh);
      var spent := s.(tokens := s.tokens[d := s.tokens[d].(usedAt := Some(now))]);
      PairIs(cfg, spent, answer.chain, draw, now);
      PairAdds(spent.tokens, after.tokens, answer.chain, cfg.hash(ACCESS_PREFIX + draw.access), cfg.hash(REFRESH_PREFIX + draw.refresh));
      hide Paired;
    } else {
      RefusedRotation(cfg, s, refresh, client, draw, now, commits);
      if after != s {
        FoundRefresh(cfg, s, refresh);
        RevokeAdvances(s, s.tokens[cfg.hash(refresh)].chain, now);
      }
    }
  }

  lemma StepAdvances(cfg: Config, s: Store, a: Action)
    requires Inv(s)
    ensures Advances(s, Applied(cfg, s, a).0)
  {
    hide Inv, Redeemed, Rotated, CodeIssued, RevokeTarget, ChainRevoked, Advances;
    match a {
      case DoIssue(body, code, at) => IssueAdvances(cfg, s, body, code, at);
      case DoRedeem(r, draw, at, commits) => RedeemAdvances(cfg, s, r, draw, at, commits);
      case DoRotate(refresh, client, draw, at, commits) => RotateAdvances(cfg, s, refresh, client, draw, at, commits);
      case DoRevoke(token, at, commits) =>
        StayAdvances(s);
        if RevokeTarget(cfg, s, token, at).Some? {
          RevokeAdvances(s, RevokeTarget(cfg, s, token, at).value, at);
        }
      case DoRevokeFound(c, at, commits) =>
        StayAdvances(s);
        RevokeAdvances(s, c, at);
      case DoRevokeGrant(c, owner, at, commits) =>
        StayAdvances(s);
        RevokeAdvances(s, c, at);
    }
  }

  lemma StayAdvances(s: Store)
    ensures Advances(s, s)
  {
  }

  lemma IssueAdvances(cfg: Config, s: Store, body: string, code: Code, now: int)
    ensures Advances(s, CodeIssued(cfg, s, body, code, now))
  {
  }

  lemma {:induction false} RunAdvances(cfg: Config, s: Store, actions: seq<Action>)
    requires Inv(s)
    ensures Inv(Run(cfg, s, actions)) && Advances(s, Run(cfg, s, actions))
    decreases |actions|
  {
    hide Inv, Applied, Advances;
    if actions == [] {
      StayAdvances(s);
    } else {
      var before := Run(cfg, s, actions[..|actions| - 1]);
      RunAdvances(cfg, s, actions[..|actions| - 1]);
      StepKeeps(cfg, before, actions[|actions| - 1]);
      StepAdvances(cfg, before, actions[|actions| - 1]);
      AdvancesTwice(s, before, Run(cfg, s, actions));
    }
  }

  // A chain that is over never issues and none of its tokens validates, at any time.
  lemma OverIsDead(cfg: Config, s: Store, c: string, a: Action, plaintext: string, now: int)
    requires Inv(s) && ChainOver(s, c)
    ensures Applied(cfg, s, a).1.Some? && Applied(cfg, s, a).1.value.Issued? ==> Applied(cfg, s, a).1.value.chain != c
    ensures Validated(cfg, s, plaintext, now) != Valid(c)
  {
    hide Inv, ChainRevoked, ChainIssued, PairInserted, CodeIssued, TokenRevoked;
    match a {
      case DoRedeem(r, draw, at, commits) =>
        if Redeemed(cfg, s, r, draw, at, commits).1.Issued? {
          RedemptionIs(cfg, s, r, draw, at, commits);
          NewChain(cfg, s, s.codes[cfg.hash(r.code)], draw, at);
        }
      case DoRotate(refresh, client, draw, at, commits) =>
        if Rotated(cfg, s, refresh, client, draw, at, commits).1.Issued? {
          RotationIs(cfg, s, refresh, client, draw, at, commits);
        }
      case _ =>
    }
  }

  lemma NewChain(cfg: Config, s: Store, code: Code, draw: Draw, now: int)
    requires ChainIssued(cfg, s, code, draw, now).Some?
    ensures draw.chain !in s.chains
  {
  }

  // Presents a redeemed code, or a spent refresh token with the client id of its chain, in a
  // transaction that commits; c is the chain behind it.
  predicate Reuses(cfg: Config, s: Store, a: Action, c: string) {
    match a
    case DoRedeem(r, draw, at, commits) =>
      commits && r.code != "" && r.client != "" && r.redirect != "" && r.verifier != "" &&
      CodeOver(s, cfg.hash(r.code)) && s.codes[cfg.hash(r.code)].chain == Some(c)
    case DoRotate(refresh, client, draw, at, commits) =>
      commits && refresh != "" && client != "" && FindsRefresh(cfg, s, refresh) && TokenOver(s, cfg.hash(refresh)) &&
      s.tokens[cfg.hash(refresh)].chain == c && s.chains[c].client == client
    case _ => false
  }

  lemma ReuseRevokes(cfg: Config, s: Store, a: Action, c: string)
    requires Inv(s) && Reuses(cfg, s, a, c)
    ensures ChainOver(Applied(cfg, s, a).0, c)
  {
    match a {
      case DoRedeem(r, draw, at, commits) =>
        assert Bound(s, cfg.hash(r.code));
        RevokeAdvances(s, c, at);
      case DoRotate(refresh, client, draw, at, commits) =>
        RevokeAdvances(s, c, at);
      case _ =>
    }
    hide Lineage, RevokedTogether, ChainRevoked, PairInserted, ChainIssued, CodesOk;
  }

  lemma OverTokens(s: Store, t: Store, c: string)
    requires Advances(s, t) && RevokedTogether(t) && ChainOver(s, c)
    ensures ChainOver(t, c)
    ensures forall d :: d in t.tokens && t.tokens[d].chain == c ==> d in s.tokens && t.tokens[d].revokedAt.Some?
  {
  }

  // The reuse cascade is final: after it, in every continuation, every token of the chain is revoked,
  // the chain has no token it did not have, nothing is issued on it and nothing of it validates.
  lemma ReuseIsFinal(cfg: Config, before: seq<Action>, a: Action, c: string, after: seq<Action>, b: Action,
          plaintext: string, now: int)
    requires Reuses(cfg, Run(cfg, EMPTY, before), a, c)
    ensures var s := Applied(cfg, Run(cfg, EMPTY, before), a).0;
            var t := Run(cfg, s, after);
            (forall d :: d in t.tokens && t.tokens[d].chain == c ==> d in s.tokens && t.tokens[d].revokedAt.Some?) &&
            (Applied(cfg, t, b).1.Some? && Applied(cfg, t, b).1.value.Issued? ==> Applied(cfg, t, b).1.value.chain != c) &&
            Validated(cfg, t, plaintext, now) != Valid(c)
  {
    hide Run, Applied, Validated, Lineage, CodesOk, RevokedTogether, Reuses, Advances, ChainOver;
    var s0 := Run(cfg, EMPTY, before);
    EveryRun(cfg, before);
    ReuseRevokes(cfg, s0, a, c);
    StepKeeps(cfg, s0, a);
    var s := Applied(cfg, s0, a).0;
    RunAdvances(cfg, s, after);
    OverTokens(s, Run(cfg, s, after), c);
    OverIsDead(cfg, Run(cfg, s, after), c, b, plaintext, now);
  }

  // What a credential that issued leaves behind, and that it issues nothing more.
  lemma IssuedIsOver(cfg: Config, s: Store, a: Action)
    requires Inv(s) && Applied(cfg, s, a).1.Some? && Applied(cfg, s, a).1.value.Issued?
    ensures a.DoRedeem? ==> CodeOver(Applied(cfg, s, a).0, cfg.hash(a.r.code))
    ensures a.DoRotate? ==> TokenOver(Applied(cfg, s, a).0, cfg.hash(a.refresh))
  {
    hide Inv, Redeemed, Rotated, ChainIssued;
    match a {
      case DoRedeem(r, draw, at, commits) => RedemptionIs(cfg, s, r, draw, at, commits);
      case DoRotate(refresh, client, draw, at, commits) => RotateAdvances(cfg, s, refresh, client, draw, at, commits);
      case _ =>
    }
  }

  lemma OverIsRefused(cfg: Config, s: Store, b: Action)
    requires (b.DoRedeem? && CodeOver(s, cfg.hash(b.r.code))) || (b.DoRotate? && TokenOver(s, cfg.hash(b.refresh)))
    ensures Applied(cfg, s, b).1.Some? && Applied(cfg, s, b).1.value.Refused?
  {
    hide Redeemed, Rotated;
    match b {
      case DoRedeem(r, draw, at, commits) =>
        if Redeemed(cfg, s, r, draw, at, commits).1.Issued? {
          RedemptionIs(cfg, s, r, draw, at, commits);
        }
      case DoRotate(refresh, client, draw, at, commits) =>
        if Rotated(cfg, s, refresh, client, draw, at, commits).1.Issued? {
          RotationIs(cfg, s, refresh, client, draw, at, commits);
        }
    }
  }

  lemma StaysOver(s: Store, t: Store, d: string)
    requires Advances(s, t)
    ensures CodeOver(s, d) ==> CodeOver(t, d)
    ensures TokenOver(s, d) ==> TokenOver(t, d)
  {
  }

  // A code yields at most one chain and a refresh token at most one successor pair: whatever happens
  // after an issuance, the same credential issues nothing more.
  lemma IssuesAtMostOnce(cfg: Config, before: seq<Action>, a: Action, after: seq<Action>, b: Action)
    requires (a.DoRedeem? && b.DoRedeem? && cfg.hash(a.r.code) == cfg.hash(b.r.code)) ||
             (a.DoRotate? && b.DoRotate? && cfg.hash(a.refresh) == cfg.hash(b.refresh))
    requires Applied(cfg, Run(cfg, EMPTY, before), a).1 != None && Applied(cfg, Run(cfg, EMPTY, before), a).1.value.Issued?
    ensures var answer := Applied(cfg, Run(cfg, Applied(cfg, Run(cfg, EMPTY, before), a).0, after), b).1;
            answer.Some? && answer.value.Refused?
  {
    hide Run, Inv, Applied, Advances, CodeOver, TokenOver;
    var s0 := Run(cfg, EMPTY, before);
    EveryRun(cfg, before);
    StepKeeps(cfg, s0, a);
    var s := Applied(cfg, s0, a).0;
    IssuedIsOver(cfg, s0, a);
    RunAdvances(cfg, s, after);
    StaysOver(s, Run(cfg, s, after), cfg.hash(if a.DoRedeem? then a.r.code else a.refresh));
    OverIsRefused(cfg, Run(cfg, s, after), b);
  }

  // Over every run a chain is revoked exactly when all its tokens are.
  lemma RevokedIffAllTokens(cfg: Config, actions: seq<Action>, c: string)
    requires c in Run(cfg, EMPTY, actions).chains
    ensures var s := Run(cfg, EMPTY, actions);
            s.chains[c].revokedAt.Some? <==> forall d :: d in s.tokens && s.tokens[d].chain == c ==> s.tokens[d].revokedAt.Some?
  {
    EveryRun(cfg, actions);
    hide Run, CodesOk;
    var s := Run(cfg, EMPTY, actions);
    assert |Unused(s.tokens, c)| == 1;
    var d :| d in Unused(s.tokens, c);
  }

  // A revocation reaches one chain, and doing it again changes nothing.
  lemma RevocationIsContained(s: Store, c: string, now: int, later: int)
    ensures var after := ChainRevoked(s, c, now);
            ChainRevoked(after, c, later) == after && after.codes == s.codes && after.tokens.Keys == s.tokens.Keys &&
            (forall b :: b in s.chains && b != c ==> b in after.chains && after.chains[b] == s.chains[b]) &&
            (forall d :: d in s.tokens && s.tokens[d].chain != c ==> after.tokens[d] == s.tokens[d]) &&
            (forall d :: d in s.tokens && s.tokens[d].chain == c ==> after.tokens[d] == s.tokens[d].(revokedAt := after.tokens[d].revokedAt))
  {
    var after := ChainRevoked(s, c, now);
    assert ChainRevoked(after, c, later).chains == after.chains;
    assert ChainRevoked(after, c, later).tokens == after.tokens;
  }

  // ---- Who may redeem -------------------------------------------------------

  lemma BindingsMet(cfg: Config, s: Store, r: CodeRequest, draw: Draw, now: int, commits: bool)
    requires Redeemed(cfg, s, r, draw, now, commits).1.Issued?
    ensures cfg.hash(r.code) in s.codes
    ensures var code := s.codes[cfg.hash(r.code)];
            r.client == code.client && r.redirect == code.redirect && cfg.challengeOf(r.verifier) == code.challenge && now < code.expiresAt &&
            (r.resource == "" || r.resource == code.resource)
    ensures Redeemed(cfg, s, r, draw, now, commits).1 == Issued(draw.chain, ACCESS_PREFIX + draw.access, REFRESH_PREFIX + draw.refresh)
  {
    hide ChainIssued, ChainRevoked;
  }

  // A code is redeemed only by its own client, at its own redirect address, with the verifier behind
  // its challenge, in time, and for its own resource; the chain then carries what the code was bound
  // to, and the pair is live.
  lemma RedemptionIsBound(cfg: Config, s: Store, r: CodeRequest, draw: Draw, now: int, commits: bool)
    requires Inv(s) && Redeemed(cfg, s, r, draw, now, commits).1.Issued?
    ensures var code := s.codes[cfg.hash(r.code)];
            var (after, answer) := Redeemed(cfg, s, r, draw, now, commits);
            r.client == code.client && r.redirect == code.redirect && cfg.challengeOf(r.verifier) == code.challenge && now < code.expiresAt &&
            (r.resource == "" || r.resource == code.resource) &&
            after.chains == s.chains[answer.chain := Chain(code.client, code.owner, code.ownerId, code.resource, now, None)] &&
            answer.chain !in s.chains && (cfg.accessTTL > 0 ==> Validated(cfg, after, answer.access, now) == Valid(answer.chain)) &&
            FindsRefresh(cfg, after, answer.refresh) && Unused(after.tokens, answer.chain) == {cfg.hash(answer.refresh)}
  {
    var (after, answer) := Redeemed(cfg, s, r, draw, now, commits);
    RedemptionIs(cfg, s, r, draw, now, commits);
    BindingsMet(cfg, s, r, draw, now, commits);
    hide Redeemed;
    var code := s.codes[cfg.hash(r.code)];
    ChainOpened(cfg, s, code, draw, now);
    ChainTokens(cfg, s, code, draw, now);
    hide ChainIssued, ChainRevoked, Owned, Unused, CodesOk, Lineage, RevokedTogether, Validated, FindsRefresh;
    assert after.tokens == ChainIssued(cfg, s, code, draw, now).value.tokens;
    PairIsLive(cfg, after, draw, now);
    OnlyOne(Unused(after.tokens, answer.chain), cfg.hash(answer.refresh));
  }

  lemma PairIsLive(cfg: Config, s: Store, draw: Draw, now: int)
    requires draw.chain in s.chains && s.chains[draw.chain].revokedAt.None?
    requires var a, r := cfg.hash(ACCESS_PREFIX + draw.access), cfg.hash(REFRESH_PREFIX + draw.refresh);
             a in s.tokens && s.tokens[a] == Token(draw.chain, Access, now, now + cfg.accessTTL, None, None) &&
             r in s.tokens && s.tokens[r] == Token(draw.chain, Refresh, now, now + cfg.refreshTTL, None, None)
    ensures cfg.accessTTL > 0 ==> Validated(cfg, s, ACCESS_PREFIX + draw.access, now) == Valid(draw.chain)
    ensures FindsRefresh(cfg, s, REFRESH_PREFIX + draw.refresh)
  {
  }

  lemma ChainTokens(cfg: Config, s: Store, code: Code, draw: Draw, now: int)
    requires ChainIssued(cfg, s, code, draw, now).Some?
    ensures var after := ChainIssued(cfg, s, code, draw, now).value;
            var a, r := cfg.hash(ACCESS_PREFIX + draw.access), cfg.hash(REFRESH_PREFIX + draw.refresh);
            a in after.tokens && after.tokens[a] == Token(draw.chain, Access, now, now + cfg.accessTTL, None, None) &&
            r in after.tokens && after.tokens[r] == Token(draw.chain, Refresh, now, now + cfg.refreshTTL, None, None) &&
            r in Unused(after.tokens, draw.chain)
  {
  }
}
