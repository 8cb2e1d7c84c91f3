/** The token endpoint of the dashboard: authorization codes, token chains, refresh rotation and the
    reuse cascade (dashboard/internal/server/oauth.go, dashboard/internal/oauth). A store value stands
    for the tables; the class keeps them in fields. */
module OAuth {
  import opened Numeric

  // ---- Tables ---------------------------------------------------------------

  datatype Kind = Access | Refresh

  datatype Chain = Chain(client: string, owner: string, ownerId: string, resource: string, createdAt: int, revokedAt: Option<int>)

  datatype Token = Token(chain: string, kind: Kind, issuedAt: int, expiresAt: int, usedAt: Option<int>, revokedAt: Option<int>)

  datatype Code = Code(client: string, owner: string, ownerId: string, challenge: string, redirect: string, resource: string,
                       issuedAt: int, expiresAt: int, usedAt: Option<int>, chain: Option<string>)

  // Chains by id; tokens and codes by the hash of their plaintext, which is a unique column.
  datatype Store = Store(chains: map<string, Chain>, tokens: map<string, Token>, codes: map<string, Code>)

  const EMPTY := Store(map[], map[], map[])

  // What the server is set up with: the hash of credentials, the challenge of a verifier, the owners
  // of the workspace, and the lifetimes.
  datatype Config = Config(hash: string -> string, challengeOf: string -> string, inWorkspace: string -> bool,
                           accessTTL: int, refreshTTL: int, codeTTL: int)

  const ACCESS_PREFIX := "ms_oat_"
  const REFRESH_PREFIX := "ms_ort_"
  const CODE_PREFIX := "ms_aco_"

  // The random parts drawn for one issuance.
  datatype Draw = Draw(chain: string, access: string, refresh: string)

  datatype Refusal =
    | MissingParameter | CodeNotFound | CodeReused | CodeExpired | ClientMismatch | RedirectMismatch | ResourceMismatch
    | VerifierMismatch | TokenNotFound | TokenReused | TokenExpired | OutsideWorkspace | ServerError

  datatype Answer = Issued(chain: string, access: string, refresh: string) | Refused(why: Refusal)

  // ---- Statements -----------------------------------------------------------

  function Stamp(at: Option<int>, now: int): Option<int> {
    if at.None? then Some(now) else at
  }

  // RevokeChainTx: the chain and all its tokens, each stamped once.
  function ChainRevoked(s: Store, c: string, now: int): Store {
    s.(chains := if c in s.chains then s.chains[c := s.chains[c].(revokedAt := Stamp(s.chains[c].revokedAt, now))] else s.chains,
       tokens := map d | d in s.tokens :: if s.tokens[d].chain == c then s.tokens[d].(revokedAt := Stamp(s.tokens[d].revokedAt, now)) else s.tokens[d])
  }

  // insertToken: the hash is unique and the chain must exist.
  function TokenInserted(cfg: Config, s: Store, c: string, kind: Kind, body: string, now: int): Option<Store> {
    var digest := cfg.hash((if kind == Access then ACCESS_PREFIX else REFRESH_PREFIX) + body);
    if digest in s.tokens || c !in s.chains then None
    else Some(s.(tokens := s.tokens[digest := Token(c, kind, now, now + if kind == Access then cfg.accessTTL else cfg.refreshTTL, None, None)]))
  }

  function PairInserted(cfg: Config, s: Store, c: string, draw: Draw, now: int): Option<Store> {
    match TokenInserted(cfg, s, c, Access, draw.access, now)
    case None => None
    case Some(s') => TokenInserted(cfg, s', c, Refresh, draw.refresh, now)
  }

  // IssueChainAndTokens
  function ChainIssued(cfg: Config, s: Store, code: Code, draw: Draw, now: int): Option<Store> {
    if draw.chain in s.chains then None
    else PairInserted(cfg, s.(chains := s.chains[draw.chain := Chain(code.client, code.owner, code.ownerId, code.resource, now, None)]), draw.chain, draw, now)
  }

  function HasPrefix(s: string, prefix: string): bool {
    prefix <= s
  }

  // ---- Requests -------------------------------------------------------------

  // AuthCodeStore.Issue
  function CodeIssued(cfg: Config, s: Store, body: string, code: Code, now: int): Store {
    var digest := cfg.hash(CODE_PREFIX + body);
    if digest in s.codes then s
    else s.(codes := s.codes[digest := code.(issuedAt := now, expiresAt := now + cfg.codeTTL, usedAt := None, chain := None)])
  }

  datatype CodeRequest = CodeRequest(code: string, client: string, redirect: string, verifier: string, resource: string)

  // handleTokenAuthCode. A transaction that does not commit leaves the store as it was.
  function Redeemed(cfg: Config, s: Store, r: CodeRequest, draw: Draw, now: int, commits: bool): (Store, Answer) {
    var digest := cfg.hash(r.code);
    if r.code == "" || r.client == "" || r.redirect == "" || r.verifier == "" then (s, Refused(MissingParameter))
    else if digest !in s.codes then (s, Refused(CodeNotFound))
    else
      var code := s.codes[digest];
      if code.usedAt.Some? then
        (if code.chain.Some? && commits then ChainRevoked(s, code.chain.value, now) else s, Refused(CodeReused))
      else if now >= code.expiresAt then (s, Refused(CodeExpired))
      else if code.client != r.client then (s, Refused(ClientMismatch))
      else if code.redirect != r.redirect then (s, Refused(RedirectMismatch))
      else if r.resource != "" && r.resource != code.resource then (s, Refused(ResourceMismatch))
      else if cfg.challengeOf(r.verifier) != code.challenge then (s, Refused(VerifierMismatch))
      else match ChainIssued(cfg, s, code, draw, now)
        case None => (s, Refused(ServerError))
        case Some(s') =>
          if !commits then (s, Refused(ServerError))
          else (s'.(codes := s.codes[digest := code.(usedAt := Some(now), chain := Some(draw.chain))]),
                Issued(draw.chain, ACCESS_PREFIX + draw.access, REFRESH_PREFIX + draw.refresh))
  }

  // LookupRefreshTx
  predicate FindsRefresh(cfg: Config, s: Store, plaintext: string) {
    HasPrefix(plaintext, REFRESH_PREFIX) && cfg.hash(plaintext) in s.tokens &&
    s.tokens[cfg.hash(plaintext)].kind == Refresh && s.tokens[cfg.hash(plaintext)].chain in s.chains
  }

  // handleTokenRefresh
  function Rotated(cfg: Config, s: Store, refresh: string, client: string, draw: Draw, now: int,
          commits: bool): (Store, Answer) {
    if refresh == "" || client == "" then (s, Refused(MissingParameter))
    else if !FindsRefresh(cfg, s, refresh) then (s, Refused(TokenNotFound))
    else
      var digest := cfg.hash(refresh);
      var token := s.tokens[digest];
      var chain := s.chains[token.chain];
      if chain.client != client then (s, Refused(ClientMismatch))
      else if token.usedAt.Some? || token.revokedAt.Some? || chain.revokedAt.Some? then
        (if commits then ChainRevoked(s, token.chain, now) else s, Refused(TokenReused))
      else if now >= token.expiresAt then (s, Refused(TokenExpired))
      else if !cfg.inWorkspace(chain.owner) then (s, Refused(OutsideWorkspace))
      else match PairInserted(cfg, s.(tokens := s.tokens[digest := token.(usedAt := Some(now))]), token.chain, draw, now)
        case None => (s, Refused(ServerError))
        case Some(s') =>
          if !commits then (s, Refused(ServerError))
          else (s', Issued(token.chain, ACCESS_PREFIX + draw.access, REFRESH_PREFIX + draw.refresh))
  }

  datatype Validity = BadPrefix | NotFound | Revoked | Expired | Valid(chain: string)

  // ValidateAccess
  function Validated(cfg: Config, s: Store, plaintext: string, now: int): Validity {
    var digest := cfg.hash(plaintext);
    if !HasPrefix(plaintext, ACCESS_PREFIX) then BadPrefix
    else if digest !in s.tokens || s.tokens[digest].kind != Access || s.tokens[digest].chain !in s.chains then NotFound
    else if s.tokens[digest].revokedAt.Some? || s.chains[s.tokens[digest].chain].revokedAt.Some? then Revoked
    else if now >= s.tokens[digest].expiresAt then Expired
    else Valid(s.tokens[digest].chain)
  }

  // handleRevoke: the chain that a presented token leads to.
  function RevokeTarget(cfg: Config, s: Store, token: string, now: int): Option<string> {
    if HasPrefix(token, ACCESS_PREFIX) then
      var v := Validated(cfg, s, token, now);
      if v.Valid? then Some(v.chain) else None
    else if HasPrefix(token, REFRESH_PREFIX) then
      if FindsRefresh(cfg, s, token) then Some(s.tokens[cfg.hash(token)].chain) else None
    else None
  }

  function TokenRevoked(cfg: Config, s: Store, token: string, now: int, commits: bool): Store {
    var target := RevokeTarget(cfg, s, token, now);
    if target.Some? && commits then ChainRevoked(s, target.value, now) else s
  }

  // RevokeChain, in a transaction of its own: a chain that a lookup found, whatever happened since.
  function FoundRevoked(s: Store, c: string, now: int, commits: bool): Store {
    if c in s.chains && commits then ChainRevoked(s, c, now) else s
  }

  // handleGrantRevoke: an owner drops one of their own live grants.
  function GrantRevoked(s: Store, c: string, owner: string, now: int, commits: bool): Store {
    if c in s.chains && s.chains[c].owner == owner && s.chains[c].revokedAt.None? && commits then ChainRevoked(s, c, now) else s
  }

  // ---- The server -----------------------------------------------------------

  class TokenServer {
    const cfg: Config
    var chains: map<string, Chain>
    var tokens: map<string, Token>
    var codes: map<string, Code>

    function State(): Store
      reads this
    {
      Store(chains, tokens, codes)
    }

    constructor (cfg: Config)
      ensures this.cfg == cfg && State() == EMPTY
    {
      this.cfg := cfg;
      chains, tokens, codes := map[], map[], map[];
    }

    method RevokeChainTx(c: string, now: int)
      modifies this
      ensures State() == ChainRevoked(old(State()), c, now)
    {
      if c in chains && chains[c].revokedAt.None? {
        chains := chains[c := chains[c].(revokedAt := Some(now))];
      }
      tokens := map d | d in tokens :: if tokens[d].chain == c && tokens[d].revokedAt.None? then tokens[d].(revokedAt := Some(now)) else tokens[d];
      assert chains == ChainRevoked(old(State()), c, now).chains;
      assert tokens == ChainRevoked(old(State()), c, now).tokens;
    }

    method InsertToken(c: string, kind: Kind, body: string, now: int) returns (ok: bool)
      modifies this`tokens
      ensures var after := TokenInserted(cfg, old(State()), c, kind, body, now);
              ok == after.Some? && State() == if ok then after.value else old(State())
    {
      var prefix, ttl := ACCESS_PREFIX, cfg.accessTTL;
      if kind == Refresh {
        prefix, ttl := REFRESH_PREFIX, cfg.refreshTTL;
      }
      var digest := cfg.hash(prefix + body);
      if digest in tokens || c !in chains {
        return false;
      }
      tokens := tokens[digest := Token(c, kind, now, now + ttl, None, None)];
      return true;
    }

    method InsertPair(c: string, draw: Draw, now: int) returns (ok: bool)
      modifies this`tokens
      ensures var after := PairInserted(cfg, old(State()), c, draw, now);
              ok == after.Some? && (ok ==> State() == after.value)
    {
      hide TokenInserted;
      ok := InsertToken(c, Access, draw.access, now);
      if ok {
        ok := InsertToken(c, Refresh, draw.refresh, now);
      }
    }

    method IssueCode(body: string, code: Code, now: int)
      modifies this`codes
      ensures State() == CodeIssued(cfg, old(State()), body, code, now)
    {
      var digest := cfg.hash(CODE_PREFIX + body);
      if digest !in codes {
        codes := codes[digest := code.(issuedAt := now, expiresAt := now + cfg.codeTTL, usedAt := None, chain := None)];
      }
    }

    method RedeemCode(r: CodeRequest, draw: Draw, now: int, commits: bool) returns (a: Answer)
      modifies this
      ensures (State(), a) == Redeemed(cfg, old(State()), r, draw, now, commits)
    {
      hide ChainRevoked, PairInserted;
      if r.code == "" || r.client == "" || r.redirect == "" || r.verifier == "" {
        return Refused(MissingParameter);
      }
      var digest := cfg.hash(r.code);
      if digest !in codes {
        return Refused(CodeNotFound);
      }
      var code := codes[digest];
      if code.usedAt.Some? {
        if code.chain.Some? && commits {
          RevokeChainTx(code.chain.value, now);
        }
        return Refused(CodeReused);
      }
      if now >= code.expiresAt {
        return Refused(CodeExpired);
      }
      if code.client != r.client {
        return Refused(ClientMismatch);
      }
      if code.redirect != r.redirect {
        return Refused(RedirectMismatch);
      }
      if r.resource != "" && r.resource != code.resource {
        return Refused(ResourceMismatch);
      }
      if cfg.challengeOf(r.verifier) != code.challenge {
        return Refused(VerifierMismatch);
      }
      var chains0, tokens0 := chains, tokens;
      if draw.chain in chains {
        return Refused(ServerError);
      }
      chains := chains[draw.chain := Chain(code.client, code.owner, code.ownerId, code.resource, now, None)];
      var ok := InsertPair(draw.chain, draw, now);
      if !ok || !commits {
        chains, tokens := chains0, tokens0;
        return Refused(ServerError);
      }
      codes := codes[digest := code.(usedAt := Some(now), chain := Some(draw.chain))];
      return Issued(draw.chain, ACCESS_PREFIX + draw.access, REFRESH_PREFIX + draw.refresh);
    }

    method RotateRefresh(refresh: string, client: string, draw: Draw, now: int, commits: bool) returns (a: Answer)
      modifies this
      ensures (State(), a) == Rotated(cfg, old(State()), refresh, client, draw, now, commits)
    {
      hide ChainRevoked, PairInserted, FindsRefresh;
      if refresh == "" || client == "" {
        return Refused(MissingParameter);
      }
      if !FindsRefresh(cfg, State(), refresh) {
        return Refused(TokenNotFound);
      }
      FoundRefresh(cfg, State(), refresh);
      var digest := cfg.hash(refresh);
      var token := tokens[digest];
      var chain := chains[token.chain];
      if chain.client != client {
        return Refused(ClientMismatch);
      }
      if token.usedAt.Some? || token.revokedAt.Some? || chain.revokedAt.Some? {
        if commits {
          RevokeChainTx(token.chain, now);
        }
        return Refused(TokenReused);
      }
      if now >= token.expiresAt {
        return Refused(TokenExpired);
      }
      if !cfg.inWorkspace(chain.owner) {
        return Refused(OutsideWorkspace);
      }
      var tokens0 := tokens;
      tokens := tokens[digest := token.(usedAt := Some(now))];
      var ok := InsertPair(token.chain, draw, now);
      if !ok || !commits {
        tokens := tokens0;
        return Refused(ServerError);
      }
      return Issued(token.chain, ACCESS_PREFIX + draw.access, REFRESH_PREFIX + draw.refresh);
    }

    method RevokeToken(token: string, now: int, commits: bool)
      modifies this
      ensures State() == TokenRevoked(cfg, old(State()), token, now, commits)
    {
      hide ChainRevoked;
      var target := RevokeTarget(cfg, State(), token, now);
      if target.Some? && commits {
        RevokeChainTx(target.value, now);
      }
    }

    method RevokeChain(c: string, now: int, commits: bool)
      modifies this
      ensures State() == FoundRevoked(old(State()), c, now, commits)
    {
      hide ChainRevoked;
      if c in chains && commits {
        RevokeChainTx(c, now);
      }
    }

    method RevokeGrant(c: string, owner: string, now: int, commits: bool)
      modifies this
      ensures State() == GrantRevoked(old(State()), c, owner, now, commits)
    {
      hide ChainRevoked;
      if c !in chains || chains[c].owner != owner || chains[c].revokedAt.Some? {
        return;
      }
      if commits {
        RevokeChainTx(c, now);
      }
    }
  }

  lemma FoundRefresh(cfg: Config, s: Store, plaintext: string)
    requires FindsRefresh(cfg, s, plaintext)
    ensures cfg.hash(plaintext) in s.tokens && s.tokens[cfg.hash(plaintext)].kind == Refresh && s.tokens[cfg.hash(plaintext)].chain in s.chains
  {
  }

  // ---- Runs -----------------------------------------------------------------

  // A revocation whose lookup came before other requests is the revocation of the chain it found.
  datatype Action =
    | DoIssue(body: string, code: Code, at: int)
    | DoRedeem(r: CodeRequest, draw: Draw, at: int, commits: bool)
    | DoRotate(refresh: string, client: string, draw: Draw, at: int, commits: bool)
    | DoRevoke(token: string, at: int, commits: bool)
    | DoRevokeFound(chain: string, at: int, commits: bool)
    | DoRevokeGrant(chain: string, owner: string, at: int, commits: bool)

  function Applied(cfg: Config, s: Store, a: Action): (Store, Option<Answer>) {
    match a
    case DoIssue(body, code, at) => (CodeIssued(cfg, s, body, code, at), None)
    case DoRedeem(r, draw, at, commits) => var (s', answer) := Redeemed(cfg, s, r, draw, at, commits); (s', Some(answer))
    case DoRotate(refresh, client, draw, at, commits) => var (s', answer) := Rotated(cfg, s, refresh, client, draw, at, commits); (s', Some(answer))
    case DoRevoke(token, at, commits) => (TokenRevoked(cfg, s, token, at, commits), None)
    case DoRevokeFound(c, at, commits) => (FoundRevoked(s, c, at, commits), None)
    case DoRevokeGrant(c, owner, at, commits) => (GrantRevoked(s, c, owner, at, commits), None)
  }

  function Run(cfg: Config, s: Store, actions: seq<Action>): Store
    decreases |actions|
  {
    if actions == [] then s else Applied(cfg, Run(cfg, s, actions[..|actions| - 1]), actions[|actions| - 1]).0
  }
}
