/** Grant families of the OAuth server: an authorization code, the token pair it is exchanged
    for, and every pair rotated from that one. The consume statements are atomic; the handlers
    built from them (internal/server/handlers_oauth.go) are not. A family is named by the hash
    of its code, which the rows here carry along; the program's tables do not store it. */
module OAuthGrants {
  import opened Options

  /** A SHA-256 hash is an opaque name; NO_HASH is the empty string a column may hold instead. */
  type Hash = int
  const NO_HASH: Hash := 0

  datatype Grant = Grant(client: string, user: string, ws: string, scope: string)

  datatype Code = Code(grant: Grant, redirect: string, challenge: string, expires: int)
  datatype Refresh = Refresh(grant: Grant, access: Hash, expires: int, family: Hash)
  datatype Token = Token(user: string, ws: string, revoked: bool, family: Hash)

  datatype Tables = Tables(codes: map<Hash, Code>, refresh: map<Hash, Refresh>, tokens: map<Hash, Token>)

  /** A code exchange as the client sent it. */
  datatype Redemption = Redemption(client: string, redirect: string, verifier: string, now: int)

  /** VerifyPKCE over an uninterpreted S256 transform. */
  predicate VerifyPkce(s256: string -> string, verifier: string, challenge: string) {
    verifier != "" && challenge != "" && s256(verifier) == challenge
  }

  /** Everything tokenFromAuthCode asks of a consumed code before it issues. */
  predicate Redeems(s256: string -> string, c: Code, r: Redemption) {
    && r.now <= c.expires
    && c.grant.client == r.client && c.redirect == r.redirect
    && VerifyPkce(s256, r.verifier, c.challenge)
  }

  // ---- The statements ------------------------------------------------------------

  function WithoutCode(t: Tables, h: Hash): Tables {
    t.(codes := t.codes - {h})
  }

  function WithoutRefresh(t: Tables, h: Hash): Tables {
    t.(refresh := t.refresh - {h})
  }

  function Revoked(tokens: map<Hash, Token>, h: Hash): map<Hash, Token> {
    if h in tokens && !tokens[h].revoked then tokens[h := tokens[h].(revoked := true)] else tokens
  }

  function WithTokenRevoked(t: Tables, h: Hash): Tables {
    t.(tokens := Revoked(t.tokens, h))
  }

  function WithToken(t: Tables, h: Hash, g: Grant, family: Hash): Tables {
    t.(tokens := t.tokens[h := Token(g.user, g.ws, false, family)])
  }

  function WithRefresh(t: Tables, h: Hash, r: Refresh): Tables {
    t.(refresh := t.refresh[h := r])
  }

  datatype Answer = InvalidRequest | InvalidGrant | ServerFailure | Issued(access: Hash, refresh: Hash)

  /** Which of a handler's database writes fail. */
  datatype Faults = Faults(revoke: bool, create: bool, store: bool)

  /** issueTokens on its own. */
  function IssuedTables(t: Tables, g: Grant, family: Hash, access: Hash, refresh: Hash, expires: int,
                        f: Faults): Tables {
    if f.create then t
    else
      var t1 := WithToken(t, access, g, family);
      if f.store then t1 else WithRefresh(t1, refresh, Refresh(g, access, expires, family))
  }

  function IssuedAnswer(access: Hash, refresh: Hash, f: Faults): Answer {
    if f.create || f.store then ServerFailure else Issued(access, refresh)
  }

  /** What an exchange leaves and answers. A request without code, client or verifier changes
      nothing; any other spends the code, and is paid only if it redeems it in every respect. */
  function AfterExchange(s256: string -> string, t: Tables, code: Option<Hash>, r: Redemption,
                         access: Hash, renewal: Hash, expires: int, f: Faults): (Tables, Answer) {
    if code.None? || r.client == "" || r.verifier == "" then (t, InvalidRequest)
    else
      var c, spent := code.value, WithoutCode(t, code.value);
      if c in t.codes && Redeems(s256, t.codes[c], r) then
        (IssuedTables(spent, t.codes[c].grant, c, access, renewal, expires, f), IssuedAnswer(access, renewal, f))
      else (spent, InvalidGrant)
  }

  /** What a rotation leaves and answers: the presented token is spent, its access token revoked
      unless that write fails, and a pair with the same grant issued. */
  function AfterRotation(t: Tables, token: Option<Hash>, client: string, now: int,
                         access: Hash, renewal: Hash, expires: int, f: Faults): (Tables, Answer) {
    if token.None? then (t, InvalidRequest)
    else
      var h, spent := token.value, WithoutRefresh(t, token.value);
      if h in t.refresh && now <= t.refresh[h].expires && (client == "" || client == t.refresh[h].grant.client) then
        var row := t.refresh[h];
        var superseded := if row.access == NO_HASH || f.revoke then spent else WithTokenRevoked(spent, row.access);
        (IssuedTables(superseded, row.grant, row.family, access, renewal, expires, f), IssuedAnswer(access, renewal, f))
      else (spent, InvalidGrant)
  }

  /** The three tables and the handlers that run on them. */
  class TokenEndpoint {
    var codes: map<Hash, Code>
    var refresh: map<Hash, Refresh>
    var tokens: map<Hash, Token>

    constructor ()
      ensures View() == Tables(map[], map[], map[])
    {
      codes, refresh, tokens := map[], map[], map[];
    }

    function View(): Tables
      reads this
    {
      Tables(codes, refresh, tokens)
    }

    method PutAuthCode(h: Hash, c: Code)
      modifies this
      ensures View() == old(View()).(codes := old(codes)[h := c])
    {
      codes := codes[h := c];
    }

    /** DELETE ... RETURNING: the row goes even when it turns out to be expired. */
    method ConsumeAuthCode(h: Hash, now: int) returns (c: Option<Code>)
      modifies this
      ensures View() == WithoutCode(old(View()), h)
      ensures c == if h in old(codes) && now <= old(codes)[h].expires then Some(old(codes)[h]) else None
    {
      if h !in codes {
        assert codes - {h} == codes;
        return None;
      }
      var row := codes[h];
      codes := codes - {h};
      c := if now > row.expires then None else Some(row);
    }

    method PutRefreshToken(h: Hash, r: Refresh)
      modifies this
      ensures View() == WithRefresh(old(View()), h, r)
    {
      refresh := refresh[h := r];
    }

    method ConsumeRefreshToken(h: Hash, now: int) returns (r: Option<Refresh>)
      modifies this
      ensures View() == WithoutRefresh(old(View()), h)
      ensures r == if h in old(refresh) && now <= old(refresh)[h].expires then Some(old(refresh)[h]) else None
    {
      if h !in refresh {
        assert refresh - {h} == refresh;
        return None;
      }
      var row := refresh[h];
      refresh := refresh - {h};
      r := if now > row.expires then None else Some(row);
    }

    method RevokeRefreshTokenByHash(h: Hash)
      modifies this
      ensures View() == WithoutRefresh(old(View()), h)
    {
      refresh := refresh - {h};
    }

    method RevokeTokenByHash(h: Hash)
      modifies this
      ensures View() == WithTokenRevoked(old(View()), h)
    {
      if h in tokens && !tokens[h].revoked {
        tokens := tokens[h := tokens[h].(revoked := true)];
      }
    }

    method CreateToken(h: Hash, g: Grant, family: Hash)
      modifies this
      ensures View() == WithToken(old(View()), h, g, family)
    {
      tokens := tokens[h := Token(g.user, g.ws, false, family)];
    }

    method IssueTokens(g: Grant, family: Hash, access: Hash, renewal: Hash, expires: int, f: Faults) returns (a: Answer)
      modifies this
      ensures View() == IssuedTables(old(View()), g, family, access, renewal, expires, f)
      ensures a == IssuedAnswer(access, renewal, f)
    {
      if f.create {
        return ServerFailure;
      }
      CreateToken(access, g, family);
      if f.store {
        return ServerFailure;
      }
      PutRefreshToken(renewal, Refresh(g, access, expires, family));
      a := Issued(access, renewal);
    }

    /** tokenFromAuthCode with no other request in between. */
    method TokenFromAuthCode(s256: string -> string, code: Option<Hash>, r: Redemption,
                             access: Hash, renewal: Hash, expires: int, f: Faults) returns (a: Answer)
      modifies this
      ensures (View(), a) == AfterExchange(s256, old(View()), code, r, access, renewal, expires, f)
    {
      if code.None? || r.client == "" || r.verifier == "" {
        return InvalidRequest;
      }
      var found := ConsumeAuthCode(code.value, r.now);
      if found.None? {
        return InvalidGrant;
      }
      var c := found.value;
      if c.grant.client != r.client || c.redirect != r.redirect {
        return InvalidGrant;
      }
      if !VerifyPkce(s256, r.verifier, c.challenge) {
        return InvalidGrant;
      }
      a := IssueTokens(c.grant.(client := r.client), code.value, access, renewal, expires, f);
    }

    /** tokenFromRefresh with no other request in between. */
    method TokenFromRefresh(token: Option<Hash>, client: string, now: int,
                            access: Hash, renewal: Hash, expires: int, f: Faults) returns (a: Answer)
      modifies this
      ensures (View(), a) == AfterRotation(old(View()), token, client, now, access, renewal, expires, f)
    {
      if token.None? {
        return InvalidRequest;
      }
      var found := ConsumeRefreshToken(token.value, now);
      if found.None? {
        return InvalidGrant;
      }
      var g := found.value;
      if client != "" && client != g.grant.client {
        return InvalidGrant;
      }
      if g.access != NO_HASH {
        if !f.revoke {
          RevokeTokenByHash(g.access);
        }
      }
      a := IssueTokens(g.grant, g.family, access, renewal, expires, f);
    }

    /** handleOAuthRevoke tries the hash as both kinds of token; without one it does nothing. */
    method HandleOAuthRevoke(token: Option<Hash>)
      modifies this
      ensures token.None? ==> View() == old(View())
      ensures token.Some? ==> View() == WithoutRefresh(WithTokenRevoked(old(View()), token.value), token.value)
    {
      if token.Some? {
        RevokeTokenByHash(token.value);
        RevokeRefreshTokenByHash(token.value);
      }
    }
  }

  // ---- Interleaved handlers ----------------------------------------------------------

  /** A token request that has consumed its credential, between two of its statements. */
  datatype Handler =
    | Superseding(family: Hash, grant: Grant, access: Hash)
    | Minting(family: Hash, grant: Grant)
    | Pairing(family: Hash, grant: Grant, access: Hash)
    | Finished

  /** The tables, the handlers in flight, and what the properties speak about: every hash
      generated so far, every code issued, how it was redeemed, and per family how many
      revocations of a superseded access token have failed. */
  datatype State = State(
    codes: map<Hash, Code>,
    refresh: map<Hash, Refresh>,
    tokens: map<Hash, Token>,
    handlers: map<nat, Handler>,
    used: set<Hash>,
    issued: map<Hash, Code>,
    redeemed: map<Hash, Redemption>,
    failed: map<Hash, nat>)

  const INITIAL := State(map[], map[], map[], map[], {NO_HASH}, map[], map[], map[])

  datatype Step =
    | Authorize(code: Hash, row: Code)
    | Exchange(n: nat, code: Hash, r: Redemption)
    | Rotate(n: nat, token: Hash, client: string, now: int)
    | Supersede(n: nat, fails: bool)
    | Mint(n: nat, access: Hash, fails: bool)
    | Pair(n: nat, renewal: Hash, expires: int, fails: bool)
    | RevokeAccess(h: Hash)
    | RevokeRefresh(h: Hash)
    | DropTokens(hs: set<Hash>)

  function Failed(s: State, f: Hash): nat {
    if f in s.failed then s.failed[f] else 0
  }

  function Authorized(s: State, code: Hash, row: Code): State {
    if code in s.used then s
    else s.(codes := s.codes[code := row], used := s.used + {code}, issued := s.issued[code := row])
  }

  /** ConsumeAuthCode, and the checks on what it returned. */
  function Exchanged(s256: string -> string, s: State, n: nat, code: Hash, r: Redemption): State {
    if n in s.handlers || r.client == "" || r.verifier == "" then s
    else if code in s.codes && Redeems(s256, s.codes[code], r) then
      s.(codes := s.codes - {code},
         redeemed := s.redeemed[code := r],
         handlers := s.handlers[n := Minting(code, s.codes[code].grant.(client := r.client))])
    else s.(codes := s.codes - {code}, handlers := s.handlers[n := Finished])
  }

  /** ConsumeRefreshToken, and the checks on what it returned. */
  function Rotated(s: State, n: nat, token: Hash, client: string, now: int): State {
    if n in s.handlers then s
    else s.(refresh := s.refresh - {token}, handlers := s.handlers[n := Rotating(s.refresh, token, client, now)])
  }

  /** RevokeTokenByHash on the superseded access token; a failure is logged and ignored. */
  function Superseded(s: State, n: nat, fails: bool): State {
    if n !in s.handlers || !s.handlers[n].Superseding? then s
    else
      var h := s.handlers[n];
      s.(tokens := if fails then s.tokens else Revoked(s.tokens, h.access),
         failed := if fails then s.failed[h.family := Failed(s, h.family) + 1] else s.failed,
         handlers := s.handlers[n := Minting(h.family, h.grant)])
  }

  /** CreateToken; a failure ends the request. */
  function Minted(s: State, n: nat, access: Hash, fails: bool): State {
    if n !in s.handlers || !s.handlers[n].Minting? || access in s.used then s
    else if fails then s.(handlers := s.handlers[n := Finished])
    else
      var h := s.handlers[n];
      s.(tokens := s.tokens[access := Token(h.grant.user, h.grant.ws, false, h.family)],
         used := s.used + {access},
         handlers := s.handlers[n := Pairing(h.family, h.grant, access)])
  }

  /** PutRefreshToken; a failure ends the request. */
  function Stored(s: State, n: nat, renewal: Hash, expires: int, fails: bool): State {
    if n !in s.handlers || !s.handlers[n].Pairing? || renewal in s.used then s
    else if fails then s.(handlers := s.handlers[n := Finished])
    else
      var h := s.handlers[n];
      s.(refresh := s.refresh[renewal := Refresh(h.grant, h.access, expires, h.family)],
         used := s.used + {renewal},
         handlers := s.handlers[n := Finished])
  }

  /** One statement of one handler, or of the revocation endpoint, or tokens dropped by other
      code. Generated hashes are fresh. A step that is not enabled changes nothing. */
  function Next(s256: string -> string, s: State, step: Step): State {
    match step
    case Authorize(code, row) => Authorized(s, code, row)
    case Exchange(n, code, r) => Exchanged(s256, s, n, code, r)
    case Rotate(n, token, client, now) => Rotated(s, n, token, client, now)
    case Supersede(n, fails) => Superseded(s, n, fails)
    case Mint(n, access, fails) => Minted(s, n, access, fails)
    case Pair(n, renewal, expires, fails) => Stored(s, n, renewal, expires, fails)
    case RevokeAccess(h) => s.(tokens := Revoked(s.tokens, h))
    case RevokeRefresh(h) => s.(refresh := s.refresh - {h})
    case DropTokens(hs) => s.(tokens := s.tokens - hs)
  }

  /** What a rotation that presented `token` does next. */
  function Rotating(refresh: map<Hash, Refresh>, token: Hash, client: string, now: int): Handler {
    if token !in refresh then Finished
    else
      var g := refresh[token];
      if now > g.expires || (client != "" && client != g.grant.client) then Finished
      else if g.access != NO_HASH then Superseding(g.family, g.grant, g.access)
      else Minting(g.family, g.grant)
  }

  function Run(s256: string -> string, s: State, steps: seq<Step>): State {
    if steps == [] then s else Next(s256, Run(s256, s, steps[..|steps| - 1]), steps[|steps| - 1])
  }
}
