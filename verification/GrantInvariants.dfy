/** What every reachable state of the token endpoint satisfies, step by step: where a family's
    right to more tokens is, whose grant it carries, and which of its tokens are unrevoked. */
module GrantInvariants {
  import opened OAuthGrants

  // ---- What every reachable state satisfies --------------------------------------------

  /** Where a family's right to more tokens can be: in its unspent code, in a stored refresh
      token, or with a handler that has consumed one of those and not finished. */
  datatype Slot = InCode | InRow(h: Hash) | InFlight(n: nat)

  predicate Holds(s: State, f: Hash, slot: Slot) {
    match slot
    case InCode => f in s.codes
    case InRow(h) => h in s.refresh && s.refresh[h].family == f
    case InFlight(n) => n in s.handlers && !s.handlers[n].Finished? && s.handlers[n].family == f
  }

  function GrantAt(s: State, f: Hash, slot: Slot): Grant
    requires Holds(s, f, slot)
  {
    match slot
    case InCode => s.codes[f].grant
    case InRow(h) => s.refresh[h].grant
    case InFlight(n) => s.handlers[n].grant
  }

  /** The access token a slot accounts for. */
  function Paired(s: State, f: Hash, slot: Slot): (r: set<Hash>)
    requires Holds(s, f, slot)
    ensures |r| <= 1
  {
    match slot
    case InCode => {}
    case InRow(h) => {s.refresh[h].access}
    case InFlight(n) => if s.handlers[n].Minting? then {} else {s.handlers[n].access}
  }

  ghost predicate OneSlot(s: State) {
    forall f, a, b :: Holds(s, f, a) && Holds(s, f, b) ==> a == b
  }

  ghost predicate TablesRooted(s: State) {
    && NO_HASH in s.used
    && (forall f :: f in s.issued ==> f in s.used)
    && (forall f :: f in s.codes ==> f in s.issued && s.codes[f] == s.issued[f])
    && (forall h :: h in s.refresh ==> h in s.used && s.refresh[h].access in s.used - {NO_HASH})
    && (forall h :: h in s.tokens ==> h in s.used)
  }

  ghost predicate HandlersRooted(s: State) {
    forall n :: n in s.handlers && (s.handlers[n].Superseding? || s.handlers[n].Pairing?) ==>
      s.handlers[n].access in s.used - {NO_HASH}
  }

  /** Whatever the tables and handlers mention has been generated. */
  ghost predicate Rooted(s: State) {
    TablesRooted(s) && HandlersRooted(s)
  }

  predicate TokenHasGrant(s: State, h: Hash)
    requires h in s.tokens
  {
    var t := s.tokens[h];
    t.family in s.issued && t.user == s.issued[t.family].grant.user && t.ws == s.issued[t.family].grant.ws
  }

  /** Every place a family reaches carries the grant of its code. */
  ghost predicate SameGrant(s: State) {
    && (forall f, slot :: Holds(s, f, slot) ==> f in s.issued && GrantAt(s, f, slot) == s.issued[f].grant)
    && (forall h :: h in s.tokens ==> TokenHasGrant(s, h))
  }

  /** Nothing beyond the code exists in a family whose code was not properly redeemed, and a
      redeemed code is gone. */
  ghost predicate ProperlyRedeemed(s256: string -> string, s: State) {
    && (forall f :: f in s.redeemed ==> f in s.issued && Redeems(s256, s.issued[f], s.redeemed[f]) && f !in s.codes)
    && (forall f, slot :: Holds(s, f, slot) && slot != InCode ==> f in s.redeemed)
    && (forall h :: h in s.tokens ==> s.tokens[h].family in s.redeemed)
  }

  function Unrevoked(s: State, f: Hash): set<Hash> {
    set h | h in s.tokens && !s.tokens[h].revoked && s.tokens[h].family == f
  }

  /** Apart from the token its slot accounts for, a family has at most one unrevoked access
      token for each revocation that failed. */
  ghost predicate FewUnrevoked(s: State, f: Hash) {
    && |Unrevoked(s, f)| <= 1 + Failed(s, f)
    && (forall slot :: Holds(s, f, slot) ==> |Unrevoked(s, f) - Paired(s, f, slot)| <= Failed(s, f))
  }

  ghost predicate Inv(s256: string -> string, s: State) {
    && Rooted(s) && OneSlot(s) && SameGrant(s) && ProperlyRedeemed(s256, s)
    && (forall f :: FewUnrevoked(s, f))
  }

  // ---- One step at a time ----------------------------------------------------------------

  predicate Born(s: State, step: Step, f: Hash) {
    step.Authorize? && step.code == f && f !in s.used
  }

  /** The slot a slot of the next state was in before the step. */
  function Before(s: State, step: Step, slot: Slot): Slot {
    match step
    case Exchange(n, _, _) => if slot == InFlight(n) && n !in s.handlers then InCode else slot
    case Rotate(n, token, _, _) => if slot == InFlight(n) && n !in s.handlers then InRow(token) else slot
    case Pair(n, renewal, _, _) => if slot == InRow(renewal) && renewal !in s.used then InFlight(n) else slot
    case _ => slot
  }

  lemma CodeComesFrom(s256: string -> string, s: State, step: Step, f: Hash)
    requires f in Next(s256, s, step).codes && !Born(s, step, f)
    ensures f in s.codes && Next(s256, s, step).codes[f] == s.codes[f]
  {
  }

  predicate Arrives(s: State, step: Step, n: nat) {
    (step.Exchange? || step.Rotate?) && step.n == n && n !in s.handlers
  }

  predicate Moves(s: State, step: Step, n: nat) {
    (step.Supersede? || step.Mint? || step.Pair?) && step.n == n && n in s.handlers
  }

  lemma ConsumingMovesOne(s256: string -> string, s: State, step: Step, n: nat)
    requires (step.Exchange? || step.Rotate?) && n in Next(s256, s, step).handlers && !Arrives(s, step, n)
    ensures n in s.handlers && Next(s256, s, step).handlers[n] == s.handlers[n]
  {
  }

  lemma SupersededMovesOne(s: State, m: nat, fails: bool, n: nat)
    requires n in Superseded(s, m, fails).handlers && !(m == n && n in s.handlers)
    ensures n in s.handlers && Superseded(s, m, fails).handlers[n] == s.handlers[n]
  {
  }

  lemma MintedMovesOne(s: State, m: nat, access: Hash, fails: bool, n: nat)
    requires n in Minted(s, m, access, fails).handlers && !(m == n && n in s.handlers)
    ensures n in s.handlers && Minted(s, m, access, fails).handlers[n] == s.handlers[n]
  {
  }

  lemma IssuingMovesOne(s256: string -> string, s: State, step: Step, n: nat)
    requires (step.Supersede? || step.Mint? || step.Pair?) && n in Next(s256, s, step).handlers && !Moves(s, step, n)
    ensures n in s.handlers && Next(s256, s, step).handlers[n] == s.handlers[n]
  {
    if step.Supersede? {
      SupersededMovesOne(s, step.n, step.fails, n);
    } else if step.Mint? {
      MintedMovesOne(s, step.n, step.access, step.fails, n);
    }
  }

  /** Only the handler a step names moves. */
  lemma HandlersComeFrom(s256: string -> string, s: State, step: Step, n: nat)
    requires n in Next(s256, s, step).handlers
    ensures Arrives(s, step, n) || Moves(s, step, n) || (n in s.handlers
        && Next(s256, s, step).handlers[n] == s.handlers[n])
  {
    if Arrives(s, step, n) || Moves(s, step, n) {
    } else if step.Exchange? || step.Rotate? {
      ConsumingMovesOne(s256, s, step, n);
    } else if step.Supersede? || step.Mint? || step.Pair? {
      IssuingMovesOne(s256, s, step, n);
    }
  }

  lemma StoredRow(s256: string -> string, s: State, step: Step, h: Hash)
    requires Rooted(s) && step.Pair? && h in Next(s256, s, step).refresh
    ensures var row := Next(s256, s, step).refresh[h];
            if h in s.refresh then row == s.refresh[h] && Before(s, step, InRow(h)) == InRow(h)
            else
              && h == step.renewal && step.n in s.handlers
              && s.handlers[step.n] == Pairing(row.family, row.grant, row.access)
              && h in Next(s256, s, step).used
              && Before(s, step, InRow(h)) == InFlight(step.n)
  {
  }

  /** A refresh token is there already or is being stored by a handler of its family. */
  lemma RowComesFrom(s256: string -> string, s: State, step: Step, h: Hash)
    requires Rooted(s) && h in Next(s256, s, step).refresh
    ensures var row := Next(s256, s, step).refresh[h];
            if h in s.refresh then row == s.refresh[h] && Before(s, step, InRow(h)) == InRow(h)
            else
              && step.Pair? && h == step.renewal && step.n in s.handlers
              && s.handlers[step.n] == Pairing(row.family, row.grant, row.access)
              && h in Next(s256, s, step).used
              && Before(s, step, InRow(h)) == InFlight(step.n)
  {
    if step.Pair? {
      StoredRow(s256, s, step, h);
    }
  }

  lemma ArrivalComesFrom(s256: string -> string, s: State, step: Step)
    requires (step.Exchange? || step.Rotate?) && Arrives(s, step, step.n)
    requires step.n in Next(s256, s, step).handlers && !Next(s256, s, step).handlers[step.n].Finished?
    ensures var h := Next(s256, s, step).handlers[step.n];
            var from := Before(s, step, InFlight(step.n));
            Holds(s, h.family, from) && GrantAt(s, h.family, from) == h.grant
  {
  }

  lemma SupersededComesFrom(s: State, n: nat, fails: bool)
    requires n in s.handlers && !Superseded(s, n, fails).handlers[n].Finished?
    ensures var h := Superseded(s, n, fails).handlers[n];
            Holds(s, h.family, InFlight(n)) && s.handlers[n].grant == h.grant
  {
  }

  lemma MintedComesFrom(s: State, n: nat, access: Hash, fails: bool)
    requires n in s.handlers && !Minted(s, n, access, fails).handlers[n].Finished?
    ensures var h := Minted(s, n, access, fails).handlers[n];
            Holds(s, h.family, InFlight(n)) && s.handlers[n].grant == h.grant
  {
  }

  lemma StoredComesFrom(s: State, n: nat, renewal: Hash, expires: int, fails: bool)
    requires n in s.handlers && !Stored(s, n, renewal, expires, fails).handlers[n].Finished?
    ensures var h := Stored(s, n, renewal, expires, fails).handlers[n];
            Holds(s, h.family, InFlight(n)) && s.handlers[n].grant == h.grant
  {
  }

  lemma MoveComesFrom(s256: string -> string, s: State, step: Step)
    requires (step.Supersede? || step.Mint? || step.Pair?) && Moves(s, step, step.n)
    requires !Next(s256, s, step).handlers[step.n].Finished?
    ensures var h := Next(s256, s, step).handlers[step.n];
            Holds(s, h.family, InFlight(step.n)) && s.handlers[step.n].grant == h.grant
  {
    if step.Supersede? {
      SupersededComesFrom(s, step.n, step.fails);
    } else if step.Mint? {
      MintedComesFrom(s, step.n, step.access, step.fails);
    } else {
      StoredComesFrom(s, step.n, step.renewal, step.expires, step.fails);
    }
  }

  lemma FlightComesFrom(s256: string -> string, s: State, step: Step, n: nat)
    requires n in Next(s256, s, step).handlers && !Next(s256, s, step).handlers[n].Finished?
    ensures var h := Next(s256, s, step).handlers[n];
            var from := Before(s, step, InFlight(n));
            Holds(s, h.family, from) && GrantAt(s, h.family, from) == h.grant
  {
    HandlersComeFrom(s256, s, step, n);
    if Arrives(s, step, n) {
      ArrivalComesFrom(s256, s, step);
    } else if Moves(s, step, n) {
      MoveComesFrom(s256, s, step);
    }
  }

  /** A family gains no slot except at birth: what it holds afterwards it held before, with
      the same grant. */
  lemma SlotComesFrom(s256: string -> string, s: State, step: Step, f: Hash, slot: Slot)
    requires Rooted(s) && Holds(Next(s256, s, step), f, slot) && !Born(s, step, f)
    ensures Holds(s, f, Before(s, step, slot))
    ensures GrantAt(Next(s256, s, step), f, slot) == GrantAt(s, f, Before(s, step, slot))
  {
    match slot
    case InCode => CodeComesFrom(s256, s, step, f);
    case InRow(h) => RowComesFrom(s256, s, step, h);
    case InFlight(n) => FlightComesFrom(s256, s, step, n);
  }

  lemma MintedToken(s256: string -> string, s: State, step: Step, h: Hash)
    requires Rooted(s) && step.Mint? && h in Next(s256, s, step).tokens
    ensures var t := Next(s256, s, step).tokens[h];
            if h in s.tokens then t == s.tokens[h]
            else
              && h == step.access && step.n in s.handlers && s.handlers[step.n].Minting?
              && h in Next(s256, s, step).used
              && (var m := s.handlers[step.n]; t == Token(m.grant.user, m.grant.ws, false, m.family))
  {
  }

  lemma KeptToken(s256: string -> string, s: State, step: Step, h: Hash)
    requires !step.Mint? && h in Next(s256, s, step).tokens
    ensures h in s.tokens
    ensures var t := Next(s256, s, step).tokens[h]; t == s.tokens[h] || t == s.tokens[h].(revoked := true)
  {
  }

  /** An access token is there already, and at most gets revoked, or it is being minted by a
      handler of its family. */
  lemma TokenComesFrom(s256: string -> string, s: State, step: Step, h: Hash)
    requires Rooted(s) && h in Next(s256, s, step).tokens
    ensures var t := Next(s256, s, step).tokens[h];
            if h in s.tokens
            then t == s.tokens[h] || t == s.tokens[h].(revoked := true)
            else
              && step.Mint? && h == step.access && step.n in s.handlers && s.handlers[step.n].Minting?
              && h in Next(s256, s, step).used
              && (var m := s.handlers[step.n]; t == Token(m.grant.user, m.grant.ws, false, m.family))
  {
    if step.Mint? {
      MintedToken(s256, s, step, h);
    } else {
      KeptToken(s256, s, step, h);
    }
  }

  /** Issued codes stay on record. */
  lemma RecordsGrow(s256: string -> string, s: State, step: Step)
    ensures var t := Next(s256, s, step);
            && s.used <= t.used
            && (forall f :: f in s.issued && f in s.used ==> f in t.issued && t.issued[f] == s.issued[f])
            && (forall f :: f in t.issued && f !in s.issued ==> f in t.used)
  {
    match step
    case Authorize(_, _) =>
    case Exchange(_, _, _) =>
    case Rotate(_, _, _, _) =>
    case Supersede(_, _) =>
    case Mint(_, _, _) =>
    case Pair(_, _, _, _) =>
    case RevokeAccess(_) =>
    case RevokeRefresh(_) =>
    case DropTokens(_) =>
  }

  /** A redemption is recorded only for a code that meets it, and spends the code. */
  lemma RedemptionsGrow(s256: string -> string, s: State, step: Step)
    ensures var t := Next(s256, s, step);
            && s.redeemed.Keys <= t.redeemed.Keys
            && (forall f :: f in t.redeemed && (f !in s.redeemed || t.redeemed[f] != s.redeemed[f]) ==>
                  f in s.codes && Redeems(s256, s.codes[f], t.redeemed[f]) && f !in t.codes)
  {
    if step.Exchange? {
      ExchangeRecordsRedemption(s256, s, step);
    }
  }

  lemma ExchangeRecordsRedemption(s256: string -> string, s: State, step: Step)
    requires step.Exchange?
    ensures var t := Next(s256, s, step);
            t.redeemed == s.redeemed
            || (t.redeemed == s.redeemed[step.code := step.r] && step.code in s.codes
                && Redeems(s256, s.codes[step.code], step.r) && step.code !in t.codes)
  {
  }

  lemma BeforeIsInjective(s256: string -> string, s: State, step: Step, f: Hash, a: Slot, b: Slot)
    requires Rooted(s) && OneSlot(s) && !Born(s, step, f)
    requires Holds(Next(s256, s, step), f, a) && Holds(Next(s256, s, step), f, b)
    requires Before(s, step, a) == Before(s, step, b)
    ensures a == b
  {
    match step
    case Authorize(_, _) =>
    case Exchange(_, _, _) =>
    case Rotate(_, _, _, _) =>
    case Supersede(_, _) =>
    case Mint(_, _, _) =>
    case Pair(_, _, _, _) =>
    case RevokeAccess(_) =>
    case RevokeRefresh(_) =>
    case DropTokens(_) =>
  }

  lemma NewbornHasOnlyItsCode(s256: string -> string, s: State, step: Step, f: Hash, slot: Slot)
    requires Rooted(s) && SameGrant(s) && Born(s, step, f) && Holds(Next(s256, s, step), f, slot)
    ensures slot == InCode
  {
    assert slot != InCode ==> Holds(s, f, slot);
  }

  lemma StepKeepsOneSlot(s256: string -> string, s: State, step: Step)
    requires Rooted(s) && OneSlot(s) && SameGrant(s)
    ensures OneSlot(Next(s256, s, step))
  {
    var t := Next(s256, s, step);
    forall f, a, b | Holds(t, f, a) && Holds(t, f, b)
      ensures a == b
    {
      if Born(s, step, f) {
        NewbornHasOnlyItsCode(s256, s, step, f, a);
        NewbornHasOnlyItsCode(s256, s, step, f, b);
      } else {
        SlotComesFrom(s256, s, step, f, a);
        SlotComesFrom(s256, s, step, f, b);
        BeforeIsInjective(s256, s, step, f, a, b);
      }
    }
  }

  lemma StepKeepsTablesRooted(s256: string -> string, s: State, step: Step)
    requires Rooted(s)
    ensures TablesRooted(Next(s256, s, step))
  {
    var t := Next(s256, s, step);
    RecordsGrow(s256, s, step);
    forall f | f in t.codes
      ensures f in t.issued && t.codes[f] == t.issued[f]
    {
      if !Born(s, step, f) {
        CodeComesFrom(s256, s, step, f);
      }
    }
    forall h | h in t.refresh
      ensures h in t.used && t.refresh[h].access in t.used - {NO_HASH}
    {
      RowComesFrom(s256, s, step, h);
    }
    forall h | h in t.tokens
      ensures h in t.used
    {
      TokenComesFrom(s256, s, step, h);
    }
  }

  lemma StepKeepsHandlersRooted(s256: string -> string, s: State, step: Step)
    requires Rooted(s)
    ensures HandlersRooted(Next(s256, s, step))
  {
    var t := Next(s256, s, step);
    RecordsGrow(s256, s, step);
    forall n | n in t.handlers && (t.handlers[n].Superseding? || t.handlers[n].Pairing?)
      ensures t.handlers[n].access in t.used - {NO_HASH}
    {
      HandlersComeFrom(s256, s, step, n);
      if Arrives(s, step, n) {
        ArrivalAccessIsUsed(s256, s, step);
      } else if Moves(s, step, n) {
        MoveAccessIsUsed(s256, s, step);
      }
    }
  }

  lemma ArrivalAccessIsUsed(s256: string -> string, s: State, step: Step)
    requires Rooted(s) && (step.Exchange? || step.Rotate?) && Arrives(s, step, step.n)
    requires var t := Next(s256, s, step);
             step.n in t.handlers && (t.handlers[step.n].Superseding? || t.handlers[step.n].Pairing?)
    ensures Next(s256, s, step).handlers[step.n].access in s.used - {NO_HASH}
  {
  }

  lemma OnlyMintingIssues(s256: string -> string, s: State, step: Step)
    requires (step.Supersede? || step.Pair?) && Moves(s, step, step.n)
    requires var h := Next(s256, s, step).handlers[step.n]; h.Superseding? || h.Pairing?
    ensures Next(s256, s, step) == s
  {
  }

  lemma MoveAccessIsUsed(s256: string -> string, s: State, step: Step)
    requires Rooted(s) && (step.Supersede? || step.Mint? || step.Pair?) && Moves(s, step, step.n)
    requires var h := Next(s256, s, step).handlers[step.n]; h.Superseding? || h.Pairing?
    ensures Next(s256, s, step).handlers[step.n].access in Next(s256, s, step).used - {NO_HASH}
  {
    if step.Mint? {
      MintedAccessIsUsed(s, step.n, step.access, step.fails);
    } else {
      OnlyMintingIssues(s256, s, step);
    }
  }

  lemma MintedAccessIsUsed(s: State, n: nat, access: Hash, fails: bool)
    requires Rooted(s) && n in s.handlers
    requires var h := Minted(s, n, access, fails).handlers[n]; h.Superseding? || h.Pairing?
    ensures Minted(s, n, access, fails).handlers[n].access in Minted(s, n, access, fails).used - {NO_HASH}
  {
  }

  lemma StepKeepsSameGrant(s256: string -> string, s: State, step: Step)
    requires Rooted(s) && SameGrant(s)
    ensures SameGrant(Next(s256, s, step))
  {
    var t := Next(s256, s, step);
    RecordsGrow(s256, s, step);
    forall f, slot | Holds(t, f, slot)
      ensures f in t.issued && GrantAt(t, f, slot) == t.issued[f].grant
    {
      if Born(s, step, f) {
        NewbornHasOnlyItsCode(s256, s, step, f, slot);
      } else {
        SlotComesFrom(s256, s, step, f, slot);
      }
    }
    forall h | h in t.tokens
      ensures TokenHasGrant(t, h)
    {
      TokenComesFrom(s256, s, step, h);
      if h !in s.tokens {
        assert Holds(s, s.handlers[step.n].family, InFlight(step.n));
      }
    }
  }

  lemma StepKeepsRedeemed(s256: string -> string, s: State, step: Step)
    requires Rooted(s) && SameGrant(s) && ProperlyRedeemed(s256, s)
    ensures ProperlyRedeemed(s256, Next(s256, s, step))
  {
    var t := Next(s256, s, step);
    RecordsGrow(s256, s, step);
    RedemptionsGrow(s256, s, step);
    forall f | f in t.redeemed
      ensures f in t.issued && Redeems(s256, t.issued[f], t.redeemed[f]) && f !in t.codes
    {
      if f in t.codes && !Born(s, step, f) {
        CodeComesFrom(s256, s, step, f);
      }
    }
    forall f, slot | Holds(t, f, slot) && slot != InCode
      ensures f in t.redeemed
    {
      if Born(s, step, f) {
        NewbornHasOnlyItsCode(s256, s, step, f, slot);
      } else {
        SlotComesFrom(s256, s, step, f, slot);
        if Before(s, step, slot) == InCode {
          ExchangedIsRedeemed(s256, s, step, f);
        }
      }
    }
    forall h | h in t.tokens
      ensures t.tokens[h].family in t.redeemed
    {
      TokenComesFrom(s256, s, step, h);
      if h !in s.tokens {
        assert Holds(s, s.handlers[step.n].family, InFlight(step.n));
      }
    }
  }

  lemma ExchangedIsRedeemed(s256: string -> string, s: State, step: Step, f: Hash)
    requires step.Exchange? && step.n !in s.handlers && Holds(Next(s256, s, step), f, InFlight(step.n))
    ensures f in Next(s256, s, step).redeemed
  {
  }

  // ---- How many access tokens stay unrevoked ------------------------------------------------

  lemma SubsetSize(a: set<Hash>, b: set<Hash>, x: set<Hash> := {})
    requires a <= b + x && |x| <= 1
    ensures |a| <= |b| + |x|
  {
    var c := b + x;
    assert c == a + (c - a);
    assert |c| == |a| + |c - a|;
    assert |c| + |b * x| == |b| + |x|;
  }

  lemma FailuresGrow(s256: string -> string, s: State, step: Step, f: Hash)
    ensures Failed(Next(s256, s, step), f) >= Failed(s, f)
  {
    if step.Supersede? {
      assert Next(s256, s, step) == Superseded(s, step.n, step.fails);
    }
  }

  /** A slot accounts for no less than the slot it came from, except where the superseded
      token is being revoked. */
  lemma PairedComesFrom(s256: string -> string, s: State, step: Step, f: Hash, slot: Slot)
    requires Rooted(s) && Holds(Next(s256, s, step), f, slot) && !Born(s, step, f)
    requires !(slot.InFlight? && step.Supersede? && slot == InFlight(step.n) && Moves(s, step, step.n))
    ensures Holds(s, f, Before(s, step, slot))
    ensures Paired(s, f, Before(s, step, slot)) <= Paired(Next(s256, s, step), f, slot)
  {
    SlotComesFrom(s256, s, step, f, slot);
    if slot.InRow? {
      RowComesFrom(s256, s, step, slot.h);
    } else if slot.InFlight? {
      HandlersComeFrom(s256, s, step, slot.n);
      if Arrives(s, step, slot.n) {
        ArrivalPaired(s256, s, step, f);
      } else if Moves(s, step, slot.n) {
        MovePaired(s256, s, step, f);
      }
    }
  }

  lemma ArrivalPaired(s256: string -> string, s: State, step: Step, f: Hash)
    requires Rooted(s) && (step.Exchange? || step.Rotate?) && Arrives(s, step, step.n)
    requires Holds(Next(s256, s, step), f, InFlight(step.n)) && Holds(s, f, Before(s, step, InFlight(step.n)))
    ensures Paired(s, f, Before(s, step, InFlight(step.n))) <= Paired(Next(s256, s, step), f, InFlight(step.n))
  {
  }

  lemma MovePaired(s256: string -> string, s: State, step: Step, f: Hash)
    requires Rooted(s) && (step.Mint? || step.Pair? || step.Supersede?) && Moves(s, step, step.n)
    requires step.Supersede? ==> !s.handlers[step.n].Superseding?
    requires Holds(Next(s256, s, step), f, InFlight(step.n)) && Holds(s, f, InFlight(step.n))
    ensures Paired(s, f, InFlight(step.n)) <= Paired(Next(s256, s, step), f, InFlight(step.n))
  {
  }

  predicate MintsFor(s: State, step: Step, f: Hash) {
    step.Mint? && Moves(s, step, step.n) && s.handlers[step.n].Minting? && s.handlers[step.n].family == f
  }

  lemma UnrevokedComesFrom(s256: string -> string, s: State, step: Step, f: Hash)
    requires Rooted(s)
    ensures Unrevoked(Next(s256, s, step), f)
            <= Unrevoked(s, f) + (if MintsFor(s, step, f) then {step.access} else {})
  {
    var t := Next(s256, s, step);
    forall h | h in Unrevoked(t, f)
      ensures h in Unrevoked(s, f) || (MintsFor(s, step, f) && h == step.access)
    {
      TokenComesFrom(s256, s, step, h);
    }
  }

  /** What an invariant says of the slot a handler occupies. */
  lemma FewAt(s: State, f: Hash, slot: Slot)
    requires FewUnrevoked(s, f) && Holds(s, f, slot)
    ensures |Unrevoked(s, f) - Paired(s, f, slot)| <= Failed(s, f)
  {
  }

  lemma MintingKeepsFew(s256: string -> string, s: State, step: Step, f: Hash)
    requires Rooted(s) && OneSlot(s) && FewUnrevoked(s, f) && MintsFor(s, step, f)
    ensures FewUnrevoked(Next(s256, s, step), f)
  {
    var t := Next(s256, s, step);
    var u := Unrevoked(s, f);
    FewAt(s, f, InFlight(step.n));
    assert u - {} == u;
    UnrevokedComesFrom(s256, s, step, f);
    FailuresGrow(s256, s, step, f);
    SubsetSize(Unrevoked(t, f), u, {step.access});
    forall slot | Holds(t, f, slot)
      ensures |Unrevoked(t, f) - Paired(t, f, slot)| <= Failed(t, f)
    {
      MintedIsPaired(s256, s, step, f, slot);
      SubsetSize(Unrevoked(t, f) - Paired(t, f, slot), u);
    }
  }

  lemma MintedIsPaired(s256: string -> string, s: State, step: Step, f: Hash, slot: Slot)
    requires Rooted(s) && OneSlot(s) && MintsFor(s, step, f) && Holds(Next(s256, s, step), f, slot)
    ensures Unrevoked(Next(s256, s, step), f) - Paired(Next(s256, s, step), f, slot) <= Unrevoked(s, f)
  {
    SlotComesFrom(s256, s, step, f, slot);
    assert Holds(s, f, InFlight(step.n));
    assert slot == InFlight(step.n);
    UnrevokedComesFrom(s256, s, step, f);
    if step.access !in s.used {
      assert Next(s256, s, step).handlers[step.n].access == step.access;
    }
  }

  lemma SupersededIsRevoked(s256: string -> string, s: State, step: Step)
    requires Rooted(s) && step.Supersede? && Moves(s, step, step.n) && s.handlers[step.n].Superseding?
    ensures var f := s.handlers[step.n].family;
            var t := Next(s256, s, step);
            if step.fails then Failed(t, f) == Failed(s, f) + 1
            else Unrevoked(t, f) <= Unrevoked(s, f) - {s.handlers[step.n].access} && Failed(t, f) == Failed(s, f)
  {
    UnrevokedComesFrom(s256, s, step, s.handlers[step.n].family);
  }

  lemma SupersedingKeepsFew(s256: string -> string, s: State, step: Step, f: Hash)
    requires Rooted(s) && FewUnrevoked(s, f) && Supersedes(s, step, f)
    ensures FewUnrevoked(Next(s256, s, step), f)
  {
    var t := Next(s256, s, step);
    FewAt(s, f, InFlight(step.n));
    UnrevokedComesFrom(s256, s, step, f);
    SupersededIsRevoked(s256, s, step);
    SubsetSize(Unrevoked(t, f), Unrevoked(s, f));
    if !step.fails {
      SubsetSize(Unrevoked(t, f), Unrevoked(s, f) - {s.handlers[step.n].access});
    }
    assert |Unrevoked(t, f)| <= Failed(t, f);
    forall slot | Holds(t, f, slot)
      ensures |Unrevoked(t, f) - Paired(t, f, slot)| <= Failed(t, f)
    {
      SubsetSize(Unrevoked(t, f) - Paired(t, f, slot), Unrevoked(t, f));
    }
  }

  lemma StepKeepsFew(s256: string -> string, s: State, step: Step, f: Hash)
    requires Inv(s256, s)
    ensures FewUnrevoked(Next(s256, s, step), f)
  {
    assert FewUnrevoked(s, f);
    if Born(s, step, f) {
      NewbornHasNoToken(s256, s, step, f);
    } else if MintsFor(s, step, f) {
      MintingKeepsFew(s256, s, step, f);
    } else if Supersedes(s, step, f) {
      SupersedingKeepsFew(s256, s, step, f);
    } else {
      QuietStepKeepsFew(s256, s, step, f);
    }
  }

  predicate Supersedes(s: State, step: Step, f: Hash) {
    step.Supersede? && Moves(s, step, step.n) && s.handlers[step.n].Superseding? && s.handlers[step.n].family == f
  }

  lemma QuietStepKeepsFew(s256: string -> string, s: State, step: Step, f: Hash)
    requires Rooted(s) && FewUnrevoked(s, f) && !Born(s, step, f) && !MintsFor(s, step, f) && !Supersedes(s, step, f)
    ensures FewUnrevoked(Next(s256, s, step), f)
  {
    var t := Next(s256, s, step);
    UnrevokedComesFrom(s256, s, step, f);
    FailuresGrow(s256, s, step, f);
    SubsetSize(Unrevoked(t, f), Unrevoked(s, f));
    forall slot | Holds(t, f, slot)
      ensures |Unrevoked(t, f) - Paired(t, f, slot)| <= Failed(t, f)
    {
      QuietPaired(s256, s, step, f, slot);
      FewAt(s, f, Before(s, step, slot));
      SubsetSize(Unrevoked(t, f) - Paired(t, f, slot), Unrevoked(s, f) - Paired(s, f, Before(s, step, slot)));
    }
  }

  lemma QuietPaired(s256: string -> string, s: State, step: Step, f: Hash, slot: Slot)
    requires Rooted(s) && Holds(Next(s256, s, step), f, slot) && !Born(s, step, f)
    requires !Supersedes(s, step, f)
    ensures Holds(s, f, Before(s, step, slot))
    ensures Paired(s, f, Before(s, step, slot)) <= Paired(Next(s256, s, step), f, slot)
  {
    if step.Supersede? && slot == InFlight(step.n) && Moves(s, step, step.n) {
      SlotComesFrom(s256, s, step, f, slot);
      MovePaired(s256, s, step, f);
    } else {
      PairedComesFrom(s256, s, step, f, slot);
    }
  }

  lemma NewbornHasNoToken(s256: string -> string, s: State, step: Step, f: Hash)
    requires Inv(s256, s) && Born(s, step, f)
    ensures FewUnrevoked(Next(s256, s, step), f)
  {
    var t := Next(s256, s, step);
    UnrevokedComesFrom(s256, s, step, f);
    forall h | h in s.tokens
      ensures s.tokens[h].family != f
    {
      assert TokenHasGrant(s, h);
    }
    assert Unrevoked(t, f) == {};
  }

  lemma StepKeepsInv(s256: string -> string, s: State, step: Step)
    requires Inv(s256, s)
    ensures Inv(s256, Next(s256, s, step))
  {
    StepKeepsTablesRooted(s256, s, step);
    StepKeepsHandlersRooted(s256, s, step);
    StepKeepsOneSlot(s256, s, step);
    StepKeepsSameGrant(s256, s, step);
    StepKeepsRedeemed(s256, s, step);
    forall f
      ensures FewUnrevoked(Next(s256, s, step), f)
    {
      StepKeepsFew(s256, s, step, f);
    }
  }

  lemma {:induction false} RunKeepsInv(s256: string -> string, steps: seq<Step>)
    ensures Inv(s256, Run(s256, INITIAL, steps))
  {
    if steps == [] {
      assert forall f :: Unrevoked(INITIAL, f) == {};
    } else {
      RunKeepsInv(s256, steps[..|steps| - 1]);
      StepKeepsInv(s256, Run(s256, INITIAL, steps[..|steps| - 1]), steps[|steps| - 1]);
    }
  }
}
