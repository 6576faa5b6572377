/** Refresh-token families: rotation, replay detection and the two expiry clocks of src/auth/sessions.ts. */
module Sessions {
  import opened Common

  type UserId = nat
  type FamilyId = nat
  /** A refresh token; its stored digest is injective, so the token itself keys the row. */
  type Token = nat
  type Time = int

  datatype EndReason = Logout | LogoutAll | Rotated | Expired | ReuseDetected | PasswordChanged | RevokedByAdmin

  /** The reasons a revocation is given; only rotation writes Rotated. */
  type Revocation = r: EndReason | r != Rotated witness Logout

  datatype Row = Row(
    user: UserId,
    family: FamilyId,
    expiresAt: Time,
    absoluteExpiresAt: Time,
    revokedAt: Option<Time>,
    endReason: Option<EndReason>,
    replacedBy: Option<Token>)

  type Rows = map<Token, Row>

  datatype Config = Config(idleTtl: nat, absoluteTtl: nat)

  function IdleExpiry(now: Time, absolute: Time, cfg: Config): Time {
    var idle := now + cfg.idleTtl;
    if idle < absolute then idle else absolute
  }

  // ----- Steps ------------------------------------------------------------

  datatype Rotation = RotatedTo(token: Token, expiresAt: Time) | Missing | Reused | TooOld | Collision

  function Create(rows: Rows, user: UserId, family: FamilyId, token: Token, now: Time, cfg: Config): Rows {
    // A token whose digest is already stored violates the unique index: nothing is written.
    if token in rows then rows
    else
      var absolute := now + cfg.absoluteTtl;
      rows[token := Row(user, family, IdleExpiry(now, absolute, cfg), absolute, None, None, None)]
  }

  function Revoked(r: Row, reason: EndReason, now: Time): Row {
    r.(revokedAt := Some(now), endReason := Some(reason))
  }

  function RevokeFamily(rows: Rows, family: FamilyId, reason: Revocation, now: Time): Rows {
    map t | t in rows ::
      if rows[t].family == family && rows[t].revokedAt.None? then Revoked(rows[t], reason, now) else rows[t]
  }

  function RevokeUser(rows: Rows, user: UserId, reason: Revocation, keep: Option<FamilyId>, now: Time): Rows {
    map t | t in rows ::
      if rows[t].user == user && rows[t].revokedAt.None? && (keep.None? || rows[t].family != keep.value)
      then Revoked(rows[t], reason, now) else rows[t]
  }

  function Verdict(rows: Rows, token: Token, minted: Token, now: Time, cfg: Config): Rotation {
    if token !in rows then Missing
    else
      var r := rows[token];
      if r.revokedAt.Some? && r.endReason != Some(Rotated) then Missing
      else if r.revokedAt.Some? then Reused
      else if r.expiresAt <= now || r.absoluteExpiresAt <= now then TooOld
      else if minted in rows then Collision
      else RotatedTo(minted, IdleExpiry(now, r.absoluteExpiresAt, cfg))
  }

  function Rotate(rows: Rows, token: Token, minted: Token, now: Time, cfg: Config): Rows {
    match Verdict(rows, token, minted, now, cfg)
    case Missing => rows
    case Collision => rows
    case Reused => RevokeFamily(rows, rows[token].family, ReuseDetected, now)
    case TooOld => rows[token := Revoked(rows[token], Expired, now)]
    case RotatedTo(t, expiresAt) =>
      var r := rows[token];
      rows[token := Revoked(r, EndReason.Rotated, now).(replacedBy := Some(t))]
          [t := Row(r.user, r.family, expiresAt, r.absoluteExpiresAt, None, None, None)]
  }

  /** The guard's session_active: some row of the family is live and not idle. */
  predicate SessionActive(rows: Rows, family: FamilyId, user: UserId, now: Time) {
    exists t :: t in rows && rows[t].family == family && rows[t].user == user
                && rows[t].revokedAt.None? && rows[t].expiresAt > now
  }

  datatype Event =
    | SignIn(user: UserId, family: FamilyId, token: Token, now: Time)
    | Refresh(token: Token, minted: Token, now: Time)
    | EndFamily(family: FamilyId, reason: Revocation, now: Time)
    | EndUser(user: UserId, reason: Revocation, keep: Option<FamilyId>, now: Time)

  function Next(rows: Rows, e: Event, cfg: Config): Rows {
    match e
    case SignIn(user, family, token, now) => Create(rows, user, family, token, now, cfg)
    case Refresh(token, minted, now) => Rotate(rows, token, minted, now, cfg)
    case EndFamily(family, reason, now) => RevokeFamily(rows, family, reason, now)
    case EndUser(user, reason, keep, now) => RevokeUser(rows, user, reason, keep, now)
  }

  /** Family ids are random: a sign-in never draws one in use. */
  predicate FreshFamily(rows: Rows, e: Event) {
    e.SignIn? ==> forall t :: t in rows ==> rows[t].family != e.family
  }

  predicate IsRun(states: seq<Rows>, events: seq<Event>, cfg: Config) {
    && |states| == |events| + 1
    && states[0] == map[]
    && forall k {:trigger events[k]} :: 0 <= k < |events| ==>
         FreshFamily(states[k], events[k]) && states[k + 1] == Next(states[k], events[k], cfg)
  }

  // ----- The replaced_by chain of a family --------------------------------

  predicate WasRotated(r: Row) {
    r.endReason == Some(EndReason.Rotated)
  }

  predicate RowOk(r: Row) {
    && (r.revokedAt.Some? <==> r.endReason.Some?)
    && (WasRotated(r) <==> r.replacedBy.Some?)
    && r.expiresAt <= r.absoluteExpiresAt
  }

  predicate Distinct(c: seq<Token>) {
    forall i, j :: 0 <= i < j < |c| ==> c[i] != c[j]
  }

  /** The i-th token was rotated into the next one. */
  predicate Linked(rows: Rows, c: seq<Token>, i: nat) {
    i + 1 < |c| && c[i] in rows && rows[c[i]].replacedBy == Some(c[i + 1])
  }

  /** All rows of the family, in replaced_by order: every one but the last was rotated into the next. */
  predicate ChainOk(rows: Rows, family: FamilyId, c: seq<Token>) {
    && c != [] && Distinct(c)
    && (forall i :: 0 <= i < |c| ==> c[i] in rows && rows[c[i]].family == family)
    && (forall t :: t in rows && rows[t].family == family ==> t in c)
    && (forall i :: 0 <= i < |c| - 1 ==> Linked(rows, c, i))
    && rows[c[|c| - 1]].replacedBy.None?
    && (forall i :: 0 <= i < |c| ==>
          rows[c[i]].user == rows[c[0]].user && rows[c[i]].absoluteExpiresAt == rows[c[0]].absoluteExpiresAt)
  }

  predicate Chained(rows: Rows, chains: map<FamilyId, seq<Token>>) {
    && (forall t :: t in rows ==> RowOk(rows[t]) && rows[t].family in chains)
    && (forall f :: f in chains ==> ChainOk(rows, f, chains[f]))
  }

  predicate SameLink(r: Row, n: Row) {
    && n.user == r.user && n.family == r.family
    && n.absoluteExpiresAt == r.absoluteExpiresAt && n.replacedBy == r.replacedBy
  }

  /** Rewriting rows without touching who they belong to or what they were rotated into keeps every chain. */
  predicate SameLinks(rows: Rows, next: Rows) {
    && next.Keys == rows.Keys
    && forall t :: t in rows ==> RowOk(next[t]) && SameLink(rows[t], next[t])
  }

  /** A chain survives when its rows keep their links and no row joins the family. */
  lemma ChainFrame(rows: Rows, next: Rows, family: FamilyId, c: seq<Token>)
    requires ChainOk(rows, family, c)
    requires forall t :: t in rows && rows[t].family == family ==> t in next && SameLink(rows[t], next[t])
    requires forall t :: t in next && next[t].family == family ==> t in rows && rows[t].family == family
    ensures ChainOk(next, family, c)
  {
    forall i | 0 <= i < |c| ensures c[i] in next && SameLink(rows[c[i]], next[c[i]]) {
    }
    forall i | 0 <= i < |c| - 1 ensures Linked(next, c, i) {
      assert Linked(rows, c, i);
    }
  }

  lemma SameLinksChained(rows: Rows, next: Rows, chains: map<FamilyId, seq<Token>>)
    requires Chained(rows, chains) && SameLinks(rows, next)
    ensures Chained(next, chains)
  {
    forall f | f in chains ensures ChainOk(next, f, chains[f]) {
      ChainFrame(rows, next, f, chains[f]);
    }
  }

  lemma CreatedElsewhere(rows: Rows, token: Token, r: Row, f: FamilyId, c: seq<Token>)
    requires ChainOk(rows, f, c) && token !in rows && r.family != f
    ensures ChainOk(rows[token := r], f, c)
  {
    ChainFrame(rows, rows[token := r], f, c);
  }

  lemma CreatedAlone(rows: Rows, token: Token, r: Row)
    requires token !in rows && r.replacedBy.None?
    requires forall t :: t in rows ==> rows[t].family != r.family
    ensures ChainOk(rows[token := r], r.family, [token])
  {
  }

  lemma CreateChained(rows: Rows, chains: map<FamilyId, seq<Token>>, e: Event, cfg: Config)
    requires Chained(rows, chains) && e.SignIn? && FreshFamily(rows, e) && e.token !in rows
    ensures Chained(Next(rows, e, cfg), chains[e.family := [e.token]])
  {
    var next := Next(rows, e, cfg);
    var r := next[e.token];
    assert next == rows[e.token := r];
    var more := chains[e.family := [e.token]];
    forall f | f in more ensures ChainOk(next, f, more[f]) {
      if f == e.family {
        CreatedAlone(rows, e.token, r);
      } else {
        CreatedElsewhere(rows, e.token, r, f, chains[f]);
      }
    }
  }

  lemma InnerWasRotated(rows: Rows, chains: map<FamilyId, seq<Token>>, f: FamilyId, i: nat)
    requires Chained(rows, chains) && f in chains && i < |chains[f]| - 1
    ensures chains[f][i] in rows && WasRotated(rows[chains[f][i]])
  {
    var c := chains[f];
    assert ChainOk(rows, f, c);
    assert Linked(rows, c, i);
    assert RowOk(rows[c[i]]);
  }

  /** A row not rotated away is the last of its family's chain. */
  lemma LiveIsLast(rows: Rows, chains: map<FamilyId, seq<Token>>, t: Token)
    requires Chained(rows, chains) && t in rows && !WasRotated(rows[t])
    ensures rows[t].family in chains && var c := chains[rows[t].family]; c != [] && c[|c| - 1] == t
  {
    var f := rows[t].family;
    var c := chains[f];
    assert ChainOk(rows, f, c);
    forall i | 0 <= i < |c| - 1 ensures c[i] != t {
      InnerWasRotated(rows, chains, f, i);
    }
    assert t in c;
  }

  /** next is rows with `last` rotated into the new row `minted`. */
  predicate Rolled(rows: Rows, next: Rows, last: Token, minted: Token) {
    && last in rows && minted !in rows
    && next.Keys == rows.Keys + {minted}
    && (forall t :: t in rows && t != last ==> next[t] == rows[t])
    && next[last] == rows[last].(revokedAt := next[last].revokedAt, endReason := Some(EndReason.Rotated),
                                 replacedBy := Some(minted))
    && next[minted] == rows[last].(expiresAt := next[minted].expiresAt, revokedAt := None, endReason := None,
                                   replacedBy := None)
    && RowOk(next[last]) && RowOk(next[minted])
  }

  lemma RotateRolls(rows: Rows, token: Token, minted: Token, now: Time, cfg: Config)
    requires Verdict(rows, token, minted, now, cfg).RotatedTo? && RowOk(rows[token])
    ensures Rolled(rows, Rotate(rows, token, minted, now, cfg), token, minted)
  {
  }

  lemma RolledMembers(rows: Rows, next: Rows, family: FamilyId, c: seq<Token>, minted: Token)
    requires ChainOk(rows, family, c) && Rolled(rows, next, c[|c| - 1], minted)
    ensures forall t :: t in next && next[t].family == family ==> t in c + [minted]
    ensures Distinct(c + [minted])
  {
  }

  lemma RolledLinks(rows: Rows, next: Rows, family: FamilyId, c: seq<Token>, minted: Token, i: nat)
    requires ChainOk(rows, family, c) && Rolled(rows, next, c[|c| - 1], minted) && i < |c|
    ensures Linked(next, c + [minted], i) && c[i] in next
    ensures next[c[i]].user == rows[c[0]].user && next[c[i]].absoluteExpiresAt == rows[c[0]].absoluteExpiresAt
    ensures next[c[i]].family == family
  {
    if i < |c| - 1 {
      assert c[i] != c[|c| - 1];
      assert Linked(rows, c, i);
    }
  }

  lemma RolledChain(rows: Rows, next: Rows, family: FamilyId, c: seq<Token>, minted: Token)
    requires ChainOk(rows, family, c) && Rolled(rows, next, c[|c| - 1], minted)
    ensures ChainOk(next, family, c + [minted])
  {
    var d := c + [minted];
    RolledMembers(rows, next, family, c, minted);
    forall i | 0 <= i < |c|
      ensures Linked(next, d, i) && d[i] in next && next[d[i]].family == family
      ensures next[d[i]].user == rows[c[0]].user && next[d[i]].absoluteExpiresAt == rows[c[0]].absoluteExpiresAt
    {
      RolledLinks(rows, next, family, c, minted, i);
    }
  }

  lemma RolledElsewhere(rows: Rows, next: Rows, last: Token, minted: Token, g: FamilyId, c: seq<Token>)
    requires ChainOk(rows, g, c) && Rolled(rows, next, last, minted) && rows[last].family != g
    ensures ChainOk(next, g, c)
  {
    ChainFrame(rows, next, g, c);
  }

  lemma RolledRows(rows: Rows, next: Rows, families: set<FamilyId>, last: Token, minted: Token)
    requires forall t :: t in rows ==> RowOk(rows[t]) && rows[t].family in families
    requires Rolled(rows, next, last, minted)
    ensures forall t :: t in next ==> RowOk(next[t]) && next[t].family in families
  {
  }

  lemma RolledChained(rows: Rows, next: Rows, chains: map<FamilyId, seq<Token>>, last: Token, minted: Token)
    requires Chained(rows, chains) && Rolled(rows, next, last, minted) && !WasRotated(rows[last])
    ensures rows[last].family in chains
    ensures var f := rows[last].family; Chained(next, chains[f := chains[f] + [minted]])
  {
    LiveIsLast(rows, chains, last);
    var f := rows[last].family;
    var more := chains[f := chains[f] + [minted]];
    forall g | g in more ensures ChainOk(next, g, more[g]) {
      if g == f {
        RolledChain(rows, next, f, chains[f], minted);
      } else {
        RolledElsewhere(rows, next, last, minted, g, chains[g]);
      }
    }
    RolledRows(rows, next, chains.Keys, last, minted);
  }

  lemma OtherEventsKeepLinks(rows: Rows, e: Event, cfg: Config)
    requires forall t :: t in rows ==> RowOk(rows[t])
    requires e.SignIn? ==> e.token in rows
    requires e.Refresh? ==> !Verdict(rows, e.token, e.minted, e.now, cfg).RotatedTo?
    ensures SameLinks(rows, Next(rows, e, cfg))
  {
  }

  lemma StepChained(rows: Rows, chains: map<FamilyId, seq<Token>>, e: Event, cfg: Config)
    returns (more: map<FamilyId, seq<Token>>)
    requires Chained(rows, chains) && FreshFamily(rows, e)
    ensures Chained(Next(rows, e, cfg), more)
  {
    more := chains;
    if e.SignIn? && e.token !in rows {
      CreateChained(rows, chains, e, cfg);
      more := chains[e.family := [e.token]];
    } else if e.Refresh? && Verdict(rows, e.token, e.minted, e.now, cfg).RotatedTo? {
      RotateRolls(rows, e.token, e.minted, e.now, cfg);
      RolledChained(rows, Next(rows, e, cfg), chains, e.token, e.minted);
      var f := rows[e.token].family;
      more := chains[f := chains[f] + [e.minted]];
    } else {
      OtherEventsKeepLinks(rows, e, cfg);
      SameLinksChained(rows, Next(rows, e, cfg), chains);
    }
  }

  lemma {:induction false} RunChained(states: seq<Rows>, events: seq<Event>, cfg: Config, n: nat)
    returns (chains: map<FamilyId, seq<Token>>)
    requires IsRun(states, events, cfg) && n < |states|
    ensures Chained(states[n], chains)
  {
    if n == 0 {
      chains := map[];
    } else {
      chains := RunChained(states, events, cfg, n - 1);
      var e := events[n - 1];
      chains := StepChained(states[n - 1], chains, e, cfg);
    }
  }

  /** In every state of a run the rows of each family form one replaced_by chain with one user and one ceiling. */
  lemma FamiliesAreChains(states: seq<Rows>, events: seq<Event>, cfg: Config, n: nat, t: Token)
    requires IsRun(states, events, cfg) && n < |states| && t in states[n]
    ensures exists c :: ChainOk(states[n], states[n][t].family, c)
  {
    var chains := RunChained(states, events, cfg, n);
    assert ChainOk(states[n], states[n][t].family, chains[states[n][t].family]);
  }

  lemma FamilyShares(states: seq<Rows>, events: seq<Event>, cfg: Config, n: nat, a: Token, b: Token)
    requires IsRun(states, events, cfg) && n < |states|
    requires a in states[n] && b in states[n] && states[n][a].family == states[n][b].family
    ensures states[n][a].user == states[n][b].user && states[n][a].absoluteExpiresAt == states[n][b].absoluteExpiresAt
  {
    FamiliesAreChains(states, events, cfg, n, a);
    var c :| ChainOk(states[n], states[n][a].family, c);
    assert a in c && b in c;
  }

  /** At most one token of a family is live. */
  lemma OneLiveToken(states: seq<Rows>, events: seq<Event>, cfg: Config, n: nat, a: Token, b: Token)
    requires IsRun(states, events, cfg) && n < |states|
    requires a in states[n] && b in states[n] && states[n][a].family == states[n][b].family
    requires states[n][a].revokedAt.None? && states[n][b].revokedAt.None?
    ensures a == b
  {
    var chains := RunChained(states, events, cfg, n);
    LiveIsLast(states[n], chains, a);
    LiveIsLast(states[n], chains, b);
  }

  // ----- What never comes back --------------------------------------------

  /** A revoked row is never rewritten, and no row disappears. */
  lemma RevokedRowStays(rows: Rows, e: Event, cfg: Config, t: Token)
    requires t in rows && rows[t].revokedAt.Some?
    ensures t in Next(rows, e, cfg) && Next(rows, e, cfg)[t] == rows[t]
  {
  }

  lemma {:induction false} RevokedRowStaysForever(states: seq<Rows>, events: seq<Event>, cfg: Config, i: nat, d: nat,
                                                  t: Token)
    requires IsRun(states, events, cfg) && i + d < |states| && t in states[i] && states[i][t].revokedAt.Some?
    ensures t in states[i + d] && states[i + d][t] == states[i][t]
  {
    if d > 0 {
      RevokedRowStaysForever(states, events, cfg, i, d - 1, t);
      var e := events[i + d - 1];
      RevokedRowStays(states[i + d - 1], e, cfg, t);
    }
  }

  /** The refresh of a token that is live and in time, with a fresh one minted. */
  predicate Rotates(rows: Rows, e: Event, t: Token) {
    && e.Refresh? && e.token == t && t in rows && rows[t].revokedAt.None?
    && e.now < rows[t].expiresAt && e.now < rows[t].absoluteExpiresAt && e.minted !in rows
  }

  /** Each refresh token rotates at most once in a run. */
  lemma RotatesOnce(states: seq<Rows>, events: seq<Event>, cfg: Config, i: nat, j: nat, t: Token)
    requires IsRun(states, events, cfg) && i < j < |events|
    requires Rotates(states[i], events[i], t)
    ensures !Rotates(states[j], events[j], t)
  {
    assert t in states[i + 1] && states[i + 1][t].revokedAt.Some?;
    RevokedRowStaysForever(states, events, cfg, i + 1, j - i - 1, t);
  }

  predicate Dead(rows: Rows, family: FamilyId) {
    forall t :: t in rows && rows[t].family == family ==> rows[t].revokedAt.Some?
  }

  predicate Known(rows: Rows, family: FamilyId) {
    exists t :: t in rows && rows[t].family == family
  }

  lemma DeadStays(rows: Rows, e: Event, cfg: Config, family: FamilyId)
    requires Dead(rows, family) && Known(rows, family) && FreshFamily(rows, e)
    ensures Dead(Next(rows, e, cfg), family) && Known(Next(rows, e, cfg), family)
  {
    var t :| t in rows && rows[t].family == family;
    assert t in Next(rows, e, cfg) && Next(rows, e, cfg)[t].family == family;
  }

  lemma {:induction false} DeadForever(states: seq<Rows>, events: seq<Event>, cfg: Config, i: nat, d: nat,
                                       family: FamilyId)
    requires IsRun(states, events, cfg) && i + d < |states| && Dead(states[i], family) && Known(states[i], family)
    ensures Dead(states[i + d], family)
    ensures Known(states[i + d], family)
  {
    if d > 0 {
      DeadForever(states, events, cfg, i, d - 1, family);
      var e := events[i + d - 1];
      DeadStays(states[i + d - 1], e, cfg, family);
    }
  }

  /**
   * Presenting a token that was already rotated, at whatever later time, kills
   * its whole family: in every state from there on none of its tokens is live
   * and no access token of it passes the guard's session check.
   */
  lemma ReplayKillsFamily(states: seq<Rows>, events: seq<Event>, cfg: Config, h: nat, i: nat, d: nat, t: Token,
                          user: UserId, now: Time)
    requires IsRun(states, events, cfg) && h < i && i + 1 + d < |states|
    requires Rotates(states[h], events[h], t) && events[i].Refresh? && events[i].token == t
    ensures t in states[h]
    ensures var f := states[h][t].family; Dead(states[i + 1 + d], f) && !SessionActive(states[i + 1 + d], f, user, now)
  {
    var f := states[h][t].family;
    RotatedRow(states[h], events[h], cfg, t);
    RevokedRowStaysForever(states, events, cfg, h + 1, i - h - 1, t);
    ReplayedDies(states[i], events[i], cfg, t);
    DeadForever(states, events, cfg, i + 1, d, f);
  }

  lemma RotatedRow(rows: Rows, e: Event, cfg: Config, t: Token)
    requires Rotates(rows, e, t)
    ensures var next := Next(rows, e, cfg);
            t in next && next[t].family == rows[t].family && next[t].revokedAt.Some? && WasRotated(next[t])
  {
  }

  lemma ReplayedDies(rows: Rows, e: Event, cfg: Config, t: Token)
    requires e.Refresh? && e.token == t && t in rows && rows[t].revokedAt.Some? && WasRotated(rows[t])
    ensures Dead(Next(rows, e, cfg), rows[t].family) && Known(Next(rows, e, cfg), rows[t].family)
  {
    assert t in Next(rows, e, cfg) && Next(rows, e, cfg)[t].family == rows[t].family;
  }

  /**
   * Signing a user out everywhere but one family (a password change, or none at
   * all for a reset) leaves every other family of theirs dead in every later state.
   */
  lemma SignedOutElsewhere(states: seq<Rows>, events: seq<Event>, cfg: Config, i: nat, d: nat, t: Token, user: UserId,
                           now: Time)
    requires IsRun(states, events, cfg) && i + 1 + d < |states| && events[i].EndUser?
    requires t in states[i] && states[i][t].user == events[i].user
    requires events[i].keep != Some(states[i][t].family)
    ensures var f := states[i][t].family; Dead(states[i + 1 + d], f) && !SessionActive(states[i + 1 + d], f, user, now)
  {
    var f := states[i][t].family;
    forall s | s in states[i] && states[i][s].family == f ensures states[i][s].user == events[i].user {
      FamilyShares(states, events, cfg, i, s, t);
    }
    assert t in states[i + 1] && states[i + 1][t].family == f;
    DeadForever(states, events, cfg, i + 1, d, f);
  }

  // ----- The absolute ceiling ---------------------------------------------

  predicate Ceiling(rows: Rows, family: FamilyId, absolute: Time) {
    forall t :: t in rows && rows[t].family == family ==> rows[t].absoluteExpiresAt == absolute
  }

  lemma CeilingStays(rows: Rows, e: Event, cfg: Config, family: FamilyId, absolute: Time)
    requires Ceiling(rows, family, absolute) && Known(rows, family) && FreshFamily(rows, e)
    ensures Ceiling(Next(rows, e, cfg), family, absolute) && Known(Next(rows, e, cfg), family)
  {
    var t :| t in rows && rows[t].family == family;
    assert t in Next(rows, e, cfg) && Next(rows, e, cfg)[t].family == family;
  }

  lemma {:induction false} CeilingForever(states: seq<Rows>, events: seq<Event>, cfg: Config, i: nat, d: nat,
                                          family: FamilyId, absolute: Time)
    requires IsRun(states, events, cfg) && i + d < |states| && Ceiling(states[i], family, absolute)
    requires Known(states[i], family)
    ensures Ceiling(states[i + d], family, absolute) && Known(states[i + d], family)
  {
    if d > 0 {
      CeilingForever(states, events, cfg, i, d - 1, family, absolute);
      var e := events[i + d - 1];
      CeilingStays(states[i + d - 1], e, cfg, family, absolute);
    }
  }

  /** No token of a family rotates at or after its sign-in plus the absolute lifetime, however active it is. */
  lemma NoRotationPastCeiling(states: seq<Rows>, events: seq<Event>, cfg: Config, i: nat, j: nat)
    requires IsRun(states, events, cfg) && i < j < |events|
    requires events[i].SignIn? && events[i].token !in states[i]
    requires events[j].Refresh? && Rotates(states[j], events[j], events[j].token)
    requires states[j][events[j].token].family == events[i].family
    ensures events[j].now < events[i].now + cfg.absoluteTtl
  {
    var f := events[i].family;
    assert events[i].token in states[i + 1] && states[i + 1][events[i].token].family == f;
    assert FreshFamily(states[i], events[i]);
    CeilingForever(states, events, cfg, i + 1, j - i - 1, f, events[i].now + cfg.absoluteTtl);
  }

  // ----- What a refresh answers -------------------------------------------

  predicate RowsOk(rows: Rows) {
    forall t :: t in rows ==> RowOk(rows[t])
  }

  lemma RunRowsOk(states: seq<Rows>, events: seq<Event>, cfg: Config, n: nat)
    requires IsRun(states, events, cfg) && n < |states|
    ensures RowsOk(states[n])
  {
    var chains := RunChained(states, events, cfg, n);
  }

  predicate InTime(r: Row, now: Time) {
    r.revokedAt.None? && now < r.expiresAt
  }

  /** The new token's expiry: a whole idle period, cut at the family's ceiling. */
  predicate ExpiresAt(expiresAt: Time, issued: Time, absolute: Time, cfg: Config) {
    && expiresAt <= issued + cfg.idleTtl && expiresAt <= absolute
    && (expiresAt == issued + cfg.idleTtl || expiresAt == absolute)
  }

  /**
   * In every state of a run a refresh answers as the row's place in its chain
   * says: a token already replaced is a replay, a live one in time rotates, a
   * live one past its time has expired, and one ended otherwise is not known.
   */
  lemma RefreshAnswersExactly(states: seq<Rows>, events: seq<Event>, cfg: Config, n: nat, t: Token, minted: Token,
                              now: Time)
    requires IsRun(states, events, cfg) && n < |states|
    ensures var rows, v := states[n], Verdict(states[n], t, minted, now, cfg);
            && (v.Reused? <==> t in rows && rows[t].replacedBy.Some?)
            && (v.TooOld? <==> t in rows && rows[t].revokedAt.None? && rows[t].expiresAt <= now)
            && (v.RotatedTo? <==> t in rows && InTime(rows[t], now) && minted !in rows)
            && (v.RotatedTo? ==> v.token == minted && ExpiresAt(v.expiresAt, now, rows[t].absoluteExpiresAt, cfg))
            && (v.Collision? <==> t in rows && InTime(rows[t], now) && minted in rows)
            && (v.Missing? <==> t !in rows || (rows[t].revokedAt.Some? && rows[t].replacedBy.None?))
  {
    RunRowsOk(states, events, cfg, n);
    if t in states[n] { assert RowOk(states[n][t]); }
  }

  // ----- What each call writes --------------------------------------------

  /** Why the call ends a live row, if it does. */
  function Ends(rows: Rows, e: Event, t: Token): Option<EndReason>
    requires t in rows
  {
    var r := rows[t];
    match e
    case Refresh(token, minted, now) =>
      if token == t then
        if r.expiresAt <= now then Some(Expired) else if minted in rows then None else Some(EndReason.Rotated)
      else if token in rows && rows[token].family == r.family && rows[token].replacedBy.Some? then Some(ReuseDetected)
      else None
    case EndFamily(family, reason, _) => if r.family == family then Some(reason) else None
    case EndUser(user, reason, keep, _) => if r.user == user && keep != Some(r.family) then Some(reason) else None
    case SignIn(_, _, _, _) => None
  }

  predicate SessionWritten(rows: Rows, e: Event, t: Token, n: Row)
    requires t in rows
  {
    var r := rows[t];
    && n.user == r.user && n.family == r.family
    && n.expiresAt == r.expiresAt && n.absoluteExpiresAt == r.absoluteExpiresAt
    && if r.revokedAt.None? && Ends(rows, e, t).Some? then
         && n.revokedAt == Some(e.now) && n.endReason == Ends(rows, e, t)
         && n.replacedBy == if e.Refresh? && n.endReason == Some(EndReason.Rotated) then Some(e.minted) else None
       else n == r
  }

  /** The row a sign-in or a rotation adds. */
  predicate Issues(rows: Rows, e: Event, t: Token) {
    (e.SignIn? && e.token == t && t !in rows) || (e.Refresh? && e.minted == t && Rotates(rows, e, e.token))
  }

  predicate IssuedAs(rows: Rows, e: Event, cfg: Config, n: Row)
    requires e.Refresh? ==> e.token in rows
  {
    && n.revokedAt.None? && n.endReason.None? && n.replacedBy.None?
    && ExpiresAt(n.expiresAt, e.now, n.absoluteExpiresAt, cfg)
    && (e.SignIn? ==> n.user == e.user && n.family == e.family && n.absoluteExpiresAt == e.now + cfg.absoluteTtl)
    && (e.Refresh? ==> n.user == rows[e.token].user && n.family == rows[e.token].family
                       && n.absoluteExpiresAt == rows[e.token].absoluteExpiresAt)
  }

  predicate SessionsWrittenAt(rows: Rows, e: Event, cfg: Config, t: Token) {
    var next := Next(rows, e, cfg);
    if t in rows then t in next && SessionWritten(rows, e, t, next[t])
    else
      && (t in next <==> Issues(rows, e, t))
      && (Issues(rows, e, t) ==> IssuedAs(rows, e, cfg, next[t]))
  }

  /** Every row after every call: only the rows a call ends change, and it ends no others. */
  lemma SessionsWritten(rows: Rows, e: Event, cfg: Config, t: Token)
    requires RowsOk(rows)
    ensures SessionsWrittenAt(rows, e, cfg, t)
  {
    if e.Refresh? && e.token in rows { assert RowOk(rows[e.token]); }
    if t in rows { assert RowOk(rows[t]); }
  }

  /** A row of a run has the call behind it that issued it, whose time set how long it may stand idle. */
  predicate IssuedBy(states: seq<Rows>, events: seq<Event>, cfg: Config, i: nat, n: nat, t: Token) {
    && i < n < |states| && i < |events| && t in states[n] && Issues(states[i], events[i], t)
    && ExpiresAt(states[n][t].expiresAt, events[i].now, states[n][t].absoluteExpiresAt, cfg)
    && (events[i].SignIn? ==> states[n][t].user == events[i].user && states[n][t].family == events[i].family
                              && states[n][t].absoluteExpiresAt == events[i].now + cfg.absoluteTtl)
  }

  lemma {:induction false} RowTellsItsIssue(states: seq<Rows>, events: seq<Event>, cfg: Config, n: nat, t: Token)
    requires IsRun(states, events, cfg) && n < |states| && t in states[n]
    ensures exists i: nat :: IssuedBy(states, events, cfg, i, n, t)
  {
    RunRowsOk(states, events, cfg, n - 1);
    var e := events[n - 1];
    SessionsWritten(states[n - 1], e, cfg, t);
    if t in states[n - 1] {
      RowTellsItsIssue(states, events, cfg, n - 1, t);
      var i: nat :| IssuedBy(states, events, cfg, i, n - 1, t);
      assert IssuedBy(states, events, cfg, i, n, t);
    } else {
      assert IssuedBy(states, events, cfg, n - 1, n, t);
    }
  }

  /** The guard's session check passes for the family of a live token exactly for its user and up to its idle expiry. */
  lemma SessionActiveExactly(states: seq<Rows>, events: seq<Event>, cfg: Config, n: nat, t: Token, user: UserId,
                             now: Time)
    requires IsRun(states, events, cfg) && n < |states| && t in states[n] && states[n][t].revokedAt.None?
    ensures SessionActive(states[n], states[n][t].family, user, now) <==>
            states[n][t].user == user && now < states[n][t].expiresAt
  {
    var f := states[n][t].family;
    if x :| x in states[n] && states[n][x].family == f && states[n][x].user == user
            && states[n][x].revokedAt.None? && states[n][x].expiresAt > now {
      OneLiveToken(states, events, cfg, n, t, x);
    }
  }

  // ----- The store as it runs ---------------------------------------------

  class SessionStore {
    var rows: Rows
    const cfg: Config

    constructor (cfg: Config)
      ensures rows == map[] && this.cfg == cfg
    {
      this.cfg := cfg;
      rows := map[];
    }

    method CreateSession(user: UserId, family: FamilyId, token: Token, now: Time) returns (ok: bool)
      modifies this
      ensures rows == Create(old(rows), user, family, token, now, cfg)
      ensures ok == (token !in old(rows))
    {
      var absolute := now + cfg.absoluteTtl;
      var expiresAt := IdleExpiry(now, absolute, cfg);
      if token in rows { return false; }
      rows := rows[token := Row(user, family, expiresAt, absolute, None, None, None)];
      return true;
    }

    method EndFamilySessions(family: FamilyId, reason: Revocation, now: Time)
      modifies this
      ensures rows == RevokeFamily(old(rows), family, reason, now)
    {
      rows := map t | t in rows ::
        if rows[t].family == family && rows[t].revokedAt.None?
        then rows[t].(revokedAt := Some(now), endReason := Some(reason)) else rows[t];
    }

    method RotateSession(token: Token, minted: Token, now: Time) returns (outcome: Rotation)
      modifies this
      ensures outcome == Verdict(old(rows), token, minted, now, cfg)
      ensures rows == Rotate(old(rows), token, minted, now, cfg)
    {
      if token !in rows { return Missing; }
      var row := rows[token];
      if row.revokedAt.Some? && row.endReason != Some(EndReason.Rotated) { return Missing; }
      if row.revokedAt.Some? {
        EndFamilySessions(row.family, ReuseDetected, now);
        return Reused;
      }
      if row.expiresAt <= now || row.absoluteExpiresAt <= now {
        rows := rows[token := row.(revokedAt := Some(now), endReason := Some(Expired))];
        return TooOld;
      }
      var expiresAt := IdleExpiry(now, row.absoluteExpiresAt, cfg);
      if minted in rows { return Collision; }
      rows := rows[minted := Row(row.user, row.family, expiresAt, row.absoluteExpiresAt, None, None, None)];
      rows := rows[token := row.(revokedAt := Some(now), endReason := Some(EndReason.Rotated),
                                 replacedBy := Some(minted))];
      return RotatedTo(minted, expiresAt);
    }

    method RevokeUserSessions(user: UserId, reason: Revocation, keep: Option<FamilyId>, now: Time)
      modifies this
      ensures rows == RevokeUser(old(rows), user, reason, keep, now)
    {
      rows := map t | t in rows ::
        if rows[t].user == user && rows[t].revokedAt.None? && (keep.None? || rows[t].family != keep.value)
        then rows[t].(revokedAt := Some(now), endReason := Some(reason)) else rows[t];
    }
  }
}
