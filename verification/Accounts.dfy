/**
 * One users row: the sign-in lockout and the access-token cut-off of
 * src/auth/users.ts, src/auth/guard.ts, src/auth/tokens.ts and
 * src/services/auth.service.ts. Times are milliseconds on one clock.
 */
module Accounts {
  import opened Common

  type Time = int
  /** A password; its hash verifies exactly that password. */
  type Password = nat

  const SECOND: int := 1_000

  datatype Limits = Limits(maxAttempts: Pos, lockoutSeconds: Pos)

  datatype Account = Account(
    password: Password,
    failedCount: nat,
    lockedUntil: Option<Time>,
    tokensValidFrom: Time)

  /** An access token, reduced to its `iat` claim in whole seconds. */
  datatype Token = Token(iat: int)

  function Lockout(l: Limits): Pos {
    l.lockoutSeconds * SECOND
  }

  function CeilSeconds(t: Time): int {
    0 - (0 - t) / SECOND
  }

  predicate IsLocked(a: Account, now: Time) {
    a.lockedUntil.Some? && a.lockedUntil.value > now
  }

  // ----- Steps ------------------------------------------------------------

  function Registered(password: Password, now: Time): Account {
    Account(password, 0, None, now)
  }

  function RecordFailedLogin(a: Account, l: Limits, now: Time): Account {
    a.(failedCount := a.failedCount + 1,
       lockedUntil := if a.failedCount + 1 >= l.maxAttempts then Some(now + Lockout(l)) else a.lockedUntil)
  }

  function RecordSuccessfulLogin(a: Account): Account {
    a.(failedCount := 0, lockedUntil := None)
  }

  function UpdatePassword(a: Account, password: Password, now: Time): Account {
    a.(password := password, tokensValidFrom := now + SECOND)
  }

  function Issue(a: Account, now: Time): Token {
    var floor, cutOff := now / SECOND, CeilSeconds(a.tokensValidFrom);
    Token(if floor < cutOff then cutOff else floor)
  }

  /** The guard's cut-off test. */
  predicate Passes(a: Account, token: Token) {
    CeilSeconds(a.tokensValidFrom) <= token.iat
  }

  datatype SignInResult = Locked | WrongPassword | NotAdmitted | SignedIn

  /** `admitted`: the account is active and signs in on its own surface. */
  function SignInVerdict(a: Account, password: Password, admitted: bool, now: Time): SignInResult {
    if IsLocked(a, now) then Locked
    else if password != a.password then WrongPassword
    else if !admitted then NotAdmitted
    else SignedIn
  }

  datatype Event =
    | SignIn(password: Password, admitted: bool, now: Time)
    | ChangePassword(current: Password, password: Password, now: Time)
    | ResetPassword(password: Password, now: Time)
    | Refresh(now: Time)

  /** The password is really replaced: the current one was right and the new one differs, or a reset code was right. */
  predicate Replaces(a: Account, e: Event) {
    || (e.ChangePassword? && e.current == a.password && e.password != e.current)
    || e.ResetPassword?
  }

  function Next(a: Account, e: Event, l: Limits): Account {
    match e
    case SignIn(password, admitted, now) =>
      (match SignInVerdict(a, password, admitted, now)
       case WrongPassword => RecordFailedLogin(a, l, now)
       case SignedIn => RecordSuccessfulLogin(a)
       case _ => a)
    case ChangePassword(_, password, now) => if Replaces(a, e) then UpdatePassword(a, password, now) else a
    case ResetPassword(password, now) => UpdatePassword(a, password, now)
    case Refresh(_) => a
  }

  /** The calls that answer with an access token. */
  predicate Mints(a: Account, e: Event) {
    match e
    case SignIn(password, admitted, now) => SignInVerdict(a, password, admitted, now).SignedIn?
    case ChangePassword(_, _, _) => Replaces(a, e)
    case ResetPassword(_, _) => false
    case Refresh(_) => true
  }

  /** The token the call answers with, minted from the row as the call left it. */
  function Minted(a: Account, e: Event, l: Limits): Token
    requires Mints(a, e)
  {
    Issue(Next(a, e, l), e.now)
  }

  predicate IsRun(states: seq<Account>, events: seq<Event>, l: Limits) {
    && |states| == |events| + 1
    && (forall k {:trigger events[k]} :: 0 <= k < |events| ==> states[k + 1] == Next(states[k], events[k], l))
    && (forall j, k :: 0 <= j < k < |events| ==> events[j].now <= events[k].now)
  }

  /** A run of the account from its registration. */
  predicate LifeOf(states: seq<Account>, events: seq<Event>, l: Limits, born: Time) {
    && IsRun(states, events, l)
    && states[0] == Registered(states[0].password, born)
    && forall k {:trigger events[k]} :: 0 <= k < |events| ==> born <= events[k].now
  }

  // ----- The access-token cut-off -----------------------------------------

  /** When the password was last replaced among the first n events. */
  function LastChange(states: seq<Account>, events: seq<Event>, l: Limits, n: nat): Option<Time>
    requires IsRun(states, events, l) && n <= |events|
  {
    if n == 0 then None
    else if Replaces(states[n - 1], events[n - 1]) then Some(events[n - 1].now)
    else LastChange(states, events, l, n - 1)
  }

  /** The cut-off is the account's birth, or a second past the last password change. */
  predicate CutOffFrom(a: Account, born: Time, changed: Option<Time>) {
    && (changed.None? ==> a.tokensValidFrom == born)
    && (changed.Some? ==> a.tokensValidFrom == changed.value + SECOND && born <= changed.value)
  }

  lemma {:induction false} CutOffIs(states: seq<Account>, events: seq<Event>, l: Limits, born: Time, n: nat)
    requires LifeOf(states, events, l, born) && n <= |events|
    ensures CutOffFrom(states[n], born, LastChange(states, events, l, n))
  {
    if n > 0 {
      CutOffIs(states, events, l, born, n - 1);
      var e := events[n - 1];
    }
  }

  /** Later changes: the last one so far stands, or a later event at least as late took its place. */
  lemma {:induction false} LastChangeMoves(states: seq<Account>, events: seq<Event>, l: Limits, i: nat, d: nat)
    requires IsRun(states, events, l) && i + 1 + d <= |events|
    ensures var c := LastChange(states, events, l, i + 1); var m := LastChange(states, events, l, i + 1 + d);
            m == c || (m.Some? && events[i].now <= m.value)
  {
    if d > 0 {
      LastChangeMoves(states, events, l, i, d - 1);
      var e := events[i + d];
    }
  }

  lemma {:induction false} LastChangeBefore(states: seq<Account>, events: seq<Event>, l: Limits, n: nat)
    requires IsRun(states, events, l) && n < |events|
    ensures var c := LastChange(states, events, l, n + 1); c.Some? ==> c.value <= events[n].now
  {
    if n > 0 && !Replaces(states[n], events[n]) {
      LastChangeBefore(states, events, l, n - 1);
    }
  }

  /** The whole second s is the first one not before a time. */
  predicate RoundsUpTo(t: Time, s: int) {
    (s - 1) * 1_000 < t <= s * 1_000
  }

  /** Two password changes whose times round up to the same second, or no change at all. */
  ghost predicate SameSecond(a: Option<Time>, b: Option<Time>) {
    a == b || (a.Some? && b.Some? && exists s :: RoundsUpTo(a.value, s) && RoundsUpTo(b.value, s))
  }

  lemma RoundsUpOnce(t: Time, s: int)
    ensures RoundsUpTo(t, s) <==> s == CeilSeconds(t)
  {
  }

  lemma SameSecondIs(a: Option<Time>, b: Option<Time>)
    ensures SameSecond(a, b) <==> a == b || (a.Some? && b.Some? && CeilSeconds(a.value) == CeilSeconds(b.value))
  {
    if a.Some? && b.Some? {
      RoundsUpOnce(a.value, CeilSeconds(a.value));
      RoundsUpOnce(b.value, CeilSeconds(a.value));
      if s :| RoundsUpTo(a.value, s) && RoundsUpTo(b.value, s) {
        RoundsUpOnce(a.value, s);
        RoundsUpOnce(b.value, s);
      }
    }
  }

  /** The `iat` of a token is the first whole second that is neither before the cut-off nor before the clock's own. */
  lemma IatIs(a: Account, now: Time, s: int)
    ensures a.tokensValidFrom <= s * 1_000 && now < s * 1_000 + 1_000 <==> Issue(a, now).iat <= s
  {
  }

  /** The guard lets a token pass exactly when its second is not before the cut-off. */
  lemma PassesIs(a: Account, token: Token)
    ensures Passes(a, token) <==> a.tokensValidFrom <= token.iat * 1_000
  {
  }

  /** Two accounts of one life: the later one's last change is the earlier one's, or came after the minting. */
  predicate Aged(earlier: Account, later: Account, born: Time, minted: Time, c: Option<Time>, m: Option<Time>) {
    && CutOffFrom(earlier, born, c) && CutOffFrom(later, born, m)
    && (c.Some? ==> c.value <= minted)
    && born <= minted && (m == c || (m.Some? && minted <= m.value))
  }

  /** The guard's comparison, from what the two cut-offs were set by alone. */
  lemma CutOffCompare(earlier: Account, later: Account, born: Time, minted: Time, c: Option<Time>, m: Option<Time>)
    requires Aged(earlier, later, born, minted, c, m)
    ensures Passes(later, Issue(earlier, minted)) <==> SameSecond(c, m)
  {
    SameSecondIs(c, m);
  }

  lemma LifeAges(states: seq<Account>, events: seq<Event>, l: Limits, born: Time, i: nat, j: nat)
    requires LifeOf(states, events, l, born) && i < j <= |events|
    ensures Aged(states[i + 1], states[j], born, events[i].now,
                 LastChange(states, events, l, i + 1), LastChange(states, events, l, j))
  {
    CutOffIs(states, events, l, born, i + 1);
    CutOffIs(states, events, l, born, j);
    LastChangeMoves(states, events, l, i, j - i - 1);
    LastChangeBefore(states, events, l, i);
  }

  lemma MintedIsIssued(states: seq<Account>, events: seq<Event>, l: Limits, i: nat)
    requires IsRun(states, events, l) && i < |events| && Mints(states[i], events[i])
    ensures Minted(states[i], events[i], l) == Issue(states[i + 1], events[i].now)
  {
  }

  /**
   * A token passes the guard's cut-off exactly while the last password change
   * is the one it was minted under, or rounds up to the same second as that one.
   */
  lemma CutOffExactly(states: seq<Account>, events: seq<Event>, l: Limits, born: Time, i: nat, j: nat)
    requires LifeOf(states, events, l, born) && i < j <= |events| && Mints(states[i], events[i])
    ensures Passes(states[j], Minted(states[i], events[i], l)) <==>
            SameSecond(LastChange(states, events, l, i + 1), LastChange(states, events, l, j))
  {
    LifeAges(states, events, l, born, i, j);
    MintedIsIssued(states, events, l, i);
    CutOffCompare(states[i + 1], states[j], born, events[i].now, LastChange(states, events, l, i + 1),
                  LastChange(states, events, l, j));
  }

  lemma RoundedLater(a: Time, b: Time)
    requires a <= b
    ensures CeilSeconds(a) <= CeilSeconds(b) && CeilSeconds(a + SECOND) == CeilSeconds(a) + 1
  {
  }

  /** Password changes at least a second apart. */
  predicate Spaced(states: seq<Account>, events: seq<Event>, l: Limits)
    requires IsRun(states, events, l)
  {
    forall j, k :: 0 <= j < k < |events| && Replaces(states[j], events[j]) && Replaces(states[k], events[k]) ==>
      events[j].now + SECOND <= events[k].now
  }

  predicate NoChange(states: seq<Account>, events: seq<Event>, l: Limits, i: nat, j: nat)
    requires IsRun(states, events, l) && i <= j <= |events|
  {
    forall k :: i <= k < j ==> !Replaces(states[k], events[k])
  }

  lemma {:induction false} SpacedAfter(states: seq<Account>, events: seq<Event>, l: Limits, n: nat, k: nat)
    requires IsRun(states, events, l) && Spaced(states, events, l) && n <= k < |events|
    requires Replaces(states[k], events[k])
    ensures var c := LastChange(states, events, l, n); c.Some? ==> c.value + SECOND <= events[k].now
  {
    if n > 0 && !Replaces(states[n - 1], events[n - 1]) {
      SpacedAfter(states, events, l, n - 1, k);
    }
  }

  /** Times a second apart do not round up to the same second. */
  lemma SecondsApart(a: Time, b: Time)
    requires a + SECOND <= b
    ensures !SameSecond(Some(a), Some(b))
  {
    SameSecondIs(Some(a), Some(b));
    RoundedLater(a + SECOND, b);
    RoundedLater(a, a);
  }

  /** A change after event i moves the cut-off into another second. */
  lemma ChangeMovesSecond(states: seq<Account>, events: seq<Event>, l: Limits, i: nat, k: nat, j: nat)
    requires IsRun(states, events, l) && Spaced(states, events, l) && i < k < j <= |events|
    requires Replaces(states[k], events[k])
    ensures !SameSecond(LastChange(states, events, l, i + 1), LastChange(states, events, l, j))
  {
    var c, m := LastChange(states, events, l, i + 1), LastChange(states, events, l, j);
    SpacedAfter(states, events, l, i + 1, k);
    LaterChange(states, events, l, k, j);
    if c.Some? {
      SecondsApart(c.value, m.value);
    }
  }

  lemma LaterChange(states: seq<Account>, events: seq<Event>, l: Limits, k: nat, j: nat)
    requires IsRun(states, events, l) && k < j <= |events| && Replaces(states[k], events[k])
    ensures var m := LastChange(states, events, l, j); m.Some? && events[k].now <= m.value
  {
    LastChangeMoves(states, events, l, k, j - k - 1);
  }

  lemma {:induction false} Unchanged(states: seq<Account>, events: seq<Event>, l: Limits, i: nat, j: nat)
    requires IsRun(states, events, l) && i <= j <= |events| && NoChange(states, events, l, i, j)
    ensures LastChange(states, events, l, j) == LastChange(states, events, l, i)
    decreases j
  {
    if i < j {
      Unchanged(states, events, l, i, j - 1);
    }
  }

  /**
   * With password changes at least a second apart, exactly the tokens minted
   * since the last change pass, the change's own replacement token included.
   */
  lemma SpacedChangesRetireExactly(states: seq<Account>, events: seq<Event>, l: Limits, born: Time, i: nat, j: nat)
    requires LifeOf(states, events, l, born) && Spaced(states, events, l)
    requires i < j <= |events| && Mints(states[i], events[i])
    ensures Passes(states[j], Minted(states[i], events[i], l)) <==> NoChange(states, events, l, i + 1, j)
  {
    CutOffExactly(states, events, l, born, i, j);
    if NoChange(states, events, l, i + 1, j) {
      Unchanged(states, events, l, i + 1, j);
    } else {
      var k :| i + 1 <= k < j && Replaces(states[k], events[k]);
      ChangeMovesSecond(states, events, l, i, k, j);
    }
  }

  /**
   * Without the spacing the promise fails: two changes at 1.1 s and 1.9 s round
   * up to the same second, and the token of the first survives the second.
   */
  lemma SameSecondChangeKeepsOldToken(l: Limits)
    ensures var events := [ChangePassword(1, 2, 1_100), ChangePassword(2, 3, 1_900)];
            var start := Registered(1, 0);
            var states := [start, Next(start, events[0], l), Next(Next(start, events[0], l), events[1], l)];
            && LifeOf(states, events, l, 0) && Replaces(states[1], events[1])
            && Mints(states[0], events[0]) && Passes(states[2], Minted(states[0], events[0], l))
  {
  }

  // ----- What each call answers and leaves --------------------------------

  /** The lock stands at a time: a locked account admits nobody before it ends. */
  predicate Stands(a: Account, now: Time) {
    a.lockedUntil.Some? && now < a.lockedUntil.value
  }

  /** Over every run: while a lock stands, no password signs in, the right one included, and nothing is counted. */
  lemma LockShutsOut(states: seq<Account>, events: seq<Event>, l: Limits, k: nat)
    requires IsRun(states, events, l) && k < |events| && events[k].SignIn? && Stands(states[k], events[k].now)
    ensures !Mints(states[k], events[k]) && states[k + 1] == states[k]
  {
    var e := events[k];
  }

  /**
   * Over every run: with no lock standing, the right password of an admitted
   * account signs in and clears the counter and the lock; a wrong one counts,
   * and from the limit on locks for the whole lockout; of an account not
   * admitted the right one is refused with nothing counted.
   */
  lemma UnlockedSignIn(states: seq<Account>, events: seq<Event>, l: Limits, k: nat)
    requires IsRun(states, events, l) && k < |events| && events[k].SignIn? && !Stands(states[k], events[k].now)
    ensures var a, e, n := states[k], events[k], states[k + 1];
            && (Mints(a, e) <==> e.password == a.password && e.admitted)
            && n.password == a.password && n.tokensValidFrom == a.tokensValidFrom
            && (e.password == a.password && e.admitted ==> n.failedCount == 0 && n.lockedUntil.None?)
            && (e.password == a.password && !e.admitted ==> n == a)
            && (e.password != a.password ==>
                  && n.failedCount == a.failedCount + 1
                  && n.lockedUntil == if n.failedCount < l.maxAttempts then a.lockedUntil
                                      else Some(e.now + l.lockoutSeconds * 1_000))
  {
    var e := events[k];
  }

  /** What a sign-in answers, in the order the checks are made. */
  lemma SignInAnswers(a: Account, password: Password, admitted: bool, now: Time)
    ensures var v := SignInVerdict(a, password, admitted, now);
            && (v.Locked? <==> Stands(a, now))
            && (v.WrongPassword? <==> !Stands(a, now) && password != a.password)
            && (v.NotAdmitted? <==> !Stands(a, now) && password == a.password && !admitted)
  {
  }

  /** The last password set by a change that gave the current one, or by a reset. */
  function PasswordAfter(first: Password, events: seq<Event>, n: nat): Password
    requires n <= |events|
  {
    if n == 0 then first
    else
      var was := PasswordAfter(first, events, n - 1);
      match events[n - 1]
      case ChangePassword(current, password, _) => if current == was then password else was
      case ResetPassword(password, _) => password
      case _ => was
  }

  /** Over every run the password is that one, and it is replaced exactly when a call changes it or a reset is made. */
  lemma {:induction false} PasswordIs(states: seq<Account>, events: seq<Event>, l: Limits, n: nat)
    requires IsRun(states, events, l) && n < |states|
    ensures states[n].password == PasswordAfter(states[0].password, events, n)
    ensures n < |events| ==>
              var changed := states[n].password != PasswordAfter(states[0].password, events, n + 1);
              && (Replaces(states[n], events[n]) <==> changed || events[n].ResetPassword?)
              && (events[n].ChangePassword? ==> (Mints(states[n], events[n]) <==> changed))
              && (events[n].ResetPassword? ==> !Mints(states[n], events[n]))
              && (events[n].Refresh? ==> Mints(states[n], events[n]))
  {
    if n > 0 {
      PasswordIs(states, events, l, n - 1);
      var e := events[n - 1];
    }
  }

  /** A call that replaces no password and is no sign-in leaves the row as it is; a replacement touches no lock. */
  lemma OtherCallsLeave(a: Account, e: Event, l: Limits)
    requires !e.SignIn?
    ensures var n := Next(a, e, l);
            && n.failedCount == a.failedCount && n.lockedUntil == a.lockedUntil
            && n.tokensValidFrom == if Replaces(a, e) then e.now + 1_000 else a.tokensValidFrom
  {
  }

  // ----- The lockout rate bound -------------------------------------------

  /** A wrong password was really compared with the hash. */
  predicate Evaluated(a: Account, e: Event) {
    e.SignIn? && SignInVerdict(a, e.password, e.admitted, e.now).WrongPassword?
  }

  predicate Succeeds(a: Account, e: Event) {
    e.SignIn? && SignInVerdict(a, e.password, e.admitted, e.now).SignedIn?
  }

  /** The wrong passwords evaluated among events i to i + d. */
  function Guesses(states: seq<Account>, events: seq<Event>, l: Limits, i: nat, d: nat): nat
    requires IsRun(states, events, l) && i + d <= |events|
  {
    if d == 0 then 0
    else Guesses(states, events, l, i, d - 1) + if Evaluated(states[i + d - 1], events[i + d - 1]) then 1 else 0
  }

  predicate NoSuccess(states: seq<Account>, events: seq<Event>, l: Limits, i: nat, d: nat)
    requires IsRun(states, events, l) && i + d <= |events|
  {
    forall k :: i <= k < i + d ==> !Succeeds(states[k], events[k])
  }

  /** Where n guesses since `from` have pushed the lock, the first max of them within one lockout. */
  function LockFloor(l: Limits, n: nat, from: Time): Time {
    from + (n - l.maxAttempts + 1) * Lockout(l)
  }

  /** The account has counted n guesses, and from the max-th on each one pushed the lock a lockout further. */
  predicate Pushed(a: Account, l: Limits, n: nat, from: Time) {
    && a.failedCount >= n
    && (n >= l.maxAttempts ==> a.lockedUntil.Some? && a.lockedUntil.value >= LockFloor(l, n, from))
  }

  lemma GuessStep(a: Account, e: Event, l: Limits, n: nat, from: Time)
    requires Pushed(a, l, n, from) && !Succeeds(a, e) && from <= e.now
    ensures Pushed(Next(a, e, l), l, n + if Evaluated(a, e) then 1 else 0, from)
  {
  }

  lemma {:induction false} GuessesPushTheLock(states: seq<Account>, events: seq<Event>, l: Limits, i: nat, d: nat,
                                              from: Time)
    requires IsRun(states, events, l) && i + d <= |events| && NoSuccess(states, events, l, i, d)
    requires i < |events| ==> from <= events[i].now
    ensures Pushed(states[i + d], l, Guesses(states, events, l, i, d), from)
  {
    if d > 0 {
      GuessesPushTheLock(states, events, l, i, d - 1, from);
      var e := events[i + d - 1];
      assert events[i].now <= e.now;
      GuessStep(states[i + d - 1], e, l, Guesses(states, events, l, i, d - 1), from);
    }
  }

  predicate Within(events: seq<Event>, i: nat, d: nat, from: Time, length: nat)
    requires i + d <= |events|
  {
    forall k :: i <= k < i + d ==> from <= events[k].now <= from + length
  }

  /** As many guesses as a stretch of this length allows. */
  function Allowed(l: Limits, length: nat): int {
    l.maxAttempts + length / Lockout(l)
  }

  /**
   * Without a successful sign-in, the wrong passwords evaluated in any stretch
   * of L milliseconds number at most max + floor(L / lockout).
   */
  lemma {:induction false} LockoutRate(states: seq<Account>, events: seq<Event>, l: Limits, i: nat, d: nat, from: Time,
                                       length: nat)
    requires IsRun(states, events, l) && i + d <= |events| && NoSuccess(states, events, l, i, d)
    requires Within(events, i, d, from, length)
    ensures Guesses(states, events, l, i, d) <= Allowed(l, length)
  {
    if d > 0 {
      LockoutRate(states, events, l, i, d - 1, from, length);
      GuessesPushTheLock(states, events, l, i, d - 1, from);
      GuessFits(states, events, l, i, d - 1, from, length);
    }
  }

  lemma GuessFits(states: seq<Account>, events: seq<Event>, l: Limits, i: nat, d: nat, from: Time, length: nat)
    requires IsRun(states, events, l) && i + d < |events| && events[i + d].now <= from + length
    requires Pushed(states[i + d], l, Guesses(states, events, l, i, d), from)
    requires Guesses(states, events, l, i, d) <= Allowed(l, length)
    ensures Guesses(states, events, l, i, d + 1) <= Allowed(l, length)
  {
    LastGuessFits(states[i + d], events[i + d], l, Guesses(states, events, l, i, d), from, length);
  }

  lemma LastGuessFits(a: Account, e: Event, l: Limits, n: nat, from: Time, length: nat)
    requires Pushed(a, l, n, from)
    requires n <= Allowed(l, length) && e.now <= from + length
    ensures Evaluated(a, e) ==> n + 1 <= Allowed(l, length)
  {
  }

  // The bound is met: a burst of max guesses, then one as each lockout ends.

  /** A run of n wrong guesses and nothing else, the last one at upTo, with the account as they leave it. */
  predicate Attack(states: seq<Account>, events: seq<Event>, l: Limits, n: nat, upTo: nat) {
    && IsRun(states, events, l) && |events| == n
    && Within(events, 0, n, 0, upTo) && NoSuccess(states, events, l, 0, n)
    && Guesses(states, events, l, 0, n) == n
    && states[n].failedCount == n
    && states[n].lockedUntil == (if n >= l.maxAttempts then Some(upTo + Lockout(l)) else None)
  }

  lemma {:induction false} GuessesExtend(states: seq<Account>, events: seq<Event>, l: Limits, s: Account, e: Event,
                                         d: nat)
    requires IsRun(states, events, l) && IsRun(states + [s], events + [e], l) && d <= |events|
    ensures Guesses(states + [s], events + [e], l, 0, d) == Guesses(states, events, l, 0, d)
  {
    if d > 0 {
      GuessesExtend(states, events, l, s, e, d - 1);
      assert (states + [s])[d - 1] == states[d - 1] && (events + [e])[d - 1] == events[d - 1];
    }
  }

  lemma RunExtend(states: seq<Account>, events: seq<Event>, l: Limits, e: Event)
    requires IsRun(states, events, l) && forall k :: 0 <= k < |events| ==> events[k].now <= e.now
    ensures IsRun(states + [Next(states[|events|], e, l)], events + [e], l)
  {
  }

  lemma GuessOnce(states: seq<Account>, events: seq<Event>, l: Limits, n: nat, upTo: nat, now: nat)
    returns (more: seq<Account>, guesses: seq<Event>)
    requires Attack(states, events, l, n, upTo) && upTo <= now && !IsLocked(states[n], now)
    requires n + 1 < l.maxAttempts ==> now == upTo
    ensures Attack(more, guesses, l, n + 1, now)
  {
    var a := states[n];
    var e := SignIn(a.password + 1, true, now);
    more, guesses := states + [Next(a, e, l)], events + [e];
    RunExtend(states, events, l, e);
    GuessesExtend(states, events, l, Next(a, e, l), e, n);
    forall k | 0 <= k < n + 1 ensures !Succeeds(more[k], guesses[k]) && 0 <= guesses[k].now <= now {
      if k < n {
        assert more[k] == states[k] && guesses[k] == events[k];
      }
    }
  }

  lemma {:induction false} Burst(l: Limits, n: nat) returns (states: seq<Account>, events: seq<Event>)
    requires n <= l.maxAttempts
    ensures Attack(states, events, l, n, 0)
  {
    if n == 0 {
      states, events := [Registered(0, 0)], [];
    } else {
      states, events := Burst(l, n - 1);
      states, events := GuessOnce(states, events, l, n - 1, 0, 0);
    }
  }

  /** k lockouts. */
  function Span(l: Limits, k: nat): nat {
    if k == 0 then 0 else Span(l, k - 1) + Lockout(l)
  }

  lemma {:induction false} SpanAllows(l: Limits, k: nat)
    ensures Span(l, k) == k * Lockout(l) && Allowed(l, Span(l, k)) == l.maxAttempts + k
  {
    if k > 0 {
      SpanAllows(l, k - 1);
    }
    QuotientIs(Span(l, k), Lockout(l), k, 0);
  }

  /** For every limit and every k, max + k wrong passwords can be evaluated within k lockouts: the bound is exact. */
  lemma {:induction false} LockoutRateIsReached(l: Limits, k: nat) returns (states: seq<Account>, events: seq<Event>)
    ensures Attack(states, events, l, l.maxAttempts + k, Span(l, k))
    ensures Span(l, k) == k * Lockout(l) && Allowed(l, Span(l, k)) == l.maxAttempts + k
  {
    SpanAllows(l, k);
    if k == 0 {
      states, events := Burst(l, l.maxAttempts);
    } else {
      states, events := LockoutRateIsReached(l, k - 1);
      states, events := GuessOnce(states, events, l, l.maxAttempts + k - 1, Span(l, k - 1), Span(l, k));
    }
  }

  // ----- The row as it is updated -----------------------------------------

  class UserRow {
    var password: Password
    var failedCount: nat
    var lockedUntil: Option<Time>
    var tokensValidFrom: Time
    const limits: Limits

    ghost function Value(): Account
      reads this
    {
      Account(password, failedCount, lockedUntil, tokensValidFrom)
    }

    constructor (limits: Limits, password: Password, now: Time)
      ensures Value() == Registered(password, now) && this.limits == limits
    {
      this.limits := limits;
      this.password := password;
      failedCount := 0;
      lockedUntil := None;
      tokensValidFrom := now;
    }

    method SignInAttempt(attempt: Password, admitted: bool, now: Time)
      returns (result: SignInResult, token: Option<Token>)
      modifies this
      ensures result == SignInVerdict(old(Value()), attempt, admitted, now)
      ensures Value() == Next(old(Value()), SignIn(attempt, admitted, now), limits)
      ensures token == if result.SignedIn?
                       then Some(Minted(old(Value()), SignIn(attempt, admitted, now), limits)) else None
    {
      token := None;
      if lockedUntil.Some? && lockedUntil.value > now { return Locked, None; }
      if attempt != password {
        failedCount := failedCount + 1;
        if failedCount >= limits.maxAttempts {
          lockedUntil := Some(now + limits.lockoutSeconds * SECOND);
        }
        return WrongPassword, None;
      }
      if !admitted { return NotAdmitted, None; }
      failedCount := 0;
      lockedUntil := None;
      var access := IssueToken(now);
      return SignedIn, Some(access);
    }

    method IssueToken(now: Time) returns (token: Token)
      ensures token == Issue(Value(), now)
    {
      var seconds := now / SECOND;
      var issuedAt := CeilSeconds(tokensValidFrom);
      if seconds < issuedAt {
        seconds := issuedAt;
      }
      return Token(seconds);
    }

    method ReplacePassword(current: Password, replacement: Password, now: Time) returns (token: Option<Token>)
      modifies this
      ensures var e := ChangePassword(current, replacement, now);
              && Value() == Next(old(Value()), e, limits)
              && token == if Replaces(old(Value()), e) then Some(Minted(old(Value()), e, limits)) else None
    {
      if current != password || current == replacement { return None; }
      password := replacement;
      tokensValidFrom := now + SECOND;
      var access := IssueToken(now);
      return Some(access);
    }

    method ConfirmReset(replacement: Password, now: Time)
      modifies this
      ensures Value() == Next(old(Value()), ResetPassword(replacement, now), limits)
    {
      password := replacement;
      tokensValidFrom := now + SECOND;
    }
  }
}
