/** The guest broker's session database as transactions on its tables.  Secrets, tokens and codes
    stand for their SHA-256 digests, which are taken to be distinct for distinct values. */
module VerificationTables {

  type Token = string
  type Secret = string

  const ATTEMPTS := 5
  const CODE_SECONDS := 600
  const RESEND_SECONDS := 60
  const VERIFIED_SECONDS := 43200

  datatype Session = Session(page: string, grant: string, expires: int)

  datatype Challenge = Challenge(page: string, grant: string, id: string, code: string, expires: int,
                                 attempts: nat, sentAt: int)

  datatype Verification = Verification(page: string, grant: string, expires: int)

  /** `grantOf` is the invitation secret a session was opened with. */
  datatype Tables = Tables(
    sessions: map<Token, Session>, grantOf: map<Token, Secret>, challenges: map<Token, Challenge>,
    verifications: map<Token, Verification>, consumed: set<Secret>)

  const EMPTY := Tables(map[], map[], map[], map[], {})

  datatype IssueReply = NoSession | StillValid | TooSoon | Sent

  datatype VerifyReply = Unavailable | Wrong | Right(until: int)

  datatype Tx =
    | Consume(token: Token, page: string, grant: string, secret: Secret, expected: Secret, expires: int, oneTime: bool, now: int)
    | Issue(token: Token, page: string, grant: string, replace: bool, id: string, code: string, now: int)
    | Cancel(token: Token, id: string)
    | Verify(token: Token, page: string, grant: string, code: string, grantExpiry: int, now: int)
    | Revoke(page: string, grant: string)

  /** The invitation opens a session: its secret is right, it has not expired and, if it works
      only once, it was never used.  A token that is already taken makes the insert fail. */
  predicate Opens(t: Tables, tx: Tx) {
    && tx.Consume? && tx.secret != "" && tx.secret == tx.expected && tx.expires > tx.now
    && (tx.oneTime ==> tx.secret !in t.consumed) && tx.token !in t.sessions
  }

  predicate Live(t: Tables, token: Token, page: string, grant: string, now: int) {
    && token in t.sessions && t.sessions[token].page == page && t.sessions[token].grant == grant
    && t.sessions[token].expires > now
  }

  /** The code has not expired and was not tried too often. */
  predicate Usable(c: Challenge, now: int) { c.expires > now && c.attempts < ATTEMPTS }

  function IssueResult(t: Tables, tx: Tx): IssueReply
    requires tx.Issue?
  {
    if !Live(t, tx.token, tx.page, tx.grant, tx.now) then NoSession
    else if tx.token !in t.challenges then Sent
    else
      var c := t.challenges[tx.token];
      if c.expires > tx.now && c.attempts < ATTEMPTS && !tx.replace then StillValid
      else if tx.now - c.sentAt < RESEND_SECONDS then TooSoon
      else Sent
  }

  /** The code can be tried at all. */
  predicate Open(t: Tables, tx: Tx)
    requires tx.Verify?
  {
    && Live(t, tx.token, tx.page, tx.grant, tx.now) && tx.token in t.challenges
    && t.challenges[tx.token].page == tx.page && t.challenges[tx.token].grant == tx.grant
    && t.challenges[tx.token].expires > tx.now && t.challenges[tx.token].attempts < ATTEMPTS
    && tx.grantExpiry > tx.now
  }

  function Least(a: int, b: int): int { if a < b then a else b }

  function VerifyResult(t: Tables, tx: Tx): VerifyReply
    requires tx.Verify?
  {
    if !Open(t, tx) then Unavailable
    else if t.challenges[tx.token].code != tx.code then Wrong
    else Right(Least(tx.now + VERIFIED_SECONDS, Least(t.sessions[tx.token].expires, tx.grantExpiry)))
  }

  /** Whether a revocation of the grant deletes the row. */
  predicate Of(page: string, grant: string, p: string, g: string) { page == p && grant == g }

  function OtherSessions(m: map<Token, Session>, page: string, grant: string): map<Token, Session> {
    map k | k in m && !Of(m[k].page, m[k].grant, page, grant) :: m[k]
  }

  function OtherChallenges(m: map<Token, Challenge>, page: string, grant: string): map<Token, Challenge> {
    map k | k in m && !Of(m[k].page, m[k].grant, page, grant) :: m[k]
  }

  function OtherVerifications(m: map<Token, Verification>, page: string, grant: string): map<Token, Verification> {
    map k | k in m && !Of(m[k].page, m[k].grant, page, grant) :: m[k]
  }

  function WithSession(m: map<Token, Secret>, sessions: map<Token, Session>): map<Token, Secret> {
    map k | k in m && k in sessions :: m[k]
  }

  function Revoked(t: Tables, page: string, grant: string): Tables {
    var sessions := OtherSessions(t.sessions, page, grant);
    t.(sessions := sessions, grantOf := WithSession(t.grantOf, sessions),
       challenges := OtherChallenges(t.challenges, page, grant),
       verifications := OtherVerifications(t.verifications, page, grant))
  }

  function Apply(t: Tables, tx: Tx): Tables {
    match tx
    case Consume(token, page, grant, secret, expected, expires, oneTime, now) =>
      if !Opens(t, tx) then t
      else
        t.(sessions := t.sessions[token := Session(page, grant, expires)], grantOf := t.grantOf[token := expected],
           consumed := if oneTime then t.consumed + {secret} else t.consumed)
    case Issue(token, page, grant, replace, id, code, now) =>
      if !IssueResult(t, tx).Sent? then t
      else t.(challenges := t.challenges[token := Challenge(page, grant, id, code, now + CODE_SECONDS, 0, now)])
    case Cancel(token, id) =>
      if token in t.challenges && t.challenges[token].id == id then t.(challenges := t.challenges - {token}) else t
    case Verify(token, page, grant, code, grantExpiry, now) =>
      (match VerifyResult(t, tx)
       case Unavailable => t
       case Wrong => t.(challenges := t.challenges[token := t.challenges[token].(attempts := t.challenges[token].attempts + 1)])
       case Right(until) =>
         t.(challenges := t.challenges - {token}, verifications := t.verifications[token := Verification(page, grant, until)]))
    case Revoke(page, grant) => Revoked(t, page, grant)
  }

  // ---------------------------------------------------------------- integrity

  /** A row for the token belongs to its session. */
  predicate Belongs(t: Tables, k: Token, page: string, grant: string) {
    k in t.sessions && Of(t.sessions[k].page, t.sessions[k].grant, page, grant)
  }

  ghost predicate TokenOk(t: Tables, k: Token) {
    && (k in t.sessions <==> k in t.grantOf)
    && (k in t.challenges ==> Belongs(t, k, t.challenges[k].page, t.challenges[k].grant) && t.challenges[k].attempts <= ATTEMPTS)
    && (k in t.verifications ==> Belongs(t, k, t.verifications[k].page, t.verifications[k].grant))
    && (k in t.verifications ==> t.verifications[k].expires <= t.sessions[k].expires)
  }

  ghost predicate Integrity(t: Tables) { forall k :: TokenOk(t, k) }

  lemma TxKeeps(t: Tables, tx: Tx)
    requires Integrity(t)
    ensures Integrity(Apply(t, tx))
  {
    forall k
      ensures TokenOk(Apply(t, tx), k)
    {
      assert TokenOk(t, k);
    }
  }

  function Execute(t: Tables, txs: seq<Tx>): Tables
    decreases |txs|
  {
    if txs == [] then t else Execute(Apply(t, txs[0]), txs[1..])
  }

  lemma {:induction false} ExecuteKeeps(t: Tables, txs: seq<Tx>)
    requires Integrity(t)
    ensures Integrity(Execute(t, txs))
    decreases |txs|
  {
    if txs != [] {
      TxKeeps(t, txs[0]);
      ExecuteKeeps(Apply(t, txs[0]), txs[1..]);
    }
  }

  /** After any run of transactions: sessions and session grants have the same keys, every
      challenge and verification belongs to a session of the same page and grant, no more than
      five attempts are recorded, and no verification outlives its session. */
  lemma DatabaseIsSound(txs: seq<Tx>, k: Token)
    ensures var t := Execute(EMPTY, txs);
            && t.sessions.Keys == t.grantOf.Keys
            && (k in t.challenges ==> Belongs(t, k, t.challenges[k].page, t.challenges[k].grant))
            && (k in t.challenges ==> t.challenges[k].attempts <= ATTEMPTS)
            && (k in t.verifications ==> Belongs(t, k, t.verifications[k].page, t.verifications[k].grant))
            && (k in t.verifications ==> t.verifications[k].expires <= t.sessions[k].expires)
  {
    ExecuteKeeps(EMPTY, txs);
    var t := Execute(EMPTY, txs);
    assert TokenOk(t, k);
    forall j
      ensures j in t.sessions <==> j in t.grantOf
    {
      assert TokenOk(t, j);
    }
  }

  // ---------------------------------------------------------------- codes do not outlive ten minutes

  ghost predicate CodeOk(t: Tables, k: Token) {
    k in t.challenges ==> t.challenges[k].expires == t.challenges[k].sentAt + 600
  }

  lemma {:induction false} CodesExpire(t: Tables, txs: seq<Tx>, k: Token)
    requires CodeOk(t, k)
    ensures CodeOk(Execute(t, txs), k)
    decreases |txs|
  {
    if txs != [] {
      CodesExpire(Apply(t, txs[0]), txs[1..], k);
    }
  }

  /** In any run, a code that is evaluated, right or wrong, was sent less than ten minutes before, is
      tried for the fifth time at most, and belongs to a session of that page and grant that is live. */
  lemma EvaluatedCodesAreFresh(txs: seq<Tx>, tx: Tx)
    requires tx.Verify? && !VerifyResult(Execute(EMPTY, txs), tx).Unavailable?
    ensures var t := Execute(EMPTY, txs);
            && tx.token in t.challenges && tx.now < t.challenges[tx.token].sentAt + 600
            && t.challenges[tx.token].attempts <= 4
            && tx.token in t.sessions && t.sessions[tx.token].page == tx.page && t.sessions[tx.token].grant == tx.grant
            && t.sessions[tx.token].expires > tx.now && tx.grantExpiry > tx.now
  {
    CodesExpire(EMPTY, txs, tx.token);
  }

  // ---------------------------------------------------------------- one session per one-time invitation

  /** How many sessions a run opens with the secret as a one-time invitation. */
  function Openings(t: Tables, txs: seq<Tx>, secret: Secret): nat
    decreases |txs|
  {
    if txs == [] then 0
    else
      (if Opens(t, txs[0]) && txs[0].oneTime && txs[0].secret == secret then 1 else 0)
      + Openings(Apply(t, txs[0]), txs[1..], secret)
  }

  lemma {:induction false} OneTimeOpensOnce(t: Tables, txs: seq<Tx>, secret: Secret)
    ensures Openings(t, txs, secret) <= if secret in t.consumed then 0 else 1
    decreases |txs|
  {
    if txs != [] {
      OneTimeOpensOnce(Apply(t, txs[0]), txs[1..], secret);
    }
  }

  // ---------------------------------------------------------------- the guess bound

  predicate Timed(tx: Tx) { !tx.Cancel? && !tx.Revoke? }

  /** The transactions' times lie between `lo` and `hi` and do not go back. */
  predicate InOrder(txs: seq<Tx>, lo: int, hi: int)
    decreases |txs|
  {
    if txs == [] then true
    else if Timed(txs[0]) then lo <= txs[0].now <= hi && InOrder(txs[1..], txs[0].now, hi)
    else InOrder(txs[1..], lo, hi)
  }

  predicate Misses(t: Tables, tx: Tx, token: Token) {
    tx.Verify? && tx.token == token && VerifyResult(t, tx).Wrong?
  }

  /** How many wrong codes are evaluated for the session. */
  function WrongCodes(t: Tables, txs: seq<Tx>, token: Token): nat
    decreases |txs|
  {
    if txs == [] then 0
    else (if Misses(t, txs[0], token) then 1 else 0) + WrongCodes(Apply(t, txs[0]), txs[1..], token)
  }

  /** No success, cancellation or revocation ends the session's challenge. */
  predicate Undisturbed(t: Tables, txs: seq<Tx>, token: Token)
    decreases |txs|
  {
    txs != [] ==>
      (token in t.challenges ==> token in Apply(t, txs[0]).challenges) && Undisturbed(Apply(t, txs[0]), txs[1..], token)
  }

  /** Codes that can still be sent from `from` to `hi`, one a minute. */
  function Sendings(from: int, hi: int): nat {
    if from > hi then 0 else (hi - from) / RESEND_SECONDS + 1
  }

  /** Guesses left between `lo` and `hi`: those of the current code and of all later ones. */
  function GuessesLeft(t: Tables, token: Token, lo: int, hi: int): int {
    if token in t.challenges then
      var c := t.challenges[token];
      ATTEMPTS - c.attempts + ATTEMPTS * Sendings(if c.sentAt + RESEND_SECONDS < lo then lo else c.sentAt + RESEND_SECONDS, hi)
    else ATTEMPTS * Sendings(lo, hi)
  }

  lemma SendingsShrink(a: int, b: int, hi: int)
    requires a <= b
    ensures Sendings(b, hi) <= Sendings(a, hi)
    ensures a <= hi ==> Sendings(a, hi) == 1 + Sendings(a + RESEND_SECONDS, hi)
  {
  }

  /** A new code costs a sending. */
  lemma IssueUsesBudget(t: Tables, tx: Tx, token: Token, lo: int, hi: int)
    requires Integrity(t) && tx.Issue? && tx.token == token && IssueResult(t, tx).Sent? && lo <= tx.now <= hi
    ensures GuessesLeft(Apply(t, tx), token, tx.now, hi) <= GuessesLeft(t, token, lo, hi)
  {
    assert TokenOk(t, token);
    var from := lo;
    if token in t.challenges && t.challenges[token].sentAt + RESEND_SECONDS > lo {
      from := t.challenges[token].sentAt + RESEND_SECONDS;
    }
    SendingsShrink(from, tx.now, hi);
    SendingsShrink(tx.now, tx.now + RESEND_SECONDS, hi);
  }

  /** Waiting never adds a guess, and a wrong code uses one. */
  lemma TimeUsesBudget(t: Tables, token: Token, lo: int, from: int, hi: int)
    requires lo <= from
    ensures GuessesLeft(t, token, from, hi) <= GuessesLeft(t, token, lo, hi)
  {
    SendingsShrink(lo, from, hi);
    if token in t.challenges {
      var sent := t.challenges[token].sentAt + RESEND_SECONDS;
      SendingsShrink(if sent < lo then lo else sent, if sent < from then from else sent, hi);
    }
  }

  /** One transaction uses up at least the guess it evaluates. */
  lemma GuessUsesBudget(t: Tables, tx: Tx, token: Token, lo: int, hi: int)
    requires Integrity(t) && (token in t.challenges ==> token in Apply(t, tx).challenges)
    requires Timed(tx) ==> lo <= tx.now <= hi
    ensures (if Misses(t, tx, token) then 1 else 0) + GuessesLeft(Apply(t, tx), token, if Timed(tx) then tx.now else lo, hi) <= GuessesLeft(t, token, lo, hi)
  {
    TimeUsesBudget(t, token, lo, if Timed(tx) then tx.now else lo, hi);
    if tx.Issue? && tx.token == token && IssueResult(t, tx).Sent? {
      IssueUsesBudget(t, tx, token, lo, hi);
    }
  }

  lemma {:induction false} WrongCodesWithinBudget(t: Tables, txs: seq<Tx>, token: Token, lo: int, hi: int)
    requires Integrity(t) && InOrder(txs, lo, hi) && Undisturbed(t, txs, token)
    ensures WrongCodes(t, txs, token) <= GuessesLeft(t, token, lo, hi)
    decreases |txs|
  {
    if txs == [] {
      assert TokenOk(t, token);
    } else {
      GuessUsesBudget(t, txs[0], token, lo, hi);
      TxKeeps(t, txs[0]);
      WrongCodesWithinBudget(Apply(t, txs[0]), txs[1..], token, if Timed(txs[0]) then txs[0].now else lo, hi);
    }
  }

  lemma BoundFrom(t: Tables, txs: seq<Tx>, token: Token, lo: int, seconds: nat)
    requires Integrity(t) && InOrder(txs, lo, lo + seconds) && Undisturbed(t, txs, token)
    ensures WrongCodes(t, txs, token) <= ATTEMPTS * (seconds / RESEND_SECONDS + 2)
  {
    WrongCodesWithinBudget(t, txs, token, lo, lo + seconds);
    assert TokenOk(t, token);
    if token in t.challenges {
      var sent := t.challenges[token].sentAt + RESEND_SECONDS;
      SendingsShrink(lo, if sent < lo then lo else sent, lo + seconds);
    }
  }

  /** In any `seconds` during which nothing ends a session's challenge, at most five wrong codes
      are evaluated for every full minute and ten more. */
  lemma GuessesAreBounded(before: seq<Tx>, txs: seq<Tx>, token: Token, lo: int, seconds: nat)
    requires InOrder(txs, lo, lo + seconds) && Undisturbed(Execute(EMPTY, before), txs, token)
    ensures WrongCodes(Execute(EMPTY, before), txs, token) <= ATTEMPTS * (seconds / RESEND_SECONDS + 2)
  {
    ExecuteKeeps(EMPTY, before);
    BoundFrom(Execute(EMPTY, before), txs, token, lo, seconds);
  }

  // ---------------------------------------------------------------- a guest who guesses

  /** A one-time invitation for an hour is used, a code is sent, and it is tried six times. */
  function Guessing(): seq<Tx> {
    [Consume("t", "home", "g", "s", "s", 3600, true, 0), Issue("t", "home", "g", false, "id", "111111", 0)] + Misguided(6)
  }

  function Misguided(n: nat): seq<Tx> {
    if n == 0 then [] else [Verify("t", "home", "g", "222222", 3600, 0)] + Misguided(n - 1)
  }

  /** The tables after the code was sent and `n` wrong guesses were evaluated. */
  function Guessed(n: nat): Tables {
    EMPTY.(sessions := map["t" := Session("home", "g", 3600)], grantOf := map["t" := "s"], consumed := {"s"},
           challenges := map["t" := Challenge("home", "g", "id", "111111", 600, n, 0)])
  }

  lemma {:induction false} GuessesFrom(n: nat, m: nat)
    requires n <= 5
    ensures WrongCodes(Guessed(n), Misguided(m), "t") == if n + m <= 5 then m else 5 - n
    ensures Execute(Guessed(n), Misguided(m)) == Guessed(if n + m <= 5 then n + m else 5)
    ensures Openings(Guessed(n), Misguided(m), "s") == 0
    decreases m
  {
    if m > 0 {
      var tx := Verify("t", "home", "g", "222222", 3600, 0);
      assert Misguided(m)[0] == tx && Misguided(m)[1..] == Misguided(m - 1);
      assert Apply(Guessed(n), tx) == Guessed(if n < 5 then n + 1 else 5);
      GuessesFrom(if n < 5 then n + 1 else 5, m - 1);
    }
  }

  function AfterEntry(): Tables {
    EMPTY.(sessions := map["t" := Session("home", "g", 3600)], grantOf := map["t" := "s"], consumed := {"s"})
  }

  lemma GuessingEnters()
    ensures Opens(EMPTY, Guessing()[0]) && Guessing()[0].oneTime && Guessing()[0].secret == "s"
    ensures Apply(EMPTY, Guessing()[0]) == AfterEntry() && !Misses(EMPTY, Guessing()[0], "t")
  {
  }

  lemma GuessingIsSentACode()
    ensures Guessing()[1].Issue? && Apply(AfterEntry(), Guessing()[1]) == Guessed(0)
  {
  }

  /** Five of the guesses are evaluated and the sixth is not, and the invitation was used once: the
      bounds on both are attained. */
  lemma SixthGuessIsNotEvaluated()
    ensures Openings(EMPTY, Guessing(), "s") == 1
    ensures WrongCodes(EMPTY, Guessing(), "t") == 5 && Execute(EMPTY, Guessing()) == Guessed(5)
  {
    var txs := Guessing();
    GuessingEnters();
    GuessingIsSentACode();
    assert txs[1..][0] == txs[1] && txs[1..][1..] == Misguided(6);
    GuessesFrom(0, 6);
  }
}
