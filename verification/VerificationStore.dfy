/** The session store's methods, statement by statement; each is one transaction, which either
    commits as `VerificationTables` says or leaves every table alone. */
module VerificationStore {
  import opened VerificationTables
  import opened Options

  class VerificationStore {
    var sessions: map<Token, Session>
    var grantOf: map<Token, Secret>
    var challenges: map<Token, Challenge>
    var verifications: map<Token, Verification>
    var consumed: set<Secret>

    ghost function View(): Tables
      reads this
    {
      Tables(sessions, grantOf, challenges, verifications, consumed)
    }

    ghost predicate Valid()
      reads this
    {
      Integrity(View())
    }

    constructor ()
      ensures Valid() && View() == EMPTY
    {
      sessions, grantOf, challenges, verifications, consumed := map[], map[], map[], map[], {};
    }

    /** The expiry of the session that was opened, or nothing. */
    method ConsumeBootstrap(token: Token, page: string, grant: string, secret: Secret, expected: Secret, expires: int,
                            oneTime: bool, now: int) returns (opens: Option<int>)
      requires Valid()
      modifies this`sessions, this`grantOf, this`consumed
      ensures Valid() && View() == Apply(old(View()), Consume(token, page, grant, secret, expected, expires, oneTime, now))
      ensures opens.Some? <==> Opens(old(View()), Consume(token, page, grant, secret, expected, expires, oneTime, now))
      ensures opens.Some? <==>
                && secret != "" && secret == expected && expires > now && token !in old(sessions)
                && (oneTime ==> secret !in old(consumed))
      ensures opens.Some? ==> opens.value == expires && sessions == old(sessions)[token := Session(page, grant, expires)]
      ensures opens.Some? ==> grantOf == old(grantOf)[token := expected] && (oneTime ==> secret in consumed)
      ensures opens.None? ==> View() == old(View())
    {
      TxKeeps(View(), Consume(token, page, grant, secret, expected, expires, oneTime, now));
      if secret == "" || secret != expected {
        return None;
      }
      if expires <= now {
        return None;
      }
      var used := consumed;
      if oneTime {
        if secret in consumed {
          return None;
        }
        used := used + {secret};
      }
      if token in sessions {
        return None;
      }
      sessions := sessions[token := Session(page, grant, expires)];
      grantOf := grantOf[token := expected];
      consumed := used;
      opens := Some(expires);
    }

    /** The grant, expiry and invitation of a live session of the page. */
    method GuestSessionInfo(token: Token, page: string, now: int) returns (info: Option<(string, int, Secret)>)
      requires Valid()
      ensures info.Some? <==> token != "" && token in sessions && sessions[token].page == page && sessions[token].expires > now
      ensures info.Some? ==> token in grantOf && info.value == (sessions[token].grant, sessions[token].expires, grantOf[token])
    {
      assert TokenOk(View(), token);
      if token == "" || token !in sessions || token !in grantOf {
        return None;
      }
      var s := sessions[token];
      if s.page != page || s.expires <= now {
        return None;
      }
      info := Some((s.grant, s.expires, grantOf[token]));
    }

    method IssueGuestChallenge(token: Token, page: string, grant: string, replace: bool, id: string, code: string, now: int)
      returns (reply: IssueReply)
      requires Valid()
      modifies this`challenges
      ensures Valid() && View() == Apply(old(View()), Issue(token, page, grant, replace, id, code, now))
      ensures reply == IssueResult(old(View()), Issue(token, page, grant, replace, id, code, now))
      ensures reply.NoSession? <==>
                !(token in sessions && sessions[token].page == page && sessions[token].grant == grant && sessions[token].expires > now)
      ensures !reply.NoSession? ==>
                (reply.StillValid? <==> token in old(challenges) && Usable(old(challenges)[token], now) && !replace)
      ensures reply.TooSoon? ==> token in old(challenges) && now < old(challenges)[token].sentAt + 60
      ensures reply.Sent? && token in old(challenges) ==>
                old(challenges)[token].sentAt + 60 <= now && (replace || !Usable(old(challenges)[token], now))
      ensures challenges ==
                if reply.Sent? then old(challenges)[token := Challenge(page, grant, id, code, now + 600, 0, now)] else old(challenges)
    {
      TxKeeps(View(), Issue(token, page, grant, replace, id, code, now));
      if token !in sessions || sessions[token].page != page || sessions[token].grant != grant || sessions[token].expires <= now {
        return NoSession;
      }
      if token in challenges {
        var current := challenges[token];
        if current.expires > now && current.attempts < 5 && !replace {
          return StillValid;
        }
        if now - current.sentAt < 60 {
          return TooSoon;
        }
      }
      challenges := challenges[token := Challenge(page, grant, id, code, now + 600, 0, now)];
      reply := Sent;
    }

    /** Only the challenge that was issued is withdrawn, not one that replaced it. */
    method CancelGuestChallenge(token: Token, id: string)
      requires Valid()
      modifies this`challenges
      ensures Valid() && View() == Apply(old(View()), Cancel(token, id))
      ensures token in old(challenges) && old(challenges)[token].id != id ==> challenges == old(challenges)
      ensures token in old(challenges) && old(challenges)[token].id == id ==> challenges == old(challenges) - {token}
    {
      TxKeeps(View(), Cancel(token, id));
      if token in challenges && challenges[token].id == id {
        challenges := challenges - {token};
      }
    }

    /** The attempt is counted before the code is compared, and stays counted when it is wrong. */
    method VerifyGuestChallenge(token: Token, page: string, grant: string, code: string, grantExpiry: int, now: int)
      returns (reply: VerifyReply)
      requires Valid()
      modifies this`challenges, this`verifications
      ensures Valid() && View() == Apply(old(View()), Verify(token, page, grant, code, grantExpiry, now))
      ensures reply == VerifyResult(old(View()), Verify(token, page, grant, code, grantExpiry, now))
      ensures reply.Unavailable? <==>
                !(&& token in sessions && sessions[token].page == page && sessions[token].grant == grant && sessions[token].expires > now
                  && token in old(challenges) && old(challenges)[token].page == page && old(challenges)[token].grant == grant
                  && Usable(old(challenges)[token], now) && grantExpiry > now)
      ensures reply.Unavailable? ==> View() == old(View())
      ensures !reply.Unavailable? ==> (reply.Right? <==> old(challenges)[token].code == code)
      ensures reply.Wrong? ==> verifications == old(verifications) && token in challenges
      ensures reply.Wrong? ==> challenges[token] == old(challenges)[token].(attempts := old(challenges)[token].attempts + 1)
      ensures reply.Right? ==> token !in challenges && verifications == old(verifications)[token := Verification(page, grant, reply.until)]
      ensures reply.Right? ==> now < reply.until <= now + 43200 && reply.until <= sessions[token].expires && reply.until <= grantExpiry
      ensures reply.Right? ==> reply.until in [now + 43200, sessions[token].expires, grantExpiry]
    {
      TxKeeps(View(), Verify(token, page, grant, code, grantExpiry, now));
      if token !in sessions || sessions[token].page != page || sessions[token].grant != grant || sessions[token].expires <= now {
        return Unavailable;
      }
      if token !in challenges || challenges[token].page != page || challenges[token].grant != grant {
        return Unavailable;
      }
      var row := challenges[token];
      if row.expires <= now || row.attempts >= 5 || grantExpiry <= now {
        return Unavailable;
      }
      challenges := challenges[token := row.(attempts := row.attempts + 1)];
      if row.code != code {
        return Wrong;
      }
      var expires := Least(now + 12 * 3600, Least(sessions[token].expires, grantExpiry));
      challenges := challenges - {token};
      verifications := verifications[token := Verification(page, grant, expires)];
      assert challenges == old(challenges) - {token};
      reply := Right(expires);
    }

    method GuestVerifiedUntil(token: Token, page: string, grant: string, now: int) returns (until: Option<int>)
      requires Valid()
      ensures until.Some? <==> token in verifications && verifications[token].expires > now
                               && Of(verifications[token].page, verifications[token].grant, page, grant)
      ensures until.Some? ==> token in sessions && now < until.value == verifications[token].expires <= sessions[token].expires
    {
      assert TokenOk(View(), token);
      if token !in verifications {
        return None;
      }
      var v := verifications[token];
      if v.page != page || v.grant != grant || v.expires <= now {
        return None;
      }
      until := Some(v.expires);
    }

    /** Deletes every row of the grant (see RevocationIsExact). */
    method RevokeGrant(page: string, grant: string)
      requires Valid()
      modifies this`sessions, this`grantOf, this`challenges, this`verifications
      ensures Valid() && View() == Apply(old(View()), Revoke(page, grant))
    {
      TxKeeps(View(), Revoke(page, grant));
      sessions := OtherSessions(sessions, page, grant);
      grantOf := WithSession(grantOf, sessions);
      challenges := OtherChallenges(challenges, page, grant);
      verifications := OtherVerifications(verifications, page, grant);
    }
  }

  /** A revocation takes all of the grant's sessions with their challenges and verifications, and
      nothing that belongs to any other session. */
  lemma RevocationIsExact(t: Tables, page: string, grant: string, k: Token)
    requires Integrity(t)
    ensures var r := Apply(t, Revoke(page, grant));
            if Belongs(t, k, page, grant) then
              k !in r.sessions && k !in r.grantOf && k !in r.challenges && k !in r.verifications
            else
              && (k in r.sessions <==> k in t.sessions) && (k in r.sessions ==> r.sessions[k] == t.sessions[k])
              && (k in r.grantOf <==> k in t.grantOf) && (k in r.grantOf ==> r.grantOf[k] == t.grantOf[k])
              && (k in r.challenges <==> k in t.challenges) && (k in r.challenges ==> r.challenges[k] == t.challenges[k])
              && (k in r.verifications <==> k in t.verifications)
              && (k in r.verifications ==> r.verifications[k] == t.verifications[k])
  {
    assert TokenOk(t, k);
  }
}
