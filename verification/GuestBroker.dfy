/** The guest broker's requests, read by read.  Between any two reads other requests, the
    administrator and the clock may do anything, which `Others` stands for. */
module GuestBroker {
  import opened VerificationTables
  import opened GuestAuthority
  import opened Options

  datatype CodeRequest = Unauthorized | NotIssued(reason: IssueReply) | Undelivered | Delivered

  /** Which states a request for a code looked at: for its context, when it stored the code, and for
      the context after the delivery. */
  datatype CodeTrail = CodeTrail(seen: Seen, known: nat, stored: nat, again: Seen, still: nat)

  predicate Leaves(t: CodeTrail, start: nat, n: nat) {
    && start <= t.seen.session && Within(t.seen, n) && t.seen.code <= t.known <= t.stored <= t.still < n
    && start <= t.again.session && Within(t.again, n)
  }

  function Issuing(token: Token, page: string, grant: string, replace: bool, id: string, code: string, now: int): (tx: Tx)
    ensures tx.Issue?
  {
    Issue(token, page, grant, replace, id, code, now)
  }

  lemma ContextLater(worlds: seq<World>, worlds': seq<World>, s: Seen, k: nat, guest: Guest)
    requires worlds <= worlds' && Within(s, |worlds|) && k < |worlds|
    ensures ContextAt(worlds', s, k, guest) == ContextAt(worlds, s, k, guest)
  {
    StatusLater(worlds, worlds', s, guest);
    assert worlds'[k] == worlds[k];
  }

  class GuestBroker {
    const curated: (string, string) -> bool
    var tables: Tables
    var grants: map<string, seq<GuestGrant>>
    var policies: map<string, Policy>
    var clock: int
    ghost var worlds: seq<World>
    ghost var acts: seq<Act>

    ghost predicate Valid()
      reads this
    {
      && |worlds| == |acts| + 1 && Recorded(curated, worlds, acts)
      && worlds[|acts|] == World(tables, grants, policies, clock)
    }

    constructor (curated: (string, string) -> bool)
      ensures Valid() && acts == [] && this.curated == curated
    {
      this.curated := curated;
      tables, grants, policies, clock := EMPTY, map[], map[], 0;
      worlds, acts := [START], [];
    }

    /** Whatever else happens meanwhile: nothing but more history. */
    method Others()
      requires Valid()
      modifies this`tables, this`grants, this`policies, this`clock, this`worlds, this`acts
      ensures Valid() && Longer(old(worlds), old(acts)) && clock >= old(clock)
    {
    }

    ghost predicate Longer(before: seq<World>, done: seq<Act>)
      reads this`worlds, this`acts
    {
      before <= worlds && done <= acts
    }

    ghost method Do(act: Act)
      requires |worlds| == |acts| + 1 && Recorded(curated, worlds, acts) && Can(worlds[|acts|], act) && !act.Dispatch?
      modifies this`worlds, this`acts
      ensures |worlds| == |acts| + 1 && Recorded(curated, worlds, acts) && Longer(old(worlds), old(acts))
      ensures acts == old(acts) + [act] && worlds[|acts|] == Perform(old(worlds)[|old(acts)|], act)
    {
      RecordedAppend(curated, worlds, acts, act);
      worlds, acts := worlds + [Perform(worlds[|acts|], act)], acts + [act];
    }

    /** Every service call there has been is explained by what came before it. */
    lemma EveryDispatchIsExplained(n: nat)
      returns (entry: nat, code: nat, g: GuestGrant, session: Session, v: Verification, c: Checks)
      requires Valid() && n < |acts| && acts[n].Dispatch?
      ensures ExplainedBy(curated, worlds, acts, n, entry, code, g, session, v, c)
    {
      assert History(worlds, acts);
      entry, code, g, session, v, c := DispatchIsExplained(curated, worlds, acts, n);
    }

    method Transact(tx: Tx)
      requires Valid() && (Timed(tx) ==> tx.now == clock)
      modifies this`tables, this`worlds, this`acts
      ensures Valid() && Longer(old(worlds), old(acts)) && tables == VerificationTables.Apply(old(tables), tx)
      ensures acts == old(acts) + [Store(tx)] && |worlds| > |old(acts)| && worlds[|old(acts)|].tables == old(tables)
    {
      Do(Store(tx));
      tables := VerificationTables.Apply(tables, tx);
    }

    /** _current_guest_grant, as of now. */
    function Current(page: string, grant: string): Option<GuestGrant>
      reads this
    {
      CurrentGrant(World(tables, grants, policies, clock), page, grant)
    }

    /** What the session alone shows: the secret it was opened with and its expiry. */
    method SessionInfo(page: string, grant: string, token: Token) returns (info: Option<(Secret, int)>)
      requires Valid()
      ensures info.Some? <==> token != "" && Live(tables, token, page, grant, clock) && token in tables.grantOf
      ensures info.Some? ==> info.value == (tables.grantOf[token], tables.sessions[token].expires)
    {
      if token == "" || token !in tables.sessions || token !in tables.grantOf {
        return None;
      }
      var s := tables.sessions[token];
      if s.page != page || s.expires <= clock || s.grant != grant {
        return None;
      }
      info := Some((tables.grantOf[token], s.expires));
    }

    /** _guest_session_status: four reads, each of its own state, and exactly what follows from them. */
    method SessionStatus(guest: Guest) returns (status: Option<Status>, ghost seen: Seen)
      requires Valid()
      modifies this`tables, this`grants, this`policies, this`clock, this`worlds, this`acts
      ensures Valid() && Longer(old(worlds), old(acts)) && clock >= old(clock)
      ensures |old(acts)| <= seen.session && Within(seen, |worlds|)
      ensures status == StatusAt(worlds, seen, guest)
    {
      var Guest(token, page, grant) := guest;
      seen := Seen(|acts|, |acts|, |acts|, |acts|);
      var info := SessionInfo(page, grant, token);
      if info.None? {
        return None, seen;
      }
      ghost var a := World(tables, grants, policies, clock);
      assert worlds[seen.session] == a;
      Others();
      assert worlds[seen.session] == a;
      seen := Seen(seen.session, |acts|, |acts|, |acts|);
      var current := Current(page, grant);
      if current.None? || current.value.secret != info.value.0 {
        return None, seen;
      }
      var g := current.value;
      var expires := Least(info.value.1, g.expiry);
      ghost var b := World(tables, grants, policies, clock);
      Others();
      assert worlds[seen.session] == a && worlds[seen.grant] == b;
      seen := Seen(seen.session, seen.grant, |acts|, |acts|);
      if expires <= clock {
        return None, seen;
      }
      if !g.verificationRequired {
        return Some(Status(expires, true)), seen;
      }
      ghost var c := World(tables, grants, policies, clock);
      Others();
      assert worlds[seen.session] == a && worlds[seen.grant] == b && worlds[seen.time] == c;
      seen := seen.(code := |acts|);
      var until := VerifiedUntil(page, grant, token);
      status := Some(if until.Some? then Status(Least(expires, until.value), true) else Status(expires, false));
    }

    method VerifiedUntil(page: string, grant: string, token: Token) returns (until: Option<int>)
      requires Valid()
      ensures until == LiveVerification(World(tables, grants, policies, clock), token, page, grant)
    {
      if token !in tables.verifications || !Of(tables.verifications[token].page, tables.verifications[token].grant, page, grant) {
        return None;
      }
      until := if tables.verifications[token].expires > clock then Some(tables.verifications[token].expires) else None;
    }

    /** The first half of an action: everything that may block.  What comes of it is exactly what
        the policy published when it began and the answers make of the request. */
    method Prepare(guest: Guest, resourceId: string, actionId: string, supplied: string, answers: Answers, ghost first: Seen)
      returns (p: Prepared, ghost c: Checks)
      requires Valid() && Within(first, |worlds|) && WasReady(worlds, first, guest)
      modifies this`tables, this`grants, this`policies, this`clock, this`worlds, this`acts
      ensures Valid() && Longer(old(worlds), old(acts)) && clock >= old(clock)
      ensures p == PreparedFrom(curated, old(World(tables, grants, policies, clock)), guest.page, resourceId, actionId, supplied, answers)
      ensures p.Prepared? ==> c.first == first && Established(c, guest, supplied, p)
    {
      c := Checks(first, 0, 0, 0);
      if guest.page !in policies {
        return NotReady(NotPermitted), c;
      }
      var found := ResourceAction(curated, policies[guest.page], resourceId, actionId);
      var near := policies[guest.page].proximity;
      if found.None? {
        return NotReady(NotPermitted), c;
      }
      var (r, a) := found.value;
      var within;
      within, c := CheckProximity(guest, near, answers, c);
      if !within {
        return NotReady(TooFar), c;
      }
      p, c := ValidateParameters(guest, r, a, near, supplied, answers, c);
    }

    /** The proximity query, if the policy asks for one. */
    method CheckProximity(guest: Guest, near: Proximity, answers: Answers, ghost c: Checks) returns (within: bool, ghost c': Checks)
      requires Valid() && Within(c.first, |worlds|) && WasReady(worlds, c.first, guest)
      modifies this`tables, this`grants, this`policies, this`clock, this`worlds, this`acts
      ensures Valid() && Longer(old(worlds), old(acts)) && clock >= old(clock)
      ensures within <==> !near.enabled || answers.near(near)
      ensures c'.first == c.first && Within(c.first, |worlds|) && WasReady(worlds, c.first, guest)
      ensures within && near.enabled ==> c.first.code <= c'.near < |acts| && acts[c'.near] == FoundNear(guest, near)
    {
      Others();
      within, c' := !near.enabled || answers.near(near), c.(near := |acts|);
      if within && near.enabled {
        Do(FoundNear(guest, near));
      }
      StatusLater(old(worlds), worlds, c.first, guest);
    }

    /** The validation against the entity's live state. */
    method ValidateParameters(guest: Guest, r: Resource, a: Action, near: Proximity, supplied: string, answers: Answers, ghost c: Checks)
      returns (p: Prepared, ghost c': Checks)
      requires Valid() && Within(c.first, |worlds|) && WasReady(worlds, c.first, guest)
      requires near.enabled ==> c.first.code <= c.near < |acts| && acts[c.near] == FoundNear(guest, near)
      modifies this`tables, this`grants, this`policies, this`clock, this`worlds, this`acts
      ensures Valid() && Longer(old(worlds), old(acts)) && clock >= old(clock)
      ensures var data := answers.validate(r, a, supplied);
              p == if data.None? then NotReady(Invalid) else Prepared(r, a, near, data.value)
      ensures p.Prepared? ==> c'.first == c.first && Established(c', guest, supplied, p)
    {
      Others();
      var data := answers.validate(r, a, supplied);
      c' := c.(validated := |acts|);
      if data.None? {
        return NotReady(Invalid), c';
      }
      Do(Validated(guest, r, a, supplied, data.value));
      p := Prepared(r, a, near, data.value);
      Others();
      StatusLater(old(worlds), worlds, c.first, guest);
    }

    /** The checks are part of the history, made for this guest after it was found ready. */
    ghost predicate Established(c: Checks, guest: Guest, supplied: string, p: Prepared)
      requires p.Prepared?
      reads this`acts, this`worlds
    {
      && Within(c.first, |worlds|) && WasReady(worlds, c.first, guest)
      && c.first.code <= c.validated < |acts| && acts[c.validated] == Validated(guest, p.resource, p.action, supplied, p.data)
      && (p.proximity.enabled ==> c.first.code <= c.near < c.validated && acts[c.near] == FoundNear(guest, p.proximity))
    }

    /** The policy is looked at again. */
    method Recheck(p: Prepared, ghost c: Checks, d: Act) returns (end: ActionEnd)
      requires Valid() && p.Prepared? && d.Dispatch? && Established(c, d.guest, d.supplied, p)
      requires d.resource == p.resource && d.action == p.action && d.data == p.data
      ensures end == Rechecked(curated, World(tables, grants, policies, clock), d.guest.page, p.resource, p.action, p.proximity)
      ensures end.Done? ==> Checked(curated, worlds, acts, c.(policy := |acts|), d)
      ensures !end.Failed?
    {
      if d.guest.page !in policies {
        return NotPermitted;
      }
      var now := policies[d.guest.page];
      var found := ResourceAction(curated, now, p.resource.id, p.action.id);
      if found.None? {
        return NotPermitted;
      }
      end := if found.value != (p.resource, p.action) || now.proximity != p.proximity then Denied else Done;
    }

    /** The service call itself, refused once the deadline has passed. */
    method Send(d: Act, status: Status, ghost c: Checks, ghost seen: Seen, served: bool) returns (end: ActionEnd)
      requires Valid() && d.Dispatch? && status.ready
      requires Checked(curated, worlds, acts, c, d) && c.policy <= seen.session
      requires Backed(worlds, seen, d.guest, status)
      modifies this`worlds, this`acts
      ensures Valid() && Longer(old(worlds), old(acts))
      ensures end == if status.expires <= clock then Expired else if served then Done else Failed
      ensures acts == if end.Expired? then old(acts) else old(acts) + [d]
    {
      if status.expires <= clock {
        return Expired;
      }
      RecordedDispatch(curated, worlds, acts, d, c, seen, status);
      worlds, acts := worlds + [Perform(worlds[|acts|], d)], acts + [d];
      end := if served then Done else Failed;
    }

    /** _guest_action: how it ends is exactly what the states along its trail and the answers
        show; if it reached Home Assistant, the last act is its dispatch, of the data that was
        validated in this request. */
    method GuestAction(guest: Guest, resourceId: string, actionId: string, supplied: string, answers: Answers)
      returns (end: ActionEnd, ghost t: Trail)
      requires Valid()
      modifies this`tables, this`grants, this`policies, this`clock, this`worlds, this`acts
      ensures Valid() && Longer(old(worlds), old(acts))
      ensures |old(acts)| <= t.before.session && Follows(t, |worlds|)
      ensures end == ActionResult(curated, worlds, t, guest, resourceId, actionId, supplied, answers)
      ensures end.Done? || end.Failed? ==> Sent(t, guest, resourceId, actionId, supplied, answers)
    {
      var status;
      ghost var seen;
      status, seen := SessionStatus(guest);
      t := Trail(seen, |acts|, |acts|, Seen(|acts|, |acts|, |acts|, |acts|), |acts|);
      if status.None? {
        return Denied, t;
      }
      if !status.value.ready {
        return Forbidden, t;
      }
      if !answers.withinRate {
        return RateLimited, t;
      }
      label Known:
      Others();
      StatusLater(old@Known(worlds), worlds, seen, guest);
      label Ready:
      end, t := Proceed(guest, resourceId, actionId, supplied, answers, seen);
      StatusLater(old@Ready(worlds), worlds, seen, guest);
    }

    /** In any part of the history in which nothing ends a session's challenge, at most five wrong
        codes are evaluated for every full minute and ten more. */
    lemma GuessesAreBounded(i: nat, j: nat, token: Token)
      requires Valid() && i <= j <= |acts| && ChallengeStays(worlds, i, j, token)
      ensures WrongGuesses(worlds, acts, i, j, token) <= 5 * ((worlds[j].now - worlds[i].now) / 60 + 2)
    {
      assert History(worlds, acts);
      HistoryBoundsGuesses(worlds, acts, i, j, token);
    }

    ghost predicate LastAct(d: Act)
      reads this`acts
    {
      acts != [] && acts[|acts| - 1] == d
    }

    /** The request's own service call is the last thing that happened: the resource and action it
        asked for, with the data this request's own validation produced. */
    ghost predicate Sent(t: Trail, guest: Guest, resourceId: string, actionId: string, supplied: string, answers: Answers)
      requires t.policy < |worlds|
      reads this`worlds, this`acts
    {
      var p := PreparedFrom(curated, worlds[t.policy], guest.page, resourceId, actionId, supplied, answers);
      p.Prepared? && LastAct(Dispatch(guest, p.resource, p.action, supplied, p.data))
    }

    /** The action of a guest whose status was found ready. */
    method Proceed(guest: Guest, resourceId: string, actionId: string, supplied: string, answers: Answers, ghost seen: Seen)
      returns (end: ActionEnd, ghost t: Trail)
      requires Valid() && Within(seen, |worlds|) && WasReady(worlds, seen, guest)
      modifies this`tables, this`grants, this`policies, this`clock, this`worlds, this`acts
      ensures Valid() && Longer(old(worlds), old(acts)) && Follows(t, |worlds|) && t.before == seen
      ensures end == ReadyResult(curated, worlds, t, guest, resourceId, actionId, supplied, answers)
      ensures end.Done? || end.Failed? ==> Sent(t, guest, resourceId, actionId, supplied, answers)
    {
      ghost var policy := |acts|;
      ghost var w := worlds[policy];
      var p;
      ghost var c;
      p, c := Prepare(guest, resourceId, actionId, supplied, answers, seen);
      assert worlds[policy] == w;
      t := Trail(seen, policy, |acts|, Seen(|acts|, |acts|, |acts|, |acts|), |acts|);
      if p.NotReady? {
        return p.end, t;
      }
      end, t := Finish(Dispatch(guest, p.resource, p.action, supplied, p.data), p, c, answers.served, seen, policy);
      assert worlds[policy] == w;
    }

    /** Everything from the second look at the policy on. */
    method Finish(d: Act, p: Prepared, ghost c: Checks, served: bool, ghost seen: Seen, ghost policy: nat)
      returns (end: ActionEnd, ghost t: Trail)
      requires Valid() && d.Dispatch? && p.Prepared? && Established(c, d.guest, d.supplied, p)
      requires d.resource == p.resource && d.action == p.action && d.data == p.data
      requires Within(seen, |worlds|) && seen.code <= policy <= |acts|
      modifies this`tables, this`grants, this`policies, this`clock, this`worlds, this`acts
      ensures Valid() && Longer(old(worlds), old(acts)) && Follows(t, |worlds|) && t.before == seen && t.policy == policy
      ensures end == FinalResult(curated, worlds, t, d.guest, p, served)
      ensures end.Done? || end.Failed? ==> LastAct(d)
    {
      end := Recheck(p, c, d);
      t := Trail(seen, policy, |acts|, Seen(|acts|, |acts|, |acts|, |acts|), |acts|);
      if !end.Done? {
        return;
      }
      ghost var again, w := |acts|, worlds[|acts|];
      ghost var checks := c.(policy := again);
      ghost var after, call;
      end, after, call := Settle(d, checks, served);
      t := Trail(seen, policy, again, after, call);
      assert worlds[again] == w;
    }

    /** The status again, some time after the checks. */
    method StatusAfterChecks(d: Act, ghost c: Checks) returns (status: Option<Status>, ghost after: Seen)
      requires Valid() && d.Dispatch? && Checked(curated, worlds, acts, c, d)
      modifies this`tables, this`grants, this`policies, this`clock, this`worlds, this`acts
      ensures Valid() && Longer(old(worlds), old(acts)) && Checked(curated, worlds, acts, c, d)
      ensures |old(acts)| <= after.session && Within(after, |worlds|)
      ensures status == StatusAt(worlds, after, d.guest)
    {
      Others();
      status, after := SessionStatus(d.guest);
      CheckedLater(curated, old(worlds), old(acts), worlds, acts, c, d);
    }

    /** The last look at the guest's status, and the call. */
    method Settle(d: Act, ghost c: Checks, served: bool) returns (end: ActionEnd, ghost after: Seen, ghost call: nat)
      requires Valid() && d.Dispatch? && Checked(curated, worlds, acts, c, d)
      modifies this`tables, this`grants, this`policies, this`clock, this`worlds, this`acts
      ensures Valid() && Longer(old(worlds), old(acts))
      ensures |old(acts)| <= after.session && Within(after, |worlds|) && after.code <= call < |worlds|
      ensures var status := StatusAt(worlds, after, d.guest);
              end == if status.None? || !status.value.ready then Denied
                     else if status.value.expires <= worlds[call].now then Expired else if served then Done else Failed
      ensures end.Done? || end.Failed? ==> LastAct(d)
    {
      var status;
      status, after := StatusAfterChecks(d, c);
      call := |acts|;
      if status.None? || !status.value.ready {
        return Denied, after, call;
      }
      StatusIsBacked(worlds, after, d.guest);
      label Known:
      end, call := SendLater(d, status.value, c, after, served);
      StatusLater(old@Known(worlds), worlds, after, d.guest);
    }

    /** The call, some time after the status was read. */
    method SendLater(d: Act, status: Status, ghost c: Checks, ghost seen: Seen, served: bool) returns (end: ActionEnd, ghost call: nat)
      requires Valid() && d.Dispatch? && status.ready
      requires Checked(curated, worlds, acts, c, d) && c.policy <= seen.session
      requires Backed(worlds, seen, d.guest, status)
      modifies this`tables, this`grants, this`policies, this`clock, this`worlds, this`acts
      ensures Valid() && Longer(old(worlds), old(acts)) && |old(acts)| <= call < |worlds|
      ensures end == if status.expires <= worlds[call].now then Expired else if served then Done else Failed
      ensures end.Done? || end.Failed? ==> LastAct(d)
    {
      Others();
      CheckedLater(curated, old(worlds), old(acts), worlds, acts, c, d);
      BackedLater(old(worlds), worlds, seen, d, status);
      call := |acts|;
      ghost var w := worlds[call];
      end := Send(d, status, c, seen, served);
      assert worlds[call] == w;
    }

    // -------------------------------------------------------------- sessions and codes

    /** _exchange_guest_bootstrap: a session is handed out exactly if the grant had the secret,
        the exchange in state `o` opened one, and the grant still had the secret in state `r`;
        if only the last fails, all of the grant's sessions go. */
    method Exchange(page: string, grant: string, secret: Secret, token: Token, withinRate: bool)
      returns (session: Option<Status>, ghost o: nat, ghost r: nat, ghost q: nat)
      requires Valid()
      modifies this`tables, this`grants, this`policies, this`clock, this`worlds, this`acts
      ensures Valid() && Longer(old(worlds), old(acts)) && |old(acts)| <= o <= r < |worlds|
      ensures session.Some? <==>
                && old(Current(page, grant)).Some? && secret != "" && old(Current(page, grant)).value.secret == secret && withinRate
                && Opens(worlds[o].tables, Exchanging(worlds[o], old(Current(page, grant)).value, page, secret, token))
                && Holds(worlds[r], page, grant, secret)
      ensures session.Some? ==> OpenedAt(worlds, acts, o, token, Session(page, grant, old(Current(page, grant)).value.expiry), secret)
      ensures session.Some? ==> r <= q < |worlds|
      ensures session.Some? ==>
                Entered(session.value, old(Current(page, grant)).value.expiry, CurrentGrant(worlds[r], page, grant).value, worlds[q], token, page)
    {
      session, o, r, q := None, |acts|, |acts|, |acts|;
      var before := Current(page, grant);
      if before.None? || secret == "" || before.value.secret != secret || !withinRate {
        return;
      }
      var g := before.value;
      Others();
      o, r := |acts|, |acts|;
      var tx := Consume(token, page, grant, secret, g.secret, g.expiry, g.oneTime, clock);
      if !Opens(tables, tx) {
        return;
      }
      Transact(tx);
      label Exchanged:
      ghost var w := worlds[o];
      session, r, q := Confirm(page, grant, g, token, o, Session(page, grant, g.expiry));
      assert worlds[o] == w;
    }

    /** The second half: the grant is looked at again, in state `r`, and the verification in `q`. */
    method Confirm(page: string, grant: string, g: GuestGrant, token: Token, ghost o: nat, ghost s: Session)
      returns (session: Option<Status>, ghost r: nat, ghost q: nat)
      requires Valid() && OpenedAt(worlds, acts, o, token, s, g.secret)
      modifies this`tables, this`grants, this`policies, this`clock, this`worlds, this`acts
      ensures Valid() && Longer(old(worlds), old(acts)) && OpenedAt(worlds, acts, o, token, s, g.secret)
      ensures |old(acts)| <= r <= q < |worlds| && (session.Some? <==> Holds(worlds[r], page, grant, g.secret))
      ensures session.Some? ==> Entered(session.value, g.expiry, CurrentGrant(worlds[r], page, grant).value, worlds[q], token, page)
      ensures session.None? ==> forall k :: k in tables.sessions ==> !Of(tables.sessions[k].page, tables.sessions[k].grant, page, grant)
    {
      Others();
      assert worlds[o] == old(worlds)[o] && acts[o] == old(acts)[o];
      r, q := |acts|, |acts|;
      var after := Current(page, grant);
      ghost var w := worlds[r];
      if after.None? || after.value.secret != g.secret {
        Transact(Revoke(page, grant));
        assert worlds[r] == w;
        return None, r, q;
      }
      Others();
      assert worlds[r] == w && worlds[o] == old(worlds)[o] && acts[o] == old(acts)[o];
      q := |acts|;
      var until := VerifiedUntil(page, grant, token);
      var expires := Least(g.expiry, after.value.expiry);
      if after.value.verificationRequired {
        session := Some(Status(if until.Some? then Least(expires, until.value) else expires, until.Some?));
      } else {
        session := Some(Status(expires, true));
      }
    }

    /** _verified_guest_context: the grant's expiry, for a live session of a grant that asks for a
        code. */
    method VerifiedContext(page: string, grant: string, token: Token) returns (expiry: Option<int>, ghost seen: Seen)
      requires Valid()
      modifies this`tables, this`grants, this`policies, this`clock, this`worlds, this`acts
      ensures Valid() && Longer(old(worlds), old(acts)) && clock >= old(clock)
      ensures |old(acts)| <= seen.session && Within(seen, |worlds|)
      ensures seen.code <= |acts| && expiry == ContextAt(worlds, seen, |acts|, Guest(token, page, grant))
    {
      var status;
      status, seen := SessionStatus(Guest(token, page, grant));
      label Known:
      Others();
      StatusLater(old@Known(worlds), worlds, seen, Guest(token, page, grant));
      var current := Current(page, grant);
      if status.None? || current.None? || !current.value.verificationRequired {
        return None, seen;
      }
      expiry := Some(current.value.expiry);
    }

    /** _request_guest_verification: a code is stored and sent exactly if the guest has a context
        and may have one now; a code whose delivery failed, or whose grant changed during the
        delivery, is withdrawn, unless another replaced it meanwhile. */
    method RequestCode(page: string, grant: string, token: Token, replace: bool, id: string, code: string, delivered: bool)
      returns (reply: CodeRequest, ghost t: CodeTrail)
      requires Valid()
      modifies this`tables, this`grants, this`policies, this`clock, this`worlds, this`acts
      ensures Valid() && Longer(old(worlds), old(acts)) && Leaves(t, old(|acts|), |worlds|)
      ensures reply.Unauthorized? <==> ContextAt(worlds, t.seen, t.known, Guest(token, page, grant)).None?
      ensures !reply.Unauthorized? ==>
                var issued := IssueResult(worlds[t.stored].tables, Issuing(token, page, grant, replace, id, code, worlds[t.stored].now));
                if issued.Sent? then reply.Delivered? || reply.Undelivered? else reply == NotIssued(issued)
      ensures reply.Delivered? || reply.Undelivered? ==>
                && t.stored + 1 < |worlds| && token in worlds[t.stored + 1].tables.challenges
                && worlds[t.stored + 1].tables.challenges[token]
                   == Challenge(page, grant, id, code, worlds[t.stored].now + 600, 0, worlds[t.stored].now)
      ensures reply.Delivered? || reply.Undelivered? ==>
                (reply.Delivered? <==> delivered && ContextAt(worlds, t.again, t.still, Guest(token, page, grant)).Some?)
      ensures reply.Undelivered? && token in tables.challenges ==> tables.challenges[token].id != id
    {
      ghost var guest := Guest(token, page, grant);
      var context;
      ghost var seen;
      context, seen := VerifiedContext(page, grant, token);
      t := CodeTrail(seen, |acts|, |acts|, seen, |acts|);
      if context.None? {
        return Unauthorized, t;
      }
      label Known:
      ghost var stored, again, still;
      reply, stored, again, still := SendCode(page, grant, token, replace, id, code, delivered);
      ContextLater(old@Known(worlds), worlds, seen, t.known, guest);
      t := t.(stored := stored, again := again, still := still);
    }

    /** The code is stored, in state `i`, if the session may have one, and delivered. */
    method SendCode(page: string, grant: string, token: Token, replace: bool, id: string, code: string, delivered: bool)
      returns (reply: CodeRequest, ghost i: nat, ghost again: Seen, ghost still: nat)
      requires Valid()
      modifies this`tables, this`grants, this`policies, this`clock, this`worlds, this`acts
      ensures Valid() && Longer(old(worlds), old(acts)) && !reply.Unauthorized?
      ensures |old(acts)| <= i <= still < |worlds| && |old(acts)| <= again.session && Within(again, |worlds|)
      ensures var issued := IssueResult(worlds[i].tables, Issuing(token, page, grant, replace, id, code, worlds[i].now));
              if issued.Sent? then reply.Delivered? || reply.Undelivered? else reply == NotIssued(issued)
      ensures reply.Delivered? || reply.Undelivered? ==>
                && i + 1 < |worlds| && token in worlds[i + 1].tables.challenges
                && worlds[i + 1].tables.challenges[token] == Challenge(page, grant, id, code, worlds[i].now + 600, 0, worlds[i].now)
      ensures reply.Delivered? || reply.Undelivered? ==>
                (reply.Delivered? <==> delivered && ContextAt(worlds, again, still, Guest(token, page, grant)).Some?)
      ensures reply.Undelivered? && token in tables.challenges ==> tables.challenges[token].id != id
    {
      var issued;
      issued, i := StoreCode(page, grant, token, replace, id, code);
      still, again := |acts|, Seen(|acts|, |acts|, |acts|, |acts|);
      if !issued.Sent? {
        return NotIssued(issued), i, again, still;
      }
      ghost var w, next := worlds[i], worlds[i + 1];
      reply, again, still := Deliver(page, grant, token, id, delivered);
      assert worlds[i] == w && worlds[i + 1] == next;
    }

    /** The code's transaction. */
    method StoreCode(page: string, grant: string, token: Token, replace: bool, id: string, code: string)
      returns (issued: IssueReply, ghost i: nat)
      requires Valid()
      modifies this`tables, this`grants, this`policies, this`clock, this`worlds, this`acts
      ensures Valid() && Longer(old(worlds), old(acts)) && |old(acts)| <= i < |worlds|
      ensures issued == IssueResult(worlds[i].tables, Issuing(token, page, grant, replace, id, code, worlds[i].now))
      ensures issued.Sent? ==>
                && i + 1 < |worlds| && token in worlds[i + 1].tables.challenges
                && worlds[i + 1].tables.challenges[token] == Challenge(page, grant, id, code, worlds[i].now + 600, 0, worlds[i].now)
    {
      Others();
      i := |acts|;
      ghost var w := worlds[i];
      var tx := Issue(token, page, grant, replace, id, code, clock);
      issued := IssueResult(tables, tx);
      if issued.Sent? {
        Transact(tx);
        assert worlds[i] == w && |worlds| == i + 2;
      }
    }

    /** The second half: the delivery, and another look at the grant. */
    method Deliver(page: string, grant: string, token: Token, id: string, delivered: bool)
      returns (reply: CodeRequest, ghost again: Seen, ghost still: nat)
      requires Valid()
      modifies this`tables, this`grants, this`policies, this`clock, this`worlds, this`acts
      ensures Valid() && Longer(old(worlds), old(acts)) && (reply.Delivered? || reply.Undelivered?)
      ensures |old(acts)| <= again.session && Within(again, |worlds|) && |old(acts)| <= still < |worlds|
      ensures reply.Delivered? <==> delivered && ContextAt(worlds, again, still, Guest(token, page, grant)).Some?
      ensures reply.Undelivered? && token in tables.challenges ==> tables.challenges[token].id != id
    {
      ghost var guest := Guest(token, page, grant);
      Others();
      again, still := Seen(|acts|, |acts|, |acts|, |acts|), |acts|;
      var context := None;
      if delivered {
        context, again := VerifiedContext(page, grant, token);
        still := |acts|;
      }
      if context.None? {
        label Refused:
        Transact(Cancel(token, id));
        ContextLater(old@Refused(worlds), worlds, again, still, guest);
        return Undelivered, again, still;
      }
      reply := Delivered;
    }

    /** _verify_guest_code: the code is tried, in state `v`, against the expiry the grant had just
        before, in state `k`. */
    method VerifyCode(page: string, grant: string, token: Token, code: string, wellFormed: bool)
      returns (reply: VerifyReply, ghost seen: Seen, ghost k: nat, ghost v: nat)
      requires Valid()
      modifies this`tables, this`grants, this`policies, this`clock, this`worlds, this`acts
      ensures Valid() && Longer(old(worlds), old(acts)) && Within(seen, |worlds|) && |old(acts)| <= k <= v < |worlds|
      ensures var expiry := ContextAt(worlds, seen, k, Guest(token, page, grant));
              reply == if expiry.None? || !wellFormed then Unavailable
                       else VerifyResult(worlds[v].tables, Verify(token, page, grant, code, expiry.value, worlds[v].now))
      ensures reply.Right? ==> VerifiedAt(tables, token, page, grant, reply.until) && clock < reply.until
      ensures !reply.Unavailable? ==>
                && v < |acts| && token in worlds[v].tables.challenges
                && acts[v] == Store(Verify(token, page, grant, code, ContextAt(worlds, seen, k, Guest(token, page, grant)).value, worlds[v].now))
      ensures reply.Wrong? ==> token in tables.challenges && code != worlds[v].tables.challenges[token].code
      ensures reply.Wrong? ==> tables.challenges[token].attempts == worlds[v].tables.challenges[token].attempts + 1
      ensures reply.Wrong? ==> WrongGuesses(worlds, acts, v, v + 1, token) == 1
      ensures reply.Right? ==> token !in tables.challenges && code == worlds[v].tables.challenges[token].code
    {
      var expiry;
      expiry, seen := VerifiedContext(page, grant, token);
      k, v := |acts|, |acts|;
      if expiry.None? || !wellFormed {
        return Unavailable, seen, k, v;
      }
      label Known:
      ghost var w := worlds[k];
      Others();
      v := |acts|;
      ghost var w' := worlds[v];
      var tx := Verify(token, page, grant, code, expiry.value, clock);
      reply := VerifyResult(tables, tx);
      Transact(tx);
      assert worlds[k] == w && worlds[v] == w';
      StatusLater(old@Known(worlds), worlds, seen, Guest(token, page, grant));
    }
  }
}
