/** The enrollment of the LayerV agent, which spends a one-time token.  Any number of processes
    may attempt it, and die anywhere; the status row in the database decides who may go on. */
module Enrollment {

  datatype Status = Fresh | ResetAuthorized | Enrolling | Enrolled

  /** `claimed` and `keyed` are the processes between winning the status row and logging in,
      before and after they made the wrapping key. */
  datatype World = World(status: Status, key: bool, claimed: set<int>, keyed: set<int>, logins: nat, resets: nat)

  const START := World(Fresh, false, {}, {}, 0, 0)

  datatype Act =
    | Claim(process: int) | CreateKey(process: int) | Login(process: int) | Finish | Die(process: int)
    | Authorize | RemoveFiles

  /** A reset, or never having enrolled, lets one process go ahead. */
  predicate Authorizes(s: Status) { s.Fresh? || s.ResetAuthorized? }

  predicate Can(w: World, act: Act) {
    match act
    case Claim(p) => Authorizes(w.status) && p !in w.claimed && p !in w.keyed
    case CreateKey(p) => p in w.claimed && !w.key
    case Login(p) => p in w.keyed
    case Finish => w.status.Enrolling?
    case _ => true
  }

  function Perform(w: World, act: Act): World {
    match act
    case Claim(p) => w.(status := Enrolling, claimed := w.claimed + {p})
    case CreateKey(p) => w.(key := true, claimed := w.claimed - {p}, keyed := w.keyed + {p})
    case Login(p) => w.(keyed := w.keyed - {p}, logins := w.logins + 1)
    case Finish => w.(status := Enrolled)
    case Die(p) => w.(claimed := w.claimed - {p}, keyed := w.keyed - {p})
    case Authorize => w.(status := ResetAuthorized, resets := w.resets + 1)
    case RemoveFiles => w.(key := false)
  }

  /** Logins made, under way and still allowed never exceed the authorisations given. */
  ghost predicate Inv(w: World) {
    && w.claimed !! w.keyed
    && w.logins + |w.claimed| + |w.keyed| + (if Authorizes(w.status) then 1 else 0) <= 1 + w.resets
  }

  lemma ActKeeps(w: World, act: Act)
    requires Inv(w) && Can(w, act)
    ensures Inv(Perform(w, act))
  {
    if act.Die? {
      Shrinks(w.claimed, act.process);
      Shrinks(w.keyed, act.process);
    }
  }

  lemma Shrinks(s: set<int>, p: int)
    ensures |s - {p}| <= |s|
  {
    if p !in s { assert s - {p} == s; }
  }

  predicate Trace(w: World, acts: seq<Act>)
    decreases |acts|
  {
    acts == [] || (Can(w, acts[0]) && Trace(Perform(w, acts[0]), acts[1..]))
  }

  function Execute(w: World, acts: seq<Act>): World
    decreases |acts|
  {
    if acts == [] then w else Execute(Perform(w, acts[0]), acts[1..])
  }

  lemma {:induction false} TraceKeeps(w: World, acts: seq<Act>)
    requires Inv(w) && Trace(w, acts)
    ensures Inv(Execute(w, acts))
    decreases |acts|
  {
    if acts != [] {
      ActKeeps(w, acts[0]);
      TraceKeeps(Perform(w, acts[0]), acts[1..]);
    }
  }

  /** However processes compete and die, there is never more than one login per authorisation. */
  lemma LoginsAreAuthorized(acts: seq<Act>)
    requires Trace(START, acts)
    ensures Execute(START, acts).logins <= 1 + Execute(START, acts).resets
  {
    TraceKeeps(START, acts);
  }

  // ---------------------------------------------------------------- recorded runs

  lemma {:induction false} TraceAppend(w: World, acts: seq<Act>, more: seq<Act>)
    requires Trace(w, acts) && Trace(Execute(w, acts), more)
    ensures Trace(w, acts + more) && Execute(w, acts + more) == Execute(Execute(w, acts), more)
    decreases |acts|
  {
    if acts == [] {
      assert acts + more == more;
    } else {
      TraceAppend(Perform(w, acts[0]), acts[1..], more);
      assert (acts + more)[1..] == acts[1..] + more;
    }
  }

  /** The state after `n` resets, each followed by a full enrollment. */
  function Cycled(n: nat): World { World(Enrolled, true, {}, {}, n + 1, n) }

  /** The bound is attained: every reset does allow one more login. */
  lemma {:induction false} EveryAuthorisationAllowsALogin(n: nat) returns (acts: seq<Act>)
    ensures Trace(START, acts) && Execute(START, acts) == Cycled(n)
  {
    if n == 0 {
      acts := [Claim(0), CreateKey(0), Login(0), Finish];
      OneEnrollment(START);
    } else {
      var before := EveryAuthorisationAllowsALogin(n - 1);
      var w := Cycled(n - 1);
      var reset := [Authorize, RemoveFiles];
      var ready := w.(status := ResetAuthorized, key := false, resets := n);
      assert Perform(Perform(w, Authorize), RemoveFiles) == ready;
      assert reset[1..] == [RemoveFiles] && reset[1..][1..] == [];
      assert Trace(w, reset) && Execute(w, reset) == ready;
      OneEnrollment(ready);
      TraceAppend(w, reset, [Claim(0), CreateKey(0), Login(0), Finish]);
      TraceAppend(START, before, reset + [Claim(0), CreateKey(0), Login(0), Finish]);
      acts := before + (reset + [Claim(0), CreateKey(0), Login(0), Finish]);
    }
  }

  lemma OneEnrollment(w: World)
    requires Authorizes(w.status) && !w.key && w.claimed == {} && w.keyed == {}
    ensures var acts := [Claim(0), CreateKey(0), Login(0), Finish];
            Trace(w, acts) && Execute(w, acts) == w.(status := Enrolled, key := true, logins := w.logins + 1)
  {
    var w1 := w.(status := Enrolling, claimed := {0});
    var w2 := w1.(key := true, claimed := {}, keyed := {0});
    var w3 := w2.(keyed := {}, logins := w.logins + 1);
    var acts := [Claim(0), CreateKey(0), Login(0), Finish];
    assert Perform(w, acts[0]) == w1 && Perform(w1, acts[1]) == w2 && Perform(w2, acts[2]) == w3;
    assert acts[1..] == [CreateKey(0), Login(0), Finish] && acts[1..][1..] == [Login(0), Finish];
    assert acts[1..][1..][1..] == [Finish] && [Finish][1..] == [];
    assert Trace(w3, [Finish]) && Trace(w2, acts[1..][1..]) && Trace(w1, acts[1..]);
  }

  /** `acts` is a recorded run that leads from the start to `w`. */
  ghost predicate Recorded(acts: seq<Act>, w: World) {
    forall start :: start == START ==> Trace(start, acts) && Execute(start, acts) == w
  }

  lemma RecordedAppend(acts: seq<Act>, w: World, act: Act)
    requires Recorded(acts, w) && Can(w, act)
    ensures Recorded(acts + [act], Perform(w, act))
  {
    assert Trace(START, acts);
    assert [act][1..] == [];
    assert Trace(w, [act]);
    assert Execute(w, [act]) == Execute(Perform(w, act), []);
    TraceAppend(START, acts, [act]);
  }

  /** How many logins of the process a run contains. */
  function LoginsBy(acts: seq<Act>, process: int): nat {
    if acts == [] then 0
    else LoginsBy(acts[..|acts| - 1], process) + if acts[|acts| - 1] == Login(process) then 1 else 0
  }

  lemma LoginsByAppend(acts: seq<Act>, act: Act, process: int)
    ensures LoginsBy(acts + [act], process) == LoginsBy(acts, process) + if act == Login(process) then 1 else 0
  {
    assert (acts + [act])[..|acts|] == acts;
  }

  datatype End = Complete | NotFresh | Lost | KeyExists | LoginFailed | Changed

  /** One process's connector publisher. */
  class ConnectorPublisher {
    const process: int
    var status: Status
    var key: bool
    var recoveryRequired: bool
    ghost var world: World
    ghost var log: seq<Act>

    ghost predicate Valid()
      reads this
    {
      Recorded(log, world) && world.status == status && world.key == key
    }

    constructor (process: int)
      ensures Valid() && world == START && !recoveryRequired && this.process == process
    {
      this.process, status, key, recoveryRequired := process, Fresh, false, false;
      world, log := START, [];
    }

    ghost method Do(act: Act)
      requires Recorded(log, world) && Can(world, act)
      modifies this`world, this`log
      ensures Recorded(log, world) && world == Perform(old(world), act) && log == old(log) + [act]
      ensures LoginsBy(log, process) == LoginsBy(old(log), process) + if act == Login(process) then 1 else 0
    {
      LoginsByAppend(log, act, process);
      RecordedAppend(log, world, act);
      world, log := Perform(world, act), log + [act];
    }

    ghost predicate Idle()
      reads this
    {
      process !in world.claimed && process !in world.keyed
    }

    /** Other processes attempt an enrollment or die, and the administrator resets. */
    method Others()
      requires Valid()
      modifies this`status, this`key, this`world, this`log
      ensures Valid() && old(log) <= log && world.logins >= old(world).logins
      ensures process in world.claimed <==> process in old(world).claimed
      ensures process in world.keyed <==> process in old(world).keyed
      ensures LoginsBy(log, process) == LoginsBy(old(log), process)
    {
    }

    /** _advance_enrollment to `enrolling`: compare and set in one transaction. */
    method TryClaim() returns (won: bool)
      requires Valid() && Idle()
      modifies this`status, this`recoveryRequired, this`world, this`log
      ensures Valid() && old(log) <= log && world.logins == old(world).logins
      ensures won <==> Authorizes(old(status))
      ensures LoginsBy(log, process) == LoginsBy(old(log), process)
      ensures if won then process in world.claimed && status == Enrolling && recoveryRequired == old(recoveryRequired)
              else world == old(world) && recoveryRequired && status == old(status)
    {
      won := Authorizes(status);
      if won {
        Do(Claim(process));
        status := Enrolling;
      } else {
        recoveryRequired := true;
      }
    }

    /** Gives the attempt up. */
    ghost method GiveUp()
      requires Valid()
      modifies this`world, this`log
      ensures Valid() && old(log) <= log && Idle() && world.logins == old(world).logins
      ensures LoginsBy(log, process) == LoginsBy(old(log), process)
    {
      Do(Die(process));
    }

    /** _bootstrap: only a fresh installation, only after winning the status row and making the
        wrapping key, and then one login. */
    method Bootstrap(minted: bool, loggedIn: bool) returns (end: End)
      requires Valid() && Idle()
      modifies this
      ensures Valid() && old(log) <= log && Idle()
      ensures end.NotFresh? <==> old(key) || !Authorizes(old(status))
      ensures end.NotFresh? ==> recoveryRequired && world == old(world)
      ensures LoginsBy(log, process) - LoginsBy(old(log), process) ==
                if end.Complete? || end.Changed? || end.LoginFailed? then 1 else 0
      ensures !minted && !end.NotFresh? ==> end.Lost? && world == old(world)
      ensures minted && end.Lost? ==> recoveryRequired && !Authorizes(status)
      ensures end.KeyExists? ==> key && recoveryRequired == old(recoveryRequired)
      ensures end.LoginFailed? ==> !loggedIn
      ensures end.Complete? ==> loggedIn && status.Enrolled? && recoveryRequired == old(recoveryRequired)
      ensures end.Changed? ==> loggedIn && recoveryRequired && !status.Enrolling?
    {
      if key || !Authorizes(status) {
        recoveryRequired := true;
        return NotFresh;
      }
      if !minted {
        return Lost;
      }
      Others();
      var won := TryClaim();
      if !won {
        return Lost;
      }
      Others();
      if key {
        GiveUp();
        return KeyExists;
      }
      Do(CreateKey(process));
      key := true;
      Others();
      end := LogIn(loggedIn);
    }

    /** The login itself, which uses up the process's turn, and the second compare and set. */
    method LogIn(loggedIn: bool) returns (end: End)
      requires Valid() && process in world.keyed && process !in world.claimed
      modifies this
      ensures Valid() && old(log) <= log && Idle() && world.logins > old(world).logins
      ensures LoginsBy(log, process) == LoginsBy(old(log), process) + 1
      ensures end.LoginFailed? <==> !loggedIn
      ensures end.Changed? ==> recoveryRequired && !status.Enrolling?
      ensures end.Complete? ==> status.Enrolled? && recoveryRequired == old(recoveryRequired)
      ensures end.LoginFailed? || end.Changed? || end.Complete?
    {
      Do(Login(process));
      Others();
      if !loggedIn {
        return LoginFailed;
      }
      if !status.Enrolling? {
        recoveryRequired := true;
        return Changed;
      }
      Do(Finish);
      status := Enrolled;
      end := Complete;
    }

    /** Whatever this and all other processes did. */
    lemma AtMostOneLoginPerAuthorisation()
      requires Valid()
      ensures world.logins <= 1 + world.resets
    {
      assert Trace(START, log);
      LoginsAreAuthorized(log);
    }
  }
}
