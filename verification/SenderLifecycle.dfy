/**
 The life of the stats sender thread: launch and stop run in the readout list, the thread runs
 beside them, and they share the run flag, the socket and the destination.  Any step of one may
 come between any two steps of the other, and resolving, making a socket and creating a thread
 may each fail.
 */
module SenderLifecycle {
  import opened Options

  /** The sender: about to test the run flag, sampling, about to send, returned, or joined. */
  datatype Thread = Checking | Sampling | Sending | Ended | Joined

  predicate Live(t: Thread) {
    t.Checking? || t.Sampling? || t.Sending?
  }

  /** Where launch or stop has got to; `Outside` is between calls. */
  datatype Place =
    | Outside
    | Resolving
    | MakingSocket
    | Publishing(fd: nat)
    | Creating
    | Joining
    | Closing

  /** What a send used, and whether any sender was alive when a socket was closed. */
  datatype Event = Sent(openSocket: bool, resolved: bool) | Closed(senderAlive: bool)

  datatype State = State(
    run: bool, sock: Option<nat>, resolved: bool, handle: nat,
    threads: seq<Thread>, open: set<nat>, nextFd: nat, place: Place, events: seq<Event>)

  datatype Step =
    | Launch(validArgs: bool)
    | Resolve(ok: bool)
    | MakeSocket(ok: bool)
    | Publish
    | Create(ok: bool)
    | Stop
    | Join
    | Close
    | Advance(thread: nat)

  predicate SenderAlive(threads: seq<Thread>) {
    exists i :: 0 <= i < |threads| && Live(threads[i])
  }

  predicate SocketOpen(s: State) {
    s.sock.Some? && s.sock.value in s.open
  }

  function CloseSocket(s: State): State {
    if s.sock.None? then s
    else s.(open := s.open - {s.sock.value}, sock := None, events := s.events + [Closed(SenderAlive(s.threads))])
  }

  /** One step, or None when it cannot be taken. */
  function Next(s: State, step: Step): Option<State> {
    match step
    case Launch(validArgs) =>
      if s.place != Outside then None
      else if !validArgs || s.run then Some(s)
      else Some(s.(place := Resolving))
    case Resolve(ok) =>
      if s.place != Resolving then None
      else if ok then Some(s.(resolved := true, place := MakingSocket))
      else Some(s.(place := Outside))
    case MakeSocket(ok) =>
      if s.place != MakingSocket then None
      else if ok then Some(s.(open := s.open + {s.nextFd}, nextFd := s.nextFd + 1, place := Publishing(s.nextFd)))
      else Some(s.(place := Outside))
    case Publish =>
      if !s.place.Publishing? then None
      else Some(s.(sock := Some(s.place.fd), run := true, place := Creating))
    case Create(ok) =>
      if s.place != Creating then None
      else if ok then Some(s.(threads := s.threads + [Checking], handle := |s.threads|, place := Outside))
      else Some(CloseSocket(s.(run := false)).(place := Outside))
    case Stop =>
      if s.place != Outside then None
      else if !s.run then Some(s)
      else Some(s.(run := false, place := Joining))
    case Join =>
      if s.place != Joining || s.handle >= |s.threads| || s.threads[s.handle] != Ended then None
      else Some(s.(threads := s.threads[s.handle := Joined], place := Closing))
    case Close =>
      if s.place != Closing then None
      else Some(CloseSocket(s).(resolved := false, place := Outside))
    case Advance(i) =>
      if i >= |s.threads| then None
      else
        match s.threads[i]
        case Checking => Some(s.(threads := s.threads[i := if s.run then Sampling else Ended]))
        case Sampling => Some(s.(threads := s.threads[i := Sending]))
        case Sending =>
          Some(s.(threads := s.threads[i := Checking], events := s.events + [Sent(SocketOpen(s), s.resolved)]))
        case _ => None
  }

  function Run(start: State, steps: seq<Step>): Option<State>
    decreases |steps|
  {
    if steps == [] then Some(start)
    else
      match Run(start, steps[..|steps| - 1])
      case None => None
      case Some(before) => Next(before, steps[|steps| - 1])
  }

  ghost predicate Initial(s: State) {
    !s.run && s.sock.None? && s.threads == [] && s.open == {} && s.place == Outside && s.events == []
  }

  // ---------------------------------------------------------------- safety

  /** Only the thread behind the handle may be alive. */
  ghost predicate OnlyHandle(s: State) {
    && s.handle < |s.threads|
    && forall i :: 0 <= i < |s.threads| && i != s.handle ==> !Live(s.threads[i])
  }

  ghost predicate NobodyAlive(s: State) {
    forall i :: 0 <= i < |s.threads| ==> !Live(s.threads[i])
  }

  /** Nothing is going: no sender, no socket. */
  ghost predicate AtRest(s: State) {
    !s.run && s.sock.None? && s.open == {} && NobodyAlive(s)
  }

  /** A sender's surroundings: its socket is the one open socket and its destination is resolved. */
  ghost predicate Equipped(s: State) {
    s.sock.Some? && s.open == {s.sock.value} && s.resolved
  }

  ghost predicate Inv(s: State) {
    match s.place
    case Outside =>
      if s.run then Equipped(s) && OnlyHandle(s) && Live(s.threads[s.handle]) else AtRest(s)
    case Resolving => AtRest(s)
    case MakingSocket => AtRest(s) && s.resolved
    case Publishing(fd) => !s.run && s.sock.None? && s.open == {fd} && s.resolved && NobodyAlive(s)
    case Creating => s.run && Equipped(s) && NobodyAlive(s)
    case Joining =>
      !s.run && Equipped(s) && OnlyHandle(s) && (Live(s.threads[s.handle]) || s.threads[s.handle].Ended?)
    case Closing => !s.run && Equipped(s) && NobodyAlive(s)
  }

  /** Every send went to an open socket with a resolved destination, and no socket was closed under
      a living sender. */
  ghost predicate EventsSafe(events: seq<Event>) {
    forall i :: 0 <= i < |events| ==>
      (events[i].Sent? ==> events[i].openSocket && events[i].resolved)
      && (events[i].Closed? ==> !events[i].senderAlive)
  }

  lemma StepInv(s: State, step: Step)
    requires Inv(s) && EventsSafe(s.events) && Next(s, step).Some?
    ensures Inv(Next(s, step).value) && EventsSafe(Next(s, step).value.events)
  {
    var t := Next(s, step).value;
    if step.Advance? {
      assert Live(s.threads[step.thread]);
    }
    if step.Create? && step.ok {
      assert t.threads[..|s.threads|] == s.threads;
    }
  }

  lemma {:induction false} ReachableInv(start: State, steps: seq<Step>)
    requires Initial(start) && Run(start, steps).Some?
    ensures Inv(Run(start, steps).value) && EventsSafe(Run(start, steps).value.events)
    decreases |steps|
  {
    if steps != [] {
      ReachableInv(start, steps[..|steps| - 1]);
      StepInv(Run(start, steps[..|steps| - 1]).value, steps[|steps| - 1]);
    }
  }

  ghost predicate AtMostOneAlive(threads: seq<Thread>) {
    forall i, j | 0 <= i < |threads| && 0 <= j < |threads| :: Live(threads[i]) && Live(threads[j]) ==> i == j
  }

  /** Over every interleaving: at most one sender is alive, every send is on an open socket to a
      resolved destination, sockets close only after the sender has ended, and between calls the
      run flag is set exactly when there is a sender, and exactly when there is an open socket. */
  lemma SenderSafe(start: State, steps: seq<Step>)
    requires Initial(start) && Run(start, steps).Some?
    ensures var s := Run(start, steps).value;
            && AtMostOneAlive(s.threads)
            && EventsSafe(s.events)
            && |s.open| <= 1
            && (s.place == Outside ==> (s.run <==> SenderAlive(s.threads)) && (s.run <==> SocketOpen(s))
                                       && (s.run <==> s.open != {}))
  {
    ReachableInv(start, steps);
  }

  /** The join in stop cannot wait for ever: the sender needs at most three more steps of its own. */
  lemma StopTerminates(start: State, steps: seq<Step>)
    requires Initial(start) && Run(start, steps).Some? && Run(start, steps).value.place == Joining
    ensures var s := Run(start, steps).value;
            exists k: nat :: k <= 3
              && Run(s, Steps(s.handle, k)).Some?
              && Next(Run(s, Steps(s.handle, k)).value, Join).Some?
  {
    ReachableInv(start, steps);
    var s := Run(start, steps).value;
    var k := match s.threads[s.handle] case Ended => 0 case Checking => 1 case Sending => 2 case _ => 3;
    OwnSteps(s, k);
    assert k <= 3 && Run(s, Steps(s.handle, k)).Some? && Next(Run(s, Steps(s.handle, k)).value, Join).Some?;
  }

  function Steps(i: nat, k: nat): (steps: seq<Step>)
    ensures |steps| == k
  {
    if k == 0 then [] else Steps(i, k - 1) + [Advance(i)]
  }

  lemma OneMore(s: State, init: seq<Step>, t: State, last: Step)
    requires Run(s, init) == Some(t)
    ensures Run(s, init + [last]) == Next(t, last)
  {
    assert (init + [last])[..|init|] == init;
  }

  lemma StepsSnoc(s: State, i: nat, k: nat, t: State)
    requires Run(s, Steps(i, k)) == Some(t)
    ensures Run(s, Steps(i, k + 1)) == Next(t, Advance(i))
  {
    OneMore(s, Steps(i, k), t, Advance(i));
  }

  /** A sender at its check, told to stop, ends and can be joined. */
  lemma CheckingEnds(s: State, k: nat, t: State)
    requires Run(s, Steps(t.handle, k)) == Some(t)
    requires t.place == Joining && !t.run && t.handle < |t.threads| && t.threads[t.handle] == Checking
    ensures var u := Run(s, Steps(t.handle, k + 1)); u.Some? && Next(u.value, Join).Some?
  {
    StepsSnoc(s, t.handle, k, t);
  }

  lemma SendingEnds(s: State, k: nat, t: State)
    requires Run(s, Steps(t.handle, k)) == Some(t)
    requires t.place == Joining && !t.run && t.handle < |t.threads| && t.threads[t.handle] == Sending
    ensures var u := Run(s, Steps(t.handle, k + 2)); u.Some? && Next(u.value, Join).Some?
  {
    StepsSnoc(s, t.handle, k, t);
    CheckingEnds(s, k + 1, Next(t, Advance(t.handle)).value);
  }

  lemma OwnSteps(s: State, k: nat)
    requires Inv(s) && s.place == Joining
    requires k == match s.threads[s.handle] case Ended => 0 case Checking => 1 case Sending => 2 case _ => 3
    ensures Run(s, Steps(s.handle, k)).Some?
    ensures Next(Run(s, Steps(s.handle, k)).value, Join).Some?
  {
    var i := s.handle;
    assert Run(s, Steps(i, 0)) == Some(s);
    match s.threads[i]
    case Ended =>
    case Checking => CheckingEnds(s, 0, s);
    case Sending => SendingEnds(s, 0, s);
    case Sampling =>
      StepsSnoc(s, i, 0, s);
      SendingEnds(s, 1, Next(s, Advance(i)).value);
  }

  // ---------------------------------------------------------------- what the calls achieve

  /** A launch in which nothing fails. */
  const LAUNCH: seq<Step> := [Launch(true), Resolve(true), MakeSocket(true), Publish, Create(true)]

  /** The state after it. */
  function Launched(s: State): State {
    s.(run := true, sock := Some(s.nextFd), resolved := true, handle := |s.threads|,
       threads := s.threads + [Checking], open := s.open + {s.nextFd}, nextFd := s.nextFd + 1, place := Outside)
  }

  /** On the way: the destination resolved, and the socket made and published. */
  function Resolved(s: State): State {
    s.(resolved := true, place := MakingSocket)
  }

  function Published(s: State): State {
    s.(resolved := true, open := s.open + {s.nextFd}, nextFd := s.nextFd + 1, sock := Some(s.nextFd), run := true,
       place := Creating)
  }

  lemma UpToResolve(s: State)
    requires s.place == Outside && !s.run
    ensures Run(s, [Launch(true)]) == Some(s.(place := Resolving))
    ensures Run(s, [Launch(true), Resolve(true)]) == Some(Resolved(s))
  {
    OneMore(s, [], s, Launch(true));
    assert [] + [Launch(true)] == [Launch(true)];
    OneMore(s, [Launch(true)], s.(place := Resolving), Resolve(true));
    assert [Launch(true)] + [Resolve(true)] == [Launch(true), Resolve(true)];
  }

  lemma UpToPublish(s: State)
    requires s.place == Outside && !s.run
    ensures Run(s, [Launch(true), Resolve(true), MakeSocket(true), Publish]) == Some(Published(s))
  {
    UpToResolve(s);
    var start := [Launch(true), Resolve(true)];
    var c := Next(Resolved(s), MakeSocket(true)).value;
    OneMore(s, start, Resolved(s), MakeSocket(true));
    OneMore(s, start + [MakeSocket(true)], c, Publish);
    assert start + [MakeSocket(true)] + [Publish] == [Launch(true), Resolve(true), MakeSocket(true), Publish];
  }

  lemma LaunchRuns(s: State)
    requires s.place == Outside && !s.run
    ensures Run(s, LAUNCH) == Some(Launched(s))
  {
    UpToPublish(s);
    var start := [Launch(true), Resolve(true), MakeSocket(true), Publish];
    OneMore(s, start, Published(s), Create(true));
    assert start + [Create(true)] == LAUNCH;
  }

  /** From rest a launch that meets no failure leaves one live sender with an open socket and a resolved
      destination, and its next three steps send a packet. */
  lemma LaunchSends(s: State)
    requires Inv(s) && s.place == Outside && !s.run
    ensures Run(s, LAUNCH) == Some(Launched(s))
    ensures var t := Launched(s);
            && t.run && SocketOpen(t) && t.resolved && OnlyHandle(t) && Live(t.threads[t.handle])
            && var u := Run(t, Steps(t.handle, 3));
               u.Some? && u.value.threads == t.threads && u.value.events == t.events + [Sent(true, true)]
  {
    LaunchRuns(s);
    ThreeStepsSend(Launched(s));
  }

  lemma TwoStepsSample(t: State, i: nat)
    requires t.run && i < |t.threads| && t.threads[i] == Checking
    ensures Run(t, Steps(i, 2)) == Some(t.(threads := t.threads[i := Sending]))
  {
    var x := t.(threads := t.threads[i := Sampling]);
    assert Run(t, []) == Some(t);
    OneMore(t, [], t, Advance(i));
    OneMore(t, [] + [Advance(i)], x, Advance(i));
    assert x.threads[i := Sending] == t.threads[i := Sending];
    assert Steps(i, 1) == [] + [Advance(i)];
    assert Steps(i, 2) == Steps(i, 1) + [Advance(i)];
  }

  /** One pass of a running sender's loop. */
  lemma ThreeStepsSend(t: State)
    requires t.run && SocketOpen(t) && t.resolved && t.handle < |t.threads| && t.threads[t.handle] == Checking
    ensures var u := Run(t, Steps(t.handle, 3));
            u.Some? && u.value.threads == t.threads && u.value.events == t.events + [Sent(true, true)]
  {
    var i := t.handle;
    var y := t.(threads := t.threads[i := Sending]);
    TwoStepsSample(t, i);
    var two := Steps(i, 2);
    OneMore(t, two, y, Advance(i));
    assert Steps(i, 3) == two + [Advance(i)];
    assert y.threads[i := Checking] == t.threads;
  }

  /** Launching with bad arguments, or a second time, changes nothing; a failure on the way leaves
      everything as it was but for the resolved destination. */
  lemma LaunchRefused(s: State, validArgs: bool)
    requires s.place == Outside && (!validArgs || s.run)
    ensures Next(s, Launch(validArgs)) == Some(s)
  {
  }

  lemma LaunchFails(s: State)
    requires Inv(s) && s.place == Outside && !s.run
    ensures Run(s, [Launch(true), Resolve(false)]) == Some(s)
    ensures Run(s, [Launch(true), Resolve(true), MakeSocket(false)]) == Some(s.(resolved := true))
  {
    UpToResolve(s);
    OneMore(s, [Launch(true)], s.(place := Resolving), Resolve(false));
    assert [Launch(true)] + [Resolve(false)] == [Launch(true), Resolve(false)];
    OneMore(s, [Launch(true), Resolve(true)], Resolved(s), MakeSocket(false));
    assert [Launch(true), Resolve(true)] + [MakeSocket(false)] == [Launch(true), Resolve(true), MakeSocket(false)];
  }

  lemma CreateFails(s: State)
    requires Inv(s) && s.place == Outside && !s.run
    ensures var t := Run(s, [Launch(true), Resolve(true), MakeSocket(true), Publish, Create(false)]);
            t.Some? && t.value.place == Outside && AtRest(t.value) && t.value.threads == s.threads
  {
    UpToPublish(s);
    var start := [Launch(true), Resolve(true), MakeSocket(true), Publish];
    OneMore(s, start, Published(s), Create(false));
    assert start + [Create(false)] == [Launch(true), Resolve(true), MakeSocket(true), Publish, Create(false)];
  }

  /** Stop is final: once the sender has ended, joining it and closing the socket return to rest, and a
      sender told to stop ends at its next check. */
  lemma StopRests(s: State)
    requires Inv(s) && s.place == Outside && s.run
    ensures Next(s, Stop) == Some(s.(run := false, place := Joining))
    ensures var t := s.(run := false, place := Joining);
            && (t.threads[t.handle] == Checking ==>
                  Next(t, Advance(t.handle)) == Some(t.(threads := t.threads[t.handle := Ended])))
    ensures var t := s.(run := false, place := Joining, threads := s.threads[s.handle := Ended]);
            var u := Next(t, Join);
            && u.Some? && var v := Next(u.value, Close);
               v.Some? && v.value.place == Outside && AtRest(v.value) && !v.value.resolved
               && v.value.events == s.events + [Closed(false)]
  {
    var t := s.(run := false, place := Joining, threads := s.threads[s.handle := Ended]);
    var u := Next(t, Join).value;
    assert NobodyAlive(u);
  }
}
