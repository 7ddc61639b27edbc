/** The reconnection of the RTSI session, over every run of the two threads. */
module HardwareLink {
  import opened Arithmetic
  import opened RobotJoints
  import opened HardwareState

  // ----- the session -----

  predicate InReconnect(pc: AsyncPc) {
    pc.TearingDown? || pc.DroppingOutput? || pc.DroppingInput? || pc.Pausing? || pc.Creating? || pc.Connecting?
    || pc.Initialising? || pc.Dropping? || pc.Lowering?
  }

  predicate Whole(l: Link) {
    l.client.session == Ready && l.client.outRecipe && l.client.inRecipe
  }

  /** What each place of reconnectAll() knows about the session it is rebuilding. */
  predicate SessionAt(l: Link) {
    match l.pc
    case DroppingOutput => l.client.session == Null
    case DroppingInput => l.client.session == Null
    case Pausing => l.client.session == Null
    case Creating => l.client.session == Null
    case Connecting => l.client.session == Created
    case Initialising => l.client.session == Connected
    case Lowering(ok) => if ok then Whole(l) else l.client.session == Null
    case CheckingDriver => !l.client.reconnecting && Whole(l)
    case Resolving => !l.client.reconnecting && Whole(l)
    case ClearingFailed => !l.client.reconnecting && Whole(l)
    case _ => true
  }

  predicate SessionInv(l: Link) {
    && (!l.client.reconnecting ==> l.client.session == Null || Whole(l))
    && (InReconnect(l.pc) ==> l.client.reconnecting)
    && SessionAt(l)
    // while read() cannot receive, a reconnection is needed exactly if it was when the flag was raised or a read ran since
    && (!Usable(l) ==> (InReconnect(l.pc) || l.client.reconnecting || l.client.session == Null)
                       && (l.outage.needed <==> l.past.neededAtRaise || l.past.readsSince > 0))
    && (!Usable(l) && !InReconnect(l.pc) && !l.past.hasty ==> l.past.readsSince > 0)
    && (l.pc.InIO? || l.pc.AfterResend? ==> Whole(l) || l.past.hasty)
    && (l.past.nullUses > 0 ==> l.past.hasty)
  }

  lemma ReadKeepsSession(l: Link, got: bool)
    requires SessionInv(l)
    ensures SessionInv(ReadLink(l, got))
  {
  }

  lemma DecideKeepsSession(c: Config, l: Link, started: bool, contextOk: bool)
    requires SessionInv(l) && l.pc.Resting?
    ensures SessionInv(Decide(c, l, started, contextOk))
  {
    hide TimeoutExpired, Seconds;
  }

  lemma ProceedKeepsSession(l: Link, o: Outcome, setOut: bool, setIn: bool)
    requires SessionInv(l)
    ensures SessionInv(Proceed(l, o, setOut, setIn))
  {
    match l.pc
    case Creating =>
    case Connecting =>
    case Initialising =>
    case _ =>
  }

  lemma SessionStep(c: Config, s: State, a: Action)
    requires SessionInv(s.link)
    ensures SessionInv(Step(c, s, a).link)
  {
    hide Decide, Proceed, ReadLink, ReadArm, WriteArm, SwitchArm, RequestReset;
    match a
    case Read(first, _, _) => ReadKeepsSession(s.link, first.Got?);
    case UpdateAsyncIO(started, contextOk) =>
      if s.link.pc.Resting? {
        DecideKeepsSession(c, s.link, started, contextOk);
      }
    case ReconnectStep(o, setOut, setIn) => ProceedKeepsSession(s.link, o, setOut, setIn);
    case _ =>
  }

  lemma {:induction false} SessionInvHolds(c: Config, now: nat, run: seq<Action>)
    ensures SessionInv(Exec(c, now, run).link)
  {
    if run != [] {
      SessionInvHolds(c, now, run[..|run| - 1]);
      SessionStep(c, Exec(c, now, run[..|run| - 1]), run[|run| - 1]);
    }
  }

  /** Whenever rtsi_reconnecting_ is clear the session is absent or had connect and rtsiInit succeed; so
      what read() receives on is never a session under construction. */
  lemma SessionIsNullOrWhole(c: Config, now: nat, run: seq<Action>)
    ensures var l := Exec(c, now, run).link;
            && (!l.client.reconnecting ==> l.client.session == Null || Whole(l))
            && (Usable(l) ==> Whole(l))
  {
    SessionInvHolds(c, now, run);
  }

  /** If a read() runs inside every reconnectAll(), the I/O part of updateAsyncIO() always has a started
      session and both recipes, and its last lines never meet a null session. */
  lemma ReadInsideKeepsIOSafe(c: Config, now: nat, run: seq<Action>)
    requires !Exec(c, now, run).link.past.hasty
    ensures var l := Exec(c, now, run).link;
            && (l.pc.InIO? || l.pc.AfterResend? ==> Whole(l))
            && l.past.nullUses == 0
  {
    SessionInvHolds(c, now, run);
  }

  /** Without that assumption it is false, and this is when: an updateAsyncIO() enters its I/O part with a
      null session exactly if reconnection was no longer needed when rtsi_reconnecting_ was last raised,
      that is, a read had succeeded since the decision to reconnect, and no read has run since. */
  lemma NullSessionInIO(c: Config, now: nat, run: seq<Action>, started: bool, contextOk: bool)
    requires Exec(c, now, run).link.pc.Resting? && Exec(c, now, run).link.client.session == Null
    ensures var l := Exec(c, now, run).link;
            Step(c, Exec(c, now, run), UpdateAsyncIO(started, contextOk)).link.pc.InIO?
            <==> !l.past.neededAtRaise && l.past.readsSince == 0
  {
    hide Exec, TimeoutExpired, Seconds;
    SessionInvHolds(c, now, run);
  }

  /** The session is used while null exactly when the I/O part gets to its end without one. */
  lemma NullUseExactly(c: Config, s: State, a: Action)
    ensures Step(c, s, a).link.past.nullUses == s.link.past.nullUses
              + if a.EndIO? && a.reached && (s.link.pc.InIO? || s.link.pc.AfterResend?) && s.link.client.session == Null
                then 1 else 0
  {
    hide ReadArm, WriteArm, SwitchArm, RequestReset, TimeoutExpired, Seconds;
  }

  /** A run that ends so: a frame is lost, and one arrives between the decision to reconnect and the
      raising of the flag; the attempt is refused; no read in between. */
  lemma HastyReconnectUsesNull(c: Config, now: nat) returns (run: seq<Action>)
    requires c.gracePeriod >= 1.0 && Seconds(now) >= c.retryInterval
    ensures Exec(c, now, run).link.past.nullUses == 1
  {
    hide Exec, TimeoutExpired, Seconds;
    run := DecidedInHaste(c, now);
    run := RefusedAttempt(c, now, run);
    run := Next(c, now, run, UpdateAsyncIO(true, true));
    run := Next(c, now, run, EndIO(true));
  }

  lemma DecidedInHaste(c: Config, now: nat) returns (run: seq<Action>)
    requires c.gracePeriod >= 1.0 && Seconds(now) >= c.retryInterval
    ensures var l := Exec(c, now, run).link;
            && l.pc.Raising? && !l.client.reconnecting && Whole(l) && !l.outage.needed && l.past.nullUses == 0
  {
    hide WriteArm, ReadArm, TruncDiv;
    assert TruncDiv(0, NS_PER_S) == 0 by { QuotientUnique(TruncDiv(0, NS_PER_S), 0, NS_PER_S, 0); }
    assert !TimeoutExpired(c, now, now);
    run := Next(c, now, [], Read(Missed, false, SecondMissed));
    run := Next(c, now, run, UpdateAsyncIO(true, true));
    run := Next(c, now, run, Write(false));
    assert Exec(c, now, run).arm.phase.Reading? by { WriteEnds(Exec(c, now, run[..2]).arm, false); }
    run := Next(c, now, run, Read(Got(Frame(AT_REST, Playing, false)), true, SecondMissed));
  }

  lemma WriteEnds(a: Arm, freedriveActivated: bool)
    ensures WriteArm(a, freedriveActivated).phase.Reading?
  {
  }

  function PcAfter(pc: AsyncPc, o: Outcome): AsyncPc {
    match pc
    case Raising => TearingDown
    case TearingDown => DroppingOutput
    case DroppingOutput => DroppingInput
    case DroppingInput => Pausing
    case Pausing => if o.Done? then Creating else Lowering(false)
    case Creating => Connecting
    case Connecting => Dropping
    case Dropping => Lowering(false)
    case _ => Resting
  }

  /** The stores of an attempt that gets as far as a refused connection. */
  lemma OneStore(l: Link, o: Outcome)
    requires l.pc == Raising || l.pc.TearingDown? || l.pc.DroppingOutput? || l.pc.DroppingInput? || l.pc.Pausing?
             || (l.pc.Creating? && o == Done) || (l.pc.Connecting? && o == Refused) || l.pc.Dropping? || l.pc == Lowering(false)
    ensures var m := Proceed(l, o, false, false);
            && m.pc == PcAfter(l.pc, o) && m.outage.needed == l.outage.needed && m.past.nullUses == l.past.nullUses
            && (l.pc.Dropping? ==> m.client.session == Null)
            && (l.pc.Lowering? ==> m.client.session == l.client.session && !m.client.reconnecting)
  {
  }

  /** An attempt whose connection is refused, with no read while it runs. */
  lemma RefusedAttempt(c: Config, now: nat, start: seq<Action>) returns (run: seq<Action>)
    requires Exec(c, now, start).link.pc.Raising?
    ensures var l, m := Exec(c, now, start).link, Exec(c, now, run).link;
            && m.pc.Resting? && !m.client.reconnecting && m.client.session == Null
            && m.outage.needed == l.outage.needed && m.past.nullUses == l.past.nullUses
  {
    hide Exec, Proceed;
    run := start;
    var outcomes := [Done, Done, Done, Done, Done, Done, Refused, Done, Done];
    for i := 0 to 9
      invariant var l, m := Exec(c, now, start).link, Exec(c, now, run).link;
                && m.outage.needed == l.outage.needed && m.past.nullUses == l.past.nullUses
                && m.pc == [Raising, TearingDown, DroppingOutput, DroppingInput, Pausing, Creating, Connecting, Dropping,
                            Lowering(false), Resting][i]
                && (i == 8 ==> m.client.session == Null)
                && (i == 9 ==> m.client.session == Null && !m.client.reconnecting)
    {
      OneStore(Exec(c, now, run).link, outcomes[i]);
      run := Next(c, now, run, ReconnectStep(outcomes[i], false, false));
    }
  }
}
