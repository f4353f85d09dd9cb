/** Blocking removal of popups: `_drain_popups` against an outside world that owns the clock, the
    screen and the closing actions. */
module Popups {
  import opened Common
  import opened PopupTraces

  // ---------------------------------------------------------------- the outside world

  /** The clock, the stop flag, the screen and the closing actions: free in everything but that
      time does not run backwards. */
  class World {
    var now: real
    var stop: bool
    ghost var captured: bool                              // whether the last capture worked
    ghost var attempt: Option<(Page, CloseOutcome)>       // the last try to close a page

    constructor () {
      now, stop, captured, attempt := 0.0, false, false, None;
    }

    method Time() returns (t: real)
      modifies `now
      ensures old(now) <= now == t
    {
      var passed: real := *;
      if passed > 0.0 { now := now + passed; }
      t := now;
    }

    method Sleep(ms: real)
      requires ms >= 0.0
      modifies `now
      ensures now >= old(now) + ms
    {
      var _ := Time();
      now := now + ms;
    }

    method IsStopped() returns (stopped: bool)
      modifies `stop
      ensures stop == stopped
    {
      stop := *;
      stopped := stop;
    }

    /** A screen, as the outcome of every popup page's test on it; None if the capture failed. */
    method Capture(pages: nat) returns (tests: Option<seq<Test>>)
      modifies `now, `captured
      ensures old(now) <= now && captured == tests.Some?
      ensures tests.Some? ==> |tests.value| == pages
    {
      var _ := Time();
      var fails: bool := *;
      captured := !fails;
      if fails { return None; }
      var outcomes := [];
      while |outcomes| < pages
        invariant |outcomes| <= pages
      {
        var outcome: Test := *;
        outcomes := outcomes + [outcome];
      }
      return Some(outcomes);
    }

    method LooksAlike() returns (b: bool)
    {
      b := *;
    }

    method PerformClose(page: Page) returns (outcome: CloseOutcome, variables: map<string, Value>)
      modifies `now, `attempt
      ensures old(now) <= now && attempt == Some((page, outcome))
    {
      var _ := Time();
      outcome := *;
      variables := *;
      attempt := Some((page, outcome));
    }
  }

  // ---------------------------------------------------------------- the executor's part

  const CURRENT_PAGE := "current_page_id"

  class PopupGuard {
    const popupPages: seq<Page>
    const settings: Settings
    const world: World
    var popupLastHandled: map<string, real>
    var popupConsecutiveHandles: nat
    var variables: map<string, Value>
    var prevFrame: Option<nat>   // frames go by their number
    var frameCount: nat
    ghost var frames: seq<Seen>
    ghost var closes: seq<Close>
    ghost var deadline: real     // of the drain under way, or the last one

    ghost predicate Valid()
      reads this, world
    {
      && CooldownKept(closes, settings.cooldownMs as real)
      && Remembered(closes, popupLastHandled)
      && InOrder(closes, world.now)
      && FramesInOrder(frames, world.now)
      && ClosedBefore(frames, |closes|)
      && frameCount == |frames|
    }

    constructor (popupPages: seq<Page>, settings: Settings, world: World)
      ensures Valid() && closes == [] && frames == []
      ensures this.popupPages == popupPages && this.settings == settings && this.world == world
    {
      this.popupPages, this.settings, this.world := popupPages, settings, world;
      popupLastHandled, popupConsecutiveHandles, variables := map[], 0, map[];
      prevFrame, frameCount := None, 0;
      frames, closes, deadline := [], [], 0.0;
    }

    /** Time since the page was last closed; a page never closed counts as closed at time 0. */
    function Elapsed(p: Page, now: real): real
      reads this
    {
      now - if p.Key() in popupLastHandled then popupLastHandled[p.Key()] else 0.0
    }

    /** A matching page that was closed too recently to be closed again. */
    predicate IsCooling(p: Page, now: real)
      reads this
    {
      Elapsed(p, now) < settings.cooldownMs as real
    }

    /** Tests the popup pages in order until one is to be closed. */
    method ScanPages(tests: seq<Test>, now: real) returns (scan: Scan)
      requires |tests| == |popupPages|
      modifies `variables
      ensures variables - {CURRENT_PAGE} == old(variables) - {CURRENT_PAGE}
      ensures scan == Quiet <==> NoneMatch(tests)
      ensures scan == Quiet ==> variables == old(variables)
      ensures scan.Hit? && scan.index < |popupPages| ==> variables == old(variables)[CURRENT_PAGE := Text(popupPages[scan.index].pageId)]
      ensures scan == Cooling <==>
        && !NoneMatch(tests)
        && forall i :: 0 <= i < |tests| ==> tests[i] == Miss || (tests[i] == Match && IsCooling(popupPages[i], now))
      ensures match scan
        case Hit(i) =>
          && i < |tests| && tests[i] == Match && !IsCooling(popupPages[i], now)
          && forall j :: 0 <= j < i ==> tests[j] == Miss || (tests[j] == Match && IsCooling(popupPages[j], now))
        case ScanCrashed =>
          exists i :: 0 <= i < |tests| && tests[i] == Crash
            && forall j :: 0 <= j < i ==> tests[j] == Miss || (tests[j] == Match && IsCooling(popupPages[j], now))
        case _ => true
    {
      var i, cooling := 0, false;
      while i < |popupPages|
        invariant 0 <= i <= |popupPages|
        invariant variables - {CURRENT_PAGE} == old(variables) - {CURRENT_PAGE}
        invariant forall j :: 0 <= j < i ==> tests[j] == Miss || (tests[j] == Match && IsCooling(popupPages[j], now))
        invariant cooling <==> exists j :: 0 <= j < i && tests[j] == Match
        invariant !cooling ==> variables == old(variables)
        invariant cooling ==> CURRENT_PAGE in variables && variables == old(variables)[CURRENT_PAGE := variables[CURRENT_PAGE]]
      {
        match tests[i] {
          case Crash =>
            return ScanCrashed;
          case Miss =>
          case Match =>
            variables := variables[CURRENT_PAGE := Text(popupPages[i].pageId)];
            assert variables == old(variables)[CURRENT_PAGE := Text(popupPages[i].pageId)];
            if !IsCooling(popupPages[i], now) {
              return Hit(i);
            }
            cooling := true;
        }
        i := i + 1;
      }
      scan := if cooling then Cooling else Quiet;
    }

    /** Whether the newest frame looks like the last one asked about since the last reset. */
    method FrameIsStable() returns (stable: bool)
      requires Valid() && frames != []
      requires prevFrame.Some? ==> prevFrame.value < |frames| - 1
      modifies `prevFrame, `frames
      ensures Valid()
      ensures stable ==> old(prevFrame).Some?
      ensures prevFrame == Some(|frames| - 1)
      ensures |frames| == |old(frames)| && frames[..|frames| - 1] == old(frames)[..|frames| - 1]
      ensures frames[|frames| - 1] == old(frames)[|frames| - 1].(like := if stable then old(prevFrame) else None)
    {
      hide CooldownKept, Remembered, InOrder;
      stable := false;
      ghost var before := prevFrame;
      if prevFrame.Some? {
        stable := world.LooksAlike();
      }
      ghost var last := frames[|frames| - 1];
      frames := frames[..|frames| - 1] + [last.(like := if stable then before else None)];
      prevFrame := Some(frameCount - 1);
    }

    /** The tests of the newest frame, appended to the trace; false if nothing could be captured. */
    method CaptureWorkspaceStep(ghost asked: real) returns (tests: Option<seq<Test>>)
      requires Valid()
      modifies `frames, `frameCount, world`now, world`captured
      ensures Valid() && old(world.now) <= world.now && world.captured == tests.Some?
      ensures tests.None? ==> frames == old(frames)
      ensures tests.Some? ==>
        && |tests.value| == |popupPages| && |frames| == |old(frames)| + 1
        && frames == old(frames) + [Fresh(asked, world.now, tests.value, |closes|, world.stop)]
    {
      tests := world.Capture(|popupPages|);
      if tests.Some? {
        frames := frames + [Fresh(asked, world.now, tests.value, |closes|, world.stop)];
        frameCount := frameCount + 1;
      }
    }

    /** Notes more about the newest frame. */
    ghost method Amend(f: Seen)
      requires Valid() && frames != [] && f.at == frames[|frames| - 1].at && f.closed <= |closes|
      modifies `frames
      ensures Valid() && frames == old(frames)[..|old(frames)| - 1] + [f]
    {
      frames := frames[..|frames| - 1] + [f];
    }

    /** Closes a page and remembers when. */
    method ClosePage(p: Page, decided: real) returns (outcome: CloseOutcome)
      requires Valid() && decided <= world.now && !IsCooling(p, decided)
      modifies `variables, `popupLastHandled, `closes, world`now, world`attempt
      ensures Valid() && old(world.now) <= world.now && world.attempt == Some((p, outcome))
      ensures outcome == Done ==>
        |closes| == |old(closes)| + 1 && old(closes) <= closes && closes[|old(closes)|].page == p.Key()
      ensures outcome != Done ==> closes == old(closes) && popupLastHandled == old(popupLastHandled)
    {
      hide CooldownKept, Remembered, InOrder, FramesInOrder;
      ghost var began := world.now;
      outcome, variables := world.PerformClose(p);
      TimePasses(closes, frames, began, world.now);
      if outcome == Done {
        var ended := ReadClock();
        EndedBy(closes, world.now);
        AddClose(closes, popupLastHandled, settings.cooldownMs as real, Close(p.Key(), began, ended));
        CloseInOrder(closes, Close(p.Key(), began, ended));
        closes := closes + [Close(p.Key(), began, ended)];
        popupLastHandled := popupLastHandled[p.Key() := ended];
      }
    }

    method ReadClock() returns (t: real)
      requires Valid()
      modifies world`now
      ensures Valid() && old(world.now) <= world.now == t
    {
      t := world.Time();
    }

    method Pause(ms: real)
      requires Valid() && ms >= 0.0
      modifies world`now
      ensures Valid() && old(world.now) + ms <= world.now
    {
      world.Sleep(ms);
    }

    /** Removes popups until none is left and the screen has been quiet long enough, or fails. */
    method DrainPopups(deadlineGiven: Option<real>) returns (r: Drain)
      requires Valid()
      modifies this, world
      ensures Valid()
      ensures popupPages == [] ==> r == Clear(0) && variables == old(variables) && closes == old(closes)
      ensures popupPages != [] && r.Clear? && r.handled == 0 ==>
        |frames| > |old(frames)| && NoneMatch(frames[|frames| - 1].tests)
      ensures popupPages != [] && r.Clear? && r.handled > 0 ==>
        Settled(frames, |old(frames)|, world.now, Max(1, settings.quietFrames), Max(0, settings.quietWindowMs) as real)
      ensures old(closes) <= closes && |closes| == |old(closes)| + r.handled
      ensures r.handled <= Max(0, settings.maxHandles)
      ensures popupPages != [] && r != Failed(0, Stopped) ==>
        && EndsAt(popupPages, closes, frames, settings, r.handled, world.captured, world.attempt, r)
        && AllWentOn(popupPages, settings, closes, frames, |old(frames)|, |old(closes)|, Gone(frames, r))
        && Rounds(frames, |old(frames)|, |old(closes)|, Poll(settings), deadline)
        && DeadlineIs(deadline, old(world.now), world.now, deadlineGiven)
      ensures r.Failed? && r.error == TimedOut ==> world.stop || world.now >= deadline
      ensures r == Failed(0, Stopped) ==> world.stop && variables == old(variables)
      ensures popupPages != [] && r != Failed(0, Stopped) ==>
        && CURRENT_PAGE in variables
        && variables[CURRENT_PAGE] == if CURRENT_PAGE in old(variables) then old(variables)[CURRENT_PAGE] else Text("")
      ensures popupPages != [] && r.Clear? && r.handled == 0 ==>
        variables - {CURRENT_PAGE} == old(variables) - {CURRENT_PAGE}
      ensures popupConsecutiveHandles ==
        if r.Clear? && popupPages != [] then 0
        else old(popupConsecutiveHandles) + if r.Failed? && r.error == TimedOut then 1 else 0
    {
      hide QuietRun, Settled, CooldownKept, Remembered, InOrder, FramesInOrder, DeadlineIs, EndsAt, AllWentOn, Rounds;
      if popupPages == [] { return Clear(0); }
      var stopped := world.IsStopped();
      if stopped { return Failed(0, Stopped); }
      var saved := if CURRENT_PAGE in variables then variables[CURRENT_PAGE] else Text("");
      r := DrainLoop(deadlineGiven);
      if r.Clear? {
        popupConsecutiveHandles := 0;
      } else if r.error == TimedOut {
        popupConsecutiveHandles := popupConsecutiveHandles + 1;
      }
      variables := variables[CURRENT_PAGE := saved];
    }

    /** A drain takes its own time limit from when it begins, or the given deadline if that is earlier. */
    ghost predicate DeadlineIs(deadline: real, earliest: real, latest: real, given: Option<real>) {
      exists begun: real :: earliest <= begun <= latest && DeadlineFrom(deadline, begun, given)
    }

    ghost predicate DeadlineFrom(deadline: real, begun: real, given: Option<real>) {
      var own := begun + Max(500, settings.totalTimeoutMs) as real;
      deadline == if given.Some? && given.value < own then given.value else own
    }

    /** The state between two rounds of a drain that found `frames0`, `closes0` and `variables0`. */
    ghost predicate Book(frames0: seq<Seen>, closes0: seq<Close>, variables0: map<string, Value>,
        handled: nat, quietFrames: nat, quietStarted: Option<real>, quietFrom: nat)
      reads this`frames, this`prevFrame, this`closes, this`variables, this`deadline
    {
      && |frames0| <= |frames| && |frames0| <= quietFrom
      && QuietRun(frames, prevFrame, quietFrames, quietStarted, quietFrom)
      && QuietExactly(frames, |frames0|, quietFrames, quietStarted, quietFrom)
      && closes0 <= closes && |closes| == |closes0| + handled && handled <= Max(0, settings.maxHandles)
      && (handled == 0 ==> variables - {CURRENT_PAGE} == variables0 - {CURRENT_PAGE})
      && Ledger(popupPages, settings, closes, frames, |frames0|, |closes0|, deadline)
    }

    /** What a drain leaves, before the current page is put back. */
    ghost predicate Drained(frames0: seq<Seen>, closes0: seq<Close>, variables0: map<string, Value>, r: Drain)
      reads this, world
    {
      && Valid()
      && (r.Clear? && r.handled == 0 ==>
           && |frames| > |frames0| && NoneMatch(frames[|frames| - 1].tests)
           && variables - {CURRENT_PAGE} == variables0 - {CURRENT_PAGE})
      && (r.Clear? && r.handled > 0 ==>
           Settled(frames, |frames0|, world.now, Max(1, settings.quietFrames), Max(0, settings.quietWindowMs) as real))
      && closes0 <= closes && |closes| == |closes0| + r.handled && r.handled <= Max(0, settings.maxHandles)
      && (r.Failed? ==> r.error != Stopped)
      && EndsAt(popupPages, closes, frames, settings, r.handled, world.captured, world.attempt, r)
      && AllWentOn(popupPages, settings, closes, frames, |frames0|, |closes0|, Gone(frames, r))
      && Rounds(frames, |frames0|, |closes0|, Poll(settings), deadline)
    }

    /** The guarded part, from the first reading of the clock on. */
    method DrainLoop(deadlineGiven: Option<real>) returns (r: Drain)
      requires Valid() && !world.stop
      modifies `variables, `popupLastHandled, `closes, `frames, `frameCount, `prevFrame, `deadline, world
      ensures Drained(old(frames), old(closes), old(variables), r) && DeadlineIs(deadline, old(world.now), world.now, deadlineGiven)
      ensures r.Failed? && r.error == TimedOut ==> world.stop || world.now >= deadline
    {
      hide CooldownKept, Remembered, InOrder, Drained, Book, ClosedBefore;
      var begin := ReadClock();
      var until := begin + Max(500, settings.totalTimeoutMs) as real;
      if deadlineGiven.Some? && deadlineGiven.value < until { until := deadlineGiven.value; }
      deadline := until;
      assert DeadlineFrom(deadline, begin, deadlineGiven);
      var poll := Max(30, settings.pollMs) as real;
      var handled: nat, quietFrames: nat := 0, 0;
      var quietStarted: Option<real> := None;
      ghost var quietFrom: nat := |frames|;
      prevFrame := None;
      BookAtFirst();

      var now := ReadClock();
      var stopped := world.IsStopped();
      while now < until && !stopped
        invariant Valid() && Book(old(frames), old(closes), old(variables), handled, quietFrames, quietStarted, quietFrom)
        invariant begin <= now <= world.now && stopped == world.stop && deadline == until
        invariant |old(frames)| <= |frames|
        invariant |frames| > |old(frames)| ==> now - frames[|frames| - 1].at >= poll
        invariant quietStarted.Some? ==> quietStarted.value <= world.now
        decreases until - now
      {
        var verdict;
        verdict, handled, quietFrames, quietStarted, quietFrom :=
          DrainRound(now, handled, quietFrames, quietStarted, quietFrom, old(frames), old(closes), old(variables));
        if verdict.Some? { return verdict.value; }
        Pause(poll);
        now := ReadClock();
        stopped := world.IsStopped();
      }
      r := Failed(handled, TimedOut);
      TimedOutIsDrained(handled, quietFrames, quietStarted, quietFrom, old(frames), old(closes), old(variables));
    }

    lemma BookAtFirst()
      requires Valid() && prevFrame == None
      ensures Book(frames, closes, variables, 0, 0, None, |frames|)
    {
      hide CooldownKept, Remembered, InOrder, FramesInOrder, Ledger;
      NothingQuiet(frames);
      NothingLedgered(popupPages, settings, closes, frames, deadline);
    }

    lemma TimedOutIsDrained(handled: nat, quietFrames: nat, quietStarted: Option<real>, quietFrom: nat,
        frames0: seq<Seen>, closes0: seq<Close>, variables0: map<string, Value>)
      requires Valid() && Book(frames0, closes0, variables0, handled, quietFrames, quietStarted, quietFrom)
      ensures Drained(frames0, closes0, variables0, Failed(handled, TimedOut))
    {
      hide QuietRun, QuietExactly, CooldownKept, Remembered, InOrder, FramesInOrder, AllWentOn, Rounds;
    }

    lemma CaptureFailedIsDrained(frames0: seq<Seen>, closes0: seq<Close>, variables0: map<string, Value>,
        handled: nat, quietFrames: nat, quietStarted: Option<real>, quietFrom: nat)
      requires Valid() && Book(frames0, closes0, variables0, handled, quietFrames, quietStarted, quietFrom) && !world.captured
      ensures Drained(frames0, closes0, variables0, Failed(handled, CaptureFailed))
    {
      hide QuietRun, QuietExactly, CooldownKept, Remembered, InOrder, FramesInOrder, AllWentOn, Rounds;
    }

    /** What the remembered times say of the pages is what the closes say. */
    lemma Weighed(f: Seen)
      requires Valid() && f.closed == |closes| && |f.tests| == |popupPages|
      ensures Weighs(f, f.checked)
    {
      hide CooldownKept, InOrder, FramesInOrder, Recent, Remembered;
      forall j | 0 <= j < |popupPages|
        ensures IsCooling(popupPages[j], f.checked) <==> Recent(closes, f.closed, popupPages[j].Key(), f.checked, settings.cooldownMs as real)
      {
        RecentIff(closes, popupLastHandled, popupPages[j].Key(), f.checked, settings.cooldownMs as real);
      }
    }

    /** The newest frame ends the drain. */
    lemma EndsHere(frames0: seq<Seen>, closes0: seq<Close>, variables0: map<string, Value>, handled: nat, r: Drain)
      requires Valid() && LedgerBefore(popupPages, settings, closes, frames, |frames0|, |closes0|, deadline)
      requires EndsAt(popupPages, closes, frames, settings, handled, world.captured, world.attempt, r) && r.handled == handled
      requires closes0 <= closes && |closes| == |closes0| + handled && handled <= Max(0, settings.maxHandles)
      requires r.Failed? ==> r.error != Stopped && r.error != TimedOut && r.error != CaptureFailed
      requires r.Clear? && handled == 0 ==>
        NoneMatch(frames[|frames| - 1].tests) && variables - {CURRENT_PAGE} == variables0 - {CURRENT_PAGE}
      requires r.Clear? && handled > 0 ==>
        Settled(frames, |frames0|, world.now, Max(1, settings.quietFrames), Max(0, settings.quietWindowMs) as real)
      ensures Drained(frames0, closes0, variables0, r)
    {
      hide CooldownKept, Remembered, InOrder, FramesInOrder, AllWentOn, Rounds, EndsAt, Settled, NoneMatch;
    }

    /** Takes a frame, reads the clock, and tests the popup pages on the frame. */
    method LookAtFrame(ghost asked: real) returns (scan: Option<Scan>, now: real, ghost f: Seen)
      requires Valid() && asked <= world.now && !world.stop
      modifies `variables, `frames, `frameCount, world`now, world`captured
      ensures Valid() && old(world.now) <= world.now && variables - {CURRENT_PAGE} == old(variables) - {CURRENT_PAGE}
      ensures scan.None? ==> frames == old(frames) && variables == old(variables) && !world.captured
      ensures scan.Some? ==>
        && frames == old(frames) + [f] && f.asked == asked && InTurn(f) && f.closed == f.left == |closes| && f.like == None
        && f.at <= world.now && f.checked == now <= world.now
      ensures match scan
        case None => true
        case Some(ScanCrashed) => SomeCrash(popupPages, closes, f, settings.cooldownMs as real)
        case Some(Hit(i)) => i < |popupPages| && ToClose(popupPages, closes, f, i, settings.cooldownMs as real) && !IsCooling(popupPages[i], now)
        case Some(Cooling) => OnlyCooling(popupPages, closes, f, settings.cooldownMs as real)
        case Some(Quiet) => NoneMatch(f.tests)
    {
      hide CooldownKept, Remembered, InOrder, FramesInOrder, ClosedBefore, NoneMatch, Recent, IsCooling, ToClose, OnlyCooling, SomeCrash;
      ghost var before := frames;
      scan, now := None, 0.0;
      f := Fresh(asked, asked, [], 0, false);
      var tests := CaptureWorkspaceStep(asked);
      if tests.None? { return; }
      now := ReadClock();
      f := frames[|frames| - 1].(checked := now);
      Amend(f);
      assert frames == before + [f];
      var found := ScanPages(tests.value, now);
      scan := Some(found);
      Weighed(f);
      match found {
        case ScanCrashed => CrashIsSeen(f, now);
        case Hit(i) => HitIsToClose(f, now, i);
        case Cooling => CoolingIsSeen(f, now);
        case Quiet =>
      }
    }

    /** One frame: look at it, then close a popup, wait, or count it towards the quiet stretch. */
    method DrainRound(ghost asked: real, handled: nat, quietFrames: nat, quietStarted: Option<real>, ghost quietFrom: nat,
        ghost frames0: seq<Seen>, ghost closes0: seq<Close>, ghost variables0: map<string, Value>)
      returns (verdict: Option<Drain>, closed: nat, count: nat, started: Option<real>, ghost from: nat)
      requires Valid() && Book(frames0, closes0, variables0, handled, quietFrames, quietStarted, quietFrom)
      requires asked <= world.now && asked < deadline && !world.stop && |frames0| <= |frames|
      requires |frames| > |frames0| ==> asked - frames[|frames| - 1].at >= Poll(settings)
      requires quietStarted.Some? ==> quietStarted.value <= world.now
      modifies `variables, `popupLastHandled, `closes, `frames, `frameCount, `prevFrame, world`now, world`captured, world`attempt
      ensures old(world.now) <= world.now
      ensures verdict.Some? ==> Drained(frames0, closes0, variables0, verdict.value)
      ensures verdict.Some? ==> verdict.value.Clear? || verdict.value.error != TimedOut
      ensures verdict.None? ==> Valid() && Book(frames0, closes0, variables0, closed, count, started, from)
      ensures verdict.None? ==> |frames0| < |frames| && frames[|frames| - 1].at <= world.now
      ensures verdict.None? && started.Some? ==> started.value <= world.now
    {
      hide CooldownKept, Remembered, InOrder, FramesInOrder, NoneMatch, ClosedBefore, QuietRun, QuietExactly, Ledger, LedgerBefore, AllWentOn,
        Rounds, Settled, Drained, IsCooling, ToClose, OnlyCooling, SomeCrash, Poll;
      verdict, closed, count, started, from := None, handled, quietFrames, quietStarted, quietFrom;
      ghost var before := frames;
      ClosesAreKnown();
      var scan, now, f := LookAtFrame(asked);
      if scan.None? {
        verdict := Some(Failed(handled, CaptureFailed));
        CaptureFailedIsDrained(frames0, closes0, variables0, handled, quietFrames, quietStarted, quietFrom);
        return;
      }
      assert frames[|frames| - 1] == f;
      LedgerOpens(popupPages, settings, closes, before, |frames0|, |closes0|, deadline, f);
      match scan.value {
        case ScanCrashed =>
          verdict := Some(Failed(handled, TestCrashed));
          EndsHere(frames0, closes0, variables0, handled, verdict.value);
        case Hit(i) =>
          LoudMatch(popupPages, closes, f, i, settings.cooldownMs as real);
          verdict, closed := HandleHit(f, before, i, now, handled, frames0, closes0, variables0);
          if verdict.Some? { return; }
          count, started, prevFrame := 0, None, None;
          NothingQuiet(frames);
          LoudLast(frames, |frames0|, from);
          LastIsNow();
        case Cooling =>
          CoolingGoesOn(popupPages, settings, closes, before, f, |frames0|, |closes0|, deadline, prevFrame, quietFrames, quietStarted, quietFrom);
          count, started := 0, None;
          LastIsNow();
        case Quiet =>
          if handled == 0 {
            verdict := Some(Clear(0));
            EndsHere(frames0, closes0, variables0, handled, verdict.value);
            return;
          }
          HandledBefore(popupPages, settings, closes, before, |frames0|, |closes0|, deadline);
          verdict, count, started, from := HandleQuiet(f, before, handled, quietFrames, quietStarted, quietFrom, frames0, closes0, variables0);
          if verdict.None? { LastIsNow(); }
      }
    }

    lemma ClosesAreKnown()
      requires Valid()
      ensures ClosedBefore(frames, |closes|)
    {
      hide CooldownKept, Remembered, InOrder, FramesInOrder, ClosedBefore;
    }

    lemma LastIsNow()
      requires Valid() && frames != []
      ensures frames[|frames| - 1].at <= world.now
    {
      hide CooldownKept, Remembered, InOrder, ClosedBefore;
    }

    /** The scan stepped over page `j`. */
    predicate SteppedOver(f: Seen, now: real, j: nat)
      requires j < |f.tests| == |popupPages|
      reads this
    {
      f.tests[j] == Miss || (f.tests[j] == Match && IsCooling(popupPages[j], now))
    }

    ghost predicate Weighs(f: Seen, now: real)
      reads this
    {
      && |f.tests| == |popupPages|
      && forall j :: 0 <= j < |popupPages| ==>
           (IsCooling(popupPages[j], now) <==> Recent(closes, f.closed, popupPages[j].Key(), f.checked, settings.cooldownMs as real))
    }

    lemma PassedIff(f: Seen, now: real, j: nat)
      requires Weighs(f, now) && j < |popupPages|
      ensures SteppedOver(f, now, j) <==> Passed(popupPages, closes, f, j, settings.cooldownMs as real)
      ensures IsCooling(popupPages[j], now) <==> Recent(closes, f.closed, popupPages[j].Key(), f.checked, settings.cooldownMs as real)
    {
      hide IsCooling, Recent;
      assert IsCooling(popupPages[j], now) <==> Recent(closes, f.closed, popupPages[j].Key(), f.checked, settings.cooldownMs as real);
    }

    lemma CrashIsSeen(f: Seen, now: real)
      requires Weighs(f, now)
      requires exists i :: 0 <= i < |f.tests| && f.tests[i] == Crash && forall j :: 0 <= j < i ==> SteppedOver(f, now, j)
      ensures SomeCrash(popupPages, closes, f, settings.cooldownMs as real)
    {
      hide IsCooling, Recent, Passed, SteppedOver;
      var cooldown := settings.cooldownMs as real;
      var i: nat :| i < |f.tests| && f.tests[i] == Crash && forall j :: 0 <= j < i ==> SteppedOver(f, now, j);
      forall j: nat | j < i ensures Passed(popupPages, closes, f, j, cooldown) { PassedIff(f, now, j); }
      assert CrashesAt(popupPages, closes, f, i, settings.cooldownMs as real);
    }

    lemma HitIsToClose(f: Seen, now: real, i: nat)
      requires Weighs(f, now) && i < |f.tests| && f.tests[i] == Match && !IsCooling(popupPages[i], now)
      requires forall j :: 0 <= j < i ==> SteppedOver(f, now, j)
      ensures ToClose(popupPages, closes, f, i, settings.cooldownMs as real)
    {
      hide IsCooling, Recent, Passed, SteppedOver;
      var cooldown := settings.cooldownMs as real;
      PassedIff(f, now, i);
      forall j: nat | j < i ensures Passed(popupPages, closes, f, j, cooldown) { PassedIff(f, now, j); }
    }

    lemma CoolingIsSeen(f: Seen, now: real)
      requires Weighs(f, now) && !NoneMatch(f.tests) && forall j :: 0 <= j < |f.tests| ==> SteppedOver(f, now, j)
      ensures OnlyCooling(popupPages, closes, f, settings.cooldownMs as real)
    {
      hide IsCooling, Recent, NoneMatch, Passed, SteppedOver;
      var cooldown := settings.cooldownMs as real;
      forall j: nat | j < |popupPages| ensures Passed(popupPages, closes, f, j, cooldown) { PassedIff(f, now, j); }
    }

    /** A popup to be closed: too many already, or close it and note the time. */
    method HandleHit(ghost f: Seen, ghost before: seq<Seen>, i: nat, now: real, handled: nat,
        ghost frames0: seq<Seen>, ghost closes0: seq<Close>, ghost variables0: map<string, Value>)
      returns (verdict: Option<Drain>, closed: nat)
      requires Valid() && frames == before + [f] && f.closed == |closes| && now <= world.now && InTurn(f)
      requires i < |popupPages| && ToClose(popupPages, closes, f, i, settings.cooldownMs as real) && !IsCooling(popupPages[i], now)
      requires LedgerBefore(popupPages, settings, closes, frames, |frames0|, |closes0|, deadline) && |frames0| <= |before|
      requires closes0 <= closes && |closes| == |closes0| + handled && handled <= Max(0, settings.maxHandles)
      modifies `variables, `popupLastHandled, `closes, `frames, world`now, world`attempt
      ensures old(world.now) <= world.now
      ensures verdict.Some? ==> Drained(frames0, closes0, variables0, verdict.value) && verdict.value.Failed? && verdict.value.error != TimedOut
      ensures verdict.None? ==>
        && Valid() && frames == before + [f.(left := |closes|)] && closed == handled + 1 <= Max(0, settings.maxHandles)
        && closes0 <= closes && |closes| == |closes0| + closed
        && Ledger(popupPages, settings, closes, frames, |frames0|, |closes0|, deadline)
    {
      hide CooldownKept, Remembered, InOrder, FramesInOrder, NoneMatch, ClosedBefore, Ledger, LedgerBefore, AllWentOn, Rounds, Recent, Settled,
        Drained, IsCooling, ToClose, WentOn;
      verdict, closed := None, handled;
      assert frames[|frames| - 1] == f && frames[..|frames| - 1] == before;
      if handled >= settings.maxHandles {
        verdict := Some(Failed(handled, TooManyPopups));
        EndsHere(frames0, closes0, variables0, handled, verdict.value);
        return;
      }
      ghost var closesBefore := closes;
      var outcome := ClosePage(popupPages[i], now);
      if outcome != Done {
        verdict := Some(Failed(handled, if outcome == Threw then CloseRaised else CloseFailed));
        EndsHere(frames0, closes0, variables0, handled, verdict.value);
        return;
      }
      closed := handled + 1;
      ghost var g := f.(left := |closes|);
      LedgerNotes(popupPages, settings, closesBefore, closes, before, f, g, |frames0|, |closes0|, deadline);
      Amend(g);
      assert frames == before + [g];
      ClosingGoesOn(popupPages, settings, closesBefore, closes, before, f, i, |frames0|, |closes0|);
      LedgerCloses(popupPages, settings, closes, frames, |frames0|, |closes0|, deadline);
    }

    /** A frame without a popup after something was closed: count it, and see whether it completes the quiet. */
    method HandleQuiet(ghost f: Seen, ghost before: seq<Seen>, handled: nat, quietFrames: nat, quietStarted: Option<real>, ghost quietFrom: nat,
        ghost frames0: seq<Seen>, ghost closes0: seq<Close>, ghost variables0: map<string, Value>)
      returns (verdict: Option<Drain>, count: nat, started: Option<real>, ghost from: nat)
      requires Valid() && frames == before + [f] && f.closed == f.left == |closes| && f.like == None && NoneMatch(f.tests)
      requires InTurn(f) && f.at <= world.now
      requires LedgerBefore(popupPages, settings, closes, frames, |frames0|, |closes0|, deadline)
      requires handled > 0 && closes0 <= closes && |closes| == |closes0| + handled && handled <= Max(0, settings.maxHandles)
      requires |frames0| < |before| && |frames0| <= quietFrom
      requires QuietRun(before, prevFrame, quietFrames, quietStarted, quietFrom) && QuietExactly(before, |frames0|, quietFrames, quietStarted, quietFrom)
      requires quietStarted.Some? ==> quietStarted.value <= world.now
      modifies `frames, `prevFrame, world`now
      ensures old(world.now) <= world.now
      ensures verdict.Some? ==> Drained(frames0, closes0, variables0, verdict.value) && verdict.value.Clear?
      ensures verdict.None? ==>
        && Valid() && |frames| == |before| + 1 && |frames0| <= from
        && QuietRun(frames, prevFrame, count, started, from) && QuietExactly(frames, |frames0|, count, started, from)
        && Ledger(popupPages, settings, closes, frames, |frames0|, |closes0|, deadline)
        && started.Some? && started.value <= world.now
    {
      hide CooldownKept, Remembered, InOrder, NoneMatch, ClosedBefore, Ledger, LedgerBefore, AllWentOn, Rounds, QuietRun, QuietExactly, Settled,
        Drained, NotComplete;
      verdict := None;
      ghost var since := |frames0|;
      count, started, from := CountQuietFrame(f, before, quietFrames, quietStarted, quietFrom, since);
      ghost var g := frames[|frames| - 1];
      assert frames == before + [g];
      var settled := QuietEnough(count, started.value, from, since);
      ghost var h := frames[|frames| - 1];
      assert frames == before + [h];
      LedgerNotes(popupPages, settings, closes, closes, before, f, h, since, |closes0|, deadline);
      if settled {
        verdict := Some(Clear(handled));
        EndsHere(frames0, closes0, variables0, handled, verdict.value);
      } else {
        assert WentOn(popupPages, settings, closes, frames, since, |closes0|, |frames| - 1);
        LedgerCloses(popupPages, settings, closes, frames, since, |closes0|, deadline);
      }
    }

    method CountQuietFrame(ghost f: Seen, ghost before: seq<Seen>, quietFrames: nat, quietStarted: Option<real>, ghost quietFrom: nat, ghost since: nat)
      returns (count: nat, started: Option<real>, ghost from: nat)
      requires Valid() && frames == before + [f] && since < |before| && since <= quietFrom && NoneMatch(f.tests) && f.like == None
      requires QuietRun(before, prevFrame, quietFrames, quietStarted, quietFrom) && QuietExactly(before, since, quietFrames, quietStarted, quietFrom)
      requires quietStarted.Some? ==> quietStarted.value <= world.now
      modifies `prevFrame, `frames, world`now
      ensures Valid() && old(world.now) <= world.now && |frames| == |before| + 1 && frames[..|before|] == before
      ensures frames[|before|] == f.(like := frames[|before|].like, counted := frames[|before|].counted)
      ensures old(world.now) <= frames[|before|].counted <= world.now
      ensures started.Some? && started.value <= world.now && since <= from
      ensures QuietRun(frames, prevFrame, count, started, from) && QuietExactly(frames, since, count, started, from)
    {
      hide CooldownKept, Remembered, InOrder, FramesInOrder, ClosedBefore, NoneMatch, QuietRun, QuietExactly;
      LastIsClosed();
      started := quietStarted;
      if started.None? {
        var t := ReadClock();
        started := Some(t);
      }
      ghost var g := f.(counted := world.now);
      assert frames[|frames| - 1] == f && frames[..|frames| - 1] == before;
      Amend(g);
      PrevIsBefore(before, prevFrame, quietFrames, quietStarted, quietFrom);
      ghost var prev := prevFrame;
      assert frames[..|frames| - 1] == before;
      var stable := FrameIsStable();
      count := if stable then quietFrames + 1 else 0;
      from := if quietStarted.None? then |before| else quietFrom;
      ghost var h := g.(like := if stable then prev else None);
      assert frames == before + [h];
      FramesPast(before, f, world.now);
      OneMoreQuietFrame(before, h, prev, quietFrames, quietStarted, quietFrom, stable, if quietStarted.None? then started.value else 0.0);
      OneMoreExactly(before, h, since, quietFrames, quietStarted, quietFrom, stable, started.value);
    }

    method QuietEnough(quietFrames: nat, started: real, ghost from: nat, ghost since: nat) returns (settled: bool)
      requires Valid() && frames != [] && since <= from
      requires QuietRun(frames, prevFrame, quietFrames, Some(started), from) && QuietExactly(frames, since, quietFrames, Some(started), from)
      modifies `frames, world`now
      ensures Valid() && old(world.now) <= world.now && |frames| == |old(frames)|
      ensures frames == old(frames)[..|old(frames)| - 1] + [old(frames)[|old(frames)| - 1].(judged := world.now)]
      ensures QuietRun(frames, prevFrame, quietFrames, Some(started), from) && QuietExactly(frames, since, quietFrames, Some(started), from)
      ensures settled ==>
        && Settled(frames, since, world.now, Max(1, settings.quietFrames), Max(0, settings.quietWindowMs) as real)
        && Complete(frames, from, |frames| - 1, Max(1, settings.quietFrames), Max(0, settings.quietWindowMs) as real)
      ensures !settled ==> NotComplete(frames, since, |frames| - 1, Max(1, settings.quietFrames), Max(0, settings.quietWindowMs) as real)
    {
      hide QuietRun, QuietExactly, Settled, CooldownKept, Remembered, InOrder, FramesInOrder, ClosedBefore, Complete, NotComplete;
      var required: nat, window := Max(1, settings.quietFrames), Max(0, settings.quietWindowMs) as real;
      settled := false;
      if quietFrames >= required {
        var t := ReadClock();
        settled := t - started >= window;
      }
      ghost var before := frames;
      ghost var g := frames[|frames| - 1].(judged := world.now);
      LastIsClosed();
      Amend(g);
      QuietKept(before, g, prevFrame, since, quietFrames, Some(started), from);
      if settled {
        SettledAtLast(frames, prevFrame, quietFrames, started, from, since, world.now, required, window);
        CompleteAtLast(frames, prevFrame, since, quietFrames, started, from, required, window);
      } else {
        NotYetComplete(frames, since, quietFrames, started, from, required, window);
      }
    }

    lemma LastIsClosed()
      requires Valid() && frames != []
      ensures frames[|frames| - 1].closed <= |closes|
    {
      hide CooldownKept, Remembered, InOrder, FramesInOrder;
    }
  }
}
