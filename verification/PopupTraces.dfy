/** What a drain of popups leaves behind -- frames, closes, times -- and what each round of it comes to.
    Times are in milliseconds. */
module PopupTraces {
  import opened Common

  /** What testing one popup page on a frame gives. */
  datatype Test = Match | Miss | Crash

  datatype Page = Page(nodeId: string, pageId: string) {
    function Key(): string { if pageId != "" then pageId else nodeId }
  }

  datatype Settings = Settings(
    maxHandles: int, cooldownMs: int, totalTimeoutMs: int, pollMs: int, quietFrames: int, quietWindowMs: int)

  /** A captured frame and its round.  The clock said `asked` before it was taken, `at` when it was there,
      `checked` when its popups were weighed; `tests` is what each popup page's test gives on it.  If it
      shows none it is `counted` towards a quiet stretch, perhaps judged still against the earlier frame
      `like`, and at `judged` the stretch is long enough or not.  Before its round `closed` closes had been
      made, after it `left`; `stopped` is the stop flag when it was taken. */
  datatype Seen = Seen(
    asked: real, at: real, checked: real, tests: seq<Test>, like: Option<nat>, counted: real, judged: real, closed: nat, left: nat,
    stopped: bool)

  /** A successful close: of which page, and from when to when. */
  datatype Close = Close(page: string, began: real, ended: real)

  datatype DrainError = Stopped | CaptureFailed | TestCrashed | TooManyPopups | CloseFailed | CloseRaised | TimedOut

  datatype Drain = Clear(handled: nat) | Failed(handled: nat, error: DrainError)

  datatype Scan = ScanCrashed | Hit(index: nat) | Cooling | Quiet

  datatype CloseOutcome = Done | Refused | Threw

  function Max(a: int, b: int): int { if a > b then a else b }

  predicate NoneMatch(tests: seq<Test>) {
    forall i :: 0 <= i < |tests| ==> tests[i] == Miss
  }

  // ---------------------------------------------------------------- traces

  /** A page is not closed again until the cooldown after its last close is over. */
  ghost predicate CooldownKept(closes: seq<Close>, cooldown: real) {
    forall i, j :: 0 <= i < j < |closes| && closes[i].page == closes[j].page ==> closes[j].began - closes[i].ended >= cooldown
  }

  /** The remembered times are those of each page's last close. */
  ghost predicate Remembered(closes: seq<Close>, last: map<string, real>) {
    && (forall i :: 0 <= i < |closes| ==> closes[i].page in last && closes[i].ended <= last[closes[i].page])
    && (forall p :: p in last ==> exists i :: 0 <= i < |closes| && closes[i].page == p && closes[i].ended == last[p])
  }

  ghost predicate InOrder(closes: seq<Close>, now: real) {
    forall i :: 0 <= i < |closes| ==> closes[i].began <= closes[i].ended <= now
  }

  ghost predicate FramesInOrder(frames: seq<Seen>, now: real) {
    && (forall i :: 0 <= i < |frames| ==> frames[i].at <= now)
    && (forall i, j :: 0 <= i < j < |frames| ==> frames[i].at <= frames[j].at)
  }

  lemma AddClose(closes: seq<Close>, last: map<string, real>, cooldown: real, c: Close)
    requires CooldownKept(closes, cooldown) && Remembered(closes, last)
    requires c.page in last ==> c.began - last[c.page] >= cooldown
    requires forall i :: 0 <= i < |closes| ==> closes[i].ended <= c.ended
    ensures CooldownKept(closes + [c], cooldown)
    ensures Remembered(closes + [c], last[c.page := c.ended])
  {
    var all, now := closes + [c], last[c.page := c.ended];
    assert all[|closes|] == c;
    forall p | p in now
      ensures exists i :: 0 <= i < |all| && all[i].page == p && all[i].ended == now[p]
    {
      if p != c.page {
        var i :| 0 <= i < |closes| && closes[i].page == p && closes[i].ended == last[p];
        assert all[i] == closes[i];
      }
    }
  }

  lemma TimePasses(closes: seq<Close>, frames: seq<Seen>, t0: real, t1: real)
    requires InOrder(closes, t0) && FramesInOrder(frames, t0) && t0 <= t1
    ensures InOrder(closes, t1) && FramesInOrder(frames, t1)
  {
  }

  lemma EndedBy(closes: seq<Close>, now: real)
    requires InOrder(closes, now)
    ensures forall i :: 0 <= i < |closes| ==> closes[i].ended <= now
  {
  }

  lemma CloseInOrder(closes: seq<Close>, c: Close)
    requires InOrder(closes, c.ended) && c.began <= c.ended
    ensures InOrder(closes + [c], c.ended)
  {
  }

  function ClosesOf(page: string, closes: seq<Close>): seq<Close> {
    if closes == [] then []
    else ClosesOf(page, closes[..|closes| - 1]) + if closes[|closes| - 1].page == page then [closes[|closes| - 1]] else []
  }

  lemma {:induction false} ClosesOfKeeps(page: string, closes: seq<Close>, cooldown: real, now: real)
    requires CooldownKept(closes, cooldown) && InOrder(closes, now)
    ensures var own := ClosesOf(page, closes);
      && CooldownKept(own, cooldown) && InOrder(own, now)
      && forall c :: c in own ==> c in closes && c.page == page
  {
    if closes != [] {
      var front, c := closes[..|closes| - 1], closes[|closes| - 1];
      ClosesOfKeeps(page, front, cooldown, now);
      var own := ClosesOf(page, front);
      if c.page == page {
        forall i | 0 <= i < |own|
          ensures c.began - own[i].ended >= cooldown
        {
          assert own[i] in front;
          var k :| 0 <= k < |front| && front[k] == own[i];
          assert closes[k] == front[k];
        }
      }
    }
  }

  /** However many drains run, the closes of one page are rationed: `n + 1` of them span at least
      `n` cooldowns. */
  lemma {:induction false} ClosesAreRationed(page: string, closes: seq<Close>, cooldown: real, now: real)
    requires CooldownKept(closes, cooldown) && InOrder(closes, now)
    ensures var own := ClosesOf(page, closes);
      own != [] ==> own[|own| - 1].ended - own[0].ended >= Cooldowns(|own| - 1, cooldown)
  {
    hide ClosesOf, CooldownKept, InOrder, Cooldowns;
    ClosesOfKeeps(page, closes, cooldown, now);
    Spread(page, ClosesOf(page, closes), cooldown, now);
  }

  function Cooldowns(n: nat, cooldown: real): real {
    n as real * cooldown
  }

  lemma OneMore(n: nat, c: real)
    ensures Cooldowns(0, c) == 0.0 && Cooldowns(n + 1, c) == Cooldowns(n, c) + c
  {
  }

  lemma {:induction false} Spread(page: string, own: seq<Close>, cooldown: real, now: real)
    requires CooldownKept(own, cooldown) && InOrder(own, now)
    requires forall c :: c in own ==> c.page == page
    ensures own != [] ==> own[|own| - 1].ended - own[0].ended >= Cooldowns(|own| - 1, cooldown)
  {
    hide Cooldowns;
    if own == [] {
    } else if |own| == 1 {
      OneMore(0, cooldown);
    } else {
      var n: nat := |own| - 1;
      Spread(page, own[..n], cooldown, now);
      assert own[n] in own && own[n - 1] in own;
      assert own[n].began - own[n - 1].ended >= cooldown;
      OneMore(n - 1, cooldown);
    }
  }

  /** The end of a drain that removed something: the last `quiet` frames showed no popup and were
      each judged still against an earlier popup-free frame, all but the first of them against the
      frame just before; and every frame of the last `window` milliseconds showed no popup. */
  ghost predicate Settled(frames: seq<Seen>, since: nat, now: real, quiet: nat, window: real) {
    && since + quiet <= |frames|
    && (forall i :: |frames| - quiet <= i < |frames| ==> StillAndClear(frames, i))
    && (forall i :: |frames| - quiet < i < |frames| ==> frames[i].like == Some(i - 1))
    && (forall i :: 0 <= i < |frames| && frames[i].at > now - window ==> NoneMatch(frames[i].tests))
  }

  ghost predicate StillAndClear(frames: seq<Seen>, i: nat)
    requires i < |frames|
  {
    && NoneMatch(frames[i].tests)
    && frames[i].like.Some? && frames[i].like.value < i && NoneMatch(frames[frames[i].like.value].tests)
  }

  /** The book-keeping of a quiet stretch: frames from `from` on show no popup, those before were
      taken before it started, and the newest `quiet` of them count as still. */
  ghost predicate QuietRun(frames: seq<Seen>, prev: Option<nat>, quiet: nat, started: Option<real>, from: nat) {
    && (started.None? ==> quiet == 0)
    && (started.Some? ==>
         && from + quiet <= |frames|
         && (forall i :: from <= i < |frames| ==> NoneMatch(frames[i].tests))
         && (forall i :: 0 <= i < from ==> frames[i].at <= started.value))
    && (forall i :: |frames| - quiet <= i < |frames| ==> 0 <= i && StillAndClear(frames, i))
    && (forall i :: |frames| - quiet < i < |frames| ==> frames[i].like == Some(i - 1))
    && (quiet > 0 ==> prev == Some(|frames| - 1))
    && (prev.Some? ==> prev.value < |frames| && NoneMatch(frames[prev.value].tests))
  }

  /** One more popup-free frame, judged still against `prev` or not. */
  lemma OneMoreQuietFrame(before: seq<Seen>, frame: Seen, prev: Option<nat>, quiet: nat, started: Option<real>, from: nat,
      stable: bool, now: real)
    requires QuietRun(before, prev, quiet, started, from) && NoneMatch(frame.tests)
    requires stable ==> prev.Some?
    requires frame.like == if stable then prev else None
    requires started.None? ==> forall i :: 0 <= i < |before| ==> before[i].at <= now
    ensures QuietRun(before + [frame], Some(|before|), if stable then quiet + 1 else 0,
      if started.None? then Some(now) else started, if started.None? then |before| else from)
  {
    var after := before + [frame];
    assert forall i :: 0 <= i < |before| ==> after[i] == before[i];
    assert after[|before|] == frame;
    var q := if stable then quiet + 1 else 0;
    forall i | |after| - q <= i < |after|
      ensures 0 <= i && StillAndClear(after, i)
    {
      if i < |before| { assert StillAndClear(before, i); }
    }
  }

  lemma SettledAtLast(frames: seq<Seen>, prev: Option<nat>, quiet: nat, started: real, from: nat, since: nat, now: real,
      required: nat, window: real)
    requires QuietRun(frames, prev, quiet, Some(started), from)
    requires required <= quiet && since <= from && now - started >= window
    ensures Settled(frames, since, now, required, window)
  {
  }

  // ---------------------------------------------------------------- what a round comes to

  /** The page was closed less than the cooldown ago; one never closed counts as closed at time 0. */
  ghost predicate Recent(closes: seq<Close>, n: nat, page: string, now: real, cooldown: real) {
    || (exists j :: 0 <= j < n && j < |closes| && closes[j].page == page && now - closes[j].ended < cooldown)
    || (now < cooldown && forall j :: 0 <= j < n && j < |closes| ==> closes[j].page != page)
  }

  /** Page `j` is not there, or there and closed too recently. */
  ghost predicate Passed(pages: seq<Page>, closes: seq<Close>, f: Seen, j: nat, cooldown: real)
    requires j < |pages| == |f.tests|
  {
    f.tests[j] == Miss || (f.tests[j] == Match && Recent(closes, f.closed, pages[j].Key(), f.checked, cooldown))
  }

  /** Page `k` is the first that is there and may be closed. */
  ghost predicate ToClose(pages: seq<Page>, closes: seq<Close>, f: Seen, k: nat, cooldown: real) {
    && k < |pages| == |f.tests| && f.tests[k] == Match && !Recent(closes, f.closed, pages[k].Key(), f.checked, cooldown)
    && forall j :: 0 <= j < k ==> Passed(pages, closes, f, j, cooldown)
  }

  /** The test of page `k` crashes before any page is to be closed. */
  ghost predicate CrashesAt(pages: seq<Page>, closes: seq<Close>, f: Seen, k: nat, cooldown: real) {
    && k < |pages| == |f.tests| && f.tests[k] == Crash
    && forall j :: 0 <= j < k ==> Passed(pages, closes, f, j, cooldown)
  }

  ghost predicate OnlyCooling(pages: seq<Page>, closes: seq<Close>, f: Seen, cooldown: real) {
    |pages| == |f.tests| && !NoneMatch(f.tests) && forall j :: 0 <= j < |pages| ==> Passed(pages, closes, f, j, cooldown)
  }

  /** Frames `g` to `i` show no popup, the last `quiet` of them are still, and they span the window. */
  ghost predicate Complete(frames: seq<Seen>, g: nat, i: nat, quiet: nat, window: real) {
    && g <= i < |frames| && quiet <= i + 1 - g
    && (forall j :: g <= j <= i ==> NoneMatch(frames[j].tests))
    && (forall j :: i - quiet < j <= i ==> frames[j].like.Some?)
    && frames[i].judged - frames[g].counted >= window
  }

  ghost predicate NotComplete(frames: seq<Seen>, since: nat, i: nat, quiet: nat, window: real) {
    forall g :: since <= g <= i ==> !Complete(frames, g, i, quiet, window)
  }

  /** Why a drain that began with frame `since`, when `closed0` closes had been made, goes on after frame
      `i`: its popups are all cooling; or it closed the first that may be closed; or it shows none, but
      completes no quiet stretch. */
  ghost predicate WentOn(pages: seq<Page>, s: Settings, closes: seq<Close>, frames: seq<Seen>, since: nat, closed0: nat, i: nat)
    requires i < |frames|
  {
    var f, cooldown := frames[i], s.cooldownMs as real;
    || (OnlyCooling(pages, closes, f, cooldown) && f.left == f.closed)
    || (f.left == f.closed + 1 <= |closes| && exists k: nat :: ToClose(pages, closes, f, k, cooldown) && closes[f.closed].page == pages[k].Key())
    || (NoneMatch(f.tests) && f.left == f.closed > closed0
        && NotComplete(frames, since, i, Max(1, s.quietFrames), Max(0, s.quietWindowMs) as real))
  }

  ghost predicate AllWentOn(pages: seq<Page>, s: Settings, closes: seq<Close>, frames: seq<Seen>, since: nat, closed0: nat, n: nat) {
    forall i: nat :: since <= i < n && i < |frames| ==> WentOn(pages, s, closes, frames, since, closed0, i)
  }

  /** The times of a round are in order, and nobody had asked to stop. */
  predicate InTurn(f: Seen) {
    && !f.stopped
    && f.asked <= f.at <= f.checked
    && f.at <= f.counted <= f.judged
  }

  /** The rounds follow each other: none starts at or after the deadline, each is at least a poll later than
      the one before, and each knows the closes made up to then. */
  ghost predicate Rounds(frames: seq<Seen>, since: nat, closed0: nat, poll: real, deadline: real) {
    && (|frames| > since ==> frames[since].closed == closed0)
    && (forall i :: since <= i < |frames| ==> InTurn(frames[i]) && frames[i].asked < deadline)
    && (forall i :: since < i < |frames| ==> frames[i].asked - frames[i - 1].at >= poll && frames[i].closed == frames[i - 1].left)
  }

  ghost predicate ClosedBefore(frames: seq<Seen>, n: nat) {
    forall i :: 0 <= i < |frames| ==> frames[i].closed <= n
  }

  /** A frame as it is captured; what its round comes to is noted later. */
  ghost function Fresh(asked: real, at: real, tests: seq<Test>, closed: nat, stopped: bool): Seen {
    Seen(asked, at, at, tests, None, at, at, closed, closed, stopped)
  }

  ghost predicate Completed(frames: seq<Seen>, i: nat, quiet: nat, window: real) {
    exists g: nat :: Complete(frames, g, i, quiet, window)
  }

  ghost predicate SomeCrash(pages: seq<Page>, closes: seq<Close>, f: Seen, cooldown: real) {
    exists k: nat :: CrashesAt(pages, closes, f, k, cooldown)
  }

  ghost predicate SomeToClose(pages: seq<Page>, closes: seq<Close>, f: Seen, cooldown: real) {
    exists k: nat :: ToClose(pages, closes, f, k, cooldown)
  }

  /** The page that was to be closed was tried, with that outcome. */
  ghost predicate Tried(pages: seq<Page>, closes: seq<Close>, f: Seen, cooldown: real, attempt: Option<(Page, CloseOutcome)>, outcome: CloseOutcome) {
    exists k: nat :: ToClose(pages, closes, f, k, cooldown) && attempt == Some((pages[k], outcome))
  }

  /** The newest frame ends the drain, or it ran out of time. */
  ghost predicate EndsAt(pages: seq<Page>, closes: seq<Close>, frames: seq<Seen>, s: Settings, handled: nat, captured: bool,
      attempt: Option<(Page, CloseOutcome)>, r: Drain)
  {
    var cooldown := s.cooldownMs as real;
    match r
    case Clear(n) =>
      && n == handled && frames != [] && NoneMatch(frames[|frames| - 1].tests)
      && (n > 0 ==> Completed(frames, |frames| - 1, Max(1, s.quietFrames), Max(0, s.quietWindowMs) as real))
    case Failed(n, error) =>
      n == handled &&
      match error
      case CaptureFailed => !captured
      case TestCrashed => frames != [] && SomeCrash(pages, closes, frames[|frames| - 1], cooldown)
      case TooManyPopups => handled >= s.maxHandles && frames != [] && SomeToClose(pages, closes, frames[|frames| - 1], cooldown)
      case CloseFailed => frames != [] && Tried(pages, closes, frames[|frames| - 1], cooldown, attempt, Refused)
      case CloseRaised => frames != [] && Tried(pages, closes, frames[|frames| - 1], cooldown, attempt, Threw)
      case Stopped => false
      case TimedOut => true
  }

  /** How many frames went on: all but the one that ended the drain. */
  function Gone(frames: seq<Seen>, r: Drain): nat {
    if frames == [] || (r.Failed? && (r.error == TimedOut || r.error == CaptureFailed)) then |frames| else |frames| - 1
  }

  // ---------------------------------------------------------------- the book of a quiet stretch, exactly

  /** The stretch starts after the last frame with a popup, and `quiet` counts all its still frames at the
      end. */
  ghost predicate QuietExactly(frames: seq<Seen>, since: nat, quiet: nat, started: Option<real>, from: nat) {
    && (started.None? ==> quiet == 0 && (|frames| <= since || !NoneMatch(frames[|frames| - 1].tests)))
    && (started.Some? ==>
         && since < from < |frames| && !NoneMatch(frames[from - 1].tests)
         && quiet <= |frames| - from && (quiet < |frames| - from ==> frames[|frames| - 1 - quiet].like.None?)
         && frames[from].counted == started.value
         && forall j :: from <= j < |frames| ==> frames[j].counted >= started.value)
  }

  lemma NotYetComplete(frames: seq<Seen>, since: nat, quiet: nat, started: real, from: nat, required: nat, window: real)
    requires QuietExactly(frames, since, quiet, Some(started), from) && required >= 1
    requires quiet < required || frames[|frames| - 1].judged - started < window
    ensures NotComplete(frames, since, |frames| - 1, required, window)
  {
    hide NoneMatch;
    var i := |frames| - 1;
    forall g | since <= g <= i ensures !Complete(frames, g, i, required, window) {
      if g < from { assert g <= from - 1 <= i; }
      if quiet < required && from <= g { assert i - required < i - quiet <= i; }
    }
  }

  lemma CompleteAtLast(frames: seq<Seen>, prev: Option<nat>, since: nat, quiet: nat, started: real, from: nat, required: nat, window: real)
    requires QuietRun(frames, prev, quiet, Some(started), from) && QuietExactly(frames, since, quiet, Some(started), from)
    requires required <= quiet && frames[|frames| - 1].judged - started >= window
    ensures Complete(frames, from, |frames| - 1, required, window)
  {
    hide NoneMatch;
    forall j | |frames| - 1 - required < j <= |frames| - 1 ensures frames[j].like.Some? {
      assert StillAndClear(frames, j);
    }
  }

  /** What is known of earlier frames does not change when a frame or a close is added. */
  lemma StillWentOn(pages: seq<Page>, s: Settings, closes: seq<Close>, more: seq<Close>, frames: seq<Seen>, later: seq<Seen>, since: nat,
      closed0: nat, n: nat)
    requires AllWentOn(pages, s, closes, frames, since, closed0, n) && closes <= more
    requires n <= |frames| && n <= |later| && frames[..n] == later[..n]
    requires forall i :: 0 <= i < n ==> frames[i].closed <= |closes|
    ensures AllWentOn(pages, s, more, later, since, closed0, n)
  {
    hide WentOn;
    forall i: nat | since <= i < n ensures WentOn(pages, s, more, later, since, closed0, i) {
      assert WentOn(pages, s, closes, frames, since, closed0, i);
      OneStillWentOn(pages, s, closes, more, frames, later, since, closed0, i, n);
    }
  }

  lemma OneStillWentOn(pages: seq<Page>, s: Settings, closes: seq<Close>, more: seq<Close>, frames: seq<Seen>, later: seq<Seen>, since: nat,
      closed0: nat, i: nat, n: nat)
    requires i < n <= |frames| && n <= |later| && frames[..n] == later[..n] && closes <= more && frames[i].closed <= |closes|
    requires WentOn(pages, s, closes, frames, since, closed0, i)
    ensures WentOn(pages, s, more, later, since, closed0, i)
  {
    hide NoneMatch, Complete, Passed, ToClose, OnlyCooling;
    assert forall j :: 0 <= j <= i ==> frames[j] == frames[..n][j] == later[..n][j] == later[j];
    var f, cooldown := frames[i], s.cooldownMs as real;
    SamePassed(pages, closes, more, f, cooldown);
    var quiet: nat, window := Max(1, s.quietFrames), Max(0, s.quietWindowMs) as real;
    forall g: nat ensures Complete(frames, g, i, quiet, window) <==> Complete(later, g, i, quiet, window) {
      SameComplete(frames, later, g, i, quiet, window);
    }
  }

  lemma SameComplete(frames: seq<Seen>, later: seq<Seen>, g: nat, i: nat, quiet: nat, window: real)
    requires i < |frames| && i < |later| && forall j :: 0 <= j <= i ==> frames[j] == later[j]
    ensures Complete(frames, g, i, quiet, window) <==> Complete(later, g, i, quiet, window)
  {
    hide NoneMatch;
  }

  lemma SamePassed(pages: seq<Page>, closes: seq<Close>, more: seq<Close>, f: Seen, cooldown: real)
    requires closes <= more && f.closed <= |closes|
    ensures OnlyCooling(pages, closes, f, cooldown) <==> OnlyCooling(pages, more, f, cooldown)
    ensures forall k :: ToClose(pages, closes, f, k, cooldown) <==> ToClose(pages, more, f, k, cooldown)
  {
    hide NoneMatch, Recent;
    forall page ensures Recent(closes, f.closed, page, f.checked, cooldown) <==> Recent(more, f.closed, page, f.checked, cooldown) {
      SameRecent(closes, more, f.closed, page, f.checked, cooldown);
    }
    forall j: nat | j < |pages| == |f.tests|
      ensures Passed(pages, closes, f, j, cooldown) <==> Passed(pages, more, f, j, cooldown)
    {
    }
  }

  lemma SameRecent(closes: seq<Close>, more: seq<Close>, n: nat, page: string, now: real, cooldown: real)
    requires closes <= more && n <= |closes|
    ensures Recent(closes, n, page, now, cooldown) <==> Recent(more, n, page, now, cooldown)
  {
  }

  /** The remembered times tell which pages are cooling. */
  lemma RecentIff(closes: seq<Close>, last: map<string, real>, page: string, now: real, cooldown: real)
    requires Remembered(closes, last)
    ensures now - (if page in last then last[page] else 0.0) < cooldown <==> Recent(closes, |closes|, page, now, cooldown)
  {
    if page in last {
      var i :| 0 <= i < |closes| && closes[i].page == page && closes[i].ended == last[page];
    }
  }

  // ---------------------------------------------------------------- the ledger of rounds

  function Poll(s: Settings): real {
    Max(30, s.pollMs) as real
  }

  /** All rounds of the drain so far went on. */
  ghost predicate Ledger(pages: seq<Page>, s: Settings, closes: seq<Close>, frames: seq<Seen>, since: nat, closed0: nat, deadline: real) {
    && since <= |frames|
    && AllWentOn(pages, s, closes, frames, since, closed0, |frames|)
    && Rounds(frames, since, closed0, Poll(s), deadline)
    && |closes| == (if |frames| > since then frames[|frames| - 1].left else closed0)
  }

  /** All but that of the newest frame, which is under way. */
  ghost predicate LedgerBefore(pages: seq<Page>, s: Settings, closes: seq<Close>, frames: seq<Seen>, since: nat, closed0: nat, deadline: real) {
    && since < |frames|
    && AllWentOn(pages, s, closes, frames, since, closed0, |frames| - 1)
    && Rounds(frames, since, closed0, Poll(s), deadline)
    && frames[|frames| - 1].closed == |closes|
  }

  lemma NothingLedgered(pages: seq<Page>, s: Settings, closes: seq<Close>, frames: seq<Seen>, deadline: real)
    ensures Ledger(pages, s, closes, frames, |frames|, |closes|, deadline)
  {
    hide WentOn;
  }

  lemma LedgerOpens(pages: seq<Page>, s: Settings, closes: seq<Close>, frames: seq<Seen>, since: nat, closed0: nat, deadline: real, f: Seen)
    requires Ledger(pages, s, closes, frames, since, closed0, deadline) && ClosedBefore(frames, |closes|)
    requires f.closed == |closes| && InTurn(f) && f.asked < deadline
    requires |frames| > since ==> f.asked - frames[|frames| - 1].at >= Poll(s)
    ensures LedgerBefore(pages, s, closes, frames + [f], since, closed0, deadline)
  {
    hide WentOn, Poll;
    var now := frames + [f];
    assert now[..|frames|] == frames[..|frames|];
    StillWentOn(pages, s, closes, closes, frames, now, since, closed0, |frames|);
    assert now[|frames|] == f;
    forall i | since < i < |now| ensures now[i].asked - now[i - 1].at >= Poll(s) && now[i].closed == now[i - 1].left {
      if i < |frames| { assert now[i] == frames[i] && now[i - 1] == frames[i - 1]; }
    }
  }

  /** The frame as it was taken, with more noted about it. */
  predicate SameFrame(f: Seen, g: Seen) {
    f.asked == g.asked && f.at == g.at && f.tests == g.tests && f.closed == g.closed
  }

  lemma LedgerNotes(pages: seq<Page>, s: Settings, closes: seq<Close>, more: seq<Close>, before: seq<Seen>, f: Seen, g: Seen, since: nat,
      closed0: nat, deadline: real)
    requires LedgerBefore(pages, s, closes, before + [f], since, closed0, deadline) && ClosedBefore(before + [f], |closes|)
    requires SameFrame(f, g) && InTurn(g) && closes <= more
    ensures AllWentOn(pages, s, more, before + [g], since, closed0, |before|)
    ensures Rounds(before + [g], since, closed0, Poll(s), deadline)
    ensures more == closes ==> LedgerBefore(pages, s, more, before + [g], since, closed0, deadline)
  {
    hide WentOn, Poll;
    var x, y := before + [f], before + [g];
    assert x[..|before|] == y[..|before|];
    StillWentOn(pages, s, closes, more, x, y, since, closed0, |before|);
    assert x[|before|] == f && y[|before|] == g;
    forall i | since <= i < |y| ensures SameFrame(x[i], y[i]) && (i < |before| ==> x[i] == y[i]) {
    }
  }

  lemma LedgerCloses(pages: seq<Page>, s: Settings, closes: seq<Close>, frames: seq<Seen>, since: nat, closed0: nat, deadline: real)
    requires since < |frames| && AllWentOn(pages, s, closes, frames, since, closed0, |frames| - 1) && Rounds(frames, since, closed0, Poll(s), deadline)
    requires WentOn(pages, s, closes, frames, since, closed0, |frames| - 1) && frames[|frames| - 1].left == |closes|
    ensures Ledger(pages, s, closes, frames, since, closed0, deadline)
  {
    hide WentOn, Poll, Rounds;
  }

  // ---------------------------------------------------------------- steps of the book

  lemma FramesPast(before: seq<Seen>, f: Seen, now: real)
    requires FramesInOrder(before + [f], now)
    ensures forall i :: 0 <= i < |before| ==> before[i].at <= now
  {
    assert forall i :: 0 <= i < |before| ==> (before + [f])[i] == before[i];
  }

  lemma PrevIsBefore(frames: seq<Seen>, prev: Option<nat>, quiet: nat, started: Option<real>, from: nat)
    requires QuietRun(frames, prev, quiet, started, from)
    ensures prev.Some? ==> prev.value < |frames|
  {
  }

  /** Noting when the newest frame was judged changes nothing in the book. */
  lemma QuietKept(frames: seq<Seen>, g: Seen, prev: Option<nat>, since: nat, quiet: nat, started: Option<real>, from: nat)
    requires frames != [] && g == frames[|frames| - 1].(judged := g.judged)
    requires QuietRun(frames, prev, quiet, started, from) && QuietExactly(frames, since, quiet, started, from)
    ensures var now := frames[..|frames| - 1] + [g];
      QuietRun(now, prev, quiet, started, from) && QuietExactly(now, since, quiet, started, from)
  {
    hide NoneMatch;
    var now := frames[..|frames| - 1] + [g];
    assert forall i :: 0 <= i < |frames| ==> now[i] == frames[i].(judged := now[i].judged);
    forall i | |now| - quiet <= i < |now| ensures StillAndClear(now, i) {
      assert StillAndClear(frames, i);
    }
  }

  /** One more popup-free frame, judged still or not, in the exact book. */
  lemma OneMoreExactly(before: seq<Seen>, g: Seen, since: nat, quiet: nat, started: Option<real>, from: nat, stable: bool, begun: real)
    requires QuietExactly(before, since, quiet, started, from) && since < |before|
    requires stable == g.like.Some? && g.counted >= begun
    requires if started.None? then g.counted == begun else started.value == begun
    ensures QuietExactly(before + [g], since, if stable then quiet + 1 else 0, Some(begun), if started.None? then |before| else from)
  {
    hide NoneMatch;
    var after := before + [g];
    assert after[|before|] == g && forall i :: 0 <= i < |before| ==> after[i] == before[i];
  }

  /** After a close the drain goes on. */
  lemma ClosingGoesOn(pages: seq<Page>, s: Settings, closes: seq<Close>, more: seq<Close>, before: seq<Seen>, f: Seen, k: nat, since: nat, closed0: nat)
    requires ToClose(pages, closes, f, k, s.cooldownMs as real) && closes <= more && |more| == |closes| + 1 && f.closed == |closes|
    requires k < |pages| && more[|closes|].page == pages[k].Key()
    ensures WentOn(pages, s, more, before + [f.(left := |more|)], since, closed0, |before|)
  {
    hide Recent, Passed, NoneMatch;
    SamePassed(pages, closes, more, f, s.cooldownMs as real);
    var g := f.(left := |more|);
    assert (before + [g])[|before|] == g;
    assert ToClose(pages, more, g, k, s.cooldownMs as real) by { LeftMatters(pages, more, f, g, k, s.cooldownMs as real); }
  }

  /** Whether a page is to be closed does not depend on what its round comes to. */
  lemma LeftMatters(pages: seq<Page>, closes: seq<Close>, f: Seen, g: Seen, k: nat, cooldown: real)
    requires g == f.(left := g.left)
    ensures ToClose(pages, closes, f, k, cooldown) <==> ToClose(pages, closes, g, k, cooldown)
  {
    hide Recent;
    forall j: nat | j < |pages| == |f.tests| ensures Passed(pages, closes, f, j, cooldown) <==> Passed(pages, closes, g, j, cooldown) {
    }
  }

  lemma CoolingGoesOn(pages: seq<Page>, s: Settings, closes: seq<Close>, before: seq<Seen>, f: Seen, since: nat, closed0: nat, deadline: real,
      prev: Option<nat>, quiet: nat, started: Option<real>, from: nat)
    requires OnlyCooling(pages, closes, f, s.cooldownMs as real) && f.left == f.closed == |closes|
    requires LedgerBefore(pages, s, closes, before + [f], since, closed0, deadline) && QuietRun(before, prev, quiet, started, from)
    ensures Ledger(pages, s, closes, before + [f], since, closed0, deadline)
    ensures QuietRun(before + [f], prev, 0, None, from) && QuietExactly(before + [f], since, 0, None, from)
  {
    hide Passed, NoneMatch, Rounds, AllWentOn;
    var frames := before + [f];
    assert frames[|frames| - 1] == f && frames[..|frames| - 1] == before;
    LoudFrame(frames, prev, quiet, started, from);
    assert WentOn(pages, s, closes, frames, since, closed0, |frames| - 1);
    LedgerCloses(pages, s, closes, frames, since, closed0, deadline);
  }

  lemma LoudMatch(pages: seq<Page>, closes: seq<Close>, f: Seen, k: nat, cooldown: real)
    requires ToClose(pages, closes, f, k, cooldown)
    ensures !NoneMatch(f.tests)
  {
    hide Passed, Recent;
  }

  lemma LoudLast(frames: seq<Seen>, since: nat, from: nat)
    requires frames != [] && !NoneMatch(frames[|frames| - 1].tests)
    ensures QuietExactly(frames, since, 0, None, from)
  {
  }

  /** Something closed in this drain means there was a frame. */
  lemma HandledBefore(pages: seq<Page>, s: Settings, closes: seq<Close>, frames: seq<Seen>, since: nat, closed0: nat, deadline: real)
    requires Ledger(pages, s, closes, frames, since, closed0, deadline) && |closes| > closed0
    ensures since < |frames|
  {
    hide AllWentOn, Rounds;
  }

  lemma NothingQuiet(frames: seq<Seen>)
    ensures QuietRun(frames, None, 0, None, |frames|)
    ensures forall from: nat :: QuietRun(frames, None, 0, None, from)
    ensures QuietExactly(frames, |frames|, 0, None, |frames|)
  {
  }

  /** A frame with a popup still in its cooldown ends the quiet stretch. */
  lemma LoudFrame(frames: seq<Seen>, prev: Option<nat>, quiet: nat, started: Option<real>, from: nat)
    requires frames != [] && QuietRun(frames[..|frames| - 1], prev, quiet, started, from)
    ensures QuietRun(frames, prev, 0, None, from)
  {
  }
}
