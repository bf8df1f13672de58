// ControlHandle: the pause, resume, stop and cancel requests of one run.
module Control {
  import opened Collections

  datatype Request = Pause | Resume | Stop | Cancel

  // since is the time of the pause request still open; total the seconds of
  // the closed ones.
  datatype Flags = Flags(paused: bool, stopping: bool, cancelled: bool, since: Option<real>, total: real)

  const FRESH := Flags(false, false, false, None, 0.0)

  function CloseInterval(f: Flags, now: real): Flags {
    match f.since
    case Some(start) => f.(total := f.total + (now - start), since := None)
    case None => f
  }

  // The new flags and whether the request was accepted.
  function Apply(f: Flags, r: Request, now: real): (Flags, bool) {
    match r
    case Pause =>
      if f.paused || f.stopping || f.cancelled then (f, false)
      else (f.(paused := true, since := Some(now)), true)
    case Resume =>
      if !f.paused then (f, false) else (CloseInterval(f, now).(paused := false), true)
    case Stop =>
      if f.stopping || f.cancelled then (f, false)
      else ((if f.paused then CloseInterval(f, now) else f).(paused := false, stopping := true), true)
    case Cancel =>
      if f.cancelled then (f, false)
      else (f.(paused := false, stopping := true, cancelled := true), true)
  }

  // What the handle reports: the closed pauses and the one it is in.
  function PausedSeconds(f: Flags, now: real): real {
    f.total + if f.paused && f.since.Some? then now - f.since.value else 0.0
  }

  // A halting run is never parked, and an open pause interval means a pause
  // unless a cancel cut it short.
  ghost predicate Consistent(f: Flags) {
    && (f.paused ==> !f.stopping)
    && (f.cancelled ==> f.stopping)
    && (f.paused ==> f.since.Some?)
    && (f.since.Some? ==> f.paused || f.cancelled)
  }

  lemma ApplyKeepsConsistent(f: Flags, r: Request, now: real)
    requires Consistent(f)
    ensures Consistent(Apply(f, r, now).0)
    ensures f.stopping ==> Apply(f, r, now).0.stopping
    ensures f.cancelled ==> Apply(f, r, now).0.cancelled
    ensures Apply(f, r, now).1 <==> Apply(f, r, now).0 != f
  {
  }

  function ApplyAll(f: Flags, requests: seq<(Request, real)>): Flags {
    if requests == [] then f
    else
      var last := requests[|requests| - 1];
      Apply(ApplyAll(f, requests[..|requests| - 1]), last.0, last.1).0
  }

  // Whatever the history, the handle is halting exactly when a stop or a
  // cancel is in it, and parked exactly when it is not halting and the last of
  // the pauses and resumes is a pause.
  ghost predicate Halted(requests: seq<(Request, real)>) {
    exists i :: 0 <= i < |requests| && requests[i].0 in {Stop, Cancel}
  }

  function LastToggle(requests: seq<(Request, real)>): Request {
    if requests == [] then Resume
    else if requests[|requests| - 1].0 in {Pause, Resume} then requests[|requests| - 1].0
    else LastToggle(requests[..|requests| - 1])
  }

  lemma {:induction false} HistoryDecides(requests: seq<(Request, real)>)
    ensures var f := ApplyAll(FRESH, requests);
      && Consistent(f)
      && (f.stopping <==> Halted(requests))
      && (f.paused <==> !Halted(requests) && LastToggle(requests) == Pause)
  {
    if requests != [] {
      var front, last := requests[..|requests| - 1], requests[|requests| - 1];
      HistoryDecides(front);
      assert requests == front + [last];
      assert Halted(requests) <==> Halted(front) || last.0 in {Stop, Cancel} by {
        if i :| 0 <= i < |front| && front[i].0 in {Stop, Cancel} {
          assert requests[i].0 in {Stop, Cancel};
        }
        if last.0 in {Stop, Cancel} {
          assert requests[|requests| - 1].0 in {Stop, Cancel};
        }
        if i :| 0 <= i < |requests| && requests[i].0 in {Stop, Cancel} {
          assert i < |front| ==> front[i].0 in {Stop, Cancel};
        }
      }
    }
  }

  // ------------------------------------------------------------------
  // Time spent paused
  // ------------------------------------------------------------------

  ghost predicate Parked(requests: seq<(Request, real)>) {
    !Halted(requests) && LastToggle(requests) == Pause
  }

  // How long the history was parked up to the given time, from its requests.
  ghost function TimeParked(requests: seq<(Request, real)>, now: real): real {
    if requests == [] then 0.0
    else
      var front, last := requests[..|requests| - 1], requests[|requests| - 1];
      TimeParked(front, last.1) + if Parked(requests) then now - last.1 else 0.0
  }

  // The time of the first cancel.
  function CancelledAt(requests: seq<(Request, real)>): Option<real> {
    if requests == [] then None
    else
      var front, last := CancelledAt(requests[..|requests| - 1]), requests[|requests| - 1];
      if front.None? && last.0 == Cancel then Some(last.1) else front
  }

  // The first stop or cancel was a cancel, and came while parked.
  ghost predicate CutShort(requests: seq<(Request, real)>) {
    exists i :: 0 <= i < |requests| && requests[i].0 == Cancel && Parked(requests[..i])
  }

  lemma CutShortNext(requests: seq<(Request, real)>, last: (Request, real))
    ensures CutShort(requests + [last]) <==> CutShort(requests) || (last.0 == Cancel && Parked(requests))
  {
    var all := requests + [last];
    if i :| 0 <= i < |requests| && requests[i].0 == Cancel && Parked(requests[..i]) {
      assert all[i].0 == Cancel && all[..i] == requests[..i];
    }
    if last.0 == Cancel && Parked(requests) {
      assert all[|requests|].0 == Cancel && all[..|requests|] == requests;
    }
    if i :| 0 <= i < |all| && all[i].0 == Cancel && Parked(all[..i]) {
      assert i < |requests| ==> requests[i].0 == Cancel && all[..i] == requests[..i];
      assert i == |requests| ==> all[..i] == requests;
    }
  }

  // What the flags say of the time spent paused up to now: parked or cut short,
  // the interval is open, from now or from the cancel on.
  ghost predicate Accounts(f: Flags, cutShort: bool, cancelledAt: Option<real>, spent: real, now: real) {
    && (f.since.Some? <==> f.paused || cutShort)
    && (!cutShort ==> PausedSeconds(f, now) == spent)
    && (cutShort ==> !f.paused && cancelledAt.Some?
                     && PausedSeconds(f, now) + (cancelledAt.value - f.since.value) == spent)
    && (f.cancelled <==> cancelledAt.Some?)
  }

  lemma AccountsNext(f: Flags, cutShort: bool, cancelledAt: Option<real>, spent: real, r: Request, at: real, now: real)
    requires Consistent(f) && Accounts(f, cutShort, cancelledAt, spent, at)
    ensures var g := Apply(f, r, at).0;
      Accounts(g, cutShort || (r == Cancel && f.paused),
               if cancelledAt.None? && r == Cancel then Some(at) else cancelledAt,
               spent + if g.paused then now - at else 0.0, now)
  {
  }

  // The seconds reported are the time the history was parked, unless a cancel
  // cut a pause short: that pause stays open, and is missing from the report
  // for good.
  lemma {:induction false} ReportIsTimeParked(requests: seq<(Request, real)>, now: real)
    ensures var f := ApplyAll(FRESH, requests);
      && (f.since.Some? <==> Parked(requests) || CutShort(requests))
      && (!CutShort(requests) ==> PausedSeconds(f, now) == TimeParked(requests, now))
      && (CutShort(requests) ==>
        && CancelledAt(requests).Some?
        && PausedSeconds(f, now) + (CancelledAt(requests).value - f.since.value) == TimeParked(requests, now))
      && (f.cancelled <==> CancelledAt(requests).Some?)
  {
    HistoryDecides(requests);
    if requests != [] {
      var front, last := requests[..|requests| - 1], requests[|requests| - 1];
      assert requests == front + [last];
      HistoryDecides(front);
      ReportIsTimeParked(front, last.1);
      CutShortNext(front, last);
      AccountsNext(ApplyAll(FRESH, front), CutShort(front), CancelledAt(front), TimeParked(front, last.1),
                   last.0, last.1, now);
    }
  }

  class ControlHandle {
    var paused: bool
    var stopping: bool
    var cancelled: bool
    var pauseRequestedAt: Option<real>
    var totalPausedSeconds: real

    function View(): Flags
      reads this
    {
      Flags(paused, stopping, cancelled, pauseRequestedAt, totalPausedSeconds)
    }

    constructor ()
      ensures View() == FRESH
    {
      paused, stopping, cancelled := false, false, false;
      pauseRequestedAt, totalPausedSeconds := None, 0.0;
    }

    method TotalPausedSeconds(now: real) returns (seconds: real)
      ensures seconds == PausedSeconds(View(), now)
    {
      seconds := totalPausedSeconds;
      if paused && pauseRequestedAt.Some? {
        seconds := seconds + (now - pauseRequestedAt.value);
      }
    }

    method RequestPause(now: real) returns (accepted: bool)
      modifies this
      ensures (View(), accepted) == Apply(old(View()), Pause, now)
    {
      if paused || stopping || cancelled {
        return false;
      }
      paused := true;
      pauseRequestedAt := Some(now);
      return true;
    }

    method RequestResume(now: real) returns (accepted: bool)
      modifies this
      ensures (View(), accepted) == Apply(old(View()), Resume, now)
    {
      if !paused {
        return false;
      }
      paused := false;
      if pauseRequestedAt.Some? {
        totalPausedSeconds := totalPausedSeconds + (now - pauseRequestedAt.value);
        pauseRequestedAt := None;
      }
      return true;
    }

    method RequestStop(now: real) returns (accepted: bool)
      modifies this
      ensures (View(), accepted) == Apply(old(View()), Stop, now)
    {
      if stopping || cancelled {
        return false;
      }
      stopping := true;
      var wasPaused := paused;
      paused := false;
      if wasPaused && pauseRequestedAt.Some? {
        totalPausedSeconds := totalPausedSeconds + (now - pauseRequestedAt.value);
        pauseRequestedAt := None;
      }
      return true;
    }

    method RequestCancel() returns (accepted: bool)
      modifies this
      ensures forall now :: (View(), accepted) == Apply(old(View()), Cancel, now)
    {
      if cancelled {
        return false;
      }
      cancelled := true;
      stopping := true;
      paused := false;
      return true;
    }
  }
}
