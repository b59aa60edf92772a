/**
 * The process supervisor of vlckickoff.go (the loop of runVlc): it receives URLs
 * one at a time and keeps at most one player process running, for the last URL
 * it was given. Killing, reaping and starting the process are recorded as events
 * in a log instead of being carried out.
 */
module Supervision {

  /** What the supervisor does to the player process; `ok` is whether Start succeeded. */
  datatype Event = Kill | Wait | Start(url: string, ok: bool)

  /** The player process as a log of events leaves it. */
  datatype Process = Idle | Live(url: string) | Killed(url: string)

  /** The process state after replaying `log` from a state with no process. */
  function After(log: seq<Event>): (p: Process) {
    if log == [] then Idle
    else
      var p := After(log[..|log| - 1]);
      match log[|log| - 1]
      case Start(u, ok) => if ok then Live(u) else Idle
      case Kill => if p.Live? then Killed(p.url) else p
      case Wait => Idle
  }

  /** Start only with no process at all, Kill only a live process, Wait only for a killed one. */
  predicate Allowed(p: Process, e: Event) {
    match e
    case Start(_, _) => p.Idle?
    case Kill => p.Live?
    case Wait => p.Killed?
  }

  /** Every event of the log was allowed in the state the events before it left. */
  ghost predicate Disciplined(log: seq<Event>) {
    log == [] || (Disciplined(log[..|log| - 1]) && Allowed(After(log[..|log| - 1]), log[|log| - 1]))
  }

  /** The two loop variables of runVlc: whether `vlc` holds a process, and `currentUrl`. */
  datatype LoopVars = LoopVars(running: bool, currentUrl: string)

  /** The process a state of the loop variables stands for. */
  function Expected(v: LoopVars): (p: Process) {
    if v.running then Live(v.currentUrl) else Idle
  }

  /** The loop variables after one URL; a Start that fails leaves nothing running. */
  function Step(v: LoopVars, url: string, startOk: bool): (r: LoopVars) {
    if url == v.currentUrl then v
    else LoopVars(url != "" && startOk, url)
  }

  /** The events one URL causes: nothing for the current URL, else stop what runs, then start unless "". */
  function StepEvents(v: LoopVars, url: string, startOk: bool): (events: seq<Event>) {
    if url == v.currentUrl then []
    else (if v.running then [Kill, Wait] else []) + (if url == "" then [] else [Start(url, startOk)])
  }

  lemma AppendEvent(log: seq<Event>, e: Event)
    ensures Disciplined(log + [e]) <==> Disciplined(log) && Allowed(After(log), e)
    ensures After(log + [e]) == match e
      case Start(u, ok) => if ok then Live(u) else Idle
      case Kill => if After(log).Live? then Killed(After(log).url) else After(log)
      case Wait => Idle
  {
    assert (log + [e])[..|log + [e]| - 1] == log;
  }

  lemma ConcatAssoc<T>(a: seq<T>, b: seq<T>, c: seq<T>)
    ensures (a + b) + c == a + (b + c)
  {
  }

  /** A URL equal to the current one changes nothing and causes no event. */
  lemma StepIgnoresCurrent(v: LoopVars, startOk: bool)
    ensures Step(v, v.currentUrl, startOk) == v
    ensures StepEvents(v, v.currentUrl, startOk) == []
  {
  }

  /**
   * One URL keeps the log disciplined and the loop variables in step with it:
   * a running process is killed and reaped before any Start, so two processes
   * never overlap.
   */
  lemma StepKeepsDisciplined(log: seq<Event>, v: LoopVars, url: string, startOk: bool)
    requires Disciplined(log) && After(log) == Expected(v)
    ensures Disciplined(log + StepEvents(v, url, startOk))
    ensures After(log + StepEvents(v, url, startOk)) == Expected(Step(v, url, startOk))
  {
    if url != v.currentUrl {
      var l := log;
      if v.running {
        AppendEvent(l, Kill);
        l := l + [Kill];
        AppendEvent(l, Wait);
        l := l + [Wait];
      }
      assert l == log + (if v.running then [Kill, Wait] else []);
      if url != "" {
        AppendEvent(l, Start(url, startOk));
        assert l + [Start(url, startOk)] == log + StepEvents(v, url, startOk);
      } else {
        assert l == log + StepEvents(v, url, startOk);
      }
    } else {
      assert log + [] == log;
    }
  }

  /** Feeding the same URL twice in a row: the second time is a no-op. */
  lemma RepeatIsNoOp(v: LoopVars, url: string, ok1: bool, ok2: bool)
    ensures Step(Step(v, url, ok1), url, ok2) == Step(v, url, ok1)
    ensures StepEvents(Step(v, url, ok1), url, ok2) == []
  {
  }

  /** The loop variables after a whole sequence of URLs (and the Start outcome for each). */
  function RunVars(v: LoopVars, urls: seq<string>, oks: seq<bool>): (r: LoopVars)
    requires |oks| == |urls|
    decreases |urls|
  {
    if urls == [] then v else RunVars(Step(v, urls[0], oks[0]), urls[1..], oks[1..])
  }

  /** The events of a whole sequence of URLs, in delivery order. */
  function RunEvents(v: LoopVars, urls: seq<string>, oks: seq<bool>): (events: seq<Event>)
    requires |oks| == |urls|
    decreases |urls|
  {
    if urls == [] then [] else StepEvents(v, urls[0], oks[0]) + RunEvents(Step(v, urls[0], oks[0]), urls[1..], oks[1..])
  }

  /** Running one more URL is one more step after the run. */
  lemma {:induction false} RunSnoc(v: LoopVars, urls: seq<string>, oks: seq<bool>, url: string, ok: bool)
    requires |oks| == |urls|
    ensures RunVars(v, urls + [url], oks + [ok]) == Step(RunVars(v, urls, oks), url, ok)
    ensures RunEvents(v, urls + [url], oks + [ok]) == RunEvents(v, urls, oks) + StepEvents(RunVars(v, urls, oks), url, ok)
    decreases |urls|
  {
    if urls == [] {
      assert urls + [url] == [url] && oks + [ok] == [ok];
    } else {
      var v' := Step(v, urls[0], oks[0]);
      assert (urls + [url])[1..] == urls[1..] + [url];
      assert (oks + [ok])[1..] == oks[1..] + [ok];
      RunSnoc(v', urls[1..], oks[1..], url, ok);
    }
  }

  /** The run over the first i + 1 URLs is the run over the first i, then one step. */
  lemma RunPrefixStep(v: LoopVars, urls: seq<string>, oks: seq<bool>, i: nat)
    requires |oks| == |urls| && i < |urls|
    ensures RunVars(v, urls[..i + 1], oks[..i + 1]) == Step(RunVars(v, urls[..i], oks[..i]), urls[i], oks[i])
    ensures RunEvents(v, urls[..i + 1], oks[..i + 1])
         == RunEvents(v, urls[..i], oks[..i]) + StepEvents(RunVars(v, urls[..i], oks[..i]), urls[i], oks[i])
  {
    assert urls[..i + 1] == urls[..i] + [urls[i]];
    assert oks[..i + 1] == oks[..i] + [oks[i]];
    RunSnoc(v, urls[..i], oks[..i], urls[i], oks[i]);
  }

  /** Over any sequence of URLs the log stays disciplined: never two processes at once. */
  lemma {:induction false} RunKeepsDisciplined(log: seq<Event>, v: LoopVars, urls: seq<string>, oks: seq<bool>)
    requires |oks| == |urls|
    requires Disciplined(log) && After(log) == Expected(v)
    ensures Disciplined(log + RunEvents(v, urls, oks))
    ensures After(log + RunEvents(v, urls, oks)) == Expected(RunVars(v, urls, oks))
    decreases |urls|
  {
    if urls != [] {
      var e := StepEvents(v, urls[0], oks[0]);
      var rest := RunEvents(Step(v, urls[0], oks[0]), urls[1..], oks[1..]);
      StepKeepsDisciplined(log, v, urls[0], oks[0]);
      RunKeepsDisciplined(log + e, Step(v, urls[0], oks[0]), urls[1..], oks[1..]);
      assert RunEvents(v, urls, oks) == e + rest;
      ConcatAssoc(log, e, rest);
    } else {
      assert log + [] == log;
    }
  }

  /** The state of runVlc: its two loop variables and the log of what it did to processes. */
  class Supervisor {
    var running: bool
    var currentUrl: string
    var events: seq<Event>

    function Vars(): (v: LoopVars)
      reads this
    {
      LoopVars(running, currentUrl)
    }

    ghost predicate Valid()
      reads this
    {
      && (running ==> currentUrl != "")
      && Disciplined(events)
      && After(events) == Expected(Vars())
    }

    /** runVlc before its first URL: no process and an empty `currentUrl`. */
    constructor ()
      ensures Valid()
      ensures !running && currentUrl == "" && events == []
    {
      running := false;
      currentUrl := "";
      events := [];
    }

    /** One iteration of the runVlc loop for the received `url`. */
    method Feed(url: string, startOk: bool)
      requires Valid()
      modifies this
      ensures Valid()
      ensures Vars() == Step(old(Vars()), url, startOk)
      ensures events == old(events) + StepEvents(old(Vars()), url, startOk)
    {
      ghost var v0, e0 := Vars(), events;
      StepKeepsDisciplined(e0, v0, url, startOk);
      if url == currentUrl {
        assert e0 + [] == e0;
        return;
      }
      currentUrl := url;
      var emitted: seq<Event> := [];
      if running {
        // Kill and Wait errors are only logged; `vlc` is dropped either way.
        emitted := [Kill, Wait];
        running := false;
      }
      if url != "" {
        emitted := emitted + [Start(url, startOk)];
        running := startOk;
      }
      assert emitted == StepEvents(v0, url, startOk);
      events := events + emitted;
    }

    /** The runVlc loop over the URLs received, in delivery order. */
    method Run(urls: seq<string>, oks: seq<bool>)
      requires Valid() && |oks| == |urls|
      modifies this
      ensures Valid()
      ensures Vars() == RunVars(old(Vars()), urls, oks)
      ensures events == old(events) + RunEvents(old(Vars()), urls, oks)
    {
      ghost var v0, e0 := Vars(), events;
      var i := 0;
      assert urls[..0] == [] && oks[..0] == [];
      assert e0 + [] == e0;
      while i < |urls|
        invariant 0 <= i <= |urls|
        invariant Valid()
        invariant Vars() == RunVars(v0, urls[..i], oks[..i])
        invariant events == e0 + RunEvents(v0, urls[..i], oks[..i])
      {
        RunPrefixStep(v0, urls, oks, i);
        ghost var prefix := RunEvents(v0, urls[..i], oks[..i]);
        ghost var step := StepEvents(Vars(), urls[i], oks[i]);
        Feed(urls[i], oks[i]);
        ConcatAssoc(e0, prefix, step);
        i := i + 1;
      }
      assert urls[..i] == urls && oks[..i] == oks;
    }
  }

  // ---------------------------------------------------------------------------
  // The loop body as written

  /**
   * The `vlc` variable as the code leaves it: nil, or a command whose Process is
   * set only when its Start succeeded (a failed Start still leaves `vlc` non-nil).
   */
  datatype Command = NoCommand | Command(started: bool)

  datatype AsWritten = Continue(vlc: Command, currentUrl: string) | Panic

  /**
   * One loop iteration exactly as written: a non-nil `vlc` whose Start failed has
   * a nil Process, and `vlc.Process.Kill()` dereferences it.
   */
  function StepAsWritten(vlc: Command, currentUrl: string, url: string, startOk: bool): (r: AsWritten)
    ensures r.Panic? <==> url != currentUrl && vlc == Command(false)
    ensures url == currentUrl ==> r == Continue(vlc, currentUrl)
    ensures r.Continue? && url != currentUrl ==> r.currentUrl == url && (r.vlc.Command? <==> url != "")
    ensures r.Continue? && r.vlc.Command? && url != currentUrl ==> r.vlc.started == startOk
  {
    if url == currentUrl then Continue(vlc, currentUrl)
    else if vlc.Command? && !vlc.started then Panic
    else if url == "" then Continue(NoCommand, url)
    else Continue(Command(startOk), url)
  }

  /** The `vlc` value the corrected loop variables stand for. */
  function AsCommand(v: LoopVars): (c: Command) {
    if v.running then Command(true) else NoCommand
  }

  /** A URL whose Start fails, followed by any other URL, panics the supervisor goroutine. */
  lemma FailedStartThenChangePanics(u: string, w: string, ok: bool)
    requires u != "" && w != u
    ensures StepAsWritten(NoCommand, "", u, false) == Continue(Command(false), u)
    ensures StepAsWritten(Command(false), u, w, ok) == Panic
  {
  }

  /** The corrected step agrees with the code as written except after a failed Start. */
  lemma CorrectedAgreesUnlessStartFails(v: LoopVars, url: string, startOk: bool)
    requires url == v.currentUrl || url == "" || startOk
    ensures StepAsWritten(AsCommand(v), v.currentUrl, url, startOk)
         == Continue(AsCommand(Step(v, url, startOk)), Step(v, url, startOk).currentUrl)
  {
  }
}
