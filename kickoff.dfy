/**
 * The control path of vlckickoff.go with its channels read as calls handled one
 * at a time, in arrival order: a stream POST goes through the selector walk and
 * its URL to the supervisor; a settings POST copies five fields, sends "" to the
 * supervisor and then a recompute post to the selector.
 */
module Kickoff {
  import opened Streams
  import opened Supervision

  /** The events a stream POST causes, given the supervisor's loop variables before it. */
  function StreamPostEvents(v: LoopVars, ss: seq<Stream>, post: Stream, startOk: bool): (events: seq<Event>) {
    StepEvents(v, DownstreamUrl(Posted(ss, post)), startOk)
  }

  /** The events a settings POST causes: the "" request, then the recompute post's URL. */
  function SettingsPostEvents(v: LoopVars, ss: seq<Stream>, startOk: bool): (events: seq<Event>) {
    StepEvents(v, "", false) + StepEvents(Step(v, "", false), DownstreamUrl(Posted(ss, RecomputePost)), startOk)
  }

  /**
   * Activating a stream that exists: nothing happens if its URL is already the
   * current one; otherwise a running process is killed and reaped, then exactly
   * one Start for the posted URL follows, or none when that URL is empty.
   */
  lemma ActivatePostEffect(v: LoopVars, ss: seq<Stream>, post: Stream, startOk: bool)
    requires post.Active
    requires exists i :: 0 <= i < |ss| && SameIdentity(ss[i], post)
    ensures v.currentUrl == post.Url ==> StreamPostEvents(v, ss, post, startOk) == []
    ensures v.currentUrl != post.Url && post.Url != "" ==>
      StreamPostEvents(v, ss, post, startOk) == (if v.running then [Kill, Wait] else []) + [Start(post.Url, startOk)]
    ensures v.currentUrl != post.Url && post.Url == "" ==>
      StreamPostEvents(v, ss, post, startOk) == (if v.running then [Kill, Wait] else [])
  {
    ActivePostDownstream(ss, post);
  }

  /** Activating a (Name, Url) pair that no stream has deactivates everything and stops the process. */
  lemma ActivatePostWithoutMatchStops(v: LoopVars, ss: seq<Stream>, post: Stream, startOk: bool)
    requires post.Active
    requires forall i :: 0 <= i < |ss| ==> !SameIdentity(ss[i], post)
    requires v.currentUrl != ""
    ensures StreamPostEvents(v, ss, post, startOk) == (if v.running then [Kill, Wait] else [])
    ensures Step(v, DownstreamUrl(Posted(ss, post)), startOk) == LoopVars(false, "")
  {
    ActivePostDownstream(ss, post);
  }

  /**
   * A settings POST while the supervisor runs the selected URL restarts it exactly
   * once: one Kill and Wait (when a process runs), then one Start of the same URL.
   */
  lemma {:induction false} SettingsPostRestartsOnce(v: LoopVars, ss: seq<Stream>, startOk: bool)
    requires v.currentUrl == DownstreamUrl(ss) != ""
    ensures SettingsPostEvents(v, ss, startOk) == (if v.running then [Kill, Wait] else []) + [Start(v.currentUrl, startOk)]
    ensures Step(Step(v, "", false), DownstreamUrl(Posted(ss, RecomputePost)), startOk)
         == LoopVars(startOk, v.currentUrl)
  {
    RecomputeKeepsDownstream(ss);
    assert StepEvents(Step(v, "", false), DownstreamUrl(Posted(ss, RecomputePost)), startOk) == [Start(v.currentUrl, startOk)];
  }

  /** A settings POST with no stream active and nothing running causes no event. */
  lemma SettingsPostIdleIsQuiet(v: LoopVars, ss: seq<Stream>, startOk: bool)
    requires v.currentUrl == "" && forall i :: 0 <= i < |ss| ==> !ss[i].Active
    ensures SettingsPostEvents(v, ss, startOk) == []
    ensures Step(Step(v, "", false), DownstreamUrl(Posted(ss, RecomputePost)), startOk) == v
  {
    var ts := Posted(ss, RecomputePost);
    assert forall i :: 0 <= i < |ts| ==> !ts[i].Active;
  }

  /** The whole program state: the global settings and the runVlc goroutine. */
  class Server {
    const settings: Settings
    const supervisor: Supervisor

    ghost predicate Valid()
      reads this, supervisor
    {
      supervisor.Valid()
    }

    /** main after loading the configuration: the supervisor has received no URL yet. */
    constructor (config: Config, streams: seq<Stream>)
      ensures Valid() && fresh(settings) && fresh(supervisor)
      ensures settings.config == config && settings.streams == streams
      ensures supervisor.Vars() == LoopVars(false, "") && supervisor.events == []
    {
      settings := new Settings(config, streams);
      supervisor := new Supervisor();
    }

    /** A stream POST: the selector walk, then one supervisor iteration for the URL it sends. */
    method PostStream(post: Stream, startOk: bool)
      requires Valid()
      modifies settings, supervisor
      ensures Valid()
      ensures settings.streams == Posted(old(settings.streams), post)
      ensures settings.config == old(settings.config)
      ensures supervisor.currentUrl == DownstreamUrl(settings.streams)
      ensures supervisor.Vars() == Step(old(supervisor.Vars()), DownstreamUrl(settings.streams), startOk)
      ensures supervisor.events == old(supervisor.events) + StreamPostEvents(old(supervisor.Vars()), old(settings.streams), post, startOk)
    {
      var url := settings.PostStream(post);
      supervisor.Feed(url, startOk);
    }

    /**
     * A settings POST: five fields copied, "" sent to the supervisor, then the
     * recompute post handled by the selector, whose URL goes to the supervisor.
     */
    method PostSettings(posted: Config, startOk: bool)
      requires Valid()
      modifies settings, supervisor
      ensures Valid()
      ensures settings.config == old(settings.config).(
        VideoWidth := posted.VideoWidth,
        VideoHeight := posted.VideoHeight,
        VideoBitrate := posted.VideoBitrate,
        AudioBitrate := posted.AudioBitrate,
        CaptureCacheMs := posted.CaptureCacheMs)
      ensures settings.streams == Posted(old(settings.streams), RecomputePost)
      ensures supervisor.currentUrl == DownstreamUrl(settings.streams)
      ensures supervisor.events == old(supervisor.events) + SettingsPostEvents(old(supervisor.Vars()), old(settings.streams), startOk)
      ensures old(supervisor.currentUrl) == old(DownstreamUrl(settings.streams)) != "" ==>
        && supervisor.events == old(supervisor.events) + (if old(supervisor.running) then [Kill, Wait] else []) + [Start(old(supervisor.currentUrl), startOk)]
        && supervisor.Vars() == LoopVars(startOk, old(supervisor.currentUrl))
    {
      ghost var v0, ss0, e0 := supervisor.Vars(), settings.streams, supervisor.events;
      settings.ApplySettingsPost(posted);
      supervisor.Feed("", false);
      var url := settings.PostStream(RecomputePost);
      supervisor.Feed(url, startOk);
      ConcatAssoc(e0, StepEvents(v0, "", false), StepEvents(Step(v0, "", false), url, startOk));
      if v0.currentUrl == DownstreamUrl(ss0) != "" {
        SettingsPostRestartsOnce(v0, ss0, startOk);
      }
    }
  }
}
